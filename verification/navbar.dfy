/** The navigation bar's derived display values: the name, the identifier
    under it, the avatar letter, and the scrolled style switch. */
module Navbar {
  import opened Optional
  import opened JsText
  import Login

  /** The signed-in user as the bar reads it: `user_metadata` (a missing key
      is `undefined`) and `email`. */
  datatype User = User(metadata: map<string, string>, email: Option<string>)

  const DefaultName: string := "同学"
  const DefaultId: string := "User"
  const DefaultAvatar: string := "S"

  /** `user?.user_metadata?.<key>`, with `undefined` and "" both read as "". */
  function MetadataValue(user: Option<User>, key: string): string
  {
    if user.Some? && key in user.value.metadata then user.value.metadata[key] else ""
  }

  /** `user?.email?.split("@")[0]`, "" when there is no address. */
  function EmailPrefix(user: Option<User>): (r: string)
    ensures user.Some? && user.value.email.Some? ==> r <= user.value.email.value && '@' !in r
    ensures user.Some? && user.value.email.Some? ==>
      var e := user.value.email.value;
      (|r| < |e| <==> '@' in e) && (|r| < |e| ==> e[|r|] == '@')
    ensures user.None? || user.value.email.None? ==> r == ""
  {
    if user.Some? && user.value.email.Some? then BeforeFirst(user.value.email.value, '@') else ""
  }

  /** `displayName`: the stored display name when non-empty, else "同学". */
  function DisplayName(user: Option<User>): (r: string)
    ensures r != ""
    ensures MetadataValue(user, "display_name") != "" ==> r == MetadataValue(user, "display_name")
    ensures MetadataValue(user, "display_name") == "" ==> r == DefaultName
  {
    var name := MetadataValue(user, "display_name");
    if name != "" then name else DefaultName
  }

  /** `displayId`: the student number, else the part of the e-mail address
      before its first '@', else "User". */
  function DisplayId(user: Option<User>): (r: string)
    ensures r != ""
    ensures MetadataValue(user, "student_id") != "" ==> r == MetadataValue(user, "student_id")
    ensures MetadataValue(user, "student_id") == "" && EmailPrefix(user) != "" ==> r == EmailPrefix(user)
    ensures MetadataValue(user, "student_id") == "" && EmailPrefix(user) == "" ==> r == DefaultId
  {
    var sid := MetadataValue(user, "student_id");
    if sid != "" then sid
    else
      var prefix := EmailPrefix(user);
      if prefix != "" then prefix else DefaultId
  }

  /** An address without '@' is its own prefix; an address starting with '@'
      has an empty prefix, so the identifier falls through to "User". */
  lemma EmailPrefixEdges(m: map<string, string>, email: string)
    ensures '@' !in email ==> EmailPrefix(Some(User(m, Some(email)))) == email
    ensures |email| > 0 && email[0] == '@' && ("student_id" !in m || m["student_id"] == "") ==>
      DisplayId(Some(User(m, Some(email)))) == DefaultId
  {
  }

  /** `displayName[0]?.toUpperCase() || "S"`; `upcase` stands for
      `toUpperCase`. */
  function AvatarFallback(name: string, upcase: string -> string): (r: string)
    ensures r != ""
    ensures name != [] && upcase([name[0]]) != "" ==> r == upcase([name[0]])
    ensures name == [] || upcase([name[0]]) == "" ==> r == DefaultAvatar
  {
    if name == [] then DefaultAvatar
    else
      var up := upcase([name[0]]);
      if up != "" then up else DefaultAvatar
  }

  /** Since the display name is never empty, the avatar is the upper-cased
      first character of the display name whenever upper-casing keeps a
      character. */
  lemma AvatarFromDisplayName(user: Option<User>, upcase: string -> string)
    requires upcase([DisplayName(user)[0]]) != ""
    ensures AvatarFallback(DisplayName(user), upcase) == upcase([DisplayName(user)[0]])
  {
  }

  /** `window.scrollY > 20`. */
  function IsScrolled(scrollY: real): bool
  {
    scrollY > 20.0
  }

  /** The scrolled style switches on strictly past 20 pixels and stays on
      further down. */
  lemma ScrollThreshold(y: real, z: real)
    ensures !IsScrolled(20.0)
    ensures y > 20.0 <==> IsScrolled(y)
    ensures y <= z && IsScrolled(y) ==> IsScrolled(z)
  {
  }

  /** After registering, the bar shows the student's real name (when one was
      given) and student number (when one was given) from the stored
      metadata. */
  lemma RegisteredStudentShown(f: Login.LoginForm, email: Option<string>)
    ensures var user := Some(User(Login.RegistrationMetadata(f), email));
      && (f.realName != "" ==> DisplayName(user) == f.realName)
      && (f.studentId != "" ==> DisplayId(user) == f.studentId)
  {
  }
}
