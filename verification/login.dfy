/** The login page: turning a student number into a sign-in e-mail address,
    translating the authentication service's error messages, and the
    agreement guard in front of both forms. */
module Login {
  import opened Optional
  import opened JsText
  import opened Notices

  const EmailSuffix: string := "@example.com"

  /** `formatEmail`: a trimmed identifier that already holds an '@' is used
      as it is; any other gets the fixed suffix. */
  function FormatEmail(id: string): (r: string)
    ensures '@' in r
    ensures '@' in Trim(id) ==> r == Trim(id)
    ensures '@' !in Trim(id) ==> r == Trim(id) + EmailSuffix
    ensures Clean(r)
  {
    var clean := Trim(id);
    SuffixKeepsClean(clean);
    if '@' in clean then clean else clean + EmailSuffix
  }

  /** Appending the suffix to a trimmed identifier yields a trimmed address. */
  lemma SuffixKeepsClean(clean: string)
    requires Clean(clean)
    ensures '@' in clean + EmailSuffix && Clean(clean + EmailSuffix)
  {
    var r := clean + EmailSuffix;
    assert r[|clean|] == EmailSuffix[0] == '@';
    assert r[|r| - 1] == EmailSuffix[|EmailSuffix| - 1] == 'm';
    if clean != [] {
      assert r[0] == clean[0];
    }
  }

  /** Formatting an address already formatted changes nothing. */
  lemma FormatEmailIdempotent(id: string)
    ensures FormatEmail(FormatEmail(id)) == FormatEmail(id)
  {
  }

  const CredentialsText: string := "学号或密码错误，请重试。"
  const RegisteredText: string := "该学号已被注册，请直接登录。"
  const PasswordLengthText: string := "密码长度至少需要 6 位。"
  const SessionExpiredText: string := "登录会话已过期，请刷新页面重试。"
  const IdFormatText: string := "学号格式有误（请勿包含空格或特殊字符）。"

  /** `translateError`: the first listed substring the message contains
      decides the text shown. */
  function TranslateError(msg: string): (r: string)
    ensures Contains(msg, "Invalid login credentials") ==> r == CredentialsText
    ensures (&& !Contains(msg, "Invalid login credentials")
             && !Contains(msg, "User already registered")
             && !Contains(msg, "Password should be at least")
             && !Contains(msg, "invalid claim")
             && !Contains(msg, "Unable to validate email address")
             && !Contains(msg, "invalid"))
            ==> r == msg
  {
    if Contains(msg, "Invalid login credentials") then CredentialsText
    else if Contains(msg, "User already registered") then RegisteredText
    else if Contains(msg, "Password should be at least") then PasswordLengthText
    else if Contains(msg, "invalid claim") then SessionExpiredText
    else if Contains(msg, "Unable to validate email address") || Contains(msg, "invalid") then IdFormatText
    else msg
  }

  /** A translation rule: the substrings that trigger it, and its text. */
  datatype Rule = Rule(triggers: seq<string>, text: string)

  const ErrorRules: seq<Rule> := [
    Rule(["Invalid login credentials"], CredentialsText),
    Rule(["User already registered"], RegisteredText),
    Rule(["Password should be at least"], PasswordLengthText),
    Rule(["invalid claim"], SessionExpiredText),
    Rule(["Unable to validate email address", "invalid"], IdFormatText)
  ]

  predicate Fires(r: Rule, msg: string)
  {
    exists k :: 0 <= k < |r.triggers| && Contains(msg, r.triggers[k])
  }

  /** First-match-wins over a rule table; a message no rule fires on passes
      through unchanged. */
  function FirstMatch(rules: seq<Rule>, msg: string): string
  {
    if |rules| == 0 then msg
    else if Fires(rules[0], msg) then rules[0].text
    else FirstMatch(rules[1..], msg)
  }

  /** With no rule firing the message is kept. */
  lemma {:induction false} FirstMatchNoneFires(rules: seq<Rule>, msg: string)
    requires forall i :: 0 <= i < |rules| ==> !Fires(rules[i], msg)
    ensures FirstMatch(rules, msg) == msg
  {
    if |rules| > 0 {
      assert !Fires(rules[0], msg);
      var tail := rules[1..];
      forall i | 0 <= i < |tail|
        ensures !Fires(tail[i], msg)
      {
        assert tail[i] == rules[i + 1];
      }
      FirstMatchNoneFires(tail, msg);
    }
  }

  /** The text of the first rule that fires is chosen, whatever later rules
      would say. */
  lemma {:induction false} FirstMatchFirstFiring(rules: seq<Rule>, msg: string, i: nat)
    requires i < |rules| && Fires(rules[i], msg)
    requires forall j :: 0 <= j < i ==> !Fires(rules[j], msg)
    ensures FirstMatch(rules, msg) == rules[i].text
  {
    if i > 0 {
      assert !Fires(rules[0], msg);
      var tail := rules[1..];
      assert tail[i - 1] == rules[i];
      forall j | 0 <= j < i - 1
        ensures !Fires(tail[j], msg)
      {
        assert tail[j] == rules[j + 1];
      }
      FirstMatchFirstFiring(tail, msg, i - 1);
    }
  }

  /** Firing a one-trigger rule is containing its trigger. */
  lemma FiresOne(r: Rule, msg: string)
    requires |r.triggers| == 1
    ensures Fires(r, msg) <==> Contains(msg, r.triggers[0])
  {
    if Contains(msg, r.triggers[0]) {
      assert 0 < |r.triggers|;
    }
  }

  /** Firing a two-trigger rule is containing either trigger. */
  lemma FiresTwo(r: Rule, msg: string)
    requires |r.triggers| == 2
    ensures Fires(r, msg) <==> Contains(msg, r.triggers[0]) || Contains(msg, r.triggers[1])
  {
    if Contains(msg, r.triggers[1]) {
      assert 1 < |r.triggers|;
    }
  }

  /** The chain of `if`s is the first-match reading of the rule table. */
  lemma TranslateErrorIsFirstMatch(msg: string)
    ensures TranslateError(msg) == FirstMatch(ErrorRules, msg)
  {
    var rs := ErrorRules;
    FiresOne(rs[0], msg);
    FiresOne(rs[1], msg);
    FiresOne(rs[2], msg);
    FiresOne(rs[3], msg);
    FiresTwo(rs[4], msg);
    forall k | 0 <= k < |rs|
      ensures FirstMatch(rs[k..], msg)
              == if Fires(rs[k], msg) then rs[k].text else FirstMatch(rs[k + 1..], msg)
    {
      assert rs[k..][0] == rs[k] && rs[k..][1..] == rs[k + 1..];
    }
    assert FirstMatch(rs[5..], msg) == msg;
    assert rs[0..] == rs;
  }

  /** "invalid claim" also contains "invalid", so the id-format rule would
      fire on it; the earlier session rule shadows it. */
  lemma InvalidClaimIsSessionExpiry(msg: string)
    requires Contains(msg, "invalid claim")
    requires !Contains(msg, "Invalid login credentials")
    requires !Contains(msg, "User already registered")
    requires !Contains(msg, "Password should be at least")
    ensures Contains(msg, "invalid")
    ensures TranslateError(msg) == SessionExpiredText
    ensures TranslateError(msg) != IdFormatText
  {
    ContainsPrefix(msg, "invalid claim", "invalid");
  }

  // ---------------------------------------------------------------------------
  // The two forms
  // ---------------------------------------------------------------------------

  datatype Tab = LoginTab | RegisterTab

  /** The page's form state. */
  datatype LoginForm = LoginForm(
    agreed: bool,
    loginId: string, password: string,
    school: string, clazz: string, realName: string, studentId: string, regPassword: string,
    activeTab: Tab)

  datatype AuthCall =
    | SignIn(email: string, password: string)
    | SignUp(email: string, password: string, metadata: map<string, string>)

  /** What a submit does before any I/O: warn and stop, or call the
      authentication service. */
  datatype Submission = Blocked(warning: Notice) | Call(request: AuthCall)

  const AgreementWarning: Notice := Notice(Warning, "请先勾选同意用户协议", None)

  /** `handleLogin` up to the sign-in call. */
  function LoginRequest(f: LoginForm): (s: Submission)
    ensures s.Call? <==> f.agreed
    ensures s.Blocked? ==> s.warning.level == Warning
    ensures s.Call? ==> s.request == SignIn(FormatEmail(f.loginId), f.password)
  {
    if !f.agreed then Blocked(AgreementWarning)
    else Call(SignIn(FormatEmail(f.loginId), f.password))
  }

  /** The user metadata a registration stores. */
  function RegistrationMetadata(f: LoginForm): (m: map<string, string>)
    ensures m.Keys == {"display_name", "school_name", "class_name", "student_id", "role"}
    ensures m["display_name"] == f.realName && m["school_name"] == f.school
    ensures m["class_name"] == f.clazz && m["student_id"] == f.studentId && m["role"] == "student"
  {
    map["display_name" := f.realName, "school_name" := f.school, "class_name" := f.clazz,
        "student_id" := f.studentId, "role" := "student"]
  }

  /** `handleRegister` up to the sign-up call. */
  function RegisterRequest(f: LoginForm): (s: Submission)
    ensures s.Call? <==> f.agreed
    ensures s.Blocked? ==> s.warning.level == Warning
    ensures s.Call? ==> s.request == SignUp(FormatEmail(f.studentId), f.regPassword, RegistrationMetadata(f))
  {
    if !f.agreed then Blocked(AgreementWarning)
    else Call(SignUp(FormatEmail(f.studentId), f.regPassword, RegistrationMetadata(f)))
  }

  /** The notice after the sign-in call; `error` is the service's error
      message, if any. */
  function LoginNotice(error: Option<string>): (n: Notice)
    ensures error.None? ==> n.level == Success
    ensures error.Some? ==> n == Notice(Error, "登录失败", Some(TranslateError(error.value)))
  {
    match error
    case None => Notice(Success, "欢迎回来！正在进入测评中心...", None)
    case Some(msg) => Notice(Error, "登录失败", Some(TranslateError(msg)))
  }

  /** The form and notice after the sign-up call: on success the login tab
      opens with the student number filled in. */
  function AfterRegister(f: LoginForm, error: Option<string>): (r: (LoginForm, Notice))
    ensures error.Some? ==> r.0 == f && r.1 == Notice(Error, "注册失败", Some(TranslateError(error.value)))
    ensures error.None? ==> r.0 == f.(loginId := f.studentId, activeTab := LoginTab) && r.1.level == Success
  {
    match error
    case None =>
      (f.(loginId := f.studentId, activeTab := LoginTab),
       Notice(Success, "注册成功！", Some("你好，" + f.realName + "同学！账号已创建，请使用学号登录。")))
    case Some(msg) => (f, Notice(Error, "注册失败", Some(TranslateError(msg))))
  }

  /** After a successful registration the login form signs in with exactly
      the address the account was created under. */
  lemma RegisteredAddressSignsIn(f: LoginForm)
    requires f.agreed
    ensures var f' := AfterRegister(f, None).0;
      LoginRequest(f').Call? && RegisterRequest(f).Call?
      && LoginRequest(f').request.email == RegisterRequest(f).request.email
  {
  }
}
