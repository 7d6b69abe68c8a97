/** The settings page: filling the profile form from the account's metadata,
    the profile payload it saves, and the checks in front of a password
    change. */
module Settings {
  import opened Optional
  import opened Notices

  /** Account metadata as the authentication service returns it: a missing
      key is `undefined`. */
  type Metadata = map<string, string>

  datatype ProfileForm = ProfileForm(displayName: string, schoolName: string, className: string, studentId: string)

  /** `user.user_metadata?.<key> || ""`. */
  function Field(m: Metadata, key: string): string
  {
    if key in m then m[key] else ""
  }

  /** The form as `initUser` fills it: each field from its metadata value,
      or "" when the account has none. */
  function InitialForm(m: Metadata): (f: ProfileForm)
    ensures f.displayName == (if "display_name" in m then m["display_name"] else "")
    ensures f.schoolName == (if "school_name" in m then m["school_name"] else "")
    ensures f.className == (if "class_name" in m then m["class_name"] else "")
    ensures f.studentId == (if "student_id" in m then m["student_id"] else "")
  {
    ProfileForm(Field(m, "display_name"), Field(m, "school_name"), Field(m, "class_name"), Field(m, "student_id"))
  }

  /** The `data` that `handleUpdateProfile` sends: exactly the four profile
      keys, each carrying its form field. */
  function ProfilePayload(f: ProfileForm): (p: Metadata)
    ensures p.Keys == {"display_name", "school_name", "class_name", "student_id"}
    ensures p["display_name"] == f.displayName && p["school_name"] == f.schoolName
    ensures p["class_name"] == f.className && p["student_id"] == f.studentId
  {
    map["display_name" := f.displayName, "school_name" := f.schoolName,
        "class_name" := f.className, "student_id" := f.studentId]
  }

  /** Saving the profile and loading the page again shows the saved form,
      whatever other metadata the account carries (the service merges the
      payload over the existing metadata). */
  lemma SavedProfileReloads(f: ProfileForm, existing: Metadata)
    ensures InitialForm(existing + ProfilePayload(f)) == f
  {
  }

  /** The notice after the profile update; `error` is the service's error
      message, if any. */
  function ProfileNotice(error: Option<string>): (n: Notice)
    ensures error.None? ==> n == Notice(Success, "个人资料已更新！", None)
    ensures error.Some? ==> n == Notice(Error, "更新失败", Some(error.value))
  {
    match error
    case None => Notice(Success, "个人资料已更新！", None)
    case Some(msg) => Notice(Error, "更新失败", Some(msg))
  }

  // ---------------------------------------------------------------------------
  // Password change
  // ---------------------------------------------------------------------------

  datatype PasswordForm = PasswordForm(newPassword: string, confirmPassword: string)

  const MismatchNotice: Notice := Notice(Error, "两次输入的密码不一致", None)
  const TooShortNotice: Notice := Notice(Error, "密码长度至少需要 6 位", None)

  /** What `handleChangePassword` does before any I/O: reject with a notice,
      or send the new password. */
  datatype PasswordStep = Rejected(notice: Notice) | Update(password: string)

  /** `handleChangePassword` up to the update call. The call is issued
      exactly when the two entries agree and are at least 6 long; the
      mismatch check comes first, so a mismatch is reported as such even when
      the entry is also too short. */
  function PasswordRequest(f: PasswordForm): (r: PasswordStep)
    ensures r.Update? <==> f.newPassword == f.confirmPassword && |f.newPassword| >= 6
    ensures r.Update? ==> r.password == f.newPassword
    ensures f.newPassword != f.confirmPassword ==> r == Rejected(MismatchNotice)
    ensures f.newPassword == f.confirmPassword && |f.newPassword| < 6 ==> r == Rejected(TooShortNotice)
  {
    if f.newPassword != f.confirmPassword then Rejected(MismatchNotice)
    else if |f.newPassword| < 6 then Rejected(TooShortNotice)
    else Update(f.newPassword)
  }

  /** The whole handler: the form and the notice afterwards, given the
      update call's error message if it fails. Both fields are cleared only
      after a successful update. */
  function ChangePassword(f: PasswordForm, error: Option<string>): (r: (PasswordForm, Notice))
    ensures PasswordRequest(f).Update? && error.None? ==> r.0 == PasswordForm("", "") && r.1.level == Success
    ensures PasswordRequest(f).Update? && error.Some? ==> r.0 == f && r.1 == Notice(Error, "修改失败", Some(error.value))
    ensures PasswordRequest(f).Rejected? ==> r.0 == f && r.1 == PasswordRequest(f).notice
  {
    match PasswordRequest(f)
    case Rejected(n) => (f, n)
    case Update(_) =>
      match error
      case None => (PasswordForm("", ""), Notice(Success, "密码修改成功！下次登录请使用新密码。", None))
      case Some(msg) => (f, Notice(Error, "修改失败", Some(msg)))
  }
}
