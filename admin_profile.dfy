/** The admin profile form of frontend/src/components/admin/AdminProfile.js:
    the client-side checks made before the request, the request body, and
    the form after the server accepted it. */
module AdminProfileForm {
  import opened Common
  import opened UserModel
  import opened AdminRoutes
  import opened AuthContext

  const PasswordsDiffer := "New passwords do not match"
  const CurrentRequired := "Current password required to change password"

  datatype ProfileForm = ProfileForm(name: string, email: string, currentPassword: string,
                                     newPassword: string, confirmPassword: string)

  /** A submit either stops with a message or sends a body; a field the
      body leaves out is the empty string. */
  datatype Submission = Refused(message: string) | Send(body: ProfileEdit)

  /** The form filled from the signed-in user, or empty without one. */
  function InitialForm(user: Option<Profile>): (f: ProfileForm)
    ensures f.currentPassword == "" && f.newPassword == "" && f.confirmPassword == ""
    ensures user.Some? ==> f.name == user.value.name && f.email == user.value.email
    ensures user.None? ==> f.name == "" && f.email == ""
  {
    match user
    case None => ProfileForm("", "", "", "", "")
    case Some(u) => ProfileForm(u.name, u.email, "", "", "")
  }

  /** `handleSubmit` up to the request: the mismatch check, then the
      missing-current check, then the body, which carries the password
      fields only when a new password is typed. */
  function Submit(f: ProfileForm): (s: Submission)
    ensures s.Refused? <==> f.newPassword != "" && (f.newPassword != f.confirmPassword || f.currentPassword == "")
    ensures f.newPassword != "" && f.newPassword != f.confirmPassword ==> s == Refused(PasswordsDiffer)
    ensures f.newPassword != "" && f.newPassword == f.confirmPassword && f.currentPassword == "" ==>
              s == Refused(CurrentRequired)
    ensures s.Send? ==> s.body.name == f.name && s.body.email == f.email
    ensures s.Send? && f.newPassword == "" ==> s.body.currentPassword == "" && s.body.newPassword == ""
    ensures s.Send? && f.newPassword != "" ==>
              s.body.currentPassword == f.currentPassword && s.body.newPassword == f.newPassword
  {
    if f.newPassword != "" && f.newPassword != f.confirmPassword then Refused(PasswordsDiffer)
    else if f.newPassword != "" && f.currentPassword == "" then Refused(CurrentRequired)
    else if f.newPassword != "" then Send(ProfileEdit(f.name, f.email, f.currentPassword, f.newPassword))
    else Send(ProfileEdit(f.name, f.email, "", ""))
  }

  /** The form never sends a new password without the current one. */
  lemma NoNewPasswordWithoutCurrent(f: ProfileForm)
    requires Submit(f).Send? && Submit(f).body.newPassword != ""
    ensures Submit(f).body.currentPassword != ""
  {
  }

  /** So through the form a password change is saved only when the current
      password matches the admin's stored one, although the server alone
      would take a new password with no current one. */
  lemma FormPasswordChangeNeedsMatch(us: seq<User>, adminId: Id, f: ProfileForm, matches: (string, string) -> bool)
    requires Submit(f).Send? && f.newPassword != ""
    requires UpdateProfile(us, adminId, Submit(f).body, matches).reply.Ok?
    ensures exists k :: 0 <= k < |us| && us[k].id == adminId && matches(f.currentPassword, us[k].password)
  {
    var e := Submit(f).body;
    var k :| 0 <= k < |us| && us[k].id == adminId
               && (forall j :: 0 <= j < k ==> us[j].id != adminId)
               && PasswordGuardPasses(us[k], e, matches) && EmailGuardPasses(us, us[k], e);
  }

  /** The form once the request settled: after a success the three password
      fields are cleared, after a failure the form is kept. */
  function AfterReply(f: ProfileForm, accepted: bool): (f': ProfileForm)
    ensures accepted ==> f'.currentPassword == "" && f'.newPassword == "" && f'.confirmPassword == ""
    ensures f'.name == f.name && f'.email == f.email
    ensures !accepted ==> f' == f
  {
    if accepted then f.(currentPassword := "", newPassword := "", confirmPassword := "") else f
  }

  /** A cleared form submits again without any password fields. */
  lemma ClearedFormSendsNoPassword(f: ProfileForm)
    ensures Submit(AfterReply(f, true)) == Send(ProfileEdit(f.name, f.email, "", ""))
  {
  }
}
