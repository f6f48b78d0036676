/** The handler of backend/routes/admin.js: the admin's own profile update,
    guarded by the current-password check and the email-conflict check. */
module AdminRoutes {
  import opened Common
  import opened Seqs
  import opened UserModel

  const WrongPassword := "Current password is incorrect"
  const EmailInUse := "Email already in use"
  /** Stands for the message of the TypeError raised when the admin's user
      document is gone. */
  const MissingAdmin := "Cannot read properties of null"

  /** The body of PUT /profile; an absent field is the empty string. */
  datatype ProfileEdit = ProfileEdit(name: string, email: string, currentPassword: string, newPassword: string)

  /** The `user` object of the reply. */
  datatype AdminView = AdminView(id: Id, name: string, email: string, role: string)

  function ViewOf(u: User): AdminView {
    AdminView(u.id, u.name, u.email, u.role)
  }

  /** The three guarded assignments: a non-empty name, a non-empty email
      and a non-empty new password replace the stored ones; no other field
      is touched. */
  function ApplyProfileEdits(a: User, e: ProfileEdit): (a': User)
    ensures a'.name == (if e.name != "" then e.name else a.name)
    ensures a'.email == (if e.email != "" then e.email else a.email)
    ensures a'.password == (if e.newPassword != "" then e.newPassword else a.password)
    ensures a' == a.(name := a'.name, email := a'.email, password := a'.password)
  {
    var a1 := if e.email != "" && e.email != a.email then a.(email := e.email) else a;
    var a2 := if e.name != "" then a1.(name := e.name) else a1;
    if e.newPassword != "" then a2.(password := e.newPassword) else a2
  }

  /** Some user other than `self` holds `email`. */
  function HeldByOther(email: string, self: Id): User -> bool {
    (u: User) => u.email == email && u.id != self
  }

  /** The password guard passes: no current password was given, or it
      matches the stored one. */
  predicate PasswordGuardPasses(a: User, e: ProfileEdit, matches: (string, string) -> bool) {
    e.currentPassword == "" || matches(e.currentPassword, a.password)
  }

  /** The email guard passes: the email is absent or unchanged, or no other
      user holds it. */
  predicate EmailGuardPasses(us: seq<User>, a: User, e: ProfileEdit) {
    e.email == "" || e.email == a.email ||
    forall j :: 0 <= j < |us| ==> !(us[j].email == e.email && us[j].id != a.id)
  }

  /** PUT /profile, with `matches(candidate, stored)` standing for the
      password comparison of the user model. */
  function UpdateProfile(us: seq<User>, adminId: Id, e: ProfileEdit, matches: (string, string) -> bool)
    : (r: Outcome<seq<User>, AdminView>)
    ensures (forall k :: 0 <= k < |us| ==> us[k].id != adminId) ==> r == Outcome(ServerError(MissingAdmin), us)
    ensures r.reply.Ok? <==>
              exists k :: 0 <= k < |us| && us[k].id == adminId
                && (forall j :: 0 <= j < k ==> us[j].id != adminId)
                && PasswordGuardPasses(us[k], e, matches) && EmailGuardPasses(us, us[k], e)
    ensures r.reply.Ok? ==>
              exists k :: 0 <= k < |us| && us[k].id == adminId
                && r.state == us[k := ApplyProfileEdits(us[k], e)]
                && r.reply.value == ViewOf(ApplyProfileEdits(us[k], e))
    ensures !r.reply.Ok? ==> r.state == us
  {
    match Find(us, UserIs(adminId))
    case None => Outcome(ServerError(MissingAdmin), us)
    case Some(k) =>
      var a := us[k];
      if !PasswordGuardPasses(a, e, matches) then Outcome(BadRequest(WrongPassword), us)
      else if e.email != "" && e.email != a.email && Find(us, HeldByOther(e.email, a.id)).Some? then
        Outcome(BadRequest(EmailInUse), us)
      else
        var a' := ApplyProfileEdits(a, e);
        Outcome(Ok(ViewOf(a')), us[k := a'])
  }

  /** A supplied current password that does not match is refused and
      nothing is saved. */
  lemma WrongPasswordRefused(us: seq<User>, bound: Id, k: nat, e: ProfileEdit, matches: (string, string) -> bool)
    requires ValidUsers(us, bound) && k < |us|
    requires e.currentPassword != "" && !matches(e.currentPassword, us[k].password)
    ensures UpdateProfile(us, us[k].id, e, matches) == Outcome(BadRequest(WrongPassword), us)
  {
    FoundUserIsUnique(us, bound, k);
  }

  /** Moving to an email another user holds is refused and nothing is
      saved. */
  lemma EmailConflictRefused(us: seq<User>, bound: Id, k: nat, j: nat, e: ProfileEdit,
                             matches: (string, string) -> bool)
    requires ValidUsers(us, bound) && k < |us| && j < |us| && j != k
    requires PasswordGuardPasses(us[k], e, matches)
    requires e.email != "" && e.email == us[j].email
    ensures UpdateProfile(us, us[k].id, e, matches) == Outcome(BadRequest(EmailInUse), us)
  {
    FoundUserIsUnique(us, bound, k);
    ValidUserIdsDistinct(us, bound, j, k);
    assert e.email != us[k].email by {
      if j < k {
        assert us[j].email != us[k].email;
      } else {
        assert us[k].email != us[j].email;
      }
    }
    assert HeldByOther(e.email, us[k].id)(us[j]);
    assert Find(us, HeldByOther(e.email, us[k].id)).Some?;
  }

  /** With no current password, a new password is applied all the same;
      role and every field but name, email and password are kept. */
  lemma NewPasswordWithoutCurrent(us: seq<User>, bound: Id, k: nat, e: ProfileEdit,
                                  matches: (string, string) -> bool)
    requires ValidUsers(us, bound) && k < |us|
    requires e.currentPassword == "" && e.newPassword != "" && (e.email == "" || e.email == us[k].email)
    ensures UpdateProfile(us, us[k].id, e, matches).reply.Ok?
    ensures UpdateProfile(us, us[k].id, e, matches).state[k].password == e.newPassword
    ensures UpdateProfile(us, us[k].id, e, matches).state[k].role == us[k].role
  {
    FoundUserIsUnique(us, bound, k);
  }

  /** A successful update keeps emails distinct, so the store stays valid. */
  lemma UpdateProfileKeepsValid(us: seq<User>, bound: Id, adminId: Id, e: ProfileEdit,
                                matches: (string, string) -> bool)
    requires ValidUsers(us, bound)
    ensures ValidUsers(UpdateProfile(us, adminId, e, matches).state, bound)
  {
    var r := UpdateProfile(us, adminId, e, matches);
    if r.reply.Ok? {
      var k :| 0 <= k < |us| && us[k].id == adminId && r.state == us[k := ApplyProfileEdits(us[k], e)];
      FoundUserIsUnique(us, bound, k);
      var a' := ApplyProfileEdits(us[k], e);
      if a'.email == us[k].email {
        ReplaceSameEmailKeepsValid(us, bound, k, a');
      } else {
        assert Find(us, HeldByOther(e.email, us[k].id)).None?;
        forall j | 0 <= j < |us| && j != k ensures us[j].email != a'.email {
          ValidUserIdsDistinct(us, bound, j, k);
          assert !HeldByOther(e.email, us[k].id)(us[j]);
        }
        ReplaceKeepsValid(us, bound, k, a');
      }
    }
  }
}
