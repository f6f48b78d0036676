/** The handlers of backend/routes/auth.js: registration, password login
    and Google login. Token signing is not part of the model; the Google
    ticket check is an input that either yields the profile or fails. */
module AuthRoutes {
  import opened Common
  import opened Seqs
  import opened UserModel

  const UserExists := "User already exists"
  const InvalidCredentials := "Invalid credentials"
  const AuthenticationFailed := "Authentication failed"

  /** The body of POST /register; an absent field is the empty string. */
  datatype Registration = Registration(name: string, email: string, password: string, phone: string, address: string)

  /** The `user` object of the register and login replies. */
  datatype UserView = UserView(id: Id, name: string, email: string, role: string)

  /** What a verified Google ID token carries. */
  datatype GoogleProfile = GoogleProfile(email: string, name: string, picture: string)

  /** The `user` object of the Google login reply. */
  datatype GoogleView = GoogleView(id: Id, name: string, email: string, role: string, profilePicture: string)

  /** POST /register: a new customer, unless a user already has the email. */
  function Register(us: seq<User>, id: Id, reg: Registration): (r: Outcome<seq<User>, UserView>)
    ensures (exists k :: 0 <= k < |us| && us[k].email == reg.email) ==> r == Outcome(BadRequest(UserExists), us)
    ensures r.reply.Ok? <==> forall k :: 0 <= k < |us| ==> us[k].email != reg.email
    ensures r.reply.Ok? ==>
              && r.state == us + [NewUser(id, reg.name, reg.email, reg.password, reg.phone, reg.address)]
              && r.reply.value == UserView(id, reg.name, reg.email, CustomerRole)
  {
    if Find(us, EmailIs(reg.email)).Some? then Outcome(BadRequest(UserExists), us)
    else
      var u := NewUser(id, reg.name, reg.email, reg.password, reg.phone, reg.address);
      Outcome(Ok(UserView(id, reg.name, reg.email, u.role)), us + [u])
  }

  lemma RegisterKeepsValid(us: seq<User>, id: Id, reg: Registration)
    requires ValidUsers(us, id)
    ensures ValidUsers(Register(us, id, reg).state, id + 1)
  {
    var r := Register(us, id, reg);
    assert forall j :: 0 <= j < |us| ==> UserKey(us[j]) < id;
    if r.reply.Ok? {
      AppendKeepsValid(us, id, NewUser(id, reg.name, reg.email, reg.password, reg.phone, reg.address));
    }
  }

  /** POST /login, with `matches(candidate, stored)` standing for the
      password comparison of the user model: an unknown email and a wrong
      password get the same answer, and a success only records the login
      time. */
  function Login(us: seq<User>, email: string, password: string, now: Timestamp,
                 matches: (string, string) -> bool): (r: Outcome<seq<User>, UserView>)
    ensures r.reply.Ok? <==>
              exists k :: 0 <= k < |us| && us[k].email == email && matches(password, us[k].password)
                && forall j :: 0 <= j < k ==> us[j].email != email
    ensures !r.reply.Ok? ==> r == Outcome(BadRequest(InvalidCredentials), us)
    ensures r.reply.Ok? ==>
              exists k :: 0 <= k < |us| && us[k].email == email
                && r.state == us[k := us[k].(lastLogin := Some(now))]
                && r.reply.value == UserView(us[k].id, us[k].name, email, us[k].role)
  {
    match Find(us, EmailIs(email))
    case None => Outcome(BadRequest(InvalidCredentials), us)
    case Some(k) =>
      if !matches(password, us[k].password) then Outcome(BadRequest(InvalidCredentials), us)
      else
        var u := us[k].(lastLogin := Some(now));
        Outcome(Ok(UserView(u.id, u.name, email, u.role)), us[k := u])
  }

  /** In a valid store a login succeeds exactly when the password matches
      the one user with that email. */
  lemma LoginOfUser(us: seq<User>, bound: Id, k: nat, password: string, now: Timestamp,
                    matches: (string, string) -> bool)
    requires ValidUsers(us, bound) && k < |us|
    ensures Login(us, us[k].email, password, now, matches).reply.Ok? <==> matches(password, us[k].password)
  {
    var r := Find(us, EmailIs(us[k].email));
    assert r.Some?;
  }

  lemma LoginKeepsValid(us: seq<User>, bound: Id, email: string, password: string, now: Timestamp,
                        matches: (string, string) -> bool)
    requires ValidUsers(us, bound)
    ensures ValidUsers(Login(us, email, password, now, matches).state, bound)
  {
    var r := Login(us, email, password, now, matches);
    if r.reply.Ok? {
      var k :| 0 <= k < |us| && us[k].email == email && r.state == us[k := us[k].(lastLogin := Some(now))];
      ReplaceSameEmailKeepsValid(us, bound, k, us[k].(lastLogin := Some(now)));
    }
  }

  /** The account Google login creates: flagged as a Google user, with the
      Google picture and a random password. */
  function NewGoogleUser(id: Id, p: GoogleProfile, randomPassword: string): (u: User)
    ensures u.isGoogleUser && u.profilePicture == p.picture
    ensures u.id == id && u.name == p.name && u.email == p.email && u.password == randomPassword
    ensures u.role == CustomerRole && u.loyaltyPoints == 0 && u.favoriteItems == []
  {
    NewUser(id, p.name, p.email, randomPassword, "", "").(profilePicture := p.picture, isGoogleUser := true)
  }

  /** POST /google: `ticket` is the verified profile, or `None` when the ID
      token does not verify. The user with the email is reused, else one is
      created; either way the login time is recorded. */
  function GoogleLogin(us: seq<User>, id: Id, ticket: Option<GoogleProfile>, randomPassword: string,
                       now: Timestamp): (r: Outcome<seq<User>, GoogleView>)
    ensures ticket.None? ==> r == Outcome(ServerError(AuthenticationFailed), us)
    ensures ticket.Some? ==> r.reply.Ok?
    ensures ticket.Some? && (forall k :: 0 <= k < |us| ==> us[k].email != ticket.value.email) ==>
              && r.state == us + [NewGoogleUser(id, ticket.value, randomPassword).(lastLogin := Some(now))]
              && r.reply.value == GoogleView(id, ticket.value.name, ticket.value.email, CustomerRole, ticket.value.picture)
    ensures ticket.Some? && (exists k :: 0 <= k < |us| && us[k].email == ticket.value.email) ==>
              exists k :: 0 <= k < |us| && us[k].email == ticket.value.email
                && r.state == us[k := us[k].(lastLogin := Some(now))]
                && r.reply.value == GoogleView(us[k].id, us[k].name, us[k].email, us[k].role,
                                               if us[k].profilePicture != "" then us[k].profilePicture
                                               else ticket.value.picture)
  {
    match ticket
    case None => Outcome(ServerError(AuthenticationFailed), us)
    case Some(p) =>
      var (u, state) :=
        match Find(us, EmailIs(p.email))
        case None =>
          var u := NewGoogleUser(id, p, randomPassword).(lastLogin := Some(now));
          (u, us + [u])
        case Some(k) =>
          var u := us[k].(lastLogin := Some(now));
          (u, us[k := u]);
      var picture := if u.profilePicture != "" then u.profilePicture else p.picture;
      Outcome(Ok(GoogleView(u.id, u.name, u.email, u.role, picture)), state)
  }

  /** Google login keeps the store valid, and creates an account only for
      an email nobody holds. */
  lemma GoogleLoginKeepsValid(us: seq<User>, id: Id, ticket: Option<GoogleProfile>, randomPassword: string,
                              now: Timestamp)
    requires ValidUsers(us, id)
    ensures ValidUsers(GoogleLogin(us, id, ticket, randomPassword, now).state, id + 1)
    ensures |GoogleLogin(us, id, ticket, randomPassword, now).state| == |us| + 1 <==>
              ticket.Some? && forall k :: 0 <= k < |us| ==> us[k].email != ticket.value.email
  {
    var r := GoogleLogin(us, id, ticket, randomPassword, now);
    assert forall j :: 0 <= j < |us| ==> UserKey(us[j]) < id;
    assert ValidUsers(us, id + 1);
    if ticket.Some? {
      var p := ticket.value;
      match Find(us, EmailIs(p.email))
      case None =>
        AppendKeepsValid(us, id, NewGoogleUser(id, p, randomPassword).(lastLogin := Some(now)));
      case Some(k) =>
        ReplaceSameEmailKeepsValid(us, id + 1, k, us[k].(lastLogin := Some(now)));
    }
  }

  /** Logging in with the same Google account twice creates at most one
      account. */
  lemma GoogleLoginCreatesOnce(us: seq<User>, id1: Id, id2: Id, p: GoogleProfile, pw1: string, pw2: string,
                               t1: Timestamp, t2: Timestamp)
    ensures |GoogleLogin(GoogleLogin(us, id1, Some(p), pw1, t1).state, id2, Some(p), pw2, t2).state|
         == |GoogleLogin(us, id1, Some(p), pw1, t1).state|
  {
    var once := GoogleLogin(us, id1, Some(p), pw1, t1).state;
    match Find(us, EmailIs(p.email))
    case None =>
      assert once[|us|].email == p.email;
    case Some(k) =>
      assert once[k].email == p.email;
  }
}
