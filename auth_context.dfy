/** The session of frontend/src/context/AuthContext.js: the reducer over the
    authentication state, and the provider that keeps the token in browser
    storage and in the HTTP client's default `Authorization` header. Each
    request's answer is an input: the profile a stored token yields, or in
    the sign-in paths the token and user a successful call returns. */
module AuthContext {
  import opened Common

  /** The `user` object the server sends back; only the role is ever
      inspected. */
  datatype Profile = Profile(id: Id, name: string, email: string, role: string)

  datatype AuthState = AuthState(user: Option<Profile>, token: Option<string>, isAuthenticated: bool, loading: bool)

  /** The dispatched actions; `Other` is any other type. */
  datatype Action =
    | LoginSuccess(payloadUser: Profile, payloadToken: Option<string>)
    | Logout
    | SetLoading(flag: bool)
    | Other(kind: string)

  /** `authReducer`. */
  function Reduce(s: AuthState, a: Action): (r: AuthState)
    ensures a.LoginSuccess? ==>
              r.user == Some(a.payloadUser) && r.token == a.payloadToken && r.isAuthenticated && r.loading == s.loading
    ensures a.Logout? ==> r.user.None? && r.token.None? && !r.isAuthenticated && r.loading == s.loading
    ensures a.SetLoading? ==> r == s.(loading := a.flag)
    ensures a.Other? ==> r == s
  {
    match a
    case LoginSuccess(u, t) => s.(user := Some(u), token := t, isAuthenticated := true)
    case Logout => s.(user := None, token := None, isAuthenticated := false)
    case SetLoading(b) => s.(loading := b)
    case Other(_) => s
  }

  /** Logging out twice is logging out once. */
  lemma LogoutIdempotent(s: AuthState)
    ensures Reduce(Reduce(s, Logout), Logout) == Reduce(s, Logout)
  {
  }

  /** A logout after a login leaves the loading flag and nothing of the
      session. */
  lemma LoginThenLogout(s: AuthState, u: Profile, t: Option<string>)
    ensures Reduce(Reduce(s, LoginSuccess(u, t)), Logout) == AuthState(None, None, false, s.loading)
  {
  }

  /** The state is authenticated exactly when a user is held, and then a
      token is held too. */
  predicate Consistent(s: AuthState) {
    (s.isAuthenticated <==> s.user.Some?) && (s.isAuthenticated ==> s.token.Some?)
  }

  /** Every action the provider dispatches keeps the state consistent. */
  lemma ReduceKeepsConsistent(s: AuthState, a: Action)
    requires Consistent(s)
    requires a.LoginSuccess? ==> a.payloadToken.Some?
    ensures Consistent(Reduce(s, a))
  {
  }

  /** The state the provider starts in, with the token found in storage. */
  function InitialState(stored: Option<string>): (s: AuthState)
    ensures Consistent(s) && s.loading && !s.isAuthenticated && s.token == stored
  {
    AuthState(None, stored, false, true)
  }

  /** The header value sent with every request. */
  function Bearer(token: string): (h: string)
    ensures |h| == |token| + 7 && h[..7] == "Bearer " && h[7..] == token
  {
    "Bearer " + token
  }

  /** A JavaScript truthiness test on the stored token. */
  predicate Present(t: Option<string>) {
    t.Some? && t.value != ""
  }

  class AuthProvider {
    var state: AuthState
    /** `localStorage.getItem('token')`. */
    var storedToken: Option<string>
    /** `axios.defaults.headers.common['Authorization']`. */
    var authHeader: Option<string>

    /** The state is consistent, and a token in storage is also held by
        the state. */
    ghost predicate Valid()
      reads this
    {
      Consistent(state) && (Present(storedToken) ==> state.token.Some?)
    }

    constructor(stored: Option<string>)
      ensures Valid()
      ensures state == InitialState(stored) && storedToken == stored && authHeader == None
    {
      state := InitialState(stored);
      storedToken := stored;
      authHeader := None;
    }

    /** The mount effect and `fetchProfile`: with a stored token the header
        is set and the profile requested, `profile` being the answer. A
        failure drops the stored token and the header but keeps the token
        in the state. Loading ends either way. */
    method Boot(profile: Option<Profile>)
      requires Valid()
      modifies this
      ensures Valid() && !state.loading
      ensures Present(old(storedToken)) && profile.Some? ==>
                && state == Reduce(Reduce(old(state), LoginSuccess(profile.value, old(state).token)), SetLoading(false))
                && storedToken == old(storedToken)
                && authHeader == Some(Bearer(old(storedToken).value))
      ensures Present(old(storedToken)) && profile.None? ==>
                && state == old(state).(loading := false)
                && storedToken.None? && authHeader.None?
      ensures !Present(old(storedToken)) ==>
                state == old(state).(loading := false) && storedToken == old(storedToken) && authHeader == old(authHeader)
    {
      if Present(storedToken) {
        authHeader := Some(Bearer(storedToken.value));
        if profile.Some? {
          state := Reduce(state, LoginSuccess(profile.value, state.token));
        } else {
          storedToken := None;
          authHeader := None;
        }
      }
      state := Reduce(state, SetLoading(false));
    }

    /** The common tail of `login`, `googleLogin` and `register` once the
        request succeeded with `token` and `user`. */
    method SignIn(token: string, user: Profile)
      requires Valid()
      modifies this
      ensures Valid()
      ensures storedToken == Some(token) && authHeader == Some(Bearer(token))
      ensures state == Reduce(old(state), LoginSuccess(user, Some(token)))
    {
      storedToken := Some(token);
      authHeader := Some(Bearer(token));
      state := Reduce(state, LoginSuccess(user, Some(token)));
    }

    /** `logout`: storage, header and session are all cleared. */
    method SignOut()
      requires Valid()
      modifies this
      ensures Valid()
      ensures storedToken.None? && authHeader.None?
      ensures state == Reduce(old(state), Logout)
    {
      storedToken := None;
      authHeader := None;
      state := Reduce(state, Logout);
    }
  }
}
