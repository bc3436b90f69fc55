/** The admin session gate of `AuthContext.tsx`: a fixed credential pair, a
    token kept in browser storage and the provider's `isAuthenticated` flag. */
module Auth {
  import opened Options

  const AdminUsername := "admin"
  const AdminPassword := "forestcamp2025"
  /** The value written under the `campsite-auth-token` key. */
  const SessionToken := "admin-token-2025"

  /** The stored token (`None` when the key is absent) and the flag the
      provider exposes. */
  datatype Session = Session(token: Option<string>, authenticated: bool)

  /** The mount effect: a stored, non-empty token marks the session as
      authenticated; the token itself is left as it was. */
  function Mount(token: Option<string>): (s: Session)
    ensures s.token == token
    ensures s.authenticated <==> token.Some? && token.value != ""
  {
    Session(token, token.Some? && token.value != "")
  }

  /** `login`: only the fixed pair succeeds, storing the token and raising the
      flag; any other pair returns false and changes nothing. */
  function Login(s: Session, username: string, password: string): (r: (Session, bool))
    ensures r.1 <==> username == "admin" && password == "forestcamp2025"
    ensures r.1 ==> r.0 == Session(Some("admin-token-2025"), true)
    ensures !r.1 ==> r.0 == s
  {
    if username == AdminUsername && password == AdminPassword then
      (Session(Some(SessionToken), true), true)
    else (s, false)
  }

  /** `logout`: from any state, the token is removed and the flag lowered. */
  function Logout(s: Session): (r: Session)
    ensures r.token.None? && !r.authenticated
  {
    Session(None, false)
  }

  /** A successful login survives a reload, and a logout does too. */
  lemma SessionSurvivesReload(s: Session, username: string, password: string)
    ensures var (after, ok) := Login(s, username, password);
      ok ==> Mount(after.token).authenticated
    ensures !Mount(Logout(s).token).authenticated
  {
  }

  /** Wrong credentials never create a session where there was none. */
  lemma WrongCredentialsKeepGateClosed(s: Session, username: string, password: string)
    requires !s.authenticated
    requires username != AdminUsername || password != AdminPassword
    ensures !Login(s, username, password).0.authenticated
    ensures Login(s, username, password).0.token == s.token
  {
  }
}
