/** routes/authRoutes.js: registration and login are open; logout runs
    `protect` and answers with a constant message. */
module AuthRoutes {
  import opened Base
  import opened RoleModel
  import opened Store
  import opened Http
  import opened Router
  import AuthMiddleware

  const LoggedOut := "Logged out successfully"

  function Table(): (t: seq<Route>)
    ensures |t| == 3
    ensures forall i :: 0 <= i < |t| ==> t[i].verb == Post && t[i].handler in {RegisterUser, LoginUser, Logout}
    ensures t[0].verb == Post && t[0].path == "/register" && t[0].handler == RegisterUser && t[0].guards == []
    ensures t[1].verb == Post && t[1].path == "/login" && t[1].handler == LoginUser && t[1].guards == []
    ensures t[2].verb == Post && t[2].path == "/logout" && t[2].handler == Logout && t[2].guards == [Protect]
  {
    [ Route(Post, "/register", [], RegisterUser),
      Route(Post, "/login", [], LoginUser),
      Route(Post, "/logout", [Protect], Logout) ]
  }

  /** The logout handler: the token is discarded by the client; the server only
      answers, and it reads and writes no store. */
  function LogoutResponse(): (r: Response)
    ensures r.status == 200 && r.message == LoggedOut && r.body == Empty
  {
    Response(200, LoggedOut, Empty)
  }

  /** Register and login pass their (empty) chains whatever the request carries;
      logout's chain answers exactly as `protect` does, so a missing or bad
      token gets `protect`'s 401. `fail` says that `protect`'s user lookup
      raised. */
  lemma AuthRouteGuards(header: Option<string>, users: seq<User>, roles: seq<Role>, verify: Verifier, fail: bool)
    ensures RunChain(Table()[0].guards, header, None, users, roles, verify, []).gate == Next
    ensures RunChain(Table()[1].guards, header, None, users, roles, verify, []).gate == Next
    ensures RunChain(Table()[2].guards, header, None, users, roles, verify, [fail])
         == AuthMiddleware.ProtectDecision(header, None, users, verify, fail)
  {
    assert Table()[2].guards[1..] == [];
  }
}
