/** middleware/authMiddleware.js: `protect`, which turns the bearer token into
    `req.user`, and a second `checkRole` whose `Role` was never imported. */
module AuthMiddleware {
  import opened Base
  import opened Store
  import opened Http

  const NoToken := "Not authorized, no token"
  const InvalidToken := "Not authorized, invalid token"
  const UserNotFound := "Not authorized, user not found"

  /** JavaScript's `s.split(' ')`: the pieces between single spaces, empty
      pieces included. */
  function Split(s: string): (pieces: seq<string>)
    ensures |pieces| >= 1
    ensures forall i :: 0 <= i < |pieces| ==> ' ' !in pieces[i]
  {
    if s == [] then [""]
    else
      var rest := Split(s[1..]);
      if s[0] == ' ' then [""] + rest
      else [[s[0]] + rest[0]] + rest[1..]
  }

  /** `pieces.join(' ')`. */
  function Join(pieces: seq<string>): (s: string)
    requires |pieces| >= 1
  {
    if |pieces| == 1 then pieces[0] else pieces[0] + " " + Join(pieces[1..])
  }

  /** Splitting loses nothing: joining the pieces gives back the header. */
  lemma {:induction false} JoinSplit(s: string)
    ensures Join(Split(s)) == s
  {
    if s != [] {
      var rest := Split(s[1..]);
      JoinSplit(s[1..]);
      if s[0] == ' ' {
        assert Split(s) == [""] + rest;
        assert ([""] + rest)[1..] == rest;
        assert s == [' '] + s[1..];
      } else {
        var ps := Split(s);
        assert ps == [[s[0]] + rest[0]] + rest[1..];
        if |rest| == 1 {
          assert s == [s[0]] + rest[0];
        } else {
          assert ps[1..] == rest[1..];
          assert Join(rest) == rest[0] + " " + Join(rest[1..]);
          assert s == [s[0]] + s[1..];
        }
      }
    }
  }

  /** A word followed by a space or by nothing is the first piece. */
  lemma {:induction false} SplitFirstPiece(w: string, rest: string)
    requires ' ' !in w
    requires rest == [] || rest[0] == ' '
    ensures Split(w + rest)[0] == w
  {
    if w != [] {
      assert (w + rest)[1..] == w[1..] + rest;
      SplitFirstPiece(w[1..], rest);
      assert w == [w[0]] + w[1..];
    }
  }

  /** The word before the first space is the first piece, and the pieces of what
      follows that space are the remaining pieces. */
  lemma {:induction false} SplitAfterWord(w: string, t: string)
    requires ' ' !in w
    ensures Split(w + " " + t) == [w] + Split(t)
  {
    if w == [] {
      assert w + " " + t == [' '] + t;
    } else {
      assert (w + " " + t)[1..] == w[1..] + " " + t;
      SplitAfterWord(w[1..], t);
      assert w == [w[0]] + w[1..];
    }
  }

  /** The header starts with `Bearer` (a plain prefix test: no space is needed
      after it). */
  predicate BearerScheme(header: Option<string>) {
    header.Some? && "Bearer" <= header.value
  }

  /** `header.split(' ')[1]`, when it is a token the codec will look at: the
      codec throws at once for an undefined or empty token. */
  function TokenOf(header: string): (t: Option<string>)
    ensures t.Some? <==> |Split(header)| >= 2 && Split(header)[1] != ""
    ensures t.Some? ==> t.value == Split(header)[1] && ' ' !in t.value
  {
    var pieces := Split(header);
    if |pieces| >= 2 && pieces[1] != "" then Some(pieces[1]) else None
  }

  /** The token in a well-formed `Bearer <token> ...` header is the token. */
  lemma BearerTokenExtracted(token: string, rest: string)
    requires token != "" && ' ' !in token
    requires rest == [] || rest[0] == ' '
    ensures TokenOf("Bearer " + token + rest) == Some(token)
  {
    assert "Bearer " + token + rest == "Bearer" + " " + (token + rest);
    SplitAfterWord("Bearer", token + rest);
    SplitFirstPiece(token, rest);
  }

  /** The claims of the request's token, if it carries one that verifies. */
  function Verified(header: Option<string>, verify: Verifier): (claims: Option<Claims>) {
    if BearerScheme(header) && TokenOf(header.value).Some? then verify(TokenOf(header.value).value)
    else None
  }

  /** A `Bearer <token>` header hands exactly that token to the codec. */
  lemma BearerHeaderVerified(token: string, verify: Verifier)
    requires token != "" && ' ' !in token
    ensures Verified(Some("Bearer " + token), verify) == verify(token)
  {
    BearerTokenExtracted(token, []);
    assert "Bearer " + token + [] == "Bearer " + token;
  }

  /** What `protect` answers and what it leaves in `req.user`, given the
      header, the previous `req.user`, the user store, the codec, and whether the
      user lookup raised. Only the first response is modelled. */
  function ProtectDecision(header: Option<string>, prior: Option<PublicUser>, users: seq<User>, verify: Verifier, fail: bool): (r: Step)
    ensures r.gate.Stop? ==> r.gate.status == 401
    ensures r.gate == Stop(401, NoToken) <==> !BearerScheme(header)
    ensures r.gate == Next <==>
      !fail && Verified(header, verify).Some? && Verified(header, verify).value.id < |users|
    ensures r.gate == Next ==>
      r.user == Some(Strip(Verified(header, verify).value.id, users[Verified(header, verify).value.id]))
    ensures r.gate == Stop(401, UserNotFound) <==>
      !fail && Verified(header, verify).Some? && Verified(header, verify).value.id >= |users|
    ensures r.gate == Stop(401, UserNotFound) ==> r.user.None?
    ensures r.gate == Stop(401, InvalidToken) <==>
      BearerScheme(header) && (Verified(header, verify).None? || fail)
    ensures r.gate == Stop(401, InvalidToken) || r.gate == Stop(401, NoToken) ==> r.user == prior
  {
    if !BearerScheme(header) then Step(Stop(401, NoToken), prior)
    else match TokenOf(header.value)
      case None => Step(Stop(401, InvalidToken), prior)
      case Some(token) =>
        match verify(token)
        case None => Step(Stop(401, InvalidToken), prior)
        case Some(decoded) =>
          if fail then Step(Stop(401, InvalidToken), prior)
          else match UserById(users, decoded.id)
            case None => Step(Stop(401, UserNotFound), None)
            case Some(u) => Step(Next, Some(Strip(decoded.id, u)))
  }

  /** `protect`: check the header, verify the token, look the user up and attach
      it to the request, answering 401 at the first step that fails. */
  method Protect(req: Request, users: seq<User>, verify: Verifier, fail: bool) returns (gate: Gate)
    modifies req
    ensures Step(gate, req.user) == ProtectDecision(req.authorization, old(req.user), users, verify, fail)
  {
    if !BearerScheme(req.authorization) {
      return Stop(401, NoToken);
    }
    var token := TokenOf(req.authorization.value);
    if token.None? {
      return Stop(401, InvalidToken);
    }
    var decoded := verify(token.value);
    if decoded.None? || fail {
      return Stop(401, InvalidToken);
    }
    var found := UserById(users, decoded.value.id);
    if found.Some? {
      req.user := Some(Strip(decoded.value.id, found.value));
    } else {
      req.user := None;
    }
    if req.user.None? {
      return Stop(401, UserNotFound);
    }
    return Next;
  }

  /** An existing user whose token verifies is let through whatever the
      account's active flag says and whatever role the token claims. */
  lemma InactiveUsersAdmitted(token: string, users: seq<User>, verify: Verifier, prior: Option<PublicUser>)
    requires token != "" && ' ' !in token
    requires verify(token).Some? && verify(token).value.id < |users|
    requires !users[verify(token).value.id].isActive
    ensures ProtectDecision(Some("Bearer " + token), prior, users, verify, false).gate == Next
  {
    BearerHeaderVerified(token, verify);
  }

  /** This file's `checkRole`: without `req.user` it answers 401; otherwise
      `Role` is not defined in this file, the lookup throws, and the answer is
      always 500. The allowed list is never consulted. */
  function CheckRole(requiredRoles: seq<string>, user: Option<PublicUser>): (g: Gate)
    ensures g != Next
    ensures user.None? <==> g == Stop(401, "Not authorized")
    ensures user.Some? <==> g == Stop(500, "Role verification failed")
  {
    if user.None? then Stop(401, "Not authorized")
    else Stop(500, "Role verification failed")
  }
}
