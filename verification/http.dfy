/** What a handler or a middleware sends back, and the part of the request the
    middleware mutates. */
module Http {
  import opened Base
  import opened RoleModel
  import opened Store

  /** The JSON payload beside `message`. */
  datatype Body =
    | Empty                                   // only `message`, or nothing
    | ErrorDetail(detail: string)             // an `error` field holding a stack trace
    | EmptyErrorObject                        // `error: {}`
    | Auth(id: UserId, username: string, email: string, roleName: string, token: string)
    | UserList(users: seq<PublicUser>)
    | Profile(user: PublicUser)
    | ProfileUpdate(id: UserId, username: string, email: string)
    | StatusUpdate(id: UserId, username: string, email: string, isActive: bool)
    | RoleRecord(id: RoleId, role: Role)

  /** One response: its status code, its `message` ("" when it has none), and
      the rest of its payload. */
  datatype Response = Response(status: nat, message: string, body: Body)

  /** What a middleware does with a request: call `next()`, or answer it. */
  datatype Gate = Next | Stop(status: nat, message: string)

  /** A middleware's decision together with the value of `req.user` it leaves. */
  datatype Step = Step(gate: Gate, user: Option<PublicUser>)

  /** The request as the middleware sees it: the Authorization header, and the
      `user` slot that `protect` fills in. */
  class Request {
    const authorization: Option<string>
    var user: Option<PublicUser>

    constructor (authorization: Option<string>)
      ensures this.authorization == authorization && user.None?
    {
      this.authorization := authorization;
      user := None;
    }
  }
}
