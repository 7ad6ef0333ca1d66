/** The gate every protected route passes through first. */
module Middleware {
  import opened Wrappers
  import opened Documents
  import opened External
  import opened Database

  /** What the gate decides: answer the request itself, or hand the resolved user
      to the route handler. */
  datatype Decision = Reject(status: nat, error: string) | Proceed(user: Profile)

  /** The decision chain of `protectRoute`: no token, then a token `jwt.verify`
      throws on (caught as an internal error) or decodes to nothing, then a decoded
      id naming no user, and otherwise the user's document without its hash. */
  function Authorize(token: string, verify: string -> Verified, users: seq<User>): (d: Decision)
    ensures token == "" ==> d == Reject(401, "Unauthorized: No Token Provided")
    ensures token != "" && verify(token).Rejected? ==> d == Reject(500, "Internal Server Error")
    ensures token != "" && verify(token).Falsy? ==> d == Reject(401, "Unauthorized: Invalid Token")
    ensures token != "" && verify(token).Payload? && UserIndex(users, verify(token).id).None? ==>
      d == Reject(401, "User not found")
    ensures d.Proceed? <==>
      token != "" && verify(token).Payload? && UserIndex(users, verify(token).id).Some?
    ensures d.Proceed? ==> d.user == ToProfile(users[UserIndex(users, verify(token).id).value])
  {
    if token == "" then Reject(401, "Unauthorized: No Token Provided")
    else match verify(token)
      case Rejected(_) => Reject(500, "Internal Server Error")
      case Falsy => Reject(401, "Unauthorized: Invalid Token")
      case Payload(id) =>
        match UserIndex(users, id)
        case None => Reject(401, "User not found")
        case Some(i) => Proceed(ToProfile(users[i]))
  }

  /** The parts of an Express request the gate reads and writes. */
  class Request {
    const jwtCookie: string        // req.cookies["jwt"]; empty when absent
    var user: Option<Profile>      // req.user
    var nextCalls: nat             // how many times the gate has called next()

    constructor (jwtCookie: string)
      ensures this.jwtCookie == jwtCookie && user == None && nextCalls == 0
    {
      this.jwtCookie := jwtCookie;
      user := None;
      nextCalls := 0;
    }
  }

  /** `protectRoute(req, res, next)`: on success assigns `req.user` and calls
      `next` once; otherwise answers with the error and leaves the request alone. */
  method ProtectRoute(db: Db, req: Request, verify: string -> Verified) returns (r: Option<Response>)
    modifies req
    ensures var d := Authorize(req.jwtCookie, verify, db.users);
      && (d.Proceed? ==> r.None? && req.user == Some(d.user) && req.nextCalls == old(req.nextCalls) + 1)
      && (d.Reject? ==> r == Some(ErrorResponse(d.status, d.error)) && req.user == old(req.user)
                        && req.nextCalls == old(req.nextCalls))
  {
    var d := Authorize(req.jwtCookie, verify, db.users);
    match d
    case Reject(status, error) =>
      r := Some(ErrorResponse(status, error));
    case Proceed(user) =>
      req.user := Some(user);
      req.nextCalls := req.nextCalls + 1;
      r := None;
  }
}
