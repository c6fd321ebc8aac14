/** Requests, replies and the five kinds of handler logic of the user service,
    as far as a handler's fields are concerned. */
module Rpc {
  import opened Seqs
  import opened ServiceModel

  datatype Kind = Register | SendCode | LoginByPassword | LoginByCode | GetUserInfo

  predicate RequiresAuth(k: Kind) {
    k.GetUserInfo?
  }

  datatype Request = Request(
    username: string,
    password: string,
    phone: string,
    code: string,
    userId: string,
    usage: int)

  const EMPTY_REQUEST := Request("", "", "", "", "", 0)

  datatype Reply = Reply(status: Option<(int, string)>, token: string, userId: string, user: Option<UserInfo>)

  const EMPTY_REPLY := Reply(None, "", "", None)

  /** Metadata of the call: the authorization header, if the client sent one. */
  datatype Context = Context(authorization: Option<string>)

  const EMPTY_CONTEXT := Context(None)

  datatype GrpcStatus = GrpcOk | Unauthenticated(message: string) | Internal(message: string)

  /** What a subclass asks the business service for. */
  datatype Call =
    | RegisterCall(username: string, password: string, phone: string, code: string)
    | SendCodeCall(phone: string, usage: int)
    | LoginByPasswordCall(userId: string, password: string)
    | LoginByCodeCall(phone: string, code: string)
    | GetUserInfoCall(userId: string)

  datatype ServiceResult = ServiceResult(code: int, message: string, token: string, userId: string, user: UserInfo)

  /** How the coroutine ended: with a result, a standard exception, or something else thrown. */
  datatype Outcome = Returned(result: ServiceResult) | Threw(what: string) | ThrewUnknown

  function CallOf(k: Kind, q: Request, uid: string): Call {
    match k
    case Register => RegisterCall(q.username, q.password, q.phone, q.code)
    case SendCode => SendCodeCall(q.phone, q.usage)
    case LoginByPassword => LoginByPasswordCall(q.userId, q.password)
    case LoginByCode => LoginByCodeCall(q.phone, q.code)
    case GetUserInfo => GetUserInfoCall(uid)
  }

  /** What RunSpecificLogic writes over the reply it finds. The two logins set a
      token, and GetUserInfo the user, on success only. */
  function WriteReply(k: Kind, reply: Reply, r: ServiceResult): Reply {
    var withStatus := reply.(status := Some((r.code, r.message)));
    match k
    case Register => withStatus.(userId := r.userId)
    case SendCode => withStatus
    case LoginByPassword => if r.code == SUCCESS then withStatus.(token := r.token) else withStatus
    case LoginByCode => if r.code == SUCCESS then withStatus.(token := r.token) else withStatus
    case GetUserInfo => if r.code == SUCCESS then withStatus.(user := Some(r.user)) else withStatus
  }

  function AfterLogic(k: Kind, reply: Reply, o: Outcome): Reply {
    if o.Returned? then WriteReply(k, reply, o.result) else reply
  }

  function StatusOf(o: Outcome): GrpcStatus {
    match o
    case Returned(_) => GrpcOk
    case Threw(what) => Internal(what)
    case ThrewUnknown => Internal("Unknown exception type")
  }

  datatype Auth = Granted(uid: string) | Denied(status: GrpcStatus)

  /** PerformAuthentication, with token verification as a parameter; a handler
      that needs no authentication runs with the empty user id. */
  function Authenticate(k: Kind, verify: string -> Option<string>, ctx: Context): Auth {
    if !RequiresAuth(k) then Granted("")
    else if ctx.authorization.None? then Denied(Unauthenticated("Missing Authorization Header"))
    else
      var header := ctx.authorization.value;
      var token := if "Bearer " <= header then header[7..] else header;
      match verify(token)
      case None => Denied(Unauthenticated("Invalid Token"))
      case Some(uid) => Granted(uid)
  }
}
