/** What a handler's clients get, field by field: which service call is made for a
    request, and what reply and RPC status answer it, after any schedule. */
module Replies {
  import opened Seqs
  import opened ServiceModel
  import opened Rpc
  import opened CallData

  /** The context's authorization header carries this token: bare, or after "Bearer ",
      which is taken off exactly when it leads. */
  ghost predicate Presents(ctx: Context, token: string) {
    && ctx.authorization.Some?
    && var header := ctx.authorization.value;
       header == "Bearer " + token || (header == token && !("Bearer " <= header))
  }

  /** The header settles the token. */
  lemma PresentsOne(ctx: Context, s: string, t: string)
    requires Presents(ctx, s) && Presents(ctx, t)
    ensures s == t
  {
    if ctx.authorization.value == "Bearer " + s {
      assert ("Bearer " + s)[7..] == s;
    }
    if ctx.authorization.value == "Bearer " + t {
      assert ("Bearer " + t)[7..] == t;
    }
  }

  lemma HeaderPresents(ctx: Context) returns (token: string)
    requires ctx.authorization.Some?
    ensures Presents(ctx, token)
    ensures var header := ctx.authorization.value; token == if "Bearer " <= header then header[7..] else header
  {
    var header := ctx.authorization.value;
    token := if "Bearer " <= header then header[7..] else header;
    if "Bearer " <= header {
      assert header == header[..7] + header[7..] && header[..7] == "Bearer ";
    }
  }

  ghost predicate Verified(verify: string -> Option<string>, ctx: Context, uid: string) {
    exists token :: Presents(ctx, token) && verify(token) == Some(uid)
  }

  /** GetUserInfo asks for the data of a user if and only if the caller presented a
      token that verifies as that user's. */
  lemma UserInfoIsForTheVerified(verify: string -> Option<string>, o: Obj, n: nat, uid: string)
    requires Reachable(GetUserInfo, verify, o) && n < |o.answers|
    ensures n < |o.accepted|
    ensures o.answers[n].call == Some(GetUserInfoCall(uid)) <==> Verified(verify, o.accepted[n].ctx, uid)
    ensures o.answers[n].call.Some? ==> exists u :: o.answers[n].call == Some(GetUserInfoCall(u))
  {
    AnswersAreFresh(GetUserInfo, verify, o, n);
    var ctx := o.accepted[n].ctx;
    if ctx.authorization.Some? {
      var token := HeaderPresents(ctx);
      if Verified(verify, ctx, uid) {
        var t :| Presents(ctx, t) && verify(t) == Some(uid);
        PresentsOne(ctx, token, t);
      } else {
        assert verify(token) != Some(uid);
      }
    }
  }

  const NO_REPLY := Reply(None, "", "", None)

  /** What one turn of Proceed does to a handler, by its status and its caller. */
  lemma TurnExactly(k: Kind, verify: string -> Option<string>, h: Handler, ok: bool, token: string)
    ensures !ok || h.status == Finished ==>
      var empty := Handler(WaitProcessing, Context(None), Request("", "", "", "", "", 0), NO_REPLY);
      Proceeded(k, verify, h, ok) == (empty, Armed)
    ensures ok && h.status == WaitProcessing ==>
      var (h', effect) := Proceeded(k, verify, h, ok);
      && h' == Handler(Finished, h.ctx, h.request, h.reply)
      && (k != GetUserInfo ==> effect == Spawned(""))
      && (k == GetUserInfo && h.ctx.authorization.None? ==>
            effect == Sent(h.reply, Unauthenticated("Missing Authorization Header")))
      && (k == GetUserInfo && Presents(h.ctx, token) ==>
            effect == match verify(token)
                      case None => Sent(h.reply, Unauthenticated("Invalid Token"))
                      case Some(uid) => Spawned(uid))
  {
    if Presents(h.ctx, token) {
      var t := HeaderPresents(h.ctx);
      PresentsOne(h.ctx, token, t);
    }
  }

  /** Without a header, or with a token that does not verify, the service is not called,
      the reply stays empty and the status says which; with one that does, the status
      is never an authentication failure. */
  lemma RefusedExactlyWithoutToken(verify: string -> Option<string>, o: Obj, n: nat, token: string)
    requires Reachable(GetUserInfo, verify, o) && n < |o.answers|
    ensures n < |o.accepted|
    ensures o.accepted[n].ctx.authorization.None? ==>
      o.answers[n] == Answer(None, NO_REPLY, Unauthenticated("Missing Authorization Header"))
    ensures Presents(o.accepted[n].ctx, token) && verify(token).None? ==>
      o.answers[n] == Answer(None, NO_REPLY, Unauthenticated("Invalid Token"))
    ensures Presents(o.accepted[n].ctx, token) && verify(token).Some? ==>
      !o.answers[n].rpc.Unauthenticated? && o.answers[n].call == Some(GetUserInfoCall(verify(token).value))
  {
    AnswersAreFresh(GetUserInfo, verify, o, n);
    if Presents(o.accepted[n].ctx, token) {
      var t := HeaderPresents(o.accepted[n].ctx);
      PresentsOne(o.accepted[n].ctx, token, t);
    }
  }

  /** The four other kinds always call their service, with these fields of the request. */
  lemma OthersAlwaysCall(k: Kind, verify: string -> Option<string>, o: Obj, n: nat)
    requires !k.GetUserInfo? && Reachable(k, verify, o) && n < |o.answers|
    ensures n < |o.accepted| && n < |o.outcomes| && o.outcomes[n].Some?
    ensures var q, call := o.accepted[n].request, o.answers[n].call;
      && (k == Register ==> call == Some(RegisterCall(q.username, q.password, q.phone, q.code)))
      && (k == SendCode ==> call == Some(SendCodeCall(q.phone, q.usage)))
      && (k == LoginByPassword ==> call == Some(LoginByPasswordCall(q.userId, q.password)))
      && (k == LoginByCode ==> call == Some(LoginByCodeCall(q.phone, q.code)))
  {
    AnswersAreFresh(k, verify, o, n);
  }

  /** The reply to a call that returned: its code and message, and the one field of its
      kind; a token or a user only on success. */
  lemma ReplyOfResult(k: Kind, verify: string -> Option<string>, o: Obj, n: nat, r: ServiceResult)
    requires Reachable(k, verify, o) && Answered(o, n) && o.outcomes[n] == Some(Returned(r))
    ensures o.answers[n].rpc == GrpcOk
    ensures var reply := o.answers[n].reply;
      && reply.status == Some((r.code, r.message))
      && reply.userId == (if k == Register then r.userId else "")
      && reply.token == (if (k == LoginByPassword || k == LoginByCode) && r.code == 0 then r.token else "")
      && reply.user == (if k == GetUserInfo && r.code == 0 then Some(r.user) else None)
  {
    AnswersAreFresh(k, verify, o, n);
  }

  /** The reply to a call that threw is empty and its status INTERNAL. */
  lemma ReplyOfException(k: Kind, verify: string -> Option<string>, o: Obj, n: nat, what: string)
    requires Reachable(k, verify, o) && Answered(o, n)
    ensures o.outcomes[n] == Some(Threw(what)) ==>
      o.answers[n].reply == NO_REPLY && o.answers[n].rpc == Internal(what)
    ensures o.outcomes[n] == Some(ThrewUnknown) ==>
      o.answers[n].reply == NO_REPLY && o.answers[n].rpc == Internal("Unknown exception type")
  {
    AnswersAreFresh(k, verify, o, n);
  }
}
