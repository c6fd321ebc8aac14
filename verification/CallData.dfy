/** The pooled gRPC handler: one object, recycled for request after request
    through a completion queue, with gRPC worker threads and Asio threads
    interleaving on its fields. */
module CallData {
  import opened Seqs
  import opened Rpc
  import opened ServiceModel

  datatype Status = WaitProcessing | Finished

  /** The object's fields. */
  datatype Handler = Handler(status: Status, ctx: Context, request: Request, reply: Reply)

  const NEW_HANDLER := Handler(WaitProcessing, EMPTY_CONTEXT, EMPTY_REQUEST, EMPTY_REPLY)

  /*------------------------- The object, updated in place -------------------------*/

  /** What a turn of Proceed leaves to somebody else: a Finish for gRPC to send, a
      coroutine for Asio to run, or the object armed for the next request. */
  datatype Effect = Sent(reply: Reply, rpc: GrpcStatus) | Spawned(uid: string) | Armed

  /** Proceed as one uninterrupted turn. */
  function Proceeded(k: Kind, verify: string -> Option<string>, h: Handler, ok: bool): (Handler, Effect) {
    if !ok || h.status.Finished? then
      (NEW_HANDLER, Armed)
    else
      var h' := h.(status := Finished);
      match Authenticate(k, verify, h.ctx)
      case Denied(rpc) => (h', Sent(h.reply, rpc))
      case Granted(uid) => (h', Spawned(uid))
  }

  /** gRPC and the io_context, recording what one handler hands over to them. The
      preconditions are the order the code's comments ask for: the status is
      written before anything that lets another thread touch the object. */
  class Outside {
    var effects: seq<Effect>

    constructor ()
      ensures effects == []
    {
      effects := [];
    }

    method Finish(owner: PooledHandler, reply: Reply, rpc: GrpcStatus)
      requires owner.status == Finished && reply == owner.reply
      modifies this
      ensures effects == old(effects) + [Sent(reply, rpc)]
    {
      effects := effects + [Sent(reply, rpc)];
    }

    method CoSpawn(owner: PooledHandler, uid: string)
      requires owner.status == Finished
      modifies this
      ensures effects == old(effects) + [Spawned(uid)]
    {
      effects := effects + [Spawned(uid)];
    }

    method Arm(owner: PooledHandler)
      requires owner.View() == NEW_HANDLER
      modifies this
      ensures effects == old(effects) + [Armed]
    {
      effects := effects + [Armed];
    }
  }

  class PooledHandler {
    const kind: Kind
    const verify: string -> Option<string>
    const outside: Outside
    var status: Status
    var ctx: Context
    var request: Request
    var reply: Reply

    constructor (kind: Kind, verify: string -> Option<string>, outside: Outside)
      ensures this.kind == kind && this.verify == verify && this.outside == outside && View() == NEW_HANDLER
    {
      this.kind, this.verify, this.outside := kind, verify, outside;
      status, ctx, request, reply := WaitProcessing, EMPTY_CONTEXT, EMPTY_REQUEST, EMPTY_REPLY;
    }

    function View(): Handler
      reads this
    {
      Handler(status, ctx, request, reply)
    }

    method Proceed(ok: bool)
      modifies this, outside
      ensures var (h, effect) := Proceeded(kind, verify, old(View()), ok);
              View() == h && outside.effects == old(outside.effects) + [effect]
    {
      if !ok {
        HandleFinish();
        return;
      }
      match status
      case WaitProcessing => HandleProcess();
      case Finished => HandleFinish();
    }

    method HandleProcess()
      requires status.WaitProcessing?
      modifies this, outside
      ensures var (h, effect) := Proceeded(kind, verify, old(View()), true);
              View() == h && outside.effects == old(outside.effects) + [effect]
    {
      var auth := Authenticate(kind, verify, ctx);
      if auth.Denied? {
        status := Finished;
        outside.Finish(this, reply, auth.status);
        return;
      }
      status := Finished;
      outside.CoSpawn(this, auth.uid);
    }

    method HandleFinish()
      modifies this, outside
      ensures View() == NEW_HANDLER && outside.effects == old(outside.effects) + [Armed]
    {
      status := WaitProcessing;
      Reset();
      outside.Arm(this);
    }

    method Reset()
      modifies this`ctx, this`reply, this`request
      ensures View() == NEW_HANDLER.(status := status)
    {
      ctx := EMPTY_CONTEXT;
      reply := EMPTY_REPLY;
      request := EMPTY_REQUEST;
    }

    /** The writing half of RunSpecificLogic, in the order of the subclasses. */
    method WriteResult(r: ServiceResult)
      modifies this`reply
      ensures reply == WriteReply(kind, old(reply), r)
    {
      reply := reply.(status := Some((r.code, r.message)));
      match kind {
        case Register =>
          reply := reply.(userId := r.userId);
        case SendCode =>
        case LoginByPassword | LoginByCode =>
          if r.code == SUCCESS {
            reply := reply.(token := r.token);
          }
        case GetUserInfo =>
          if r.code == SUCCESS {
            reply := reply.(user := Some(r.user));
          }
      }
    }

    method OnLogicFinished(o: Outcome)
      requires status.Finished?
      modifies outside
      ensures outside.effects == old(outside.effects) + [Sent(reply, StatusOf(o))]
    {
      var rpc;
      match o {
        case Threw(what) => rpc := Internal(what);
        case ThrewUnknown => rpc := Internal("Unknown exception type");
        case Returned(_) => rpc := GrpcOk;
      }
      outside.Finish(this, reply, rpc);
    }
  }

  /*------------------------------ All interleavings ------------------------------*/

  /** A worker thread inside Proceed, at the point between two accesses. */
  datatype Frame =
    | Entered(ok: bool, isRequest: bool)
    | Processing
    | Denying(rpc: GrpcStatus)
    | DenyingSet(rpc: GrpcStatus)
    | Granting(uid: string)
    | GrantingSet(uid: string)
    | Recycling
    | Resetting
    | Rearming

  /** A coroutine on an Asio thread: spawned, inside the service call, or done
      with its logic and about to call Finish. */
  datatype Coro = Begun(uid: string) | InService(call: Call) | Ended(call: Call, outcome: Outcome)

  datatype Accepted = Accepted(request: Request, ctx: Context)

  datatype Answer = Answer(call: Option<Call>, reply: Reply, rpc: GrpcStatus)

  /** One pooled handler with everything that can touch it. Any number of each is
      representable: requests armed, request events queued, Finish operations
      pending, Finish events queued, worker threads inside, coroutines running.
      `accepted`, `answers` and `outcomes` are history. */
  datatype Obj = Obj(
    h: Handler,
    armed: nat,
    requests: nat,
    finishing: nat,
    finished: seq<bool>,
    frames: seq<Frame>,
    coros: seq<Coro>,
    accepted: seq<Accepted>,
    answers: seq<Answer>,
    outcomes: seq<Option<Outcome>>)

  const NEW_OBJ := Obj(NEW_HANDLER, 1, 0, 0, [], [], [], [], [], [])

  datatype Step =
    | Match(request: Request, ctx: Context)   // gRPC fills a request in and queues its event
    | TakeRequest                             // a worker takes a request event
    | TakeFinished(index: nat)                // a worker takes a Finish event
    | Work(index: nat)                        // a worker inside Proceed goes on
    | Logic(index: nat, outcome: Outcome)     // a coroutine goes on; the outcome is the service's
    | Complete(ok: bool)                      // gRPC completes a Finish

  ghost predicate Enabled(o: Obj, a: Step) {
    match a
    case Match(_, _) => o.armed > 0
    case TakeRequest => o.requests > 0
    case TakeFinished(i) => i < |o.finished|
    case Work(i) => i < |o.frames|
    case Logic(i, _) => i < |o.coros|
    case Complete(_) => o.finishing > 0
  }

  ghost function Apply(k: Kind, verify: string -> Option<string>, o: Obj, a: Step): Obj
    requires Enabled(o, a)
  {
    match a
    case Match(q, ctx) =>
      o.(armed := o.armed - 1, requests := o.requests + 1,
         h := o.h.(request := q, ctx := ctx), accepted := o.accepted + [Accepted(q, ctx)])
    case TakeRequest =>
      o.(requests := o.requests - 1, frames := o.frames + [Entered(true, true)])
    case TakeFinished(i) =>
      o.(finished := Without(o.finished, i), frames := o.frames + [Entered(o.finished[i], false)])
    case Complete(ok) =>
      o.(finishing := o.finishing - 1, finished := o.finished + [ok])
    case Work(i) => ApplyWork(k, verify, o, i)
    case Logic(i, outcome) => ApplyLogic(k, o, i, outcome)
  }

  /** responder_.Finish: the reply is taken as it stands. */
  ghost function Finish(o: Obj, call: Option<Call>, rpc: GrpcStatus, outcome: Option<Outcome>): Obj {
    o.(finishing := o.finishing + 1,
       answers := o.answers + [Answer(call, o.h.reply, rpc)], outcomes := o.outcomes + [outcome])
  }

  ghost function ApplyWork(k: Kind, verify: string -> Option<string>, o: Obj, i: nat): Obj
    requires i < |o.frames|
  {
    var left := o.(frames := Without(o.frames, i));
    match o.frames[i]
    case Entered(ok, _) =>
      o.(frames := o.frames[i := if !ok || o.h.status.Finished? then Recycling else Processing])
    case Processing =>
      var next := match Authenticate(k, verify, o.h.ctx)
        case Denied(rpc) => Denying(rpc)
        case Granted(uid) => Granting(uid);
      o.(frames := o.frames[i := next])
    case Denying(rpc) => o.(h := o.h.(status := Finished), frames := o.frames[i := DenyingSet(rpc)])
    case DenyingSet(rpc) => Finish(left, None, rpc, None)
    case Granting(uid) => o.(h := o.h.(status := Finished), frames := o.frames[i := GrantingSet(uid)])
    case GrantingSet(uid) => left.(coros := o.coros + [Begun(uid)])
    case Recycling => o.(h := o.h.(status := WaitProcessing), frames := o.frames[i := Resetting])
    case Resetting =>
      o.(h := o.h.(ctx := EMPTY_CONTEXT, reply := EMPTY_REPLY, request := EMPTY_REQUEST),
         frames := o.frames[i := Rearming])
    case Rearming => left.(armed := o.armed + 1)
  }

  ghost function ApplyLogic(k: Kind, o: Obj, i: nat, outcome: Outcome): Obj
    requires i < |o.coros|
  {
    match o.coros[i]
    case Begun(uid) => o.(coros := o.coros[i := InService(CallOf(k, o.h.request, uid))])
    case InService(call) =>
      o.(h := o.h.(reply := AfterLogic(k, o.h.reply, outcome)), coros := o.coros[i := Ended(call, outcome)])
    case Ended(call, ended) => Finish(o.(coros := Without(o.coros, i)), Some(call), StatusOf(ended), Some(ended))
  }

  ghost predicate Runs(k: Kind, verify: string -> Option<string>, o: Obj, steps: seq<Step>)
    decreases |steps|
  {
    steps == [] || (Enabled(o, steps[0]) && Runs(k, verify, Apply(k, verify, o, steps[0]), steps[1..]))
  }

  ghost function Exec(k: Kind, verify: string -> Option<string>, o: Obj, steps: seq<Step>): Obj
    requires Runs(k, verify, o, steps)
    decreases |steps|
  {
    if steps == [] then o else Exec(k, verify, Apply(k, verify, o, steps[0]), steps[1..])
  }

  lemma RunsCons(k: Kind, verify: string -> Option<string>, o: Obj, a: Step, rest: seq<Step>)
    requires Enabled(o, a) && Runs(k, verify, Apply(k, verify, o, a), rest)
    ensures Runs(k, verify, o, [a] + rest)
    ensures Exec(k, verify, o, [a] + rest) == Exec(k, verify, Apply(k, verify, o, a), rest)
  {
    assert ([a] + rest)[1..] == rest;
  }

  ghost const FOUR_TURNS := [Work(0)] + ([Work(0)] + ([Work(0)] + ([Work(0)] + [])))

  /** A worker left alone goes through its four accesses to exactly what the
      uninterrupted Proceed does. */
  lemma WorkIsProceed(k: Kind, verify: string -> Option<string>, o: Obj, ok: bool, isRequest: bool)
    requires o.frames == [Entered(ok, isRequest)]
    ensures Runs(k, verify, o, FOUR_TURNS)
    ensures var (h, effect) := Proceeded(k, verify, o.h, ok);
      var left := o.(h := h, frames := []);
      Exec(k, verify, o, FOUR_TURNS) ==
        match effect
        case Armed => left.(armed := o.armed + 1)
        case Spawned(uid) => left.(coros := o.coros + [Begun(uid)])
        case Sent(_, rpc) => Finish(left, None, rpc, None)
  {
    var o1 := Apply(k, verify, o, Work(0));
    var o2 := Apply(k, verify, o1, Work(0));
    var o3 := Apply(k, verify, o2, Work(0));
    assert |o1.frames| == |o2.frames| == |o3.frames| == 1 && Without(o3.frames, 0) == [];
    RunsCons(k, verify, o3, Work(0), []);
    RunsCons(k, verify, o2, Work(0), [Work(0)] + []);
    RunsCons(k, verify, o1, Work(0), [Work(0)] + ([Work(0)] + []));
    RunsCons(k, verify, o, Work(0), [Work(0)] + ([Work(0)] + ([Work(0)] + [])));
  }

  /*------------------------- One obligation at a time -------------------------*/

  /** Everything that will touch the handler next. */
  ghost function Obligations(o: Obj): nat {
    o.armed + o.requests + o.finishing + |o.finished| + |o.frames| + |o.coros|
  }

  /** The service runs, and has an outcome, exactly when the caller is authenticated. */
  ghost predicate Fits(k: Kind, verify: string -> Option<string>, a: Accepted, outcome: Option<Outcome>) {
    Authenticate(k, verify, a.ctx).Granted? <==> outcome.Some?
  }

  /** The answer to one request computed from empty fields. */
  ghost function FreshAnswer(k: Kind, verify: string -> Option<string>, a: Accepted, outcome: Option<Outcome>): Answer
    requires Fits(k, verify, a, outcome)
  {
    match Authenticate(k, verify, a.ctx)
    case Denied(rpc) => Answer(None, EMPTY_REPLY, rpc)
    case Granted(uid) =>
      Answer(Some(CallOf(k, a.request, uid)), AfterLogic(k, EMPTY_REPLY, outcome.value), StatusOf(outcome.value))
  }

  ghost predicate Pending(o: Obj) {
    && |o.accepted| == |o.answers| + 1
    && o.accepted[|o.answers|] == Accepted(o.h.request, o.h.ctx)
  }

  ghost predicate Settled(o: Obj) {
    |o.accepted| == |o.answers|
  }

  ghost predicate FrameInv(k: Kind, verify: string -> Option<string>, o: Obj, f: Frame) {
    match f
    case Entered(ok, isRequest) =>
      if isRequest then ok && o.h.status.WaitProcessing? && o.h.reply == EMPTY_REPLY && Pending(o)
      else o.h.status.Finished? && Settled(o)
    case Processing => o.h.status.WaitProcessing? && o.h.reply == EMPTY_REPLY && Pending(o)
    case Denying(rpc) => o.h.reply == EMPTY_REPLY && Pending(o) && Authenticate(k, verify, o.h.ctx) == Denied(rpc)
    case DenyingSet(rpc) =>
      o.h.status.Finished? && o.h.reply == EMPTY_REPLY && Pending(o) && Authenticate(k, verify, o.h.ctx) == Denied(rpc)
    case Granting(uid) => o.h.reply == EMPTY_REPLY && Pending(o) && Authenticate(k, verify, o.h.ctx) == Granted(uid)
    case GrantingSet(uid) =>
      o.h.status.Finished? && o.h.reply == EMPTY_REPLY && Pending(o) && Authenticate(k, verify, o.h.ctx) == Granted(uid)
    case Recycling => Settled(o)
    case Resetting => o.h.status.WaitProcessing? && Settled(o)
    case Rearming => o.h == NEW_HANDLER && Settled(o)
  }

  ghost predicate CoroInv(k: Kind, verify: string -> Option<string>, o: Obj, c: Coro) {
    && o.h.status.Finished? && Pending(o)
    && match c
       case Begun(uid) => Authenticate(k, verify, o.h.ctx) == Granted(uid) && o.h.reply == EMPTY_REPLY
       case InService(call) =>
         var auth := Authenticate(k, verify, o.h.ctx);
         auth.Granted? && call == CallOf(k, o.h.request, auth.uid) && o.h.reply == EMPTY_REPLY
       case Ended(call, outcome) =>
         var auth := Authenticate(k, verify, o.h.ctx);
         auth.Granted? && call == CallOf(k, o.h.request, auth.uid) && o.h.reply == AfterLogic(k, EMPTY_REPLY, outcome)
  }

  ghost predicate Inv(k: Kind, verify: string -> Option<string>, o: Obj) {
    && Obligations(o) == 1
    && |o.outcomes| == |o.answers| <= |o.accepted|
    && (forall n :: 0 <= n < |o.answers| ==>
          && Fits(k, verify, o.accepted[n], o.outcomes[n])
          && o.answers[n] == FreshAnswer(k, verify, o.accepted[n], o.outcomes[n]))
    && (o.armed == 1 ==> o.h == NEW_HANDLER && Settled(o))
    && (o.requests == 1 ==> o.h.status.WaitProcessing? && o.h.reply == EMPTY_REPLY && Pending(o))
    && (o.finishing == 1 || |o.finished| == 1 ==> o.h.status.Finished? && Settled(o))
    && (|o.frames| == 1 ==> FrameInv(k, verify, o, o.frames[0]))
    && (|o.coros| == 1 ==> CoroInv(k, verify, o, o.coros[0]))
  }

  lemma FinishKeepsInv(k: Kind, verify: string -> Option<string>, o: Obj,
                       call: Option<Call>, rpc: GrpcStatus, outcome: Option<Outcome>)
    requires |o.outcomes| == |o.answers| && Pending(o) && o.h.status.Finished? && Obligations(o) == 0
    requires forall n :: 0 <= n < |o.answers| ==>
      && Fits(k, verify, o.accepted[n], o.outcomes[n])
      && o.answers[n] == FreshAnswer(k, verify, o.accepted[n], o.outcomes[n])
    requires var a := Accepted(o.h.request, o.h.ctx);
      Fits(k, verify, a, outcome) && Answer(call, o.h.reply, rpc) == FreshAnswer(k, verify, a, outcome)
    ensures Inv(k, verify, Finish(o, call, rpc, outcome))
  {
    var o' := Finish(o, call, rpc, outcome);
    forall n | 0 <= n < |o'.answers|
      ensures Fits(k, verify, o'.accepted[n], o'.outcomes[n])
      ensures o'.answers[n] == FreshAnswer(k, verify, o'.accepted[n], o'.outcomes[n])
    {
      if n < |o.answers| {
        assert o'.answers[n] == o.answers[n] && o'.outcomes[n] == o.outcomes[n];
      }
    }
  }

  lemma FrameMoves(k: Kind, verify: string -> Option<string>, o: Obj)
    requires |o.frames| == 1 && FrameInv(k, verify, o, o.frames[0])
    requires !o.frames[0].DenyingSet? && !o.frames[0].GrantingSet? && !o.frames[0].Rearming?
    ensures var o' := ApplyWork(k, verify, o, 0);
      |o'.frames| == 1 && o' == o.(h := o'.h, frames := o'.frames) && FrameInv(k, verify, o', o'.frames[0])
  {
    match o.frames[0]
    case Entered(_, _) =>
    case Processing =>
    case _ =>
  }

  lemma WorkKeepsInv(k: Kind, verify: string -> Option<string>, o: Obj, i: nat)
    requires Inv(k, verify, o) && i < |o.frames|
    ensures Inv(k, verify, ApplyWork(k, verify, o, i))
  {
    assert i == 0 && o.frames == [o.frames[0]] && FrameInv(k, verify, o, o.frames[0]);
    var o' := ApplyWork(k, verify, o, i);
    match o.frames[0]
    case DenyingSet(rpc) =>
      assert Without(o.frames, 0) == [];
      FinishKeepsInv(k, verify, o.(frames := []), None, rpc, None);
    case GrantingSet(uid) =>
      assert o' == o.(frames := [], coros := [Begun(uid)]);
    case Rearming =>
      assert o' == o.(frames := [], armed := 1);
    case _ =>
      FrameMoves(k, verify, o);
  }

  lemma LogicKeepsInv(k: Kind, verify: string -> Option<string>, o: Obj, i: nat, outcome: Outcome)
    requires Inv(k, verify, o) && i < |o.coros|
    ensures Inv(k, verify, ApplyLogic(k, o, i, outcome))
  {
    assert i == 0 && CoroInv(k, verify, o, o.coros[0]);
    var o' := ApplyLogic(k, o, i, outcome);
    match o.coros[0]
    case Ended(call, ended) =>
      assert Without(o.coros, 0) == [];
      FinishKeepsInv(k, verify, o.(coros := []), Some(call), StatusOf(ended), Some(ended));
    case _ =>
      assert o'.answers == o.answers && o'.accepted == o.accepted && o'.outcomes == o.outcomes;
  }

  lemma StepKeepsInv(k: Kind, verify: string -> Option<string>, o: Obj, a: Step)
    requires Inv(k, verify, o) && Enabled(o, a)
    ensures Inv(k, verify, Apply(k, verify, o, a))
  {
    match a
    case Work(i) => WorkKeepsInv(k, verify, o, i);
    case Logic(i, outcome) => LogicKeepsInv(k, verify, o, i, outcome);
    case _ =>
  }

  lemma {:induction false} RunsKeepInv(k: Kind, verify: string -> Option<string>, o: Obj, steps: seq<Step>)
    requires Inv(k, verify, o) && Runs(k, verify, o, steps)
    ensures Inv(k, verify, Exec(k, verify, o, steps))
    decreases |steps|
  {
    if steps != [] {
      StepKeepsInv(k, verify, o, steps[0]);
      RunsKeepInv(k, verify, Apply(k, verify, o, steps[0]), steps[1..]);
    }
  }

  ghost predicate Reachable(k: Kind, verify: string -> Option<string>, o: Obj) {
    exists steps :: Runs(k, verify, NEW_OBJ, steps) && Exec(k, verify, NEW_OBJ, steps) == o
  }

  lemma ReachableInv(k: Kind, verify: string -> Option<string>, o: Obj)
    requires Reachable(k, verify, o)
    ensures Inv(k, verify, o)
  {
    var steps :| Runs(k, verify, NEW_OBJ, steps) && Exec(k, verify, NEW_OBJ, steps) == o;
    RunsKeepInv(k, verify, NEW_OBJ, steps);
  }

  /** Under every interleaving a handler has exactly one pending obligation: a
      request armed, an event queued or being handled, a coroutine running, or a
      Finish pending. Finish has been called once for each accepted request,
      except for the one still being served. */
  lemma OneObligation(k: Kind, verify: string -> Option<string>, o: Obj)
    requires Reachable(k, verify, o)
    ensures Obligations(o) == 1
    ensures |o.answers| <= |o.accepted| <= |o.answers| + 1
    ensures o.armed + o.finishing + |o.finished| == 1 ==> |o.accepted| == |o.answers|
    ensures o.requests + |o.coros| == 1 ==> |o.accepted| == |o.answers| + 1
  {
    ReachableInv(k, verify, o);
  }

  /** A Finish event is only ever delivered to an object whose status says
      FINISHED, and a request event to one that says WAIT_PROCESSING, so Proceed
      takes the branch meant for the event. */
  lemma DeliveryFindsItsStatus(k: Kind, verify: string -> Option<string>, o: Obj)
    requires Reachable(k, verify, o)
    ensures o.requests > 0 ==> o.h.status.WaitProcessing?
    ensures o.finished != [] ==> o.h.status.Finished?
    ensures forall i, ok, isRequest :: 0 <= i < |o.frames| && o.frames[i] == Entered(ok, isRequest) ==>
      ApplyWork(k, verify, o, i).frames[i] == if isRequest then Processing else Recycling
  {
    ReachableInv(k, verify, o);
  }

  /** While a worker resets the context, nothing else uses the object: no armed
      request, queued event, pending Finish, coroutine or second worker. */
  lemma ResetIsExclusive(k: Kind, verify: string -> Option<string>, o: Obj, i: nat)
    requires Reachable(k, verify, o) && i < |o.frames| && o.frames[i].Resetting?
    ensures o.frames == [Resetting] && o.coros == [] && o.finished == []
    ensures o.armed == 0 && o.requests == 0 && o.finishing == 0
  {
    ReachableInv(k, verify, o);
  }

  ghost predicate Answered(o: Obj, n: nat) {
    n < |o.answers| && n < |o.accepted| && n < |o.outcomes|
  }

  /** The recycled handler refines a fresh one. Take one object after any schedule,
      whatever requests it has served, denied or failed and however its clients
      behaved, and its n-th answer; and any new object whose first request is that
      n-th request with the same service outcome. Both made the same service call
      and sent the same reply and status. */
  lemma RecycledEqualsFresh(k: Kind, verify: string -> Option<string>, o: Obj, n: nat, fresh0: Obj)
    requires Reachable(k, verify, o) && Reachable(k, verify, fresh0)
    requires Answered(o, n) && Answered(fresh0, 0)
    requires o.accepted[n] == fresh0.accepted[0] && o.outcomes[n] == fresh0.outcomes[0]
    ensures o.answers[n] == fresh0.answers[0]
  {
    ReachableInv(k, verify, o);
    ReachableInv(k, verify, fresh0);
  }

  /** Every answer sent is for the request accepted with the same number. */
  lemma AnswersAreFresh(k: Kind, verify: string -> Option<string>, o: Obj, n: nat)
    requires Reachable(k, verify, o) && n < |o.answers|
    ensures Answered(o, n) && Fits(k, verify, o.accepted[n], o.outcomes[n])
    ensures o.answers[n] == FreshAnswer(k, verify, o.accepted[n], o.outcomes[n])
  {
    ReachableInv(k, verify, o);
  }

  /** Recycling relies on Reset: each kind of logic overwrites only its own fields, and
      the token and the user on success only. So on a reply that was not cleared it
      sends what it would from an empty one if and only if every field that it does
      not overwrite was empty; else the client is sent another client's data. */
  lemma LogicAloneDoesNotClear(k: Kind, reply: Reply, r: ServiceResult)
    ensures WriteReply(k, reply, r) == WriteReply(k, EMPTY_REPLY, r) <==>
      && (reply.token == "" || (r.code == SUCCESS && (k.LoginByCode? || k.LoginByPassword?)))
      && (reply.userId == "" || k.Register?)
      && (reply.user.None? || (r.code == SUCCESS && k.GetUserInfo?))
  {
  }

  /*------------------------- Back to the pool -------------------------*/

  ghost function FrameRank(f: Frame): nat {
    match f
    case Entered(_, isRequest) => if isRequest then 13 else 4
    case Processing => 12
    case Granting(_) => 11
    case GrantingSet(_) => 10
    case Denying(_) => 8
    case DenyingSet(_) => 7
    case Recycling => 3
    case Resetting => 2
    case Rearming => 1
  }

  ghost function CoroRank(c: Coro): nat {
    match c
    case Begun(_) => 9
    case InService(_) => 8
    case Ended(_, _) => 7
  }

  /** Steps left until the object is armed again. */
  ghost function Rank(o: Obj): nat {
    if o.requests > 0 then 14
    else if o.frames != [] then FrameRank(o.frames[0])
    else if o.coros != [] then CoroRank(o.coros[0])
    else if o.finishing > 0 then 6
    else if o.finished != [] then 5
    else 0
  }

  lemma FrameLowersRank(k: Kind, verify: string -> Option<string>, o: Obj)
    requires |o.frames| == 1 && FrameInv(k, verify, o, o.frames[0])
    requires !o.frames[0].DenyingSet? && !o.frames[0].GrantingSet? && !o.frames[0].Rearming?
    ensures var o' := ApplyWork(k, verify, o, 0);
      |o'.frames| == 1 && o'.requests == o.requests && FrameRank(o'.frames[0]) < FrameRank(o.frames[0])
  {
    match o.frames[0]
    case Entered(_, _) =>
    case Processing =>
    case _ =>
  }

  lemma WorkLowersRank(k: Kind, verify: string -> Option<string>, o: Obj, i: nat)
    requires Obligations(o) == 1 && i < |o.frames| && FrameInv(k, verify, o, o.frames[i])
    ensures Rank(ApplyWork(k, verify, o, i)) < Rank(o)
  {
    var f, o' := o.frames[0], ApplyWork(k, verify, o, 0);
    assert o.frames == [f] && o.requests == 0;
    if f.DenyingSet? || f.GrantingSet? || f.Rearming? {
      assert o'.frames == [] && o'.requests == 0 && o.coros == [];
    } else {
      FrameLowersRank(k, verify, o);
    }
  }

  lemma LogicLowersRank(k: Kind, o: Obj, i: nat, outcome: Outcome)
    requires Obligations(o) == 1 && i < |o.coros|
    ensures Rank(ApplyLogic(k, o, i, outcome)) < Rank(o)
  {
    assert o.coros == [o.coros[0]] && Without(o.coros, 0) == [];
  }

  lemma StepLowersRank(k: Kind, verify: string -> Option<string>, o: Obj, a: Step)
    requires Inv(k, verify, o) && Enabled(o, a) && !a.Match?
    ensures Rank(Apply(k, verify, o, a)) < Rank(o)
  {
    match a
    case Work(i) => WorkLowersRank(k, verify, o, i);
    case Logic(i, outcome) => LogicLowersRank(k, o, i, outcome);
    case TakeFinished(i) => assert o.frames == [];
    case _ =>
  }

  lemma {:induction false} RankBoundsRun(k: Kind, verify: string -> Option<string>, o: Obj, steps: seq<Step>)
    requires Inv(k, verify, o) && Runs(k, verify, o, steps) && forall a :: a in steps ==> !a.Match?
    ensures |steps| + Rank(Exec(k, verify, o, steps)) <= Rank(o)
    decreases |steps|
  {
    if steps != [] {
      StepLowersRank(k, verify, o, steps[0]);
      StepKeepsInv(k, verify, o, steps[0]);
      RankBoundsRun(k, verify, Apply(k, verify, o, steps[0]), steps[1..]);
    }
  }

  /** No handler is ever lost: in any reachable state either the object is armed,
      or some step is possible, and every schedule that accepts no new request
      arms it again within fourteen steps. */
  lemma AlwaysBackInPool(k: Kind, verify: string -> Option<string>, o: Obj, steps: seq<Step>)
    requires Reachable(k, verify, o) && Runs(k, verify, o, steps) && forall a :: a in steps ==> !a.Match?
    ensures |steps| <= 14
    ensures (forall a :: Enabled(Exec(k, verify, o, steps), a) ==> a.Match?) ==> Exec(k, verify, o, steps).armed == 1
  {
    ReachableInv(k, verify, o);
    RankBoundsRun(k, verify, o, steps);
    RunsKeepInv(k, verify, o, steps);
    var o' := Exec(k, verify, o, steps);
    if forall a :: Enabled(o', a) ==> a.Match? {
      assert !Enabled(o', TakeRequest) && !Enabled(o', TakeFinished(0)) && !Enabled(o', Work(0))
             && !Enabled(o', Logic(0, ThrewUnknown)) && !Enabled(o', Complete(true));
    }
  }

  /*------------------------- The ordering hazard -------------------------*/

  /** A worker that spawned the coroutine first, about to write the status. */
  ghost function SpawnedBeforeStatus(o: Obj, uid: string): Obj {
    o.(frames := [], coros := [Begun(uid)])
  }

  ghost function FinishOnTime(outcome: Outcome): seq<Step> {
    [Logic(0, outcome)] + ([Logic(0, outcome)] + ([Logic(0, outcome)] + DELIVERED))
  }

  ghost const DELIVERED := [Complete(true)] + ([TakeFinished(0)] + ([Work(0)] + []))

  /** Why the status comes first. Were the coroutine spawned before the status is
      written, then, whatever the request, the coroutine could finish and its
      completion be delivered in the gap; Proceed would take the object, already
      answered, through the logic again. */
  lemma SpawnBeforeStatusProcessesTwice(k: Kind, verify: string -> Option<string>, o: Obj,
                                        uid: string, outcome: Outcome)
    requires Reachable(k, verify, o) && o.frames == [Granting(uid)] && o.h.status.WaitProcessing?
    ensures var late := SpawnedBeforeStatus(o, uid);
      && Runs(k, verify, late, FinishOnTime(outcome))
      && Exec(k, verify, late, FinishOnTime(outcome)).frames == [Processing]
      && |Exec(k, verify, late, FinishOnTime(outcome)).answers| == |o.accepted|
  {
    ReachableInv(k, verify, o);
    var o0 := SpawnedBeforeStatus(o, uid);
    var o1 := Apply(k, verify, o0, Logic(0, outcome));
    var o2 := Apply(k, verify, o1, Logic(0, outcome));
    var o3 := Apply(k, verify, o2, Logic(0, outcome));
    assert o3.coros == [] && o3.finishing == 1 && o3.finished == [];
    var o4 := Apply(k, verify, o3, Complete(true));
    var o5 := Apply(k, verify, o4, TakeFinished(0));
    assert o5.frames == [Entered(true, false)];
    RunsCons(k, verify, o5, Work(0), []);
    RunsCons(k, verify, o4, TakeFinished(0), [Work(0)] + []);
    RunsCons(k, verify, o3, Complete(true), [TakeFinished(0)] + ([Work(0)] + []));
    RunsCons(k, verify, o2, Logic(0, outcome), DELIVERED);
    RunsCons(k, verify, o1, Logic(0, outcome), [Logic(0, outcome)] + DELIVERED);
    RunsCons(k, verify, o0, Logic(0, outcome), [Logic(0, outcome)] + ([Logic(0, outcome)] + DELIVERED));
  }

  /*------------------------- The manager -------------------------*/

  class Manager {
    const kind: Kind
    const verify: string -> Option<string>
    var pool: seq<PooledHandler>

    constructor (kind: Kind, verify: string -> Option<string>)
      ensures this.kind == kind && this.verify == verify && pool == []
    {
      this.kind, this.verify := kind, verify;
      pool := [];
    }

    /** Every handler of the pool is new and armed once. */
    method Start(initialSize: nat)
      requires pool == []
      modifies this
      ensures |pool| == initialSize
      ensures forall c :: c in pool ==>
        fresh(c) && fresh(c.outside) && c.View() == NEW_HANDLER && c.outside.effects == [Armed]
      ensures forall i, j :: 0 <= i < j < |pool| ==> pool[i] != pool[j] && pool[i].outside != pool[j].outside
    {
      var i := 0;
      while i < initialSize
        invariant 0 <= i == |pool| <= initialSize
        invariant forall c :: c in pool ==>
          fresh(c) && fresh(c.outside) && c.View() == NEW_HANDLER && c.outside.effects == [Armed]
        invariant forall j, k :: 0 <= j < k < |pool| ==> pool[j] != pool[k] && pool[j].outside != pool[k].outside
      {
        var outside := new Outside();
        var callData := new PooledHandler(kind, verify, outside);
        outside.Arm(callData);
        pool := pool + [callData];
        i := i + 1;
      }
    }
  }

  /** A step of one of the pooled handlers. */
  ghost predicate PoolRuns(k: Kind, verify: string -> Option<string>, pool: seq<Obj>, steps: seq<(nat, Step)>)
    decreases |steps|
  {
    steps == [] ||
    var (i, a) := steps[0];
    && i < |pool| && Enabled(pool[i], a)
    && PoolRuns(k, verify, pool[i := Apply(k, verify, pool[i], a)], steps[1..])
  }

  ghost function PoolExec(k: Kind, verify: string -> Option<string>, pool: seq<Obj>, steps: seq<(nat, Step)>): seq<Obj>
    requires PoolRuns(k, verify, pool, steps)
    decreases |steps|
  {
    if steps == [] then pool
    else var (i, a) := steps[0]; PoolExec(k, verify, pool[i := Apply(k, verify, pool[i], a)], steps[1..])
  }

  /** With any number of handlers sharing the queue and the threads, each of them
      keeps the invariant of one. */
  lemma {:induction false} PoolKeepsInv(k: Kind, verify: string -> Option<string>, pool: seq<Obj>,
                                        steps: seq<(nat, Step)>)
    requires PoolRuns(k, verify, pool, steps) && forall o :: o in pool ==> Inv(k, verify, o)
    ensures |PoolExec(k, verify, pool, steps)| == |pool|
    ensures forall o :: o in PoolExec(k, verify, pool, steps) ==> Inv(k, verify, o)
    decreases |steps|
  {
    if steps != [] {
      var (i, a) := steps[0];
      StepKeepsInv(k, verify, pool[i], a);
      PoolKeepsInv(k, verify, pool[i := Apply(k, verify, pool[i], a)], steps[1..]);
    }
  }

  /** What the pool's steps do to handler i. */
  ghost function Mine(steps: seq<(nat, Step)>, i: nat): seq<Step> {
    if steps == [] then [] else (if steps[0].0 == i then [steps[0].1] else []) + Mine(steps[1..], i)
  }

  lemma MineCons(steps: seq<(nat, Step)>, i: nat)
    requires steps != []
    ensures Mine(steps, i) == if steps[0].0 == i then [steps[0].1] + Mine(steps[1..], i) else Mine(steps[1..], i)
  {
  }

  /** Handlers are independent: on every schedule of the pool, handler i goes through
      exactly its own steps, as it would alone. */
  lemma {:induction false} PoolIsIndependent(k: Kind, verify: string -> Option<string>, pool: seq<Obj>,
                                             steps: seq<(nat, Step)>, i: nat)
    requires PoolRuns(k, verify, pool, steps) && i < |pool|
    ensures Runs(k, verify, pool[i], Mine(steps, i)) && |PoolExec(k, verify, pool, steps)| == |pool|
    ensures PoolExec(k, verify, pool, steps)[i] == Exec(k, verify, pool[i], Mine(steps, i))
    decreases |steps|
  {
    if steps != [] {
      var (j, a) := steps[0];
      var next := pool[j := Apply(k, verify, pool[j], a)];
      PoolIsIndependent(k, verify, next, steps[1..], i);
      MineCons(steps, i);
      if j == i {
        RunsCons(k, verify, pool[i], a, Mine(steps[1..], i));
      }
    }
  }

  ghost function NewPool(size: nat): seq<Obj> {
    seq(size, i => NEW_OBJ)
  }

  /** So every state of every handler in a pool of any size is one that a handler
      reaches alone, and all that is proved of `Reachable` states holds of it. */
  lemma PooledHandlersAreReachable(k: Kind, verify: string -> Option<string>, size: nat, steps: seq<(nat, Step)>)
    requires PoolRuns(k, verify, NewPool(size), steps)
    ensures |PoolExec(k, verify, NewPool(size), steps)| == size
    ensures forall o :: o in PoolExec(k, verify, NewPool(size), steps) ==> Reachable(k, verify, o)
    ensures forall o :: o in PoolExec(k, verify, NewPool(size), steps) ==> Obligations(o) == 1
  {
    var pool := PoolExec(k, verify, NewPool(size), steps);
    if size > 0 {
      PoolIsIndependent(k, verify, NewPool(size), steps, 0);
    } else {
      PoolKeepsInv(k, verify, NewPool(size), steps);
    }
    forall i | 0 <= i < size
      ensures Reachable(k, verify, pool[i]) && Obligations(pool[i]) == 1
    {
      PoolIsIndependent(k, verify, NewPool(size), steps, i);
      ReachableInv(k, verify, pool[i]);
    }
  }
}
