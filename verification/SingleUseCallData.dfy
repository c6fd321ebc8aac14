/** The first-generation handler: a new object for every request, deleted after
    its reply. It is the simple machine that the pooled handler speeds up. */
module SingleUseCallData {
  import opened Seqs
  import opened Rpc
  import Pooled = CallData

  datatype Status = Create | Process | Finish

  /*------------------------- The object, updated in place -------------------------*/

  /** The service and queue, recording what handlers ask of them. */
  class Outside {
    var armed: seq<RegisterCallData>
    var spawned: seq<RegisterCallData>
    var sent: seq<(Reply, GrpcStatus)>

    constructor ()
      ensures armed == [] && spawned == [] && sent == []
    {
      armed, spawned, sent := [], [], [];
    }
  }

  class RegisterCallData {
    const outside: Outside
    var status: Status
    var request: Request
    var reply: Reply

    constructor (outside: Outside)
      ensures this.outside == outside && status == Create && request == EMPTY_REQUEST && reply == EMPTY_REPLY
    {
      this.outside := outside;
      status, request, reply := Create, EMPTY_REQUEST, EMPTY_REPLY;
    }

    /** Init, which is Proceed on a new object: arm it. */
    method HandleCreate()
      requires status == Create
      modifies this`status, outside`armed
      ensures status == Process && outside.armed == old(outside.armed) + [this]
    {
      status := Process;
      outside.armed := outside.armed + [this];
    }

    /** A successor is armed first, so the service keeps accepting; then this
        object's logic is spawned. The successor shares nothing with this object. */
    method HandleProcess() returns (successor: RegisterCallData)
      requires status == Process
      modifies this`status, outside
      ensures status == Finish && fresh(successor) && successor.outside == outside
      ensures successor.status == Process && successor.request == EMPTY_REQUEST && successor.reply == EMPTY_REPLY
      ensures outside.armed == old(outside.armed) + [successor] && outside.spawned == old(outside.spawned) + [this]
      ensures outside.sent == old(outside.sent)
    {
      successor := new RegisterCallData(outside);
      successor.HandleCreate();
      status := Finish;
      outside.spawned := outside.spawned + [this];
    }

    method OnLogicFinished(o: Outcome)
      requires status == Finish
      modifies outside`sent
      ensures outside.sent == old(outside.sent) + [(reply, StatusOf(o))]
    {
      outside.sent := outside.sent + [(reply, StatusOf(o))];
    }
  }

  /*------------------------------ All interleavings ------------------------------*/

  /** A worker thread inside an object, between two accesses; `Entered` is at the
      switch of Proceed. */
  datatype Frame = Entered | Creating | Arming | Processing | Replaced | Spawning | Deleting

  datatype Coro = Running | Ended(outcome: Outcome)

  /** One object with everything that can touch it. Any number of each is
      representable: requests armed, request events queued, workers inside,
      coroutines, Finish operations pending, Finish events queued. `successors` and
      `sent` are history. */
  datatype Obj = Obj(
    status: Status,
    request: Request,
    reply: Reply,
    armed: nat,
    requests: nat,
    frames: seq<Frame>,
    coros: seq<Coro>,
    finishing: nat,
    finished: nat,
    deleted: bool,
    successors: nat,
    sent: seq<(Reply, GrpcStatus)>)

  /** Just constructed: its Init is about to call Proceed. */
  const NEW_OBJ := Obj(Create, EMPTY_REQUEST, EMPTY_REPLY, 0, 0, [Entered], [], 0, 0, false, 0, [])

  datatype Step =
    | Match(obj: nat, request: Request)             // gRPC fills a request in and queues its event
    | TakeRequest(obj: nat)                         // a worker takes a request event
    | TakeFinished(obj: nat)                        // a worker takes a Finish event
    | Work(obj: nat, index: nat)                    // a worker inside goes on
    | Logic(obj: nat, index: nat, outcome: Outcome) // a coroutine goes on
    | Complete(obj: nat)                            // gRPC completes a Finish

  ghost predicate Enabled(objs: seq<Obj>, a: Step) {
    && a.obj < |objs|
    && var x := objs[a.obj];
       match a
       case Match(_, _) => x.armed > 0
       case TakeRequest(_) => x.requests > 0
       case TakeFinished(_) => x.finished > 0
       case Work(_, j) => j < |x.frames|
       case Logic(_, j, _) => j < |x.coros|
       case Complete(_) => x.finishing > 0
  }

  /** A worker's next access. Only the creation of a successor is left to Apply. */
  ghost function Worked(x: Obj, j: nat): Obj
    requires j < |x.frames|
  {
    var left := x.(frames := Without(x.frames, j));
    match x.frames[j]
    case Entered =>
      var branch := match x.status case Create => Creating case Process => Processing case Finish => Deleting;
      x.(frames := x.frames[j := branch])
    case Creating => x.(status := Process, frames := x.frames[j := Arming])
    case Arming => left.(armed := x.armed + 1)
    case Processing => x.(successors := x.successors + 1, frames := x.frames[j := Replaced])
    case Replaced => x.(status := Finish, frames := x.frames[j := Spawning])
    case Spawning => left.(coros := x.coros + [Running])
    case Deleting => left.(deleted := true)
  }

  ghost function Reasoned(k: Kind, x: Obj, j: nat, outcome: Outcome): Obj
    requires j < |x.coros|
  {
    match x.coros[j]
    case Running => x.(reply := AfterLogic(k, x.reply, outcome), coros := x.coros[j := Ended(outcome)])
    case Ended(o) =>
      x.(coros := Without(x.coros, j), finishing := x.finishing + 1, sent := x.sent + [(x.reply, StatusOf(o))])
  }

  /** What a step does to the object it belongs to. */
  ghost function Touched(k: Kind, x: Obj, a: Step): Obj
    requires Enabled([x], a.(obj := 0))
  {
    match a
    case Match(_, q) => x.(armed := x.armed - 1, requests := x.requests + 1, request := q)
    case TakeRequest(_) => x.(requests := x.requests - 1, frames := x.frames + [Entered])
    case TakeFinished(_) => x.(finished := x.finished - 1, frames := x.frames + [Entered])
    case Work(_, j) => Worked(x, j)
    case Logic(_, j, outcome) => Reasoned(k, x, j, outcome)
    case Complete(_) => x.(finishing := x.finishing - 1, finished := x.finished + 1)
  }

  ghost predicate Creates(x: Obj, a: Step) {
    a.Work? && a.index < |x.frames| && x.frames[a.index].Processing?
  }

  /** The successor's Init may be overtaken by its creator here, which allows more
      schedules than the single thread that does both. */
  ghost function Apply(k: Kind, objs: seq<Obj>, a: Step): seq<Obj>
    requires Enabled(objs, a)
  {
    objs[a.obj := Touched(k, objs[a.obj], a)] + if Creates(objs[a.obj], a) then [NEW_OBJ] else []
  }

  ghost predicate Runs(k: Kind, objs: seq<Obj>, steps: seq<Step>)
    decreases |steps|
  {
    steps == [] || (Enabled(objs, steps[0]) && Runs(k, Apply(k, objs, steps[0]), steps[1..]))
  }

  ghost function Exec(k: Kind, objs: seq<Obj>, steps: seq<Step>): seq<Obj>
    requires Runs(k, objs, steps)
    decreases |steps|
  {
    if steps == [] then objs else Exec(k, Apply(k, objs, steps[0]), steps[1..])
  }

  lemma {:induction false} RunsAppend(k: Kind, objs: seq<Obj>, xs: seq<Step>, ys: seq<Step>)
    requires Runs(k, objs, xs) && Runs(k, Exec(k, objs, xs), ys)
    ensures Runs(k, objs, xs + ys) && Exec(k, objs, xs + ys) == Exec(k, Exec(k, objs, xs), ys)
    decreases |xs|
  {
    if xs == [] {
      assert xs + ys == ys;
    } else {
      RunsAppend(k, Apply(k, objs, xs[0]), xs[1..], ys);
      assert (xs + ys)[0] == xs[0] && (xs + ys)[1..] == xs[1..] + ys;
    }
  }

  lemma RunsSnoc(k: Kind, objs: seq<Obj>, xs: seq<Step>, a: Step)
    requires Runs(k, objs, xs) && Enabled(Exec(k, objs, xs), a)
    ensures Runs(k, objs, xs + [a]) && Exec(k, objs, xs + [a]) == Apply(k, Exec(k, objs, xs), a)
  {
    var s := Exec(k, objs, xs);
    assert [a][1..] == [] && Runs(k, Apply(k, s, a), []);
    assert Runs(k, s, [a]) && Exec(k, s, [a]) == Apply(k, s, a);
    RunsAppend(k, objs, xs, [a]);
  }

  /*------------------------- One obligation at a time -------------------------*/

  ghost function Obligations(x: Obj): nat {
    x.armed + x.requests + |x.frames| + |x.coros| + x.finishing + x.finished
  }

  /** An object that stands for requests to come, or one that has made its successor. */
  ghost predicate Before(x: Obj, status: Status) {
    x.status == status && x.successors == 0 && x.reply == EMPTY_REPLY && x.sent == []
  }

  ghost predicate After(x: Obj, status: Status) {
    x.status == status && x.successors == 1
  }

  ghost predicate SentOnce(k: Kind, x: Obj) {
    exists o :: x.sent == [(AfterLogic(k, EMPTY_REPLY, o), StatusOf(o))]
  }

  ghost predicate FrameInv(k: Kind, x: Obj, f: Frame) {
    match f
    case Entered => Before(x, Create) || Before(x, Process) || (After(x, Finish) && SentOnce(k, x))
    case Creating => Before(x, Create)
    case Arming => Before(x, Process)
    case Processing => Before(x, Process)
    case Replaced => After(x, Process) && x.reply == EMPTY_REPLY && x.sent == []
    case Spawning => After(x, Finish) && x.reply == EMPTY_REPLY && x.sent == []
    case Deleting => After(x, Finish) && SentOnce(k, x)
  }

  ghost predicate CoroInv(k: Kind, x: Obj, c: Coro) {
    && After(x, Finish) && x.sent == []
    && x.reply == if c.Running? then EMPTY_REPLY else AfterLogic(k, EMPTY_REPLY, c.outcome)
  }

  ghost predicate ObjInv(k: Kind, x: Obj) {
    && Obligations(x) == (if x.deleted then 0 else 1)
    && (x.armed == 1 || x.requests == 1 ==> Before(x, Process))
    && (|x.frames| == 1 ==> FrameInv(k, x, x.frames[0]))
    && (|x.coros| == 1 ==> CoroInv(k, x, x.coros[0]))
    && (x.finishing == 1 || x.finished == 1 || x.deleted ==> After(x, Finish) && SentOnce(k, x))
  }

  /** Objects make their successors in the order of creation: all but the newest have
      made theirs, the newest has not. */
  ghost predicate Inv(k: Kind, objs: seq<Obj>) {
    && objs != []
    && (forall i :: 0 <= i < |objs| ==> ObjInv(k, objs[i]))
    && (forall i :: 0 <= i < |objs| ==> objs[i].successors == if i < |objs| - 1 then 1 else 0)
  }

  lemma NewObjInv(k: Kind)
    ensures Inv(k, [NEW_OBJ])
  {
    assert FrameInv(k, NEW_OBJ, Entered);
  }

  lemma WorkedKeepsInv(k: Kind, x: Obj, j: nat)
    requires ObjInv(k, x) && j < |x.frames|
    ensures ObjInv(k, Worked(x, j))
    ensures Worked(x, j).successors == x.successors + if x.frames[j].Processing? then 1 else 0
    ensures x.frames[j].Processing? ==> x.successors == 0
  {
    assert j == 0 && x.frames == [x.frames[0]] && FrameInv(k, x, x.frames[0]);
    assert Without(x.frames, 0) == [];
  }

  lemma ReasonedKeepsInv(k: Kind, x: Obj, j: nat, outcome: Outcome)
    requires ObjInv(k, x) && j < |x.coros|
    ensures ObjInv(k, Reasoned(k, x, j, outcome)) && Reasoned(k, x, j, outcome).successors == x.successors
  {
    assert j == 0 && x.coros == [x.coros[0]] && CoroInv(k, x, x.coros[0]);
    assert Without(x.coros, 0) == [];
    if x.coros[0].Ended? {
      var x' := Reasoned(k, x, 0, outcome);
      assert x'.sent == [(AfterLogic(k, EMPTY_REPLY, x.coros[0].outcome), StatusOf(x.coros[0].outcome))];
    }
  }

  lemma TouchedKeepsInv(k: Kind, x: Obj, a: Step)
    requires ObjInv(k, x) && Enabled([x], a.(obj := 0))
    ensures ObjInv(k, Touched(k, x, a))
    ensures Touched(k, x, a).successors == x.successors + if Creates(x, a) then 1 else 0
    ensures Creates(x, a) ==> x.successors == 0
  {
    match a
    case Work(_, j) => WorkedKeepsInv(k, x, j);
    case Logic(_, j, outcome) => ReasonedKeepsInv(k, x, j, outcome);
    case TakeRequest(_) => assert x.frames == [];
    case TakeFinished(_) => assert x.frames == [];
    case _ =>
  }

  lemma StepKeepsInv(k: Kind, objs: seq<Obj>, a: Step)
    requires Inv(k, objs) && Enabled(objs, a)
    ensures Inv(k, Apply(k, objs, a))
  {
    TouchedKeepsInv(k, objs[a.obj], a);
    NewObjInv(k);
    assert ObjInv(k, [NEW_OBJ][0]);
  }

  lemma {:induction false} RunsKeepInv(k: Kind, objs: seq<Obj>, steps: seq<Step>)
    requires Inv(k, objs) && Runs(k, objs, steps)
    ensures Inv(k, Exec(k, objs, steps))
    decreases |steps|
  {
    if steps != [] {
      StepKeepsInv(k, objs, steps[0]);
      RunsKeepInv(k, Apply(k, objs, steps[0]), steps[1..]);
    }
  }

  /** From the first object on and on every schedule: an object that is not deleted has
      exactly one thing pending and a deleted one none, so no event ever reaches freed
      memory; exactly the newest object has no successor, and only it can be armed or
      have a request event queued; and an object has sent once, or not yet. */
  lemma OneAcceptorOneAnswer(k: Kind, steps: seq<Step>)
    requires Runs(k, [NEW_OBJ], steps)
    ensures var objs := Exec(k, [NEW_OBJ], steps);
      && objs != []
      && (forall i :: 0 <= i < |objs| ==> Obligations(objs[i]) == if objs[i].deleted then 0 else 1)
      && (forall i :: 0 <= i < |objs| ==> (objs[i].successors == 0 <==> i == |objs| - 1))
      && (forall i :: 0 <= i < |objs| && objs[i].armed + objs[i].requests > 0 ==> i == |objs| - 1)
      && (forall i :: 0 <= i < |objs| ==> |objs[i].sent| <= 1)
      && (forall i :: 0 <= i < |objs| && objs[i].deleted ==> |objs[i].sent| == 1)
  {
    NewObjInv(k);
    RunsKeepInv(k, [NEW_OBJ], steps);
    var objs := Exec(k, [NEW_OBJ], steps);
    forall i | 0 <= i < |objs|
      ensures |objs[i].sent| <= 1 && (objs[i].deleted ==> |objs[i].sent| == 1)
    {
      assert ObjInv(k, objs[i]);
    }
  }

  /** Every delivered event finds the status of its branch: a request PROCESS, a
      completed Finish FINISH. */
  lemma DeliveryFindsItsStatus(k: Kind, steps: seq<Step>, i: nat)
    requires Runs(k, [NEW_OBJ], steps) && i < |Exec(k, [NEW_OBJ], steps)|
    ensures var x := Exec(k, [NEW_OBJ], steps)[i];
      (x.requests > 0 ==> x.status == Process) && (x.finished > 0 ==> x.status == Finish)
  {
    NewObjInv(k);
    RunsKeepInv(k, [NEW_OBJ], steps);
    assert ObjInv(k, Exec(k, [NEW_OBJ], steps)[i]);
  }

  /*------------------------- Refinement by the pooled handler -------------------------*/

  /** The life of an object that serves one request, and its step at each stage. */
  ghost function Stage(k: Kind, q: Request, o: Outcome, n: nat): Obj {
    var reply := AfterLogic(k, EMPTY_REPLY, o);
    var idle := Obj(Process, EMPTY_REQUEST, EMPTY_REPLY, 0, 0, [], [], 0, 0, false, 0, []);
    var asked := idle.(request := q);
    var replaced := asked.(successors := 1);
    var running := replaced.(status := Finish);
    var replied := running.(reply := reply, sent := [(reply, StatusOf(o))]);
    match n
    case 0 => NEW_OBJ
    case 1 => NEW_OBJ.(frames := [Creating])
    case 2 => idle.(frames := [Arming])
    case 3 => idle.(armed := 1)
    case 4 => asked.(requests := 1)
    case 5 => asked.(frames := [Entered])
    case 6 => asked.(frames := [Processing])
    case 7 => replaced.(frames := [Replaced])
    case 8 => running.(frames := [Spawning])
    case 9 => running.(coros := [Running])
    case 10 => running.(reply := reply, coros := [Ended(o)])
    case 11 => replied.(finishing := 1)
    case 12 => replied.(finished := 1)
    case 13 => replied.(frames := [Entered])
    case 14 => replied.(frames := [Deleting])
    case _ => replied.(deleted := true)
  }

  ghost function StageStep(i: nat, q: Request, o: Outcome, n: nat): Step {
    match n
    case 3 => Match(i, q)
    case 4 => TakeRequest(i)
    case 9 => Logic(i, 0, o)
    case 10 => Logic(i, 0, o)
    case 11 => Complete(i)
    case 12 => TakeFinished(i)
    case _ => Work(i, 0)
  }

  ghost predicate Follows(k: Kind, x: Obj, a: Step, x': Obj, creates: bool) {
    Enabled([x], a.(obj := 0)) && Touched(k, x, a) == x' && (Creates(x, a) <==> creates)
  }

  lemma AcceptingFollows(k: Kind, q: Request, o: Outcome, n: nat, i: nat)
    requires n < 8
    ensures Follows(k, Stage(k, q, o, n), StageStep(i, q, o, n), Stage(k, q, o, n + 1), n == 6)
  {
    if n == 2 {
      assert Without([Arming], 0) == [];
    }
  }

  lemma AnsweringFollows(k: Kind, q: Request, o: Outcome, n: nat, i: nat)
    requires 8 <= n < 11
    ensures Follows(k, Stage(k, q, o, n), StageStep(i, q, o, n), Stage(k, q, o, n + 1), false)
  {
    assert Without([Spawning], 0) == [] && Without([Ended(o)], 0) == [];
  }

  lemma DeletingFollows(k: Kind, q: Request, o: Outcome, n: nat, i: nat)
    requires 11 <= n < 15
    ensures Follows(k, Stage(k, q, o, n), StageStep(i, q, o, n), Stage(k, q, o, n + 1), false)
  {
    assert Without([Deleting], 0) == [];
  }

  lemma ApplyToNewest(k: Kind, objs: seq<Obj>, tail: seq<Obj>, x: Obj, a: Step, x': Obj, creates: bool)
    requires objs != [] && a.obj == |objs| - 1 && Follows(k, x, a, x', creates)
    ensures var s := objs[a.obj := x] + tail;
      Enabled(s, a) && Apply(k, s, a) == objs[a.obj := x'] + tail + if creates then [NEW_OBJ] else []
  {
    var s := objs[a.obj := x] + tail;
    assert s[a.obj] == x;
    assert s[a.obj := x'] == objs[a.obj := x'] + tail;
  }

  ghost function Successor(n: nat): seq<Obj> {
    if n > 6 then [NEW_OBJ] else []
  }

  lemma StageExtends(k: Kind, objs: seq<Obj>, q: Request, o: Outcome, n: nat)
    requires objs != [] && n < 15
    ensures var i := |objs| - 1;
      var s, a := objs[i := Stage(k, q, o, n)] + Successor(n), StageStep(i, q, o, n);
      Enabled(s, a) && Apply(k, s, a) == objs[i := Stage(k, q, o, n + 1)] + Successor(n + 1)
  {
    var i := |objs| - 1;
    var x, a, x' := Stage(k, q, o, n), StageStep(i, q, o, n), Stage(k, q, o, n + 1);
    if n < 8 {
      AcceptingFollows(k, q, o, n, i);
    } else if n < 11 {
      AnsweringFollows(k, q, o, n, i);
    } else {
      DeletingFollows(k, q, o, n, i);
    }
    ApplyToNewest(k, objs, Successor(n), x, a, x', n == 6);
    assert objs[i := x'] + Successor(n) + [] == objs[i := x'] + Successor(n);
    assert objs[i := x'] + [] + [NEW_OBJ] == objs[i := x'] + [NEW_OBJ];
  }

  /** The newest object is taken to a stage of its life. */
  lemma {:induction false} ServeUpTo(k: Kind, objs: seq<Obj>, q: Request, o: Outcome, m: nat) returns (steps: seq<Step>)
    requires objs != [] && objs[|objs| - 1] == NEW_OBJ && m <= 15
    ensures Runs(k, objs, steps)
    ensures Exec(k, objs, steps) == objs[|objs| - 1 := Stage(k, q, o, m)] + Successor(m)
  {
    steps := [];
    if m == 0 {
      assert objs == objs[|objs| - 1 := NEW_OBJ] + [];
    } else {
      steps := ServeUpTo(k, objs, q, o, m - 1);
      StageExtends(k, objs, q, o, m - 1);
      RunsSnoc(k, objs, steps, StageStep(|objs| - 1, q, o, m - 1));
      steps := steps + [StageStep(|objs| - 1, q, o, m - 1)];
    }
  }

  ghost predicate AllServed(k: Kind, objs: seq<Obj>, qs: seq<Request>, os: seq<Outcome>) {
    && |objs| == |qs| + 1 == |os| + 1 && objs[|qs|] == NEW_OBJ
    && forall n :: 0 <= n < |qs| ==> objs[n] == Stage(k, qs[n], os[n], 15)
  }

  lemma ServedOneMore(k: Kind, objs: seq<Obj>, qs: seq<Request>, os: seq<Outcome>, q: Request, o: Outcome)
    requires AllServed(k, objs, qs, os)
    ensures AllServed(k, objs[|qs| := Stage(k, q, o, 15)] + [NEW_OBJ], qs + [q], os + [o])
  {
  }

  /** Some schedule of single-use objects serves any given list of requests in order. */
  lemma {:induction false} ServeAll(k: Kind, qs: seq<Request>, os: seq<Outcome>) returns (steps: seq<Step>)
    requires |qs| == |os|
    ensures Runs(k, [NEW_OBJ], steps) && AllServed(k, Exec(k, [NEW_OBJ], steps), qs, os)
  {
    steps := [];
    if qs != [] {
      var n := |qs| - 1;
      steps := ServeAll(k, qs[..n], os[..n]);
      var objs := Exec(k, [NEW_OBJ], steps);
      var more := ServeUpTo(k, objs, qs[n], os[n], 15);
      RunsAppend(k, [NEW_OBJ], steps, more);
      ServedOneMore(k, objs, qs[..n], os[..n], qs[n], os[n]);
      assert qs == qs[..n] + [qs[n]] && os == os[..n] + [os[n]];
      steps := steps + more;
    }
  }

  lemma StagesSeen(k: Kind, q: Request, o: Outcome)
    ensures Stage(k, q, o, 15).request == q
    ensures Stage(k, q, o, 15).sent == [(AfterLogic(k, EMPTY_REPLY, o), StatusOf(o))]
    ensures var asked := Stage(k, q, o, 4); asked.request == q && asked.sent == [] && asked.requests == 1
  {
  }

  lemma PooledHistory(k: Kind, verify: string -> Option<string>, o: Pooled.Obj)
      returns (qs: seq<Request>, os: seq<Outcome>)
    requires Pooled.Reachable(k, verify, o) && !RequiresAuth(k)
    ensures |qs| == |os| == |o.answers| <= |o.accepted| <= |o.answers| + 1
    ensures forall n :: 0 <= n < |qs| ==>
      && o.accepted[n].request == qs[n]
      && o.answers[n].reply == AfterLogic(k, EMPTY_REPLY, os[n]) && o.answers[n].rpc == StatusOf(os[n])
  {
    Pooled.OneObligation(k, verify, o);
    Pooled.ReachableInv(k, verify, o);
    var m := |o.answers|;
    assert forall n :: 0 <= n < m ==> Pooled.Fits(k, verify, o.accepted[n], o.outcomes[n]);
    qs := seq(m, n requires 0 <= n < m => o.accepted[n].request);
    os := seq(m, n requires 0 <= n < m => o.outcomes[n].value);
  }

  /** What clients see of the pooled handler, for a kind of call without
      authentication, they could see of single-use handlers: some schedule of the
      first generation accepts the same requests in the same order, sends the same
      replies to those answered, and has the one being served, if any, still
      unanswered. */
  lemma PooledRefinesSingleUse(k: Kind, verify: string -> Option<string>, o: Pooled.Obj) returns (steps: seq<Step>)
    requires Pooled.Reachable(k, verify, o) && !RequiresAuth(k)
    ensures |o.answers| <= |o.accepted| <= |o.answers| + 1 && Runs(k, [NEW_OBJ], steps)
    ensures var objs := Exec(k, [NEW_OBJ], steps);
      && |objs| == |o.answers| + 1
      && (forall n :: 0 <= n < |o.accepted| ==> objs[n].request == o.accepted[n].request)
      && (forall n :: 0 <= n < |o.answers| ==> objs[n].sent == [(o.answers[n].reply, o.answers[n].rpc)])
      && objs[|o.answers|].sent == [] && objs[|o.answers|].requests == |o.accepted| - |o.answers|
  {
    var qs, os := PooledHistory(k, verify, o);
    var m := |qs|;
    steps := ServeAll(k, qs, os);
    var objs := Exec(k, [NEW_OBJ], steps);
    forall n | 0 <= n < m
      ensures objs[n].request == o.accepted[n].request && objs[n].sent == [(o.answers[n].reply, o.answers[n].rpc)]
    {
      StagesSeen(k, qs[n], os[n]);
    }
    if |o.accepted| > m {
      var q := o.accepted[m].request;
      var more := ServeUpTo(k, objs, q, ThrewUnknown, 4);
      StagesSeen(k, q, ThrewUnknown);
      RunsAppend(k, [NEW_OBJ], steps, more);
      steps := steps + more;
    }
  }
}
