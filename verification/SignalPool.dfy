/** The first generation of the pool: a mutex around the deque, and an unbounded
    channel of signals that a getter waits on before it checks the deque again.

    A returner pushes under the lock and signals after it; a getter that found
    the deque empty has unlocked before it starts to receive. Both gaps are
    states here. */
module SignalPool {
  import opened Seqs
  import opened TokenPool
  import PoolCore

  /*------------------------- The objects, updated in place -------------------------*/

  /** A channel without a capacity limit: a signal goes to the first suspended
      receiver, or into the buffer. */
  class SignalChannel {
    var buffered: nat
    var receivers: seq<nat>

    constructor ()
      ensures buffered == 0 && receivers == []
    {
      buffered, receivers := 0, [];
    }

    method AsyncReceive(client: nat) returns (ready: bool)
      modifies this
      ensures ready <==> old(buffered) > 0
      ensures ready ==> buffered == old(buffered) - 1 && receivers == old(receivers)
      ensures !ready ==> buffered == old(buffered) && receivers == old(receivers) + [client]
    {
      ready := buffered > 0;
      if ready {
        buffered := buffered - 1;
      } else {
        receivers := receivers + [client];
      }
    }

    method TrySend() returns (woken: Option<nat>)
      modifies this
      ensures woken.Some? <==> old(receivers) != []
      ensures woken.Some? ==> old(receivers) == [woken.value] + receivers && buffered == old(buffered)
      ensures woken.None? ==> receivers == old(receivers) && buffered == old(buffered) + 1
    {
      if receivers != [] {
        woken := Some(receivers[0]);
        receivers := receivers[1..];
      } else {
        woken := None;
        buffered := buffered + 1;
      }
    }
  }

  class ConnectionPool {
    const size: nat
    const signals: SignalChannel
    var pool: seq<nat>

    constructor (size: nat)
      ensures this.size == size && pool == [] && View() == Core([], 0, []) && fresh(signals)
    {
      this.size := size;
      signals := new SignalChannel();
      pool := [];
    }

    ghost function View(): Core
      reads this, signals
    {
      Core(pool, signals.buffered, signals.receivers)
    }

    method Init()
      requires pool == []
      modifies this
      ensures pool == PoolCore.Numbered(size)
      ensures signals.buffered == old(signals.buffered) && signals.receivers == old(signals.receivers)
    {
      var i := 0;
      while i < size
        invariant 0 <= i <= size && pool == PoolCore.Numbered(i)
      {
        pool := pool + [i];
        i := i + 1;
      }
    }

    /** The locked part of one turn of GetConnection's loop: leave with the front
        of the deque, or find it empty. */
    method CheckUnderLock() returns (conn: Option<nat>)
      modifies this
      ensures (View(), conn) == CheckCore(old(View()))
    {
      if pool != [] {
        conn := Some(pool[0]);
        pool := pool[1..];
      } else {
        conn := None;
      }
    }

    /** The rest of that turn: wait for a signal, unless one is buffered. */
    method AwaitSignal(client: nat) returns (ready: bool)
      modifies signals
      ensures (View(), ready) == ReceiveCore(old(View()), client)
    {
      ready := signals.AsyncReceive(client);
    }

    method PushUnderLock(conn: nat)
      modifies this
      ensures View() == PushCore(old(View()), conn)
    {
      pool := pool + [conn];
    }

    method Signal() returns (woken: Option<nat>)
      modifies signals
      ensures (View(), woken) == SendCore(old(View()))
    {
      woken := signals.TrySend();
    }
  }

  datatype Core = Core(pool: seq<nat>, buffered: nat, receivers: seq<nat>)

  function CheckCore(k: Core): (Core, Option<nat>) {
    if k.pool != [] then (k.(pool := k.pool[1..]), Some(k.pool[0])) else (k, None)
  }

  function ReceiveCore(k: Core, client: nat): (Core, bool) {
    if k.buffered > 0 then (k.(buffered := k.buffered - 1), true)
    else (k.(receivers := k.receivers + [client]), false)
  }

  function PushCore(k: Core, conn: nat): Core {
    k.(pool := k.pool + [conn])
  }

  function SendCore(k: Core): (Core, Option<nat>) {
    if k.receivers != [] then (k.(receivers := k.receivers[1..]), Some(k.receivers[0]))
    else (k.(buffered := k.buffered + 1), None)
  }

  /*------------------------------ All interleavings ------------------------------*/

  /** `PastCheck`: found the deque empty and unlocked, not yet receiving.
      `Signalled`: woken, not yet locked again. `Pushed`: returned, not yet signalled. */
  datatype Phase =
    | Calling
    | PastCheck
    | Blocked
    | Signalled
    | Holding(conn: nat)
    | Pushed
    | Done

  datatype Sys = Sys(core: Core, tasks: seq<Phase>)

  datatype Step = Check(task: nat) | Receive(task: nat) | Push(task: nat) | Send(task: nat)

  ghost predicate Enabled(s: Sys, a: Step) {
    && a.task < |s.tasks|
    && match a
       case Check(i) => s.tasks[i].Calling? || s.tasks[i].Signalled?
       case Receive(i) => s.tasks[i].PastCheck?
       case Push(i) => s.tasks[i].Holding?
       case Send(i) => s.tasks[i].Pushed? && (s.core.receivers != [] ==> s.core.receivers[0] < |s.tasks|)
  }

  ghost function Apply(s: Sys, a: Step): Sys
    requires Enabled(s, a)
  {
    match a
    case Check(i) =>
      var (core, got) := CheckCore(s.core);
      Sys(core, s.tasks[i := if got.Some? then Holding(got.value) else PastCheck])
    case Receive(i) =>
      var (core, ready) := ReceiveCore(s.core, i);
      Sys(core, s.tasks[i := if ready then Signalled else Blocked])
    case Push(i) =>
      Sys(PushCore(s.core, s.tasks[i].conn), s.tasks[i := Pushed])
    case Send(i) =>
      var (core, woken) := SendCore(s.core);
      Sys(core, if woken.Some? then s.tasks[i := Done][woken.value := Signalled] else s.tasks[i := Done])
  }

  ghost predicate Runs(s: Sys, steps: seq<Step>)
    decreases |steps|
  {
    steps == [] || (Enabled(s, steps[0]) && Runs(Apply(s, steps[0]), steps[1..]))
  }

  ghost function Exec(s: Sys, steps: seq<Step>): Sys
    requires Runs(s, steps)
    decreases |steps|
  {
    if steps == [] then s else Exec(Apply(s, steps[0]), steps[1..])
  }

  ghost function Start(n: nat, tasks: nat): Sys {
    Sys(Core(PoolCore.Numbered(n), 0, []), seq(tasks, i => Calling))
  }

  /*------------------------------ Refinement ------------------------------*/

  ghost function ViewOf(p: Phase): View {
    match p
    case Holding(c) => Owns(c)
    case Pushed => Finished
    case Done => Finished
    case _ => Wanting
  }

  ghost function Abs(s: Sys): Loose {
    Loose(s.core.pool, Map(ViewOf, s.tasks))
  }

  /** Receivers are distinct, suspended tasks, and suspended only while no signal is buffered. */
  ghost predicate ReceiversInv(s: Sys) {
    && Distinct(s.core.receivers)
    && (forall i: nat :: i < |s.tasks| && s.tasks[i].Blocked? <==> i in s.core.receivers)
    && (s.core.receivers != [] ==> s.core.buffered == 0)
  }

  lemma StepKeepsReceivers(s: Sys, a: Step)
    requires ReceiversInv(s) && Enabled(s, a)
    ensures ReceiversInv(Apply(s, a))
  {
    var s' := Apply(s, a);
    var k, k' := s.core, s'.core;
    match a
    case Receive(i) =>
      assert i !in k.receivers;
      if k.buffered == 0 {
        assert k'.receivers == k.receivers + [i];
        assert forall j: nat :: j in k'.receivers <==> j in k.receivers || j == i;
      }
    case Send(i) =>
      if k.receivers != [] {
        var w := k.receivers[0];
        assert k.receivers == [w] + k'.receivers;
        assert forall j :: 0 <= j < |k'.receivers| ==> k'.receivers[j] == k.receivers[j + 1];
        assert w !in k'.receivers && i !in k.receivers;
        assert forall j: nat :: j in k'.receivers <==> j in k.receivers && j != w;
      }
    case _ =>
  }

  /** Taking a connection after a successful check and pushing one back are the
      loose pool's two steps; checks that fail, signals and waits are invisible. */
  lemma StepRefinesLoose(s: Sys, a: Step)
    requires ReceiversInv(s) && Enabled(s, a)
    ensures Abs(s) == Abs(Apply(s, a)) || LooseNext(Abs(s), Abs(Apply(s, a)))
  {
    var s' := Apply(s, a);
    var p, p' := Abs(s), Abs(s');
    match a
    case Check(i) =>
      if s.core.pool != [] {
        assert p'.views == p.views[i := Owns(p.free[0])];
        assert Acquire(p, i, p');
      } else {
        assert p'.views == p.views;
      }
    case Receive(i) =>
      assert p'.views == p.views;
    case Push(i) =>
      assert p'.views == p.views[i := Finished];
      assert GiveBack(p, i, p');
    case Send(i) =>
      if s.core.receivers != [] {
        assert s.core.receivers[0] in s.core.receivers;
      }
      assert p'.views == p.views;
  }

  /*------------------------------ No lost wake-up ------------------------------*/

  ghost function WaitingOne(p: Phase): nat { if p.PastCheck? || p.Blocked? then 1 else 0 }
  ghost function SignalledOne(p: Phase): nat { if p.Signalled? then 1 else 0 }
  ghost function PushedOne(p: Phase): nat { if p.Pushed? then 1 else 0 }

  /** Getters past the empty check and not yet signalled. */
  ghost function Waiters(s: Sys): nat { Sum(Map(WaitingOne, s.tasks)) }
  ghost function Woken(s: Sys): nat { Sum(Map(SignalledOne, s.tasks)) }
  ghost function Returners(s: Sys): nat { Sum(Map(PushedOne, s.tasks)) }

  /** While somebody waits, every idle connection has a wake-up on its way. */
  ghost predicate WakeUpPending(s: Sys) {
    Waiters(s) > 0 ==> |s.core.pool| <= s.core.buffered + Woken(s) + Returners(s)
  }

  lemma CountUpdate(f: Phase -> nat, tasks: seq<Phase>, i: nat, p: Phase)
    requires i < |tasks|
    ensures Sum(Map(f, tasks[i := p])) + f(tasks[i]) == Sum(Map(f, tasks)) + f(p)
  {
    SumUpdate(Map(f, tasks), i, f(p));
    assert Map(f, tasks[i := p]) == Map(f, tasks)[i := f(p)];
  }

  lemma CountsUpdate(core: Core, tasks: seq<Phase>, core': Core, i: nat, p: Phase)
    requires i < |tasks|
    ensures var s, s' := Sys(core, tasks), Sys(core', tasks[i := p]);
      && Waiters(s') + WaitingOne(tasks[i]) == Waiters(s) + WaitingOne(p)
      && Woken(s') + SignalledOne(tasks[i]) == Woken(s) + SignalledOne(p)
      && Returners(s') + PushedOne(tasks[i]) == Returners(s) + PushedOne(p)
  {
    CountUpdate(WaitingOne, tasks, i, p);
    CountUpdate(SignalledOne, tasks, i, p);
    CountUpdate(PushedOne, tasks, i, p);
  }

  lemma StepKeepsWakeUps(s: Sys, a: Step)
    requires ReceiversInv(s) && WakeUpPending(s) && Enabled(s, a)
    ensures WakeUpPending(Apply(s, a))
  {
    var s', i := Apply(s, a), a.task;
    if a.Send? && s.core.receivers != [] {
      var w := s.core.receivers[0];
      assert w in s.core.receivers;
      CountsUpdate(s.core, s.tasks, s.core, i, Done);
      CountsUpdate(s.core, s.tasks[i := Done], s'.core, w, Signalled);
    } else {
      CountsUpdate(s.core, s.tasks, s'.core, i, s'.tasks[i]);
    }
  }

  ghost predicate Good(s: Sys, n: nat) {
    ReceiversInv(s) && WakeUpPending(s) && Conserved(Abs(s), n)
  }

  lemma {:induction false} AllZero(f: Phase -> nat, tasks: seq<Phase>)
    requires forall i :: 0 <= i < |tasks| ==> f(tasks[i]) == 0
    ensures Sum(Map(f, tasks)) == 0
  {
    SumBound(Map(f, tasks), 0);
  }

  lemma StartIsGood(n: nat, tasks: nat)
    ensures Good(Start(n, tasks), n)
  {
    var s := Start(n, tasks);
    PoolCore.NumberedIsAllTokens(n);
    JoinEmpty(Map(Held, Abs(s).views));
    AllZero(WaitingOne, s.tasks);
  }

  lemma {:induction false} RunsStayGood(s: Sys, steps: seq<Step>, n: nat)
    requires Good(s, n) && Runs(s, steps)
    ensures Good(Exec(s, steps), n) && |Exec(s, steps).tasks| == |s.tasks|
    decreases |steps|
  {
    if steps != [] {
      var s' := Apply(s, steps[0]);
      StepKeepsReceivers(s, steps[0]);
      StepRefinesLoose(s, steps[0]);
      StepKeepsWakeUps(s, steps[0]);
      if Abs(s) != Abs(s') {
        LooseConserves(Abs(s), Abs(s'), n);
      }
      RunsStayGood(s', steps[1..], n);
    }
  }

  /** No wake-up is ever lost: on every schedule, while some getter is past its
      empty check and not signalled, there are no more idle connections than
      buffered signals, woken getters and returners about to signal. So when none
      of these is pending, a waiting getter means an empty deque. */
  lemma NoLostWakeUp(n: nat, tasks: nat, steps: seq<Step>)
    requires Runs(Start(n, tasks), steps)
    ensures var s := Exec(Start(n, tasks), steps);
      && WakeUpPending(s)
      && (s.core.buffered == 0 && Woken(s) == 0 && Returners(s) == 0
          && (exists i :: 0 <= i < |s.tasks| && (s.tasks[i].PastCheck? || s.tasks[i].Blocked?))
          ==> s.core.pool == [])
  {
    StartIsGood(n, tasks);
    RunsStayGood(Start(n, tasks), steps, n);
    var s := Exec(Start(n, tasks), steps);
    if i :| 0 <= i < |s.tasks| && (s.tasks[i].PastCheck? || s.tasks[i].Blocked?) {
      SumMember(Map(WaitingOne, s.tasks), i);
    }
  }

  /** Each connection is idle in one slot or held by one task, on every schedule. */
  lemma EveryConnectionInOnePlace(n: nat, tasks: nat, steps: seq<Step>)
    requires Runs(Start(n, tasks), steps)
    ensures forall c: nat :: c < n ==> ExactlyOnePlace(Abs(Exec(Start(n, tasks), steps)), c)
  {
    StartIsGood(n, tasks);
    RunsStayGood(Start(n, tasks), steps, n);
    ConservationIsExclusivity(Abs(Exec(Start(n, tasks), steps)), n);
  }

  /*-------------------------- Termination without deadlock --------------------------*/

  /** A buffered signal is worth two: it lets a getter go round its loop once more. */
  ghost function Weight(p: Phase): nat {
    match p
    case Calling => 6
    case Signalled => 5
    case PastCheck => 4
    case Holding(_) => 4
    case Blocked => 3
    case Pushed => 3
    case Done => 0
  }

  ghost function Work(s: Sys): nat {
    Sum(Map(Weight, s.tasks)) + 2 * s.core.buffered
  }

  lemma StepShrinksWork(s: Sys, a: Step)
    requires ReceiversInv(s) && Enabled(s, a)
    ensures Work(Apply(s, a)) < Work(s)
  {
    var s', i := Apply(s, a), a.task;
    if a.Send? && s.core.receivers != [] {
      var w := s.core.receivers[0];
      assert w in s.core.receivers;
      CountUpdate(Weight, s.tasks, i, Done);
      CountUpdate(Weight, s.tasks[i := Done], w, Signalled);
    } else {
      CountUpdate(Weight, s.tasks, i, s'.tasks[i]);
    }
  }

  ghost predicate AllDone(s: Sys) {
    forall i :: 0 <= i < |s.tasks| ==> s.tasks[i].Done?
  }

  ghost predicate Stuck(s: Sys) {
    forall a :: !Enabled(s, a)
  }

  lemma StuckTask(s: Sys, i: nat)
    requires ReceiversInv(s) && Stuck(s) && i < |s.tasks|
    ensures s.tasks[i].Done? || s.tasks[i].Blocked?
  {
    assert s.core.receivers != [] ==> s.core.receivers[0] in s.core.receivers;
    assert !Enabled(s, Check(i)) && !Enabled(s, Receive(i)) && !Enabled(s, Push(i)) && !Enabled(s, Send(i));
  }

  lemma StuckMeansNoneInUse(s: Sys, n: nat)
    requires Good(s, n) && Stuck(s)
    ensures forall i :: 0 <= i < |s.tasks| ==> s.tasks[i].Done? || s.tasks[i].Blocked?
    ensures multiset(s.core.pool) == AllTokens(n)
  {
    var bags := Map(Held, Abs(s).views);
    forall i | 0 <= i < |s.tasks|
      ensures s.tasks[i].Done? || s.tasks[i].Blocked?
      ensures bags[i] == multiset{}
    {
      StuckTask(s, i);
      assert Abs(s).views[i] == ViewOf(s.tasks[i]);
    }
    JoinEmpty(bags);
    assert multiset(s.core.pool) + multiset{} == AllTokens(n);
  }

  /** A suspended getter with nothing pending would mean an empty deque and all
      connections in it at once. */
  lemma StuckMeansDone(s: Sys, n: nat)
    requires Good(s, n) && n > 0 && Stuck(s)
    ensures AllDone(s) && multiset(s.core.pool) == AllTokens(n)
  {
    StuckMeansNoneInUse(s, n);
    AllTokensOnce(n, 0);
    assert 0 in multiset(s.core.pool);
    assert s.core.pool != [];
    AllZero(SignalledOne, s.tasks);
    AllZero(PushedOne, s.tasks);
    forall i | 0 <= i < |s.tasks|
      ensures s.tasks[i].Done?
    {
      if s.tasks[i].Blocked? {
        SumMember(Map(WaitingOne, s.tasks), i);
      }
    }
  }

  lemma {:induction false} RunLength(s: Sys, steps: seq<Step>)
    requires ReceiversInv(s) && Runs(s, steps)
    ensures |steps| + Work(Exec(s, steps)) <= Work(s)
    decreases |steps|
  {
    if steps != [] {
      StepShrinksWork(s, steps[0]);
      StepKeepsReceivers(s, steps[0]);
      RunLength(Apply(s, steps[0]), steps[1..]);
    }
  }

  /** The re-check loop neither spins for ever nor deadlocks: at most six steps
      per task on any schedule, and only a fully served state is stuck. */
  lemma EveryScheduleFinishes(n: nat, tasks: nat, steps: seq<Step>)
    requires n > 0 && Runs(Start(n, tasks), steps)
    ensures |steps| <= 6 * tasks
    ensures Stuck(Exec(Start(n, tasks), steps)) ==>
      AllDone(Exec(Start(n, tasks), steps)) && multiset(Exec(Start(n, tasks), steps).core.pool) == AllTokens(n)
  {
    var s := Start(n, tasks);
    StartIsGood(n, tasks);
    RunsStayGood(s, steps, n);
    RunLength(s, steps);
    SumBound(Map(Weight, s.tasks), 6);
    if Stuck(Exec(s, steps)) {
      StuckMeansDone(Exec(s, steps), n);
    }
  }

  /*-------------------- When a woken getter loses its connection --------------------*/

  /** These getters take the lock again, one after the other. */
  ghost function Checks(order: seq<nat>): seq<Step> {
    if order == [] then [] else [Check(order[0])] + Checks(order[1..])
  }

  ghost predicate AllSignalled(s: Sys, order: seq<nat>) {
    Distinct(order) && forall j :: 0 <= j < |order| ==> order[j] < |s.tasks| && s.tasks[order[j]].Signalled?
  }

  ghost predicate Holds(s: Sys, i: nat) {
    i < |s.tasks| && s.tasks[i].Holding?
  }

  /** What the j-th of them finds: the connection j places from the front, or nothing. */
  ghost function Finds(pool: seq<nat>, j: nat): Phase {
    if j < |pool| then Holding(pool[j]) else PastCheck
  }

  lemma {:induction false} ChecksServeInOrder(s: Sys, order: seq<nat>)
    requires AllSignalled(s, order)
    ensures Runs(s, Checks(order))
    ensures var s' := Exec(s, Checks(order));
      && |s'.tasks| == |s.tasks|
      && (forall j :: 0 <= j < |order| ==> s'.tasks[order[j]] == Finds(s.core.pool, j))
      && (forall i :: 0 <= i < |s.tasks| && i !in order ==> s'.tasks[i] == s.tasks[i])
      && Woken(s') + |order| == Woken(s)
    decreases |order|
  {
    if order != [] {
      var i, rest := order[0], order[1..];
      var s1 := Apply(s, Check(i));
      CountsUpdate(s.core, s.tasks, s1.core, i, s1.tasks[i]);
      assert forall j :: 0 <= j < |rest| ==> rest[j] == order[j + 1];
      ChecksServeInOrder(s1, rest);
      assert Checks(order)[1..] == Checks(rest);
      assert i !in rest;
      forall j | 0 <= j < |order|
        ensures Exec(s1, Checks(rest)).tasks[order[j]] == Finds(s.core.pool, j)
      {
        if j > 0 {
          assert Exec(s1, Checks(rest)).tasks[rest[j - 1]] == Finds(s1.core.pool, j - 1);
        }
      }
    }
  }

  /** Woken getters that check again, in any order and with nobody in between, are
      all served if and only if there are no more of them than idle connections. */
  lemma WokenServedIffEnoughIdle(s: Sys, order: seq<nat>)
    requires AllSignalled(s, order)
    ensures Runs(s, Checks(order))
    ensures (forall j :: 0 <= j < |order| ==> Holds(Exec(s, Checks(order)), order[j])) <==> |order| <= |s.core.pool|
  {
    ChecksServeInOrder(s, order);
    var s' := Exec(s, Checks(order));
    if |order| > |s.core.pool| {
      assert !Holds(s', order[|s.core.pool|]);
    }
  }

  /** Every woken getter can still find a connection: what a caller compares. */
  ghost predicate Secure(s: Sys) {
    Woken(s) <= |s.core.pool|
  }

  /** So all the woken getters of a state, in whatever order, are served if and only
      if the state is secure. */
  lemma AllWokenServedIffSecure(s: Sys, order: seq<nat>)
    requires AllSignalled(s, order) && forall i :: 0 <= i < |s.tasks| && s.tasks[i].Signalled? ==> i in order
    ensures |order| == Woken(s) && Runs(s, Checks(order))
    ensures (forall i :: 0 <= i < |s.tasks| && s.tasks[i].Signalled? ==> Holds(Exec(s, Checks(order)), i))
            <==> Secure(s)
  {
    ChecksServeInOrder(s, order);
    WokenServedIffEnoughIdle(s, order);
    var s' := Exec(s, Checks(order));
    forall i | 0 <= i < |s'.tasks|
      ensures !s'.tasks[i].Signalled?
    {
      if i in order {
        var j :| 0 <= j < |order| && order[j] == i;
        assert s'.tasks[order[j]] == Finds(s.core.pool, j);
      }
    }
    AllZero(SignalledOne, s'.tasks);
  }

  /** The steps that use up a connection or add a woken getter: a newcomer that finds
      the deque non-empty, a signal that wakes somebody, a signal found buffered. */
  ghost predicate Competes(s: Sys, a: Step)
    requires Enabled(s, a)
  {
    match a
    case Check(i) => s.tasks[i].Calling? && s.core.pool != []
    case Receive(_) => s.core.buffered > 0
    case Send(_) => s.core.receivers != []
    case Push(_) => false
  }

  /** The exact moment a woken getter is deprived: a step takes a secure state to one
      in which some woken getter will find nothing if and only if it competes and
      there were just as many idle connections as woken getters. */
  lemma DeprivedExactlyWhenTight(s: Sys, a: Step)
    requires ReceiversInv(s) && Enabled(s, a) && Secure(s)
    ensures !Secure(Apply(s, a)) <==> Competes(s, a) && |s.core.pool| == Woken(s)
  {
    var s', i := Apply(s, a), a.task;
    if a.Send? && s.core.receivers != [] {
      var w := s.core.receivers[0];
      assert w in s.core.receivers;
      CountsUpdate(s.core, s.tasks, s.core, i, Done);
      CountsUpdate(s.core, s.tasks[i := Done], s'.core, w, Signalled);
    } else {
      CountsUpdate(s.core, s.tasks, s'.core, i, s'.tasks[i]);
      if a.Check? && s.tasks[i].Signalled? {
        SumMember(Map(SignalledOne, s.tasks), i);
      }
    }
  }

  /** In particular a newcomer overtakes, leaving fewer idle connections than woken
      getters, if and only if there were as many of the ones as of the others, and
      at least one. */
  lemma NewcomerOvertakesExactlyWhenTight(s: Sys, j: nat)
    requires ReceiversInv(s) && Enabled(s, Check(j)) && s.tasks[j].Calling? && Secure(s)
    ensures !Secure(Apply(s, Check(j))) <==> |s.core.pool| == Woken(s) > 0
  {
    DeprivedExactlyWhenTight(s, Check(j));
  }

  /** Secure before every step and at the end. */
  ghost predicate SecureThroughout(s: Sys, steps: seq<Step>)
    requires Runs(s, steps)
    decreases |steps|
  {
    Secure(s) && (steps == [] || SecureThroughout(Apply(s, steps[0]), steps[1..]))
  }

  /** Every competing step finds more idle connections than woken getters. */
  ghost predicate Roomy(s: Sys, steps: seq<Step>)
    requires Runs(s, steps)
    decreases |steps|
  {
    steps == [] ||
    ((Competes(s, steps[0]) ==> |s.core.pool| > Woken(s)) && Roomy(Apply(s, steps[0]), steps[1..]))
  }

  lemma {:induction false} SecureExactlyWhenRoomyFrom(s: Sys, steps: seq<Step>)
    requires ReceiversInv(s) && Secure(s) && Runs(s, steps)
    ensures SecureThroughout(s, steps) <==> Roomy(s, steps)
    decreases |steps|
  {
    if steps != [] {
      DeprivedExactlyWhenTight(s, steps[0]);
      StepKeepsReceivers(s, steps[0]);
      if Secure(Apply(s, steps[0])) {
        SecureExactlyWhenRoomyFrom(Apply(s, steps[0]), steps[1..]);
      } else {
        assert !SecureThroughout(Apply(s, steps[0]), steps[1..]);
      }
    }
  }

  /** Over whole schedules: no woken getter is ever short of a connection if and only
      if every competing step had one to spare. */
  lemma SecureExactlyWhenRoomy(n: nat, tasks: nat, steps: seq<Step>)
    requires Runs(Start(n, tasks), steps)
    ensures SecureThroughout(Start(n, tasks), steps) <==> Roomy(Start(n, tasks), steps)
  {
    StartIsGood(n, tasks);
    AllZero(SignalledOne, Start(n, tasks).tasks);
    SecureExactlyWhenRoomyFrom(Start(n, tasks), steps);
  }

  lemma RunsCons(s: Sys, a: Step, rest: seq<Step>)
    requires Enabled(s, a) && Runs(Apply(s, a), rest)
    ensures Runs(s, [a] + rest) && Exec(s, [a] + rest) == Exec(Apply(s, a), rest)
  {
    assert ([a] + rest)[1..] == rest;
  }

  /** What the strand generations added is fairness. A witness of the tight case: a
      getter that arrives between a return and the woken getter's second check takes
      the connection. */
  lemma LateArrivalCanOvertake()
    ensures var steps :=
        [Check(0)] + ([Check(1)] + ([Receive(1)] + ([Push(0)] + ([Send(0)] + ([Check(2)] + ([Check(1)] + []))))));
      && Runs(Start(1, 3), steps)
      && Exec(Start(1, 3), steps).tasks == [Done, PastCheck, Holding(0)]
  {
    var s0 := Start(1, 3);
    var s1 := Apply(s0, Check(0));
    assert s1.tasks == [Holding(0), Calling, Calling] && s1.core == Core([], 0, []);
    var s2 := Apply(s1, Check(1));
    var s3 := Apply(s2, Receive(1));
    assert s3.tasks == [Holding(0), Blocked, Calling] && s3.core == Core([], 0, [1]);
    var s4 := Apply(s3, Push(0));
    var s5 := Apply(s4, Send(0));
    assert s5.tasks == [Done, Signalled, Calling] && s5.core == Core([0], 0, []);
    var s6 := Apply(s5, Check(2));
    assert s6.tasks == [Done, Signalled, Holding(0)] && s6.core == Core([], 0, []);
    assert Apply(s6, Check(1)).tasks == [Done, PastCheck, Holding(0)];
    RunsCons(s6, Check(1), []);
    RunsCons(s5, Check(2), [Check(1)] + []);
    RunsCons(s4, Send(0), [Check(2)] + ([Check(1)] + []));
    RunsCons(s3, Push(0), [Send(0)] + ([Check(2)] + ([Check(1)] + [])));
    RunsCons(s2, Receive(1), [Push(0)] + ([Send(0)] + ([Check(2)] + ([Check(1)] + []))));
    RunsCons(s1, Check(1), [Receive(1)] + ([Push(0)] + ([Send(0)] + ([Check(2)] + ([Check(1)] + [])))));
    RunsCons(s0, Check(0), [Check(1)] + ([Receive(1)] + ([Push(0)] + ([Send(0)] + ([Check(2)] + ([Check(1)] + []))))));
  }
}
