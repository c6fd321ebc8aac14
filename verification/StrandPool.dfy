/** The live pool: a strand, a deque of idle connections and a zero-capacity
    channel whose queue of suspended receivers takes the place of a hand-written
    waiter queue. A receiver woken by `try_send` resumes in a later turn, so a
    connection can be in flight to it. */
module StrandPool {
  import opened Seqs
  import opened TokenPool
  import opened PoolCore
  import Handoff = HandoffPool

  /*------------------------- The objects, updated in place -------------------------*/

  /** A channel of capacity zero: sends succeed only into a suspended receiver,
      first come first served. `inFlight` is what has been sent and not yet received. */
  class WaiterChannel {
    var receivers: seq<nat>
    var inFlight: seq<(nat, nat)>

    constructor ()
      ensures receivers == [] && inFlight == []
    {
      receivers, inFlight := [], [];
    }

    method AsyncReceive(client: nat)
      modifies this
      ensures receivers == old(receivers) + [client] && inFlight == old(inFlight)
    {
      receivers := receivers + [client];
    }

    method TrySend(conn: nat) returns (given: bool)
      modifies this
      ensures given <==> old(receivers) != []
      ensures given ==> old(receivers) == [old(receivers)[0]] + receivers
                        && inFlight == old(inFlight) + [(old(receivers)[0], conn)]
      ensures !given ==> receivers == old(receivers) && inFlight == old(inFlight)
    {
      given := receivers != [];
      if given {
        inFlight := inFlight + [(receivers[0], conn)];
        receivers := receivers[1..];
      }
    }
  }

  class AsyncConnectionPool {
    const size: nat
    const channel: WaiterChannel
    var pool: seq<nat>

    constructor (size: nat)
      ensures this.size == size && View() == Core([], []) && channel.inFlight == [] && fresh(channel)
    {
      this.size := size;
      channel := new WaiterChannel();
      pool := [];
    }

    ghost function View(): Core
      reads this, channel
    {
      Core(pool, channel.receivers)
    }

    /** The constructor's check: a pool needs at least one connection. */
    static method Create(size: int) returns (made: AsyncConnectionPool?)
      ensures made == null <==> size <= 0
      ensures made != null ==> fresh(made) && fresh(made.channel) && made.size == size
      ensures made != null ==> made.View() == Core([], []) && made.channel.inFlight == []
    {
      made := null;
      if size > 0 {
        made := new AsyncConnectionPool(size);
      }
    }

    method Init()
      requires View() == Core([], [])
      modifies this
      ensures View() == Core(Numbered(size), []) && channel.inFlight == old(channel.inFlight)
    {
      var i := 0;
      while i < size
        invariant 0 <= i <= size
        invariant pool == Numbered(i) && channel.receivers == []
      {
        pool := pool + [i];
        i := i + 1;
      }
    }

    /** The strand turn of GetConnection; `None` leaves the coroutine suspended in the channel. */
    method GetConnection(client: nat) returns (conn: Option<nat>)
      modifies this, channel
      ensures (View(), conn) == GetCore(old(View()), client)
      ensures channel.inFlight == old(channel.inFlight)
    {
      if pool != [] {
        conn := Some(pool[0]);
        pool := pool[1..];
      } else {
        conn := None;
        channel.AsyncReceive(client);
      }
    }

    /** The lambda posted by ReturnConnection. */
    method ReturnConnection(conn: nat)
      modifies this, channel
      ensures var (core, served) := ReturnCore(old(View()), conn);
              && View() == core
              && channel.inFlight == old(channel.inFlight) + if served.Some? then [(served.value, conn)] else []
    {
      var given := channel.TrySend(conn);
      if !given {
        pool := pool + [conn];
      }
    }
  }

  /*------------------------------ All interleavings ------------------------------*/

  datatype Phase =
    | Calling
    | Waiting
    | InFlight(conn: nat)
    | Holding(conn: nat)
    | Returning(conn: nat)
    | Done

  datatype Sys = Sys(core: Core, tasks: seq<Phase>)

  datatype Step = Get(task: nat) | Resume(task: nat) | Release(task: nat) | Return(task: nat)

  ghost predicate Enabled(s: Sys, a: Step) {
    && a.task < |s.tasks|
    && match a
       case Get(i) => s.tasks[i].Calling?
       case Resume(i) => s.tasks[i].InFlight?
       case Release(i) => s.tasks[i].Holding?
       case Return(i) => s.tasks[i].Returning? && (s.core.waiters != [] ==> s.core.waiters[0] < |s.tasks|)
  }

  ghost function Apply(s: Sys, a: Step): Sys
    requires Enabled(s, a)
  {
    match a
    case Get(i) =>
      var (core, got) := GetCore(s.core, i);
      Sys(core, s.tasks[i := if got.Some? then Holding(got.value) else Waiting])
    case Resume(i) =>
      s.(tasks := s.tasks[i := Holding(s.tasks[i].conn)])
    case Release(i) =>
      s.(tasks := s.tasks[i := Returning(s.tasks[i].conn)])
    case Return(i) =>
      var c := s.tasks[i].conn;
      var (core, served) := ReturnCore(s.core, c);
      Sys(core, if served.Some? then s.tasks[i := Done][served.value := InFlight(c)] else s.tasks[i := Done])
  }

  ghost predicate Runs(s: Sys, steps: seq<Step>)
    decreases |steps|
  {
    steps == [] || (Enabled(s, steps[0]) && Runs(Apply(s, steps[0]), steps[1..]))
  }

  ghost function Exec(s: Sys, steps: seq<Step>): Sys
    requires Runs(s, steps)
    decreases |steps|
  {
    if steps == [] then s else Exec(Apply(s, steps[0]), steps[1..])
  }

  ghost function Start(n: nat, tasks: nat): Sys {
    Sys(Core(Numbered(n), []), seq(tasks, i => Calling))
  }

  lemma {:induction false} RunsAppend(s: Sys, xs: seq<Step>, ys: seq<Step>)
    requires Runs(s, xs) && Runs(Exec(s, xs), ys)
    ensures Runs(s, xs + ys) && Exec(s, xs + ys) == Exec(Exec(s, xs), ys)
    decreases |xs|
  {
    if xs == [] {
      assert xs + ys == ys;
    } else {
      RunsAppend(Apply(s, xs[0]), xs[1..], ys);
      assert (xs + ys)[1..] == xs[1..] + ys;
    }
  }

  /*----------------- Bisimulation with the second generation -----------------*/

  ghost function Settle(p: Phase): Handoff.Phase {
    match p
    case Calling => Handoff.Calling
    case Waiting => Handoff.Waiting
    case InFlight(c) => Handoff.Holding(c)
    case Holding(c) => Handoff.Holding(c)
    case Returning(c) => Handoff.Returning(c)
    case Done => Handoff.Done
  }

  /** The second-generation state in which every connection in flight has arrived. */
  ghost function Settled(s: Sys): Handoff.Sys {
    Handoff.Sys(s.core, Map(Settle, s.tasks))
  }

  ghost function SettledStep(a: Step): Handoff.Step
    requires !a.Resume?
  {
    match a
    case Get(i) => Handoff.Get(i)
    case Release(i) => Handoff.Release(i)
    case Return(i) => Handoff.Return(i)
  }

  /** A live step is the same second-generation step, or the invisible arrival of
      a connection. */
  lemma LiveStepIsHandoffStep(s: Sys, a: Step)
    requires Enabled(s, a)
    ensures a.Resume? ==> Settled(Apply(s, a)) == Settled(s)
    ensures !a.Resume? ==>
      && Handoff.Enabled(Settled(s), SettledStep(a))
      && Handoff.Apply(Settled(s), SettledStep(a)) == Settled(Apply(s, a))
  {
    var t, t' := Settled(s), Settled(Apply(s, a));
    if a.Resume? {
      assert t'.tasks == t.tasks;
    } else {
      assert Handoff.Apply(t, SettledStep(a)).tasks == t'.tasks;
    }
  }

  ghost function Visible(steps: seq<Step>): seq<Handoff.Step> {
    if steps == [] then []
    else (if steps[0].Resume? then [] else [SettledStep(steps[0])]) + Visible(steps[1..])
  }

  /** Every schedule of the live pool, with the arrivals left out, is a schedule
      of the second generation and ends in the corresponding state. */
  lemma {:induction false} LiveRunIsHandoffRun(s: Sys, steps: seq<Step>)
    requires Runs(s, steps)
    ensures Handoff.Runs(Settled(s), Visible(steps))
    ensures Handoff.Exec(Settled(s), Visible(steps)) == Settled(Exec(s, steps))
    decreases |steps|
  {
    if steps != [] {
      LiveStepIsHandoffStep(s, steps[0]);
      LiveRunIsHandoffRun(Apply(s, steps[0]), steps[1..]);
      if !steps[0].Resume? {
        assert Visible(steps)[1..] == Visible(steps[1..]);
      } else {
        assert Visible(steps) == Visible(steps[1..]);
      }
    }
  }

  /** Conversely the live pool matches each second-generation step, at most one
      arrival first. */
  lemma HandoffStepIsLiveSteps(s: Sys, b: Handoff.Step) returns (steps: seq<Step>)
    requires Handoff.Enabled(Settled(s), b)
    ensures Runs(s, steps) && Visible(steps) == [b]
  {
    match b
    case Get(i) => steps := [Get(i)];
    case Return(i) => steps := [Return(i)];
    case Release(i) =>
      if s.tasks[i].InFlight? {
        steps := [Resume(i), Release(i)];
        assert Runs(Apply(s, Resume(i)), [Release(i)]);
        assert steps[1..] == [Release(i)] && Visible([Release(i)]) == [b];
      } else {
        steps := [Release(i)];
      }
  }

  /** Every schedule of the second generation is the visible part of a live one. */
  lemma {:induction false} HandoffRunIsLiveRun(s: Sys, bs: seq<Handoff.Step>) returns (steps: seq<Step>)
    requires Handoff.Runs(Settled(s), bs)
    ensures Runs(s, steps) && Visible(steps) == bs
    ensures Settled(Exec(s, steps)) == Handoff.Exec(Settled(s), bs)
    decreases |bs|
  {
    steps := [];
    if bs != [] {
      var first := HandoffStepIsLiveSteps(s, bs[0]);
      LiveRunIsHandoffRun(s, first);
      var s' := Exec(s, first);
      assert Handoff.Exec(Settled(s), [bs[0]]) == Handoff.Apply(Settled(s), bs[0]);
      var rest := HandoffRunIsLiveRun(s', bs[1..]);
      RunsAppend(s, first, rest);
      VisibleAppend(first, rest);
      steps := first + rest;
    }
  }

  lemma {:induction false} VisibleAppend(xs: seq<Step>, ys: seq<Step>)
    ensures Visible(xs + ys) == Visible(xs) + Visible(ys)
  {
    if xs == [] {
      assert xs + ys == ys;
    } else {
      var head := if xs[0].Resume? then [] else [SettledStep(xs[0])];
      assert (xs + ys)[0] == xs[0] && (xs + ys)[1..] == xs[1..] + ys;
      calc {
        Visible(xs + ys);
        head + Visible(xs[1..] + ys);
        { VisibleAppend(xs[1..], ys); }
        head + (Visible(xs[1..]) + Visible(ys));
        (head + Visible(xs[1..])) + Visible(ys);
        Visible(xs) + Visible(ys);
      }
    }
  }

  /*------------------------- Conservation and exclusivity -------------------------*/

  ghost predicate Inv(s: Sys) {
    Handoff.Inv(Settled(s))
  }

  /** What the FIFO pool, and so the loose pool, sees of a live state. */
  ghost function Abs(s: Sys): Fifo {
    Handoff.Abs(Settled(s))
  }

  ghost predicate Good(s: Sys, n: nat) {
    Inv(s) && Conserved(Forget(Abs(s)), n)
  }

  lemma StartIsGood(n: nat, tasks: nat)
    ensures Good(Start(n, tasks), n)
  {
    Handoff.StartInv(n, tasks);
    assert Settled(Start(n, tasks)).tasks == Handoff.Start(n, tasks).tasks;
  }

  lemma {:induction false} RunsStayGood(s: Sys, steps: seq<Step>, n: nat)
    requires Good(s, n) && Runs(s, steps)
    ensures Good(Exec(s, steps), n) && |Exec(s, steps).tasks| == |s.tasks|
  {
    LiveRunIsHandoffRun(s, steps);
    Handoff.RunsKeepInv(Settled(s), Visible(steps), n);
  }

  ghost predicate Uses(p: Phase, c: nat) {
    p == InFlight(c) || p == Holding(c) || p == Returning(c)
  }

  lemma UsesIsOwnership(s: Sys, c: nat, i: nat)
    ensures i < |s.tasks| && Uses(s.tasks[i], c) <==> OwnedBy(Forget(Abs(s)), c, i)
  {
  }

  ghost predicate UsedBy(s: Sys, c: nat, i: nat) {
    i < |s.tasks| && Uses(s.tasks[i], c)
  }

  ghost predicate IdleAt(s: Sys, c: nat, k: nat) {
    k < |s.core.pool| && s.core.pool[k] == c
  }

  /** Connection c is in one slot of the deque, or else in flight to, held by or
      being returned by one task, and never in two places. */
  ghost predicate InOnePlace(s: Sys, c: nat) {
    && ((exists k: nat :: IdleAt(s, c, k)) <==> !exists i: nat :: UsedBy(s, c, i))
    && (forall j: nat, k: nat :: IdleAt(s, c, j) && IdleAt(s, c, k) ==> j == k)
    && (forall i: nat, j: nat :: UsedBy(s, c, i) && UsedBy(s, c, j) ==> i == j)
  }

  lemma OnePlaceFromSpec(s: Sys, c: nat)
    requires ExactlyOnePlace(Forget(Abs(s)), c)
    ensures InOnePlace(s, c)
  {
    var p := Forget(Abs(s));
    forall i: nat
      ensures UsedBy(s, c, i) <==> OwnedBy(p, c, i)
    {
      UsesIsOwnership(s, c, i);
    }
    assert forall k: nat :: IdleAt(s, c, k) <==> FreeAt(p, c, k);
  }

  /** On every schedule each of the n connections is in exactly one place, so no
      two tasks ever hold the same one; and a connection is idle only while
      nobody waits. */
  lemma EveryConnectionInOnePlace(n: nat, tasks: nat, steps: seq<Step>)
    requires Runs(Start(n, tasks), steps)
    ensures forall c: nat :: c < n ==> InOnePlace(Exec(Start(n, tasks), steps), c)
    ensures var core := Exec(Start(n, tasks), steps).core; core.pool == [] || core.waiters == []
  {
    var s := Exec(Start(n, tasks), steps);
    StartIsGood(n, tasks);
    RunsStayGood(Start(n, tasks), steps, n);
    ConservationIsExclusivity(Forget(Abs(s)), n);
    forall c: nat | c < n
      ensures InOnePlace(s, c)
    {
      OnePlaceFromSpec(s, c);
    }
  }

  lemma StepStaysGood(s: Sys, a: Step, n: nat)
    requires Good(s, n) && Enabled(s, a)
    ensures Good(Apply(s, a), n) && |Apply(s, a).tasks| == |s.tasks|
  {
    assert [a][1..] == [] && Runs(Apply(s, a), []);
    assert Exec(s, [a]) == Apply(s, a);
    RunsStayGood(s, [a], n);
  }

  /** No two tasks use the same connection, and none uses an idle one. */
  lemma OneUser(s: Sys, n: nat, c: nat, i: nat, j: nat)
    requires Good(s, n) && UsedBy(s, c, i)
    ensures c < n
    ensures UsedBy(s, c, j) ==> i == j
    ensures !IdleAt(s, c, j)
  {
    var p := Forget(Abs(s));
    UsesIsOwnership(s, c, i);
    UsesIsOwnership(s, c, j);
    assert OwnedBy(p, c, i) && p.views[i] == Owns(c);
    ConservationIsExclusivity(p, n);
    assert ExactlyOnePlace(p, c);
    if IdleAt(s, c, j) {
      assert FreeAt(p, c, j);
    }
  }

  lemma IdleIsNumbered(s: Sys, n: nat, k: nat)
    requires Good(s, n) && k < |s.core.pool|
    ensures s.core.pool[k] < n
  {
    ConservationIsExclusivity(Forget(Abs(s)), n);
  }

  lemma HeadWaits(s: Sys)
    requires Inv(s) && s.core.waiters != []
    ensures s.core.waiters[0] < |s.tasks| && s.tasks[s.core.waiters[0]].Waiting?
  {
    var w := s.core.waiters[0];
    assert w in s.core.waiters && Settled(s).tasks[w].Waiting?;
  }

  ghost predicate Advances(before: Phase, after: Phase) {
    || (before.Calling? && (after.Holding? || after.Waiting?))
    || (before.Waiting? && after.InFlight?)
    || (before.InFlight? && after.Holding?)
    || (before.Returning? && after.Done?)
  }

  /** A step leaves a task where it is, releases its connection, or takes it on. */
  lemma StepAdvances(s: Sys, a: Step, i: nat)
    requires Enabled(s, a) && i < |s.tasks|
    requires s.core.waiters != [] ==> s.core.waiters[0] < |s.tasks| && s.tasks[s.core.waiters[0]].Waiting?
    ensures i < |Apply(s, a).tasks|
    ensures var before, after := s.tasks[i], Apply(s, a).tasks[i];
      if a == Release(i) then before.Holding? && after.Returning?
      else after == before || Advances(before, after)
  {
  }

  /*------------------------------ First come, first served ------------------------------*/

  ghost function Returns(steps: seq<Step>): nat {
    if steps == [] then 0 else (if steps[0].Return? then 1 else 0) + Returns(steps[1..])
  }

  lemma StepShiftsQueue(s: Sys, a: Step)
    requires Inv(s) && Enabled(s, a)
    ensures Inv(Apply(s, a))
    ensures a.Return? && s.core.waiters != [] ==> Apply(s, a).core.waiters == s.core.waiters[1..]
    ensures !a.Return? ==> s.core.waiters <= Apply(s, a).core.waiters
  {
    LiveStepIsHandoffStep(s, a);
    if !a.Resume? {
      Handoff.StepRefinesFifo(Settled(s), SettledStep(a));
    }
  }

  ghost predicate At(s: Sys, k: int, w: nat) {
    0 <= k < |s.core.waiters| && s.core.waiters[k] == w
  }

  lemma StepMovesUp(s: Sys, a: Step, k: nat)
    requires Enabled(s, a) && k < |s.core.waiters| && (a.Return? ==> k > 0)
    ensures At(Apply(s, a), if a.Return? then k - 1 else k, s.core.waiters[k])
  {
  }

  lemma {:induction false} RunsKeepInv(s: Sys, steps: seq<Step>)
    requires Inv(s) && Runs(s, steps)
    ensures Inv(Exec(s, steps))
    decreases |steps|
  {
    if steps != [] {
      StepShiftsQueue(s, steps[0]);
      RunsKeepInv(Apply(s, steps[0]), steps[1..]);
    }
  }

  /** A task k places from the front of the queue moves up one place with every
      return and never otherwise, whoever arrives meanwhile. */
  lemma {:induction false} PlaceInQueue(s: Sys, steps: seq<Step>, k: nat)
    requires Runs(s, steps) && k < |s.core.waiters| && Returns(steps) <= k
    ensures At(Exec(s, steps), k - Returns(steps), s.core.waiters[k])
    decreases |steps|
  {
    if steps != [] {
      StepMovesUp(s, steps[0], k);
      PlaceInQueue(Apply(s, steps[0]), steps[1..], if steps[0].Return? then k - 1 else k);
    }
  }

  lemma HeadIsServed(s: Sys, last: nat)
    requires Inv(s) && Enabled(s, Return(last)) && s.core.waiters != []
    ensures var w := s.core.waiters[0];
      && w < |s.tasks| && s.tasks[w].Waiting?
      && Apply(s, Return(last)).tasks[w] == InFlight(s.tasks[last].conn)
      && w !in Apply(s, Return(last)).core.waiters
  {
    HeadWaits(s);
    assert Distinct(s.core.waiters);
    assert s.core.waiters == [s.core.waiters[0]] + s.core.waiters[1..];
  }

  /** So the waiter at position k is served by exactly the (k+1)-st return step:
      it still waits after k of them, and the next one puts the very connection
      being returned in flight to it. */
  lemma ServedInTurn(s: Sys, steps: seq<Step>, k: nat, last: nat)
    requires Inv(s) && Runs(s, steps) && k < |s.core.waiters| && Returns(steps) == k
    requires Enabled(Exec(s, steps), Return(last))
    ensures var w, before := s.core.waiters[k], Exec(s, steps);
      && w < |before.tasks| && before.tasks[w].Waiting?
      && Apply(before, Return(last)).tasks[w] == InFlight(before.tasks[last].conn)
      && w !in Apply(before, Return(last)).core.waiters
  {
    RunsKeepInv(s, steps);
    PlaceInQueue(s, steps, k);
    HeadIsServed(Exec(s, steps), last);
  }

  /** A client that queued earlier is never overtaken by one that queued later. */
  lemma NoOvertaking(s: Sys, steps: seq<Step>, j: nat, k: nat)
    requires Runs(s, steps) && j < k < |s.core.waiters| && Returns(steps) <= j
    ensures exists j', k' ::
      j' < k' && At(Exec(s, steps), j', s.core.waiters[j]) && At(Exec(s, steps), k', s.core.waiters[k])
  {
    PlaceInQueue(s, steps, j);
    PlaceInQueue(s, steps, k);
    assert j - Returns(steps) < k - Returns(steps);
  }

  /*-------------------------- Termination without deadlock --------------------------*/

  ghost function Weight(p: Phase): nat {
    match p
    case Calling => 5
    case Waiting => 4
    case InFlight(_) => 3
    case Holding(_) => 2
    case Returning(_) => 1
    case Done => 0
  }

  ghost function Work(s: Sys): nat {
    Sum(Map(Weight, s.tasks))
  }

  lemma WorkUpdate(tasks: seq<Phase>, i: nat, p: Phase)
    requires i < |tasks|
    ensures Sum(Map(Weight, tasks[i := p])) + Weight(tasks[i]) == Sum(Map(Weight, tasks)) + Weight(p)
  {
    SumUpdate(Map(Weight, tasks), i, Weight(p));
    assert Map(Weight, tasks[i := p]) == Map(Weight, tasks)[i := Weight(p)];
  }

  /** Whichever step is taken, the work left shrinks. */
  lemma StepShrinksWork(s: Sys, a: Step)
    requires Inv(s) && Enabled(s, a)
    ensures Work(Apply(s, a)) < Work(s)
  {
    var s', i := Apply(s, a), a.task;
    if a.Return? && s.core.waiters != [] {
      var w := s.core.waiters[0];
      assert w in s.core.waiters && Settled(s).tasks[w].Waiting?;
      WorkUpdate(s.tasks, i, Done);
      WorkUpdate(s.tasks[i := Done], w, s'.tasks[w]);
    } else {
      WorkUpdate(s.tasks, i, s'.tasks[i]);
    }
  }

  ghost predicate AllDone(s: Sys) {
    forall i :: 0 <= i < |s.tasks| ==> s.tasks[i].Done?
  }

  ghost predicate Stuck(s: Sys) {
    forall a :: !Enabled(s, a)
  }

  lemma StuckTask(s: Sys, i: nat)
    requires Inv(s) && Stuck(s) && i < |s.tasks|
    ensures s.tasks[i].Done? || s.tasks[i].Waiting?
  {
    assert Abs(s).queue == s.core.waiters;
    assert !Enabled(s, Get(i)) && !Enabled(s, Resume(i)) && !Enabled(s, Release(i)) && !Enabled(s, Return(i));
  }

  lemma IdleTaskHoldsNothing(s: Sys, i: nat)
    requires i < |s.tasks| && (s.tasks[i].Done? || s.tasks[i].Waiting?)
    ensures Map(Held, Abs(s).views)[i] == multiset{}
  {
    assert Abs(s).views[i] == Handoff.ViewOf(Settle(s.tasks[i]));
  }

  lemma StuckMeansNoneInUse(s: Sys, n: nat)
    requires Good(s, n) && Stuck(s)
    ensures forall i :: 0 <= i < |s.tasks| ==> s.tasks[i].Done? || s.tasks[i].Waiting?
    ensures multiset(s.core.pool) == AllTokens(n)
  {
    var bags := Map(Held, Abs(s).views);
    forall i | 0 <= i < |s.tasks|
      ensures s.tasks[i].Done? || s.tasks[i].Waiting?
      ensures bags[i] == multiset{}
    {
      StuckTask(s, i);
      IdleTaskHoldsNothing(s, i);
    }
    JoinEmpty(bags);
    assert multiset(s.core.pool) + multiset{} == AllTokens(n);
  }

  /** With at least one connection in the pool, only a state with every task done is stuck. */
  lemma StuckMeansDone(s: Sys, n: nat)
    requires Good(s, n) && n > 0 && Stuck(s)
    ensures AllDone(s) && multiset(s.core.pool) == AllTokens(n)
  {
    StuckMeansNoneInUse(s, n);
    AllTokensOnce(n, 0);
    assert 0 in multiset(s.core.pool);
    assert Abs(s).free != [];
    forall i | 0 <= i < |s.tasks|
      ensures s.tasks[i].Done?
    {
      assert Settled(s).tasks[i].Waiting? ==> i in s.core.waiters;
    }
  }

  lemma {:induction false} RunLength(s: Sys, steps: seq<Step>)
    requires Inv(s) && Runs(s, steps)
    ensures |steps| + Work(Exec(s, steps)) <= Work(s)
    decreases |steps|
  {
    if steps != [] {
      StepShrinksWork(s, steps[0]);
      StepShiftsQueue(s, steps[0]);
      RunLength(Apply(s, steps[0]), steps[1..]);
    }
  }

  /** Any finite set of tasks on a non-empty pool finishes on every schedule: no
      schedule is longer than five steps per task, and one that cannot be
      extended has served every task and put every connection back. */
  lemma EveryScheduleFinishes(n: nat, tasks: nat, steps: seq<Step>)
    requires n > 0 && Runs(Start(n, tasks), steps)
    ensures |steps| <= 5 * tasks
    ensures Stuck(Exec(Start(n, tasks), steps)) ==>
      AllDone(Exec(Start(n, tasks), steps)) && multiset(Exec(Start(n, tasks), steps).core.pool) == AllTokens(n)
  {
    var s := Start(n, tasks);
    StartIsGood(n, tasks);
    RunsStayGood(s, steps, n);
    RunLength(s, steps);
    SumBound(Map(Weight, s.tasks), 5);
    if Stuck(Exec(s, steps)) {
      StuckMeansDone(Exec(s, steps), n);
    }
  }

  ghost predicate NobodyServed(s: Sys) {
    s.core.pool == [] && forall i :: 0 <= i < |s.tasks| ==> s.tasks[i].Calling? || s.tasks[i].Waiting?
  }

  lemma {:induction false} NobodyServedAfter(s: Sys, steps: seq<Step>)
    requires NobodyServed(s) && Runs(s, steps)
    ensures NobodyServed(Exec(s, steps)) && |Exec(s, steps).tasks| == |s.tasks|
    decreases |steps|
  {
    if steps != [] {
      NobodyServedAfter(Apply(s, steps[0]), steps[1..]);
    }
  }

  /** The constructor's check for a positive size is exactly what this needs: an
      empty pool never serves any task, on any schedule. */
  lemma EmptyPoolServesNobody(tasks: nat, steps: seq<Step>)
    requires Runs(Start(0, tasks), steps)
    ensures forall p :: p in Exec(Start(0, tasks), steps).tasks ==> !p.Done?
  {
    NobodyServedAfter(Start(0, tasks), steps);
  }
}
