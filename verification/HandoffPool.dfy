/** The second generation of the pool: a strand, a deque of idle connections and
    a hand-written queue of suspended coroutines, each resumed inside the very
    turn that returns a connection. */
module HandoffPool {
  import opened Seqs
  import opened TokenPool
  import opened PoolCore

  /*------------------------- The objects, updated in place -------------------------*/

  /** The part of a suspended coroutine frame that the pool fills in. */
  class Waiter {
    const client: nat
    var assignedConn: Option<nat>

    constructor (client: nat)
      ensures this.client == client && assignedConn == None
    {
      this.client := client;
      assignedConn := None;
    }
  }

  class ConnectionPool {
    const size: nat
    var pool: seq<nat>
    var waiters: seq<Waiter>

    constructor (size: nat)
      ensures this.size == size && View() == Core([], [])
    {
      this.size := size;
      pool, waiters := [], [];
    }

    ghost function View(): Core
      reads this
    {
      Core(pool, seq(|waiters|, i requires 0 <= i < |waiters| reads this => waiters[i].client))
    }

    /** The constructor's check: a pool needs at least one connection. */
    static method Create(size: int) returns (made: ConnectionPool?)
      ensures made == null <==> size <= 0
      ensures made != null ==> fresh(made) && made.size == size && made.View() == Core([], [])
    {
      if size <= 0 {
        made := null;
      } else {
        made := new ConnectionPool(size);
      }
    }

    method Init()
      requires View() == Core([], [])
      modifies this
      ensures View() == Core(Numbered(size), [])
    {
      var i := 0;
      while i < size
        invariant 0 <= i <= size
        invariant pool == Numbered(i) && waiters == []
      {
        pool := pool + [i];
        i := i + 1;
      }
    }

    /** The strand turn of GetConnection. Either a connection is taken at once,
        or a new waiter is queued and the coroutine stays suspended on it. */
    method GetConnection(client: nat) returns (conn: Option<nat>, waiter: Waiter?)
      modifies this
      ensures (View(), conn) == GetCore(old(View()), client)
      ensures conn.Some? <==> waiter == null
      ensures waiter != null ==>
        fresh(waiter) && waiter.client == client && waiter.assignedConn == None && waiters == old(waiters) + [waiter]
    {
      conn, waiter := None, null;
      ghost var before := View();
      if pool != [] {
        conn := Some(pool[0]);
        pool := pool[1..];
        assert View().waiters == before.waiters;
      } else {
        waiter := new Waiter(client);
        waiters := waiters + [waiter];
        assert View().waiters == before.waiters + [client];
      }
    }

    /** The lambda posted by ReturnConnection. Only the served waiter is written,
        and what it is given is the returned connection. */
    method ReturnConnection(conn: nat) returns (resumed: Waiter?)
      requires forall i, j :: 0 <= i < j < |waiters| ==> waiters[i] != waiters[j]
      modifies this, waiters
      ensures var (core, served) := ReturnCore(old(View()), conn);
              && View() == core && (resumed != null <==> served.Some?)
              && (resumed != null ==> resumed.client == served.value)
      ensures resumed != null ==> old(waiters) == [resumed] + waiters && resumed.assignedConn == Some(conn)
      ensures forall w :: w in old(waiters) && w != resumed ==> w.assignedConn == old(w.assignedConn)
      ensures forall i, j :: 0 <= i < j < |waiters| ==> waiters[i] != waiters[j]
    {
      resumed := null;
      if waiters != [] {
        ghost var before := View();
        resumed := waiters[0];
        waiters := waiters[1..];
        resumed.assignedConn := Some(conn);
        assert View().waiters == before.waiters[1..];
      } else {
        pool := pool + [conn];
      }
    }
  }

  /*------------------------------ All interleavings ------------------------------*/

  /** A database task: ask, wait if necessary, use, return. `Returning` is the
      time between the release and the strand turn that it posted. */
  datatype Phase = Calling | Waiting | Holding(conn: nat) | Returning(conn: nat) | Done

  datatype Sys = Sys(core: Core, tasks: seq<Phase>)

  datatype Step = Get(task: nat) | Release(task: nat) | Return(task: nat)

  ghost predicate Enabled(s: Sys, a: Step) {
    && a.task < |s.tasks|
    && match a
       case Get(i) => s.tasks[i].Calling?
       case Release(i) => s.tasks[i].Holding?
       case Return(i) => s.tasks[i].Returning? && (s.core.waiters != [] ==> s.core.waiters[0] < |s.tasks|)
  }

  ghost function Apply(s: Sys, a: Step): Sys
    requires Enabled(s, a)
  {
    match a
    case Get(i) =>
      var (core, got) := GetCore(s.core, i);
      Sys(core, s.tasks[i := if got.Some? then Holding(got.value) else Waiting])
    case Release(i) =>
      s.(tasks := s.tasks[i := Returning(s.tasks[i].conn)])
    case Return(i) =>
      var c := s.tasks[i].conn;
      var (core, served) := ReturnCore(s.core, c);
      Sys(core, if served.Some? then s.tasks[i := Done][served.value := Holding(c)] else s.tasks[i := Done])
  }

  ghost predicate Runs(s: Sys, steps: seq<Step>)
    decreases |steps|
  {
    steps == [] || (Enabled(s, steps[0]) && Runs(Apply(s, steps[0]), steps[1..]))
  }

  ghost function Exec(s: Sys, steps: seq<Step>): Sys
    requires Runs(s, steps)
    decreases |steps|
  {
    if steps == [] then s else Exec(Apply(s, steps[0]), steps[1..])
  }

  ghost function Start(n: nat, tasks: nat): Sys {
    Sys(Core(Numbered(n), []), seq(tasks, i => Calling))
  }

  ghost function ViewOf(p: Phase): View {
    match p
    case Calling => Wanting
    case Waiting => Wanting
    case Holding(c) => Owns(c)
    case Returning(c) => Owns(c)
    case Done => Finished
  }

  /** The FIFO pool this state stands for. */
  ghost function Abs(s: Sys): Fifo {
    Fifo(s.core.pool, s.core.waiters, Map(ViewOf, s.tasks))
  }

  ghost predicate Inv(s: Sys) {
    && FifoInv(Abs(s))
    && forall i: nat :: i < |s.tasks| && s.tasks[i].Waiting? <==> i in s.core.waiters
  }

  lemma StartInv(n: nat, tasks: nat)
    ensures Inv(Start(n, tasks)) && Conserved(Forget(Abs(Start(n, tasks))), n)
  {
    NumberedIsAllTokens(n);
    var views := Abs(Start(n, tasks)).views;
    JoinEmpty(Map(Held, views));
  }

  /** One step of this pool is one step of the FIFO pool; a release, which only
      posts the return, is invisible there. */
  lemma StepRefinesFifo(s: Sys, a: Step)
    requires Inv(s) && Enabled(s, a)
    ensures Inv(Apply(s, a))
    ensures if a.Release? then Abs(Apply(s, a)) == Abs(s) else FifoNext(Abs(s), Abs(Apply(s, a)))
  {
    var s' := Apply(s, a);
    var f, f' := Abs(s), Abs(s');
    match a
    case Get(i) =>
      assert f.views[i].Wanting? && i !in f.queue;
      if s.core.pool != [] {
        assert f'.views == f.views[i := Owns(f.free[0])];
        assert FifoAcquire(f, i, f');
      } else {
        assert f'.views == f.views;
        assert FifoEnqueue(f, i, f');
      }
      FifoKeepsInv(f, f');
    case Release(i) =>
      assert f'.views == f.views;
    case Return(i) =>
      var c := s.tasks[i].conn;
      if s.core.waiters == [] {
        assert f'.views == f.views[i := Finished];
      } else {
        assert f'.views == f.views[i := Finished][f.queue[0] := Owns(c)];
        assert forall k :: 0 <= k < |f'.queue| ==> f'.queue[k] == f.queue[k + 1];
        assert s.core.waiters == [s.core.waiters[0]] + s'.core.waiters;
      }
      assert FifoReturn(f, i, f');
      FifoKeepsInv(f, f');
  }

  /** Every schedule keeps the FIFO invariant and the n connections. */
  lemma {:induction false} RunsKeepInv(s: Sys, steps: seq<Step>, n: nat)
    requires Inv(s) && Conserved(Forget(Abs(s)), n) && Runs(s, steps)
    ensures Inv(Exec(s, steps)) && Conserved(Forget(Abs(Exec(s, steps))), n)
    ensures |Exec(s, steps).tasks| == |s.tasks|
    decreases |steps|
  {
    if steps != [] {
      StepRefinesFifo(s, steps[0]);
      if !steps[0].Release? {
        FifoConserves(Abs(s), Abs(Apply(s, steps[0])), n);
      }
      RunsKeepInv(Apply(s, steps[0]), steps[1..], n);
    }
  }
}
