/** Queries on pooled connections: the live pool and the connection's query cycle
    together. A client holds a connection, sends its query, waits for the response
    and drains it, each in its own turn, while other clients do the same on theirs. */
module PooledQueries {
  import opened Seqs
  import opened TokenPool
  import opened PqConnection
  import Strand = StrandPool

  /** How far a client is with its one query; `results` is what the server answers. */
  datatype Progress =
    | NotAsked
    | Sent(results: seq<PgResult>)
    | Readable(results: seq<PgResult>)
    | Answered(results: seq<PgResult>, outcome: Outcome)

  datatype Sys = Sys(pool: Strand.Sys, conns: seq<Conn>, queries: seq<Progress>)

  /** `chunks` is the traffic with which the server reacts to the query. */
  datatype Step =
    | Pool(step: Strand.Step)
    | Send(task: nat, chunks: seq<Arrival>, results: seq<PgResult>)
    | Await(task: nat)
    | Fetch(task: nat)

  ghost predicate HasConn(s: Sys, i: nat) {
    && i < |s.pool.tasks| && i < |s.queries|
    && s.pool.tasks[i].Holding? && s.pool.tasks[i].conn < |s.conns|
  }

  /** The connection is released when the query has returned or thrown. */
  ghost predicate Enabled(s: Sys, a: Step) {
    match a
    case Pool(b) =>
      Strand.Enabled(s.pool, b) && (b.Release? ==> b.task < |s.queries| && s.queries[b.task].Answered?)
    case Send(i, _, _) => HasConn(s, i) && s.queries[i].NotAsked?
    case Await(i) => HasConn(s, i) && s.queries[i].Sent?
    case Fetch(i) => HasConn(s, i) && s.queries[i].Readable?
  }

  ghost function With(s: Sys, i: nat, c: Conn, q: Progress): Sys
    requires HasConn(s, i)
  {
    s.(conns := s.conns[s.pool.tasks[i].conn := c], queries := s.queries[i := q])
  }

  ghost function Apply(s: Sys, a: Step): Sys
    requires Enabled(s, a)
  {
    match a
    case Pool(b) => s.(pool := Strand.Apply(s.pool, b))
    case Send(i, chunks, results) =>
      var c := s.conns[s.pool.tasks[i].conn];
      var c' := c.(network := c.network + chunks);
      if Usable(c') then With(s, i, c'.(busy := true, ready := false, arrived := []), Sent(results))
      else With(s, i, c', Answered(results, Threw))
    case Await(i) =>
      var c := Awaited(s.conns[s.pool.tasks[i].conn]);
      With(s, i, c, if c.broken then Answered(s.queries[i].results, Threw) else Readable(s.queries[i].results))
    case Fetch(i) =>
      var (c, r) := Drained(s.conns[s.pool.tasks[i].conn]);
      With(s, i, c, Answered(s.queries[i].results, MapResult(r)))
  }

  ghost predicate Runs(s: Sys, steps: seq<Step>)
    decreases |steps|
  {
    steps == [] || (Enabled(s, steps[0]) && Runs(Apply(s, steps[0]), steps[1..]))
  }

  ghost function Exec(s: Sys, steps: seq<Step>): Sys
    requires Runs(s, steps)
    decreases |steps|
  {
    if steps == [] then s else Exec(Apply(s, steps[0]), steps[1..])
  }

  ghost function Start(n: nat, tasks: nat): Sys {
    Sys(Strand.Start(n, tasks), seq(n, i => CLEAN), seq(tasks, i => NotAsked))
  }

  /*------------------------------ The pool underneath ------------------------------*/

  predicate Busy(q: Progress) {
    q.Sent? || q.Readable?
  }

  /** A query is asked and answered while its client holds a connection. */
  predicate Together(p: Strand.Phase, q: Progress) {
    match p
    case Holding(_) => true
    case Returning(_) => q.Answered?
    case Done => q.Answered?
    case _ => q.NotAsked?
  }

  ghost predicate Shape(s: Sys, n: nat) {
    && Strand.Good(s.pool, n) && |s.conns| == n && |s.queries| == |s.pool.tasks|
    && forall i: nat :: i < |s.queries| ==> Together(s.pool.tasks[i], s.queries[i])
  }

  lemma StartShape(n: nat, tasks: nat)
    ensures Shape(Start(n, tasks), n)
  {
    Strand.StartIsGood(n, tasks);
  }

  lemma StaysTogether(before: Strand.Phase, after: Strand.Phase, q: Progress, released: bool)
    requires Together(before, q) && (released ==> q.Answered?)
    requires if released then before.Holding? && after.Returning? else after == before || Strand.Advances(before, after)
    ensures Together(after, q) && (Busy(q) ==> after == before)
  {
  }

  lemma PoolStepKeepsTogether(s: Sys, b: Strand.Step, n: nat, i: nat)
    requires Shape(s, n) && Enabled(s, Pool(b)) && i < |s.queries|
    ensures i < |Strand.Apply(s.pool, b).tasks| && Together(Strand.Apply(s.pool, b).tasks[i], s.queries[i])
    ensures Busy(s.queries[i]) ==> Strand.Apply(s.pool, b).tasks[i] == s.pool.tasks[i]
  {
    if s.pool.core.waiters != [] {
      Strand.HeadWaits(s.pool);
    }
    Strand.StepAdvances(s.pool, b, i);
    StaysTogether(s.pool.tasks[i], Strand.Apply(s.pool, b).tasks[i], s.queries[i], b == Strand.Release(i));
  }

  lemma PoolStepKeepsShape(s: Sys, b: Strand.Step, n: nat)
    requires Shape(s, n) && Enabled(s, Pool(b))
    ensures Shape(Apply(s, Pool(b)), n)
  {
    Strand.StepStaysGood(s.pool, b, n);
    forall i: nat | i < |s.queries|
      ensures Together(Strand.Apply(s.pool, b).tasks[i], s.queries[i])
    {
      PoolStepKeepsTogether(s, b, n, i);
    }
  }

  lemma QueryStepKeepsShape(s: Sys, a: Step, n: nat)
    requires Shape(s, n) && Enabled(s, a) && !a.Pool?
    ensures Shape(Apply(s, a), n)
  {
    var s' := Apply(s, a);
    assert s'.pool == s.pool;
    forall i: nat | i < |s.queries|
      ensures Together(s.pool.tasks[i], s'.queries[i])
    {
      assert Together(s.pool.tasks[i], s.queries[i]);
    }
  }

  lemma StepKeepsShape(s: Sys, a: Step, n: nat)
    requires Shape(s, n) && Enabled(s, a)
    ensures Shape(Apply(s, a), n)
  {
    if a.Pool? {
      PoolStepKeepsShape(s, a.step, n);
    } else {
      QueryStepKeepsShape(s, a, n);
    }
  }

  ghost function PoolSteps(steps: seq<Step>): seq<Strand.Step> {
    if steps == [] then []
    else (if steps[0].Pool? then [steps[0].step] else []) + PoolSteps(steps[1..])
  }

  /** With the query steps left out, a schedule is one of the pool alone, so all that
      is proved of those (places, queue order, hand-off) holds here. */
  lemma {:induction false} PoolRunsAlone(s: Sys, steps: seq<Step>)
    requires Runs(s, steps)
    ensures Strand.Runs(s.pool, PoolSteps(steps)) && Strand.Exec(s.pool, PoolSteps(steps)) == Exec(s, steps).pool
    decreases |steps|
  {
    if steps != [] {
      PoolRunsAlone(Apply(s, steps[0]), steps[1..]);
      if steps[0].Pool? {
        assert PoolSteps(steps)[1..] == PoolSteps(steps[1..]);
      } else {
        assert PoolSteps(steps) == PoolSteps(steps[1..]);
      }
    }
  }

  /*------------------------------ Each client its response ------------------------------*/

  /** The server answers each query with its results, cut off or failing anywhere, and
      sends nothing else. */
  ghost predicate Own(a: Step) {
    a.Send? ==> CutDelivers(a.chunks, a.results)
  }

  /** The connection is being used for this query: what it holds and what is still to
      come belong to the query's own response. */
  ghost predicate Receives(c: Conn, q: Progress)
    requires Busy(q)
  {
    && InResponse(c, q.results)
    && if q.Sent? then !c.ready && c.arrived == [] else !IsBusy(c)
  }

  ghost predicate QueryOk(s: Sys, i: nat)
    requires i < |s.queries| == |s.pool.tasks|
  {
    match s.queries[i]
    case NotAsked => true
    case Answered(results, outcome) => outcome == Threw || outcome == MapResult(First(results))
    case q => HasConn(s, i) && Receives(s.conns[s.pool.tasks[i].conn], q)
  }

  ghost predicate InUse(s: Sys, c: nat, i: nat) {
    i < |s.queries| && i < |s.pool.tasks| && s.pool.tasks[i] == Strand.Holding(c) && Busy(s.queries[i])
  }

  ghost predicate Unused(s: Sys, c: nat) {
    forall i: nat :: !InUse(s, c, i)
  }

  /** Nothing of a response is left on a connection that no query is using, unless the
      connection is lost. */
  predicate AtRest(c: Conn) {
    c == CLEAN || c.broken
  }

  ghost predicate Inv(s: Sys, n: nat) {
    && Shape(s, n)
    && (forall i: nat :: i < |s.queries| ==> QueryOk(s, i))
    && (forall c: nat :: c < n && Unused(s, c) ==> AtRest(s.conns[c]))
  }

  lemma PoolStepKeepsInv(s: Sys, b: Strand.Step, n: nat)
    requires Inv(s, n) && Enabled(s, Pool(b))
    ensures Inv(Apply(s, Pool(b)), n)
  {
    var s' := Apply(s, Pool(b));
    PoolStepKeepsShape(s, b, n);
    forall i: nat | i < |s.queries|
      ensures QueryOk(s', i)
      ensures Busy(s.queries[i]) ==> s'.pool.tasks[i] == s.pool.tasks[i]
    {
      assert QueryOk(s, i);
      PoolStepKeepsTogether(s, b, n, i);
    }
    forall c: nat | c < n && Unused(s', c)
      ensures AtRest(s'.conns[c])
    {
      assert forall i: nat :: InUse(s, c, i) ==> InUse(s', c, i);
      assert Unused(s, c);
    }
  }

  /** A client that has not asked yet is the only one on its connection. */
  lemma AskerFindsRest(s: Sys, n: nat, i: nat)
    requires Inv(s, n) && HasConn(s, i) && s.queries[i].NotAsked?
    ensures Unused(s, s.pool.tasks[i].conn) && AtRest(s.conns[s.pool.tasks[i].conn])
  {
    var c := s.pool.tasks[i].conn;
    assert Strand.UsedBy(s.pool, c, i);
    Strand.OneUser(s.pool, n, c, i, i);
    forall j: nat
      ensures !InUse(s, c, j)
    {
      if InUse(s, c, j) {
        Strand.OneUser(s.pool, n, c, i, j);
      }
    }
  }

  ghost predicate Settles(s: Sys, a: Step)
    requires Enabled(s, a) && !a.Pool?
  {
    var s', c := Apply(s, a), s.pool.tasks[a.task].conn;
    && s' == With(s, a.task, s'.conns[c], s'.queries[a.task])
    && |s'.queries| == |s'.pool.tasks| && QueryOk(s', a.task)
    && (!Busy(s'.queries[a.task]) ==> AtRest(s'.conns[c]))
  }

  lemma SendSettles(s: Sys, i: nat, chunks: seq<Arrival>, results: seq<PgResult>, n: nat)
    requires Inv(s, n) && Enabled(s, Send(i, chunks, results)) && CutDelivers(chunks, results)
    ensures Settles(s, Send(i, chunks, results))
  {
    AskerFindsRest(s, n, i);
    var c := s.conns[s.pool.tasks[i].conn];
    if c == CLEAN {
      assert c.network + chunks == chunks && results[0..] == results;
      assert Receives(Conn(false, true, false, [], chunks), Sent(results));
    }
  }

  /** The client's own step leaves the connection right for the query, or at rest. */
  lemma OwnStep(s: Sys, a: Step, n: nat)
    requires Inv(s, n) && Enabled(s, a) && !a.Pool? && Own(a)
    ensures Settles(s, a)
  {
    var c := s.conns[s.pool.tasks[a.task].conn];
    assert QueryOk(s, a.task);
    match a
    case Send(i, chunks, results) => SendSettles(s, i, chunks, results, n);
    case Await(i) => AwaitStaysInResponse(c, s.queries[i].results);
    case Fetch(i) => DrainEndsResponse(c, s.queries[i].results);
  }

  /** A client's query step touches no other query and no connection in use for one. */
  lemma OthersUntouched(s: Sys, a: Step, n: nat, j: nat)
    requires Shape(s, n) && Enabled(s, a) && !a.Pool? && j < |s.queries| && j != a.task
    ensures var s' := Apply(s, a);
      && s'.pool == s.pool && |s'.queries| == |s.queries| && |s'.conns| == |s.conns| && s'.queries[j] == s.queries[j]
      && (HasConn(s, j) ==> s'.conns[s.pool.tasks[j].conn] == s.conns[s.pool.tasks[j].conn])
  {
    var c := s.pool.tasks[a.task].conn;
    assert Strand.UsedBy(s.pool, c, a.task);
    Strand.OneUser(s.pool, n, c, a.task, j);
  }

  lemma OthersStayOk(s: Sys, a: Step, n: nat, j: nat)
    requires Inv(s, n) && Enabled(s, a) && !a.Pool? && j < |s.queries| && j != a.task
    ensures QueryOk(Apply(s, a), j)
  {
    assert QueryOk(s, j);
    OthersUntouched(s, a, n, j);
  }

  lemma OthersStayAtRest(s: Sys, a: Step, n: nat, d: nat)
    requires Inv(s, n) && Enabled(s, a) && !a.Pool? && d < n && d != s.pool.tasks[a.task].conn
    requires Unused(Apply(s, a), d)
    ensures AtRest(Apply(s, a).conns[d])
  {
    forall j: nat
      ensures !InUse(s, d, j)
    {
      assert !InUse(Apply(s, a), d, j);
    }
    assert Unused(s, d);
    assert Apply(s, a).conns[d] == s.conns[d];
  }

  lemma QueryStepKeepsInv(s: Sys, a: Step, n: nat)
    requires Inv(s, n) && Enabled(s, a) && !a.Pool? && Own(a)
    ensures Inv(Apply(s, a), n)
  {
    var s', i := Apply(s, a), a.task;
    var c := s.pool.tasks[i].conn;
    QueryStepKeepsShape(s, a, n);
    OwnStep(s, a, n);
    forall j: nat | j < |s'.queries|
      ensures QueryOk(s', j)
    {
      if j != i {
        OthersStayOk(s, a, n, j);
      }
    }
    forall d: nat | d < n && Unused(s', d)
      ensures AtRest(s'.conns[d])
    {
      if d == c {
        assert !InUse(s', c, i);
      } else {
        OthersStayAtRest(s, a, n, d);
      }
    }
  }

  lemma StepKeepsInv(s: Sys, a: Step, n: nat)
    requires Inv(s, n) && Enabled(s, a) && Own(a)
    ensures Inv(Apply(s, a), n)
  {
    if a.Pool? {
      PoolStepKeepsInv(s, a.step, n);
    } else {
      QueryStepKeepsInv(s, a, n);
    }
  }

  lemma {:induction false} RunsKeepInv(s: Sys, steps: seq<Step>, n: nat)
    requires Inv(s, n) && Runs(s, steps) && forall a :: a in steps ==> Own(a)
    ensures Inv(Exec(s, steps), n)
    decreases |steps|
  {
    if steps != [] {
      StepKeepsInv(s, steps[0], n);
      RunsKeepInv(Apply(s, steps[0]), steps[1..], n);
    }
  }

  lemma StartInv(n: nat, tasks: nat)
    ensures Inv(Start(n, tasks), n)
  {
    StartShape(n, tasks);
  }

  predicate Asked(s: Sys, i: nat, results: seq<PgResult>) {
    i < |s.queries| && !s.queries[i].NotAsked? && s.queries[i].results == results
  }

  lemma {:induction false} AskedStays(s: Sys, steps: seq<Step>, i: nat, results: seq<PgResult>)
    requires Runs(s, steps)
    requires Asked(s, i, results) || exists a :: a in steps && a.Send? && a.task == i && a.results == results
    ensures Asked(Exec(s, steps), i, results)
    decreases |steps|
  {
    if steps != [] {
      AskedStays(Apply(s, steps[0]), steps[1..], i, results);
    }
  }

  /** The three query steps of a client, left alone, are one AsyncExecParams. */
  lemma QueryIsExecuted(s: Sys, i: nat, chunks: seq<Arrival>, results: seq<PgResult>)
    requires HasConn(s, i) && s.queries[i].NotAsked?
    ensures var c := s.conns[s.pool.tasks[i].conn];
      var (c', outcome) := Executed(c.(network := c.network + chunks));
      var s1 := Apply(s, Send(i, chunks, results));
      if s1.queries[i].Answered? then s1 == With(s, i, c', Answered(results, outcome))
      else
        var s2 := Apply(s1, Await(i));
        if s2.queries[i].Answered? then s2 == With(s, i, c', Answered(results, outcome))
        else Apply(s2, Fetch(i)) == With(s, i, c', Answered(results, outcome))
  {
  }

  lemma IdleIsUnused(s: Sys, n: nat, k: nat)
    requires Inv(s, n) && k < |s.pool.core.pool|
    ensures s.pool.core.pool[k] < n && Unused(s, s.pool.core.pool[k])
  {
    var c := s.pool.core.pool[k];
    Strand.IdleIsNumbered(s.pool, n, k);
    assert Strand.IdleAt(s.pool, c, k);
    forall i: nat
      ensures !InUse(s, c, i)
    {
      if InUse(s, c, i) {
        assert Strand.UsedBy(s.pool, c, i);
        Strand.OneUser(s.pool, n, c, i, k);
      }
    }
  }

  lemma InvMeans(s: Sys, n: nat)
    requires Inv(s, n)
    ensures |s.conns| == n && |s.queries| == |s.pool.tasks|
    ensures forall i :: 0 <= i < |s.queries| && s.queries[i].Answered? ==>
      s.queries[i].outcome == Threw || s.queries[i].outcome == MapResult(First(s.queries[i].results))
    ensures forall i :: 0 <= i < |s.queries| && (s.pool.tasks[i].Returning? || s.pool.tasks[i].Done?) ==>
      s.queries[i].Answered?
    ensures forall k :: 0 <= k < |s.pool.core.pool| ==> s.pool.core.pool[k] < n && Unused(s, s.pool.core.pool[k])
  {
    forall i: nat | i < |s.queries|
      ensures s.queries[i].Answered? ==>
        s.queries[i].outcome == Threw || s.queries[i].outcome == MapResult(First(s.queries[i].results))
      ensures s.pool.tasks[i].Returning? || s.pool.tasks[i].Done? ==> s.queries[i].Answered?
    {
      assert QueryOk(s, i) && Together(s.pool.tasks[i], s.queries[i]);
    }
    forall k: nat | k < |s.pool.core.pool|
      ensures s.pool.core.pool[k] < n && Unused(s, s.pool.core.pool[k])
    {
      IdleIsUnused(s, n, k);
    }
  }

  /** No client ever gets another client's rows. On every schedule, wherever responses
      are cut off and reads fail: every client whose query has ended got the first
      result of the response to its own query, or an exception; it has its answer when
      it gives its connection back; and every connection that no query is using, idle
      ones included, has nothing unread or is lost. */
  lemma EveryClientGetsItsOwn(n: nat, tasks: nat, steps: seq<Step>)
    requires Runs(Start(n, tasks), steps) && forall a :: a in steps ==> Own(a)
    ensures var s := Exec(Start(n, tasks), steps);
      && |s.conns| == n && |s.queries| == |s.pool.tasks|
      && (forall a :: a in steps && a.Send? ==> Asked(s, a.task, a.results))
      && (forall i :: 0 <= i < |s.queries| && s.queries[i].Answered? ==>
            s.queries[i].outcome == Threw || s.queries[i].outcome == MapResult(First(s.queries[i].results)))
      && (forall i :: 0 <= i < |s.queries| && (s.pool.tasks[i].Returning? || s.pool.tasks[i].Done?) ==>
            s.queries[i].Answered?)
      && (forall c: nat :: c < n && Unused(s, c) ==> AtRest(s.conns[c]))
      && (forall k :: 0 <= k < |s.pool.core.pool| ==>
            s.pool.core.pool[k] < n && AtRest(s.conns[s.pool.core.pool[k]]))
  {
    StartInv(n, tasks);
    RunsKeepInv(Start(n, tasks), steps, n);
    InvMeans(Exec(Start(n, tasks), steps), n);
    forall a | a in steps && a.Send?
      ensures Asked(Exec(Start(n, tasks), steps), a.task, a.results)
    {
      AskedStays(Start(n, tasks), steps, a.task, a.results);
    }
  }

  /*------------------------ Which connections are lost, and who sees it ------------------------*/

  /** This query is sent on connection c and its response is not whole. */
  ghost predicate CutsOff(s: Sys, a: Step, c: nat)
    requires Enabled(s, a)
  {
    a.Send? && s.pool.tasks[a.task].conn == c && !Complete(a.chunks)
  }

  ghost predicate CutOff(s: Sys, steps: seq<Step>, c: nat)
    requires Runs(s, steps)
    decreases |steps|
  {
    steps != [] && (CutsOff(s, steps[0], c) || CutOff(Apply(s, steps[0]), steps[1..], c))
  }

  /** The connection is lost, or will be when the query on it ends. */
  predicate Doomed(c: Conn) {
    if c.busy then !Finishable(c) else c.broken
  }

  lemma StepDooms(s: Sys, a: Step, n: nat, c: nat)
    requires Inv(s, n) && Enabled(s, a) && c < n
    ensures c < |Apply(s, a).conns| && (Doomed(Apply(s, a).conns[c]) <==> Doomed(s.conns[c]) || CutsOff(s, a, c))
  {
    if !a.Pool? && s.pool.tasks[a.task].conn == c {
      assert QueryOk(s, a.task);
      match a
      case Send(i, chunks, results) =>
        AskerFindsRest(s, n, i);
        assert CLEAN.network + chunks == chunks;
      case Await(_) => AwaitKeepsFinishable(s.conns[c]);
      case Fetch(_) => DrainSurvivesExactlyWhenFinishable(s.conns[c]);
    }
  }

  lemma {:induction false} RunDooms(s: Sys, steps: seq<Step>, n: nat, c: nat)
    requires Inv(s, n) && Runs(s, steps) && c < n && forall a :: a in steps ==> Own(a)
    ensures c < |Exec(s, steps).conns|
    ensures Doomed(Exec(s, steps).conns[c]) <==> Doomed(s.conns[c]) || CutOff(s, steps, c)
    decreases |steps|
  {
    if steps != [] {
      StepDooms(s, steps[0], n, c);
      StepKeepsInv(s, steps[0], n);
      RunDooms(Apply(s, steps[0]), steps[1..], n, c);
    }
  }

  /** A connection at rest is lost if and only if the response to some query sent on it
      was not whole; otherwise it is usable with nothing unread. */
  lemma LostExactlyWhenCutOff(n: nat, tasks: nat, steps: seq<Step>, c: nat)
    requires Runs(Start(n, tasks), steps) && (forall a :: a in steps ==> Own(a)) && c < n
    ensures var s := Exec(Start(n, tasks), steps);
      && |s.conns| == n
      && (Unused(s, c) ==>
            if CutOff(Start(n, tasks), steps, c) then !Usable(s.conns[c]) else s.conns[c] == CLEAN)
  {
    StartInv(n, tasks);
    RunsKeepInv(Start(n, tasks), steps, n);
    RunDooms(Start(n, tasks), steps, n, c);
  }

  /** This client sends its query on a lost connection, or its response does not begin. */
  ghost predicate MustThrow(s: Sys, a: Step, i: nat)
    requires Enabled(s, a)
  {
    a.Send? && a.task == i && (!Usable(s.conns[s.pool.tasks[i].conn]) || !Begins(a.chunks))
  }

  ghost predicate Fails(s: Sys, steps: seq<Step>, i: nat)
    requires Runs(s, steps)
    decreases |steps|
  {
    steps != [] && (MustThrow(s, steps[0], i) || Fails(Apply(s, steps[0]), steps[1..], i))
  }

  /** The query has thrown or is going to. */
  ghost predicate Failing(s: Sys, i: nat)
    requires i < |s.queries|
  {
    match s.queries[i]
    case NotAsked => false
    case Sent(_) => HasConn(s, i) && !Begins(s.conns[s.pool.tasks[i].conn].network)
    case Readable(_) => false
    case Answered(_, outcome) => outcome.Threw?
  }

  lemma PoolStepFailsNobody(s: Sys, b: Strand.Step, n: nat, i: nat)
    requires Inv(s, n) && Enabled(s, Pool(b)) && i < |s.queries|
    ensures Failing(Apply(s, Pool(b)), i) <==> Failing(s, i)
  {
    assert QueryOk(s, i);
    PoolStepKeepsTogether(s, b, n, i);
  }

  lemma SendFails(s: Sys, i: nat, chunks: seq<Arrival>, results: seq<PgResult>, n: nat)
    requires Inv(s, n) && Enabled(s, Send(i, chunks, results))
    ensures var s' := Apply(s, Send(i, chunks, results));
      i < |s'.queries| && (Failing(s', i) <==> MustThrow(s, Send(i, chunks, results), i))
  {
    AskerFindsRest(s, n, i);
    assert CLEAN.network + chunks == chunks;
  }

  lemma OwnStepFails(s: Sys, a: Step, n: nat)
    requires Inv(s, n) && Enabled(s, a) && !a.Pool?
    ensures a.task < |Apply(s, a).queries|
    ensures Failing(Apply(s, a), a.task) <==> Failing(s, a.task) || MustThrow(s, a, a.task)
  {
    assert QueryOk(s, a.task);
    match a
    case Send(i, chunks, results) => SendFails(s, i, chunks, results, n);
    case Await(i) => AwaitKeepsFinishable(s.conns[s.pool.tasks[i].conn]);
    case Fetch(_) =>
  }

  lemma OthersFailAsBefore(s: Sys, a: Step, n: nat, j: nat)
    requires Inv(s, n) && Enabled(s, a) && !a.Pool? && j < |s.queries| && j != a.task
    ensures j < |Apply(s, a).queries| && (Failing(Apply(s, a), j) <==> Failing(s, j))
  {
    assert QueryOk(s, j);
    OthersUntouched(s, a, n, j);
  }

  lemma {:induction false} RunFails(s: Sys, steps: seq<Step>, n: nat, i: nat)
    requires Inv(s, n) && Runs(s, steps) && i < |s.queries| && forall a :: a in steps ==> Own(a)
    ensures i < |Exec(s, steps).queries|
    ensures Failing(Exec(s, steps), i) <==> Failing(s, i) || Fails(s, steps, i)
    decreases |steps|
  {
    if steps != [] {
      var a := steps[0];
      if a.Pool? {
        PoolStepFailsNobody(s, a.step, n, i);
      } else if a.task == i {
        OwnStepFails(s, a, n);
      } else {
        OthersFailAsBefore(s, a, n, i);
      }
      StepKeepsInv(s, a, n);
      RunFails(Apply(s, a), steps[1..], n, i);
    }
  }

  /** A client gets an exception instead of its result if and only if it sent its query
      on a lost connection or its response did not begin. */
  lemma ThrowsExactlyWhenItMust(n: nat, tasks: nat, steps: seq<Step>, i: nat)
    requires Runs(Start(n, tasks), steps) && (forall a :: a in steps ==> Own(a)) && i < tasks
    ensures var s := Exec(Start(n, tasks), steps);
      && i < |s.queries|
      && (s.queries[i].Answered? ==>
            s.queries[i].outcome ==
              if Fails(Start(n, tasks), steps, i) then Threw else MapResult(First(s.queries[i].results)))
  {
    StartInv(n, tasks);
    RunsKeepInv(Start(n, tasks), steps, n);
    RunFails(Start(n, tasks), steps, n, i);
    assert QueryOk(Exec(Start(n, tasks), steps), i);
  }

  /** The server answers with the whole response. */
  ghost predicate Whole(a: Step) {
    a.Send? ==> Delivers(a.chunks, a.results)
  }

  lemma {:induction false} NothingCutOff(s: Sys, steps: seq<Step>, n: nat, c: nat)
    requires Runs(s, steps) && forall a :: a in steps ==> Whole(a)
    ensures !CutOff(s, steps, c)
    decreases |steps|
  {
    if steps != [] {
      assert Whole(steps[0]);
      if steps[0].Send? {
        WholeIsUncut(steps[0].chunks, steps[0].results);
      }
      NothingCutOff(Apply(s, steps[0]), steps[1..], n, c);
    }
  }

  lemma CompleteBegins(network: seq<Arrival>)
    requires Complete(network)
    ensures Begins(network)
  {
  }

  lemma NobodyMustThrow(s: Sys, a: Step, n: nat, i: nat)
    requires Inv(s, n) && Enabled(s, a) && Whole(a) && forall c: nat :: c < n ==> !Doomed(s.conns[c])
    ensures !MustThrow(s, a, i)
  {
    if a.Send? {
      WholeIsUncut(a.chunks, a.results);
      CompleteBegins(a.chunks);
      AskerFindsRest(s, n, a.task);
      assert !Doomed(s.conns[s.pool.tasks[a.task].conn]);
    }
  }

  lemma StepDoomsNothing(s: Sys, a: Step, n: nat)
    requires Inv(s, n) && Enabled(s, a) && Whole(a) && forall c: nat :: c < n ==> !Doomed(s.conns[c])
    ensures |Apply(s, a).conns| == n && forall c: nat :: c < n ==> !Doomed(Apply(s, a).conns[c])
  {
    if a.Send? {
      WholeIsUncut(a.chunks, a.results);
    }
    forall c: nat | c < n
      ensures !Doomed(Apply(s, a).conns[c])
    {
      StepDooms(s, a, n, c);
    }
  }

  lemma {:induction false} NobodyFails(s: Sys, steps: seq<Step>, n: nat, i: nat)
    requires Inv(s, n) && Runs(s, steps) && forall a :: a in steps ==> Whole(a) && Own(a)
    requires forall c: nat :: c < n ==> !Doomed(s.conns[c])
    ensures !Fails(s, steps, i)
    decreases |steps|
  {
    if steps != [] {
      assert Whole(steps[0]) && Own(steps[0]);
      NobodyMustThrow(s, steps[0], n, i);
      StepDoomsNothing(s, steps[0], n);
      StepKeepsInv(s, steps[0], n);
      NobodyFails(Apply(s, steps[0]), steps[1..], n, i);
    }
  }

  /** So on every schedule in which the server answers each query with its whole
      response, cut into reads in any way, no client sees an exception of a failed
      read, each gets the first result of its own response, and every connection that
      no query is using, idle ones included, is usable with nothing left unread. */
  lemma EveryClientGetsItsResponse(n: nat, tasks: nat, steps: seq<Step>)
    requires Runs(Start(n, tasks), steps) && forall a :: a in steps ==> Whole(a)
    ensures var s := Exec(Start(n, tasks), steps);
      && |s.conns| == n && |s.queries| == |s.pool.tasks| == tasks
      && (forall a :: a in steps && a.Send? ==> Asked(s, a.task, a.results))
      && (forall i :: 0 <= i < |s.queries| && s.queries[i].Answered? ==>
            s.queries[i].outcome == MapResult(First(s.queries[i].results)))
      && (forall i :: 0 <= i < |s.queries| && (s.pool.tasks[i].Returning? || s.pool.tasks[i].Done?) ==>
            s.queries[i].Answered?)
      && (forall c: nat :: c < n && Unused(s, c) ==> s.conns[c] == CLEAN)
      && (forall k :: 0 <= k < |s.pool.core.pool| ==>
            s.pool.core.pool[k] < n && Usable(s.conns[s.pool.core.pool[k]]))
  {
    forall a | a in steps
      ensures Own(a)
    {
      if a.Send? {
        WholeIsUncut(a.chunks, a.results);
      }
    }
    EveryClientGetsItsOwn(n, tasks, steps);
    StartShape(n, tasks);
    RunLength(Start(n, tasks), steps, n);
    StartInv(n, tasks);
    RunsKeepInv(Start(n, tasks), steps, n);
    InvMeans(Exec(Start(n, tasks), steps), n);
    forall c: nat | c < n
      ensures Unused(Exec(Start(n, tasks), steps), c) ==> Exec(Start(n, tasks), steps).conns[c] == CLEAN
    {
      NothingCutOff(Start(n, tasks), steps, n, c);
      LostExactlyWhenCutOff(n, tasks, steps, c);
    }
    forall i: nat | i < tasks
      ensures var q := Exec(Start(n, tasks), steps).queries[i]; q.Answered? ==> q.outcome == MapResult(First(q.results))
    {
      NobodyFails(Start(n, tasks), steps, n, i);
      ThrowsExactlyWhenItMust(n, tasks, steps, i);
    }
  }

  /*------------------------------ Every client is served ------------------------------*/

  ghost function ToDo(q: Progress): nat {
    match q
    case NotAsked => 3
    case Sent(_) => 2
    case Readable(_) => 1
    case Answered(_, _) => 0
  }

  ghost function Work(s: Sys): nat {
    Strand.Work(s.pool) + Sum(Map(ToDo, s.queries))
  }

  lemma ToDoUpdate(queries: seq<Progress>, i: nat, q: Progress)
    requires i < |queries| && ToDo(q) < ToDo(queries[i])
    ensures Sum(Map(ToDo, queries[i := q])) < Sum(Map(ToDo, queries))
  {
    SumUpdate(Map(ToDo, queries), i, ToDo(q));
    assert Map(ToDo, queries[i := q]) == Map(ToDo, queries)[i := ToDo(q)];
  }

  lemma QueryStepProgresses(s: Sys, a: Step)
    requires Enabled(s, a) && !a.Pool?
    ensures var s' := Apply(s, a);
      && s'.pool == s.pool && |s'.queries| == |s.queries|
      && s'.queries == s.queries[a.task := s'.queries[a.task]]
      && ToDo(s'.queries[a.task]) < ToDo(s.queries[a.task])
  {
  }

  lemma StepShrinksWork(s: Sys, a: Step, n: nat)
    requires Shape(s, n) && Enabled(s, a)
    ensures Work(Apply(s, a)) < Work(s)
  {
    if a.Pool? {
      Strand.StepShrinksWork(s.pool, a.step);
    } else {
      QueryStepProgresses(s, a);
      ToDoUpdate(s.queries, a.task, Apply(s, a).queries[a.task]);
    }
  }

  lemma {:induction false} RunLength(s: Sys, steps: seq<Step>, n: nat)
    requires Shape(s, n) && Runs(s, steps)
    ensures Shape(Exec(s, steps), n) && |steps| + Work(Exec(s, steps)) <= Work(s)
    ensures |Exec(s, steps).queries| == |s.queries|
    decreases |steps|
  {
    if steps != [] {
      StepShrinksWork(s, steps[0], n);
      StepKeepsShape(s, steps[0], n);
      RunLength(Apply(s, steps[0]), steps[1..], n);
    }
  }

  ghost predicate Stuck(s: Sys) {
    forall a :: !Enabled(s, a)
  }

  /** Where the pool can go on, so can the whole: a client that holds a connection can
      ask, wait, drain or release. */
  lemma SomeStep(s: Sys, n: nat, b: Strand.Step) returns (a: Step)
    requires Shape(s, n) && Strand.Enabled(s.pool, b)
    ensures Enabled(s, a)
  {
    a := Pool(b);
    var i := b.task;
    if b.Release? && !s.queries[i].Answered? {
      assert Strand.UsedBy(s.pool, s.pool.tasks[i].conn, i);
      Strand.OneUser(s.pool, n, s.pool.tasks[i].conn, i, i);
      a := match s.queries[i]
           case NotAsked => Send(i, [], [])
           case Sent(_) => Await(i)
           case _ => Fetch(i);
    }
  }

  /** Whatever the server and the network do, failures included, no schedule is longer
      than eight steps a client, and one that cannot be extended has answered every
      client, if only by an exception, and put every connection back. */
  lemma EveryScheduleFinishes(n: nat, tasks: nat, steps: seq<Step>)
    requires n > 0 && Runs(Start(n, tasks), steps)
    ensures |steps| <= 8 * tasks
    ensures Stuck(Exec(Start(n, tasks), steps)) ==>
      var s := Exec(Start(n, tasks), steps);
      && Strand.AllDone(s.pool) && multiset(s.pool.core.pool) == AllTokens(n)
      && |s.queries| == tasks && forall i :: 0 <= i < tasks ==> s.queries[i].Answered?
  {
    StartShape(n, tasks);
    RunLength(Start(n, tasks), steps, n);
    SumBound(Map(ToDo, Start(n, tasks).queries), 3);
    SumBound(Map(Strand.Weight, Start(n, tasks).pool.tasks), 5);
    var s := Exec(Start(n, tasks), steps);
    if Stuck(s) {
      forall b
        ensures !Strand.Enabled(s.pool, b)
      {
        if Strand.Enabled(s.pool, b) {
          var a := SomeStep(s, n, b);
        }
      }
      Strand.StuckMeansDone(s.pool, n);
      forall i: nat | i < tasks
        ensures s.queries[i].Answered?
      {
        assert Together(s.pool.tasks[i], s.queries[i]);
      }
    }
  }
}
