/** One PostgreSQL connection: the send, await, drain and map cycle of a query over
    libpq's asynchronous interface. */
module PqConnection {
  import opened Seqs

  datatype ExecStatus = TuplesOk | CommandOk | BadResponse | FatalError | OtherStatus

  datatype PgResult = PgResult(status: ExecStatus, message: string, sqlState: string, rows: nat)

  const CONNECTION_LOST := PgResult(FatalError, "connection lost", "", 0)

  /** What one readable event of the socket brings: some complete results and
      perhaps the end of the query's response, or a failure. */
  datatype Arrival = Chunk(results: seq<PgResult>, ready: bool) | ReadFails

  /** libpq's state. `network` is what the server will send; running out of it is a
      connection that fails. */
  datatype Conn = Conn(broken: bool, busy: bool, ready: bool, arrived: seq<PgResult>, network: seq<Arrival>)

  predicate Usable(c: Conn) {
    !c.broken && !c.busy
  }

  /** A PGresult may be null. */
  datatype Outcome = Ok(result: Option<PgResult>) | Error(message: string, sqlState: string) | Threw

  function MapResult(r: Option<PgResult>): Outcome {
    match r
    case None => Ok(None)
    case Some(x) =>
      match x.status
      case BadResponse => Error(x.message, x.sqlState)
      case FatalError => Error(x.message, x.sqlState)
      case TuplesOk => Ok(r)
      case CommandOk => Ok(r)
      case OtherStatus => Ok(None)
  }

  function Consume(c: Conn): Conn {
    if c.network == [] then c.(broken := true)
    else
      var rest := c.(network := c.network[1..]);
      match c.network[0]
      case ReadFails => rest.(broken := true)
      case Chunk(results, ready) => rest.(arrived := c.arrived + results, ready := c.ready || ready)
  }

  /** PQisBusy: PQgetResult would have to wait. */
  predicate IsBusy(c: Conn) {
    c.arrived == [] && !c.ready
  }

  /** AwaitResponse: read until a result can be taken; a failed read throws. */
  function Awaited(c: Conn): Conn
    decreases |c.network|
  {
    var c' := Consume(c);
    if c'.broken || !IsBusy(c') then c' else Awaited(c')
  }

  /** PQgetResult, which blocks for more input when it has to; null ends the query. */
  function Taken(c: Conn): (Conn, Option<PgResult>)
    decreases |c.network|
  {
    if !c.busy then (c, None)
    else if c.arrived != [] then (c.(arrived := c.arrived[1..]), Some(c.arrived[0]))
    else if c.ready then (c.(busy := false, ready := false), None)
    else
      var c' := Consume(c);
      if c'.broken then (c'.(busy := false), Some(CONNECTION_LOST)) else Taken(c')
  }

  function Left(c: Conn): nat {
    (if c.busy then 1 else 0) + |c.arrived| + Pending(c.network)
  }

  /** Results and reads still to come. */
  function Pending(network: seq<Arrival>): nat {
    if network == [] then 0
    else 1 + (if network[0].Chunk? then |network[0].results| else 0) + Pending(network[1..])
  }

  lemma {:induction false} TakenDecreases(c: Conn)
    ensures Taken(c).1.Some? ==> Left(Taken(c).0) < Left(c)
    ensures Taken(c).1.None? ==> !Taken(c).0.busy
    decreases |c.network|
  {
    if c.busy && c.arrived == [] && !c.ready {
      var c' := Consume(c);
      if !c'.broken {
        TakenDecreases(c');
      }
    }
  }

  /** FetchRawResult: take results until null and keep the first. */
  function Drained(c: Conn): (Conn, Option<PgResult>)
    decreases Left(c)
  {
    TakenDecreases(c);
    var (c', r) := Taken(c);
    if r.None? then (c', None) else (Drained(c').0, r)
  }

  function Executed(c: Conn): (Conn, Outcome) {
    if !Usable(c) then (c, Threw)
    else
      var waiting := Awaited(c.(busy := true, ready := false, arrived := []));
      if waiting.broken then (waiting, Threw)
      else
        var (c', r) := Drained(waiting);
        (c', MapResult(r))
  }

  class PQConnection {
    var conn: Conn

    constructor (conn: Conn)
      ensures this.conn == conn
    {
      this.conn := conn;
    }

    /** PQsendQueryParams refuses a connection that is broken or not drained. */
    method SendQuery() returns (thrown: bool)
      modifies this
      ensures thrown <==> !Usable(old(conn))
      ensures conn == if thrown then old(conn) else old(conn).(busy := true, ready := false, arrived := [])
    {
      thrown := conn.broken || conn.busy;
      if !thrown {
        conn := conn.(busy := true, ready := false, arrived := []);
      }
    }

    method AwaitResponse() returns (thrown: bool)
      requires !conn.broken
      modifies this
      ensures conn == Awaited(old(conn)) && (thrown <==> conn.broken)
    {
      thrown := false;
      ghost var target := Awaited(conn);
      var waiting := true;
      while waiting
        invariant !conn.broken
        invariant if waiting then Awaited(conn) == target else conn == target
        decreases |conn.network|, waiting
      {
        conn := Consume(conn);
        if conn.broken {
          thrown := true;
          return;
        }
        waiting := IsBusy(conn);
      }
    }

    method FetchRawResult() returns (first: Option<PgResult>)
      modifies this
      ensures (conn, first) == Drained(old(conn))
    {
      first := None;
      ghost var target := Drained(conn);
      while true
        invariant Drained(conn).0 == target.0
        invariant first == None ==> Drained(conn) == target
        invariant first.Some? ==> first == target.1
        decreases Left(conn)
      {
        TakenDecreases(conn);
        var (c', temp) := Taken(conn);
        conn := c';
        if temp.None? {
          break;
        }
        if first.None? {
          first := temp;
        }
      }
    }

    method AsyncExecParams() returns (outcome: Outcome)
      modifies this
      ensures (conn, outcome) == Executed(old(conn))
    {
      var thrown := SendQuery();
      if thrown {
        return Threw;
      }
      thrown := AwaitResponse();
      if thrown {
        return Threw;
      }
      var raw := FetchRawResult();
      outcome := MapResult(raw);
    }
  }

  /*------------------------------ What the cycle guarantees ------------------------------*/

  /** The one that a query returns; the rest are taken and dropped. */
  function First(results: seq<PgResult>): Option<PgResult> {
    if results == [] then None else Some(results[0])
  }

  /** The arrivals bring exactly these results and then the end of the response, cut
      into chunks in any way. */
  ghost predicate Delivers(chunks: seq<Arrival>, results: seq<PgResult>) {
    && chunks != [] && chunks[0].Chunk?
    && var x := chunks[0];
       && x.results <= results
       && if |chunks| == 1 then x.ready && x.results == results
          else !x.ready && Delivers(chunks[1..], results[|x.results|..])
  }

  /** What is left of a response while it is being received. */
  ghost predicate Receiving(c: Conn, chunks: seq<Arrival>, results: seq<PgResult>, rest: seq<Arrival>) {
    && c.busy && !c.broken && c.network == chunks + rest
    && c.arrived <= results
    && (if chunks == [] then c.ready && c.arrived == results else !c.ready && Delivers(chunks, results[|c.arrived|..]))
  }

  lemma ConsumeReceives(c: Conn, chunks: seq<Arrival>, results: seq<PgResult>, rest: seq<Arrival>)
    requires Receiving(c, chunks, results, rest) && chunks != []
    ensures Receiving(Consume(c), chunks[1..], results, rest)
  {
    var x := chunks[0];
    assert c.network[0] == x && c.network[1..] == chunks[1..] + rest;
    var c' := Consume(c);
    var todo := results[|c.arrived|..];
    assert results == c.arrived + todo;
    assert c'.arrived == c.arrived + x.results;
    assert todo[|x.results|..] == results[|c'.arrived|..];
    if |chunks| == 1 {
      assert chunks[1..] == [];
    }
  }

  lemma {:induction false} AwaitReceives(c: Conn, chunks: seq<Arrival>, results: seq<PgResult>, rest: seq<Arrival>)
      returns (left: seq<Arrival>)
    requires Receiving(c, chunks, results, rest) && chunks != []
    ensures Receiving(Awaited(c), left, results, rest)
    decreases |chunks|
  {
    ConsumeReceives(c, chunks, results, rest);
    left := chunks[1..];
    if IsBusy(Consume(c)) {
      left := AwaitReceives(Consume(c), chunks[1..], results, rest);
    }
  }

  lemma {:induction false} TakeReceives(c: Conn, chunks: seq<Arrival>, results: seq<PgResult>, rest: seq<Arrival>)
      returns (left: seq<Arrival>)
    requires Receiving(c, chunks, results, rest)
    ensures var (c', r) := Taken(c);
      if results == [] then r == None && c' == Conn(false, false, false, [], rest)
      else r == Some(results[0]) && Receiving(c', left, results[1..], rest)
    decreases |chunks|
  {
    left := chunks;
    if c.arrived == [] && !c.ready {
      ConsumeReceives(c, chunks, results, rest);
      left := TakeReceives(Consume(c), chunks[1..], results, rest);
    } else if c.arrived != [] {
      assert results[1..][|c.arrived[1..]|..] == results[|c.arrived|..];
    } else {
      assert c.network == rest;
    }
  }

  lemma {:induction false} DrainReceives(c: Conn, chunks: seq<Arrival>, results: seq<PgResult>, rest: seq<Arrival>)
    requires Receiving(c, chunks, results, rest)
    ensures Drained(c) == (Conn(false, false, false, [], rest), First(results))
    decreases |results|
  {
    var left := TakeReceives(c, chunks, results, rest);
    TakenDecreases(c);
    if results != [] {
      DrainReceives(Taken(c).0, left, results[1..], rest);
    }
  }

  /** However the network cuts a response into reads, a query on a usable connection
      returns its first result, mapped, and leaves the connection usable with
      exactly the traffic after that response unread. */
  lemma ExecReturnsItsOwnResult(c: Conn, chunks: seq<Arrival>, results: seq<PgResult>, rest: seq<Arrival>)
    requires Usable(c) && c.network == chunks + rest && Delivers(chunks, results)
    ensures Executed(c) == (Conn(false, false, false, [], rest), MapResult(First(results)))
  {
    var sent := c.(busy := true, ready := false, arrived := []);
    assert results[0..] == results;
    var left := AwaitReceives(sent, chunks, results, rest);
    DrainReceives(Awaited(sent), left, results, rest);
  }

  /** What a query on a usable connection returns, for every delivered response: an error
      with the server's message and state exactly when the first result is one, that
      result exactly when it is a success, and a null result otherwise. */
  lemma AnswersByFirstStatus(c: Conn, chunks: seq<Arrival>, results: seq<PgResult>, rest: seq<Arrival>)
    requires Usable(c) && c.network == chunks + rest && Delivers(chunks, results)
    ensures var outcome := Executed(c).1;
      && outcome != Threw
      && (outcome.Error? <==> results != [] && (results[0].status == BadResponse || results[0].status == FatalError))
      && (outcome.Error? ==> outcome == Error(results[0].message, results[0].sqlState))
      && (outcome.Ok? && outcome.result.Some? <==>
            results != [] && (results[0].status == TuplesOk || results[0].status == CommandOk))
      && (outcome.Ok? && outcome.result.Some? ==> outcome.result.value == results[0])
      && (outcome == Ok(None) <==> results == [] || results[0].status == OtherStatus)
  {
    ExecReturnsItsOwnResult(c, chunks, results, rest);
  }

  function Joined(responses: seq<seq<Arrival>>): seq<Arrival> {
    if responses == [] then [] else responses[0] + Joined(responses[1..])
  }

  function ExecutedAll(c: Conn, n: nat): (Conn, seq<Outcome>)
    decreases n
  {
    if n == 0 then (c, [])
    else
      var (c', outcome) := Executed(c);
      var (c'', outcomes) := ExecutedAll(c', n - 1);
      (c'', [outcome] + outcomes)
  }

  /** No response leaks into a later query: on one connection, used by one task
      after another, the i-th query is answered from the i-th response. */
  lemma {:induction false} EveryQueryGetsItsResponse(c: Conn, responses: seq<seq<Arrival>>, results: seq<seq<PgResult>>)
    requires Usable(c) && |responses| == |results| && c.network == Joined(responses)
    requires forall i :: 0 <= i < |responses| ==> Delivers(responses[i], results[i])
    ensures var (c', outcomes) := ExecutedAll(c, |responses|);
      && Usable(c') && |outcomes| == |responses|
      && forall i :: 0 <= i < |outcomes| ==> outcomes[i] == MapResult(First(results[i]))
    decreases |responses|
  {
    if responses != [] {
      ExecReturnsItsOwnResult(c, responses[0], results[0], Joined(responses[1..]));
      EveryQueryGetsItsResponse(Executed(c).0, responses[1..], results[1..]);
    }
  }

  /*------------------ When a connection survives its query ------------------*/

  /** The traffic holds the whole of a response: no read fails before its end. */
  predicate Complete(network: seq<Arrival>) {
    network != [] && network[0].Chunk? && (network[0].ready || Complete(network[1..]))
  }

  /** The traffic gets as far as a first result, or the end: enough for AwaitResponse. */
  predicate Begins(network: seq<Arrival>) {
    && network != [] && network[0].Chunk?
    && (network[0].ready || network[0].results != [] || Begins(network[1..]))
  }

  /** The traffic is a delivery of the results and what follows it. */
  ghost predicate DeliversFirst(network: seq<Arrival>, chunks: seq<Arrival>, results: seq<PgResult>,
                                rest: seq<Arrival>)
  {
    network == chunks + rest && Delivers(chunks, results)
  }

  /** Being complete is to start with the delivery of some results. */
  lemma {:induction false} CompleteIsDelivery(network: seq<Arrival>)
    ensures Complete(network) <==>
      exists chunks, results, rest :: DeliversFirst(network, chunks, results, rest)
  {
    if Complete(network) {
      var chunks, results := CompleteDelivers(network);
      assert DeliversFirst(network, chunks, results, network[|chunks|..]);
    }
    forall chunks, results, rest | DeliversFirst(network, chunks, results, rest)
      ensures Complete(network)
    {
      DeliversComplete(chunks, results, rest);
    }
  }

  lemma {:induction false} CompleteDelivers(network: seq<Arrival>)
      returns (chunks: seq<Arrival>, results: seq<PgResult>)
    requires Complete(network)
    ensures chunks <= network && Delivers(chunks, results)
  {
    var x := network[0];
    chunks, results := [x], x.results;
    if !x.ready {
      var more, others := CompleteDelivers(network[1..]);
      chunks, results := [x] + more, x.results + others;
      assert chunks[1..] == more && results[|x.results|..] == others;
    }
  }

  lemma {:induction false} DeliversComplete(chunks: seq<Arrival>, results: seq<PgResult>, rest: seq<Arrival>)
    requires Delivers(chunks, results)
    ensures Complete(chunks + rest)
  {
    if |chunks| > 1 {
      DeliversComplete(chunks[1..], results[|chunks[0].results|..], rest);
      assert (chunks + rest)[1..] == chunks[1..] + rest;
    }
  }

  /** The connection is in the middle of a query that can be finished. */
  predicate Finishable(c: Conn) {
    c.busy && !c.broken && (c.ready || Complete(c.network))
  }

  lemma {:induction false} AwaitKeepsFinishable(c: Conn)
    requires c.busy && !c.broken && !c.ready && c.arrived == []
    ensures Awaited(c).busy
    ensures Awaited(c).broken <==> !Begins(c.network)
    ensures Finishable(Awaited(c)) <==> Complete(c.network)
    decreases |c.network|
  {
    var c' := Consume(c);
    if !c'.broken && IsBusy(c') {
      AwaitKeepsFinishable(c');
    }
  }

  lemma {:induction false} TakeKeepsFinishable(c: Conn)
    requires c.busy
    ensures var (c', r) := Taken(c);
      if r.None? then Finishable(c) == Usable(c') && !c'.busy
      else Finishable(c) == Finishable(c') && (c'.busy || c'.broken)
    decreases |c.network|
  {
    if c.arrived == [] && !c.ready && !Consume(c).broken {
      TakeKeepsFinishable(Consume(c));
    }
  }

  lemma {:induction false} DrainSurvivesExactlyWhenFinishable(c: Conn)
    requires c.busy || c.broken
    ensures !Drained(c).0.busy
    ensures Usable(Drained(c).0) <==> Finishable(c)
    decreases Left(c)
  {
    TakenDecreases(c);
    if c.busy {
      TakeKeepsFinishable(c);
    }
    if Taken(c).1.Some? {
      DrainSurvivesExactlyWhenFinishable(Taken(c).0);
    }
  }

  /** The exact conditions, on the connection and on what the server sends. A query
      throws if and only if the connection was lost before or the response does not
      begin; and it leaves the connection usable if and only if it was usable and the
      response is complete. */
  lemma SurvivesExactlyWhenComplete(c: Conn)
    ensures Executed(c).1 == Threw <==> !Usable(c) || !Begins(c.network)
    ensures Usable(Executed(c).0) <==> Usable(c) && Complete(c.network)
    ensures Usable(Executed(c).0) <==>
      Usable(c) && exists chunks, results, rest :: DeliversFirst(c.network, chunks, results, rest)
  {
    CompleteIsDelivery(c.network);
    if Usable(c) {
      var sent := c.(busy := true, ready := false, arrived := []);
      AwaitKeepsFinishable(sent);
      DrainSurvivesExactlyWhenFinishable(Awaited(sent));
    }
  }

  /** So a query that does not throw can lose its connection all the same: exactly when
      the response begins but a read fails before its end, because FetchRawResult
      keeps the first result and drops the failure that follows it. */
  lemma LostWithoutThrowingExactlyWhenCutShort(c: Conn)
    ensures Executed(c).1 != Threw && !Usable(Executed(c).0) <==>
      Usable(c) && Begins(c.network) && !Complete(c.network)
  {
    SurvivesExactlyWhenComplete(c);
  }

  /** A concrete one: the rows arrive and are returned as a success, then the
      connection breaks. */
  lemma SuccessCanLoseTheConnection(r: PgResult)
    requires r.status.TuplesOk?
    ensures var c := Conn(false, false, false, [], [Chunk([r], false), ReadFails]);
      Usable(c) && Executed(c).1 == Ok(Some(r)) && !Usable(Executed(c).0)
  {
    var c := Conn(false, false, false, [], [Chunk([r], false), ReadFails]);
    var waiting := Awaited(c.(busy := true));
    assert waiting == Conn(false, true, false, [r], [ReadFails]);
    var taken := Taken(waiting).0;
    assert taken == Conn(false, true, false, [], [ReadFails]);
    TakenDecreases(waiting);
    SurvivesExactlyWhenComplete(c);
    assert !Complete(c.network[1..]);
  }

  /** A connection that is lost stays lost: every later query on it throws and
      changes nothing. A query that throws always loses it. */
  lemma LostStaysLost(c: Conn)
    ensures !Usable(Executed(c).0) ==> Executed(Executed(c).0) == (Executed(c).0, Threw)
    ensures Executed(c).1 == Threw ==> !Usable(Executed(c).0)
    ensures Executed(c).1 != Threw ==> !Executed(c).0.busy
  {
    if Usable(c) {
      var sent := c.(busy := true, ready := false, arrived := []);
      AwaitKeepsFinishable(sent);
      DrainSurvivesExactlyWhenFinishable(Awaited(sent));
    }
  }

  /*------------------ Its own result or an exception ------------------*/

  /** Drained and with nothing unread. */
  const CLEAN := Conn(false, false, false, [], [])

  /** A delivery of these results that may stop, or meet a failing read, anywhere. */
  ghost predicate CutDelivers(network: seq<Arrival>, results: seq<PgResult>) {
    network == [] || network[0].ReadFails? ||
    var x := network[0];
    && x.results <= results
    && if x.ready then |network| == 1 && x.results == results
       else CutDelivers(network[1..], results[|x.results|..])
  }

  /** A whole delivery is one, and a complete one is whole. */
  lemma {:induction false} WholeIsUncut(network: seq<Arrival>, results: seq<PgResult>)
    ensures Delivers(network, results) <==> CutDelivers(network, results) && Complete(network)
  {
    if network != [] && network[0].Chunk? && network[0].results <= results && !network[0].ready {
      WholeIsUncut(network[1..], results[|network[0].results|..]);
    }
  }

  /** Nothing follows the end of a response. */
  predicate EndsOnce(network: seq<Arrival>) {
    network == [] || network[0].ReadFails? || (if network[0].ready then |network| == 1 else EndsOnce(network[1..]))
  }

  ghost predicate IsCutDelivery(network: seq<Arrival>, results: seq<PgResult>) {
    CutDelivers(network, results)
  }

  /** That is all that being such a delivery asks: any other traffic delivers some
      results, wherever it is cut. */
  lemma AnyTrafficIsCut(network: seq<Arrival>)
    ensures EndsOnce(network) <==> exists results :: IsCutDelivery(network, results)
  {
    if EndsOnce(network) {
      var results := Delivered(network);
      assert IsCutDelivery(network, results);
    }
    forall results | IsCutDelivery(network, results)
      ensures EndsOnce(network)
    {
      CutEndsOnce(network, results);
    }
  }

  lemma {:induction false} Delivered(network: seq<Arrival>) returns (results: seq<PgResult>)
    requires EndsOnce(network)
    ensures CutDelivers(network, results)
  {
    results := [];
    if network != [] && network[0].Chunk? {
      results := network[0].results;
      if !network[0].ready {
        var more := Delivered(network[1..]);
        results := network[0].results + more;
        assert results[|network[0].results|..] == more;
      }
    }
  }

  lemma {:induction false} CutEndsOnce(network: seq<Arrival>, results: seq<PgResult>)
    requires CutDelivers(network, results)
    ensures EndsOnce(network)
  {
    if network != [] && network[0].Chunk? && !network[0].ready {
      CutEndsOnce(network[1..], results[|network[0].results|..]);
    }
  }

  /** In the middle of a query of which these are the results, whole or cut short. */
  ghost predicate InResponse(c: Conn, results: seq<PgResult>) {
    && c.busy && !c.broken && c.arrived <= results
    && if c.ready then c.network == [] && c.arrived == results else CutDelivers(c.network, results[|c.arrived|..])
  }

  lemma ConsumeStaysInResponse(c: Conn, results: seq<PgResult>)
    requires InResponse(c, results) && !c.ready
    ensures Consume(c).broken || InResponse(Consume(c), results)
  {
    if !Consume(c).broken {
      var x, todo := c.network[0], results[|c.arrived|..];
      assert results == c.arrived + todo;
      assert todo[|x.results|..] == results[|Consume(c).arrived|..];
    }
  }

  lemma {:induction false} AwaitStaysInResponse(c: Conn, results: seq<PgResult>)
    requires InResponse(c, results) && !c.ready
    ensures Awaited(c).broken || (InResponse(Awaited(c), results) && !IsBusy(Awaited(c)))
    decreases |c.network|
  {
    ConsumeStaysInResponse(c, results);
    if !Consume(c).broken && IsBusy(Consume(c)) {
      AwaitStaysInResponse(Consume(c), results);
    }
  }

  lemma {:induction false} TakeStaysInResponse(c: Conn, results: seq<PgResult>)
    requires InResponse(c, results)
    ensures var (c', r) := Taken(c);
      || (r.None? && results == [] && c' == CLEAN)
      || (r.Some? && c'.broken && !c'.busy && IsBusy(c))
      || (r.Some? && results != [] && r.value == results[0] && InResponse(c', results[1..]))
    decreases |c.network|
  {
    if c.arrived != [] {
      assert results[1..][|c.arrived[1..]|..] == results[|c.arrived|..];
    } else if !c.ready {
      ConsumeStaysInResponse(c, results);
      if !Consume(c).broken {
        TakeStaysInResponse(Consume(c), results);
      }
    }
  }

  lemma {:induction false} DrainEndsResponse(c: Conn, results: seq<PgResult>)
    requires InResponse(c, results)
    ensures Drained(c).0 == CLEAN || Drained(c).0.broken
    ensures !IsBusy(c) ==> Drained(c).1 == First(results)
    decreases Left(c)
  {
    TakenDecreases(c);
    TakeStaysInResponse(c, results);
    var (c', r) := Taken(c);
    if r.Some? {
      if c'.broken {
        assert Taken(c') == (c', None);
      } else {
        DrainEndsResponse(c', results[1..]);
      }
    }
  }

  /** Wherever its response is cut short: a query throws or returns the first of its own
      results, and leaves the connection lost or with nothing unread. */
  lemma OwnResultOrException(c: Conn, results: seq<PgResult>)
    requires Usable(c) && CutDelivers(c.network, results)
    ensures Executed(c).1 == Threw || Executed(c).1 == MapResult(First(results))
    ensures Executed(c).0.broken || Executed(c).0 == CLEAN
  {
    var sent := c.(busy := true, ready := false, arrived := []);
    assert results[0..] == results;
    AwaitStaysInResponse(sent, results);
    if !Awaited(sent).broken {
      DrainEndsResponse(Awaited(sent), results);
    }
  }

  /** A failure that the server reports after a first result, such as one at commit, is
      dropped: what a query returns depends on the first result alone. */
  lemma LaterResultsAreDropped(c: Conn, chunks: seq<Arrival>, first: PgResult, later: seq<PgResult>, rest: seq<Arrival>)
    requires Usable(c) && c.network == chunks + rest && Delivers(chunks, [first] + later)
    ensures Executed(c).1 == MapResult(Some(first))
  {
    ExecReturnsItsOwnResult(c, chunks, [first] + later, rest);
  }
}
