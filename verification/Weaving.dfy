/** The calls of `Services` as operations of `Accounts`: alone, and woven together
    in any order with each other and with the rest of the world. */
module Weaving {
  import opened Seqs
  import opened ServiceModel
  import opened Users
  import opened Keyspace
  import opened Accounts
  import opened Services
  import opened Registration

  /*------------------ The calls as operations of the interleaved model ------------------*/

  /** The step that an exchange is, of an operation numbered 0. */
  ghost function StepOf(q: Request, x: Exchange, id: nat, salt: string): Step {
    match x
    case Get(_, _, fails) => if UsesGetUserById(q) then CacheRead(0, fails) else CodeRead(0, fails)
    case Set(_, _, entry, applied) =>
      if UsesGetUserById(q) then CacheFill(0, applied) else CodeSave(0, entry.value, applied)
    case ById(_, _, fault) => DbRead(0, fault)
    case ByPhone(_, _, fault) => PhoneRead(0, fault)
    case InsertRow(_, _, fault, applied) => Insert(0, id, salt, fault, applied)
  }

  ghost function StateAt(x: Exchange, op: Op): State {
    x.s.(ops := [op])
  }

  /** The shared part of a state: everything but the operations. */
  ghost function Shared(s: State): State {
    s.(ops := [])
  }

  /** The state an exchange leaves, with the history that the model keeps. */
  ghost function Recorded(p: Platform, x: Exchange): State {
    After(p, x).(clock := x.s.clock + 1,
                 saved := if x.Set? && x.applied && x.entry.origin.FromCode?
                          then x.s.saved + [Saved(x.entry.origin.usage, x.entry.origin.phone, x.entry.value, x.s.time)]
                          else x.s.saved)
  }

  /** The exchanges, in order, are enabled steps of the operation, each with the
      same effect on Redis and the table, and they take it to its last phase. The
      state between two of them is whatever the second one finds. */
  ghost predicate Carries(p: Platform, op: Op, id: nat, salt: string, xs: seq<Exchange>, last: Phase)
    decreases |xs|
  {
    if xs == [] then
      op.phase == last
    else
      var s, a := StateAt(xs[0], op), StepOf(op.req, xs[0], id, salt);
      && Enabled(p, s, a)
      && var s' := Apply(p, s, a);
         && Shared(s') == Shared(Recorded(p, xs[0])) && |s'.ops| == 1
         && Carries(p, s'.ops[0], id, salt, xs[1..], last)
  }

  /* One exchange at a time: each takes the operation to its next phase. */

  lemma CacheReadCarries(p: Platform, op: Op, x: Exchange, rest: seq<Exchange>, last: Phase)
    requires op.phase == Invoked && UsesGetUserById(op.req) && x.Get? && x.key == UserKey(op.req.id)
    requires Carries(p, op.(phase := AfterCacheRead(p, op.req, Seen(x)), at := x.s.clock), 0, "", rest, last)
    ensures Carries(p, op, 0, "", [x] + rest, last)
  {
    assert ([x] + rest)[1..] == rest;
  }

  lemma DbReadCarries(p: Platform, op: Op, x: Exchange, rest: seq<Exchange>, last: Phase)
    requires op.phase == Missed && UsesGetUserById(op.req) && x.ById? && x.id == op.req.id
    requires var found := FindById(p, x.s.table, op.req.id);
      Carries(p, op.(phase := AfterDbRead(p, op.req, x.fault, found), at := x.s.clock), 0, "", rest, last)
    ensures Carries(p, op, 0, "", [x] + rest, last)
  {
    assert ([x] + rest)[1..] == rest;
  }

  lemma FillCarries(p: Platform, op: Op, x: Exchange)
    requires op.phase.Filling? && UsesGetUserById(op.req) && x.Set? && x.key == UserKey(op.req.id)
    requires x.entry == Entry(p.dump(ToJson(op.phase.user)), x.s.time + CACHE_SECONDS,
                              FromUser(op.req.id, op.at, x.s.clock))
    ensures Carries(p, op, 0, "", [x], Finish(p, op.req, Fetched(Some(op.phase.user))))
  {
    assert [x][1..] == [];
  }

  lemma CodeReadCarries(p: Platform, op: Op, id: nat, salt: string, x: Exchange, rest: seq<Exchange>, last: Phase)
    requires op.phase == Invoked && (op.req.LoginByCode? || op.req.Register?) && x.Get? && x.key == CodeKeyOf(op.req)
    requires Carries(p, op.(phase := AfterCodeRead(op.req, Seen(x)), at := x.s.clock), id, salt, rest, last)
    ensures Carries(p, op, id, salt, [x] + rest, last)
  {
    assert ([x] + rest)[1..] == rest;
  }

  lemma LookupCarries(p: Platform, op: Op, id: nat, salt: string, x: Exchange, rest: seq<Exchange>, last: Phase)
    requires (op.phase == CodeOk && (op.req.LoginByCode? || op.req.Register?))
          || (op.phase == Invoked && ChecksPhone(op.req))
    requires x.ByPhone? && x.phone == op.req.phone
    requires var found := FindByPhone(p, x.s.table, op.req.phone);
      Carries(p, op.(phase := AfterPhoneRead(op.req, x.fault, found)), id, salt, rest, last)
    ensures Carries(p, op, id, salt, [x] + rest, last)
  {
    var next := op.(phase := AfterPhoneRead(op.req, x.fault, FindByPhone(p, x.s.table, op.req.phone)));
    assert Apply(p, StateAt(x, op), PhoneRead(0, x.fault)) == Recorded(p, x).(ops := [next]);
    assert ([x] + rest)[1..] == rest;
  }

  lemma InsertCarries(p: Platform, op: Op, id: nat, salt: string, x: Exchange, r: Response)
    requires op.phase == Vacant && op.req.Register? && IsSalt(salt)
    requires x.InsertRow? && x.user == NewUser(p, op.req, id, salt)
    requires AfterInsert(x.s.table, RowOf(p, x.user, x.s.time), x.fault, x.applied, p.showUuid(id)) == Answer(r)
    ensures Carries(p, op, id, salt, [x], Answer(r))
  {
    assert [x][1..] == [];
  }

  lemma SaveCarries(p: Platform, op: Op, code: string, x: Exchange)
    requires op.req.SendCode? && UsageOf(op.req.usage).Some? && IsCode(code)
    requires op.phase == MaySend || (op.phase == Invoked && !ChecksPhone(op.req))
    requires x.Set? && x.key == CodeKey(UsageOf(op.req.usage).value, op.req.phone)
    requires x.entry == Entry(code, x.s.time + CODE_SECONDS, FromCode(UsageOf(op.req.usage).value, op.req.phone))
    ensures Carries(p, op, 0, "", [x], Answer(Plain(SUCCESS)))
  {
    assert [x][1..] == [];
  }

  lemma Split(xs: seq<Exchange>)
    requires xs != []
    ensures xs == [xs[0]] + xs[1..]
    ensures |xs| == 1 ==> xs[1..] == []
    ensures |xs| == 2 ==> xs[1..] == [xs[1]]
    ensures |xs| == 3 ==> xs[1..] == [xs[1]] + [xs[2]]
  {
  }

  /** GetUserById, and so the two calls that end with it, are operations of the
      interleaved model: what is proved of every run of that model holds for them. */
  lemma GetUserByIdIsOperation(p: Platform, op: Op, xs: seq<Exchange>, f: Fetch)
    requires op.phase == Invoked && UsesGetUserById(op.req) && GetUserByIdMade(p, op.req, xs, f)
    ensures Carries(p, op, 0, "", xs, Done(Conclude(p, op.req, f), Some(f)))
  {
    var last := Finish(p, op.req, f);
    Split(xs);
    var op1 := op.(phase := AfterCacheRead(p, op.req, Seen(xs[0])), at := xs[0].s.clock);
    if |xs| > 1 {
      var found := FindById(p, xs[1].s.table, op.req.id);
      var op2 := op1.(phase := AfterDbRead(p, op.req, xs[1].fault, found), at := xs[1].s.clock);
      if |xs| == 3 {
        FillCarries(p, op2, xs[2]);
        DbReadCarries(p, op1, xs[1], [xs[2]], last);
      } else {
        DbReadCarries(p, op1, xs[1], [], last);
        assert [xs[1]] + [] == [xs[1]];
      }
    }
    CacheReadCarries(p, op, xs[0], xs[1..], last);
  }

  lemma SendCodeIsOperation(p: Platform, op: Op, code: string, xs: seq<Exchange>, r: Response)
    requires op.phase == Invoked && op.req.SendCode? && IsCode(code) && SendCodeMade(p, op.req, code, xs, r)
    ensures UsageOf(op.req.usage).Some? ==> Carries(p, op, 0, "", xs, Answer(r))
    ensures UsageOf(op.req.usage).None? ==> xs == [] && forall s: State ::
      Enabled(p, s.(ops := [op]), Reject(0)) && Apply(p, s.(ops := [op]), Reject(0)).ops[0].phase == Answer(r)
  {
    if UsageOf(op.req.usage).Some? {
      Split(xs);
      if !ChecksPhone(op.req) {
        SaveCarries(p, op, code, xs[0]);
      } else {
        if |xs| == 2 {
          SaveCarries(p, op.(phase := MaySend), code, xs[1]);
        }
        LookupCarries(p, op, 0, "", xs[0], xs[1..], Answer(r));
      }
    }
  }

  lemma LoginByCodeIsOperation(p: Platform, op: Op, xs: seq<Exchange>, r: Response)
    requires op.phase == Invoked && op.req.LoginByCode? && LoginByCodeMade(p, op.req, xs, r)
    ensures Carries(p, op, 0, "", xs, Answer(r))
  {
    Split(xs);
    var op1 := op.(phase := AfterCodeRead(op.req, Seen(xs[0])), at := xs[0].s.clock);
    if |xs| == 2 {
      LookupCarries(p, op1, 0, "", xs[1], [], Answer(r));
      assert [xs[1]] + [] == [xs[1]];
    }
    CodeReadCarries(p, op, 0, "", xs[0], xs[1..], Answer(r));
  }

  lemma RegisterIsOperation(p: Platform, op: Op, id: nat, salt: string, xs: seq<Exchange>, r: Response)
    requires op.phase == Invoked && op.req.Register? && IsSalt(salt) && RegisterMade(p, op.req, id, salt, xs, r)
    ensures Carries(p, op, id, salt, xs, Answer(r))
  {
    Split(xs);
    var op1 := op.(phase := AfterCodeRead(op.req, Seen(xs[0])), at := xs[0].s.clock);
    if |xs| > 1 {
      if |xs| == 3 {
        InsertCarries(p, op1.(phase := Vacant), id, salt, xs[2], r);
        LookupCarries(p, op1, id, salt, xs[1], [xs[2]], Answer(r));
      } else {
        LookupCarries(p, op1, id, salt, xs[1], [], Answer(r));
        assert [xs[1]] + [] == [xs[1]];
      }
    }
    CodeReadCarries(p, op, id, salt, xs[0], xs[1..], Answer(r));
  }

  /*------------------------- Many calls, woven together -------------------------*/

  function Renumbered(a: Step, k: nat): Step {
    match a
    case CacheRead(_, fails) => CacheRead(k, fails)
    case DbRead(_, fault) => DbRead(k, fault)
    case CacheFill(_, applied) => CacheFill(k, applied)
    case CodeRead(_, fails) => CodeRead(k, fails)
    case PhoneRead(_, fault) => PhoneRead(k, fault)
    case Insert(_, id, salt, fault, applied) => Insert(k, id, salt, fault, applied)
    case CodeSave(_, code, applied) => CodeSave(k, code, applied)
    case Reject(_) => Reject(k)
    case _ => a
  }

  ghost predicate OfOperation(a: Step) {
    !a.Invoke? && !a.Tick? && !a.Evict? && !a.Corrupt? && !a.External?
  }

  /** A step of operation k in a full state acts exactly as on that operation alone:
      it sees no other operation and changes none. */
  lemma StepIsLocal(p: Platform, s: State, k: nat, a: Step)
    requires k < |s.ops| && OfOperation(a) && a.op == 0
    ensures Enabled(p, s, Renumbered(a, k)) <==> Enabled(p, s.(ops := [s.ops[k]]), a)
    ensures Enabled(p, s, Renumbered(a, k)) ==>
      var alone := Apply(p, s.(ops := [s.ops[k]]), a);
      |alone.ops| == 1 && Apply(p, s, Renumbered(a, k)) == alone.(ops := s.ops[k := alone.ops[0]])
  {
  }

  /** A call, what it drew at random, the exchanges it has still to make and the phase it will end in. */
  datatype Call = Call(q: Request, id: nat, salt: string, code: string, xs: seq<Exchange>, last: Phase)

  predicate Refused(c: Call) {
    c.q.SendCode? && UsageOf(c.q.usage).None?
  }

  /** The log and the result are those of one call of the services' code. */
  ghost predicate IsCall(p: Platform, c: Call) {
    && c.last.Done? && (c.q.Register? || (c.id == 0 && c.salt == ""))
    && match c.q
       case SendCode(_, _) =>
         c.last.fetch.None? && IsCode(c.code) && SendCodeMade(p, c.q, c.code, c.xs, c.last.response)
       case LoginByCode(_, _) => c.last.fetch.None? && LoginByCodeMade(p, c.q, c.xs, c.last.response)
       case Register(_, _, _, _) =>
         c.last.fetch.None? && IsSalt(c.salt) && RegisterMade(p, c.q, c.id, c.salt, c.xs, c.last.response)
       case _ =>
         && c.last.fetch.Some? && GetUserByIdMade(p, c.q, c.xs, c.last.fetch.value)
         && c.last.response == Conclude(p, c.q, c.last.fetch.value)
  }

  /* An execution of each of the services' methods is such a call: its log is what it
     added to the backend's. */

  method RunSendCode(service: AuthService, q: Request, code: string) returns (r: Response, ghost c: Call)
    requires service.Valid() && q.SendCode? && IsCode(code)
    modifies service.backend
    ensures LogGrew(service.backend) && IsCall(service.backend.p, c)
    ensures c == Call(q, 0, "", code, Made(service.backend), Answer(r))
  {
    r := service.SendCode(q, code);
    c := Call(q, 0, "", code, Made(service.backend), Answer(r));
  }

  method RunLoginByCode(service: AuthService, q: Request) returns (r: Response, ghost c: Call)
    requires service.Valid() && q.LoginByCode?
    modifies service.backend
    ensures LogGrew(service.backend) && IsCall(service.backend.p, c)
    ensures c == Call(q, 0, "", "", Made(service.backend), Answer(r))
  {
    r := service.LoginByCode(q);
    c := Call(q, 0, "", "", Made(service.backend), Answer(r));
  }

  method RunLoginByPassword(service: AuthService, q: Request) returns (r: Response, ghost c: Call)
    requires service.Valid() && q.LoginByPassword?
    modifies service.backend
    ensures LogGrew(service.backend) && IsCall(service.backend.p, c)
    ensures c.last.Done? && c == Call(q, 0, "", "", Made(service.backend), Done(r, c.last.fetch))
  {
    r := service.LoginByPassword(q);
    ghost var f :|
      GetUserByIdMade(service.backend.p, q, Made(service.backend), f) && r == Conclude(service.backend.p, q, f);
    c := Call(q, 0, "", "", Made(service.backend), Done(r, Some(f)));
  }

  method RunRegister(service: BasicUserService, q: Request, id: nat, salt: string) returns (r: Response, ghost c: Call)
    requires service.Valid() && q.Register? && IsSalt(salt)
    modifies service.backend
    ensures LogGrew(service.backend) && IsCall(service.backend.p, c)
    ensures c == Call(q, id, salt, "", Made(service.backend), Answer(r))
  {
    r := service.Register(q, id, salt);
    c := Call(q, id, salt, "", Made(service.backend), Answer(r));
  }

  method RunGetUserInfo(service: BasicUserService, q: Request) returns (r: Response, ghost c: Call)
    requires service.Valid() && q.GetUserInfo?
    modifies service.backend
    ensures LogGrew(service.backend) && IsCall(service.backend.p, c)
    ensures c.last.Done? && c == Call(q, 0, "", "", Made(service.backend), Done(r, c.last.fetch))
  {
    r := service.GetUserInfo(q);
    ghost var f :|
      GetUserByIdMade(service.backend.p, q, Made(service.backend), f) && r == Conclude(service.backend.p, q, f);
    c := Call(q, 0, "", "", Made(service.backend), Done(r, Some(f)));
  }

  /** A call is made, a call makes its next exchange, or something else happens. */
  datatype Event = Begin(made: Call) | Exchanges(call: nat) | World(step: Step)

  ghost predicate IsWorld(a: Step) {
    a.Tick? || a.Evict? || a.Corrupt? || a.External?
  }

  /** The events fit together: each exchange found the shared state that the events
      before it left, and nothing else is asked. A refused call ends at once. */
  ghost predicate Woven(p: Platform, s: State, calls: seq<Call>, events: seq<Event>)
    decreases |events|
  {
    events == [] ||
    match events[0]
    case Begin(c) =>
      IsCall(p, c) && Woven(p, s.(clock := s.clock + if Refused(c) then 2 else 1), calls + [c], events[1..])
    case Exchanges(k) =>
      && k < |calls| && calls[k].xs != []
      && Shared(calls[k].xs[0].s) == s
      && Woven(p, Shared(Recorded(p, calls[k].xs[0])), calls[k := calls[k].(xs := calls[k].xs[1..])], events[1..])
    case World(a) =>
      IsWorld(a) && Enabled(p, s, a) && Woven(p, Apply(p, s, a), calls, events[1..])
  }

  /** The calls with what is left of their logs. */
  ghost function CallsAfter(calls: seq<Call>, events: seq<Event>): seq<Call>
    decreases |events|
  {
    if events == [] then calls
    else
      match events[0]
      case Begin(c) => CallsAfter(calls + [c], events[1..])
      case Exchanges(k) =>
        var next := if k < |calls| && calls[k].xs != [] then calls[k := calls[k].(xs := calls[k].xs[1..])] else calls;
        CallsAfter(next, events[1..])
      case World(_) => CallsAfter(calls, events[1..])
  }

  ghost predicate InStep(p: Platform, op: Op, c: Call) {
    op.req == c.q && Carries(p, op, c.id, c.salt, c.xs, c.last)
  }

  ghost predicate AllInStep(p: Platform, ops: seq<Op>, calls: seq<Call>) {
    |ops| == |calls| && forall k :: 0 <= k < |ops| ==> InStep(p, ops[k], calls[k])
  }

  lemma TraceSnoc(p: Platform, tr: seq<State>, a: Step)
    requires IsTrace(p, tr) && Enabled(p, Last(tr), a)
    ensures IsTrace(p, tr + [Apply(p, Last(tr), a)])
    ensures InsertOnly(tr) && Last(tr).table <= Apply(p, Last(tr), a).table ==> InsertOnly(tr + [Apply(p, Last(tr), a)])
  {
    var tr' := tr + [Apply(p, Last(tr), a)];
    forall i | 0 <= i < |tr'| - 1
      ensures Next(p, tr'[i], tr'[i + 1])
    {
      if i < |tr| - 1 {
        assert Next(p, tr[i], tr[i + 1]);
      }
    }
  }

  /** A call that is not refused starts in step. */
  lemma CallStarts(p: Platform, c: Call, op: Op)
    requires IsCall(p, c) && op.req == c.q && op.phase == Invoked && !Refused(c)
    ensures InStep(p, op, c)
  {
    match c.q
    case SendCode(_, _) => SendCodeIsOperation(p, op, c.code, c.xs, c.last.response);
    case LoginByCode(_, _) => LoginByCodeIsOperation(p, op, c.xs, c.last.response);
    case Register(_, _, _, _) => RegisterIsOperation(p, op, c.id, c.salt, c.xs, c.last.response);
    case _ => GetUserByIdIsOperation(p, op, c.xs, c.last.fetch.value);
  }

  lemma BeginExtends(p: Platform, tr: seq<State>, calls: seq<Call>, c: Call) returns (tr': seq<State>)
    requires IsTrace(p, tr) && AllInStep(p, Last(tr).ops, calls) && IsCall(p, c)
    ensures IsTrace(p, tr') && tr <= tr' && AllInStep(p, Last(tr').ops, calls + [c])
    ensures Shared(Last(tr')) == Shared(Last(tr)).(clock := Last(tr).clock + if Refused(c) then 2 else 1)
    ensures InsertOnly(tr) ==> InsertOnly(tr')
  {
    var s, k := Last(tr), |calls|;
    var s1 := Apply(p, s, Invoke(c.q));
    TraceSnoc(p, tr, Invoke(c.q));
    tr' := tr + [s1];
    if Refused(c) {
      var s2 := Apply(p, s1, Reject(k));
      TraceSnoc(p, tr', Reject(k));
      tr' := tr' + [s2];
      assert s2.ops[k].phase == c.last;
    } else {
      CallStarts(p, c, s1.ops[k]);
    }
  }

  lemma ExchangeExtends(p: Platform, tr: seq<State>, calls: seq<Call>, k: nat) returns (tr': seq<State>)
    requires IsTrace(p, tr) && AllInStep(p, Last(tr).ops, calls)
    requires k < |calls| && calls[k].xs != [] && Shared(calls[k].xs[0].s) == Shared(Last(tr))
    ensures IsTrace(p, tr') && tr <= tr' && AllInStep(p, Last(tr').ops, calls[k := calls[k].(xs := calls[k].xs[1..])])
    ensures Shared(Last(tr')) == Shared(Recorded(p, calls[k].xs[0]))
    ensures InsertOnly(tr) ==> InsertOnly(tr')
  {
    var s, c := Last(tr), calls[k];
    var x := c.xs[0];
    var a := StepOf(c.q, x, c.id, c.salt);
    assert InStep(p, s.ops[k], c);
    assert StateAt(x, s.ops[k]) == s.(ops := [s.ops[k]]);
    StepIsLocal(p, s, k, a);
    TraceSnoc(p, tr, Renumbered(a, k));
    tr' := tr + [Apply(p, s, Renumbered(a, k))];
    assert Shared(Last(tr')) == Shared(Apply(p, StateAt(x, s.ops[k]), a));
  }

  lemma WorldExtends(p: Platform, tr: seq<State>, a: Step)
    requires IsTrace(p, tr) && IsWorld(a) && Enabled(p, Shared(Last(tr)), a)
    ensures Enabled(p, Last(tr), a) && IsTrace(p, tr + [Apply(p, Last(tr), a)])
    ensures Apply(p, Last(tr), a).ops == Last(tr).ops
    ensures Shared(Apply(p, Last(tr), a)) == Apply(p, Shared(Last(tr)), a)
    ensures InsertOnly(tr) && !a.External? ==> InsertOnly(tr + [Apply(p, Last(tr), a)])
  {
    assert Enabled(p, Last(tr), a);
    TraceSnoc(p, tr, a);
  }

  ghost predicate NoOutsider(events: seq<Event>) {
    forall e :: e in events ==> !(e.World? && e.step.External?)
  }

  /** However calls are woven together, with each other and with failures, expiry,
      damage and time, there is a run of the interleaved model that they follow. */
  lemma {:induction false} WovenIsTrace(p: Platform, tr: seq<State>, calls: seq<Call>, events: seq<Event>)
      returns (tr': seq<State>)
    requires IsTrace(p, tr) && AllInStep(p, Last(tr).ops, calls) && Woven(p, Shared(Last(tr)), calls, events)
    ensures IsTrace(p, tr') && tr <= tr' && AllInStep(p, Last(tr').ops, CallsAfter(calls, events))
    ensures InsertOnly(tr) && NoOutsider(events) ==> InsertOnly(tr')
    decreases |events|
  {
    tr' := tr;
    if events != [] {
      match events[0] {
        case Begin(c) =>
          tr' := BeginExtends(p, tr, calls, c);
          tr' := WovenIsTrace(p, tr', calls + [c], events[1..]);
        case Exchanges(k) =>
          tr' := ExchangeExtends(p, tr, calls, k);
          tr' := WovenIsTrace(p, tr', calls[k := calls[k].(xs := calls[k].xs[1..])], events[1..]);
        case World(a) =>
          WorldExtends(p, tr, a);
          tr' := WovenIsTrace(p, tr + [Apply(p, Last(tr), a)], calls, events[1..]);
      }
    }
  }

  /** So every weaving of calls of the services' code is a run, in which each finished
      call is a finished operation with the same request and the same result. */
  lemma WovenCallsAreRun(p: Platform, s: State, events: seq<Event>) returns (tr: seq<State>)
    requires Init(s) && Woven(p, s, [], events)
    ensures IsTrace(p, tr) && tr[0] == s && (NoOutsider(events) ==> InsertOnly(tr))
    ensures var calls := CallsAfter([], events);
      && |Last(tr).ops| == |calls|
      && forall k :: 0 <= k < |calls| ==>
           Last(tr).ops[k].req == calls[k].q && (calls[k].xs == [] ==> Last(tr).ops[k].phase == calls[k].last)
  {
    assert Shared(Last([s])) == s;
    tr := WovenIsTrace(p, [s], [], events);
    var calls := CallsAfter([], events);
    forall k | 0 <= k < |calls|
      ensures Last(tr).ops[k].req == calls[k].q && (calls[k].xs == [] ==> Last(tr).ops[k].phase == calls[k].last)
    {
      assert InStep(p, Last(tr).ops[k], calls[k]);
    }
  }

  predicate RegisteredCall(c: Call) {
    c.q.Register? && c.xs == [] && c.last.Done? && c.last.response.Response? && c.last.response.code == SUCCESS
  }

  /** One theorem carried over: of any weaving of Register calls as they are written,
      at most one succeeds for a phone number. */
  lemma OneRegisterCallPerPhone(p: Platform, s: State, events: seq<Event>, j: nat, k: nat)
    requires Sound(p) && Init(s) && Woven(p, s, [], events) && NoOutsider(events)
    requires var calls := CallsAfter([], events);
      && j < |calls| && k < |calls| && RegisteredCall(calls[j]) && RegisteredCall(calls[k])
      && Fit(CString(calls[j].q.phone), 20) == Fit(CString(calls[k].q.phone), 20)
    ensures j == k
  {
    var tr := WovenCallsAreRun(p, s, events);
    OneRegistrationPerPhone(p, tr, j, k);
  }
}
