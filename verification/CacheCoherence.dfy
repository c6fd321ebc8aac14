/** What the cache and the operations hold, on every run of the account flows:
    evidence for each value in terms of earlier states, and from it the
    linearizability of GetUserById, bounded staleness and code freshness. */
module CacheCoherence {
  import opened Seqs
  import opened ServiceModel
  import opened Users
  import opened Keyspace
  import opened Accounts

  /*------------------------------ Runs ------------------------------*/

  lemma PrefixIsTrace(p: Platform, tr: seq<State>, n: nat)
    requires IsTrace(p, tr) && 0 < n <= |tr|
    ensures IsTrace(p, tr[..n])
    ensures InsertOnly(tr) ==> InsertOnly(tr[..n])
  {
  }

  lemma {:induction false} ClockAndTime(p: Platform, tr: seq<State>, i: nat, j: nat)
    requires IsTrace(p, tr) && i <= j < |tr|
    ensures tr[i].clock == i && tr[j].clock == j && tr[i].time <= tr[j].time
    decreases j
  {
    if j > 0 {
      ClockAndTime(p, tr, if i < j then i else i - 1, j - 1);
      assert Next(p, tr[j - 1], tr[j]);
    }
  }

  /** A run is a shorter run and one step. */
  lemma LastStep(p: Platform, tr: seq<State>) returns (pre: seq<State>, a: Step)
    requires IsTrace(p, tr) && |tr| > 1
    ensures |pre| == |tr| - 1 && IsTrace(p, pre) && tr == pre + [Last(tr)]
    ensures Last(pre).clock == |pre| - 1 && Enabled(p, Last(pre), a) && Last(tr) == Apply(p, Last(pre), a)
  {
    var n := |tr| - 1;
    pre := tr[..n];
    PrefixIsTrace(p, tr, n);
    ClockAndTime(p, tr, n - 1, n);
    assert Next(p, tr[n - 1], tr[n]);
    a :| Enabled(p, tr[n - 1], a) && tr[n] == Apply(p, tr[n - 1], a);
  }

  lemma OpsStep(p: Platform, s: State, s': State, k: nat)
    requires Next(p, s, s') && k < |s.ops|
    ensures k < |s'.ops| && s'.ops[k].req == s.ops[k].req && s'.ops[k].begun == s.ops[k].begun
    ensures s.ops[k].phase.Done? ==> s'.ops[k] == s.ops[k]
  {
  }

  /** Operations are never dropped, and keep their request and their start. */
  lemma {:induction false} OpsPersist(p: Platform, tr: seq<State>, i: nat, j: nat, k: nat)
    requires IsTrace(p, tr) && i <= j < |tr| && k < |tr[i].ops|
    ensures k < |tr[j].ops| && tr[j].ops[k].req == tr[i].ops[k].req && tr[j].ops[k].begun == tr[i].ops[k].begun
    ensures tr[i].ops[k].phase.Done? ==> tr[j].ops[k] == tr[i].ops[k]
    decreases j
  {
    if i < j {
      OpsPersist(p, tr, i, j - 1, k);
      OpsStep(p, tr[j - 1], tr[j], k);
    }
  }

  /*------------------------------ Evidence of the operations ------------------------------*/

  /** The operation read the code it presented, live, at step `at`. */
  ghost predicate CodeSeen(tr: seq<State>, op: Op) {
    && (op.req.LoginByCode? || op.req.Register?) && op.at < |tr|
    && var s := tr[op.at];
       var entry := RedisGet(s.redis, s.time, CodeKeyOf(op.req));
       entry.Some? && entry.value.value == op.req.code
  }

  /** What GetUserById returned was read from the database at step `at`, or was a
      live cache entry then. */
  ghost predicate UserSeen(p: Platform, tr: seq<State>, op: Op, result: Option<User>) {
    && UsesGetUserById(op.req) && op.at < |tr|
    && var s := tr[op.at];
       || FindById(p, s.table, op.req.id) == (if result.None? then NotFound else FoundUser(result.value))
       || HitAt(p, s, op.req.id, result)
  }

  ghost predicate HitAt(p: Platform, s: State, id: string, result: Option<User>) {
    var entry := RedisGet(s.redis, s.time, UserKey(id));
    entry.Some? && result.Some? && Decode(p, entry.value.value) == result
  }

  ghost predicate OpOk(p: Platform, tr: seq<State>, op: Op) {
    && op.begun <= op.at < |tr| - 1
    && match op.phase
       case Filling(user) =>
         UsesGetUserById(op.req) && FindById(p, tr[op.at].table, op.req.id) == FoundUser(user)
       case CodeOk => CodeSeen(tr, op)
       case Vacant => CodeSeen(tr, op) && op.req.Register?
       case Done(response, Some(f)) =>
         && UsesGetUserById(op.req) && response == Conclude(p, op.req, f)
         && (f.Fetched? ==> UserSeen(p, tr, op, f.user))
         && (f == FetchFailed(InvalidText) ==> FindById(p, tr[op.at].table, op.req.id).BadId?)
       case Done(response, None) =>
         && !UsesGetUserById(op.req)
         && (response.Response? && response.code == SUCCESS && !op.req.SendCode? ==> CodeSeen(tr, op))
       case _ => true
  }

  lemma OpStays(p: Platform, tr: seq<State>, s: State, op: Op)
    requires OpOk(p, tr, op)
    ensures OpOk(p, tr + [s], op)
  {
    assert (tr + [s])[op.at] == tr[op.at];
  }

  lemma GetUserStep(p: Platform, tr: seq<State>, s': State, a: Step)
    requires tr != [] && Last(tr).clock == |tr| - 1 && Enabled(p, Last(tr), a) && s' == Apply(p, Last(tr), a)
    requires a.CacheRead? || a.DbRead? || a.CacheFill?
    requires OpOk(p, tr, Last(tr).ops[a.op])
    ensures OpOk(p, tr + [s'], s'.ops[a.op])
  {
    var s, n, op, op' := Last(tr), |tr| - 1, Last(tr).ops[a.op], s'.ops[a.op];
    assert (tr + [s'])[n] == s && (tr + [s'])[op.at] == tr[op.at];
    match a
    case CacheRead(k, fails) =>
      if op'.phase.Done? {
        assert HitAt(p, s, op.req.id, op'.phase.fetch.value.user);
      }
    case DbRead(k, fault) =>
    case CacheFill(k, applied) =>
  }

  lemma CodeStep(p: Platform, tr: seq<State>, s': State, a: Step)
    requires tr != [] && Last(tr).clock == |tr| - 1 && Enabled(p, Last(tr), a) && s' == Apply(p, Last(tr), a)
    requires a.CodeRead? || a.PhoneRead? || a.Insert? || a.CodeSave? || a.Reject?
    requires OpOk(p, tr, Last(tr).ops[a.op])
    ensures OpOk(p, tr + [s'], s'.ops[a.op])
  {
    var s, n, op := Last(tr), |tr| - 1, Last(tr).ops[a.op];
    assert (tr + [s'])[n] == s && (tr + [s'])[op.at] == tr[op.at];
  }

  lemma OpAfterStep(p: Platform, tr: seq<State>, s': State, a: Step, k: nat)
    requires tr != [] && Last(tr).clock == |tr| - 1 && Enabled(p, Last(tr), a) && s' == Apply(p, Last(tr), a)
    requires k < |s'.ops| && (k < |Last(tr).ops| ==> OpOk(p, tr, Last(tr).ops[k]))
    ensures OpOk(p, tr + [s'], s'.ops[k])
  {
    if k < |Last(tr).ops| && s'.ops[k] == Last(tr).ops[k] {
      OpStays(p, tr, s', s'.ops[k]);
    } else if a.CacheRead? || a.DbRead? || a.CacheFill? {
      GetUserStep(p, tr, s', a);
    } else if !a.Invoke? {
      CodeStep(p, tr, s', a);
    }
  }

  ghost predicate AllOpsOk(p: Platform, tr: seq<State>)
    requires tr != []
  {
    forall k :: 0 <= k < |Last(tr).ops| ==> OpOk(p, tr, Last(tr).ops[k])
  }

  lemma OpsAfterStep(p: Platform, tr: seq<State>, s': State, a: Step)
    requires tr != [] && Last(tr).clock == |tr| - 1 && Enabled(p, Last(tr), a) && s' == Apply(p, Last(tr), a)
    requires AllOpsOk(p, tr)
    ensures AllOpsOk(p, tr + [s'])
  {
    forall k | 0 <= k < |s'.ops|
      ensures OpOk(p, tr + [s'], s'.ops[k])
    {
      OpAfterStep(p, tr, s', a, k);
    }
  }

  lemma {:induction false} OpsOk(p: Platform, tr: seq<State>)
    requires IsTrace(p, tr)
    ensures forall k :: 0 <= k < |Last(tr).ops| ==> OpOk(p, tr, Last(tr).ops[k])
    decreases |tr|
  {
    if |tr| > 1 {
      var pre, a := LastStep(p, tr);
      OpsOk(p, pre);
      OpsAfterStep(p, pre, Last(tr), a);
      assert AllOpsOk(p, tr);
    }
  }

  /** The exchange that decided an operation came before the operation ended. */
  lemma AtBeforeDone(p: Platform, tr: seq<State>, k: nat, j: nat)
    requires IsTrace(p, tr) && j < |tr| && k < |tr[j].ops| && tr[j].ops[k].phase.Done?
    ensures k < |Last(tr).ops| && Last(tr).ops[k].at < j
  {
    OpsPersist(p, tr, j, |tr| - 1, k);
    var pre := tr[..j + 1];
    PrefixIsTrace(p, tr, j + 1);
    OpsOk(p, pre);
    assert Last(pre) == tr[j] && OpOk(p, pre, Last(pre).ops[k]);
  }

  predicate CodeAccepted(op: Op) {
    && (op.req.LoginByCode? || op.req.Register?)
    && (op.phase.CodeOk? || op.phase.Vacant?
        || (op.phase.Done? && op.phase.response.Response? && op.phase.response.code == SUCCESS))
  }

  /** The step at which the operation read its code and accepted it. */
  ghost predicate AcceptsCodeAt(tr: seq<State>, k: nat, m: nat) {
    && m + 1 < |tr| && k < |tr[m].ops| && k < |tr[m + 1].ops|
    && tr[m].ops[k].phase == Invoked && tr[m + 1].ops[k].phase == CodeOk
  }

  lemma AcceptanceStep(p: Platform, s: State, s': State, k: nat)
    requires Next(p, s, s') && k < |s'.ops| && CodeAccepted(s'.ops[k])
    ensures k < |s.ops|
    ensures if CodeAccepted(s.ops[k]) then s.ops[k].at == s'.ops[k].at
            else s.ops[k].phase == Invoked && s'.ops[k].phase == CodeOk && s'.ops[k].at == s.clock
  {
  }

  lemma AcceptedSince(p: Platform, tr: seq<State>, n: nat, k: nat)
    requires IsTrace(p, tr) && 0 < n < |tr| && k < |tr[n].ops| && CodeAccepted(tr[n].ops[k])
    ensures k < |tr[n - 1].ops|
    ensures if CodeAccepted(tr[n - 1].ops[k]) then tr[n - 1].ops[k].at == tr[n].ops[k].at
            else tr[n].ops[k].at == n - 1 && AcceptsCodeAt(tr, k, n - 1)
  {
    ClockAndTime(p, tr, n - 1, n);
    AcceptanceStep(p, tr[n - 1], tr[n], k);
  }

  lemma FirstHasNone(p: Platform, tr: seq<State>)
    requires IsTrace(p, tr)
    ensures tr[0].ops == []
  {
  }

  /** It is step `at`, whatever waits followed it. */
  lemma {:induction false} CodeReadAt(p: Platform, tr: seq<State>, n: nat, k: nat)
    requires IsTrace(p, tr) && n < |tr| && k < |tr[n].ops| && CodeAccepted(tr[n].ops[k])
    ensures AcceptsCodeAt(tr, k, tr[n].ops[k].at)
  {
    if n == 0 {
      FirstHasNone(p, tr);
    } else {
      AcceptedSince(p, tr, n, k);
      if CodeAccepted(tr[n - 1].ops[k]) {
        CodeReadAt(p, tr, n - 1, k);
      }
    }
  }

  /*------------------------------ Evidence of the stored values ------------------------------*/

  /** The last code stored for a usage and phone number. */
  ghost function LastSaved(saved: seq<Saved>, usage: Usage, phone: string): Option<Saved> {
    if saved == [] then None
    else
      var x := saved[|saved| - 1];
      if x.usage == usage && x.phone == phone then Some(x) else LastSaved(saved[..|saved| - 1], usage, phone)
  }

  /** This very entry was put under the key by the step between two states. */
  ghost predicate StoredAt(before: State, after: State, key: string, e: Entry) {
    key in after.redis && after.redis[key] == e && (key in before.redis ==> before.redis[key] != e)
  }

  ghost predicate EntryOk(p: Platform, tr: seq<State>, key: string, e: Entry)
    requires tr != []
  {
    match e.origin
    case FromUser(id, src, filledAt) =>
      && key == UserKey(id) && src <= filledAt < |tr| - 1
      && StoredAt(tr[filledAt], tr[filledAt + 1], key, e)
      && var found := FindById(p, tr[src].table, id);
         found.FoundUser? && e.value == p.dump(ToJson(found.user)) && e.expires == tr[filledAt].time + CACHE_SECONDS
    case FromCode(usage, phone) =>
      && key == CodeKey(usage, phone)
      && var saved := LastSaved(Last(tr).saved, usage, phone);
         saved.Some? && saved.value.code == e.value && e.expires == saved.value.time + CODE_SECONDS
    case Damage =>
      USER_PREFIX <= key && Decode(p, e.value).None?
  }

  /** An entry left alone stays justified: a code saved meanwhile went to its own key. */
  lemma EntryStays(p: Platform, tr: seq<State>, s': State, a: Step, key: string)
    requires tr != [] && Enabled(p, Last(tr), a) && s' == Apply(p, Last(tr), a)
    requires key in s'.redis && key in Last(tr).redis && s'.redis[key] == Last(tr).redis[key]
    requires EntryOk(p, tr, key, s'.redis[key])
    requires a.CodeSave? && a.applied ==>
      key != CodeKey(UsageOf(Last(tr).ops[a.op].req.usage).value, Last(tr).ops[a.op].req.phone)
    ensures EntryOk(p, tr + [s'], key, s'.redis[key])
  {
    var e, s := s'.redis[key], Last(tr);
    match e.origin
    case FromUser(id, src, filledAt) =>
      assert (tr + [s'])[src] == tr[src];
      assert (tr + [s'])[filledAt] == tr[filledAt] && (tr + [s'])[filledAt + 1] == tr[filledAt + 1];
    case FromCode(usage, phone) =>
      if a.CodeSave? && a.applied {
        assert s'.saved[..|s'.saved| - 1] == s.saved;
      } else {
        assert s'.saved == s.saved;
      }
    case Damage =>
  }

  /** An entry just written is justified. */
  lemma EntryWritten(p: Platform, tr: seq<State>, s': State, a: Step, key: string)
    requires tr != [] && Last(tr).clock == |tr| - 1 && Enabled(p, Last(tr), a) && s' == Apply(p, Last(tr), a)
    requires (a.CacheFill? && a.applied && key == UserKey(Last(tr).ops[a.op].req.id))
          || (a.CodeSave? && a.applied
              && key == CodeKey(UsageOf(Last(tr).ops[a.op].req.usage).value, Last(tr).ops[a.op].req.phone))
          || (a.Corrupt? && key == a.key)
    requires a.CacheFill? ==> OpOk(p, tr, Last(tr).ops[a.op])
    requires a.CacheFill? && key in Last(tr).redis ==> EntryOk(p, tr, key, Last(tr).redis[key])
    ensures key in s'.redis && EntryOk(p, tr + [s'], key, s'.redis[key])
  {
    var s, n := Last(tr), |tr| - 1;
    if a.CacheFill? {
      assert (tr + [s'])[s.ops[a.op].at] == tr[s.ops[a.op].at] && (tr + [s'])[n] == s && (tr + [s'])[n + 1] == s';
    }
  }

  lemma EntryAfterStep(p: Platform, tr: seq<State>, s': State, a: Step, key: string)
    requires tr != [] && Last(tr).clock == |tr| - 1 && Enabled(p, Last(tr), a) && s' == Apply(p, Last(tr), a)
    requires key in s'.redis && (key in Last(tr).redis ==> EntryOk(p, tr, key, Last(tr).redis[key]))
    requires a.CacheFill? ==> OpOk(p, tr, Last(tr).ops[a.op])
    ensures EntryOk(p, tr + [s'], key, s'.redis[key])
  {
    var s := Last(tr);
    if (a.CacheFill? && a.applied && key == UserKey(s.ops[a.op].req.id))
       || (a.CodeSave? && a.applied && key == CodeKey(UsageOf(s.ops[a.op].req.usage).value, s.ops[a.op].req.phone))
       || (a.Corrupt? && key == a.key) {
      EntryWritten(p, tr, s', a, key);
    } else {
      EntryStays(p, tr, s', a, key);
    }
  }

  lemma {:induction false} EntriesOk(p: Platform, tr: seq<State>)
    requires IsTrace(p, tr)
    ensures forall key :: key in Last(tr).redis ==> EntryOk(p, tr, key, Last(tr).redis[key])
    decreases |tr|
  {
    if |tr| > 1 {
      var pre, a := LastStep(p, tr);
      EntriesOk(p, pre);
      OpsOk(p, pre);
      forall key | key in Last(tr).redis
        ensures EntryOk(p, tr, key, Last(tr).redis[key])
      {
        EntryAfterStep(p, pre, Last(tr), a, key);
      }
    }
  }

  /*------------------------------ Bounded staleness ------------------------------*/

  /** Step `filledAt` put a new entry under the id's key, and its user is, up to
      NULL, what the database held for the id at step `src`. */
  ghost predicate FilledFrom(p: Platform, tr: seq<State>, id: string, src: nat, filledAt: nat, u: User) {
    && src <= filledAt < |tr| - 1
    && UserKey(id) in tr[filledAt + 1].redis
    && StoredAt(tr[filledAt], tr[filledAt + 1], UserKey(id), tr[filledAt + 1].redis[UserKey(id)])
    && Decode(p, tr[filledAt + 1].redis[UserKey(id)].value) == Some(u)
    && var found := FindById(p, tr[src].table, id);
       found.FoundUser? && u == Filled(found.user)
  }

  /** A hit, whatever has happened to the rows since, shows what the database held
      at some step `src`, as stored by a fill less than an hour before the hit. So
      the row was read later than the hit's time, minus an hour, minus the delay
      between that fill's read and its SET. */
  lemma BoundedStaleness(p: Platform, tr: seq<State>, m: nat, id: string, u: User) returns (src: nat, filledAt: nat)
    requires Sound(p) && IsTrace(p, tr) && m < |tr| && HitAt(p, tr[m], id, Some(u))
    ensures filledAt < m && FilledFrom(p, tr, id, src, filledAt, u)
    ensures tr[src].time > tr[m].time - CACHE_SECONDS - (tr[filledAt].time - tr[src].time)
  {
    var pre := tr[..m + 1];
    PrefixIsTrace(p, tr, m + 1);
    EntriesOk(p, pre);
    assert Last(pre) == tr[m];
    var e := tr[m].redis[UserKey(id)];
    assert EntryOk(p, pre, UserKey(id), e);
    match e.origin
    case FromUser(id', src', filledAt') =>
      KeysAreInjective(UserLogin, UserLogin, id, id');
      src, filledAt := src', filledAt';
      JsonRoundTrip(FindById(p, pre[src].table, id).user);
    case FromCode(usage, phone) =>
      KeysAreInjective(usage, usage, phone, id);
      assert false;
    case Damage =>
      assert false;
  }

  /*------------------------------ Linearizability ------------------------------*/

  lemma {:induction false} SelectGrows(table: seq<Row>, table': seq<Row>, id: nat)
    requires table <= table' && SelectById(table, id).Some?
    ensures SelectById(table', id) == SelectById(table, id)
  {
    if !(table[0].id == id && table[0].deletedAt.None?) {
      SelectGrows(table[1..], table'[1..], id);
    }
  }

  lemma {:induction false} TableGrows(tr: seq<State>, i: nat, j: nat)
    requires tr != [] && InsertOnly(tr) && i <= j < |tr|
    ensures tr[i].table <= tr[j].table
    decreases j
  {
    if i < j {
      TableGrows(tr, i, j - 1);
    }
  }

  /** A user once found is found unchanged ever after. */
  lemma FoundStaysFound(p: Platform, tr: seq<State>, i: nat, j: nat, id: string)
    requires tr != [] && InsertOnly(tr) && i <= j < |tr| && FindById(p, tr[i].table, id).FoundUser?
    ensures FindById(p, tr[j].table, id) == FindById(p, tr[i].table, id)
  {
    TableGrows(tr, i, j);
    SelectGrows(tr[i].table, tr[j].table, p.parseUuid(CString(id)).value);
  }

  /** The same answer, with NULL and the empty string taken as equal. */
  predicate SameUpToNull(result: Option<User>, found: Found) {
    match result
    case None => found.NotFound?
    case Some(u) => found.FoundUser? && Filled(u) == Filled(found.user)
  }

  /** GetUserById is linearizable: over any interleaving with other reads, fills,
      inserts, Redis failures, expiries and damaged entries, a result that is not
      an error is what the row lookup gives at an instant inside the call: the step of
      its deciding exchange, before any state in which the call has ended. */
  lemma GetUserByIdLinearizable(p: Platform, tr: seq<State>, k: nat, response: Response, result: Option<User>)
      returns (m: nat)
    requires Sound(p) && IsTrace(p, tr) && InsertOnly(tr)
    requires k < |Last(tr).ops| && Last(tr).ops[k].phase == Done(response, Some(Fetched(result)))
    ensures Last(tr).ops[k].begun <= m < |tr| && m == Last(tr).ops[k].at && UsesGetUserById(Last(tr).ops[k].req)
    ensures forall j :: 0 <= j < |tr| && k < |tr[j].ops| && tr[j].ops[k].phase.Done? ==> m < j
    ensures SameUpToNull(result, FindById(p, tr[m].table, Last(tr).ops[k].req.id))
  {
    OpsOk(p, tr);
    var op := Last(tr).ops[k];
    m := op.at;
    forall j | 0 <= j < |tr| && k < |tr[j].ops| && tr[j].ops[k].phase.Done?
      ensures m < j
    {
      AtBeforeDone(p, tr, k, j);
    }
    if HitAt(p, tr[m], op.req.id, result) {
      var src, filledAt := BoundedStaleness(p, tr, m, op.req.id, result.value);
      FoundStaysFound(p, tr, src, m, op.req.id);
    }
  }

  /*------------------------------ Code freshness ------------------------------*/

  /** A justified entry under a code's key is the last code saved for it. */
  lemma CodeEntry(p: Platform, tr: seq<State>, usage: Usage, phone: string, e: Entry)
    requires tr != [] && EntryOk(p, tr, CodeKey(usage, phone), e)
    ensures var saved := LastSaved(Last(tr).saved, usage, phone);
      saved.Some? && saved.value.code == e.value && e.expires == saved.value.time + CODE_SECONDS
  {
    match e.origin
    case FromUser(id, _, _) =>
      KeysAreInjective(usage, usage, phone, id);
      assert false;
    case FromCode(usage', phone') =>
      KeysAreInjective(usage, usage', phone, phone');
    case Damage =>
      KeysAreInjective(usage, usage, phone, "");
      assert false;
  }

  /** A successful login by code or registration presented the very code that, at the
      step at which it read and accepted it, was the last one stored for that exact
      usage and phone number, less than 300 seconds before. */
  lemma CodesAreFresh(p: Platform, tr: seq<State>, k: nat) returns (m: nat)
    requires Sound(p) && IsTrace(p, tr) && k < |Last(tr).ops|
    requires var op := Last(tr).ops[k];
      && (op.req.LoginByCode? || op.req.Register?)
      && op.phase.Done? && op.phase.response.Response? && op.phase.response.code == SUCCESS
    ensures var op := Last(tr).ops[k];
      && op.begun <= m == op.at && AcceptsCodeAt(tr, k, m)
      && var saved := LastSaved(tr[m].saved, CodeUsage(op.req), op.req.phone);
         saved.Some? && saved.value.code == op.req.code && tr[m].time < saved.value.time + CODE_SECONDS
  {
    OpsOk(p, tr);
    var op := Last(tr).ops[k];
    assert OpOk(p, tr, op);
    assert CodeSeen(tr, op);
    m := op.at;
    CodeReadAt(p, tr, |tr| - 1, k);
    var pre := tr[..m + 1];
    PrefixIsTrace(p, tr, m + 1);
    EntriesOk(p, pre);
    assert Last(pre) == tr[m];
    CodeEntry(p, pre, CodeUsage(op.req), op.req.phone, tr[m].redis[CodeKeyOf(op.req)]);
  }
}
