/** Registration over any run in which rows are only inserted: uniqueness despite
    the gap between check and insert, and the login that a registration promises. */
module Registration {
  import opened Seqs
  import opened ServiceModel
  import opened Users
  import opened Accounts
  import opened CacheCoherence

  predicate Registered(op: Op) {
    && op.req.Register? && op.phase.Done?
    && op.phase.response.Response? && op.phase.response.code == SUCCESS
  }

  function NewId(op: Op): string
    requires Registered(op)
  {
    op.phase.response.userId
  }

  /** The row a successful registration promises. */
  predicate RowFor(p: Platform, q: Request, id: string, r: Row)
    requires q.Register?
  {
    && p.showUuid(r.id) == id
    && Fit(CString(q.phone), 20) == Some(r.phone)
    && Fit(CString(q.username), 64) == r.username && r.username.Some?
    && r.pwdHash == p.digest(q.password + r.salt)
    && r.email == Some("") && r.avatar == Some("") && r.status == 0 && r.deletedAt.None?
  }

  ghost predicate HasRow(p: Platform, table: seq<Row>, op: Op) {
    Registered(op) ==> exists i :: 0 <= i < |table| && RowFor(p, op.req, NewId(op), table[i])
  }

  ghost predicate RegInv(p: Platform, s: State) {
    && UniqueKeys(s.table)
    && (forall k :: 0 <= k < |s.ops| ==> HasRow(p, s.table, s.ops[k]))
    && (forall j, k :: 0 <= j < k < |s.ops| && Registered(s.ops[j]) && Registered(s.ops[k]) ==>
          NewId(s.ops[j]) != NewId(s.ops[k]))
  }

  lemma InsertedRow(p: Platform, q: Request, id: nat, salt: string, now: nat)
    requires Sound(p) && q.Register? && IsSalt(salt) && RowOf(p, NewUser(p, q, id, salt), now).Some?
    ensures RowFor(p, q, p.showUuid(id), RowOf(p, NewUser(p, q, id, salt), now).value)
  {
    CStringIsPrefix(p.showUuid(id));
    CStringIsPrefix(salt);
    CStringIsPrefix(p.digest(q.password + salt));
  }

  lemma RowStays(p: Platform, table: seq<Row>, table': seq<Row>, op: Op)
    requires HasRow(p, table, op) && table <= table'
    ensures HasRow(p, table', op)
  {
    if Registered(op) {
      var i :| 0 <= i < |table| && RowFor(p, op.req, NewId(op), table[i]);
      assert table'[i] == table[i];
    }
  }

  lemma InsertKeepsRegInv(p: Platform, s: State, a: Step)
    requires Sound(p) && RegInv(p, s) && Enabled(p, s, a) && a.Insert?
    ensures RegInv(p, Apply(p, s, a))
  {
    var s', k := Apply(p, s, a), a.op;
    var q := s.ops[k].req;
    forall j | 0 <= j < |s.ops| && j != k
      ensures HasRow(p, s'.table, s'.ops[j])
    {
      RowStays(p, s.table, s'.table, s.ops[j]);
    }
    if Registered(s'.ops[k]) {
      InsertedRow(p, q, a.id, a.salt, s.time);
      var row := s'.table[|s.table|];
      assert RowFor(p, q, NewId(s'.ops[k]), row);
      forall j | 0 <= j < |s.ops| && j != k && Registered(s.ops[j])
        ensures NewId(s.ops[j]) != NewId(s'.ops[k])
      {
        var i :| 0 <= i < |s.table| && RowFor(p, s.ops[j].req, NewId(s.ops[j]), s.table[i]);
        assert p.parseUuid(p.showUuid(s.table[i].id)) == Some(s.table[i].id);
        assert p.parseUuid(p.showUuid(row.id)) == Some(row.id);
        assert !Clash(s.table[i], row);
      }
    }
  }

  lemma StepKeepsRegInv(p: Platform, s: State, a: Step)
    requires Sound(p) && RegInv(p, s) && Enabled(p, s, a) && s.table <= Apply(p, s, a).table
    ensures RegInv(p, Apply(p, s, a))
  {
    var s' := Apply(p, s, a);
    if a.Insert? {
      InsertKeepsRegInv(p, s, a);
    } else {
      forall k | 0 <= k < |s'.ops|
        ensures HasRow(p, s'.table, s'.ops[k])
        ensures Registered(s'.ops[k]) ==> k < |s.ops| && s.ops[k] == s'.ops[k]
      {
        if k < |s.ops| {
          RowStays(p, s.table, s'.table, s.ops[k]);
        }
      }
    }
  }

  lemma {:induction false} RunsKeepRegInv(p: Platform, tr: seq<State>, i: nat)
    requires Sound(p) && IsTrace(p, tr) && InsertOnly(tr) && i < |tr|
    ensures RegInv(p, tr[i])
  {
    if i > 0 {
      RunsKeepRegInv(p, tr, i - 1);
      assert Next(p, tr[i - 1], tr[i]);
      var a :| Enabled(p, tr[i - 1], a) && tr[i] == Apply(p, tr[i - 1], a);
      StepKeepsRegInv(p, tr[i - 1], a);
    }
  }

  lemma {:induction false} UniqueKeysKept(p: Platform, tr: seq<State>, i: nat)
    requires IsTrace(p, tr) && i < |tr|
    ensures UniqueKeys(tr[i].table)
  {
    if i > 0 {
      UniqueKeysKept(p, tr, i - 1);
      assert Next(p, tr[i - 1], tr[i]);
    }
  }

  /** The table's three constraints hold in every reachable state, even with rows
      changed from outside: no two rows have the same id, the same phone number, or the
      same email unless it is empty. */
  lemma KeysStayUnique(p: Platform, tr: seq<State>, m: nat)
    requires IsTrace(p, tr) && m < |tr|
    ensures forall i, j :: 0 <= i < j < |tr[m].table| ==>
      var r, t := tr[m].table[i], tr[m].table[j];
      r.id != t.id && r.phone != t.phone && !(r.email.Some? && t.email == r.email && r.email != Some(""))
    ensures UniqueKeys(tr[m].table)
  {
    UniqueKeysKept(p, tr, m);
    forall i, j | 0 <= i < j < |tr[m].table|
      ensures var r, t := tr[m].table[i], tr[m].table[j];
        r.id != t.id && r.phone != t.phone && !(r.email.Some? && t.email == r.email && r.email != Some(""))
    {
      assert !Clash(tr[m].table[i], tr[m].table[j]);
    }
  }

  /** Every registration that reported success has its row, with the id it reported. */
  lemma SuccessHasItsRow(p: Platform, tr: seq<State>, k: nat) returns (i: nat)
    requires Sound(p) && IsTrace(p, tr) && InsertOnly(tr) && k < |Last(tr).ops| && Registered(Last(tr).ops[k])
    ensures i < |Last(tr).table| && RowFor(p, Last(tr).ops[k].req, NewId(Last(tr).ops[k]), Last(tr).table[i])
  {
    RunsKeepRegInv(p, tr, |tr| - 1);
    assert HasRow(p, Last(tr).table, Last(tr).ops[k]);
    i :| 0 <= i < |Last(tr).table| && RowFor(p, Last(tr).ops[k].req, NewId(Last(tr).ops[k]), Last(tr).table[i]);
  }

  /** However many registrations race between their check and their insert, at
      most one succeeds for a phone number, and no two report the same id. */
  lemma OneRegistrationPerPhone(p: Platform, tr: seq<State>, j: nat, k: nat)
    requires Sound(p) && IsTrace(p, tr) && InsertOnly(tr)
    requires j < |Last(tr).ops| && k < |Last(tr).ops|
    requires Registered(Last(tr).ops[j]) && Registered(Last(tr).ops[k])
    requires Fit(CString(Last(tr).ops[j].req.phone), 20) == Fit(CString(Last(tr).ops[k].req.phone), 20)
          || NewId(Last(tr).ops[j]) == NewId(Last(tr).ops[k])
    ensures j == k
  {
    RunsKeepRegInv(p, tr, |tr| - 1);
    var s := Last(tr);
    var i := SuccessHasItsRow(p, tr, j);
    var i' := SuccessHasItsRow(p, tr, k);
    assert i < i' ==> !Clash(s.table[i], s.table[i']);
    assert i' < i ==> !Clash(s.table[i'], s.table[i]);
  }

  lemma {:induction false} SelectUnique(table: seq<Row>, i: nat)
    requires UniqueKeys(table) && i < |table| && table[i].deletedAt.None?
    ensures SelectById(table, table[i].id) == Some(table[i])
  {
    if i > 0 {
      assert !Clash(table[0], table[i]);
      assert forall j, k :: 0 <= j < k < |table[1..]| ==>
        table[1..][j] == table[j + 1] && table[1..][k] == table[k + 1];
      SelectUnique(table[1..], i - 1);
    }
  }

  lemma RegisteredIsFound(p: Platform, tr: seq<State>, m: nat, k: nat) returns (u: User)
    requires Sound(p) && IsTrace(p, tr) && InsertOnly(tr) && m < |tr| && k < |tr[m].ops| && Registered(tr[m].ops[k])
    ensures FindById(p, tr[m].table, NewId(tr[m].ops[k])) == FoundUser(u)
    ensures u.id == NewId(tr[m].ops[k]) && VerifyPassword(p, tr[m].ops[k].req.password, u)
  {
    var s, op := tr[m], tr[m].ops[k];
    RunsKeepRegInv(p, tr, m);
    assert HasRow(p, s.table, op);
    var i :| 0 <= i < |s.table| && RowFor(p, op.req, NewId(op), s.table[i]);
    CStringIsPrefix(NewId(op));
    SelectUnique(s.table, i);
    u := MapRowToUser(p, s.table[i]);
  }

  /** Once a registration has succeeded, every later password login with its id and
      password succeeds with that id, whether served from the cache or from the
      database and with any other operations interleaved, unless the database
      fails. */
  lemma RegisterThenLogin(p: Platform, tr: seq<State>, m: nat, k: nat, l: nat)
    requires Sound(p) && IsTrace(p, tr) && InsertOnly(tr)
    requires m < |tr| && k < |tr[m].ops| && Registered(tr[m].ops[k])
    requires l < |Last(tr).ops| && Last(tr).ops[l].phase.Done? && Last(tr).ops[l].begun >= m
    requires Last(tr).ops[l].req == LoginByPassword(NewId(tr[m].ops[k]), tr[m].ops[k].req.password)
    ensures var done := Last(tr).ops[l].phase;
      || done.response == Response(SUCCESS, NewId(tr[m].ops[k]), None)
      || done == Done(Plain(INTERNAL_ERROR), Some(FetchFailed(OtherFailure)))
      || done == Done(Exception, Some(FetchThrew))
  {
    OpsOk(p, tr);
    var op := Last(tr).ops[l];
    assert OpOk(p, tr, op);
    var id := NewId(tr[m].ops[k]);
    var u := RegisteredIsFound(p, tr, m, k);
    var fetch := op.phase.fetch.value;
    match fetch
    case Fetched(user) =>
      var at := GetUserByIdLinearizable(p, tr, l, op.phase.response, user);
      FoundStaysFound(p, tr, m, at, id);
    case FetchFailed(InvalidText) =>
      FoundStaysFound(p, tr, m, op.at, id);
    case FetchFailed(OtherFailure) =>
    case FetchThrew =>
  }
}
