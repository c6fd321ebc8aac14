/** What the five calls answer, in terms of the table's rows, the stored codes and the
    literal codes of a response: for each exchange exactly, and for each finished call
    on every run. */
module Answers {
  import opened Seqs
  import opened ServiceModel
  import opened Users
  import opened Keyspace
  import opened Accounts
  import opened CacheCoherence
  import opened Registration

  /*------------------------------ Rows ------------------------------*/

  predicate PhoneAt(table: seq<Row>, i: nat, phone: string) {
    i < |table| && table[i].phone == phone && table[i].deletedAt.None?
  }

  predicate IdAt(table: seq<Row>, i: nat, id: nat) {
    i < |table| && table[i].id == id && table[i].deletedAt.None?
  }

  /** WHERE phone_number = $1 AND deleted_at IS NULL. */
  lemma {:induction false} SelectByPhoneFinds(table: seq<Row>, phone: string)
    ensures SelectByPhone(table, phone).None? ==> forall i: nat :: !PhoneAt(table, i, phone)
    ensures SelectByPhone(table, phone).Some? ==>
      exists i: nat :: PhoneAt(table, i, phone) && SelectByPhone(table, phone) == Some(table[i])
  {
    if table != [] {
      SelectByPhoneFinds(table[1..], phone);
      if PhoneAt(table, 0, phone) {
        assert SelectByPhone(table, phone) == Some(table[0]);
      } else if SelectByPhone(table[1..], phone).Some? {
        var i: nat :| PhoneAt(table[1..], i, phone) && SelectByPhone(table[1..], phone) == Some(table[1..][i]);
        assert PhoneAt(table, i + 1, phone);
      } else {
        forall i: nat
          ensures !PhoneAt(table, i, phone)
        {
          assert i > 0 ==> !PhoneAt(table[1..], i - 1, phone);
        }
      }
    }
  }

  /** WHERE id = $1 AND deleted_at IS NULL. */
  lemma {:induction false} SelectByIdFinds(table: seq<Row>, id: nat)
    ensures SelectById(table, id).None? ==> forall i: nat :: !IdAt(table, i, id)
    ensures SelectById(table, id).Some? ==>
      exists i: nat :: IdAt(table, i, id) && SelectById(table, id) == Some(table[i])
  {
    if table != [] {
      SelectByIdFinds(table[1..], id);
      if IdAt(table, 0, id) {
        assert SelectById(table, id) == Some(table[0]);
      } else if SelectById(table[1..], id).Some? {
        var i: nat :| IdAt(table[1..], i, id) && SelectById(table[1..], id) == Some(table[1..][i]);
        assert IdAt(table, i + 1, id);
      } else {
        forall i: nat
          ensures !IdAt(table, i, id)
        {
          assert i > 0 ==> !IdAt(table[1..], i - 1, id);
        }
      }
    }
  }

  /** The user of a row, column by column. */
  ghost predicate IsUserOf(p: Platform, u: User, r: Row) {
    && u.id == p.showUuid(r.id) && u.phone == r.phone && u.username == r.username && u.email == r.email
    && u.avatar == r.avatar && u.pwdHash == r.pwdHash && u.salt == r.salt && u.status == r.status
    && u.createdAt == r.createdAt && u.deletedAt.None?
  }

  /** What VARCHAR(n) keeps of a text: all of it, or all but spaces beyond n characters. */
  predicate Keeps(s: string, n: nat, t: string) {
    (|s| <= n && t == s) || (|s| > n && t == s[..n] && forall i :: n <= i < |s| ==> s[i] == ' ')
  }

  lemma FitKeeps(s: string, n: nat)
    ensures Fit(s, n).Some? ==> Keeps(s, n, Fit(s, n).value)
    ensures Fit(s, n).None? ==> forall t :: !Keeps(s, n, t)
    ensures forall t :: Keeps(s, n, t) ==> Fit(s, n) == Some(t)
  {
  }

  function OrBlank(x: Option<string>): string {
    match x
    case None => ""
    case Some(s) => s
  }

  /*------------------------------ One exchange ------------------------------*/

  function Code(code: int): Phase {
    Done(Response(code, "", None), None)
  }

  /** The text stored under a key is there and has not expired. */
  ghost predicate Live(s: State, key: string, value: string) {
    key in s.redis && s.time < s.redis[key].expires && s.redis[key].value == value
  }

  /** This value, and nothing else, was put under the key. */
  ghost predicate Stored(s: State, s': State, key: string, value: string, expires: nat) {
    && key in s'.redis && s'.redis[key].value == value && s'.redis[key].expires == expires
    && s'.redis == s.redis[key := s'.redis[key]]
  }

  /** LoginByCode and Register accept a code if and only if Redis answers and it is the
      live value under the key of their usage and phone number. */
  lemma CodeReadExactly(p: Platform, s: State, k: nat, fails: bool)
    requires Enabled(p, s, CodeRead(k, fails))
    ensures var q, ops := s.ops[k].req, Apply(p, s, CodeRead(k, fails)).ops;
      var key := (if q.LoginByCode? then "verify_code:login:" else "verify_code:register:") + q.phone;
      k < |ops| && ops[k].phase == if !fails && Live(s, key, q.code) then CodeOk else Code(3002)
  {
  }

  /** A phone lookup that fails, finds nobody, or finds a row with that number. */
  lemma PhoneReadExactly(p: Platform, s: State, k: nat, fault: Fault)
    requires Enabled(p, s, PhoneRead(k, fault))
    ensures var q, ops := s.ops[k].req, Apply(p, s, PhoneRead(k, fault)).ops;
      && k < |ops|
      && (fault == Throws ==> ops[k].phase == Done(Exception, None))
      && (fault == SqlFault ==> ops[k].phase == Code(1000))
      && (fault == NoFault && (forall i: nat :: !PhoneAt(s.table, i, CString(q.phone))) ==>
            ops[k].phase == if q.LoginByCode? then Code(2001) else if q.Register? then Vacant else Code(0))
      && (fault == NoFault && (exists i: nat :: PhoneAt(s.table, i, CString(q.phone))) ==>
            if q.LoginByCode? then
              exists i: nat :: PhoneAt(s.table, i, CString(q.phone))
                && ops[k].phase == Done(Response(0, p.showUuid(s.table[i].id), None), None)
            else ops[k].phase == if q.Register? then Code(2002) else MaySend)
  {
    var phone := CString(s.ops[k].req.phone);
    SelectByPhoneFinds(s.table, phone);
    if SelectByPhone(s.table, phone).Some? {
      var i: nat :| PhoneAt(s.table, i, phone) && SelectByPhone(s.table, phone) == Some(s.table[i]);
    }
  }

  /** Only the usages 1, 2 and 3 are known; codes have six digits and are stored under
      the key of their usage for 300 seconds, if Redis takes them. */
  lemma CodeSaveExactly(p: Platform, s: State, k: nat, code: string, applied: bool)
    requires Enabled(p, s, CodeSave(k, code, applied))
    ensures |code| == 6 && forall i :: 0 <= i < 6 ==> '0' <= code[i] <= '9'
    ensures var q, s' := s.ops[k].req, Apply(p, s, CodeSave(k, code, applied));
      && q.SendCode? && (q.usage == 1 || ((q.usage == 2 || q.usage == 3) && s.ops[k].phase == MaySend))
      && k < |s'.ops| && s'.ops[k].phase == Code(0)
      && var prefix := if q.usage == 1 then "verify_code:register:"
                       else if q.usage == 2 then "verify_code:login:" else "verify_code:reset_pwd:";
         && (applied ==> Stored(s, s', prefix + q.phone, code, s.time + 300))
         && (!applied ==> s'.redis == s.redis)
  {
  }

  /** SendCode refuses a usage if and only if it is none of the three. */
  lemma RejectExactly(p: Platform, s: State, k: nat)
    requires k < |s.ops| && s.ops[k].req.SendCode? && s.ops[k].phase == Invoked
    ensures Enabled(p, s, Reject(k)) <==> s.ops[k].req.usage !in {1, 2, 3}
    ensures Enabled(p, s, Reject(k)) ==> Apply(p, s, Reject(k)).ops == s.ops[k := s.ops[k].(phase := Code(1001))]
  {
  }

  /** The row that Register writes. */
  function NewRow(p: Platform, q: Request, id: nat, salt: string, phone: string, username: string, now: nat): Row
    requires q.Register?
  {
    Row(id, phone, Some(username), Some(""), p.digest(q.password + salt), salt, Some(""), 0, now, None)
  }

  /** The row that CreateUser writes, column by column: the id's value, and of each text
      what its column keeps up to the first NUL; absent fields become empty. */
  lemma RowOfExactly(p: Platform, u: User, now: int, r: Row)
    ensures RowOf(p, u, now) == Some(r) <==>
      && p.parseUuid(CString(u.id)) == Some(r.id)
      && Keeps(CString(u.phone), 20, r.phone)
      && r.username.Some? && Keeps(CString(OrBlank(u.username)), 64, r.username.value)
      && r.email.Some? && Keeps(CString(OrBlank(u.email)), 128, r.email.value)
      && Keeps(CString(u.pwdHash), 256, r.pwdHash)
      && Keeps(CString(u.salt), 64, r.salt)
      && r.avatar.Some? && Keeps(CString(OrBlank(u.avatar)), 512, r.avatar.value)
      && r.status == u.status && r.createdAt == now && r.deletedAt.None?
  {
    FitKeeps(CString(u.phone), 20);
    FitKeeps(CString(OrBlank(u.username)), 64);
    FitKeeps(CString(OrBlank(u.email)), 128);
    FitKeeps(CString(u.pwdHash), 256);
    FitKeeps(CString(u.salt), 64);
    FitKeeps(CString(OrBlank(u.avatar)), 512);
  }

  lemma NewRowIsWritten(p: Platform, q: Request, id: nat, salt: string, phone: string, username: string, now: nat)
    requires Sound(p) && q.Register? && IsSalt(salt)
    requires Keeps(CString(q.phone), 20, phone) && Keeps(CString(q.username), 64, username)
    ensures RowOf(p, NewUser(p, q, id, salt), now) == Some(NewRow(p, q, id, salt, phone, username, now))
  {
    CStringIsPrefix(p.showUuid(id));
    CStringIsPrefix(salt);
    CStringIsPrefix(p.digest(q.password + salt));
    RowOfExactly(p, NewUser(p, q, id, salt), now, NewRow(p, q, id, salt, phone, username, now));
  }

  /** An insert that meets no fault and whose values fit succeeds, with the new row in
      the table, if and only if no row has its id or its phone number; the third
      constraint never bites, since the new email is empty. */
  lemma InsertExactly(p: Platform, s: State, k: nat, id: nat, salt: string, applied: bool,
                      phone: string, username: string)
    requires Sound(p) && Enabled(p, s, Insert(k, id, salt, NoFault, applied))
    requires Keeps(CString(s.ops[k].req.phone), 20, phone) && Keeps(CString(s.ops[k].req.username), 64, username)
    ensures var s' := Apply(p, s, Insert(k, id, salt, NoFault, applied));
      && k < |s'.ops|
      && if forall i :: 0 <= i < |s.table| ==> s.table[i].id != id && s.table[i].phone != phone then
           && s'.ops[k].phase == Done(Response(0, p.showUuid(id), None), None)
           && s'.table == s.table + [NewRow(p, s.ops[k].req, id, salt, phone, username, s.time)]
         else
           s'.ops[k].phase == Code(1000) && s'.table == s.table
  {
    NewRowIsWritten(p, s.ops[k].req, id, salt, phone, username, s.time);
  }

  /** With any fault, or with values that do not fit, no registration is reported. Salts
      are sixteen bytes in upper-case hexadecimal. */
  lemma InsertFails(p: Platform, s: State, k: nat, id: nat, salt: string, fault: Fault, applied: bool)
    requires Enabled(p, s, Insert(k, id, salt, fault, applied))
    ensures |salt| == 32 && forall i :: 0 <= i < 32 ==> '0' <= salt[i] <= '9' || 'A' <= salt[i] <= 'F'
    ensures var ops := Apply(p, s, Insert(k, id, salt, fault, applied)).ops;
      && k < |ops|
      && (fault == Throws ==> ops[k].phase == Done(Exception, None))
      && (fault == SqlFault ==> ops[k].phase == Code(1000))
      && (fault == NoFault && (forall t :: !Keeps(CString(s.ops[k].req.phone), 20, t)) ==>
            ops[k].phase == Code(1000))
      && (fault == NoFault && (forall t :: !Keeps(CString(s.ops[k].req.username), 64, t)) ==>
            ops[k].phase == Code(1000))
  {
    FitKeeps(CString(s.ops[k].req.phone), 20);
    FitKeeps(CString(s.ops[k].req.username), 64);
  }

  /** The three constraints, for any row: its insert is admitted if and only if no row
      has the same id, the same phone number, or the same email unless it is empty. */
  lemma AdmittedExactly(table: seq<Row>, r: Row)
    ensures Admits(table, r) <==> forall i :: 0 <= i < |table| ==>
      && table[i].id != r.id && table[i].phone != r.phone
      && !(table[i].email.Some? && r.email == table[i].email && table[i].email != Some(""))
  {
  }

  /** The answer that a user gives rise to: GetUserInfo's public fields, or the outcome
      of the password's digest. */
  ghost predicate Answers(p: Platform, q: Request, u: User, r: Response) {
    match q
    case GetUserInfo(_) =>
      r == Response(0, u.id, Some(UserInfo(u.id, OrBlank(u.username), OrBlank(u.email), OrBlank(u.avatar), u.phone)))
    case LoginByPassword(_, password) =>
      r == if p.digest(password + u.salt) == u.pwdHash then Response(0, u.id, None) else Response(2003, "", None)
    case _ => false
  }

  ghost predicate Serves(p: Platform, q: Request, u: User, phase: Phase) {
    phase.Done? && phase.fetch == Some(Fetched(Some(u))) && Answers(p, q, u, phase.response)
  }

  /** GetUserById is served from the cache if and only if Redis answers with a live
      entry under the id's key that parses and decodes. */
  lemma CacheReadExactly(p: Platform, s: State, k: nat, fails: bool)
    requires Enabled(p, s, CacheRead(k, fails))
    ensures var q, ops := s.ops[k].req, Apply(p, s, CacheRead(k, fails)).ops;
      var key := "user:info:" + q.id;
      && k < |ops|
      && if !fails && key in s.redis && s.time < s.redis[key].expires
            && p.parse(s.redis[key].value).Some? && FromJson(p.parse(s.redis[key].value).value).Some?
         then Serves(p, q, FromJson(p.parse(s.redis[key].value).value).value, ops[k].phase)
         else ops[k].phase == Missed
  {
  }

  /** The database is asked for a live row with the id; text that is no UUID is an
      error, and a row's user goes on to fill the cache. */
  lemma DbReadExactly(p: Platform, s: State, k: nat, fault: Fault)
    requires Enabled(p, s, DbRead(k, fault))
    ensures var q, ops := s.ops[k].req, Apply(p, s, DbRead(k, fault)).ops;
      var id := p.parseUuid(CString(q.id));
      && k < |ops|
      && (fault == Throws ==> ops[k].phase.Done? && ops[k].phase.response == Exception)
      && (fault == SqlFault || (fault == NoFault && id.None?) ==>
            ops[k].phase.Done? && ops[k].phase.response == Response(1000, "", None))
      && (fault == NoFault && id.Some? && (forall i: nat :: !IdAt(s.table, i, id.value)) ==>
            ops[k].phase.Done? && ops[k].phase.response == Response(2001, "", None))
      && (fault == NoFault && id.Some? && (exists i: nat :: IdAt(s.table, i, id.value)) ==>
            && ops[k].phase.Filling?
            && exists i: nat :: IdAt(s.table, i, id.value) && IsUserOf(p, ops[k].phase.user, s.table[i]))
  {
    var id := p.parseUuid(CString(s.ops[k].req.id));
    if id.Some? {
      SelectByIdFinds(s.table, id.value);
      if SelectById(s.table, id.value).Some? {
        var i: nat :| IdAt(s.table, i, id.value) && SelectById(s.table, id.value) == Some(s.table[i]);
        assert IsUserOf(p, MapRowToUser(p, s.table[i]), s.table[i]);
      }
    }
  }

  /** The fill stores the user's JSON for 3600 seconds, if Redis takes it, and answers
      with the user either way. */
  lemma CacheFillExactly(p: Platform, s: State, k: nat, applied: bool)
    requires Enabled(p, s, CacheFill(k, applied))
    ensures var q, u, s' := s.ops[k].req, s.ops[k].phase.user, Apply(p, s, CacheFill(k, applied));
      && k < |s'.ops| && Serves(p, q, u, s'.ops[k].phase)
      && (!applied ==> s'.redis == s.redis)
      && (applied ==> Stored(s, s', "user:info:" + q.id, p.dump(ToJson(u)), s.time + 3600))
  {
  }

  /** What happens around the calls: time passes by the second, a key is lost, or an
      entry of the user cache is damaged; nothing else moves. */
  lemma WorldExactly(p: Platform, s: State, key: string, text: string, expires: nat)
    ensures Apply(p, s, Tick) == s.(clock := s.clock + 1, time := s.time + 1)
    ensures var s' := Apply(p, s, Evict(key));
      && s'.(redis := s.redis, clock := s.clock) == s && key !in s'.redis
      && forall other :: other != key ==>
           (other in s'.redis <==> other in s.redis) && (other in s.redis ==> s'.redis[other] == s.redis[other])
    ensures Enabled(p, s, Corrupt(key, text, expires)) ==> "user:info:" <= key && Decode(p, text).None?
  {
  }

  /*------------------------------ Finished calls, on every run ------------------------------*/

  /** Step m of the run is this one. */
  ghost predicate Happens(p: Platform, tr: seq<State>, m: nat, a: Step) {
    m + 1 < |tr| && Enabled(p, tr[m], a) && tr[m + 1] == Apply(p, tr[m], a)
  }

  ghost predicate Concerns(a: Step, k: nat) {
    !a.Invoke? && !a.Tick? && !a.Evict? && !a.Corrupt? && !a.External? && a.op == k
  }

  /** Step m is the last one of operation k. */
  ghost predicate Ends(p: Platform, tr: seq<State>, m: nat, a: Step, k: nat) {
    && Happens(p, tr, m, a) && Concerns(a, k)
    && k < |tr[m].ops| && k < |tr[m + 1].ops| && !tr[m].ops[k].phase.Done? && tr[m + 1].ops[k].phase.Done?
  }

  lemma EndingStep(p: Platform, s: State, a: Step, k: nat)
    requires Enabled(p, s, a) && k < |Apply(p, s, a).ops| && Apply(p, s, a).ops[k].phase.Done?
    ensures k < |s.ops|
    ensures s.ops[k].phase.Done? || Concerns(a, k)
  {
  }

  lemma {:induction false} EndOf(p: Platform, tr: seq<State>, n: nat, k: nat) returns (m: nat, a: Step)
    requires IsTrace(p, tr) && n < |tr| && k < |tr[n].ops| && tr[n].ops[k].phase.Done?
    ensures m < n && Ends(p, tr, m, a, k)
    decreases n
  {
    if n == 0 {
      FirstHasNone(p, tr);
      assert false;
    } else {
      assert Next(p, tr[n - 1], tr[n]);
      a :| Enabled(p, tr[n - 1], a) && tr[n] == Apply(p, tr[n - 1], a);
      m := n - 1;
      EndingStep(p, tr[m], a, k);
      if tr[m].ops[k].phase.Done? {
        m, a := EndOf(p, tr, m, k);
      }
    }
  }

  lemma LaterOps(p: Platform, tr: seq<State>, m: nat, k: nat)
    requires IsTrace(p, tr) && m < |tr| && k < |tr[m].ops|
    ensures k < |Last(tr).ops|
    ensures tr[m].ops[k].req == Last(tr).ops[k].req && tr[m].ops[k].begun == Last(tr).ops[k].begun
    ensures tr[m].ops[k].phase.Done? ==> Last(tr).ops[k] == tr[m].ops[k]
  {
    OpsPersist(p, tr, m, |tr| - 1, k);
  }

  /** Every finished operation has a last step, which left it as it is. */
  lemma EndedAt(p: Platform, tr: seq<State>, k: nat) returns (m: nat, a: Step)
    requires IsTrace(p, tr) && k < |Last(tr).ops| && Last(tr).ops[k].phase.Done?
    ensures Ends(p, tr, m, a, k) && tr[m + 1].ops[k] == Last(tr).ops[k] && tr[m].ops[k].req == Last(tr).ops[k].req
    ensures tr[m].ops[k].begun == Last(tr).ops[k].begun
  {
    m, a := EndOf(p, tr, |tr| - 1, k);
    LaterOps(p, tr, m, k);
    LaterOps(p, tr, m + 1, k);
  }

  /** A finished LoginByPassword: an exception or a database error is reported as such, a
      missing user with 2001; a user is logged in if and only if the digest of the
      presented password with the user's salt is the stored one, and refused with 2003
      otherwise. */
  lemma LoginByPasswordAnswers(p: Platform, tr: seq<State>, k: nat)
    requires IsTrace(p, tr) && k < |Last(tr).ops| && Last(tr).ops[k].phase.Done? && Last(tr).ops[k].req.LoginByPassword?
    ensures Last(tr).ops[k].phase.fetch.Some?
    ensures var q, r := Last(tr).ops[k].req, Last(tr).ops[k].phase.response;
      match Last(tr).ops[k].phase.fetch.value
      case FetchThrew => r == Exception
      case FetchFailed(_) => r == Response(1000, "", None)
      case Fetched(None) => r == Response(2001, "", None)
      case Fetched(Some(u)) =>
        r == if p.digest(q.password + u.salt) == u.pwdHash then Response(0, u.id, None) else Response(2003, "", None)
  {
    OpsOk(p, tr);
    assert OpOk(p, tr, Last(tr).ops[k]);
  }

  /** The same of GetUserInfo, which shows the user's public fields. */
  lemma GetUserInfoAnswers(p: Platform, tr: seq<State>, k: nat)
    requires IsTrace(p, tr) && k < |Last(tr).ops| && Last(tr).ops[k].phase.Done? && Last(tr).ops[k].req.GetUserInfo?
    ensures Last(tr).ops[k].phase.fetch.Some?
    ensures var r := Last(tr).ops[k].phase.response;
      match Last(tr).ops[k].phase.fetch.value
      case FetchThrew => r == Exception
      case FetchFailed(_) => r == Response(1000, "", None)
      case Fetched(None) => r == Response(2001, "", None)
      case Fetched(Some(u)) =>
        r == Response(0, u.id, Some(UserInfo(u.id, OrBlank(u.username), OrBlank(u.email), OrBlank(u.avatar), u.phone)))
  {
    OpsOk(p, tr);
    assert OpOk(p, tr, Last(tr).ops[k]);
  }

  /** The fields of a row that GetUserById's callers use. */
  ghost predicate LooksLike(p: Platform, u: User, r: Row) {
    && u.id == p.showUuid(r.id) && u.phone == r.phone && u.pwdHash == r.pwdHash && u.salt == r.salt
    && OrBlank(u.username) == OrBlank(r.username) && OrBlank(u.email) == OrBlank(r.email)
    && OrBlank(u.avatar) == OrBlank(r.avatar)
  }

  /** Whether from the cache or from the database: the user that a call of GetUserById
      got is, but for NULL and the empty string, a live row that had the id at an
      instant inside the call; and it got none only when there was no such row. */
  lemma FetchedIsARow(p: Platform, tr: seq<State>, k: nat, result: Option<User>) returns (m: nat)
    requires Sound(p) && IsTrace(p, tr) && InsertOnly(tr) && k < |Last(tr).ops|
    requires Last(tr).ops[k].phase.Done? && Last(tr).ops[k].phase.fetch == Some(Fetched(result))
    ensures UsesGetUserById(Last(tr).ops[k].req) && Last(tr).ops[k].begun <= m < |tr|
    ensures forall j :: 0 <= j < |tr| && k < |tr[j].ops| && tr[j].ops[k].phase.Done? ==> m < j
    ensures var id := p.parseUuid(CString(Last(tr).ops[k].req.id));
      && id.Some?
      && match result
         case None => forall i: nat :: !IdAt(tr[m].table, i, id.value)
         case Some(u) => exists i: nat :: IdAt(tr[m].table, i, id.value) && LooksLike(p, u, tr[m].table[i])
  {
    m := GetUserByIdLinearizable(p, tr, k, Last(tr).ops[k].phase.response, result);
    var id := p.parseUuid(CString(Last(tr).ops[k].req.id));
    SelectByIdFinds(tr[m].table, id.value);
    if result.Some? {
      var i: nat :| IdAt(tr[m].table, i, id.value) && SelectById(tr[m].table, id.value) == Some(tr[m].table[i]);
      FilledLooksLike(p, result.value, MapRowToUser(p, tr[m].table[i]), tr[m].table[i]);
    }
  }

  lemma FilledLooksLike(p: Platform, u: User, v: User, r: Row)
    requires Filled(u) == Filled(v) && IsUserOf(p, v, r)
    ensures LooksLike(p, u, r)
  {
    assert Filled(u).username == Filled(v).username && Filled(u).email == Filled(v).email;
    assert Filled(u).avatar == Filled(v).avatar && Filled(u).id == Filled(v).id && Filled(u).phone == Filled(v).phone;
    assert Filled(u).pwdHash == Filled(v).pwdHash && Filled(u).salt == Filled(v).salt;
  }

  /** A finished LoginByCode, by its last exchange: refused for its code unless that was
      the live one; else, at the lookup, an error, or the id of a live row with that
      number, or 2001 if and only if there is none. */
  lemma LoginByCodeAnswers(p: Platform, tr: seq<State>, k: nat) returns (m: nat, a: Step)
    requires IsTrace(p, tr) && k < |Last(tr).ops| && Last(tr).ops[k].phase.Done? && Last(tr).ops[k].req.LoginByCode?
    ensures Ends(p, tr, m, a, k) && (a.CodeRead? || a.PhoneRead?) && tr[m].ops[k].begun == Last(tr).ops[k].begun
    ensures var q, r := Last(tr).ops[k].req, Last(tr).ops[k].phase.response;
      if a.CodeRead? then
        r == Response(3002, "", None) && (a.fails || !Live(tr[m], "verify_code:login:" + q.phone, q.code))
      else match a.fault
        case Throws => r == Exception
        case SqlFault => r == Response(1000, "", None)
        case NoFault =>
          if exists i: nat :: PhoneAt(tr[m].table, i, CString(q.phone)) then
            exists i: nat ::
              PhoneAt(tr[m].table, i, CString(q.phone)) && r == Response(0, p.showUuid(tr[m].table[i].id), None)
          else
            r == Response(2001, "", None)
  {
    m, a := EndedAt(p, tr, k);
    if a.CodeRead? {
      CodeReadExactly(p, tr[m], k, a.fails);
    } else {
      PhoneReadExactly(p, tr[m], k, a.fault);
    }
  }

  /** The values of a registration fit, and its id and phone number are new. */
  ghost predicate CanRegister(table: seq<Row>, q: Request, id: nat)
    requires q.Register?
  {
    exists phone, username ::
      && Keeps(CString(q.phone), 20, phone) && Keeps(CString(q.username), 64, username)
      && forall i :: 0 <= i < |table| ==> table[i].id != id && table[i].phone != phone
  }

  lemma InsertAnswers(p: Platform, s: State, k: nat, id: nat, salt: string, fault: Fault, applied: bool)
    requires Sound(p) && Enabled(p, s, Insert(k, id, salt, fault, applied))
    ensures var ops := Apply(p, s, Insert(k, id, salt, fault, applied)).ops;
      && k < |ops|
      && ops[k].phase == match fault
                         case Throws => Done(Exception, None)
                         case SqlFault => Code(1000)
                         case NoFault =>
                           if CanRegister(s.table, s.ops[k].req, id) then Done(Response(0, p.showUuid(id), None), None)
                           else Code(1000)
  {
    var q := s.ops[k].req;
    InsertFails(p, s, k, id, salt, fault, applied);
    FitKeeps(CString(q.phone), 20);
    FitKeeps(CString(q.username), 64);
    var phone, username := Fit(CString(q.phone), 20), Fit(CString(q.username), 64);
    if fault == NoFault && phone.Some? && username.Some? {
      InsertExactly(p, s, k, id, salt, applied, phone.value, username.value);
      assert Keeps(CString(q.phone), 20, phone.value) && Keeps(CString(q.username), 64, username.value);
    }
  }

  /** A finished Register, by its last exchange. */
  lemma RegisterAnswers(p: Platform, tr: seq<State>, k: nat) returns (m: nat, a: Step)
    requires Sound(p) && IsTrace(p, tr)
    requires k < |Last(tr).ops| && Last(tr).ops[k].phase.Done? && Last(tr).ops[k].req.Register?
    ensures Ends(p, tr, m, a, k) && (a.CodeRead? || a.PhoneRead? || a.Insert?)
    ensures var q, r := Last(tr).ops[k].req, Last(tr).ops[k].phase.response;
      if a.CodeRead? then
        r == Response(3002, "", None) && (a.fails || !Live(tr[m], "verify_code:register:" + q.phone, q.code))
      else match a.fault
        case Throws => r == Exception
        case SqlFault => r == Response(1000, "", None)
        case NoFault =>
          if a.PhoneRead? then
            r == Response(2002, "", None) && exists i: nat :: PhoneAt(tr[m].table, i, CString(q.phone))
          else
            r == if CanRegister(tr[m].table, q, a.id) then Response(0, p.showUuid(a.id), None)
                 else Response(1000, "", None)
  {
    m, a := EndedAt(p, tr, k);
    match a
    case CodeRead(_, fails) => CodeReadExactly(p, tr[m], k, fails);
    case PhoneRead(_, fault) => PhoneReadExactly(p, tr[m], k, fault);
    case Insert(_, id, salt, fault, applied) =>
      InsertAnswers(p, tr[m], k, id, salt, fault, applied);
  }

  /** A finished SendCode, by its last exchange: 1001 if and only if the usage is none of
      the three; an error of the lookup; else success, whether or not the number is
      registered and the code was stored. */
  lemma SendCodeAnswers(p: Platform, tr: seq<State>, k: nat) returns (m: nat, a: Step)
    requires IsTrace(p, tr) && k < |Last(tr).ops| && Last(tr).ops[k].phase.Done? && Last(tr).ops[k].req.SendCode?
    ensures Ends(p, tr, m, a, k) && (a.Reject? || a.PhoneRead? || a.CodeSave?)
    ensures var q, r := Last(tr).ops[k].req, Last(tr).ops[k].phase.response;
      && (a.Reject? <==> q.usage !in {1, 2, 3})
      && (a.Reject? ==> r == Response(1001, "", None))
      && (a.CodeSave? ==> r == Response(0, "", None))
      && (a.PhoneRead? ==>
            match a.fault
            case Throws => r == Exception
            case SqlFault => r == Response(1000, "", None)
            case NoFault => r == Response(0, "", None) && forall i: nat :: !PhoneAt(tr[m].table, i, CString(q.phone)))
  {
    m, a := EndedAt(p, tr, k);
    match a
    case PhoneRead(_, fault) => PhoneReadExactly(p, tr[m], k, fault);
    case CodeSave(_, code, applied) => CodeSaveExactly(p, tr[m], k, code, applied);
    case Reject(_) => RejectExactly(p, tr[m], k);
  }

  /*------------------------------ From one call to another ------------------------------*/

  /** A registration that reaches its insert without a fault, with values that fit,
      succeeds if and only if its id and its phone number are new, whoever else has
      registered; and what it reported then is its answer for good. */
  lemma RegisterSucceedsExactly(p: Platform, tr: seq<State>, m: nat, k: nat, id: nat, salt: string, applied: bool,
                                phone: string, username: string)
    requires Sound(p) && IsTrace(p, tr) && Happens(p, tr, m, Insert(k, id, salt, NoFault, applied))
    requires Keeps(CString(tr[m].ops[k].req.phone), 20, phone)
    requires Keeps(CString(tr[m].ops[k].req.username), 64, username)
    ensures k < |Last(tr).ops|
    ensures Last(tr).ops[k].phase == Done(Response(0, p.showUuid(id), None), None) <==>
      forall i :: 0 <= i < |tr[m].table| ==> tr[m].table[i].id != id && tr[m].table[i].phone != phone
  {
    InsertExactly(p, tr[m], k, id, salt, applied, phone, username);
    OpsPersist(p, tr, m + 1, |tr| - 1, k);
  }

  /** What a successful registration wrote, field by field. */
  ghost predicate RowOfRegister(p: Platform, op: Op, r: Row)
    requires op.req.Register?
  {
    && op.phase == Done(Response(0, p.showUuid(r.id), None), None)
    && Keeps(CString(op.req.phone), 20, r.phone)
    && r.username.Some? && Keeps(CString(op.req.username), 64, r.username.value)
    && r.email == Some("") && r.avatar == Some("") && r.deletedAt.None?
    && r.pwdHash == p.digest(op.req.password + r.salt)
  }

  lemma RegisteredRow(p: Platform, tr: seq<State>, m: nat, k: nat) returns (i: nat)
    requires Sound(p) && IsTrace(p, tr) && InsertOnly(tr) && m < |tr| && k < |tr[m].ops| && Registered(tr[m].ops[k])
    ensures i < |tr[m].table| && RowOfRegister(p, tr[m].ops[k], tr[m].table[i])
  {
    var pre := tr[..m + 1];
    PrefixIsTrace(p, tr, m + 1);
    assert Last(pre) == tr[m];
    i := SuccessHasItsRow(p, pre, k);
    FitKeeps(CString(tr[m].ops[k].req.phone), 20);
    FitKeeps(CString(tr[m].ops[k].req.username), 64);
    RegisteredAnswer(p, pre, k);
  }

  /** A registration's successful answer carries the id alone. */
  lemma RegisteredAnswer(p: Platform, tr: seq<State>, k: nat)
    requires Sound(p) && IsTrace(p, tr) && k < |Last(tr).ops| && Registered(Last(tr).ops[k])
    ensures Last(tr).ops[k].phase == Done(Response(0, NewId(Last(tr).ops[k]), None), None)
  {
    var m, a := RegisterAnswers(p, tr, k);
    OpsOk(p, tr);
    assert OpOk(p, tr, Last(tr).ops[k]);
  }

  lemma RowKept(tr: seq<State>, m: nat, n: nat, i: nat)
    requires tr != [] && InsertOnly(tr) && m <= n < |tr| && i < |tr[m].table|
    ensures i < |tr[n].table| && tr[n].table[i] == tr[m].table[i]
  {
    TableGrows(tr, m, n);
  }

  lemma ParsesBack(p: Platform, id: nat)
    requires Sound(p)
    ensures p.parseUuid(CString(p.showUuid(id))) == Some(id)
  {
    CStringIsPrefix(p.showUuid(id));
  }

  /** Of the calls of GetUserById for a registered id, once the registration is done:
      what they get is the registered row. */
  lemma RegisteredIsFetched(p: Platform, tr: seq<State>, m: nat, k: nat, i: nat, l: nat, result: Option<User>)
    requires Sound(p) && IsTrace(p, tr) && InsertOnly(tr)
    requires m < |tr| && k < |tr[m].ops| && Registered(tr[m].ops[k])
    requires i < |tr[m].table| && RowOfRegister(p, tr[m].ops[k], tr[m].table[i])
    requires l < |Last(tr).ops| && Last(tr).ops[l].phase.Done? && Last(tr).ops[l].begun >= m
    requires Last(tr).ops[l].phase.fetch == Some(Fetched(result)) && UsesGetUserById(Last(tr).ops[l].req)
    requires Last(tr).ops[l].req.id == NewId(tr[m].ops[k])
    ensures result.Some? && LooksLike(p, result.value, tr[m].table[i])
  {
    var n := FetchedIsARow(p, tr, l, result);
    var id := tr[m].table[i].id;
    ParsesBack(p, id);
    RowKept(tr, m, n, i);
    assert IdAt(tr[n].table, i, id);
    var j: nat :| IdAt(tr[n].table, j, id) && LooksLike(p, result.value, tr[n].table[j]);
    KeysStayUnique(p, tr, n);
    assert i == j;
  }

  /** Register with one password, then log in with any: after a successful registration,
      a later LoginByPassword with its id that meets no database error succeeds with that
      id if and only if its password has the same digest with the row's salt, and is
      refused with 2003 otherwise. */
  lemma OnlyTheRegisteredPassword(p: Platform, tr: seq<State>, m: nat, k: nat, l: nat) returns (i: nat)
    requires Sound(p) && IsTrace(p, tr) && InsertOnly(tr)
    requires m < |tr| && k < |tr[m].ops| && Registered(tr[m].ops[k])
    requires l < |Last(tr).ops| && Last(tr).ops[l].phase.Done? && Last(tr).ops[l].begun >= m
    requires Last(tr).ops[l].req.LoginByPassword? && Last(tr).ops[l].req.id == NewId(tr[m].ops[k])
    ensures i < |tr[m].table| && RowOfRegister(p, tr[m].ops[k], tr[m].table[i])
    ensures var salt, r := tr[m].table[i].salt, Last(tr).ops[l].phase.response;
      || r == Exception || r == Response(1000, "", None)
      || r == if p.digest(Last(tr).ops[l].req.password + salt) == p.digest(tr[m].ops[k].req.password + salt)
              then Response(0, NewId(tr[m].ops[k]), None) else Response(2003, "", None)
  {
    i := RegisteredRow(p, tr, m, k);
    LoginByPasswordAnswers(p, tr, l);
    match Last(tr).ops[l].phase.fetch.value
    case Fetched(result) => RegisteredIsFetched(p, tr, m, k, i, l, result);
    case _ =>
  }

  /** Register, then GetUserInfo: what is shown is what was registered. */
  lemma RegisteredIsShown(p: Platform, tr: seq<State>, m: nat, k: nat, l: nat) returns (i: nat)
    requires Sound(p) && IsTrace(p, tr) && InsertOnly(tr)
    requires m < |tr| && k < |tr[m].ops| && Registered(tr[m].ops[k])
    requires l < |Last(tr).ops| && Last(tr).ops[l].phase.Done? && Last(tr).ops[l].begun >= m
    requires Last(tr).ops[l].req == GetUserInfo(NewId(tr[m].ops[k]))
    ensures i < |tr[m].table| && RowOfRegister(p, tr[m].ops[k], tr[m].table[i])
    ensures var row, r, id := tr[m].table[i], Last(tr).ops[l].phase.response, NewId(tr[m].ops[k]);
      || r == Exception || r == Response(1000, "", None)
      || r == Response(0, id, Some(UserInfo(id, row.username.value, "", "", row.phone)))
  {
    i := RegisteredRow(p, tr, m, k);
    GetUserInfoAnswers(p, tr, l);
    match Last(tr).ops[l].phase.fetch.value
    case Fetched(result) => RegisteredIsFetched(p, tr, m, k, i, l, result);
    case _ =>
  }

  /** Register, then log in by code with the phone number as it was stored: a login that
      succeeds reports the registered id, and none is told that there is no such user. */
  lemma RegisteredLogsInByCode(p: Platform, tr: seq<State>, m: nat, k: nat, l: nat)
    requires Sound(p) && IsTrace(p, tr) && InsertOnly(tr)
    requires m < |tr| && k < |tr[m].ops| && Registered(tr[m].ops[k])
    requires l < |Last(tr).ops| && Last(tr).ops[l].phase.Done? && Last(tr).ops[l].begun >= m
    requires Last(tr).ops[l].req.LoginByCode?
    requires Keeps(CString(tr[m].ops[k].req.phone), 20, CString(Last(tr).ops[l].req.phone))
    ensures var r := Last(tr).ops[l].phase.response;
      || r == Exception || r == Response(1000, "", None) || r == Response(3002, "", None)
      || r == Response(0, NewId(tr[m].ops[k]), None)
  {
    var i := RegisteredRow(p, tr, m, k);
    var n, a := LoginByCodeAnswers(p, tr, l);
    if a.PhoneRead? && a.fault == NoFault {
      EndsAfterBegun(p, tr, n, a, l);
      var phone := CString(Last(tr).ops[l].req.phone);
      FitKeeps(CString(tr[m].ops[k].req.phone), 20);
      RowKept(tr, m, n, i);
      assert PhoneAt(tr[n].table, i, phone);
      var j: nat :| PhoneAt(tr[n].table, j, phone)
                    && Last(tr).ops[l].phase.response == Response(0, p.showUuid(tr[n].table[j].id), None);
      KeysStayUnique(p, tr, n);
      assert i == j;
    }
  }

  lemma EndsAfterBegun(p: Platform, tr: seq<State>, m: nat, a: Step, k: nat)
    requires IsTrace(p, tr) && Ends(p, tr, m, a, k)
    ensures tr[m].ops[k].begun <= m
  {
    var pre := tr[..m + 1];
    PrefixIsTrace(p, tr, m + 1);
    OpsOk(p, pre);
    assert Last(pre) == tr[m] && OpOk(p, pre, Last(pre).ops[k]);
  }

  /** SendCode, then the call it is for: a code stored with usage 2 is accepted by
      LoginByCode, and with usage 1 by Register, for that phone number, for 300 seconds,
      unless it has been evicted or replaced. */
  lemma StoredCodeIsAccepted(p: Platform, tr: seq<State>, m: nat, j: nat, code: string, n: nat, l: nat)
    requires Happens(p, tr, m, CodeSave(j, code, true)) && Happens(p, tr, n, CodeRead(l, false))
    requires var sent, q := tr[m].ops[j].req, tr[n].ops[l].req;
      && q.phone == sent.phone && q.code == code
      && ((sent.usage == 2 && q.LoginByCode?) || (sent.usage == 1 && q.Register?))
      && var key := (if sent.usage == 2 then "verify_code:login:" else "verify_code:register:") + sent.phone;
         && key in tr[m + 1].redis && key in tr[n].redis && tr[n].redis[key] == tr[m + 1].redis[key]
    requires tr[n].time < tr[m].time + 300
    ensures l < |tr[n + 1].ops| && tr[n + 1].ops[l].phase == CodeOk
  {
    CodeSaveExactly(p, tr[m], j, code, true);
    CodeReadExactly(p, tr[n], l, false);
  }

  /** Nothing but these touches a code: eviction, and another SendCode for the same usage
      and phone number. */
  lemma CodesAreLeftAlone(p: Platform, s: State, a: Step, usage: Usage, phone: string)
    requires Enabled(p, s, a) && CodeKey(usage, phone) in s.redis
    requires a != Evict(CodeKey(usage, phone))
    requires a.CodeSave? && a.applied ==>
      UsageOf(s.ops[a.op].req.usage) != Some(usage) || s.ops[a.op].req.phone != phone
    ensures CodeKey(usage, phone) in Apply(p, s, a).redis
    ensures Apply(p, s, a).redis[CodeKey(usage, phone)] == s.redis[CodeKey(usage, phone)]
  {
    match a
    case CodeSave(k, _, _) =>
      KeysAreInjective(usage, UsageOf(s.ops[k].req.usage).value, phone, s.ops[k].req.phone);
    case CacheFill(k, _) => KeysAreInjective(usage, usage, phone, s.ops[k].req.id);
    case Corrupt(_, _, _) => KeysAreInjective(usage, usage, phone, "");
    case _ =>
  }

  /** A fill, then a read of the same id: for an hour, unless evicted or replaced, the
      cache serves the user, with NULL as the empty string. */
  lemma FillIsServed(p: Platform, tr: seq<State>, m: nat, j: nat, n: nat, l: nat)
    requires Sound(p) && Happens(p, tr, m, CacheFill(j, true)) && Happens(p, tr, n, CacheRead(l, false))
    requires tr[n].ops[l].req.id == tr[m].ops[j].req.id && tr[n].time < tr[m].time + 3600
    requires var key := "user:info:" + tr[m].ops[j].req.id;
      key in tr[m + 1].redis && key in tr[n].redis && tr[n].redis[key] == tr[m + 1].redis[key]
    ensures l < |tr[n + 1].ops| && tr[n + 1].ops[l].phase.Done?
    ensures var u := tr[m].ops[j].phase.user;
      var shown := u.(username := Some(OrBlank(u.username)), email := Some(OrBlank(u.email)),
                      avatar := Some(OrBlank(u.avatar)), deletedAt := None);
      Serves(p, tr[n].ops[l].req, shown, tr[n + 1].ops[l].phase)
  {
    var u := tr[m].ops[j].phase.user;
    CacheFillExactly(p, tr[m], j, true);
    CacheReadExactly(p, tr[n], l, false);
    JsonRoundTrip(u);
    assert Filled(u) == u.(username := Some(OrBlank(u.username)), email := Some(OrBlank(u.email)),
                           avatar := Some(OrBlank(u.avatar)), deletedAt := None);
  }
}
