/** The account flows over the cache and the database, as coroutines that
    interleave at every await: one step of an operation is one exchange with Redis
    or PostgreSQL together with the code up to the next await.

    Redis may fail, lose, expire or hold damaged user entries at any step, and the
    database may fail at any step. `clock` counts steps; the fields `begun`, `at`,
    `src`, `filledAt` and `origin` are history, never read by the operations. */
module Accounts {
  import opened Seqs
  import opened ServiceModel
  import opened Users
  import opened Keyspace

  const CACHE_SECONDS := 3600
  const CODE_SECONDS := 300

  /*------------------------------ Redis ------------------------------*/

  /** Where a stored value came from: a cache fill with the row read at step `src`,
      a saved code, or damage. */
  datatype Origin = FromUser(id: string, src: nat, filledAt: nat) | FromCode(usage: Usage, phone: string) | Damage

  datatype Entry = Entry(value: string, expires: nat, origin: Origin)

  type Redis = map<string, Entry>

  /** GET: an expired key is absent. */
  function RedisGet(redis: Redis, now: nat, key: string): Option<Entry> {
    if key in redis && now < redis[key].expires then Some(redis[key]) else None
  }

  /*------------------------------ PostgreSQL ------------------------------*/

  function SelectById(table: seq<Row>, id: nat): Option<Row> {
    if table == [] then None
    else if table[0].id == id && table[0].deletedAt.None? then Some(table[0])
    else SelectById(table[1..], id)
  }

  function SelectByPhone(table: seq<Row>, phone: string): Option<Row> {
    if table == [] then None
    else if table[0].phone == phone && table[0].deletedAt.None? then Some(table[0])
    else SelectByPhone(table[1..], phone)
  }

  /** The primary key, the unique phone number, and the unique non-empty email. */
  predicate Clash(r: Row, t: Row) {
    || r.id == t.id
    || r.phone == t.phone
    || (r.email.Some? && r.email == t.email && r.email.value != "")
  }

  predicate Admits(table: seq<Row>, r: Row) {
    forall i :: 0 <= i < |table| ==> !Clash(table[i], r)
  }

  predicate UniqueKeys(table: seq<Row>) {
    forall i, j :: 0 <= i < j < |table| ==> !Clash(table[i], table[j])
  }

  datatype Found = BadId | NotFound | FoundUser(user: User)

  /** UserDao::GetUserById without faults: the text must be a UUID. */
  function FindById(p: Platform, table: seq<Row>, text: string): Found {
    match p.parseUuid(CString(text))
    case None => BadId
    case Some(id) =>
      match SelectById(table, id)
      case None => NotFound
      case Some(r) => FoundUser(MapRowToUser(p, r))
  }

  function FindByPhone(p: Platform, table: seq<Row>, phone: string): Option<User> {
    match SelectByPhone(table, CString(phone))
    case None => None
    case Some(r) => Some(MapRowToUser(p, r))
  }

  /** The database's error values: text that is not a UUID, or any other failure. */
  datatype DbError = InvalidText | OtherFailure

  /** A database fault: an SQL error value, or an exception out of the connection. */
  datatype Fault = NoFault | SqlFault | Throws

  /*------------------------------ Operations ------------------------------*/

  datatype Request =
    | GetUserInfo(id: string)
    | LoginByPassword(id: string, password: string)
    | LoginByCode(phone: string, code: string)
    | SendCode(phone: string, usage: int)
    | Register(username: string, password: string, phone: string, code: string)

  datatype Response = Response(code: int, userId: string, info: Option<UserInfo>) | Exception

  /** What GetUserById returned: an error value, an exception, or an optional user. */
  datatype Fetch = FetchFailed(error: DbError) | FetchThrew | Fetched(user: Option<User>)

  datatype Phase =
    | Invoked               // before the first exchange
    | Missed                // GetUserById: no usable cache entry, database next
    | Filling(user: User)   // GetUserById: row read, cache fill next
    | CodeOk                // LoginByCode, Register: code matched, phone lookup next
    | Vacant                // Register: phone not registered, insert next
    | MaySend               // SendCode: user exists, store the code next
    | Done(response: Response, fetch: Option<Fetch>)

  /** `at` is the step of the exchange that decided the operation's data. */
  datatype Op = Op(req: Request, phase: Phase, begun: nat, at: nat)

  datatype Saved = Saved(usage: Usage, phone: string, code: string, time: nat)

  datatype State = State(
    clock: nat,
    time: nat,
    redis: Redis,
    table: seq<Row>,
    ops: seq<Op>,
    saved: seq<Saved>)

  predicate UsesGetUserById(q: Request) {
    q.GetUserInfo? || q.LoginByPassword?
  }

  function Plain(code: int): Response {
    Response(code, "", None)
  }

  predicate VerifyPassword(p: Platform, password: string, u: User) {
    p.digest(password + u.salt) == u.pwdHash
  }

  /** The callers of GetUserById, from its return to theirs. */
  function Conclude(p: Platform, q: Request, f: Fetch): Response
    requires UsesGetUserById(q)
  {
    match f
    case FetchThrew => Exception
    case FetchFailed(_) => Plain(INTERNAL_ERROR)
    case Fetched(None) => Plain(USER_NOT_FOUND)
    case Fetched(Some(u)) =>
      if q.GetUserInfo? then Response(SUCCESS, u.id, Some(InfoOf(u)))
      else if VerifyPassword(p, q.password, u) then Response(SUCCESS, u.id, None)
      else Plain(PASSWORD_INCORRECT)
  }

  function Finish(p: Platform, q: Request, f: Fetch): Phase
    requires UsesGetUserById(q)
  {
    Done(Conclude(p, q, f), Some(f))
  }

  function Answer(r: Response): Phase {
    Done(r, None)
  }

  /** The user in a cache entry, if its text parses and decodes. */
  function Decode(p: Platform, value: string): Option<User> {
    match p.parse(value)
    case None => None
    case Some(j) => FromJson(j)
  }

  function NewUser(p: Platform, q: Request, id: nat, salt: string): User
    requires q.Register?
  {
    User(p.showUuid(id), q.phone, p.digest(q.password + salt), salt, Some(q.username), None, None, 0, 0, None)
  }

  /*------------------------------ Steps ------------------------------*/

  datatype Step =
    | Invoke(req: Request)
    | CacheRead(op: nat, fails: bool)
    | DbRead(op: nat, fault: Fault)
    | CacheFill(op: nat, applied: bool)
    | CodeRead(op: nat, fails: bool)
    | PhoneRead(op: nat, fault: Fault)
    | Insert(op: nat, id: nat, salt: string, fault: Fault, applied: bool)
    | CodeSave(op: nat, code: string, applied: bool)
    | Reject(op: nat)
    | Tick
    | Evict(key: string)
    | Corrupt(key: string, text: string, expires: nat)
    | External(table: seq<Row>)

  predicate IsCode(s: string) {
    |s| == 6 && forall i :: 0 <= i < 6 ==> '0' <= s[i] <= '9'
  }

  predicate IsSalt(s: string) {
    |s| == 32 && forall i :: 0 <= i < 32 ==> '0' <= s[i] <= '9' || 'A' <= s[i] <= 'F'
  }

  /** The usages for which SendCode looks the phone number up first. */
  predicate ChecksPhone(q: Request) {
    q.SendCode? && UsageOf(q.usage).Some? && UsageOf(q.usage).value != UserRegister
  }

  predicate InPhase(s: State, k: nat, phase: Phase) {
    k < |s.ops| && s.ops[k].phase == phase
  }

  ghost predicate Enabled(p: Platform, s: State, a: Step) {
    match a
    case Invoke(_) => true
    case CacheRead(k, _) => InPhase(s, k, Invoked) && UsesGetUserById(s.ops[k].req)
    case DbRead(k, _) => InPhase(s, k, Missed) && UsesGetUserById(s.ops[k].req)
    case CacheFill(k, _) => k < |s.ops| && s.ops[k].phase.Filling? && UsesGetUserById(s.ops[k].req)
    case CodeRead(k, _) => InPhase(s, k, Invoked) && (s.ops[k].req.LoginByCode? || s.ops[k].req.Register?)
    case PhoneRead(k, _) =>
      || (InPhase(s, k, CodeOk) && (s.ops[k].req.LoginByCode? || s.ops[k].req.Register?))
      || (InPhase(s, k, Invoked) && ChecksPhone(s.ops[k].req))
    case Insert(k, _, salt, _, _) => InPhase(s, k, Vacant) && s.ops[k].req.Register? && IsSalt(salt)
    case CodeSave(k, code, _) =>
      && IsCode(code) && k < |s.ops| && s.ops[k].req.SendCode? && UsageOf(s.ops[k].req.usage).Some?
      && (InPhase(s, k, MaySend) || (InPhase(s, k, Invoked) && UsageOf(s.ops[k].req.usage).value == UserRegister))
    case Reject(k) => InPhase(s, k, Invoked) && s.ops[k].req.SendCode? && UsageOf(s.ops[k].req.usage).None?
    case Tick => true
    case Evict(_) => true
    case Corrupt(key, text, _) => USER_PREFIX <= key && Decode(p, text).None?
    case External(table) => UniqueKeys(table)
  }

  /** GetUserById, first exchange: a usable entry is returned; an error, a miss or
      an undecodable entry sends it to the database. */
  function AfterCacheRead(p: Platform, q: Request, entry: Option<Entry>): Phase
    requires UsesGetUserById(q)
  {
    if entry.Some? && Decode(p, entry.value.value).Some? then
      Finish(p, q, Fetched(Decode(p, entry.value.value)))
    else
      Missed
  }

  /** GetUserById, second exchange; a missing user is not cached. */
  function AfterDbRead(p: Platform, q: Request, fault: Fault, found: Found): Phase
    requires UsesGetUserById(q)
  {
    match fault
    case Throws => Finish(p, q, FetchThrew)
    case SqlFault => Finish(p, q, FetchFailed(OtherFailure))
    case NoFault =>
      match found
      case BadId => Finish(p, q, FetchFailed(InvalidText))
      case NotFound => Finish(p, q, Fetched(None))
      case FoundUser(u) => Filling(u)
  }

  function AfterCodeRead(q: Request, entry: Option<Entry>): Phase
    requires q.LoginByCode? || q.Register?
  {
    if entry.Some? && entry.value.value == q.code then CodeOk else Answer(Plain(VERIFICATION_CODE_MISMATCH))
  }

  function AfterPhoneRead(q: Request, fault: Fault, user: Option<User>): Phase
    requires q.LoginByCode? || q.Register? || q.SendCode?
  {
    match fault
    case Throws => Answer(Exception)
    case SqlFault => Answer(Plain(INTERNAL_ERROR))
    case NoFault =>
      match q
      case LoginByCode(_, _) =>
        if user.None? then Answer(Plain(USER_NOT_FOUND)) else Answer(Response(SUCCESS, user.value.id, None))
      case Register(_, _, _, _) =>
        if user.None? then Vacant else Answer(Plain(USER_ALREADY_EXISTS))
      case _ =>
        if user.None? then Answer(Plain(SUCCESS)) else MaySend
  }

  /** Whether the INSERT takes effect: the values fit and clash with no row, and a
      fault did not come first. A lost connection may hide a committed insert. */
  ghost predicate Inserts(table: seq<Row>, row: Option<Row>, fault: Fault, applied: bool) {
    row.Some? && Admits(table, row.value) && (fault.NoFault? || (fault.Throws? && applied))
  }

  ghost function AfterInsert(table: seq<Row>, row: Option<Row>, fault: Fault, applied: bool, id: string): Phase {
    if fault.Throws? then Answer(Exception)
    else if Inserts(table, row, fault, applied) then Answer(Response(SUCCESS, id, None))
    else Answer(Plain(INTERNAL_ERROR))
  }

  function CodeUsage(q: Request): Usage
    requires q.LoginByCode? || q.Register?
  {
    if q.LoginByCode? then UserLogin else UserRegister
  }

  function CodeKeyOf(q: Request): string
    requires q.LoginByCode? || q.Register?
  {
    CodeKey(CodeUsage(q), q.phone)
  }

  ghost function Apply(p: Platform, s: State, a: Step): State
    requires Enabled(p, s, a)
  {
    var n := s.clock;
    var next := s.(clock := n + 1);
    match a
    case Invoke(q) =>
      next.(ops := s.ops + [Op(q, Invoked, n, n)])
    case CacheRead(k, fails) =>
      var q := s.ops[k].req;
      var entry := if fails then None else RedisGet(s.redis, s.time, UserKey(q.id));
      next.(ops := s.ops[k := s.ops[k].(phase := AfterCacheRead(p, q, entry), at := n)])
    case DbRead(k, fault) =>
      var q := s.ops[k].req;
      next.(ops := s.ops[k := s.ops[k].(phase := AfterDbRead(p, q, fault, FindById(p, s.table, q.id)), at := n)])
    case CacheFill(k, applied) =>
      var q, user := s.ops[k].req, s.ops[k].phase.user;
      var entry := Entry(p.dump(ToJson(user)), s.time + CACHE_SECONDS, FromUser(q.id, s.ops[k].at, n));
      next.(redis := if applied then s.redis[UserKey(q.id) := entry] else s.redis,
            ops := s.ops[k := s.ops[k].(phase := Finish(p, q, Fetched(Some(user))))])
    case CodeRead(k, fails) =>
      var q := s.ops[k].req;
      var entry := if fails then None else RedisGet(s.redis, s.time, CodeKeyOf(q));
      next.(ops := s.ops[k := s.ops[k].(phase := AfterCodeRead(q, entry), at := n)])
    case PhoneRead(k, fault) =>
      var q := s.ops[k].req;
      next.(ops := s.ops[k := s.ops[k].(phase := AfterPhoneRead(q, fault, FindByPhone(p, s.table, q.phone)))])
    case Insert(k, id, salt, fault, applied) =>
      var user := NewUser(p, s.ops[k].req, id, salt);
      var row := RowOf(p, user, s.time);
      next.(table := if Inserts(s.table, row, fault, applied) then s.table + [row.value] else s.table,
            ops := s.ops[k := s.ops[k].(phase := AfterInsert(s.table, row, fault, applied, user.id))])
    case CodeSave(k, code, applied) =>
      var q := s.ops[k].req;
      var usage := UsageOf(q.usage).value;
      var entry := Entry(code, s.time + CODE_SECONDS, FromCode(usage, q.phone));
      next.(redis := if applied then s.redis[CodeKey(usage, q.phone) := entry] else s.redis,
            saved := if applied then s.saved + [Saved(usage, q.phone, code, s.time)] else s.saved,
            ops := s.ops[k := s.ops[k].(phase := Answer(Plain(SUCCESS)))])
    case Reject(k) =>
      next.(ops := s.ops[k := s.ops[k].(phase := Answer(Plain(INVALID_ARGUMENT)))])
    case Tick => next.(time := s.time + 1)
    case Evict(key) => next.(redis := s.redis - {key})
    case Corrupt(key, text, expires) => next.(redis := s.redis[key := Entry(text, expires, Damage)])
    case External(table) => next.(table := table)
  }

  ghost predicate Next(p: Platform, s: State, s': State) {
    exists a :: Enabled(p, s, a) && s' == Apply(p, s, a)
  }

  /** The start: no operations, nothing stored, and any table that satisfies its constraints. */
  ghost predicate Init(s: State) {
    s.clock == 0 && s.redis == map[] && s.ops == [] && s.saved == [] && UniqueKeys(s.table)
  }

  /** A run, as the sequence of its states; state i is the one before step i. */
  ghost predicate IsTrace(p: Platform, tr: seq<State>) {
    && tr != [] && Init(tr[0])
    && (forall i :: 0 <= i < |tr| - 1 ==> Next(p, tr[i], tr[i + 1]))
  }

  /** No row is changed or removed by anyone, which is what this program does. */
  ghost predicate InsertOnly(tr: seq<State>) {
    forall i :: 0 <= i < |tr| - 1 ==> tr[i].table <= tr[i + 1].table
  }

  function Last(tr: seq<State>): State
    requires tr != []
  {
    tr[|tr| - 1]
  }
}
