/** The coroutines of the services and repositories as they are written.

    Every exchange with Redis or PostgreSQL is preceded by whatever the rest of the
    world does meanwhile and is logged with the state in which it took place. Each
    coroutine is specified by its log: which exchanges it makes, in which order, and
    what it returns, in terms of the steps of the interleaved model. */
module Services {
  import opened Seqs
  import opened ServiceModel
  import opened Users
  import opened Keyspace
  import opened Accounts

  datatype RedisResult<T> = RedisOk(value: T) | RedisErr

  datatype DbResult<T> = DbOk(value: T) | DbErr(error: DbError) | DbThrew

  /** An exchange and the shared state it found. */
  datatype Exchange =
    | Get(s: State, key: string, fails: bool)
    | Set(s: State, key: string, entry: Entry, applied: bool)
    | ById(s: State, id: string, fault: Fault)
    | ByPhone(s: State, phone: string, fault: Fault)
    | InsertRow(s: State, user: User, fault: Fault, applied: bool)

  /** The state an exchange leaves. */
  ghost function After(p: Platform, x: Exchange): State {
    match x
    case Set(s, key, entry, applied) => if applied then s.(redis := s.redis[key := entry]) else s
    case InsertRow(s, user, fault, applied) =>
      var row := RowOf(p, user, s.time);
      if Inserts(s.table, row, fault, applied) then s.(table := s.table + [row.value]) else s
    case _ => x.s
  }

  ghost function Seen(x: Exchange): Option<Entry>
    requires x.Get?
  {
    if x.fails then None else RedisGet(x.s.redis, x.s.time, x.key)
  }

  ghost function RowResult(fault: Fault, found: Found): DbResult<Option<User>> {
    match fault
    case Throws => DbThrew
    case SqlFault => DbErr(OtherFailure)
    case NoFault =>
      match found
      case BadId => DbErr(InvalidText)
      case NotFound => DbOk(None)
      case FoundUser(u) => DbOk(Some(u))
  }

  class Backend {
    const p: Platform
    var s: State
    ghost var log: seq<Exchange>

    constructor (p: Platform, s: State)
      ensures this.p == p && this.s == s && log == []
    {
      this.p, this.s := p, s;
      log := [];
    }

    /** Anything may happen to Redis, the table and the time while a coroutine is suspended. */
    method Await()
      modifies this`s
    {
      s := *;
    }

    method RedisClientGet(key: string) returns (r: RedisResult<Option<Entry>>, ghost x: Exchange)
      modifies this
      ensures log == old(log) + [x] && x == Get(s, key, r.RedisErr?)
      ensures r.RedisOk? ==> r.value == RedisGet(s.redis, s.time, key)
    {
      Await();
      if * {
        r := RedisErr;
      } else {
        r := RedisOk(RedisGet(s.redis, s.time, key));
      }
      x := Get(s, key, r.RedisErr?);
      log := log + [x];
    }

    /** SET with EX; an error may be reported although the command took effect. */
    method RedisClientSet(key: string, value: string, expiry: nat, origin: nat -> Origin)
      returns (r: RedisResult<()>, ghost x: Exchange)
      modifies this
      ensures log == old(log) + [x] && s == After(p, x)
      ensures x.Set? && x.key == key && x.entry == Entry(value, x.s.time + expiry, origin(x.s.clock))
      ensures r.RedisOk? ==> x.applied
    {
      Await();
      r := RedisOk(());
      ghost var before := s;
      var entry := Entry(value, s.time + expiry, origin(s.clock));
      x := Set(before, key, entry, true);
      if * {
        r := RedisErr;
        if * {
          x := Set(before, key, entry, false);
          log := log + [x];
          return;
        }
      }
      s := s.(redis := s.redis[key := entry]);
      log := log + [x];
    }

    method UserDaoGetUserById(id: string) returns (r: DbResult<Option<User>>, ghost x: Exchange)
      modifies this
      ensures log == old(log) + [x] && x.ById? && x.s == s && x.id == id
      ensures r == RowResult(x.fault, FindById(p, s.table, id))
    {
      Await();
      ghost var fault := NoFault;
      if * {
        r, fault := DbThrew, Throws;
      } else if * {
        r, fault := DbErr(OtherFailure), SqlFault;
      } else {
        match FindById(p, s.table, id)
        case BadId => r := DbErr(InvalidText);
        case NotFound => r := DbOk(None);
        case FoundUser(u) => r := DbOk(Some(u));
      }
      x := ById(s, id, fault);
      log := log + [x];
    }

    method UserDaoGetUserByPhoneNumber(phone: string) returns (r: DbResult<Option<User>>, ghost x: Exchange)
      modifies this
      ensures log == old(log) + [x] && x.ByPhone? && x.s == s && x.phone == phone
      ensures r == match x.fault
                   case Throws => DbThrew
                   case SqlFault => DbErr(OtherFailure)
                   case NoFault => DbOk(FindByPhone(p, s.table, phone))
    {
      Await();
      ghost var fault := NoFault;
      if * {
        r, fault := DbThrew, Throws;
      } else if * {
        r, fault := DbErr(OtherFailure), SqlFault;
      } else {
        r := DbOk(FindByPhone(p, s.table, phone));
      }
      x := ByPhone(s, phone, fault);
      log := log + [x];
    }

    method UserDaoCreateUser(user: User) returns (r: DbResult<()>, ghost x: Exchange)
      modifies this
      ensures log == old(log) + [x] && x.InsertRow? && x.user == user && s == After(p, x)
      ensures r == if x.fault.Throws? then DbThrew
                   else if Inserts(x.s.table, RowOf(p, user, x.s.time), x.fault, x.applied) then DbOk(())
                   else DbErr(OtherFailure)
    {
      Await();
      ghost var before := s;
      var row := RowOf(p, user, s.time);
      var fits := row.Some? && Admits(s.table, row.value);
      if * {
        r, x := DbThrew, InsertRow(before, user, Throws, true);
        if * {
          x := InsertRow(before, user, Throws, false);
          log := log + [x];
          return;
        }
      } else if * {
        r, x := DbErr(OtherFailure), InsertRow(before, user, SqlFault, false);
        log := log + [x];
        return;
      } else {
        r, x := if fits then DbOk(()) else DbErr(OtherFailure), InsertRow(before, user, NoFault, true);
      }
      if fits {
        s := s.(table := s.table + [row.value]);
      }
      log := log + [x];
    }
  }

  /** The exchanges a call made: what it added to the log. */
  twostate function Made(b: Backend): seq<Exchange>
    reads b
  {
    if |old(b.log)| <= |b.log| then b.log[|old(b.log)|..] else []
  }

  twostate predicate LogGrew(b: Backend)
    reads b
  {
    old(b.log) <= b.log
  }

  /*------------------------------ Repositories ------------------------------*/

  /** GetUserById as its exchanges: cache, then database unless the cache served,
      then the fill with the user found. */
  ghost predicate GetUserByIdMade(p: Platform, q: Request, xs: seq<Exchange>, f: Fetch)
    requires UsesGetUserById(q)
  {
    && xs != [] && xs[0].Get? && xs[0].key == UserKey(q.id)
    && var first := AfterCacheRead(p, q, Seen(xs[0]));
       if first.Done? then
         |xs| == 1 && first == Finish(p, q, f)
       else
         && |xs| >= 2 && xs[1].ById? && xs[1].id == q.id
         && var second := AfterDbRead(p, q, xs[1].fault, FindById(p, xs[1].s.table, q.id));
            if second.Done? then
              |xs| == 2 && second == Finish(p, q, f)
            else
              && |xs| == 3 && f == Fetched(Some(second.user)) && xs[2].Set? && xs[2].key == UserKey(q.id)
              && xs[2].entry == Entry(p.dump(ToJson(second.user)), xs[2].s.time + CACHE_SECONDS,
                                      FromUser(q.id, xs[1].s.clock, xs[2].s.clock))
  }

  class UserRepository {
    const backend: Backend

    constructor (backend: Backend)
      ensures this.backend == backend
    {
      this.backend := backend;
    }

    method GetUserById(ghost q: Request, id: string) returns (f: Fetch)
      requires UsesGetUserById(q) && q.id == id
      modifies backend
      ensures LogGrew(backend) && GetUserByIdMade(backend.p, q, Made(backend), f)
      ensures backend.s == After(backend.p, backend.log[|backend.log| - 1])
    {
      var cacheKey := UserKey(id);
      var redisRes, x1 := backend.RedisClientGet(cacheKey);
      assert Made(backend) == [x1];
      if redisRes.RedisOk? && redisRes.value.Some? {
        var user := Decode(backend.p, redisRes.value.value.value);
        if user.Some? {
          f := Fetched(user);
          return;
        }
      }
      var dbResult, x2 := backend.UserDaoGetUserById(id);
      assert Made(backend) == [x1, x2];
      match dbResult
      case DbThrew => f := FetchThrew;
      case DbErr(e) => f := FetchFailed(e);
      case DbOk(found) =>
        f := Fetched(found);
        if found.Some? {
          var readAt := backend.s.clock;
          var json := backend.p.dump(ToJson(found.value));
          var origin := (filledAt: nat) => FromUser(id, readAt, filledAt);
          var _, x3 := backend.RedisClientSet(cacheKey, json, CACHE_SECONDS, origin);
          assert Made(backend) == [x1, x2, x3];
        }
    }
  }

  class VerificationCodeRepository {
    const backend: Backend

    constructor (backend: Backend)
      ensures this.backend == backend
    {
      this.backend := backend;
    }

    /** A Redis failure counts as no code. */
    method GetCode(usage: Usage, target: string) returns (code: Option<string>, ghost x: Exchange)
      modifies backend
      ensures backend.log == old(backend.log) + [x] && x.Get? && x.key == CodeKey(usage, target) && backend.s == x.s
      ensures code == if Seen(x).Some? then Some(Seen(x).value.value) else None
    {
      var result, x' := backend.RedisClientGet(CodeKey(usage, target));
      x := x';
      code := None;
      if result.RedisOk? && result.value.Some? {
        code := Some(result.value.value.value);
      }
    }

    /** A Redis failure is only logged. */
    method SaveCode(usage: Usage, target: string, code: string, expiry: nat) returns (ghost x: Exchange)
      modifies backend
      ensures backend.log == old(backend.log) + [x] && x.Set? && x.key == CodeKey(usage, target)
      ensures x.entry == Entry(code, x.s.time + expiry, FromCode(usage, target)) && backend.s == After(backend.p, x)
    {
      var _, x' := backend.RedisClientSet(CodeKey(usage, target), code, expiry, (_: nat) => FromCode(usage, target));
      x := x';
    }
  }

  /*------------------------------ Services ------------------------------*/

  /** SendCode: a registration code is stored unconditionally, a login or reset
      code only for a registered number; any other usage is refused. */
  ghost predicate SendCodeMade(p: Platform, q: Request, code: string, xs: seq<Exchange>, r: Response)
    requires q.SendCode?
  {
    if UsageOf(q.usage).None? then
      xs == [] && r == Plain(INVALID_ARGUMENT)
    else
      var looks := if ChecksPhone(q) then 1 else 0;
      && |xs| >= looks
      && (looks == 1 ==> xs[0].ByPhone? && xs[0].phone == q.phone)
      && var phase :=
           if looks == 1 then AfterPhoneRead(q, xs[0].fault, FindByPhone(p, xs[0].s.table, q.phone)) else MaySend;
         if phase.Done? then
           |xs| == looks && phase == Answer(r)
         else
           && |xs| == looks + 1 && r == Plain(SUCCESS)
           && var x := xs[looks];
              && x.Set? && x.key == CodeKey(UsageOf(q.usage).value, q.phone)
              && x.entry == Entry(code, x.s.time + CODE_SECONDS, FromCode(UsageOf(q.usage).value, q.phone))
  }

  /** The exchange stored this code under this key for five minutes. */
  ghost predicate Stores(x: Exchange, key: string, code: string) {
    x.Set? && x.applied && x.key == key && x.entry.value == code && x.entry.expires == x.s.time + CODE_SECONDS
  }

  /** A SendCode that answers success has stored its code if and only if the number was
      registered, where that is asked, and its SET took effect. */
  lemma SuccessStoresExactlyWhenApplied(p: Platform, q: Request, code: string, xs: seq<Exchange>)
    requires q.SendCode? && SendCodeMade(p, q, code, xs, Plain(SUCCESS))
    ensures UsageOf(q.usage).Some? && xs != []
    ensures (exists x :: x in xs && Stores(x, CodeKey(UsageOf(q.usage).value, q.phone), code)) <==>
      && (ChecksPhone(q) ==> FindByPhone(p, xs[0].s.table, q.phone).Some?)
      && xs[|xs| - 1].Set? && xs[|xs| - 1].applied
  {
    var last := xs[|xs| - 1];
    if last.Set? && last.applied {
      assert last in xs && Stores(last, CodeKey(UsageOf(q.usage).value, q.phone), code);
    }
  }

  /** A concrete one that has not: Redis refuses the SET of a registration code. */
  lemma RefusedSetAnswersSuccess(p: Platform, s: State, phone: string, code: string)
    ensures var key := CodeKey(UserRegister, phone);
      var x := Set(s, key, Entry(code, s.time + CODE_SECONDS, FromCode(UserRegister, phone)), false);
      && SendCodeMade(p, SendCode(phone, 1), code, [x], Plain(SUCCESS))
      && After(p, x) == s && !Stores(x, key, code)
  {
  }

  ghost predicate LoginByCodeMade(p: Platform, q: Request, xs: seq<Exchange>, r: Response)
    requires q.LoginByCode?
  {
    && xs != [] && xs[0].Get? && xs[0].key == CodeKeyOf(q)
    && var first := AfterCodeRead(q, Seen(xs[0]));
       if first.Done? then
         |xs| == 1 && first == Answer(r)
       else
         && |xs| == 2 && xs[1].ByPhone? && xs[1].phone == q.phone
         && AfterPhoneRead(q, xs[1].fault, FindByPhone(p, xs[1].s.table, q.phone)) == Answer(r)
  }

  /** Register: check the code, check the phone number, insert a user built from
      the request; the world is free to change between any two. */
  ghost predicate RegisterMade(p: Platform, q: Request, id: nat, salt: string, xs: seq<Exchange>, r: Response)
    requires q.Register?
  {
    && xs != [] && xs[0].Get? && xs[0].key == CodeKeyOf(q)
    && var first := AfterCodeRead(q, Seen(xs[0]));
       if first.Done? then
         |xs| == 1 && first == Answer(r)
       else
         && |xs| >= 2 && xs[1].ByPhone? && xs[1].phone == q.phone
         && var second := AfterPhoneRead(q, xs[1].fault, FindByPhone(p, xs[1].s.table, q.phone));
            if second.Done? then
              |xs| == 2 && second == Answer(r)
            else
              && |xs| == 3 && xs[2].InsertRow? && xs[2].user == NewUser(p, q, id, salt)
              && var row := RowOf(p, xs[2].user, xs[2].s.time);
                 AfterInsert(xs[2].s.table, row, xs[2].fault, xs[2].applied, p.showUuid(id)) == Answer(r)
  }

  class AuthService {
    const backend: Backend
    const users: UserRepository
    const codes: VerificationCodeRepository

    constructor (backend: Backend)
      ensures this.backend == backend && Valid()
    {
      this.backend := backend;
      users := new UserRepository(backend);
      codes := new VerificationCodeRepository(backend);
    }

    predicate Valid() {
      users.backend == backend && codes.backend == backend
    }

    method SendCode(q: Request, code: string) returns (r: Response)
      requires Valid() && q.SendCode?
      modifies backend
      ensures LogGrew(backend) && SendCodeMade(backend.p, q, code, Made(backend), r)
    {
      var usage := UsageOf(q.usage);
      if usage.None? {
        return Plain(INVALID_ARGUMENT);
      }
      var shouldSendCode := true;
      ghost var xs: seq<Exchange> := [];
      if usage.value != UserRegister {
        var user, x1 := backend.UserDaoGetUserByPhoneNumber(q.phone);
        xs := [x1];
        assert Made(backend) == xs;
        match user {
          case DbThrew => return Exception;
          case DbErr(_) => return Plain(INTERNAL_ERROR);
          case DbOk(found) => shouldSendCode := found.Some?;
        }
      }
      if !shouldSendCode {
        return Plain(SUCCESS);
      }
      ghost var x := codes.SaveCode(usage.value, q.phone, code, CODE_SECONDS);
      assert Made(backend) == xs + [x];
      r := Plain(SUCCESS);
    }

    method LoginByCode(q: Request) returns (r: Response)
      requires Valid() && q.LoginByCode?
      modifies backend
      ensures LogGrew(backend) && LoginByCodeMade(backend.p, q, Made(backend), r)
    {
      var code, x1 := codes.GetCode(UserLogin, q.phone);
      assert Made(backend) == [x1];
      if code.None? || code.value != q.code {
        return Plain(VERIFICATION_CODE_MISMATCH);
      }
      var user, x2 := backend.UserDaoGetUserByPhoneNumber(q.phone);
      assert Made(backend) == [x1, x2];
      match user
      case DbThrew => r := Exception;
      case DbErr(_) => r := Plain(INTERNAL_ERROR);
      case DbOk(found) =>
        r := if found.None? then Plain(USER_NOT_FOUND) else Response(SUCCESS, found.value.id, None);
    }

    method LoginByPassword(q: Request) returns (r: Response)
      requires Valid() && q.LoginByPassword?
      modifies backend
      ensures LogGrew(backend)
      ensures exists f :: GetUserByIdMade(backend.p, q, Made(backend), f) && r == Conclude(backend.p, q, f)
    {
      var f := users.GetUserById(q, q.id);
      match f
      case FetchThrew => r := Exception;
      case FetchFailed(_) => r := Plain(INTERNAL_ERROR);
      case Fetched(user) =>
        if user.None? {
          r := Plain(USER_NOT_FOUND);
        } else if !VerifyPassword(backend.p, q.password, user.value) {
          r := Plain(PASSWORD_INCORRECT);
        } else {
          r := Response(SUCCESS, user.value.id, None);
        }
    }
  }

  class BasicUserService {
    const backend: Backend
    const users: UserRepository
    const codes: VerificationCodeRepository

    constructor (backend: Backend)
      ensures this.backend == backend && Valid()
    {
      this.backend := backend;
      users := new UserRepository(backend);
      codes := new VerificationCodeRepository(backend);
    }

    predicate Valid() {
      users.backend == backend && codes.backend == backend
    }

    method Register(q: Request, id: nat, salt: string) returns (r: Response)
      requires Valid() && q.Register?
      modifies backend
      ensures LogGrew(backend) && RegisterMade(backend.p, q, id, salt, Made(backend), r)
    {
      var code, x1 := codes.GetCode(UserRegister, q.phone);
      assert Made(backend) == [x1];
      if code.None? || code.value != q.code {
        return Plain(VERIFICATION_CODE_MISMATCH);
      }

      var existing, x2 := backend.UserDaoGetUserByPhoneNumber(q.phone);
      assert Made(backend) == [x1, x2];
      match existing {
        case DbThrew => return Exception;
        case DbErr(_) => return Plain(INTERNAL_ERROR);
        case DbOk(found) =>
          if found.Some? {
            return Plain(USER_ALREADY_EXISTS);
          }
      }

      var userId := backend.p.showUuid(id);
      var pwdHash := backend.p.digest(q.password + salt);
      var newUser := Create(userId, q.phone, pwdHash, salt);
      newUser := UpdateProfile(newUser, Some(q.username), None, None);
      var result, x3 := backend.UserDaoCreateUser(newUser);
      assert Made(backend) == [x1, x2, x3];
      match result
      case DbThrew => r := Exception;
      case DbErr(_) => r := Plain(INTERNAL_ERROR);
      case DbOk(_) => r := Response(SUCCESS, userId, None);
    }

    method GetUserInfo(q: Request) returns (r: Response)
      requires Valid() && q.GetUserInfo?
      modifies backend
      ensures LogGrew(backend)
      ensures exists f :: GetUserByIdMade(backend.p, q, Made(backend), f) && r == Conclude(backend.p, q, f)
    {
      var f := users.GetUserById(q, q.id);
      match f
      case FetchThrew => r := Exception;
      case FetchFailed(_) => r := Plain(INTERNAL_ERROR);
      case Fetched(user) =>
        r := if user.None? then Plain(USER_NOT_FOUND) else Response(SUCCESS, user.value.id, Some(InfoOf(user.value)));
    }
  }
}
