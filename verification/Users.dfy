/** The user entity, its JSON form in the cache, and its row in the database. */
module Users {
  import opened Seqs
  import opened ServiceModel

  type Int16 = x: int | -0x8000 <= x < 0x8000

  datatype User = User(
    id: string,
    phone: string,
    pwdHash: string,
    salt: string,
    username: Option<string>,
    email: Option<string>,
    avatar: Option<string>,
    status: Int16,
    createdAt: int,
    deletedAt: Option<int>)

  function Create(id: string, phone: string, pwdHash: string, salt: string): User {
    User(id, phone, pwdHash, salt, None, None, None, 0, 0, None)
  }

  /** Only the fields given are changed. */
  function UpdateProfile(u: User, username: Option<string>, email: Option<string>, avatar: Option<string>): User {
    u.(username := if username.Some? then username else u.username,
       email := if email.Some? then email else u.email,
       avatar := if avatar.Some? then avatar else u.avatar)
  }

  /** Each of the three fields is replaced if given and kept if not, and nothing else
      changes; so of two updates the later wins, field by field. */
  lemma UpdateProfileExactly(u: User, username: Option<string>, email: Option<string>, avatar: Option<string>,
                             later: Option<string>)
    ensures var v := UpdateProfile(u, username, email, avatar);
      && v.(username := u.username, email := u.email, avatar := u.avatar) == u
      && (username.Some? ==> v.username == username) && (username.None? ==> v.username == u.username)
      && (email.Some? ==> v.email == email) && (email.None? ==> v.email == u.email)
      && (avatar.Some? ==> v.avatar == avatar) && (avatar.None? ==> v.avatar == u.avatar)
      && (later.Some? ==> UpdateProfile(v, later, None, None) == UpdateProfile(u, later, email, avatar))
  {
  }

  /** A JSON value; numbers with a fraction or exponent are not modelled. */
  datatype Json =
    | JNull
    | JBool(b: bool)
    | JInt(n: int)
    | JString(s: string)
    | JArray(items: seq<Json>)
    | JObject(members: map<string, Json>)

  /** `empty()`: only null and empty containers; the empty string is not empty. */
  predicate IsEmpty(j: Json) {
    match j
    case JNull => true
    case JArray(items) => items == []
    case JObject(members) => members == map[]
    case _ => false
  }

  /** `value_or("")`. */
  function OrEmpty(x: Option<string>): string {
    if x.Some? then x.value else ""
  }

  function ToJson(u: User): Json {
    JObject(map[
      "id" := JString(u.id),
      "phone" := JString(u.phone),
      "pwd_hash" := JString(u.pwdHash),
      "salt" := JString(u.salt),
      "username" := JString(OrEmpty(u.username)),
      "email" := JString(OrEmpty(u.email)),
      "avatar" := JString(OrEmpty(u.avatar)),
      "status" := JInt(u.status),
      "created_at" := JInt(u.createdAt)
    ])
  }

  /** `at(key)`; `None` stands for the exception on a non-object or a missing key. */
  function At(j: Json, key: string): Option<Json> {
    if j.JObject? && key in j.members then Some(j.members[key]) else None
  }

  /** `get<std::string>()`. */
  function GetString(j: Option<Json>): Option<string> {
    if j.Some? && j.value.JString? then Some(j.value.s) else None
  }

  /** `get` of an integer type, which also accepts booleans. */
  function GetInt(j: Option<Json>): Option<int> {
    match j
    case Some(JInt(n)) => Some(n)
    case Some(JBool(b)) => Some(if b then 1 else 0)
    case _ => None
  }

  /** The cast to a 16-bit enumeration keeps the low sixteen bits. */
  function ToInt16(n: int): (r: Int16)
    ensures -0x8000 <= n < 0x8000 ==> r == n
    ensures (r - n) % 0x1_0000 == 0
  {
    var low := n % 0x1_0000;
    if low < 0x8000 then low else low - 0x1_0000
  }

  /** An optional field: absent or empty gives no value, anything but a string throws. */
  function OptionalField(j: Json, key: string): Option<Option<string>> {
    match At(j, key)
    case None => Some(None)
    case Some(v) => if IsEmpty(v) then Some(None) else if v.JString? then Some(Some(v.s)) else None
  }

  function FromJson(j: Json): Option<User> {
    var id := GetString(At(j, "id"));
    var phone := GetString(At(j, "phone"));
    var pwdHash := GetString(At(j, "pwd_hash"));
    var salt := GetString(At(j, "salt"));
    var status := GetInt(At(j, "status"));
    var username := OptionalField(j, "username");
    var email := OptionalField(j, "email");
    var avatar := OptionalField(j, "avatar");
    var createdAt := GetInt(At(j, "created_at"));
    if id.Some? && phone.Some? && pwdHash.Some? && salt.Some? && status.Some?
       && username.Some? && email.Some? && avatar.Some? && createdAt.Some?
    then
      Some(User(id.value, phone.value, pwdHash.value, salt.value, username.value, email.value, avatar.value,
                ToInt16(status.value), createdAt.value, None))
    else
      None
  }

  /** FromJson as the code does it: fill an object field by field and stop at the
      first one that would throw. */
  method FillFromJson(j: Json) returns (user: Option<User>)
    ensures user == FromJson(j)
  {
    user := None;
    var u := User("", "", "", "", None, None, None, 0, 0, None);
    var id := GetString(At(j, "id"));
    if id.None? { return; }
    u := u.(id := id.value);
    var phone := GetString(At(j, "phone"));
    if phone.None? { return; }
    u := u.(phone := phone.value);
    var pwdHash := GetString(At(j, "pwd_hash"));
    if pwdHash.None? { return; }
    u := u.(pwdHash := pwdHash.value);
    var salt := GetString(At(j, "salt"));
    if salt.None? { return; }
    u := u.(salt := salt.value);
    var status := GetInt(At(j, "status"));
    if status.None? { return; }
    u := u.(status := ToInt16(status.value));
    if j.JObject? && "username" in j.members && !IsEmpty(j.members["username"]) {
      if !j.members["username"].JString? { return; }
      u := u.(username := Some(j.members["username"].s));
    }
    if j.JObject? && "email" in j.members && !IsEmpty(j.members["email"]) {
      if !j.members["email"].JString? { return; }
      u := u.(email := Some(j.members["email"].s));
    }
    if j.JObject? && "avatar" in j.members && !IsEmpty(j.members["avatar"]) {
      if !j.members["avatar"].JString? { return; }
      u := u.(avatar := Some(j.members["avatar"].s));
    }
    var createdAt := GetInt(At(j, "created_at"));
    if createdAt.None? { return; }
    u := u.(createdAt := createdAt.value);
    user := Some(u);
  }

  ghost predicate Text(j: Json, key: string, s: string) {
    j.JObject? && key in j.members && j.members[key] == JString(s)
  }

  ghost predicate Number(j: Json, key: string, n: int) {
    && j.JObject? && key in j.members
    && var v := j.members[key];
       v == JInt(n) || (v == JBool(true) && n == 1) || (v == JBool(false) && n == 0)
  }

  /** Absent, null or an empty container gives no value; a string, even empty, gives itself. */
  ghost predicate Optional(j: Json, key: string, x: Option<string>) {
    j.JObject? &&
    if key !in j.members || j.members[key] in {JNull, JArray([]), JObject(map[])} then x == None
    else j.members[key].JString? && x == Some(j.members[key].s)
  }

  /** Exactly which values decode, and to what. */
  lemma DecodesExactly(j: Json, u: User)
    ensures FromJson(j) == Some(u) <==>
      && Text(j, "id", u.id) && Text(j, "phone", u.phone) && Text(j, "pwd_hash", u.pwdHash) && Text(j, "salt", u.salt)
      && (exists n :: Number(j, "status", n) && ToInt16(n) == u.status)
      && Optional(j, "username", u.username) && Optional(j, "email", u.email) && Optional(j, "avatar", u.avatar)
      && Number(j, "created_at", u.createdAt) && u.deletedAt.None?
  {
    if FromJson(j) == Some(u) {
      assert Number(j, "status", GetInt(At(j, "status")).value);
    } else if exists n :: Number(j, "status", n) && ToInt16(n) == u.status {
      var n :| Number(j, "status", n) && ToInt16(n) == u.status;
      assert GetInt(At(j, "status")) == Some(n);
    }
  }

  /** What the JSON form forgets: absent optional fields become empty strings. */
  function Filled(u: User): User {
    u.(username := Some(OrEmpty(u.username)),
       email := Some(OrEmpty(u.email)),
       avatar := Some(OrEmpty(u.avatar)),
       deletedAt := None)
  }

  predicate IsFilled(u: User) {
    u.username.Some? && u.email.Some? && u.avatar.Some? && u.deletedAt.None?
  }

  /** Decoding undoes encoding up to exactly that, and is the identity on exactly
      the users with all optional fields present. */
  lemma JsonRoundTrip(u: User)
    ensures FromJson(ToJson(u)) == Some(Filled(u))
    ensures FromJson(ToJson(u)) == Some(u) <==> IsFilled(u)
    ensures FromJson(ToJson(Filled(u))) == Some(Filled(u))
  {
    var j := ToJson(u);
    assert At(j, "id") == Some(JString(u.id));
    var j' := ToJson(Filled(u));
    assert At(j', "id") == Some(JString(u.id));
  }

  /*------------------------------ Rows ------------------------------*/

  /** A row of the users table; the id is the UUID's value and `None` is NULL. */
  datatype Row = Row(
    id: nat,
    phone: string,
    username: Option<string>,
    email: Option<string>,
    pwdHash: string,
    salt: string,
    avatar: Option<string>,
    status: Int16,
    createdAt: int,
    deletedAt: Option<int>)

  /** Library behaviour that the code relies on: UUID input and output of the
      database, the password digest, and JSON text. */
  datatype Platform = Platform(
    parseUuid: string -> Option<nat>,
    showUuid: nat -> string,
    digest: string -> string,
    parse: string -> Option<Json>,
    dump: Json -> string)

  /** A parameter reaches the database as a C string: up to its first NUL. */
  function CString(s: string): string {
    if s == [] || s[0] == '\0' then [] else [s[0]] + CString(s[1..])
  }

  predicate NoNul(s: string) {
    forall i :: 0 <= i < |s| ==> s[i] != '\0'
  }

  lemma {:induction false} CStringIsPrefix(s: string)
    ensures CString(s) <= s && NoNul(CString(s))
    ensures CString(s) == s <==> NoNul(s)
    ensures |CString(s)| < |s| ==> s[|CString(s)|] == '\0'
  {
    if s != [] && s[0] != '\0' {
      CStringIsPrefix(s[1..]);
      assert s == [s[0]] + s[1..];
      if NoNul(s) {
        assert forall i :: 0 <= i < |s[1..]| ==> s[1..][i] == s[i + 1];
      } else {
        var i :| 0 <= i < |s| && s[i] == '\0';
        assert s[1..][i - 1] == '\0';
      }
    } else if s != [] {
      assert s[0] == '\0';
    }
  }

  /** Assignment to VARCHAR(n): too long is an error unless the excess is spaces. */
  function Fit(s: string, n: nat): Option<string> {
    if |s| <= n then Some(s)
    else if forall i :: n <= i < |s| ==> s[i] == ' ' then Some(s[..n])
    else None
  }

  ghost predicate Sound(p: Platform) {
    && (forall u: nat :: p.parseUuid(p.showUuid(u)) == Some(u) && NoNul(p.showUuid(u)))
    && (forall s: string :: NoNul(p.digest(s)) && |p.digest(s)| <= 256)
    && (forall j: Json :: p.parse(p.dump(j)) == Some(j))
  }

  function MapRowToUser(p: Platform, r: Row): User {
    User(p.showUuid(r.id), r.phone, r.pwdHash, r.salt, r.username, r.email, r.avatar, r.status, r.createdAt, None)
  }

  /** The row CreateUser inserts, or `None` where the database refuses the values. */
  function RowOf(p: Platform, u: User, now: int): Option<Row> {
    var id := p.parseUuid(CString(u.id));
    var phone := Fit(CString(u.phone), 20);
    var username := Fit(CString(OrEmpty(u.username)), 64);
    var email := Fit(CString(OrEmpty(u.email)), 128);
    var pwdHash := Fit(CString(u.pwdHash), 256);
    var salt := Fit(CString(u.salt), 64);
    var avatar := Fit(CString(OrEmpty(u.avatar)), 512);
    if id.Some? && phone.Some? && username.Some? && email.Some? && pwdHash.Some? && salt.Some? && avatar.Some? then
      Some(Row(id.value, phone.value, username, email, pwdHash.value, salt.value, avatar, u.status, now, None))
    else
      None
  }

  /** A user read back from a row that CreateUser wrote survives the cache
      exactly: all its optional columns are non-null. */
  lemma CreatedUserRoundTrip(p: Platform, u: User, now: int)
    requires Sound(p) && RowOf(p, u, now).Some?
    ensures var back := MapRowToUser(p, RowOf(p, u, now).value);
      && FromJson(ToJson(back)) == Some(back)
      && p.parse(p.dump(ToJson(back))) == Some(ToJson(back))
  {
    JsonRoundTrip(MapRowToUser(p, RowOf(p, u, now).value));
  }

  /** What GetUserInfo shows of a user. */
  function InfoOf(u: User): UserInfo {
    UserInfo(u.id, OrEmpty(u.username), OrEmpty(u.email), OrEmpty(u.avatar), u.phone)
  }

  /** For any row, NULL columns included, going through the cache is an
      idempotent normalisation that no GetUserInfo response and no password
      check can tell from the row. */
  lemma CacheIsInvisible(p: Platform, r: Row)
    ensures var u := MapRowToUser(p, r);
      exists v :: FromJson(ToJson(u)) == Some(v) && FromJson(ToJson(v)) == Some(v)
        && InfoOf(v) == InfoOf(u) && v.pwdHash == u.pwdHash && v.salt == u.salt && v.status == u.status
  {
    var u := MapRowToUser(p, r);
    JsonRoundTrip(u);
    assert FromJson(ToJson(u)) == Some(Filled(u)) && FromJson(ToJson(Filled(u))) == Some(Filled(u));
  }
}
