/** The one Redis keyspace that the user cache and the verification codes share. */
module Keyspace {
  import opened Seqs

  datatype Usage = UserRegister | UserLogin | ResetPassword

  /** The enumeration arrives as an integer from the request. */
  function UsageOf(n: int): Option<Usage> {
    match n
    case 1 => Some(UserRegister)
    case 2 => Some(UserLogin)
    case 3 => Some(ResetPassword)
    case _ => None
  }

  function Prefix(u: Usage): string {
    match u
    case UserRegister => "verify_code:register:"
    case UserLogin => "verify_code:login:"
    case ResetPassword => "verify_code:reset_pwd:"
  }

  function CodeKey(u: Usage, target: string): string {
    Prefix(u) + target
  }

  const USER_PREFIX := "user:info:"

  function UserKey(id: string): string {
    USER_PREFIX + id
  }

  lemma PrefixesDiffer(u: Usage, v: Usage, s: string, t: string)
    requires Prefix(u) + s == Prefix(v) + t
    ensures u == v && s == t
  {
    var x, y := Prefix(u) + s, Prefix(v) + t;
    assert x[12] == y[12] && x[14] == y[14];
    assert x[12] == Prefix(u)[12] && x[14] == Prefix(u)[14];
    assert y[12] == Prefix(v)[12] && y[14] == Prefix(v)[14];
    assert x[|Prefix(u)|..] == s && y[|Prefix(v)|..] == t;
  }

  /** The four kinds of key never collide, whatever the strings: equal code keys
      come from the same usage and target, equal user keys from the same id, and a
      code key is never a user key. */
  lemma KeysAreInjective(u: Usage, v: Usage, s: string, t: string)
    ensures CodeKey(u, s) == CodeKey(v, t) <==> u == v && s == t
    ensures UserKey(s) == UserKey(t) <==> s == t
    ensures CodeKey(u, s) != UserKey(t)
    ensures !(USER_PREFIX <= CodeKey(u, s))
  {
    if CodeKey(u, s) == CodeKey(v, t) {
      PrefixesDiffer(u, v, s, t);
    }
    assert UserKey(s)[|USER_PREFIX|..] == s && UserKey(t)[|USER_PREFIX|..] == t;
    assert CodeKey(u, s)[0] == 'v' && UserKey(t)[0] == 'u';
  }
}
