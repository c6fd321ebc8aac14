/** How the Redis client spreads requests over its connections: an atomic 64-bit
    counter, incremented by every request whoever makes it, modulo their number. */
module RoundRobin {

  /** The counter wraps round at 2^64. */
  const WRAP: nat := 0x1_0000_0000_0000_0000

  class RedisClient {
    const size: nat
    var requestCounter: nat
    ghost var picks: seq<nat>

    /** The constructor's check: at least one connection. */
    static method Create(size: int) returns (made: RedisClient?)
      ensures made == null <==> size <= 0
      ensures made != null ==> fresh(made) && made.size == size && made.Valid() && made.picks == []
    {
      made := null;
      if size > 0 {
        made := new RedisClient(size);
      }
    }

    constructor (size: nat)
      requires size > 0
      ensures this.size == size && Valid() && picks == []
    {
      this.size := size;
      requestCounter, picks := 0, [];
    }

    /** The picks so far are those of a counter that started at zero. */
    ghost predicate Valid()
      reads this
    {
      && size > 0
      && requestCounter == |picks| % WRAP
      && forall j :: 0 <= j < |picks| ==> picks[j] == Pick(0, j, size)
    }

    /** fetch_add is one atomic step, so callers are served in the order of the
        counter, however their threads interleave. */
    method GetNextConnection() returns (index: nat)
      requires Valid()
      modifies this
      ensures Valid() && index < size && picks == old(picks) + [index]
    {
      index := requestCounter % size;
      requestCounter := (requestCounter + 1) % WRAP;
      picks := picks + [index];
      CounterStep(|picks| - 1);
    }
  }

  lemma CounterStep(j: nat)
    ensures (j % WRAP + 1) % WRAP == (j + 1) % WRAP
  {
  }

  /** The connection picked by the j-th request after the counter stood at c. */
  function Pick(c: nat, j: nat, n: nat): nat
    requires n > 0
  {
    (c + j) % WRAP % n
  }

  /** How many of m requests from counter value c pick connection i. */
  function Count(c: nat, m: nat, i: nat, n: nat): nat
    requires n > 0
  {
    if m == 0 then 0 else Count(c, m - 1, i, n) + if Pick(c, m - 1, n) == i then 1 else 0
  }

  /** How many of the m numbers from a on have remainder i. */
  function CountIn(a: nat, m: nat, i: nat, n: nat): nat
    requires n > 0
  {
    if m == 0 then 0 else CountIn(a, m - 1, i, n) + if (a + m - 1) % n == i then 1 else 0
  }

  lemma {:induction false} CountInAppend(a: nat, m: nat, k: nat, i: nat, n: nat)
    requires n > 0
    ensures CountIn(a, m + k, i, n) == CountIn(a, m, i, n) + CountIn(a + m, k, i, n)
  {
    if k > 0 {
      CountInAppend(a, m, k - 1, i, n);
      assert a + (m + k) - 1 == (a + m) + k - 1;
    }
  }

  lemma {:induction false} CountAppend(c: nat, m: nat, k: nat, i: nat, n: nat)
    requires n > 0
    ensures Count(c, m + k, i, n) == Count(c, m, i, n) + Count(c + m, k, i, n)
  {
    if k > 0 {
      CountAppend(c, m, k - 1, i, n);
      assert c + (m + k - 1) == (c + m) + (k - 1);
    }
  }

  lemma SameRemainder(x: nat, y: nat, n: nat)
    requires n > 0 && x % n == y % n && x <= y < x + n
    ensures x == y
  {
    var d := y / n - x / n;
    assert y - x == n * d;
    if d != 0 {
      Multiple(n, d);
    }
  }

  lemma Multiple(n: nat, d: int)
    requires d != 0
    ensures n * d >= n || n * d <= 0 - n
  {
  }

  /** Fewer than n consecutive numbers contain each remainder at most once. */
  lemma {:induction false} AtMostOnce(a: nat, m: nat, i: nat, n: nat)
    requires n > 0 && m <= n
    ensures CountIn(a, m, i, n) <= 1
    ensures CountIn(a, m, i, n) == 1 ==> exists x :: a <= x < a + m && x % n == i
  {
    if m > 0 {
      AtMostOnce(a, m - 1, i, n);
      var last := a + m - 1;
      if last % n == i && CountIn(a, m - 1, i, n) == 1 {
        var x :| a <= x < a + m - 1 && x % n == i;
        SameRemainder(x, last, n);
      }
    }
  }

  lemma {:induction false} CountsMember(a: nat, m: nat, i: nat, n: nat, x: nat)
    requires n > 0 && a <= x < a + m && x % n == i
    ensures CountIn(a, m, i, n) >= 1
  {
    if x < a + m - 1 {
      CountsMember(a, m - 1, i, n, x);
    }
  }

  lemma RemainderReached(a: nat, i: nat, n: nat) returns (x: nat)
    requires i < n
    ensures a <= x < a + n && x % n == i
  {
    var d := (i - a) % n;
    x := a + d;
    var k := (i - a) / n;
    assert i - a == n * k + d;
    assert x == n * (-k) + i;
    RemainderIs(x, n, -k, i);
  }

  lemma RemainderIs(x: nat, n: nat, k: int, i: nat)
    requires i < n && x == n * k + i
    ensures x % n == i
  {
    var d := k - x / n;
    assert n * d == x % n - i;
    if d != 0 {
      Multiple(n, d);
    }
  }

  lemma ExactlyOnce(a: nat, i: nat, n: nat)
    requires i < n
    ensures CountIn(a, n, i, n) == 1
  {
    var x := RemainderReached(a, i, n);
    CountsMember(a, n, i, n, x);
    AtMostOnce(a, n, i, n);
  }

  /** k * n consecutive numbers contain each remainder exactly k times. */
  lemma {:induction false} WindowIsEven(a: nat, k: nat, i: nat, n: nat)
    requires i < n
    ensures CountIn(a, k * n, i, n) == k
  {
    if k > 0 {
      assert k * n == (k - 1) * n + n;
      WindowIsEven(a, k - 1, i, n);
      CountInAppend(a, (k - 1) * n, n, i, n);
      ExactlyOnce(a + (k - 1) * n, i, n);
    }
  }

  lemma Quotient(m: nat, n: nat)
    requires n > 0
    ensures m == m / n * n + m % n && m % n < n
  {
  }

  lemma SplitTail(a: nat, k: nat, full: nat, r: nat, i: nat, n: nat)
    requires i < n && full == k * n
    ensures CountIn(a, full + r, i, n) == k + CountIn(a + full, r, i, n)
  {
    CountInAppend(a, full, r, i, n);
    WindowIsEven(a, k, i, n);
  }

  lemma StretchIsEven(a: nat, m: nat, i: nat, j: nat, n: nat)
    requires i < n && j < n
    ensures CountIn(a, m, i, n) <= CountIn(a, m, j, n) + 1
  {
    var k, r := m / n, m % n;
    var full := k * n;
    Quotient(m, n);
    SplitTail(a, k, full, r, i, n);
    SplitTail(a, k, full, r, j, n);
    AtMostOnce(a + full, r, i, n);
  }

  lemma {:induction false} NoWrap(c: nat, m: nat, i: nat, n: nat)
    requires n > 0 && c + m <= WRAP
    ensures Count(c, m, i, n) == CountIn(c, m, i, n)
  {
    if m > 0 {
      NoWrap(c, m - 1, i, n);
      BelowWrap(c + m - 1);
      assert c + (m - 1) == c + m - 1;
    }
  }

  lemma BelowWrap(x: nat)
    requires x < WRAP
    ensures x % WRAP == x
  {
  }

  lemma {:induction false} AfterWrap(m: nat, i: nat, n: nat)
    requires n > 0
    ensures Count(WRAP, m, i, n) == Count(0, m, i, n)
  {
    if m > 0 {
      AfterWrap(m - 1, i, n);
      assert (WRAP + (m - 1)) % WRAP == (0 + (m - 1)) % WRAP;
    }
  }

  /** How often the counter goes from its largest value to zero between the first
      and the last of m requests. */
  function Wraps(c: nat, m: nat): nat {
    if m == 0 then 0 else (c + m - 1) / WRAP
  }

  /** Every run of k * n requests that does not cross a wrap picks each of the n
      connections exactly k times. */
  lemma WindowPicksEach(c: nat, k: nat, i: nat, n: nat)
    requires i < n && c + k * n <= WRAP
    ensures Count(c, k * n, i, n) == k
  {
    NoWrap(c, k * n, i, n);
    WindowIsEven(c, k, i, n);
  }

  /** After any number of requests that span w wraps of the counter, the picks of
      any two connections differ by at most w + 1. */
  lemma {:induction false} BalancedUpToWraps(c: nat, m: nat, i: nat, j: nat, n: nat)
    requires c < WRAP && i < n && j < n
    ensures Count(c, m, i, n) <= Count(c, m, j, n) + Wraps(c, m) + 1
    decreases m
  {
    if c + m <= WRAP {
      NoWrap(c, m, i, n);
      NoWrap(c, m, j, n);
      StretchIsEven(c, m, i, j, n);
    } else {
      var first := WRAP - c;
      var rest := m - first;
      CountAppend(c, first, rest, i, n);
      CountAppend(c, first, rest, j, n);
      NoWrap(c, first, i, n);
      NoWrap(c, first, j, n);
      StretchIsEven(c, first, i, j, n);
      AfterWrap(rest, i, n);
      AfterWrap(rest, j, n);
      BalancedUpToWraps(0, rest, i, j, n);
      assert c + m - 1 == WRAP + (rest - 1);
    }
  }

  lemma QuotientBelow(x: nat, w: nat)
    requires x < (w + 1) * WRAP
    ensures x / WRAP <= w
  {
  }

  /** In other words: before the counter has gone round a (w + 1)-st time, no connection
      is more than w + 1 picks ahead of another. */
  lemma BalancedWithin(c: nat, m: nat, w: nat, i: nat, j: nat, n: nat)
    requires c < WRAP && i < n && j < n && c + m <= (w + 1) * WRAP
    ensures Count(c, m, i, n) <= Count(c, m, j, n) + w + 1
  {
    BalancedUpToWraps(c, m, i, j, n);
    if m > 0 {
      QuotientBelow(c + m - 1, w);
    }
  }

  lemma Tail(a: nat, k: nat, r: nat, i: nat, n: nat)
    requires i < n && r < n && a == n * k
    ensures CountIn(a, r, i, n) == if i < r then 1 else 0
  {
    AtMostOnce(a, r, i, n);
    if i < r {
      RemainderIs(a + i, n, k, i);
      CountsMember(a, r, i, n, a + i);
    } else if CountIn(a, r, i, n) == 1 {
      var x :| a <= x < a + r && x % n == i;
      RemainderIs(x, n, k, x - a);
    }
  }

  lemma CycleOf(k: nat, r: nat, full: nat, i: nat, n: nat)
    requires full == k * n && r < n && i < n
    ensures CountIn(0, full + r, i, n) == k + if i < r then 1 else 0
  {
    SplitTail(0, k, full, r, i, n);
    Tail(full, k, r, i, n);
  }

  lemma OneCycle(m: nat, i: nat, n: nat)
    requires i < n
    ensures CountIn(0, m, i, n) == m / n + if i < m % n then 1 else 0
  {
    var k, r := m / n, m % n;
    var full := k * n;
    Quotient(m, n);
    CycleOf(k, r, full, i, n);
  }

  /** A wrap costs balance exactly when n does not divide 2^64: then each full cycle
      of the counter gives the first connection one pick more than the last. */
  lemma {:induction false} DriftPerCycle(cycles: nat, cycle: nat, n: nat)
    requires n > 0 && cycle == WRAP
    ensures Count(0, cycles * cycle, 0, n) ==
            Count(0, cycles * cycle, n - 1, n) + if cycle % n == 0 then 0 else cycles
    decreases cycles
  {
    if cycles > 0 {
      var rest := (cycles - 1) * cycle;
      assert cycles * cycle == cycle + rest;
      DriftPerCycle(cycles - 1, cycle, n);
      forall i: nat | i == 0 || i == n - 1
        ensures Count(0, cycles * cycle, i, n) == CountIn(0, cycle, i, n) + Count(0, rest, i, n)
      {
        CountAppend(0, cycle, rest, i, n);
        AfterWrap(rest, i, n);
        NoWrap(0, cycle, i, n);
      }
      OneCycle(cycle, 0, n);
      OneCycle(cycle, n - 1, n);
    }
  }
}
