/** The two serialised bodies of the strand pools, as functions on their data.

    Both strand generations keep a deque of idle connections and a queue of
    suspended clients; what they do to them in one strand turn is the same. */
module PoolCore {
  import opened Seqs
  import opened TokenPool

  datatype Core = Core(pool: seq<nat>, waiters: seq<nat>)

  /** GetConnection after its post to the strand: pop the front of the deque, or queue up. */
  function GetCore(k: Core, client: nat): (Core, Option<nat>) {
    if k.pool != [] then
      (Core(k.pool[1..], k.waiters), Some(k.pool[0]))
    else
      (Core(k.pool, k.waiters + [client]), None)
  }

  /** The lambda ReturnConnection posts: serve the first waiter, or push to the deque. */
  function ReturnCore(k: Core, conn: nat): (Core, Option<nat>) {
    if k.waiters != [] then
      (Core(k.pool, k.waiters[1..]), Some(k.waiters[0]))
    else
      (Core(k.pool + [conn], k.waiters), None)
  }

  function Numbered(n: nat): (cs: seq<nat>) {
    seq(n, i => i)
  }

  lemma {:induction false} NumberedIsAllTokens(n: nat)
    ensures multiset(Numbered(n)) == AllTokens(n)
  {
    if n > 0 {
      NumberedIsAllTokens(n - 1);
      assert Numbered(n) == Numbered(n - 1) + [n - 1];
    }
  }
}
