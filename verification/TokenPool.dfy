/** What a pool of n connections has to be, independently of how it is built.

    Connections are numbered 0..n-1 and each client asks for one of them, uses
    it and gives it back. Two specifications, from weaker to stronger:

    - the *loose* pool: any client that wants a connection may take a free one;
    - the *FIFO* pool: a client that finds none free joins a queue, and a
      returned connection goes straight to the head of that queue.

    The three generations of the C++ pool are shown to refine one or the other. */
module TokenPool {
  import opened Seqs

  /** The n connections, each once. */
  function AllTokens(n: nat): multiset<nat> {
    if n == 0 then multiset{} else AllTokens(n - 1) + multiset{n - 1}
  }

  lemma {:induction false} AllTokensOnce(n: nat, c: nat)
    ensures AllTokens(n)[c] == if c < n then 1 else 0
  {
    if n > 0 {
      AllTokensOnce(n - 1, c);
    }
  }

  datatype View = Wanting | Owns(conn: nat) | Finished

  function Held(v: View): multiset<nat> {
    if v.Owns? then multiset{v.conn} else multiset{}
  }

  function Owned(views: seq<View>): multiset<nat> {
    Join(Map(Held, views))
  }

  lemma OwnedUpdate(views: seq<View>, i: nat, v: View)
    requires i < |views|
    ensures Owned(views[i := v]) + Held(views[i]) == Owned(views) + Held(v)
  {
    JoinUpdate(Map(Held, views), i, Held(v));
    assert Map(Held, views[i := v]) == Map(Held, views)[i := Held(v)];
  }

  /*--------------------------------- The loose pool ---------------------------------*/

  datatype Loose = Loose(free: seq<nat>, views: seq<View>)

  ghost predicate Acquire(p: Loose, i: nat, p': Loose) {
    && i < |p.views| && p.views[i].Wanting? && p.free != []
    && p' == Loose(p.free[1..], p.views[i := Owns(p.free[0])])
  }

  ghost predicate GiveBack(p: Loose, i: nat, p': Loose) {
    && i < |p.views| && p.views[i].Owns?
    && p' == Loose(p.free + [p.views[i].conn], p.views[i := Finished])
  }

  ghost predicate LooseNext(p: Loose, p': Loose) {
    exists i: nat :: Acquire(p, i, p') || GiveBack(p, i, p')
  }

  /** Zero, one or two loose steps. */
  ghost predicate LooseSteps(p: Loose, p': Loose) {
    p == p' || LooseNext(p, p') || exists mid :: LooseNext(p, mid) && LooseNext(mid, p')
  }

  ghost predicate Conserved(p: Loose, n: nat) {
    multiset(p.free) + Owned(p.views) == AllTokens(n)
  }

  lemma AcquireConserves(p: Loose, i: nat, p': Loose, n: nat)
    requires Conserved(p, n) && Acquire(p, i, p')
    ensures Conserved(p', n)
  {
    var c, owned := p.free[0], Owned(p.views);
    OwnedUpdate(p.views, i, Owns(c));
    assert Owned(p'.views) == owned + multiset{c};
    assert p.free == [c] + p.free[1..];
    assert multiset(p.free) == multiset{c} + multiset(p'.free);
  }

  lemma GiveBackConserves(p: Loose, i: nat, p': Loose, n: nat)
    requires Conserved(p, n) && GiveBack(p, i, p')
    ensures Conserved(p', n)
  {
    var c, owned' := p.views[i].conn, Owned(p'.views);
    OwnedUpdate(p.views, i, Finished);
    assert Owned(p.views) == owned' + multiset{c};
    assert multiset(p'.free) == multiset(p.free) + multiset{c};
  }

  lemma LooseConserves(p: Loose, p': Loose, n: nat)
    requires Conserved(p, n) && LooseNext(p, p')
    ensures Conserved(p', n) && |p'.views| == |p.views|
  {
    var i: nat :| Acquire(p, i, p') || GiveBack(p, i, p');
    if Acquire(p, i, p') {
      AcquireConserves(p, i, p', n);
    } else {
      GiveBackConserves(p, i, p', n);
    }
  }

  lemma LooseStepsConserve(p: Loose, p': Loose, n: nat)
    requires Conserved(p, n) && LooseSteps(p, p')
    ensures Conserved(p', n) && |p'.views| == |p.views|
  {
    if p != p' && !LooseNext(p, p') {
      var mid :| LooseNext(p, mid) && LooseNext(mid, p');
      LooseConserves(p, mid, n);
      LooseConserves(mid, p', n);
    } else if p != p' {
      LooseConserves(p, p', n);
    }
  }

  ghost predicate FreeAt(p: Loose, c: nat, k: nat) {
    k < |p.free| && p.free[k] == c
  }

  ghost predicate OwnedBy(p: Loose, c: nat, i: nat) {
    i < |p.views| && p.views[i] == Owns(c)
  }

  /** Connection c is in exactly one place: one free slot, or one owner. */
  ghost predicate ExactlyOnePlace(p: Loose, c: nat) {
    && ((exists k: nat :: FreeAt(p, c, k)) <==> !(exists i: nat :: OwnedBy(p, c, i)))
    && (forall j: nat, k: nat :: FreeAt(p, c, j) && FreeAt(p, c, k) ==> j == k)
    && (forall i: nat, j: nat :: OwnedBy(p, c, i) && OwnedBy(p, c, j) ==> i == j)
  }

  lemma FreeOnce(p: Loose, c: nat, j: nat, k: nat)
    requires FreeAt(p, c, j) && FreeAt(p, c, k) && j < k
    ensures multiset(p.free)[c] >= 2
  {
    var a, b := p.free[..k], p.free[k..];
    assert p.free == a + b;
    assert a[j] in a && b[0] in b;
    assert c in multiset(a) && c in multiset(b);
  }

  /** Conservation of the bag of connections means each is in exactly one place,
      and nothing but those n connections is ever in the pool. */
  lemma ConservationIsExclusivity(p: Loose, n: nat)
    requires Conserved(p, n)
    ensures forall c: nat :: c < n ==> ExactlyOnePlace(p, c)
    ensures forall k :: 0 <= k < |p.free| ==> p.free[k] < n
    ensures forall i :: 0 <= i < |p.views| && p.views[i].Owns? ==> p.views[i].conn < n
  {
    var bags := Map(Held, p.views);
    forall c: nat
      ensures multiset(p.free)[c] + Owned(p.views)[c] == if c < n then 1 else 0
    {
      AllTokensOnce(n, c);
    }
    forall c: nat, i: nat, j: nat | OwnedBy(p, c, i) && OwnedBy(p, c, j)
      ensures Owned(p.views)[c] >= if i == j then 1 else 2
    {
      JoinMembers(bags, i, j, c);
    }
    forall c: nat, j: nat, k: nat | FreeAt(p, c, j) && FreeAt(p, c, k) && j < k
      ensures multiset(p.free)[c] >= 2
    {
      FreeOnce(p, c, j, k);
    }
    forall c: nat, k: nat | FreeAt(p, c, k)
      ensures multiset(p.free)[c] >= 1
    {
      assert c in p.free;
    }
    forall c: nat | c < n
      ensures ExactlyOnePlace(p, c)
    {
      if c in multiset(p.free) {
        var k :| 0 <= k < |p.free| && p.free[k] == c;
        assert FreeAt(p, c, k);
      } else {
        var i := JoinWitness(bags, c);
        assert OwnedBy(p, c, i);
      }
    }
    forall k | 0 <= k < |p.free|
      ensures p.free[k] < n
    {
      assert FreeAt(p, p.free[k], k);
    }
    forall i | 0 <= i < |p.views| && p.views[i].Owns?
      ensures p.views[i].conn < n
    {
      assert OwnedBy(p, p.views[i].conn, i);
    }
  }

  /*--------------------------------- The FIFO pool ---------------------------------*/

  datatype Fifo = Fifo(free: seq<nat>, queue: seq<nat>, views: seq<View>)

  function Forget(f: Fifo): Loose {
    Loose(f.free, f.views)
  }

  ghost predicate FifoAcquire(f: Fifo, i: nat, f': Fifo) {
    && i < |f.views| && f.views[i].Wanting? && i !in f.queue && f.free != []
    && f' == Fifo(f.free[1..], f.queue, f.views[i := Owns(f.free[0])])
  }

  ghost predicate FifoEnqueue(f: Fifo, i: nat, f': Fifo) {
    && i < |f.views| && f.views[i].Wanting? && i !in f.queue && f.free == []
    && f' == f.(queue := f.queue + [i])
  }

  /** A returned connection goes to the head of the queue, or becomes free if nobody waits. */
  ghost predicate FifoReturn(f: Fifo, i: nat, f': Fifo) {
    && i < |f.views| && f.views[i].Owns?
    && var c := f.views[i].conn;
       if f.queue == [] then
         f' == Fifo(f.free + [c], [], f.views[i := Finished])
       else
         && f.queue[0] < |f.views|
         && f' == Fifo(f.free, f.queue[1..], f.views[i := Finished][f.queue[0] := Owns(c)])
  }

  ghost predicate FifoNext(f: Fifo, f': Fifo) {
    exists i: nat :: FifoAcquire(f, i, f') || FifoEnqueue(f, i, f') || FifoReturn(f, i, f')
  }

  ghost predicate Distinct(xs: seq<nat>) {
    forall i, j :: 0 <= i < j < |xs| ==> xs[i] != xs[j]
  }

  /** Queued clients are distinct and still want a connection, and a free
      connection never coexists with a queued client. */
  ghost predicate FifoInv(f: Fifo) {
    && Distinct(f.queue)
    && (forall k :: 0 <= k < |f.queue| ==> f.queue[k] < |f.views| && f.views[f.queue[k]].Wanting?)
    && (f.free != [] ==> f.queue == [])
  }

  lemma FifoKeepsInv(f: Fifo, f': Fifo)
    requires FifoInv(f) && FifoNext(f, f')
    ensures FifoInv(f')
  {
    var i: nat :| FifoAcquire(f, i, f') || FifoEnqueue(f, i, f') || FifoReturn(f, i, f');
    if FifoReturn(f, i, f') && f.queue != [] {
      assert forall k :: 0 <= k < |f'.queue| ==> f'.queue[k] == f.queue[k + 1];
    }
  }

  /** The direct hand-off is a give-back followed by an acquisition by the head
      of the queue: the FIFO pool refines the loose pool in at most two steps. */
  lemma FifoRefinesLoose(f: Fifo, f': Fifo)
    requires FifoInv(f) && FifoNext(f, f')
    ensures LooseSteps(Forget(f), Forget(f'))
  {
    var i: nat :| FifoAcquire(f, i, f') || FifoEnqueue(f, i, f') || FifoReturn(f, i, f');
    if FifoAcquire(f, i, f') {
      assert Acquire(Forget(f), i, Forget(f'));
    } else if FifoReturn(f, i, f') {
      var c := f.views[i].conn;
      var mid := Loose(f.free + [c], f.views[i := Finished]);
      assert GiveBack(Forget(f), i, mid);
      if f.queue != [] {
        assert mid.free[0] == c && mid.free[1..] == [];
        assert Acquire(mid, f.queue[0], Forget(f'));
        assert LooseNext(Forget(f), mid) && LooseNext(mid, Forget(f'));
      }
    }
  }

  lemma FifoConserves(f: Fifo, f': Fifo, n: nat)
    requires FifoInv(f) && Conserved(Forget(f), n) && FifoNext(f, f')
    ensures FifoInv(f') && Conserved(Forget(f'), n)
  {
    FifoKeepsInv(f, f');
    FifoRefinesLoose(f, f');
    LooseStepsConserve(Forget(f), Forget(f'), n);
  }
}
