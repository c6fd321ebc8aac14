/** Sequence helpers shared by the models: mapping, summing, and joining bags
    over a sequence, each with the effect of one element's update. */
module Seqs {

  datatype Option<+T> = None | Some(value: T)

  function Map<A, B>(f: A -> B, xs: seq<A>): (ys: seq<B>)
    ensures |ys| == |xs|
    ensures forall i :: 0 <= i < |xs| ==> ys[i] == f(xs[i])
  {
    seq(|xs|, i requires 0 <= i < |xs| => f(xs[i]))
  }

  function Sum(xs: seq<nat>): nat {
    if xs == [] then 0 else Sum(xs[..|xs| - 1]) + xs[|xs| - 1]
  }

  lemma {:induction false} SumUpdate(xs: seq<nat>, i: nat, x: nat)
    requires i < |xs|
    ensures Sum(xs[i := x]) + xs[i] == Sum(xs) + x
  {
    var n := |xs| - 1;
    if i == n {
      assert xs[i := x][..n] == xs[..n];
    } else {
      SumUpdate(xs[..n], i, x);
      assert xs[i := x][..n] == xs[..n][i := x];
    }
  }

  lemma {:induction false} SumBound(xs: seq<nat>, bound: nat)
    requires forall i :: 0 <= i < |xs| ==> xs[i] <= bound
    ensures Sum(xs) <= bound * |xs|
  {
    if xs != [] {
      SumBound(xs[..|xs| - 1], bound);
    }
  }

  lemma {:induction false} SumMember(xs: seq<nat>, i: nat)
    requires i < |xs|
    ensures xs[i] <= Sum(xs)
  {
    if i < |xs| - 1 {
      SumMember(xs[..|xs| - 1], i);
    }
  }

  /** The join of a sequence of bags. */
  function Join(bags: seq<multiset<nat>>): multiset<nat> {
    if bags == [] then multiset{} else Join(bags[..|bags| - 1]) + bags[|bags| - 1]
  }

  lemma {:induction false} JoinUpdate(bags: seq<multiset<nat>>, i: nat, b: multiset<nat>)
    requires i < |bags|
    ensures Join(bags[i := b]) + bags[i] == Join(bags) + b
  {
    var n := |bags| - 1;
    if i == n {
      assert bags[i := b][..n] == bags[..n];
    } else {
      JoinUpdate(bags[..n], i, b);
      assert bags[i := b][..n] == bags[..n][i := b];
      var rest, rest' := Join(bags[..n]), Join(bags[..n][i := b]);
      assert (rest' + bags[n]) + bags[i] == (rest' + bags[i]) + bags[n];
      assert (rest + bags[n]) + b == (rest + b) + bags[n];
    }
  }

  /** An element of one bag counts at least once in the join; in two bags, at least twice. */
  lemma {:induction false} JoinMembers(bags: seq<multiset<nat>>, i: nat, j: nat, c: nat)
    requires i < |bags| && j < |bags| && c in bags[i] && c in bags[j]
    ensures Join(bags)[c] >= if i == j then 1 else 2
  {
    var n := |bags| - 1;
    if i < n && j < n {
      JoinMembers(bags[..n], i, j, c);
    } else if i < n {
      JoinMembers(bags[..n], i, i, c);
    } else if j < n {
      JoinMembers(bags[..n], j, j, c);
    }
  }

  /** Conversely, whatever the join holds comes from some bag. */
  lemma {:induction false} JoinWitness(bags: seq<multiset<nat>>, c: nat) returns (i: nat)
    requires c in Join(bags)
    ensures i < |bags| && c in bags[i]
  {
    var n := |bags| - 1;
    if c in bags[n] {
      i := n;
    } else {
      i := JoinWitness(bags[..n], c);
    }
  }

  lemma {:induction false} JoinEmpty(bags: seq<multiset<nat>>)
    requires forall i :: 0 <= i < |bags| ==> bags[i] == multiset{}
    ensures Join(bags) == multiset{}
  {
    if bags != [] {
      JoinEmpty(bags[..|bags| - 1]);
    }
  }

  function Without<T>(xs: seq<T>, i: nat): seq<T>
    requires i < |xs|
  {
    xs[..i] + xs[i + 1..]
  }
}
