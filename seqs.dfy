/** Facts about sequences that the proofs of the other modules use at many
    element types; stated once, generically, so that no proof has to
    rediscover them element by element. */
module Seqs {
  /** Concatenation is associative. */
  lemma AppendAssoc<T>(a: seq<T>, b: seq<T>, c: seq<T>)
    ensures a + b + c == a + (b + c)
  {
  }

  /** A non-empty sequence is its head followed by its tail. */
  lemma HeadTail<T>(xs: seq<T>)
    requires xs != []
    ensures [xs[0]] + xs[1..] == xs
  {
  }

  /** A prefix one longer is the prefix followed by the next element. */
  lemma PrefixStep<T>(xs: seq<T>, i: nat)
    requires i < |xs|
    ensures xs[..i + 1] == xs[..i] + [xs[i]]
  {
  }

  /** A prefix of a prefix is a prefix. */
  lemma PrefixOfPrefix<T>(xs: seq<T>, i: nat)
    requires i < |xs|
    ensures xs[..i + 1][..i] == xs[..i]
  {
  }

  /** Dropping the last element of `a + b`, for a non-empty `b`, drops the
      last element of `b`. */
  lemma InitOfAppend<T>(a: seq<T>, b: seq<T>)
    requires b != []
    ensures var c := a + b;
      c[..|c| - 1] == a + b[..|b| - 1] && c[|c| - 1] == b[|b| - 1]
  {
  }

  /** Membership in a list that is its prefix plus its last element. */
  lemma InSnoc<T>(x: T, xs: seq<T>)
    requires xs != []
    ensures x in xs <==> x in xs[..|xs| - 1] || x == xs[|xs| - 1]
  {
    assert xs == xs[..|xs| - 1] + [xs[|xs| - 1]];
  }

  /** The multiset of a non-empty sequence is that of its front and its last
      element. */
  lemma MultisetSnoc<T>(xs: seq<T>)
    requires xs != []
    ensures multiset(xs) == multiset(xs[..|xs| - 1]) + multiset{xs[|xs| - 1]}
  {
    assert xs == xs[..|xs| - 1] + [xs[|xs| - 1]];
  }

  /** A prefix of a suffix is an infix. */
  lemma PrefixOfSuffix<T>(xs: seq<T>, suffix: seq<T>, prefix: seq<T>, k: nat)
    requires k <= |xs| && suffix == xs[k..]
    requires |prefix| <= |suffix| && prefix == suffix[..|prefix|]
    ensures k + |prefix| <= |xs| && prefix == xs[k..k + |prefix|]
  {
    assert forall i :: 0 <= i < |prefix| ==> prefix[i] == xs[k + i];
  }
}
