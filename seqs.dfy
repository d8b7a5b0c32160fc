/** Small facts about sequences, kept apart so that each is proved once, in a context of its
    own. */
module Seqs {
  lemma LastSplit<T>(xs: seq<T>)
    requires xs != []
    ensures xs == xs[..|xs| - 1] + [xs[|xs| - 1]]
  {
  }

  lemma AppendNil<T>(xs: seq<T>)
    ensures xs + [] == xs
  {
  }

  lemma FullSlice<T>(xs: seq<T>)
    ensures xs[..|xs|] == xs
  {
  }

  /** The prefix of length `i` of the prefix of length `i + 1`. */
  lemma PrefixOfPrefix<T>(xs: seq<T>, i: nat)
    requires i < |xs|
    ensures xs[..i + 1][..i] == xs[..i]
  {
  }

  /** Dropping the last element of `a + b`, when `b` is not empty. */
  lemma DropLastAppend<T>(a: seq<T>, b: seq<T>)
    requires b != []
    ensures (a + b)[..|a + b| - 1] == a + b[..|b| - 1]
  {
  }

  /** Inserting `x` strictly inside `xs` (at position `j`) keeps its split and its ends. */
  lemma InsertKeepsEnds<T>(xs: seq<T>, j: nat, x: T)
    requires 0 < j < |xs|
    ensures xs == xs[..j] + xs[j..]
    ensures (xs[..j] + [x] + xs[j..])[0] == xs[0]
    ensures (xs[..j] + [x] + xs[j..])[|xs|] == xs[|xs| - 1]
  {
  }

  lemma ConcatAssoc<T>(a: seq<T>, b: seq<T>, c: seq<T>)
    ensures (a + b) + c == a + (b + c)
  {
  }

  lemma SnocAssoc<T>(a: seq<T>, b: seq<T>, x: T)
    ensures (a + b) + [x] == a + (b + [x])
  {
  }

  /** A prefix of a suffix is a slice. */
  lemma PrefixOfSuffix<T>(s: seq<T>, a: nat, l: seq<T>, r: seq<T>)
    requires a <= |s| && l == s[a..] && |r| <= |l| && r == l[..|r|]
    ensures a + |r| <= |s| && s[a..a + |r|] == r
  {
  }
}
