/** Small facts about sequences, stated once for any element type. */
module Seqs {
  /** Replacing position `i` is cutting the sequence around it. */
  lemma SpliceAt<T>(cs: seq<T>, i: nat, c: T)
    requires i < |cs|
    ensures cs[..i] + ([c] + cs[i + 1..]) == cs[i := c]
    ensures cs[..i + 1] == cs[..i] + [cs[i]]
    ensures cs[i..] == [cs[i]] + cs[i + 1..] && cs[i..][1..] == cs[i + 1..]
  {
  }

  /**
   * Updating one position of a concatenation updates the part that holds it,
   * and the position holds what that part held there.
   */
  lemma PutInConcat<T>(a: seq<T>, b: seq<T>, k: int, v: T)
    requires 0 <= k < |a| + |b|
    ensures k < |a| ==> (a + b)[k] == a[k] && (a + b)[k := v] == a[k := v] + b
    ensures k >= |a| ==> (a + b)[k] == b[k - |a|] && (a + b)[k := v] == a + b[k - |a| := v]
  {
  }

  /** Position `|a| + k` of `a + b` is position `k` of `b`, for reading and for updating. */
  lemma PutBehind<T>(a: seq<T>, b: seq<T>, k: nat, v: T)
    requires k < |b|
    ensures (a + b)[|a| + k] == b[k] && (a + b)[|a| + k := v] == a + b[k := v]
  {
  }

  /** Updating the head of `[x] + s`. */
  lemma PutAtHead<T>(x: T, s: seq<T>, v: T)
    ensures ([x] + s)[0] == x && ([x] + s)[0 := v] == [v] + s
  {
  }

  /** Updating position `1 + k` of `[x] + s` updates `s` at `k`. */
  lemma PutBehindHead<T>(x: T, s: seq<T>, k: nat, v: T)
    requires k < |s|
    ensures ([x] + s)[1 + k] == s[k] && ([x] + s)[1 + k := v] == [x] + s[k := v]
  {
  }

  /** Concatenation is associative. */
  lemma Assoc<T>(a: seq<T>, b: seq<T>, c: seq<T>)
    ensures (a + b) + c == a + (b + c)
  {
  }

  /** The empty sequence is a right unit. */
  lemma EmptyRight<T>(a: seq<T>)
    ensures a + [] == a
  {
  }

  /** The slices at the two ends of a sequence. */
  lemma SliceEnds<T>(s: seq<T>)
    ensures s[..0] == [] && s[0..] == s && s[..|s|] == s && s[|s|..] == []
  {
  }

  /** A sequence is what lies before, at and after position `k`. */
  lemma CutAt<T>(s: seq<T>, k: nat)
    requires k < |s|
    ensures s == s[..k] + ([s[k]] + s[k + 1..])
  {
  }

  /** Membership in a concatenation. */
  lemma InConcat<T>(a: seq<T>, b: seq<T>)
    ensures forall x :: x in a + b <==> x in a || x in b
  {
  }
}
