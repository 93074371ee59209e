/**
 Ordered subsequences. A pattern `p` is a subsequence of `s` when its elements can be
 found in `s` in the same order, possibly with other elements in between. The reference
 definition is an explicit embedding (a strictly increasing choice of positions);
 `IsSubsequence` decides it by the usual two-pointer walk.
 */
module Subsequence {

  /** `idx` picks, in strictly increasing order, one position of `s` for each element of `p`. */
  ghost predicate IsEmbedding<T>(idx: seq<int>, p: seq<T>, s: seq<T>) {
    && |idx| == |p|
    && (forall k :: 0 <= k < |idx| ==> 0 <= idx[k] < |s| && s[idx[k]] == p[k])
    && (forall i, j :: 0 <= i < j < |idx| ==> idx[i] < idx[j])
  }

  ghost predicate Subseq<T>(p: seq<T>, s: seq<T>) {
    exists idx :: IsEmbedding(idx, p, s)
  }

  lemma SubseqNil<T>(s: seq<T>)
    ensures Subseq([], s)
  {
    assert IsEmbedding([], [], s);
  }

  lemma NotSubseqOfNil<T>(p: seq<T>)
    requires p != []
    ensures !Subseq(p, [])
  {
    forall idx: seq<int> | |idx| == |p|
      ensures !IsEmbedding(idx, p, [])
    {
      assert !(0 <= idx[0] < 0);
    }
  }

  /** Every element of a subsequence occurs in the sequence. */
  lemma SubseqMissing<T>(p: seq<T>, s: seq<T>, x: T)
    requires x in p && x !in s
    ensures !Subseq(p, s)
  {
  }

  /** Dropping the head of `s` loses no embedding that does not use position 0. */
  lemma SubseqSkip<T>(p: seq<T>, s: seq<T>)
    requires s != []
    ensures Subseq(p, s[1..]) ==> Subseq(p, s)
  {
    if idx :| IsEmbedding(idx, p, s[1..]) {
      var up := seq(|idx|, k requires 0 <= k < |idx| => idx[k] + 1);
      assert IsEmbedding(up, p, s);
    }
  }

  /** A matching head may always be taken greedily. */
  lemma SubseqTakeHead<T>(p: seq<T>, s: seq<T>)
    requires p != [] && s != [] && s[0] == p[0]
    ensures Subseq(p, s) <==> Subseq(p[1..], s[1..])
  {
    if Subseq(p[1..], s[1..]) {
      TakeHeadUp(p, s);
    }
    if Subseq(p, s) {
      TakeHeadDown(p, s);
    }
  }

  lemma TakeHeadUp<T>(p: seq<T>, s: seq<T>)
    requires p != [] && s != [] && s[0] == p[0] && Subseq(p[1..], s[1..])
    ensures Subseq(p, s)
  {
    var idx :| IsEmbedding(idx, p[1..], s[1..]);
    var up := [0] + seq(|idx|, k requires 0 <= k < |idx| => idx[k] + 1);
    assert IsEmbedding(up, p, s);
  }

  lemma TakeHeadDown<T>(p: seq<T>, s: seq<T>)
    requires p != [] && s != [] && Subseq(p, s)
    ensures Subseq(p[1..], s[1..])
  {
    var idx :| IsEmbedding(idx, p, s);
    var down := seq(|idx| - 1, k requires 0 <= k < |idx| - 1 => idx[k + 1] - 1);
    forall k | 0 <= k < |down|
      ensures 0 <= down[k] < |s[1..]| && s[1..][down[k]] == p[1..][k]
    {
      assert idx[0] < idx[k + 1];
    }
    assert IsEmbedding(down, p[1..], s[1..]);
  }

  /** A non-matching head is never used by an embedding. */
  lemma SubseqDropHead<T>(p: seq<T>, s: seq<T>)
    requires p != [] && s != [] && s[0] != p[0]
    ensures Subseq(p, s) <==> Subseq(p, s[1..])
  {
    SubseqSkip(p, s);
    if idx :| IsEmbedding(idx, p, s) {
      assert idx[0] != 0;
      var down := seq(|idx|, k requires 0 <= k < |idx| => idx[k] - 1);
      forall k | 0 <= k < |down|
        ensures 0 <= down[k] < |s[1..]| && s[1..][down[k]] == p[k]
      {
        if k > 0 {
          assert idx[0] < idx[k];
        }
      }
      assert IsEmbedding(down, p, s[1..]);
    }
  }

  /** Decides `Subseq` by walking both sequences from the front. */
  function IsSubsequence<T(==)>(p: seq<T>, s: seq<T>): (r: bool)
    decreases |s|
    ensures r <==> Subseq(p, s)
  {
    if p == [] then
      SubseqNil(s);
      true
    else if s == [] then
      NotSubseqOfNil(p);
      false
    else if s[0] == p[0] then
      SubseqTakeHead(p, s);
      IsSubsequence(p[1..], s[1..])
    else
      SubseqDropHead(p, s);
      IsSubsequence(p, s[1..])
  }

  lemma SubseqReflexive<T>(p: seq<T>)
    ensures Subseq(p, p)
  {
    var id := seq(|p|, k requires 0 <= k < |p| => k);
    assert IsEmbedding(id, p, p);
  }

  /** A prefix of a sequence is a subsequence of it. */
  lemma SubseqPrefix<T>(p: seq<T>, q: seq<T>)
    ensures Subseq(p, p + q)
  {
    var id := seq(|p|, k requires 0 <= k < |p| => k);
    assert IsEmbedding(id, p, p + q);
  }

  /** A prefix of a pattern matches wherever the pattern does. */
  lemma SubseqOfPrefix<T>(p: seq<T>, n: nat, s: seq<T>)
    requires n <= |p| && Subseq(p, s)
    ensures Subseq(p[..n], s)
  {
    var idx :| IsEmbedding(idx, p, s);
    assert IsEmbedding(idx[..n], p[..n], s);
  }

  lemma SubseqTransitive<T>(a: seq<T>, b: seq<T>, c: seq<T>)
    requires Subseq(a, b) && Subseq(b, c)
    ensures Subseq(a, c)
  {
    var ab :| IsEmbedding(ab, a, b);
    var bc :| IsEmbedding(bc, b, c);
    var ac := seq(|a|, k requires 0 <= k < |a| => bc[ab[k]]);
    assert IsEmbedding(ac, a, c);
  }

  /** The positions of an embedding grow at least as fast as their index. */
  lemma {:induction false} EmbeddingGrows<T>(idx: seq<int>, p: seq<T>, s: seq<T>, k: nat)
    requires IsEmbedding(idx, p, s) && k < |idx|
    ensures k <= idx[k]
  {
    if k > 0 {
      EmbeddingGrows(idx, p, s, k - 1);
    }
  }

  /** A pattern longer than the sequence never matches. */
  lemma SubseqLength<T>(p: seq<T>, s: seq<T>)
    requires Subseq(p, s)
    ensures |p| <= |s|
  {
    if p != [] {
      var idx :| IsEmbedding(idx, p, s);
      EmbeddingGrows(idx, p, s, |p| - 1);
    }
  }

  /** Elements added to the front of both sides keep an embedding. */
  lemma SubseqConsBoth<T>(x: T, p: seq<T>, s: seq<T>)
    requires Subseq(p, s)
    ensures Subseq([x] + p, [x] + s)
  {
    SubseqTakeHead([x] + p, [x] + s);
    assert ([x] + p)[1..] == p && ([x] + s)[1..] == s;
  }

  /** An element added to the front of the sequence alone keeps an embedding. */
  lemma SubseqConsRight<T>(x: T, p: seq<T>, s: seq<T>)
    requires Subseq(p, s)
    ensures Subseq(p, [x] + s)
  {
    SubseqSkip(p, [x] + s);
    assert ([x] + s)[1..] == s;
  }

  /** Concatenation regroups freely. */
  lemma SeqAppendAssoc<T>(a: seq<T>, b: seq<T>, c: seq<T>)
    ensures (a + b) + c == a + (b + c)
  {
  }
}
