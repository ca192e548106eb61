/** Cutting a sequence into blocks of one size, and joining sequences. Messages are cut into parts and files into chunks
  this way. */
module Blocks {
  newtype byte = x: int | 0 <= x < 256

  type Bytes = seq<byte>

  function Min(a: int, b: int): int {
    if a < b then a else b
  }

  /** Blocks of exactly `size`, except that the last one may be shorter; no block for the empty sequence. */
  function Split<T>(s: seq<T>, size: nat): seq<seq<T>>
    requires size > 0
    decreases |s|
  {
    if s == [] then [] else [s[..Min(size, |s|)]] + Split(s[Min(size, |s|)..], size)
  }

  function Join<T>(blocks: seq<seq<T>>): seq<T> {
    if blocks == [] then [] else blocks[0] + Join(blocks[1..])
  }

  lemma {:induction false} JoinSplit<T>(s: seq<T>, size: nat)
    requires size > 0
    ensures Join(Split(s, size)) == s
    decreases |s|
  {
    if s != [] {
      JoinSplit(s[Min(size, |s|)..], size);
    }
  }

  lemma {:induction false} JoinConcat<T>(a: seq<seq<T>>, b: seq<seq<T>>)
    ensures Join(a + b) == Join(a) + Join(b)
    decreases |a|
  {
    if a == [] {
      assert a + b == b;
    } else {
      assert (a + b)[1..] == a[1..] + b;
      JoinConcat(a[1..], b);
    }
  }

  lemma JoinOne<T>(s: seq<T>)
    ensures Join([s]) == s
  {
    assert [s][1..] == [];
  }

  /** The blocks but the last are full, and no block is empty. */
  lemma {:induction false} SplitSizes<T>(s: seq<T>, size: nat)
    requires size > 0
    ensures forall i :: 0 <= i < |Split(s, size)| ==> 0 < |Split(s, size)[i]| <= size
    ensures forall i :: 0 <= i < |Split(s, size)| - 1 ==> |Split(s, size)[i]| == size
    decreases |s|
  {
    if s != [] {
      var rest := s[Min(size, |s|)..];
      SplitSizes(rest, size);
      assert forall i :: 0 < i < |Split(s, size)| ==> Split(s, size)[i] == Split(rest, size)[i - 1];
    }
  }

  /** Splitting is the only way to cut a sequence into full blocks with a non-empty last block. */
  lemma {:induction false} SplitUnique<T>(blocks: seq<seq<T>>, size: nat)
    requires size > 0
    requires forall i :: 0 <= i < |blocks| ==> 0 < |blocks[i]| <= size
    requires forall i :: 0 <= i < |blocks| - 1 ==> |blocks[i]| == size
    ensures Split(Join(blocks), size) == blocks
    decreases |blocks|
  {
    if blocks != [] {
      SplitUnique(blocks[1..], size);
      var s := Join(blocks);
      if |blocks| == 1 {
        assert blocks[1..] == [] && s == blocks[0];
      } else {
        assert s[..size] == blocks[0] && s[size..] == Join(blocks[1..]);
      }
    }
  }

  // ---- Slices

  lemma NextSlice<T>(s: seq<T>, from: nat, mid: nat, to: nat)
    requires from <= mid <= to <= |s|
    ensures s[from..mid] + s[mid..to] == s[from..to]
  {
    assert s[from..mid] + s[mid..to] == s[from..to];
  }

  lemma SliceOfSlice<T>(s: seq<T>, from: nat, to: nat, i: nat, j: nat)
    requires from <= to <= |s| && i <= j <= to - from
    ensures s[from..to][i..j] == s[from + i..from + j]
  {
    var inner, outer := s[from..to][i..j], s[from + i..from + j];
    assert |inner| == |outer|;
    forall k | 0 <= k < |inner| ensures inner[k] == outer[k] {
      assert inner[k] == s[from..to][i + k] == s[from + i + k];
    }
  }
}
