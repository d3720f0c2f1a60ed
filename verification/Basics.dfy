/** Vocabulary shared by every module: bytes, machine limits and options. */
module Basics {
  type Byte = x: int | 0 <= x < 256

  /** The largest value of the source's `u64`. */
  const U64_MAX: nat := 0xFFFF_FFFF_FFFF_FFFF

  datatype Option<+T> = None | Some(value: T)

  function Min(a: int, b: int): int {
    if a < b then a else b
  }

  function Max(a: int, b: int): int {
    if a < b then b else a
  }

  /** The pieces of `parts`, one after another. */
  function Concat<T>(parts: seq<seq<T>>): seq<T> {
    if parts == [] then [] else parts[0] + Concat(parts[1..])
  }

  lemma {:induction false} ConcatAppend<T>(a: seq<seq<T>>, b: seq<seq<T>>)
    ensures Concat(a + b) == Concat(a) + Concat(b)
  {
    if a == [] {
      assert a + b == b;
    } else {
      assert (a + b)[1..] == a[1..] + b;
      ConcatAppend(a[1..], b);
    }
  }

  lemma JoinsAssociate<T>(a: seq<T>, b: seq<T>, c: seq<T>)
    ensures a + (b + c) == (a + b) + c
  {
  }

  lemma SplitFrom<T>(s: seq<T>, lo: nat, hi: nat)
    requires lo <= hi <= |s|
    ensures s[lo..] == s[lo..hi] + s[hi..]
  {
  }

  lemma TailPieces<T>(s: seq<T>, from: nat, n: nat)
    requires from + n <= |s|
    ensures s[from..][..n] == s[from..from + n] && s[from..][n..] == s[from + n..]
  {
  }

  lemma SliceOfTail<T>(s: seq<T>, lo: nat, i: nat, j: nat)
    requires i <= j && lo + j <= |s|
    ensures s[lo..][i..j] == s[lo + i..lo + j]
  {
  }

  lemma TailOfTail<T>(s: seq<T>, lo: nat, from: nat)
    requires lo <= from <= |s|
    ensures s[lo..][from - lo..] == s[from..]
  {
  }

  /** A piece of the end of a sequence is a piece of the sequence. */
  lemma SliceOfEnd<T>(s: seq<T>, lo: nat, from: nat, n: nat)
    requires lo <= from && from + n <= |s|
    ensures s[lo..][from - lo..][..n] == s[from..from + n]
  {
  }

  lemma ConcatOne<T>(a: seq<T>)
    ensures Concat([a]) == a
  {
    assert [a][1..] == [];
  }

  lemma DropFromLeft<T>(a: seq<T>, b: seq<T>, n: nat)
    requires n <= |a|
    ensures (a + b)[n..] == a[n..] + b
  {
  }
}
