/** Cutting UTF-8 text into requests without ever splitting a character. */
module Utf8 {
  import opened Basics

  predicate IsTail(b: Byte) {
    0x80 <= b < 0xC0
  }

  /** Length of the character at the front, by the table of section 4 of RFC 3629; 0 if there is none. */
  function CharLength(s: seq<Byte>): (n: nat)
    ensures n <= |s| && n <= 4
    ensures forall k :: 0 < k < n ==> IsTail(s[k])
    ensures n > 0 ==> !IsTail(s[0])
  {
    if s == [] then 0
    else if s[0] < 0x80 then 1
    else if |s| < 2 then 0
    else if 0xC2 <= s[0] < 0xE0 then if IsTail(s[1]) then 2 else 0
    else if |s| < 3 then 0
    else if s[0] == 0xE0 then if 0xA0 <= s[1] < 0xC0 && IsTail(s[2]) then 3 else 0
    else if s[0] == 0xED then if 0x80 <= s[1] < 0xA0 && IsTail(s[2]) then 3 else 0
    else if 0xE1 <= s[0] < 0xF0 then if IsTail(s[1]) && IsTail(s[2]) then 3 else 0
    else if |s| < 4 then 0
    else if s[0] == 0xF0 then if 0x90 <= s[1] < 0xC0 && IsTail(s[2]) && IsTail(s[3]) then 4 else 0
    else if 0xF1 <= s[0] < 0xF4 then if IsTail(s[1]) && IsTail(s[2]) && IsTail(s[3]) then 4 else 0
    else if s[0] == 0xF4 then if 0x80 <= s[1] < 0x90 && IsTail(s[2]) && IsTail(s[3]) then 4 else 0
    else 0
  }

  predicate WellFormed(s: seq<Byte>)
    decreases |s|
  {
    s == [] || (CharLength(s) > 0 && WellFormed(s[CharLength(s)..]))
  }

  /** Back up from `end` over continuation bytes, towards the start. */
  function BackUp(s: seq<Byte>, end: nat): (cut: nat)
    requires end < |s|
    ensures cut <= end && forall k :: cut < k <= end ==> IsTail(s[k])
    ensures cut == 0 || !IsTail(s[cut])
  {
    if end > 0 && IsTail(s[end]) then BackUp(s, end - 1) else end
  }

  /** How much of `s` the next piece takes. */
  function CutPoint(s: seq<Byte>, max: nat): (cut: nat)
    requires s != [] && max > 0
    ensures 0 < cut <= |s| && cut <= max
  {
    if |s| <= max then |s|
    else
      var cut := BackUp(s, max);
      if cut == 0 then max else cut   // no boundary in reach: cut anyway
  }

  function Chunks(s: seq<Byte>, max: nat): seq<seq<Byte>>
    requires max > 0
    decreases |s|
  {
    if s == [] then []
    else
      var cut := CutPoint(s, max);
      [s[..cut]] + Chunks(s[cut..], max)
  }

  /** The pieces are the whole of the input, in order, none empty and none too large. */
  lemma {:induction false} ChunksReassemble(s: seq<Byte>, max: nat)
    requires max > 0
    ensures Concat(Chunks(s, max)) == s
    ensures forall p :: p in Chunks(s, max) ==> 0 < |p| <= max
    ensures s != [] ==> Chunks(s, max) != []
    decreases |s|
  {
    if s != [] {
      var cut := CutPoint(s, max);
      ChunksReassemble(s[cut..], max);
      assert Chunks(s, max)[1..] == Chunks(s[cut..], max);
      assert s == s[..cut] + s[cut..];
    }
  }

  /**
   What goes first of `s`: all of it if it fits; else up to the last place within reach where no character
   is split, and the whole reach if there is none.
   */
  predicate LongestPiece(s: seq<Byte>, max: nat, piece: seq<Byte>) {
    && 0 < |piece| <= max && piece <= s
    && (|s| <= max ==> piece == s)
    && (|s| > max ==>
          && (forall j :: |piece| < j <= max ==> IsTail(s[j]))
          && (IsTail(s[|piece|]) ==> |piece| == max && forall j :: 0 < j <= max ==> IsTail(s[j])))
  }

  lemma CutIsLongest(s: seq<Byte>, max: nat)
    requires s != [] && max > 0
    ensures LongestPiece(s, max, s[..CutPoint(s, max)])
  {
  }

  /** Every piece takes as much as it can of what the pieces before it left. */
  lemma {:induction false} PiecesAreLongest(s: seq<Byte>, max: nat, i: nat)
    requires max > 0 && i < |Chunks(s, max)|
    ensures LongestPiece(Concat(Chunks(s, max)[i..]), max, Chunks(s, max)[i])
    decreases |s|
  {
    var cut := CutPoint(s, max);
    ChunksUnfold(s, max, cut);
    if i == 0 {
      ChunksReassemble(s, max);
      CutIsLongest(s, max);
      assert Chunks(s, max)[0..] == Chunks(s, max);
    } else {
      PiecesAreLongest(s[cut..], max, i - 1);
      assert Chunks(s, max)[i..] == Chunks(s[cut..], max)[i - 1..];
    }
  }

  /** A character boundary splits well-formed text into well-formed halves. */
  lemma {:induction false} SplitAtBoundary(s: seq<Byte>, k: nat)
    requires WellFormed(s) && k < |s| && !IsTail(s[k])
    ensures WellFormed(s[..k]) && WellFormed(s[k..])
    decreases |s|
  {
    if k == 0 {
      assert s[k..] == s;
    } else {
      var n := CharLength(s);
      assert k >= n;
      var rest := s[n..];
      assert !IsTail(rest[k - n]);
      SplitAtBoundary(rest, k - n);
      assert s[k..] == rest[k - n..];
      assert s[..k][n..] == rest[..k - n];
      assert CharLength(s[..k]) == n;
    }
  }

  /** Four bytes of well-formed text never are all continuation bytes. */
  lemma {:induction false} BoundaryWithinFour(s: seq<Byte>, end: nat)
    requires WellFormed(s) && 3 <= end < |s|
    ensures !IsTail(s[end]) || !IsTail(s[end - 1]) || !IsTail(s[end - 2]) || !IsTail(s[end - 3])
    decreases |s|
  {
    var n := CharLength(s);
    if n <= end - 3 {
      BoundaryWithinFour(s[n..], end - n);
    } else if n <= end {
      assert CharLength(s[n..]) > 0;
      assert !IsTail(s[n..][0]);
    }
  }

  /** For text, every piece is text of its own: no character is ever split. */
  lemma {:induction false} ChunksAreWellFormed(s: seq<Byte>, max: nat)
    requires WellFormed(s) && max >= 4
    ensures forall p :: p in Chunks(s, max) ==> WellFormed(p)
    decreases |s|
  {
    if s != [] {
      var cut := CutPoint(s, max);
      if |s| > max {
        BoundaryWithinFour(s, max);
        assert BackUp(s, max) > 0;
        SplitAtBoundary(s, cut);
      } else {
        assert s[..cut] == s && s[cut..] == [];
      }
      ChunksAreWellFormed(s[cut..], max);
    }
  }

  /** Text followed by text is text. */
  lemma {:induction false} JoinWellFormed(a: seq<Byte>, b: seq<Byte>)
    requires WellFormed(a) && WellFormed(b)
    ensures WellFormed(a + b)
    decreases |a|
  {
    if a == [] {
      assert a + b == b;
    } else {
      var n := CharLength(a);
      JoinWellFormed(a[n..], b);
      DropFromLeft(a, b, n);
      assert CharLength(a + b) == n;
    }
  }

  lemma ChunksAreGood(bytes: seq<Byte>, max: nat, pieces: seq<seq<Byte>>)
    requires max >= 4 && pieces == Chunks(bytes, max)
    ensures Concat(pieces) == bytes && forall p :: p in pieces ==> 0 < |p| <= max
    ensures forall i: nat :: i < |pieces| ==> LongestPiece(Concat(pieces[i..]), max, pieces[i])
    ensures WellFormed(bytes) ==> forall p :: p in pieces ==> WellFormed(p)
  {
    ChunksReassemble(bytes, max);
    forall i: nat | i < |pieces| ensures LongestPiece(Concat(pieces[i..]), max, pieces[i]) {
      PiecesAreLongest(bytes, max, i);
    }
    if WellFormed(bytes) {
      ChunksAreWellFormed(bytes, max);
    }
  }

  /** Where the piece starting at `at` ends. */
  method NextCut(bytes: seq<Byte>, at: nat, max: nat) returns (end: nat)
    requires at < |bytes| && max >= 4
    ensures at < end <= |bytes| && end - at == CutPoint(bytes[at..], max)
  {
    end := Min(|bytes|, at + max);
    ghost var rest := bytes[at..];
    if end < |bytes| {
      while end > at && IsTail(bytes[end])
        invariant at <= end < |bytes| && BackUp(rest, max) == BackUp(rest, end - at)
      {
        assert rest[end - at] == bytes[end];
        end := end - 1;
      }
      assert rest[end - at] == bytes[end];
    }
    if end == at {
      end := Min(|bytes|, at + max);
    }
  }

  lemma OnePiece(bytes: seq<Byte>, at: nat, end: nat, max: nat)
    requires at < end <= |bytes| && max > 0 && end - at == CutPoint(bytes[at..], max)
    ensures Chunks(bytes[at..], max) == [bytes[at..end]] + Chunks(bytes[end..], max)
  {
    TailPieces(bytes, at, end - at);
    PieceThenRest(bytes[at..], max, end - at, bytes[at..end], bytes[end..]);
  }

  lemma PieceThenRest(s: seq<Byte>, max: nat, cut: nat, piece: seq<Byte>, rest: seq<Byte>)
    requires s != [] && max > 0 && cut == CutPoint(s, max) && cut <= |s| && piece == s[..cut] && rest == s[cut..]
    ensures Chunks(s, max) == [piece] + Chunks(rest, max)
  {
    ChunksUnfold(s, max, cut);
  }

  lemma ChunksUnfold(s: seq<Byte>, max: nat, cut: nat)
    requires s != [] && max > 0 && cut == CutPoint(s, max)
    ensures Chunks(s, max) == [s[..cut]] + Chunks(s[cut..], max)
  {
  }

  /** The loop itself. `None`: a chunk must be able to hold one character. */
  method ChunkUtf8(bytes: seq<Byte>, max: nat) returns (out: Option<seq<seq<Byte>>>)
    ensures out.None? <==> max < 4
    ensures out.Some? ==>
              && out.value == Chunks(bytes, max) && Concat(out.value) == bytes
              && (forall p :: p in out.value ==> 0 < |p| <= max)
              && (forall i: nat :: i < |out.value| ==> LongestPiece(Concat(out.value[i..]), max, out.value[i]))
              && (WellFormed(bytes) ==> forall p :: p in out.value ==> WellFormed(p))
  {
    if max < 4 {
      return None;
    }
    var pieces: seq<seq<Byte>> := [];
    var at := 0;
    while at < |bytes|
      invariant at <= |bytes|
      invariant Chunks(bytes, max) == pieces + Chunks(bytes[at..], max)
    {
      var end := NextCut(bytes, at, max);
      OnePiece(bytes, at, end, max);
      JoinsAssociate(pieces, [bytes[at..end]], Chunks(bytes[end..], max));
      pieces := pieces + [bytes[at..end]];
      at := end;
    }
    assert bytes[at..] == [];
    assert pieces == Chunks(bytes, max);
    ChunksAreGood(bytes, max, pieces);
    return Some(pieces);
  }
}
