/**
 The journal file: records behind four-byte big-endian lengths, and the parse loop that reads them.
 The body encoding is a parameter. Of a record that is to be read back it is asked that its bytes fit the
 length field and decode to it; nothing is asked of other records.
 */
module Framing {
  import opened Basics
  import opened Ledger

  const HEADER: nat := 4
  const FRAME_LIMIT: nat := 0x1_0000_0000

  datatype Codec = Codec(encode: Record -> seq<Byte>, decode: seq<Byte> -> Option<Record>)

  /** This record can be read back: its bytes fit the length field and decode to it. */
  predicate Carried(c: Codec, r: Record) {
    |c.encode(r)| < FRAME_LIMIT && c.decode(c.encode(r)) == Some(r)
  }

  predicate AllCarried(c: Codec, rs: seq<Record>) {
    forall r :: r in rs ==> Carried(c, r)
  }

  function BigEndian(n: nat): (b: seq<Byte>)
    requires n < FRAME_LIMIT
    ensures |b| == HEADER
  {
    var (high, low) := (n / 0x1_0000, n % 0x1_0000);
    [high / 0x100, high % 0x100, low / 0x100, low % 0x100]
  }

  function FromBigEndian(b: seq<Byte>): (n: nat)
    requires |b| == HEADER
    ensures n < FRAME_LIMIT
  {
    (b[0] as int * 0x100 + b[1]) * 0x1_0000 + (b[2] as int * 0x100 + b[3])
  }

  lemma BigEndianRoundTrip(n: nat)
    requires n < FRAME_LIMIT
    ensures FromBigEndian(BigEndian(n)) == n
  {
    var high, low := n / 0x1_0000, n % 0x1_0000;
    assert high == high / 0x100 * 0x100 + high % 0x100;
    assert low == low / 0x100 * 0x100 + low % 0x100;
  }

  /** The length is truncated to four bytes, whatever the body. */
  function Framed(body: seq<Byte>): seq<Byte> {
    BigEndian(|body| % FRAME_LIMIT) + body
  }

  function Frame(c: Codec, r: Record): seq<Byte> {
    Framed(c.encode(r))
  }

  /** The file `append` writes for these records. */
  function Frames(c: Codec, rs: seq<Record>): seq<Byte> {
    if rs == [] then [] else Frame(c, rs[0]) + Frames(c, rs[1..])
  }

  /** The parse loop of `catch_up`: read, chain, verify and apply one record after another. */
  function Scan(c: Codec, node: Key, ix: Index, bytes: seq<Byte>): Step
    decreases |bytes|
  {
    if bytes == [] then Step(ix, Fine)
    else if |bytes| < HEADER then Step(ix, Tampered(TruncatedHeader))
    else
      var size := FromBigEndian(bytes[..HEADER]);
      if |bytes| < HEADER + size then Step(ix, Tampered(TruncatedRecord))
      else match c.decode(bytes[HEADER..HEADER + size])
        case None => Step(ix, Tampered(Unreadable))
        case Some(r) =>
          var accepted := Accept(node, ix, r);
          if accepted.verdict.Fine? then Scan(c, node, accepted.index, bytes[HEADER + size..])
          else accepted
  }

  /** One turn of the loop, by positions in what was read: up to a decoded record ... */
  lemma ScanStops(c: Codec, node: Key, ix: Index, rest: seq<Byte>, at: nat, why: Flaw)
    requires at < |rest|
    requires if |rest| < at + HEADER then why == TruncatedHeader else
               var size := FromBigEndian(rest[at..at + HEADER]);
               if |rest| < at + HEADER + size then why == TruncatedRecord
               else c.decode(rest[at + HEADER..at + HEADER + size]).None? && why == Unreadable
    ensures Scan(c, node, ix, rest[at..]) == Step(ix, Tampered(why))
  {
    if |rest| >= at + HEADER {
      SliceOfTail(rest, at, 0, HEADER);
      var size := FromBigEndian(rest[at..at + HEADER]);
      if |rest| >= at + HEADER + size {
        SliceOfTail(rest, at, HEADER, HEADER + size);
      }
    }
  }

  /** ... and what becomes of that record. */
  lemma ScanTakes(c: Codec, node: Key, ix: Index, rest: seq<Byte>, at: nat, size: nat, r: Record)
    requires |rest| >= at + HEADER + size && FromBigEndian(rest[at..at + HEADER]) == size
    requires c.decode(rest[at + HEADER..at + HEADER + size]) == Some(r)
    ensures var accepted := Accept(node, ix, r);
            Scan(c, node, ix, rest[at..]) ==
            if accepted.verdict.Fine? then Scan(c, node, accepted.index, rest[at + HEADER + size..]) else accepted
  {
    SliceOfTail(rest, at, 0, HEADER);
    SliceOfTail(rest, at, HEADER, HEADER + size);
    TailOfTail(rest, at, at + HEADER + size);
  }

  // ---------------------------------------------------------------- round trip

  lemma FrameThenRest(c: Codec, r: Record, rest: seq<Byte>)
    requires Carried(c, r)
    ensures var bytes := Frame(c, r) + rest;
            && |bytes| >= HEADER + |c.encode(r)|
            && FromBigEndian(bytes[..HEADER]) == |c.encode(r)|
            && bytes[HEADER..HEADER + |c.encode(r)|] == c.encode(r)
            && bytes[HEADER + |c.encode(r)|..] == rest
  {
    FramedThenRest(c.encode(r), rest);
  }

  lemma FramedThenRest(body: seq<Byte>, rest: seq<Byte>)
    requires |body| < FRAME_LIMIT
    ensures var bytes := Framed(body) + rest;
            && |bytes| >= HEADER + |body| && |Framed(body)| == HEADER + |body|
            && FromBigEndian(bytes[..HEADER]) == |body|
            && bytes[HEADER..HEADER + |body|] == body
            && bytes[HEADER + |body|..] == rest
  {
    FramedWithLength(body);
    BigEndianRoundTrip(|body|);
    ThreePieces(BigEndian(|body|), body, rest);
  }

  lemma ThreePieces<T>(a: seq<T>, b: seq<T>, rest: seq<T>)
    ensures var s := a + b + rest;
            s[..|a|] == a && s[|a|..|a| + |b|] == b && s[|a| + |b|..] == rest
  {
  }

  /** Reading what `append` wrote replays exactly the records, then goes on with what follows. */
  lemma {:induction false} ScanReplaysFrames(c: Codec, node: Key, ix: Index, rs: seq<Record>, rest: seq<Byte>)
    requires AllCarried(c, rs)
    ensures Scan(c, node, ix, Frames(c, rs) + rest) ==
            if Replay(node, ix, rs).verdict.Fine? then Scan(c, node, Replay(node, ix, rs).index, rest)
            else Replay(node, ix, rs)
    decreases |rs|
  {
    if rs == [] {
      assert Frames(c, rs) + rest == rest;
    } else {
      var tail := Frames(c, rs[1..]) + rest;
      assert Frames(c, rs) + rest == Frame(c, rs[0]) + tail;
      FrameThenRest(c, rs[0], tail);
      var first := Accept(node, ix, rs[0]);
      if first.verdict.Fine? {
        ScanReplaysFrames(c, node, first.index, rs[1..], rest);
      }
    }
  }

  lemma {:induction false} FramesAppend(c: Codec, a: seq<Record>, b: seq<Record>)
    ensures Frames(c, a + b) == Frames(c, a) + Frames(c, b)
  {
    if a == [] {
      assert a + b == b;
    } else {
      assert (a + b)[1..] == a[1..] + b;
      FramesAppend(c, a[1..], b);
    }
  }

  lemma FramesOfOne(c: Codec, rs: seq<Record>, r: Record)
    ensures Frames(c, [r]) == Frame(c, r)
    ensures Frames(c, rs + [r]) == Frames(c, rs) + Frame(c, r)
  {
    assert [r][1..] == [];
    FramesAppend(c, rs, [r]);
  }

  lemma FramesPrefix(c: Codec, rs: seq<Record>, k: nat)
    requires k <= |rs|
    ensures |Frames(c, rs[..k])| <= |Frames(c, rs)|
    ensures Frames(c, rs) == Frames(c, rs[..k]) + Frames(c, rs[k..])
    ensures k < |rs| ==> |Frames(c, rs[..k])| < |Frames(c, rs)|
  {
    assert rs == rs[..k] + rs[k..];
    FramesAppend(c, rs[..k], rs[k..]);
  }

  // ---------------------------------------------------------------- any history can be carried

  function Zeros(n: nat): (b: seq<Byte>)
    ensures |b| == n
  {
    seq(n, _ => 0)
  }

  /** Where `r` first stands in the table, or its length. */
  function Position(table: seq<Record>, r: Record): (i: nat)
    ensures i <= |table|
    ensures r in table ==> i < |table| && table[i] == r
  {
    if table == [] || table[0] == r then 0 else 1 + Position(table[1..], r)
  }

  /** A codec for the records of a table: as many bytes as there are records before this one. */
  function TableCodec(table: seq<Record>): Codec {
    Codec((r: Record) => Zeros(Position(table, r)),
          (b: seq<Byte>) => if |b| < |table| then Some(table[|b|]) else None)
  }

  /** So whatever the records of a history are, some codec carries all of them, and their file reads back. */
  lemma EveryHistoryHasACodec(node: Key, table: seq<Record>)
    requires |table| <= FRAME_LIMIT
    ensures var c := TableCodec(table);
            AllCarried(c, table) && Scan(c, node, EMPTY, Frames(c, table)) == Replay(node, EMPTY, table)
  {
    var c := TableCodec(table);
    assert Frames(c, table) + [] == Frames(c, table);
    ScanReplaysFrames(c, node, EMPTY, table, []);
  }

  // ---------------------------------------------------------------- torn and cut files

  /** `tail` is a nonempty, incomplete piece of the frame of `r`: what a write that stopped leaves. */
  predicate Torn(c: Codec, r: Record, tail: seq<Byte>) {
    Carried(c, r) && 0 < |tail| < |Frame(c, r)| && tail == Frame(c, r)[..|tail|]
  }

  /** A file ending inside a record is always refused, whatever came before it. */
  lemma TornTailIsRefused(c: Codec, node: Key, ix: Index, r: Record, tail: seq<Byte>)
    requires Torn(c, r, tail)
    ensures Scan(c, node, ix, tail).verdict.Tampered?
    ensures Scan(c, node, ix, tail).index == ix
  {
    FrameThenRest(c, r, []);
    var body := c.encode(r);
    assert Frame(c, r) + [] == Frame(c, r);
    if |tail| >= HEADER {
      assert tail[..HEADER] == Frame(c, r)[..HEADER];
    }
  }

  /** A cut file is some whole records and, off the boundaries, a torn piece of the next. */
  lemma {:induction false} CutLeaves(c: Codec, rs: seq<Record>, n: nat) returns (k: nat, tail: seq<Byte>)
    requires AllCarried(c, rs) && n <= |Frames(c, rs)|
    ensures k <= |rs| && Frames(c, rs)[..n] == Frames(c, rs[..k]) + tail
    ensures tail != [] ==> k < |rs| && Torn(c, rs[k], tail)
    decreases |rs|
  {
    if rs == [] || n < |Frame(c, rs[0])| {
      k, tail := 0, Frames(c, rs)[..n];
      assert rs[..k] == [];
    } else {
      var first, rest := |Frame(c, rs[0])|, rs[1..];
      k, tail := CutLeaves(c, rest, n - first);
      k := k + 1;
      assert rs[..k] == [rs[0]] + rest[..k - 1];
      assert rs[..k][1..] == rest[..k - 1];
      assert Frames(c, rs)[..n] == Frame(c, rs[0]) + Frames(c, rest)[..n - first];
    }
  }

  /**
   A cut of an accepted file is accepted exactly when it falls on a record boundary, and then what is
   read is that many whole records.
   */
  lemma CutIsAcceptedOnlyOnBoundaries(c: Codec, node: Key, rs: seq<Record>, n: nat)
    requires Accepted(node, rs) && AllCarried(c, rs) && n <= |Frames(c, rs)|
    ensures Scan(c, node, EMPTY, Frames(c, rs)[..n]).verdict.Fine? <==>
            exists k: nat :: k <= |rs| && n == |Frames(c, rs[..k])|
    ensures forall k: nat :: k <= |rs| && n == |Frames(c, rs[..k])| ==>
                               Scan(c, node, EMPTY, Frames(c, rs)[..n]) == Step(IndexOf(node, rs[..k]), Fine)
  {
    forall k: nat | k <= |rs| && n == |Frames(c, rs[..k])|
      ensures Scan(c, node, EMPTY, Frames(c, rs)[..n]) == Step(IndexOf(node, rs[..k]), Fine)
    {
      FramesPrefix(c, rs, k);
      assert Frames(c, rs)[..n] == Frames(c, rs[..k]) + [];
      AnySplitReplaysTheSame(node, rs, k);
      ScanReplaysFrames(c, node, EMPTY, rs[..k], []);
    }
    var k, tail := CutLeaves(c, rs, n);
    if tail == [] {
      assert n == |Frames(c, rs[..k])|;
    } else {
      AnySplitReplaysTheSame(node, rs, k);
      ScanReplaysFrames(c, node, EMPTY, rs[..k], tail);
      TornTailIsRefused(c, node, IndexOf(node, rs[..k]), rs[k], tail);
    }
  }

  // ---------------------------------------------------------------- exactly which files are accepted

  function FramedAll(bodies: seq<seq<Byte>>): seq<Byte> {
    if bodies == [] then [] else Framed(bodies[0]) + FramedAll(bodies[1..])
  }

  predicate Decodes(c: Codec, bodies: seq<seq<Byte>>, rs: seq<Record>) {
    && |bodies| == |rs|
    && forall i :: 0 <= i < |rs| ==> |bodies[i]| < FRAME_LIMIT && c.decode(bodies[i]) == Some(rs[i])
  }

  /** `bytes` is a concatenation of frames whose bodies decode to `rs`. */
  ghost predicate IsFileOf(c: Codec, bytes: seq<Byte>, bodies: seq<seq<Byte>>, rs: seq<Record>) {
    Decodes(c, bodies, rs) && bytes == FramedAll(bodies)
  }

  /** Every accepted file is a concatenation of frames of an accepted chain ... */
  lemma {:induction false} AcceptedFileIsFrames(c: Codec, node: Key, ix: Index, bytes: seq<Byte>)
    returns (bodies: seq<seq<Byte>>, rs: seq<Record>)
    requires Scan(c, node, ix, bytes).verdict.Fine?
    ensures IsFileOf(c, bytes, bodies, rs)
    ensures Replay(node, ix, rs) == Scan(c, node, ix, bytes)
    decreases |bytes|
  {
    if bytes == [] {
      bodies, rs := [], [];
    } else {
      var size := FromBigEndian(bytes[..HEADER]);
      var body := bytes[HEADER..HEADER + size];
      var r := c.decode(body).value;
      var rest := bytes[HEADER + size..];
      var bodies', rs' := AcceptedFileIsFrames(c, node, Accept(node, ix, r).index, rest);
      bodies, rs := [body] + bodies', [r] + rs';
      StartsWithAFrame(bytes);
      OneMoreFrame(c, body, r, rest, bodies', rs');
      assert rs[1..] == rs';
    }
  }

  lemma StartsWithAFrame(bytes: seq<Byte>)
    requires |bytes| >= HEADER && |bytes| >= HEADER + FromBigEndian(bytes[..HEADER])
    ensures var size := FromBigEndian(bytes[..HEADER]);
            bytes == Framed(bytes[HEADER..HEADER + size]) + bytes[HEADER + size..]
  {
    var size := FromBigEndian(bytes[..HEADER]);
    FromBigEndianRoundTrip(bytes[..HEADER]);
    FramedWithLength(bytes[HEADER..HEADER + size]);
    InThree(bytes, HEADER, HEADER + size);
  }

  lemma FramedWithLength(body: seq<Byte>)
    requires |body| < FRAME_LIMIT
    ensures Framed(body) == BigEndian(|body|) + body
  {
    assert |body| % FRAME_LIMIT == |body|;
  }

  lemma InThree<T>(s: seq<T>, i: nat, j: nat)
    requires i <= j <= |s|
    ensures s == s[..i] + s[i..j] + s[j..]
  {
  }

  lemma OneMoreFrame(c: Codec, body: seq<Byte>, r: Record, rest: seq<Byte>, bodies: seq<seq<Byte>>, rs: seq<Record>)
    requires |body| < FRAME_LIMIT && c.decode(body) == Some(r) && IsFileOf(c, rest, bodies, rs)
    ensures IsFileOf(c, Framed(body) + rest, [body] + bodies, [r] + rs)
  {
    assert ([body] + bodies)[1..] == bodies;
  }

  lemma FromBigEndianRoundTrip(b: seq<Byte>)
    requires |b| == HEADER
    ensures BigEndian(FromBigEndian(b)) == b
  {
    var n := FromBigEndian(b);
    var high, low := b[0] as int * 0x100 + b[1], b[2] as int * 0x100 + b[3];
    assert n / 0x1_0000 == high && n % 0x1_0000 == low;
    assert high / 0x100 == b[0] && high % 0x100 == b[1];
    assert low / 0x100 == b[2] && low % 0x100 == b[3];
  }

  /** ... and every such concatenation is accepted, with the same index. */
  lemma {:induction false} FramesAreAcceptedFile(c: Codec, node: Key, ix: Index, bytes: seq<Byte>,
                                                 bodies: seq<seq<Byte>>, rs: seq<Record>)
    requires IsFileOf(c, bytes, bodies, rs) && Replay(node, ix, rs).verdict.Fine?
    ensures Scan(c, node, ix, bytes) == Replay(node, ix, rs)
    decreases |rs|
  {
    if rs != [] {
      var body, rest := bodies[0], FramedAll(bodies[1..]);
      FramedThenRest(body, rest);
      assert c.decode(body) == Some(rs[0]);
      FramesAreAcceptedFile(c, node, Accept(node, ix, rs[0]).index, rest, bodies[1..], rs[1..]);
    }
  }

  /** The loop accepts exactly the concatenations of frames that carry an accepted continuation. */
  lemma AcceptsExactly(c: Codec, node: Key, ix: Index, bytes: seq<Byte>, end: Index)
    ensures Scan(c, node, ix, bytes) == Step(end, Fine) <==>
            exists bodies, rs :: IsFileOf(c, bytes, bodies, rs) && Replay(node, ix, rs) == Step(end, Fine)
  {
    if Scan(c, node, ix, bytes).verdict.Fine? {
      var bodies, rs := AcceptedFileIsFrames(c, node, ix, bytes);
    }
    forall bodies, rs | IsFileOf(c, bytes, bodies, rs) && Replay(node, ix, rs) == Step(end, Fine)
      ensures Scan(c, node, ix, bytes) == Step(end, Fine)
    {
      FramesAreAcceptedFile(c, node, ix, bytes, bodies, rs);
    }
  }
}
