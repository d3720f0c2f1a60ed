/**
 The bounded output history of a session: a ring of bytes with marks where the grid changed, as values,
 and what it still says about the whole stream it came from.
 */
module HistorySpec {
  import opened Basics

  type U16 = x: int | 0 <= x < 0x1_0000

  const MAX_MARKS: nat := 256

  /** How much of the history one answer carries at most. */
  const READ_LIMIT: nat := 16 * 1024

  datatype Geometry = Geometry(cols: U16, rows: U16, epoch: nat)

  datatype Mark = Mark(at: nat, geometry: Geometry)

  datatype Ring = Ring(bytes: seq<Byte>, capacity: nat, next: nat, marks: seq<Mark>)

  datatype Chunk = Chunk(start: nat, next: nat, gap: bool, data: seq<Byte>)

  datatype Frame = Frame(chunk: Chunk, geometry: Geometry)

  // ---------------------------------------------------------------- the ring

  predicate WellFormed(r: Ring) {
    r.capacity > 0 && |r.bytes| <= r.capacity && |r.bytes| <= r.next && r.marks != []
  }

  function Start(capacity: nat, cols: U16, rows: U16): Ring {
    Ring([], capacity, 0, [Mark(0, Geometry(cols, rows, 0))])
  }

  function Oldest(r: Ring): nat
    requires |r.bytes| <= r.next
  {
    r.next - |r.bytes|
  }

  function Current(r: Ring): Geometry
    requires r.marks != []
  {
    r.marks[|r.marks| - 1].geometry
  }

  /** Marks no retained byte can need any more are dropped from the front. */
  function DropPast(marks: seq<Mark>, oldest: nat): (kept: seq<Mark>)
    ensures marks != [] ==> kept != []
  {
    if |marks| > 1 && marks[1].at <= oldest then DropPast(marks[1..], oldest) else marks
  }

  /** The bound on marks, whether they are still needed or not. */
  function DropOver(marks: seq<Mark>): (kept: seq<Mark>)
    ensures marks != [] ==> kept != []
  {
    if |marks| > MAX_MARKS then DropOver(marks[1..]) else marks
  }

  function Prune(r: Ring): Ring
    requires |r.bytes| <= r.next
  {
    r.(marks := DropOver(DropPast(r.marks, Oldest(r))))
  }

  /** Bytes pushed one at a time, each making room for itself when the ring is full. */
  function Push(bytes: seq<Byte>, capacity: nat, data: seq<Byte>): (pushed: seq<Byte>)
    requires 0 < capacity && |bytes| <= capacity
    ensures |pushed| == Min(capacity, |bytes| + |data|)
    decreases |data|
  {
    if data == [] then bytes
    else
      var room := if |bytes| == capacity then bytes[1..] else bytes;
      Push(room + [data[0]], capacity, data[1..])
  }

  function Appended(r: Ring, data: seq<Byte>): (r': Ring)
    requires WellFormed(r)
    ensures WellFormed(r') && r'.capacity == r.capacity && r'.next == r.next + |data|
  {
    Prune(r.(bytes := Push(r.bytes, r.capacity, data), next := r.next + |data|))
  }

  function Resized(r: Ring, cols: U16, rows: U16): (r': Ring)
    requires WellFormed(r)
    ensures WellFormed(r') && r'.capacity == r.capacity && r'.next == r.next
  {
    var grid := Geometry(cols, rows, Current(r).epoch + 1);
    var last := |r.marks| - 1;
    var kept := if r.marks[last].at == r.next then r.marks[..last] else r.marks;
    Prune(r.(marks := kept + [Mark(r.next, grid)]))
  }

  /** `None`: the cursor is ahead of the session's output. */
  function Read(r: Ring, after: nat, limit: nat): Option<Chunk>
    requires WellFormed(r)
  {
    if after > r.next then None
    else
      var start := Max(after, Oldest(r));
      var rest := r.bytes[start - Oldest(r)..];
      var data := rest[..Min(limit, |rest|)];
      Some(Chunk(start, start + |data|, after < Oldest(r), data))
  }

  /** Whose run `start` falls into: the newest mark not past it, failing that the oldest mark kept. */
  function MarkFor(marks: seq<Mark>, start: nat): (at: nat)
    requires marks != []
    ensures at < |marks|
  {
    if |marks| == 1 || marks[|marks| - 1].at <= start then |marks| - 1
    else MarkFor(marks[..|marks| - 1], start)
  }

  function ReadFrame(r: Ring, after: nat, limit: nat): Option<Frame>
    requires WellFormed(r)
  {
    if after > r.next then None
    else
      var start := Max(after, Oldest(r));
      var at := MarkFor(r.marks, start);
      var until := if at + 1 < |r.marks| then r.marks[at + 1].at else U64_MAX;
      var room := Max(0, until - start);
      Some(Frame(Read(r, after, Min(limit, room)).value, r.marks[at].geometry))
  }

  // ---------------------------------------------------------------- the whole stream

  /** Everything ever produced: each byte with the grid in force when it came, and the grid now. */
  datatype Full = Full(stream: seq<Byte>, grids: seq<Geometry>, grid: Geometry)

  function Repeat(g: Geometry, n: nat): (s: seq<Geometry>)
    ensures |s| == n
  {
    seq(n, _ => g)
  }

  function FullAppend(f: Full, data: seq<Byte>): Full {
    f.(stream := f.stream + data, grids := f.grids + Repeat(f.grid, |data|))
  }

  function FullResize(f: Full, cols: U16, rows: U16): Full {
    f.(grid := Geometry(cols, rows, f.grid.epoch + 1))
  }

  /** Where the run of bytes under mark `i` ends. */
  function RunEnd(r: Ring, i: nat): nat
    requires i < |r.marks|
  {
    if i + 1 < |r.marks| then r.marks[i + 1].at else r.next
  }

  /** The ring is the newest part of the stream and its marks tell the grids of everything after them. */
  ghost predicate Refines(r: Ring, f: Full) {
    && WellFormed(r) && r.next <= U64_MAX
    && |f.stream| == |f.grids| == r.next
    && |r.bytes| == Min(r.capacity, r.next)
    && r.bytes == f.stream[Oldest(r)..]
    && MarksOk(r, f) && |r.marks| <= MAX_MARKS
    && (r.marks[0].at <= Oldest(r) || |r.marks| == MAX_MARKS)
  }

  /** The bytes from mark `i` to the next were produced under its grid. */
  predicate RunIsMarked(r: Ring, f: Full, i: nat)
    requires i < |r.marks|
  {
    RunEnd(r, i) <= |f.grids| && forall k :: r.marks[i].at <= k < RunEnd(r, i) ==> f.grids[k] == r.marks[i].geometry
  }

  ghost predicate MarksOk(r: Ring, f: Full) {
    && r.marks != []
    && Current(r) == f.grid && r.marks[|r.marks| - 1].at <= r.next
    && (forall i, j :: 0 <= i < j < |r.marks| ==>
                         r.marks[i].at < r.marks[j].at && r.marks[i].geometry.epoch < r.marks[j].geometry.epoch)
    && |f.grids| == r.next
    && (forall i :: 0 <= i < |r.marks| ==> RunIsMarked(r, f, i))
    && (forall k :: 0 <= k < r.marks[0].at ==> f.grids[k].epoch < r.marks[0].geometry.epoch)
    && (forall k :: 0 <= k < r.next ==> f.grids[k].epoch <= f.grid.epoch)
  }

  lemma StartRefines(capacity: nat, cols: U16, rows: U16)
    requires capacity > 0
    ensures Refines(Start(capacity, cols, rows), Full([], [], Geometry(cols, rows, 0)))
  {
  }

  /** The end of `all`, as much as fits. */
  predicate IsNewest(kept: seq<Byte>, all: seq<Byte>, capacity: nat) {
    kept == all[|all| - Min(capacity, |all|)..]
  }

  lemma {:induction false} PushKeepsTheNewest(bytes: seq<Byte>, capacity: nat, data: seq<Byte>)
    requires 0 < capacity && |bytes| <= capacity
    ensures IsNewest(Push(bytes, capacity, data), bytes + data, capacity)
    decreases |data|
  {
    if data == [] {
      assert bytes + data == bytes;
    } else {
      var room := if |bytes| == capacity then bytes[1..] else bytes;
      var next := room + [data[0]];
      PushKeepsTheNewest(next, capacity, data[1..]);
      PushedOnce(bytes, room, data);
      NewestOfEnd(Push(next, capacity, data[1..]), bytes + data, |bytes| - |room|, capacity);
    }
  }

  lemma NewestOfEnd(kept: seq<Byte>, all: seq<Byte>, from: nat, capacity: nat)
    requires from <= |all| && IsNewest(kept, all[from..], capacity) && (from > 0 ==> |all| - from >= capacity)
    ensures IsNewest(kept, all, capacity)
  {
    var n := Min(capacity, |all| - from);
    TailOfTail(all, from, |all| - n);
  }

  lemma PushedOnce(bytes: seq<Byte>, room: seq<Byte>, data: seq<Byte>)
    requires data != [] && (room == bytes || (bytes != [] && room == bytes[1..]))
    ensures room + [data[0]] + data[1..] == (bytes + data)[|bytes| - |room|..]
  {
  }

  // ---------------------------------------------------------------- pruning keeps the marks' meaning

  lemma DropOne(r: Ring, f: Full)
    requires MarksOk(r, f) && |r.marks| > 1
    ensures MarksOk(r.(marks := r.marks[1..]), f)
  {
    var r' := r.(marks := r.marks[1..]);
    assert RunIsMarked(r, f, 0);
    forall i | 0 <= i < |r'.marks| ensures RunIsMarked(r', f, i) {
      assert RunIsMarked(r, f, i + 1);
    }
  }

  lemma {:induction false} DropPastKeeps(r: Ring, f: Full, oldest: nat)
    requires MarksOk(r, f)
    ensures MarksOk(r.(marks := DropPast(r.marks, oldest)), f)
    ensures DropPast(r.marks, oldest) == r.marks || DropPast(r.marks, oldest)[0].at <= oldest
    decreases |r.marks|
  {
    if |r.marks| > 1 && r.marks[1].at <= oldest {
      DropOne(r, f);
      DropPastKeeps(r.(marks := r.marks[1..]), f, oldest);
    }
  }

  lemma DropOverKeeps(r: Ring, f: Full)
    requires MarksOk(r, f) && |r.marks| <= MAX_MARKS + 1
    ensures var marks := DropOver(r.marks);
            && MarksOk(r.(marks := marks), f) && |marks| <= MAX_MARKS
            && (marks == r.marks || |marks| == MAX_MARKS)
  {
    DropOverShape(r.marks);
    if |r.marks| > MAX_MARKS {
      DropOne(r, f);
    }
  }

  lemma PruneKeeps(r: Ring, f: Full)
    requires WellFormed(r) && MarksOk(r, f) && |r.marks| <= MAX_MARKS + 1
    requires r.marks[0].at <= Oldest(r) || |r.marks| >= MAX_MARKS
    ensures Prune(r).marks != [] && Prune(r) == r.(marks := Prune(r).marks)
    ensures MarksOk(Prune(r), f) && |Prune(r).marks| <= MAX_MARKS
    ensures Prune(r).marks[0].at <= Oldest(r) || |Prune(r).marks| == MAX_MARKS
  {
    DropPastKeeps(r, f, Oldest(r));
    DropPastShrinks(r.marks, Oldest(r));
    DropOverKeeps(r.(marks := DropPast(r.marks, Oldest(r))), f);
  }

  lemma DropPastShrinks(marks: seq<Mark>, oldest: nat)
    ensures |DropPast(marks, oldest)| <= |marks|
  {
  }

  lemma AppendMarks(r: Ring, f: Full, data: seq<Byte>, r1: Ring)
    requires MarksOk(r, f) && r1.marks == r.marks && r1.next == r.next + |data|
    ensures MarksOk(r1, FullAppend(f, data))
  {
    var f' := FullAppend(f, data);
    forall i | 0 <= i < |r1.marks| ensures RunIsMarked(r1, f', i) {
      assert RunIsMarked(r, f, i);
    }
  }

  lemma AppendedBytes(r: Ring, f: Full, data: seq<Byte>)
    requires WellFormed(r) && |f.stream| == r.next && |r.bytes| == Min(r.capacity, r.next)
    requires r.bytes == f.stream[Oldest(r)..]
    ensures var bytes := Push(r.bytes, r.capacity, data);
            && |bytes| == Min(r.capacity, r.next + |data|)
            && bytes == (f.stream + data)[r.next + |data| - |bytes|..]
  {
    PushKeepsTheNewest(r.bytes, r.capacity, data);
    assert (f.stream + data)[Oldest(r)..] == r.bytes + data;
  }

  lemma AppendRefines(r: Ring, f: Full, data: seq<Byte>)
    requires Refines(r, f) && r.next + |data| <= U64_MAX
    ensures Refines(Appended(r, data), FullAppend(f, data))
  {
    var f' := FullAppend(f, data);
    var r1 := r.(bytes := Push(r.bytes, r.capacity, data), next := r.next + |data|);
    AppendedBytes(r, f, data);
    AppendMarks(r, f, data, r1);
    PruneKeeps(r1, f');
  }

  /** A mark set at the head, replacing one already there, makes the marks tell the new grid too. */
  lemma ResizeMarks(r: Ring, f: Full, cols: U16, rows: U16, r1: Ring)
    requires MarksOk(r, f)
    requires var last := |r.marks| - 1;
             r1 == r.(marks := (if r.marks[last].at == r.next then r.marks[..last] else r.marks)
                               + [Mark(r.next, Geometry(cols, rows, Current(r).epoch + 1))])
    ensures MarksOk(r1, FullResize(f, cols, rows))
  {
    ResizeRuns(r, f, r1, FullResize(f, cols, rows));
    ResizeOrder(r, f, r1);
    ResizeFirst(r, f, r1);
  }

  /** The bytes before the first mark are older than its grid, whether that mark is the new one or not. */
  lemma ResizeFirst(r: Ring, f: Full, r1: Ring)
    requires MarksOk(r, f) && r1.marks != []
    requires var last := |r1.marks| - 1;
             && last <= |r.marks| && r1.marks[..last] == r.marks[..last]
             && r1.marks[last].at == r.next && r1.marks[last].geometry.epoch == f.grid.epoch + 1
    ensures r1.marks[0].at <= r.next
    ensures forall k :: 0 <= k < r1.marks[0].at ==> f.grids[k].epoch < r1.marks[0].geometry.epoch
  {
    var last := |r1.marks| - 1;
    if last > 0 {
      assert r1.marks[0] == r1.marks[..last][0] == r.marks[0];
    }
  }

  /** The new mark is the newest, by place and by epoch. */
  lemma ResizeOrder(r: Ring, f: Full, r1: Ring)
    requires MarksOk(r, f) && r1.marks != []
    requires var last := |r1.marks| - 1;
             && last <= |r.marks| && r1.marks[..last] == r.marks[..last]
             && r1.marks[last].at == r.next && r1.marks[last].geometry.epoch == f.grid.epoch + 1
             && (last == |r.marks| ==> r.marks[last - 1].at < r.next)
    ensures forall i, j :: 0 <= i < j < |r1.marks| ==>
                             r1.marks[i].at < r1.marks[j].at && r1.marks[i].geometry.epoch < r1.marks[j].geometry.epoch
  {
    var last := |r1.marks| - 1;
    assert forall i :: 0 <= i < last ==> r1.marks[i] == r1.marks[..last][i] == r.marks[i];
  }

  lemma ResizeRuns(r: Ring, f: Full, r1: Ring, f1: Full)
    requires MarksOk(r, f) && f1.grids == f.grids && r1.next == r.next && r1.marks != []
    requires var last := |r1.marks| - 1;
             r1.marks[last].at == r.next && last <= |r.marks| && r1.marks[..last] == r.marks[..last]
             && (last == |r.marks| || r.marks[last].at == r.next)
    ensures forall i :: 0 <= i < |r1.marks| ==> RunIsMarked(r1, f1, i)
  {
    forall i | 0 <= i < |r1.marks| ensures RunIsMarked(r1, f1, i) {
      if i < |r1.marks| - 1 {
        assert r1.marks[i] == r1.marks[..|r1.marks| - 1][i];
        assert i + 1 < |r1.marks| - 1 ==> r1.marks[i + 1] == r1.marks[..|r1.marks| - 1][i + 1];
        assert RunIsMarked(r, f, i);
      }
    }
  }

  lemma ResizeRefines(r: Ring, f: Full, cols: U16, rows: U16)
    requires Refines(r, f)
    ensures Refines(Resized(r, cols, rows), FullResize(f, cols, rows))
  {
    var last := |r.marks| - 1;
    var kept := if r.marks[last].at == r.next then r.marks[..last] else r.marks;
    var r1 := r.(marks := kept + [Mark(r.next, Geometry(cols, rows, Current(r).epoch + 1))]);
    ResizeMarks(r, f, cols, rows, r1);
    PruneKeeps(r1, FullResize(f, cols, rows));
  }

  // ---------------------------------------------------------------- what a frame says

  lemma {:induction false} MarkForIsLast(marks: seq<Mark>, start: nat)
    requires marks != []
    requires forall i, j :: 0 <= i < j < |marks| ==> marks[i].at < marks[j].at
    ensures var at := MarkFor(marks, start);
            && (marks[0].at <= start ==> marks[at].at <= start)
            && (start < marks[0].at ==> at == 0)
            && (at + 1 < |marks| ==> start < marks[at + 1].at)
  {
    if |marks| > 1 && marks[|marks| - 1].at > start {
      MarkForIsLast(marks[..|marks| - 1], start);
    }
  }

  /** All bytes of the stream in `[lo, hi)` were produced under `g`. */
  predicate AllUnder(f: Full, lo: nat, hi: nat, g: Geometry)
    requires hi <= |f.grids|
  {
    forall k :: lo <= k < hi ==> f.grids[k] == g
  }

  /** A piece of the true stream from where `after` can still be served, up to `end` at most. */
  predicate TrueChunk(r: Ring, f: Full, after: nat, limit: nat, end: nat, c: Chunk)
    requires WellFormed(r)
  {
    && c.start == Max(after, Oldest(r)) && c.start <= c.next <= Min(end, |f.stream|)
    && c.data == f.stream[c.start..c.next] && |c.data| <= limit
    && (c.gap <==> after < Oldest(r))
    && (c.data == [] <==> after == r.next)
  }

  /** Such a piece, with the grid it was produced under exactly when it starts at or past the oldest mark. */
  predicate TrueFrame(r: Ring, f: Full, after: nat, limit: nat, frame: Frame)
    requires WellFormed(r) && |f.stream| == |f.grids|
  {
    var c := frame.chunk;
    && TrueChunk(r, f, after, limit, r.next, c)
    && (AllUnder(f, c.start, c.next, frame.geometry) <==> (c.data == [] || r.marks[0].at <= c.start))
    && (c.data == [] ==> frame.geometry == f.grid)
  }

  /**
   A frame is a piece of the true stream, flagged exactly when bytes were skipped, and empty exactly
   when the cursor is at the head. Its grid is the true one of every byte in it if and only if it
   starts at or past the oldest mark kept (an empty frame has nothing to mislabel).
   */
  lemma FrameTellsTheTruth(r: Ring, f: Full, after: nat, limit: nat)
    requires Refines(r, f) && after <= r.next && limit > 0
    ensures TrueFrame(r, f, after, limit, ReadFrame(r, after, limit).value)
  {
    FrameData(r, f, after, limit);
    FrameIsRead(r, after, limit);
    GridIsTrue(r, f, after, limit, Max(after, Oldest(r)), ReadFrame(r, after, limit).value);
  }

  lemma GridIsTrue(r: Ring, f: Full, after: nat, limit: nat, start: nat, frame: Frame)
    requires Refines(r, f) && start == Max(after, Oldest(r)) && after <= r.next
    requires TrueChunk(r, f, after, limit, RunEnd(r, MarkFor(r.marks, start)), frame.chunk)
    requires frame.geometry == r.marks[MarkFor(r.marks, start)].geometry
    ensures TrueFrame(r, f, after, limit, frame)
  {
    MarkForIsLast(r.marks, start);
    var at := MarkFor(r.marks, start);
    var c := frame.chunk;
    if r.marks[0].at <= start {
      assert RunIsMarked(r, f, at);
    } else if c.data != [] {
      assert f.grids[start].epoch < r.marks[0].geometry.epoch;
    }
  }

  /** How far the run of bytes from `start` can go before the next mark. */
  function Room(marks: seq<Mark>, start: nat): nat
    requires marks != []
  {
    var at := MarkFor(marks, start);
    Max(0, (if at + 1 < |marks| then marks[at + 1].at else U64_MAX) - start)
  }

  lemma FrameIsRead(r: Ring, after: nat, limit: nat)
    requires WellFormed(r) && after <= r.next
    ensures var start := Max(after, Oldest(r));
            && ReadFrame(r, after, limit).value.chunk == Read(r, after, Min(limit, Room(r.marks, start))).value
            && ReadFrame(r, after, limit).value.geometry == r.marks[MarkFor(r.marks, start)].geometry
  {
  }

  lemma RoomToNextMark(r: Ring, f: Full, start: nat)
    requires Refines(r, f) && start <= r.next
    ensures start < r.next ==> Room(r.marks, start) > 0
    ensures start + Min(Room(r.marks, start), r.next - start) <= RunEnd(r, MarkFor(r.marks, start))
  {
    MarkForIsLast(r.marks, start);
  }

  /** Where a read with this much room starts and ends. */
  lemma ReadEnds(r: Ring, after: nat, limit: nat, room: nat, c: Chunk)
    requires WellFormed(r) && |r.bytes| == Min(r.capacity, r.next) && after <= r.next && limit > 0
    requires c == Read(r, after, Min(limit, room)).value && (Max(after, Oldest(r)) < r.next ==> room > 0)
    ensures c.start == Max(after, Oldest(r)) && c.start <= c.next <= r.next
    ensures |c.data| == c.next - c.start <= limit
    ensures c.next - c.start == Min(Min(limit, room), r.next - c.start)
    ensures c.gap <==> after < Oldest(r)
    ensures c.start == c.next <==> after == r.next
    ensures c.data == r.bytes[c.start - Oldest(r)..][..c.next - c.start]
  {
  }

  lemma PieceOfStream(bytes: seq<Byte>, stream: seq<Byte>, oldest: nat, c: Chunk)
    requires oldest <= c.start <= c.next <= |stream| && bytes == stream[oldest..]
    requires c.data == bytes[c.start - oldest..][..c.next - c.start]
    ensures c.data == stream[c.start..c.next]
  {
    SliceOfEnd(stream, oldest, c.start, c.next - c.start);
  }

  lemma ReadIsTrue(r: Ring, f: Full, after: nat, limit: nat, room: nat, end: nat, c: Chunk)
    requires WellFormed(r) && |r.bytes| == Min(r.capacity, r.next) && after <= r.next && limit > 0
    requires |f.stream| == r.next && r.bytes == f.stream[Oldest(r)..]
    requires c == Read(r, after, Min(limit, room)).value && (Max(after, Oldest(r)) < r.next ==> room > 0)
    requires Max(after, Oldest(r)) + Min(room, r.next - Max(after, Oldest(r))) <= end
    ensures TrueChunk(r, f, after, limit, end, c)
  {
    ReadEnds(r, after, limit, room, c);
    PieceOfStream(r.bytes, f.stream, Oldest(r), c);
  }

  /** A plain read tells the truth as well, and as much of it as was asked for. */
  lemma ReadTellsTheTruth(r: Ring, f: Full, after: nat, limit: nat)
    requires Refines(r, f) && after <= r.next && limit > 0
    ensures TrueChunk(r, f, after, limit, r.next, Read(r, after, limit).value)
    ensures |Read(r, after, limit).value.data| == Min(limit, r.next - Max(after, Oldest(r)))
  {
    ReadEnds(r, after, limit, limit, Read(r, after, limit).value);
    ReadIsTrue(r, f, after, limit, limit, r.next, Read(r, after, limit).value);
  }

  lemma FrameData(r: Ring, f: Full, after: nat, limit: nat)
    requires Refines(r, f) && after <= r.next && limit > 0
    ensures TrueChunk(r, f, after, limit, RunEnd(r, MarkFor(r.marks, Max(after, Oldest(r)))),
                      ReadFrame(r, after, limit).value.chunk)
  {
    var start := Max(after, Oldest(r));
    RoomToNextMark(r, f, start);
    FrameIsRead(r, after, limit);
    ReadIsTrue(r, f, after, limit, Room(r.marks, start), RunEnd(r, MarkFor(r.marks, start)),
               ReadFrame(r, after, limit).value.chunk);
  }

  lemma MarksChangeTheGrid(r: Ring, f: Full, i: nat)
    requires MarksOk(r, f) && i + 1 < |r.marks| && r.marks[i + 1].at < r.next
    ensures f.grids[r.marks[i + 1].at] != r.marks[i].geometry
  {
    assert RunIsMarked(r, f, i + 1);
  }

  lemma FrameEnds(r: Ring, f: Full, after: nat, limit: nat)
    requires Refines(r, f) && after <= r.next && limit > 0
    ensures var start := Max(after, Oldest(r));
            var c := ReadFrame(r, after, limit).value.chunk;
            c.start == start && |c.data| == c.next - start == Min(Min(limit, Room(r.marks, start)), r.next - start)
  {
    var start := Max(after, Oldest(r));
    RoomToNextMark(r, f, start);
    FrameIsRead(r, after, limit);
    ReadEnds(r, after, limit, Room(r.marks, start), ReadFrame(r, after, limit).value.chunk);
  }

  /** Room that ends before the newest byte ends at the next mark. */
  lemma EndsAtMark(r: Ring, start: nat)
    requires r.marks != [] && r.next <= U64_MAX && start + Room(r.marks, start) < r.next
    requires forall i, j :: 0 <= i < j < |r.marks| ==> r.marks[i].at < r.marks[j].at
    ensures var at := MarkFor(r.marks, start);
            at + 1 < |r.marks| && r.marks[at + 1].at == start + Room(r.marks, start)
  {
    MarkForIsLast(r.marks, start);
  }

  lemma RoomEndsOnAnotherGrid(r: Ring, f: Full, start: nat)
    requires MarksOk(r, f) && r.next <= U64_MAX && start + Room(r.marks, start) < r.next
    ensures f.grids[start + Room(r.marks, start)] != r.marks[MarkFor(r.marks, start)].geometry
  {
    EndsAtMark(r, start);
    MarksChangeTheGrid(r, f, MarkFor(r.marks, start));
  }

  predicate StopsForAReason(r: Ring, f: Full, limit: nat, frame: Frame) {
    || frame.chunk.next == r.next || |frame.chunk.data| == limit
    || (frame.chunk.next < r.next <= |f.grids| && f.grids[frame.chunk.next] != frame.geometry)
  }

  lemma StopsOnAnotherGrid(r: Ring, f: Full, start: nat, limit: nat, frame: Frame)
    requires MarksOk(r, f) && start <= r.next <= U64_MAX && frame.chunk.start == start
    requires |frame.chunk.data| == frame.chunk.next - start == Min(Min(limit, Room(r.marks, start)), r.next - start)
    requires frame.geometry == r.marks[MarkFor(r.marks, start)].geometry
    ensures StopsForAReason(r, f, limit, frame)
  {
    if start + Room(r.marks, start) < r.next {
      RoomEndsOnAnotherGrid(r, f, start);
    }
  }

  /** A frame stops at its limit, at the newest byte, or where the next byte was produced on another grid. */
  lemma FramesStopForAReason(r: Ring, f: Full, after: nat, limit: nat)
    requires Refines(r, f) && after <= r.next && limit > 0
    ensures StopsForAReason(r, f, limit, ReadFrame(r, after, limit).value)
  {
    FrameEnds(r, f, after, limit);
    FrameIsRead(r, after, limit);
    StopsOnAnotherGrid(r, f, Max(after, Oldest(r)), limit, ReadFrame(r, after, limit).value);
  }

  /** Unless the bound on marks is reached, the oldest mark covers every retained byte. */
  lemma MarksCoverTheRing(r: Ring, f: Full, after: nat, limit: nat)
    requires Refines(r, f) && |r.marks| < MAX_MARKS && after <= r.next && limit > 0
    ensures var frame := ReadFrame(r, after, limit).value;
            AllUnder(f, frame.chunk.start, frame.chunk.next, frame.geometry)
  {
    FrameTellsTheTruth(r, f, after, limit);
  }

  /** The width of a window being dragged about, once `n` bytes have been produced. */
  function WidthAt(n: nat): U16 {
    if n == 0 then 80 else 81 + n % 2
  }

  /** A window dragged about: `n` times one byte of output and then a resize to the other width. */
  function Dragged(n: nat): (r: Ring)
    ensures WellFormed(r) && r.next == n && r.capacity == 0x10_0000
  {
    if n == 0 then Start(0x10_0000, 80, 24) else Resized(Appended(Dragged(n - 1), [0]), WidthAt(n), 24)
  }

  ghost function DraggedFull(n: nat): Full {
    if n == 0 then Full([], [], Geometry(80, 24, 0))
    else FullResize(FullAppend(DraggedFull(n - 1), [0]), WidthAt(n), 24)
  }

  /** While nothing has left the ring, marks past the start are dropped by the bound alone. */
  lemma LiveMarks(r: Ring, f: Full, cols: U16)
    requires Refines(r, f) && Oldest(r) == 0 && r.next < r.capacity == 0x10_0000 && r.marks[|r.marks| - 1].at <= r.next
    requires |r.marks| > 1 ==> r.marks[1].at > 0
    ensures var r1 := Appended(r, [0]);
            && r1.marks == r.marks
            && var long := r.marks + [Mark(r1.next, Geometry(cols, 24, Current(r).epoch + 1))];
               Resized(r1, cols, 24).marks == if |long| > MAX_MARKS then long[1..] else long
  {
    AppendRefines(r, f, [0]);
    var r1 := Appended(r, [0]);
    assert Oldest(r1) == 0 && DropPast(r.marks, 0) == r.marks;
    DropOverShape(r.marks);
    var long := r.marks + [Mark(r1.next, Geometry(cols, 24, Current(r).epoch + 1))];
    assert DropPast(long, 0) == long;
    DropOverShape(long);
  }

  /** One mark for every byte, as far back as the bound allows, each with its width. */
  predicate MarkEveryByte(marks: seq<Mark>, n: nat) {
    && |marks| == Min(n + 1, MAX_MARKS)
    && forall i :: 0 <= i < |marks| ==>
                     marks[i].at == n + 1 - |marks| + i && marks[i].geometry.cols == WidthAt(n + 1 - |marks| + i)
  }

  lemma OneMoreMark(marks: seq<Mark>, n: nat, m: Mark)
    requires MarkEveryByte(marks, n) && m.at == n + 1 && m.geometry.cols == WidthAt(n + 1)
    ensures var long := marks + [m];
            MarkEveryByte(if |long| > MAX_MARKS then long[1..] else long, n + 1)
  {
  }

  lemma MarkEveryMore(r: Ring, f: Full)
    requires Refines(r, f) && Oldest(r) == 0 && r.next < r.capacity == 0x10_0000 && MarkEveryByte(r.marks, r.next)
    ensures MarkEveryByte(Resized(Appended(r, [0]), WidthAt(r.next + 1), 24).marks, r.next + 1)
  {
    var cols := WidthAt(r.next + 1);
    LiveMarks(r, f, cols);
    OneMoreMark(r.marks, r.next, Mark(r.next + 1, Geometry(cols, 24, Current(r).epoch + 1)));
  }

  /** Nothing has left the ring, and its marks are as they should be. */
  ghost predicate WellDragged(r: Ring, f: Full) {
    Refines(r, f) && r.capacity == 0x10_0000 && Oldest(r) == 0 && MarkEveryByte(r.marks, r.next)
  }

  lemma DragOnce(r: Ring, f: Full)
    requires WellDragged(r, f) && r.next + 1 < 0x10_0000
    ensures var cols := WidthAt(r.next + 1);
            WellDragged(Resized(Appended(r, [0]), cols, 24), FullResize(FullAppend(f, [0]), cols, 24))
  {
    AppendRefines(r, f, [0]);
    ResizeRefines(Appended(r, [0]), FullAppend(f, [0]), WidthAt(r.next + 1), 24);
    MarkEveryMore(r, f);
  }

  lemma {:induction false} DraggedMarks(n: nat)
    requires n < 0x10_0000
    ensures WellDragged(Dragged(n), DraggedFull(n))
  {
    if n > 0 {
      DraggedMarks(n - 1);
      DragOnce(Dragged(n - 1), DraggedFull(n - 1));
    } else {
      StartRefines(0x10_0000, 80, 24);
    }
  }

  lemma DropOverShape(marks: seq<Mark>)
    requires |marks| <= MAX_MARKS + 1
    ensures DropOver(marks) == if |marks| > MAX_MARKS then marks[1..] else marks
  {
  }

  lemma {:induction false} DraggedGrids(n: nat)
    ensures var f := DraggedFull(n);
            && |f.grids| == |f.stream| == n && f.grid.cols == WidthAt(n)
            && forall k :: 0 <= k < n ==> f.grids[k].cols == WidthAt(k)
  {
    if n > 0 {
      DraggedGrids(n - 1);
    }
  }

  /**
   The bound is reachable: past 255 live resizes, a reader from the start is told one width for all bytes up
   to the second mark kept, although every other one of them, and the first, were produced on another.
   */
  lemma LongDragsMislabelOldBytes(n: nat)
    requires MAX_MARKS <= n < 0x10_0000
    ensures Refines(Dragged(n), DraggedFull(n))
    ensures var f, m := DraggedFull(n), n + 1 - MAX_MARKS;
            var frame := ReadFrame(Dragged(n), 0, READ_LIMIT).value;
            && !frame.chunk.gap && frame.chunk.start == 0 < frame.chunk.next <= |f.grids| && frame.chunk.next <= m + 1
            && frame.chunk.data == f.stream[..frame.chunk.next]
            && frame.geometry.cols == WidthAt(m)
            && (forall k :: 0 <= k < frame.chunk.next ==>
                              (f.grids[k].cols == frame.geometry.cols <==> k > 0 && k % 2 == m % 2))
  {
    DraggedMarks(n);
    DraggedGrids(n);
    FrameFromTheStart(Dragged(n), DraggedFull(n), n);
  }

  lemma FrameFromTheStart(r: Ring, f: Full, n: nat)
    requires Refines(r, f) && Oldest(r) == 0 && r.next == n && MAX_MARKS <= n && MarkEveryByte(r.marks, n)
    ensures var frame := ReadFrame(r, 0, READ_LIMIT).value;
            && !frame.chunk.gap && frame.chunk.start == 0 < frame.chunk.next <= Min(n, n + 2 - MAX_MARKS)
            && frame.chunk.data == f.stream[..frame.chunk.next]
            && frame.geometry == r.marks[0].geometry
  {
    FrameData(r, f, 0, READ_LIMIT);
    FrameIsRead(r, 0, READ_LIMIT);
    MarkForIsLast(r.marks, 0);
    assert f.stream[0..] == f.stream;
  }

  // ---------------------------------------------------------------- draining a stopped stream

  /** The frames a reader gets, one read after another, until it has caught up. */
  function Drain(r: Ring, after: nat, limit: nat): seq<Frame>
    requires WellFormed(r) && after <= r.next
    decreases r.next - after
  {
    var frame := ReadFrame(r, after, limit).value;
    if frame.chunk.data == [] || frame.chunk.next <= after || frame.chunk.next > r.next then []
    else [frame] + Drain(r, frame.chunk.next, limit)
  }

  function DataOf(frames: seq<Frame>): seq<Byte> {
    if frames == [] then [] else frames[0].chunk.data + DataOf(frames[1..])
  }

  /** Each frame starts where the one before it ended, with nothing skipped. */
  predicate Contiguous(frames: seq<Frame>, cursor: nat) {
    frames != [] ==>
      && frames[0].chunk.start == cursor && !frames[0].chunk.gap
      && Contiguous(frames[1..], frames[0].chunk.next)
  }

  lemma DrainStep(r: Ring, after: nat, limit: nat)
    requires WellFormed(r) && after <= r.next
    ensures var frame := ReadFrame(r, after, limit).value;
            var frames := Drain(r, after, limit);
            frame.chunk.data != [] && after < frame.chunk.next <= r.next ==>
              && frames == [frame] + Drain(r, frame.chunk.next, limit)
              && frames[1..] == Drain(r, frame.chunk.next, limit)
              && DataOf(frames) == frame.chunk.data + DataOf(Drain(r, frame.chunk.next, limit))
  {
  }

  /** Reading on until caught up delivers all that is retained, once and in order, in bounded reads. */
  lemma {:induction false} DrainDeliversEverything(r: Ring, f: Full, after: nat, limit: nat)
    requires Refines(r, f) && after <= r.next && limit > 0
    ensures var frames := Drain(r, after, limit);
            && DataOf(frames) == f.stream[Max(after, Oldest(r))..]
            && |frames| <= r.next - after
            && (Oldest(r) <= after ==> Contiguous(frames, after))
            && (after < Oldest(r) ==>
                  && frames != [] && frames[0].chunk.gap && frames[0].chunk.start == Oldest(r)
                  && Contiguous(frames[1..], frames[0].chunk.next))
    decreases r.next - after
  {
    FrameData(r, f, after, limit);
    var frame := ReadFrame(r, after, limit).value;
    var next := frame.chunk.next;
    if after == r.next {
      assert f.stream[Max(after, Oldest(r))..] == [];
    } else {
      DrainDeliversEverything(r, f, next, limit);
      SplitFrom(f.stream, frame.chunk.start, next);
      DrainStep(r, after, limit);
    }
  }
}
