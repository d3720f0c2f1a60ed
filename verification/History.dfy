/** The output history as the keeper has it: a ring and its marks, changed in place. */
module History {
  import opened Basics
  import opened HistorySpec

  class History {
    var bytes: seq<Byte>
    const capacity: nat
    var next: nat
    var marks: seq<Mark>
    /** Everything ever appended, which the ring forgets. */
    ghost var full: Full

    ghost function View(): Ring
      reads this
    {
      Ring(bytes, capacity, next, marks)
    }

    ghost predicate Valid()
      reads this
    {
      Refines(View(), full)
    }

    constructor (capacity: nat, cols: U16, rows: U16)
      requires capacity > 0
      ensures Valid() && View() == Start(capacity, cols, rows)
      ensures full == Full([], [], Geometry(cols, rows, 0))
    {
      this.capacity := capacity;
      bytes, next, marks := [], 0, [Mark(0, Geometry(cols, rows, 0))];
      full := Full([], [], Geometry(cols, rows, 0));
      StartRefines(capacity, cols, rows);
    }

    /** The offset is a `u64`; appending past its end stops the keeper. */
    method Append(data: seq<Byte>)
      requires Valid() && next + |data| <= U64_MAX
      modifies this
      ensures Valid() && View() == Appended(old(View()), data) && full == FullAppend(old(full), data)
    {
      AppendRefines(View(), full, data);
      PushInPlace(data);
      next := next + |data|;
      full := FullAppend(full, data);
      PruneInPlace();
    }

    /** Byte by byte, the oldest giving way once the ring is full. */
    method PushInPlace(data: seq<Byte>)
      requires 0 < capacity && |bytes| <= capacity
      modifies this`bytes
      ensures bytes == Push(old(bytes), capacity, data)
    {
      ghost var whole := Push(bytes, capacity, data);
      assert data[0..] == data;
      for i := 0 to |data|
        invariant |bytes| <= capacity && Push(bytes, capacity, data[i..]) == whole
      {
        assert data[i..][0] == data[i] && data[i..][1..] == data[i + 1..];
        if |bytes| == capacity {
          bytes := bytes[1..];
        }
        bytes := bytes + [data[i]];
      }
    }

    method Resize(cols: U16, rows: U16) returns (geometry: Geometry)
      requires Valid()
      modifies this
      ensures Valid() && View() == Resized(old(View()), cols, rows) && full == FullResize(old(full), cols, rows)
      ensures geometry == full.grid
    {
      ResizeRefines(View(), full, cols, rows);
      geometry := Geometry(cols, rows, Grid().epoch + 1);
      var last := |marks| - 1;
      if marks[last].at == next {
        marks := marks[..last];
      }
      marks := marks + [Mark(next, geometry)];
      full := FullResize(full, cols, rows);
      PruneInPlace();
    }

    /** What the next byte will be produced on. */
    function Grid(): (g: Geometry)
      requires Valid()
      reads this
      ensures g == full.grid
    {
      marks[|marks| - 1].geometry
    }

    method PruneInPlace()
      requires |bytes| <= next && marks != []
      modifies this`marks
      ensures View() == Prune(old(View())) && marks != []
    {
      var oldest := next - |bytes|;
      ghost var was := marks;
      while |marks| > 1 && marks[1].at <= oldest
        invariant marks != [] && DropPast(was, oldest) == DropPast(marks, oldest)
        decreases |marks|
      {
        marks := marks[1..];
      }
      while |marks| > MAX_MARKS
        invariant marks != [] && DropOver(DropPast(was, oldest)) == DropOver(marks)
        decreases |marks|
      {
        marks := marks[1..];
      }
    }

    method ReadFrom(after: nat, limit: nat) returns (chunk: Option<Chunk>)
      requires Valid()
      ensures chunk == Read(View(), after, limit)
      ensures chunk.None? <==> after > next
      ensures chunk.Some? && limit > 0 ==> TrueChunk(View(), full, after, limit, next, chunk.value)
    {
      chunk := PieceFrom(after, limit);
      if after <= next && limit > 0 {
        ReadTellsTheTruth(View(), full, after, limit);
      }
    }

    /** The piece itself, by arithmetic on what is retained. */
    method PieceFrom(after: nat, limit: nat) returns (chunk: Option<Chunk>)
      requires WellFormed(View())
      ensures chunk == Read(View(), after, limit)
    {
      if after > next {
        return None;
      }
      var oldest := next - |bytes|;
      var start := Max(after, oldest);
      var rest := bytes[start - oldest..];
      var data := rest[..Min(limit, |rest|)];
      return Some(Chunk(start, start + |data|, after < oldest, data));
    }

    /** Whose run `start` falls into, searched from the back, and how far that run goes. */
    method FindMark(start: nat) returns (at: nat, room: nat)
      requires marks != []
      ensures at == MarkFor(marks, start) && room == Room(marks, start)
    {
      at := |marks| - 1;
      assert marks[..at + 1] == marks;
      while at > 0 && marks[at].at > start
        invariant 0 <= at < |marks|
        invariant MarkFor(marks, start) == MarkFor(marks[..at + 1], start)
      {
        assert marks[..at + 1][..at] == marks[..at];
        at := at - 1;
      }
      assert marks[..at + 1][at] == marks[at];
      var until := if at + 1 < |marks| then marks[at + 1].at else U64_MAX;
      room := Max(0, until - start);
    }

    /** A piece of the stream and the grid it was produced under; `Valid` is what makes that true. */
    method ReadFrameFrom(after: nat, limit: nat) returns (frame: Option<Frame>)
      requires Valid() && limit > 0
      ensures frame == ReadFrame(View(), after, limit)
      ensures if after > next then frame.None? else frame.Some? && TrueFrame(View(), full, after, limit, frame.value)
    {
      if after > next {
        return None;
      }
      FrameTellsTheTruth(View(), full, after, limit);
      FrameIsRead(View(), after, limit);
      var at, room := FindMark(Max(after, next - |bytes|));
      var chunk := ReadFrom(after, Min(limit, room));
      frame := Some(Frame(chunk.value, marks[at].geometry));
    }
  }
}
