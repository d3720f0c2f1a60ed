/**
 The output side of a keeper: the PTY reader, the child watcher, a resize and a subscriber, interleaved
 step by step over the screen, history and signal locks.

 The controls lock admits one resize at a time, so there is one resizer. Subscribers only read, so one
 stands for any number of them.
 */
module KeeperOutput {
  import opened Transitions
  import opened Basics
  import opened HistorySpec

  /** What the screen and the history are both told, in order. */
  datatype Event = Fed(data: seq<Byte>) | Sized(cols: U16, rows: U16)

  datatype Who = TheReader | TheResizer | TheSubscriber

  datatype ReaderPc =
    | Reading                     // blocked on the PTY
    | Got(data: seq<Byte>)
    | HasScreen(data: seq<Byte>)
    | HasBoth(data: seq<Byte>)
    | FedScreen(data: seq<Byte>)  // parsed, not yet recorded
    | Recorded                    // recorded, locks still held
    | MustNotify
    | MustNotifyClosed            // end of output stored, not yet signalled
    | Ended

  datatype ResizerPc =
    | NoResize
    | Checked(cols: U16, rows: U16)   // generation checked, controls lock held
    | LockedScreen(cols: U16, rows: U16)
    | LockedBoth(cols: U16, rows: U16)
    | Ioctl(cols: U16, rows: U16)     // the PTY has the new size
    | ScreenSized(cols: U16, rows: U16)
    | Marked                          // the history has its mark, locks still held
    | ResizeMustNotify

  datatype ChildPc = Running | ExitMustNotify | Reaped

  datatype SubPc =
    | Looping
    | Saw(seen: nat)
    | SawExited(seen: nat, exited: bool)
    | SawEnded(seen: nat, ended: bool)
    | HasFrame(seen: nat, ended: bool, frame: Frame, exact: bool)
    | Parked(seen: nat, frame: Frame, exact: bool)
    | Refused                         // the cursor was ahead; the error is written under the history lock
    | Denied                          // and the connection closed
    | Lost                            // a frame could not be written
    | Closed                          // the closing frame was written

  /** A frame written to the subscriber. `exact`: it started at or past the oldest mark kept. */
  datatype Sent = Sent(frame: Frame, exited: bool, exact: bool)

  datatype Sys = Sys(
    ring: Ring, full: Full,
    screen: seq<Event>, history: seq<Event>, pty: (U16, U16),
    screenLock: Option<Who>, historyLock: Option<Who>,
    signal: nat, changes: nat,
    exited: bool, closed: bool,
    reader: ReaderPc, resizer: ResizerPc, child: ChildPc,
    sub: SubPc, from: nat, cursor: nat, sent: seq<Sent>)

  /** A keeper starts on an 80 by 24 grid; the subscriber asks from wherever it likes. */
  function Boot(capacity: nat, from: nat): Sys
    requires capacity > 0
  {
    Sys(Start(capacity, 80, 24), Full([], [], Geometry(80, 24, 0)), [], [], (80, 24), None, None, 0, 0,
        false, false, Reading, NoResize, Running, Looping, from, from, [])
  }

  // ---------------------------------------------------------------- steps

  predicate PtyGives(s: Sys, data: seq<Byte>, s': Sys) {
    data != [] && s.ring.next + |data| <= U64_MAX && s' == s.(reader := Got(data))
  }

  predicate ResizeAsked(s: Sys, cols: U16, rows: U16, s': Sys) {
    s' == s.(resizer := Checked(cols, rows))
  }

  ghost predicate ReaderStep(s: Sys, s': Sys) {
    match s.reader
    case Reading =>
      || (exists data :: PtyGives(s, data, s'))
      || s' == s.(closed := true, changes := s.changes + 1, reader := MustNotifyClosed)
    case Got(data) =>
      s.screenLock.None? && s' == s.(screenLock := Some(TheReader), reader := HasScreen(data))
    case HasScreen(data) =>
      s.historyLock.None? && s' == s.(historyLock := Some(TheReader), reader := HasBoth(data))
    case HasBoth(data) =>
      s' == s.(screen := s.screen + [Fed(data)], reader := FedScreen(data))
    case FedScreen(data) =>
      && WellFormed(s.ring)
      && s' == s.(ring := Appended(s.ring, data), full := FullAppend(s.full, data),
                  history := s.history + [Fed(data)], changes := s.changes + 1, reader := Recorded)
    case Recorded =>
      s' == s.(screenLock := None, historyLock := None, reader := MustNotify)
    case MustNotify => s' == s.(signal := s.signal + 1, reader := Reading)
    case MustNotifyClosed => s' == s.(signal := s.signal + 1, reader := Ended)
    case Ended => false
  }

  ghost predicate ResizerStep(s: Sys, s': Sys) {
    match s.resizer
    case NoResize =>
      exists cols, rows :: ResizeAsked(s, cols, rows, s')
    case Checked(cols, rows) =>
      s.screenLock.None? && s' == s.(screenLock := Some(TheResizer), resizer := LockedScreen(cols, rows))
    case LockedScreen(cols, rows) =>
      s.historyLock.None? && s' == s.(historyLock := Some(TheResizer), resizer := LockedBoth(cols, rows))
    case LockedBoth(cols, rows) =>
      || s' == s.(pty := (cols, rows), resizer := Ioctl(cols, rows))
      || s' == s.(screenLock := None, historyLock := None, resizer := NoResize)   // the ioctl failed
    case Ioctl(cols, rows) =>
      s' == s.(screen := s.screen + [Sized(cols, rows)], resizer := ScreenSized(cols, rows))
    case ScreenSized(cols, rows) =>
      && WellFormed(s.ring)
      && s' == s.(ring := Resized(s.ring, cols, rows), full := FullResize(s.full, cols, rows),
                  history := s.history + [Sized(cols, rows)], changes := s.changes + 1, resizer := Marked)
    case Marked =>
      s' == s.(screenLock := None, historyLock := None, resizer := ResizeMustNotify)
    case ResizeMustNotify => s' == s.(signal := s.signal + 1, resizer := NoResize)
  }

  ghost predicate ChildStep(s: Sys, s': Sys) {
    match s.child
    case Running => s' == s.(exited := true, changes := s.changes + 1, child := ExitMustNotify)
    case ExitMustNotify => s' == s.(signal := s.signal + 1, child := Reaped)
    case Reaped => false
  }

  /** Writing a frame either works and moves on to `next`, or ends the subscription. */
  predicate Sends(s: Sys, sent: Sent, cursor: nat, next: SubPc, s': Sys) {
    || s' == s.(sent := s.sent + [sent], cursor := cursor, sub := next)
    || s' == s.(sub := Lost)
  }

  ghost predicate SubStep(s: Sys, s': Sys) {
    match s.sub
    case Looping => s' == s.(sub := Saw(s.signal))
    case Saw(seen) => s' == s.(sub := SawExited(seen, s.exited))
    case SawExited(seen, exited) => s' == s.(sub := SawEnded(seen, exited && s.closed))
    case SawEnded(seen, ended) =>
      && s.historyLock.None? && WellFormed(s.ring)
      && var got := ReadFrame(s.ring, s.cursor, READ_LIMIT);
         if got.None? then s' == s.(historyLock := Some(TheSubscriber), sub := Refused)
         else s' == s.(sub := HasFrame(seen, ended, got.value, s.ring.marks[0].at <= got.value.chunk.start))
    case HasFrame(seen, ended, frame, exact) =>
      if frame.chunk.data != [] then Sends(s, Sent(frame, false, exact), frame.chunk.next, Looping, s')
      else if ended then Sends(s, Sent(frame, true, exact), s.cursor, Closed, s')
      else s' == s.(sub := if s.signal == seen then Parked(seen, frame, exact) else Looping)
    case Parked(seen, frame, exact) =>
      || (s.signal != seen && s' == s.(sub := Looping))                               // woken
      || (s.signal == seen && Sends(s, Sent(frame, false, exact), s.cursor, Looping, s'))  // heartbeat
    case Refused => s' == s.(historyLock := None, sub := Denied)
    case Denied => false
    case Lost => false
    case Closed => false
  }

  ghost predicate Next(s: Sys, s': Sys) {
    ReaderStep(s, s') || ResizerStep(s, s') || ChildStep(s, s') || SubStep(s, s')
  }

  ghost predicate Begins(s: Sys) {
    exists capacity: nat, from: nat {:trigger Boot(capacity, from)} :: capacity > 0 && s == Boot(capacity, from)
  }

  ghost predicate StepAt(run: seq<Sys>, i: nat)
    requires 0 < i < |run|
  {
    Next(run[i - 1], run[i])
  }

  ghost predicate Run(run: seq<Sys>) {
    && run != []
    && Begins(run[0])
    && forall i :: 0 < i < |run| ==> StepAt(run, i)
  }

  // ---------------------------------------------------------------- locks and traces

  /** The stream and grids a trace of feeds and resizes amounts to. */
  function Played(trace: seq<Event>): Full {
    if trace == [] then Full([], [], Geometry(80, 24, 0))
    else
      var before := Played(trace[..|trace| - 1]);
      match trace[|trace| - 1]
      case Fed(data) => FullAppend(before, data)
      case Sized(cols, rows) => FullResize(before, cols, rows)
  }

  function SizeOf(trace: seq<Event>): (U16, U16) {
    (Played(trace).grid.cols, Played(trace).grid.rows)
  }

  predicate ReaderHasScreen(pc: ReaderPc) {
    pc.HasScreen? || ReaderHasHistory(pc)
  }

  predicate ReaderHasHistory(pc: ReaderPc) {
    pc.HasBoth? || pc.FedScreen? || pc.Recorded?
  }

  predicate ResizerHasScreen(pc: ResizerPc) {
    pc.LockedScreen? || ResizerHasHistory(pc)
  }

  predicate ResizerHasHistory(pc: ResizerPc) {
    pc.LockedBoth? || pc.Ioctl? || pc.ScreenSized? || pc.Marked?
  }

  predicate LocksOk(s: Sys) {
    && (ReaderHasScreen(s.reader) <==> s.screenLock == Some(TheReader))
    && (ResizerHasScreen(s.resizer) <==> s.screenLock == Some(TheResizer))
    && s.screenLock != Some(TheSubscriber)
    && (ReaderHasHistory(s.reader) <==> s.historyLock == Some(TheReader))
    && (ResizerHasHistory(s.resizer) <==> s.historyLock == Some(TheResizer))
    && (s.sub.Refused? <==> s.historyLock == Some(TheSubscriber))
  }

  /** What the screen has been told and the history not yet. */
  function Ahead(s: Sys): seq<Event> {
    if s.reader.FedScreen? then [Fed(s.reader.data)]
    else if s.resizer.ScreenSized? then [Sized(s.resizer.cols, s.resizer.rows)]
    else []
  }

  /** The ring keeps what the trace has produced. */
  ghost predicate Kept(ring: Ring, full: Full, trace: seq<Event>) {
    full == Played(trace) && Refines(ring, full)
  }

  ghost predicate TracesOk(s: Sys) {
    && s.screen == s.history + Ahead(s)
    && Kept(s.ring, s.full, s.history)
    && (if s.resizer.Ioctl? || s.resizer.ScreenSized? then s.pty == (s.resizer.cols, s.resizer.rows)
        else s.pty == (s.full.grid.cols, s.full.grid.rows))
    && (s.reader.Got? || s.reader.HasScreen? || s.reader.HasBoth? || s.reader.FedScreen? ==>
          s.reader.data != [] && s.ring.next + |s.reader.data| <= U64_MAX)
  }

  lemma PlayedOneMore(trace: seq<Event>, e: Event)
    ensures Played(trace + [e]) ==
            if e.Fed? then FullAppend(Played(trace), e.data) else FullResize(Played(trace), e.cols, e.rows)
  {
    assert (trace + [e])[..|trace|] == trace;
  }

  lemma FeedIsKept(ring: Ring, full: Full, trace: seq<Event>, data: seq<Byte>)
    requires Kept(ring, full, trace) && ring.next + |data| <= U64_MAX
    ensures Kept(Appended(ring, data), FullAppend(full, data), trace + [Fed(data)])
  {
    AppendRefines(ring, full, data);
    PlayedOneMore(trace, Fed(data));
  }

  lemma SizeIsKept(ring: Ring, full: Full, trace: seq<Event>, cols: U16, rows: U16)
    requires Kept(ring, full, trace)
    ensures Kept(Resized(ring, cols, rows), FullResize(full, cols, rows), trace + [Sized(cols, rows)])
  {
    ResizeRefines(ring, full, cols, rows);
    PlayedOneMore(trace, Sized(cols, rows));
  }

  lemma ReaderKeepsLocks(s: Sys, s': Sys)
    requires LocksOk(s) && ReaderStep(s, s')
    ensures LocksOk(s')
  {
  }

  lemma ReaderKeepsSignal(s: Sys, s': Sys)
    requires SignalOk(s) && ReaderStep(s, s')
    ensures SignalOk(s')
  {
  }

  lemma ReaderKeepsTraces(s: Sys, s': Sys)
    requires LocksOk(s) && TracesOk(s) && ReaderStep(s, s')
    ensures TracesOk(s')
  {
    if s.reader.FedScreen? {
      FeedIsRecorded(s, s', s.reader.data);
    }
  }

  /** The history takes what the screen was fed. */
  lemma FeedIsRecorded(s: Sys, s': Sys, data: seq<Byte>)
    requires TracesOk(s) && s.reader == FedScreen(data) && !s.resizer.ScreenSized? && !s.resizer.Ioctl?
    requires s'.ring == Appended(s.ring, data) && s'.full == FullAppend(s.full, data)
    requires s'.history == s.history + [Fed(data)] && s'.screen == s.screen
    requires s'.pty == s.pty && s'.resizer == s.resizer && s'.reader == Recorded
    ensures TracesOk(s')
  {
    FeedIsKept(s.ring, s.full, s.history, data);
  }

  lemma ResizerKeepsLocks(s: Sys, s': Sys)
    requires LocksOk(s) && ResizerStep(s, s')
    ensures LocksOk(s')
  {
  }

  lemma ResizerKeepsTraces(s: Sys, s': Sys)
    requires LocksOk(s) && TracesOk(s) && ResizerStep(s, s')
    ensures TracesOk(s')
  {
    if s.resizer.ScreenSized? {
      SizeIsRecorded(s, s', s.resizer.cols, s.resizer.rows);
    }
  }

  /** The history takes the size the screen was given. */
  lemma SizeIsRecorded(s: Sys, s': Sys, cols: U16, rows: U16)
    requires TracesOk(s) && s.resizer == ScreenSized(cols, rows) && !ReaderHasScreen(s.reader)
    requires s' == s.(ring := Resized(s.ring, cols, rows), full := FullResize(s.full, cols, rows),
                      history := s.history + [Sized(cols, rows)], changes := s'.changes, resizer := Marked)
    ensures TracesOk(s')
  {
    SizeIsKept(s.ring, s.full, s.history, cols, rows);
  }

  lemma ResizerKeepsSignal(s: Sys, s': Sys)
    requires LocksOk(s) && SignalOk(s) && ResizerStep(s, s')
    ensures SignalOk(s')
  {
  }

  lemma ChildKeepsTraces(s: Sys, s': Sys)
    requires LocksOk(s) && TracesOk(s) && SignalOk(s) && ChildStep(s, s')
    ensures LocksOk(s') && TracesOk(s') && SignalOk(s')
  {
  }

  /** A subscriber changes nothing but its own state, and takes the history lock only to refuse. */
  lemma SubscriberOnlyReads(s: Sys, s': Sys)
    requires SubStep(s, s')
    ensures s' == s.(sub := s'.sub, cursor := s'.cursor, sent := s'.sent, historyLock := s'.historyLock)
    ensures s'.historyLock ==
            if s'.sub.Refused? then Some(TheSubscriber) else if s.sub.Refused? then None else s.historyLock
    ensures s'.sub.Refused? ==> s.historyLock.None?
  {
  }

  lemma SubscriberKeepsTraces(s: Sys, s': Sys)
    requires LocksOk(s) && TracesOk(s) && SubStep(s, s')
    ensures LocksOk(s') && TracesOk(s')
  {
    SubscriberOnlyReads(s, s');
    TracesFrame(s, s');
  }

  lemma TracesFrame(s: Sys, s': Sys)
    requires TracesOk(s)
    requires s' == s.(sub := s'.sub, cursor := s'.cursor, sent := s'.sent, historyLock := s'.historyLock)
    ensures TracesOk(s')
  {
  }

  // ---------------------------------------------------------------- the subscriber

  function One(b: bool): nat {
    if b then 1 else 0
  }

  /** Changes made and not yet signalled. */
  function Due(s: Sys): nat {
    One(s.reader.Recorded? || s.reader.MustNotify? || s.reader.MustNotifyClosed?)
    + One(s.resizer.Marked? || s.resizer.ResizeMustNotify?)
    + One(s.child.ExitMustNotify?)
  }

  predicate HasEnded(s: Sys) {
    s.exited && s.closed
  }

  /** A frame read at this cursor that is still what reading would give. */
  predicate UpToDate(s: Sys, frame: Frame)
    requires WellFormed(s.ring)
  {
    ReadFrame(s.ring, s.cursor, READ_LIMIT) == Some(frame)
  }

  /** A frame read at this cursor at some time: true of the stream for good. */
  predicate WasRead(s: Sys, frame: Frame, exact: bool)
    requires |s.full.grids| == |s.full.stream|
  {
    TrueFrom(s.full, Sent(frame, false, exact), s.cursor)
  }

  /** Bytes of the stream from `cursor` on, `gap` exactly when some are skipped, the grid right when exact. */
  predicate TrueFrom(f: Full, sent: Sent, cursor: nat)
    requires |f.grids| == |f.stream|
  {
    var c := sent.frame.chunk;
    && cursor <= c.start <= c.next <= |f.stream|
    && c.data == f.stream[c.start..c.next]
    && (c.gap <==> cursor < c.start)
    && (c.data == [] ==> c.next == cursor)
    && (sent.exact ==> AllUnder(f, c.start, c.next, sent.frame.geometry))
  }

  ghost predicate SubOk(s: Sys)
    requires WellFormed(s.ring) && |s.full.grids| == |s.full.stream|
  {
    match s.sub
    case Looping => true
    case Saw(seen) => seen <= s.signal
    case SawExited(seen, exited) =>
      seen <= s.signal && (exited ==> s.exited) && (s.changes == seen ==> exited == s.exited)
    case SawEnded(seen, ended) =>
      seen <= s.signal && (ended ==> HasEnded(s)) && (s.changes == seen ==> ended == HasEnded(s))
    case HasFrame(seen, ended, frame, exact) =>
      && seen <= s.signal && (ended ==> HasEnded(s)) && (s.changes == seen ==> ended == HasEnded(s))
      && WasRead(s, frame, exact)
      && (s.changes == seen ==> UpToDate(s, frame))
      && (ended && frame.chunk.data == [] ==> s.cursor == s.ring.next)
    case Parked(seen, frame, exact) =>
      && seen <= s.signal && frame.chunk.data == []
      && WasRead(s, frame, exact)
      && (s.changes == seen ==> UpToDate(s, frame) && !HasEnded(s))
    case _ => true
  }

  /** The subscriber's cursor after its first `n` frames. */
  function CursorAfter(from: nat, sent: seq<Sent>, n: nat): nat
    requires n <= |sent|
  {
    if n == 0 then from else sent[n - 1].frame.chunk.next
  }

  function CursorAt(s: Sys, n: nat): nat
    requires n <= |s.sent|
  {
    CursorAfter(s.from, s.sent, n)
  }

  predicate AllTrue(f: Full, from: nat, sent: seq<Sent>)
    requires |f.grids| == |f.stream|
  {
    forall i :: 0 <= i < |sent| ==> TrueFrom(f, sent[i], CursorAfter(from, sent, i))
  }

  lemma PlaceStays(from: nat, sent: seq<Sent>, more: Sent, i: nat)
    requires i <= |sent|
    ensures (sent + [more])[i] == (if i < |sent| then sent[i] else more)
    ensures CursorAfter(from, sent + [more], i) == CursorAfter(from, sent, i)
  {
  }

  lemma OneMoreTrue(f: Full, from: nat, sent: seq<Sent>, more: Sent)
    requires |f.grids| == |f.stream| && AllTrue(f, from, sent) && TrueFrom(f, more, CursorAfter(from, sent, |sent|))
    ensures AllTrue(f, from, sent + [more])
  {
    var longer := sent + [more];
    forall i | 0 <= i < |longer| ensures TrueFrom(f, longer[i], CursorAfter(from, longer, i)) {
      PlaceStays(from, sent, more, i);
    }
  }

  ghost predicate SentOk(s: Sys)
    requires |s.full.grids| == |s.full.stream|
  {
    && s.cursor == CursorAt(s, |s.sent|)
    && AllTrue(s.full, s.from, s.sent)
    && (forall i :: 0 <= i < |s.sent| && s.sent[i].exited ==>
                      && i == |s.sent| - 1 && s.sub.Closed? && HasEnded(s)
                      && s.sent[i].frame.chunk.data == [] && s.cursor == s.ring.next)
  }

  /** How a subscription ends: with the closing frame, or refused before anything was sent, or by a failed write. */
  predicate EndOk(s: Sys) {
    && (s.sub.Closed? ==> s.sent != [] && s.sent[|s.sent| - 1].exited)
    && (s.sub.Refused? || s.sub.Denied? ==> s.sent == [])
  }

  predicate SignalOk(s: Sys) {
    && s.changes == s.signal + Due(s)
    && (s.closed <==> s.reader.MustNotifyClosed? || s.reader.Ended?)
    && (s.exited <==> !s.child.Running?)
  }

  ghost predicate Inv(s: Sys) {
    LocksOk(s) && TracesOk(s) && SignalOk(s) && SubOk(s) && SentOk(s) && EndOk(s)
  }

  /** Whatever is true of a frame stays true as the stream grows. */
  lemma TruthIsStable(f: Full, f': Full, sent: Sent, cursor: nat)
    requires |f.grids| == |f.stream| && |f'.grids| == |f'.stream|
    requires f.stream <= f'.stream && f.grids <= f'.grids
    requires TrueFrom(f, sent, cursor)
    ensures TrueFrom(f', sent, cursor)
  {
    var c := sent.frame.chunk;
    assert f'.stream[c.start..c.next] == f.stream[c.start..c.next];
  }

  /** What the other threads do: the stream only grows, and every change is counted. */
  ghost predicate OnlyAdds(s: Sys, s': Sys) {
    && s'.sub == s.sub && s'.from == s.from && s'.cursor == s.cursor && s'.sent == s.sent
    && s.signal <= s'.signal && s.full.stream <= s'.full.stream && s.full.grids <= s'.full.grids
    && ((s'.ring == s.ring && s'.exited == s.exited && s'.closed == s.closed && s'.changes == s.changes)
        || s'.changes == s.changes + 1)
    && (s.exited ==> s'.exited) && (s.closed ==> s'.closed && s'.ring.next == s.ring.next)
  }

  lemma ReaderOnlyAdds(s: Sys, s': Sys)
    requires SignalOk(s) && ReaderStep(s, s')
    ensures OnlyAdds(s, s')
  {
  }

  lemma ResizerOnlyAdds(s: Sys, s': Sys)
    requires ResizerStep(s, s')
    ensures OnlyAdds(s, s')
  {
  }

  lemma ChildOnlyAdds(s: Sys, s': Sys)
    requires SignalOk(s) && ChildStep(s, s')
    ensures OnlyAdds(s, s')
  {
  }

  lemma OthersKeepSubscriber(s: Sys, s': Sys)
    requires WellFormed(s.ring) && |s.full.grids| == |s.full.stream| && SubOk(s) && SentOk(s) && SignalOk(s)
    requires WellFormed(s'.ring) && |s'.full.grids| == |s'.full.stream| && SignalOk(s') && OnlyAdds(s, s')
    ensures SubOk(s') && SentOk(s')
  {
    assert s.signal <= s.changes;
    forall i | 0 <= i < |s.sent| ensures TrueFrom(s'.full, s'.sent[i], CursorAfter(s'.from, s'.sent, i)) {
      TruthIsStable(s.full, s'.full, s.sent[i], CursorAfter(s.from, s.sent, i));
    }
    if s.sub.HasFrame? || s.sub.Parked? {
      TruthIsStable(s.full, s'.full, Sent(s.sub.frame, false, s.sub.exact), s.cursor);
    }
  }

  /** Reading a frame: what it says is true, and up to date if nothing changed since the signal was read. */
  lemma ReadingKeeps(s: Sys, s': Sys)
    requires Inv(s) && SubStep(s, s') && s.sub.SawEnded?
    requires s' == s.(sub := s'.sub, historyLock := s'.historyLock)
    ensures SubOk(s') && SentOk(s')
  {
    if s.cursor <= s.ring.next {
      FrameTellsTheTruth(s.ring, s.full, s.cursor, READ_LIMIT);
    }
    SentFrame(s, s');
  }

  lemma SentFrame(s: Sys, s': Sys)
    requires |s.full.grids| == |s.full.stream| && SentOk(s) && s'.full == s.full
    requires s'.sent == s.sent && s'.cursor == s.cursor && s'.from == s.from
    requires s'.exited == s.exited && s'.closed == s.closed && s'.ring == s.ring
    requires s.sub.Closed? ==> s'.sub.Closed?
    ensures SentOk(s')
  {
  }

  lemma SentOneMore(s: Sys, sent: Sent, s': Sys)
    requires |s.full.grids| == |s.full.stream| && SentOk(s) && !s.sub.Closed? && s'.full == s.full
    requires s'.sent == s.sent + [sent] && s'.cursor == sent.frame.chunk.next && s'.from == s.from
    requires TrueFrom(s.full, sent, s.cursor)
    requires sent.exited ==> s'.sub.Closed? && HasEnded(s') && sent.frame.chunk.data == [] && s'.cursor == s'.ring.next
    ensures SentOk(s')
  {
    OneMoreTrue(s.full, s.from, s.sent, sent);
    assert forall i :: 0 <= i < |s.sent| ==> s'.sent[i] == s.sent[i] && !s.sent[i].exited;
    assert s'.sent[|s.sent|] == sent;
  }

  lemma SendingKeeps(s: Sys, sent: Sent, cursor: nat, next: SubPc, s': Sys)
    requires |s.full.grids| == |s.full.stream| && SentOk(s) && !s.sub.Closed?
    requires Sends(s, sent, cursor, next, s') && TrueFrom(s.full, sent, s.cursor) && cursor == sent.frame.chunk.next
    requires sent.exited ==> HasEnded(s) && sent.frame.chunk.data == [] && cursor == s.ring.next && next.Closed?
    ensures SentOk(s')
  {
    if s'.sub == Lost && s'.sent == s.sent {
      SentFrame(s, s');
    } else {
      SentOneMore(s, sent, s');
    }
  }

  lemma FrameSentKeeps(s: Sys, s': Sys)
    requires WellFormed(s.ring) && |s.full.grids| == |s.full.stream|
    requires SubOk(s) && SentOk(s) && SubStep(s, s') && s.sub.HasFrame?
    ensures s'.full == s.full && SentOk(s')
  {
    var HasFrame(seen, ended, frame, exact) := s.sub;
    if frame.chunk.data != [] {
      SendingKeeps(s, Sent(frame, false, exact), frame.chunk.next, Looping, s');
    } else if ended {
      SendingKeeps(s, Sent(frame, true, exact), s.cursor, Closed, s');
    } else {
      SentFrame(s, s');
    }
  }

  lemma HeartbeatKeeps(s: Sys, s': Sys)
    requires WellFormed(s.ring) && |s.full.grids| == |s.full.stream|
    requires SubOk(s) && SentOk(s) && SubStep(s, s') && s.sub.Parked?
    ensures s'.full == s.full && SentOk(s')
  {
    if s.signal != s.sub.seen {
      SentFrame(s, s');
    } else {
      SendingKeeps(s, Sent(s.sub.frame, false, s.sub.exact), s.cursor, Looping, s');
    }
  }

  lemma QuietStepKeeps(s: Sys, s': Sys)
    requires WellFormed(s.ring) && |s.full.grids| == |s.full.stream|
    requires SentOk(s) && SubStep(s, s') && !s.sub.HasFrame? && !s.sub.Parked?
    ensures s'.full == s.full && SentOk(s')
  {
    SubscriberOnlyReads(s, s');
    SentFrame(s, s');
  }

  lemma SubscriberKeepsPlace(s: Sys, s': Sys)
    requires WellFormed(s.ring) && |s.full.grids| == |s.full.stream|
    requires SubOk(s) && SubStep(s, s') && !s.sub.SawEnded?
    ensures s'.full == s.full && s'.ring == s.ring && SubOk(s')
  {
    SubscriberOnlyReads(s, s');
    if s'.sub.Parked? {
      assert s.sub == HasFrame(s'.sub.seen, false, s'.sub.frame, s'.sub.exact);
    }
  }

  /** What was sent was read within the output. */
  lemma SentMeansWithin(s: Sys)
    requires |s.full.grids| == |s.full.stream| && SentOk(s) && s.sent != []
    ensures s.cursor <= |s.full.stream|
  {
    assert TrueFrom(s.full, s.sent[|s.sent| - 1], CursorAt(s, |s.sent| - 1));
  }

  lemma RefusedMeansAhead(s: Sys, s': Sys)
    requires SubStep(s, s') && s'.sub.Refused?
    ensures s.cursor > s.ring.next
  {
  }

  lemma EndStep(s: Sys, s': Sys)
    requires EndOk(s) && SubStep(s, s') && (s'.sub.Refused? ==> s.sent == [])
    ensures EndOk(s')
  {
  }

  lemma EndKeeps(s: Sys, s': Sys)
    requires |s.full.grids| == |s.full.stream| == s.ring.next && SentOk(s) && EndOk(s) && SubStep(s, s')
    ensures EndOk(s')
  {
    if s'.sub.Refused? {
      RefusedMeansAhead(s, s');
      if s.sent != [] {
        SentMeansWithin(s);
      }
    }
    EndStep(s, s');
  }

  lemma SubscriptionKeeps(s: Sys, s': Sys)
    requires Inv(s) && SubStep(s, s')
    ensures Inv(s')
  {
    EndKeeps(s, s');
    SubscriberOnlyReads(s, s');
    SubscriberKeepsTraces(s, s');
    if s.sub.SawEnded? {
      ReadingKeeps(s, s');
    } else {
      SubscriberKeepsPlace(s, s');
      if s.sub.HasFrame? {
        FrameSentKeeps(s, s');
      } else if s.sub.Parked? {
        HeartbeatKeeps(s, s');
      } else {
        QuietStepKeeps(s, s');
      }
    }
  }

  lemma ReaderKeeps(s: Sys, s': Sys)
    requires Inv(s) && ReaderStep(s, s')
    ensures Inv(s')
  {
    ReaderKeepsLocks(s, s');
    ReaderKeepsSignal(s, s');
    ReaderKeepsTraces(s, s');
    ReaderOnlyAdds(s, s');
    OthersKeepSubscriber(s, s');
  }

  lemma ResizerKeeps(s: Sys, s': Sys)
    requires Inv(s) && ResizerStep(s, s')
    ensures Inv(s')
  {
    ResizerKeepsLocks(s, s');
    ResizerKeepsSignal(s, s');
    ResizerKeepsTraces(s, s');
    ResizerOnlyAdds(s, s');
    OthersKeepSubscriber(s, s');
  }

  lemma ChildKeeps(s: Sys, s': Sys)
    requires Inv(s) && ChildStep(s, s')
    ensures Inv(s')
  {
    ChildKeepsTraces(s, s');
    ChildOnlyAdds(s, s');
    OthersKeepSubscriber(s, s');
  }

  lemma StepKeepsInvariant(s: Sys, s': Sys)
    requires Inv(s) && Next(s, s')
    ensures Inv(s')
  {
    if ReaderStep(s, s') {
      ReaderKeeps(s, s');
    } else if ResizerStep(s, s') {
      ResizerKeeps(s, s');
    } else if ChildStep(s, s') {
      ChildKeeps(s, s');
    } else {
      SubscriptionKeeps(s, s');
    }
  }

  lemma StepOfRun(run: seq<Sys>, n: nat)
    requires Run(run) && 0 < n < |run| && Inv(run[n - 1])
    ensures Inv(run[n])
  {
    assert StepAt(run, n);
    StepKeepsInvariant(run[n - 1], run[n]);
  }

  lemma StartOfRun(s: Sys)
    requires Begins(s)
    ensures Inv(s)
  {
    var capacity: nat, from: nat :| capacity > 0 && s == Boot(capacity, from);
    StartRefines(capacity, 80, 24);
  }

  lemma RunsKeepInvariant(run: seq<Sys>, n: nat)
    requires Run(run) && n < |run|
    ensures Inv(run[n])
  {
    StartOfRun(run[0]);
    forall i | 0 < i < |run| && Inv(run[i - 1]) ensures Inv(run[i]) {
      StepOfRun(run, i);
    }
    AlongRun(s => Inv(s), run, n);
  }

  // ---------------------------------------------------------------- what every run guarantees

  /**
   No wakeup is lost: a subscriber left parked, with every change signalled and the signal as it saw it,
   is at the head of a session that has not ended. Otherwise it can go on.
   */
  lemma NoLostWakeup(run: seq<Sys>, n: nat)
    requires Run(run) && n < |run| && run[n].sub.Parked? && Due(run[n]) == 0
    ensures run[n].signal != run[n].sub.seen || (run[n].cursor == run[n].ring.next && !HasEnded(run[n]))
    ensures run[n].signal != run[n].sub.seen ==> SubStep(run[n], run[n].(sub := Looping))
  {
    RunsKeepInvariant(run, n);
    var s := run[n];
    if s.signal == s.sub.seen {
      FrameTellsTheTruth(s.ring, s.full, s.cursor, READ_LIMIT);
    }
  }

  /**
   Frames follow one another: each continues where the last ended, or is flagged `gap` and skips ahead,
   and carries the true bytes of the stream under their true grid (unless marks it needed were dropped).
   The `exited` frame is empty, comes at most once and last, and only after everything was delivered.
   */
  lemma FramesFollowTheStream(run: seq<Sys>, n: nat, i: nat)
    requires Run(run) && n < |run| && i < |run[n].sent|
    ensures var s := run[n];
            && |s.full.grids| == |s.full.stream|
            && TrueFrom(s.full, s.sent[i], CursorAt(s, i))
            && (s.sent[i].exited ==>
                  && i == |s.sent| - 1 && HasEnded(s) && s.sent[i].frame.chunk.data == []
                  && CursorAt(s, |s.sent|) == |s.full.stream|)
  {
    RunsKeepInvariant(run, n);
  }

  lemma ClosedStep(s: Sys, s': Sys)
    requires SignalOk(s) && s.closed && Next(s, s')
    ensures s'.closed && s'.full.stream == s.full.stream
  {
    if SubStep(s, s') {
      SubscriberOnlyReads(s, s');
    }
  }

  lemma ClosedInRun(run: seq<Sys>, n: nat)
    requires Run(run) && 0 < n < |run| && run[n - 1].closed
    ensures run[n].closed && run[n].full.stream == run[n - 1].full.stream
  {
    RunsKeepInvariant(run, n - 1);
    assert StepAt(run, n);
    ClosedStep(run[n - 1], run[n]);
  }

  /** Once the output is closed the stream is final, so what the `exited` frame follows is all of it. */
  lemma {:induction false} ClosedStreamsAreFinal(run: seq<Sys>, m: nat, n: nat)
    requires Run(run) && m <= n < |run| && run[m].closed
    ensures run[n].closed && run[n].full.stream == run[m].full.stream
    decreases n
  {
    if m < n {
      ClosedStreamsAreFinal(run, m, n - 1);
      ClosedInRun(run, n);
    }
  }

  // ---------------------------------------------------------------- nothing the PTY gave is lost

  /** What the reader has from the PTY and not yet put into the history. */
  function InHand(pc: ReaderPc): seq<Byte> {
    match pc
    case Got(data) => data
    case HasScreen(data) => data
    case HasBoth(data) => data
    case FedScreen(data) => data
    case _ => []
  }

  /** What a step takes from the PTY. */
  function Taken(pc: ReaderPc, pc': ReaderPc): seq<Byte> {
    if pc.Reading? && pc'.Got? then pc'.data else []
  }

  /** All the PTY gave in the first `n` steps. */
  function Given(run: seq<Sys>, n: nat): seq<Byte>
    requires n < |run|
  {
    if n == 0 then [] else Given(run, n - 1) + Taken(run[n - 1].reader, run[n].reader)
  }

  lemma ReaderLosesNothing(s: Sys, s': Sys)
    requires ReaderStep(s, s')
    ensures s'.full.stream + InHand(s'.reader) == s.full.stream + InHand(s.reader) + Taken(s.reader, s'.reader)
  {
  }

  lemma OthersLoseNothing(s: Sys, s': Sys)
    requires ResizerStep(s, s') || ChildStep(s, s')
    ensures s'.full.stream == s.full.stream && s'.reader == s.reader
  {
  }

  lemma StepLosesNothing(s: Sys, s': Sys)
    requires Next(s, s')
    ensures s'.full.stream + InHand(s'.reader) == s.full.stream + InHand(s.reader) + Taken(s.reader, s'.reader)
  {
    if ReaderStep(s, s') {
      ReaderLosesNothing(s, s');
    } else if SubStep(s, s') {
      SubscriberOnlyReads(s, s');
    } else {
      OthersLoseNothing(s, s');
    }
  }

  /** Every byte the PTY gave is in the stream, once and in order, but for what the reader has in hand. */
  lemma {:induction false} OutputIsKept(run: seq<Sys>, n: nat)
    requires Run(run) && n < |run|
    ensures Given(run, n) == run[n].full.stream + InHand(run[n].reader)
  {
    if n > 0 {
      OutputIsKept(run, n - 1);
      assert StepAt(run, n);
      StepLosesNothing(run[n - 1], run[n]);
    }
  }

  /**
   Whenever the screen lock is free the screen and the history have been told exactly the same, so the
   PTY, the screen and the history agree on the size, and the history is the one that trace amounts to.
   */
  lemma ScreenAndHistoryAgree(run: seq<Sys>, n: nat)
    requires Run(run) && n < |run| && run[n].screenLock.None?
    ensures var s := run[n];
            && s.screen == s.history && s.full == Played(s.screen) && Refines(s.ring, s.full)
            && s.pty == SizeOf(s.screen) == (Current(s.ring).cols, Current(s.ring).rows)
  {
    RunsKeepInvariant(run, n);
  }

  // ---------------------------------------------------------------- when a frame goes out

  /** One more frame: with bytes, the closing one, or the heartbeat of a subscriber that nothing has woken. */
  predicate SentForAReason(s: Sys, s': Sys) {
    && s'.sent != [] && s'.sent[..|s'.sent| - 1] == s.sent
    && var last := s'.sent[|s'.sent| - 1];
       || last.frame.chunk.data != []
       || (last.exited && HasEnded(s))
       || (s.sub.Parked? && s.signal == s.sub.seen)
  }

  /** No other frame ever goes out; a resize is no occasion for one. */
  lemma FramesAreDue(run: seq<Sys>, n: nat)
    requires Run(run) && 0 < n < |run| && run[n].sent != run[n - 1].sent
    ensures SentForAReason(run[n - 1], run[n])
  {
    RunsKeepInvariant(run, n - 1);
    EndedIsKnown(run[n - 1]);
    assert StepAt(run, n);
    OnlySubscribersSend(run[n - 1], run[n]);
  }

  lemma EndedIsKnown(s: Sys)
    requires Inv(s)
    ensures s.sub.HasFrame? && s.sub.ended ==> HasEnded(s)
  {
  }

  lemma OnlySubscribersSend(s: Sys, s': Sys)
    requires Next(s, s') && s'.sent != s.sent && (s.sub.HasFrame? && s.sub.ended ==> HasEnded(s))
    ensures SentForAReason(s, s')
  {
    if SubStep(s, s') {
      SendsWhatIsDue(s, s');
    } else {
      OthersSendNothing(s, s');
    }
  }

  lemma OthersSendNothing(s: Sys, s': Sys)
    requires ReaderStep(s, s') || ResizerStep(s, s') || ChildStep(s, s')
    ensures s'.sent == s.sent
  {
  }

  lemma SendsWhatIsDue(s: Sys, s': Sys)
    requires SubStep(s, s') && s'.sent != s.sent && (s.sub.HasFrame? && s.sub.ended ==> HasEnded(s))
    ensures SentForAReason(s, s')
  {
  }

  /** At the head of a session that has not ended a frame is empty. */
  lemma NothingToRead(s: Sys)
    requires Inv(s) && s.cursor == s.ring.next
    ensures ReadFrame(s.ring, s.cursor, READ_LIMIT).Some?
    ensures ReadFrame(s.ring, s.cursor, READ_LIMIT).value.chunk.data == []
  {
    FrameTellsTheTruth(s.ring, s.full, s.cursor, READ_LIMIT);
  }

  lemma Extend(run: seq<Sys>, s: Sys)
    requires Run(run) && Next(run[|run| - 1], s)
    ensures Run(run + [s])
  {
    var run' := run + [s];
    forall i | 0 < i < |run'| ensures StepAt(run', i) {
      if i < |run| {
        assert StepAt(run, i);
      }
    }
  }

  /** A resize from its check up to both locks ... */
  lemma ResizeLocks(run: seq<Sys>, cols: U16, rows: U16) returns (run': seq<Sys>)
    requires Run(run) && Still(run[|run| - 1])
    ensures Run(run') && |run'| == |run| + 3
    ensures run'[|run'| - 1] == run[|run| - 1].(resizer := LockedBoth(cols, rows), screenLock := Some(TheResizer),
                                                historyLock := Some(TheResizer))
  {
    var s := run[|run| - 1];
    var a1 := s.(resizer := Checked(cols, rows));
    var a2 := s.(resizer := LockedScreen(cols, rows), screenLock := Some(TheResizer));
    var a3 := s.(resizer := LockedBoth(cols, rows), screenLock := Some(TheResizer), historyLock := Some(TheResizer));
    assert ResizeAsked(s, cols, rows, a1);
    ResizerGoes(run, a1);
    ResizerGoes(run + [a1], a2);
    ResizerGoes(run + [a1] + [a2], a3);
    run' := run + [a1] + [a2] + [a3];
  }

  /** ... and on to its notification, while nothing else moves. */
  lemma ResizeEnds(run: seq<Sys>, cols: U16, rows: U16) returns (run': seq<Sys>)
    requires Run(run) && run[|run| - 1].resizer == LockedBoth(cols, rows)
    ensures Run(run') && |run'| == |run| + 5
    ensures var s := run[|run| - 1];
            run'[|run'| - 1] ==
            s.(resizer := NoResize, pty := (cols, rows), screen := s.screen + [Sized(cols, rows)],
               ring := run'[|run'| - 1].ring, full := FullResize(s.full, cols, rows),
               history := s.history + [Sized(cols, rows)], changes := s.changes + 1, signal := s.signal + 1,
               screenLock := None, historyLock := None)
            && run'[|run'| - 1].ring.next == s.ring.next
  {
    var s := run[|run| - 1];
    StillIsWhole(run);
    var a4 := s.(resizer := Ioctl(cols, rows), pty := (cols, rows));
    var a5 := a4.(resizer := ScreenSized(cols, rows), screen := s.screen + [Sized(cols, rows)]);
    var a6 := a5.(resizer := Marked, ring := Resized(s.ring, cols, rows), full := FullResize(s.full, cols, rows),
                  history := s.history + [Sized(cols, rows)], changes := s.changes + 1);
    var a7 := a6.(resizer := ResizeMustNotify, screenLock := None, historyLock := None);
    var a8 := a7.(resizer := NoResize, signal := s.signal + 1);
    ResizerGoes(run, a4);
    ResizerGoes(run + [a4], a5);
    ResizerGoes(run + [a4] + [a5], a6);
    ResizerGoes(run + [a4] + [a5] + [a6], a7);
    ResizerGoes(run + [a4] + [a5] + [a6] + [a7], a8);
    run' := run + [a4] + [a5] + [a6] + [a7] + [a8];
  }

  lemma Resizes(run: seq<Sys>, cols: U16, rows: U16) returns (run': seq<Sys>)
    requires Run(run) && Still(run[|run| - 1])
    ensures Run(run') && |run'| == |run| + 8
    ensures var s, s' := run[|run| - 1], run'[|run'| - 1];
            && s'.sub == s.sub && s'.cursor == s.cursor && s'.sent == s.sent && s'.exited == s.exited
            && s'.closed == s.closed && s'.signal == s.signal + 1 && s'.history == s.history + [Sized(cols, rows)]
            && s'.ring.next == s.ring.next && s'.historyLock.None?
  {
    var half := ResizeLocks(run, cols, rows);
    run' := ResizeEnds(half, cols, rows);
  }

  /** No resize is going on and the locks it needs are free. */
  predicate Still(s: Sys) {
    s.resizer.NoResize? && s.screenLock.None? && s.historyLock.None?
  }

  lemma StillIsWhole(run: seq<Sys>)
    requires Run(run)
    ensures WellFormed(run[|run| - 1].ring)
  {
    RunsKeepInvariant(run, |run| - 1);
  }

  /**
   A subscriber woken at the head of a session that has not ended, which is what a resize alone amounts to,
   goes round its loop and parks again with nothing sent.
   */
  lemma WokenInVain(run: seq<Sys>) returns (run': seq<Sys>)
    requires Run(run)
    requires var s := run[|run| - 1];
             && s.sub.Parked? && s.signal != s.sub.seen && s.historyLock.None?
             && s.cursor == s.ring.next && !HasEnded(s)
    ensures Run(run') && |run'| == |run| + 6
    ensures var s, s' := run[|run| - 1], run'[|run'| - 1];
            s' == s.(sub := s'.sub) && s'.sub.Parked? && s'.sub.seen == s.signal
  {
    var s := run[|run| - 1];
    var frame := EmptyFrame(run);
    var looking := LooksAgain(run);
    run' := FindsNothing(looking, frame);
  }

  lemma EmptyFrame(run: seq<Sys>) returns (frame: Frame)
    requires Run(run) && run[|run| - 1].cursor == run[|run| - 1].ring.next
    ensures var s := run[|run| - 1];
            WellFormed(s.ring) && ReadFrame(s.ring, s.cursor, READ_LIMIT) == Some(frame) && frame.chunk.data == []
  {
    RunsKeepInvariant(run, |run| - 1);
    NothingToRead(run[|run| - 1]);
    frame := ReadFrame(run[|run| - 1].ring, run[|run| - 1].cursor, READ_LIMIT).value;
  }

  lemma LooksAgain(run: seq<Sys>) returns (run': seq<Sys>)
    requires Run(run)
    requires var s := run[|run| - 1]; s.sub.Parked? && s.signal != s.sub.seen && !HasEnded(s)
    ensures Run(run') && |run'| == |run| + 4
    ensures var s := run[|run| - 1]; run'[|run'| - 1] == s.(sub := SawEnded(s.signal, false))
  {
    var s := run[|run| - 1];
    var s1, s2 := s.(sub := Looping), s.(sub := Saw(s.signal));
    var s3, s4 := s.(sub := SawExited(s.signal, s.exited)), s.(sub := SawEnded(s.signal, false));
    SubscriberGoes(run, s1);
    SubscriberGoes(run + [s1], s2);
    SubscriberGoes(run + [s1] + [s2], s3);
    SubscriberGoes(run + [s1] + [s2] + [s3], s4);
    run' := run + [s1] + [s2] + [s3] + [s4];
  }

  lemma FindsNothing(run: seq<Sys>, frame: Frame) returns (run': seq<Sys>)
    requires Run(run)
    requires var s := run[|run| - 1];
             && s.sub == SawEnded(s.signal, false) && s.historyLock.None? && WellFormed(s.ring)
             && ReadFrame(s.ring, s.cursor, READ_LIMIT) == Some(frame) && frame.chunk.data == []
    ensures Run(run') && |run'| == |run| + 2
    ensures var s, s' := run[|run| - 1], run'[|run'| - 1];
            s' == s.(sub := s'.sub) && s'.sub.Parked? && s'.sub.seen == s.signal
  {
    var s := run[|run| - 1];
    var exact := s.ring.marks[0].at <= frame.chunk.start;
    var s5 := s.(sub := HasFrame(s.signal, false, frame, exact));
    var s6 := s.(sub := Parked(s.signal, frame, exact));
    SubscriberGoes(run, s5);
    SubscriberGoes(run + [s5], s6);
    run' := run + [s5] + [s6];
  }

  lemma SubscriberGoes(run: seq<Sys>, s: Sys)
    requires Run(run) && SubStep(run[|run| - 1], s)
    ensures Run(run + [s])
  {
    Extend(run, s);
  }

  lemma ResizerGoes(run: seq<Sys>, s: Sys)
    requires Run(run) && ResizerStep(run[|run| - 1], s)
    ensures Run(run + [s])
  {
    Extend(run, s);
  }

  /**
   From every point of every run at which the subscriber is parked at the head of a running session and
   nothing else is going on: a resize wakes it, and it parks again without having sent anything.
   */
  lemma ResizesWakeInVain(run: seq<Sys>, cols: U16, rows: U16) returns (run': seq<Sys>)
    requires Run(run) && Still(run[|run| - 1])
    requires var s := run[|run| - 1]; s.sub.Parked? && s.signal == s.sub.seen && s.cursor == s.ring.next && !HasEnded(s)
    ensures Run(run') && |run'| == |run| + 14
    ensures var s, s' := run[|run| - 1], run'[|run'| - 1];
            && s'.history == s.history + [Sized(cols, rows)] && s'.signal == s.signal + 1
            && s'.sub.Parked? && s'.sub.seen == s.sub.seen + 1 && s'.sent == s.sent
  {
    var resized := Resizes(run, cols, rows);
    run' := WokenInVain(resized);
  }

  lemma LooksFirst(run: seq<Sys>) returns (run': seq<Sys>)
    requires Run(run) && run[|run| - 1].sub.Looping? && !HasEnded(run[|run| - 1])
    ensures Run(run') && |run'| == |run| + 3
    ensures var s := run[|run| - 1]; run'[|run'| - 1] == s.(sub := SawEnded(s.signal, false))
  {
    var s := run[|run| - 1];
    var s1, s2 := s.(sub := Saw(s.signal)), s.(sub := SawExited(s.signal, s.exited));
    var s3 := s.(sub := SawEnded(s.signal, false));
    SubscriberGoes(run, s1);
    SubscriberGoes(run + [s1], s2);
    SubscriberGoes(run + [s1] + [s2], s3);
    run' := run + [s1] + [s2] + [s3];
  }

  /** It happens: a subscriber of a new session parks, is woken by its first resize, and is sent nothing. */
  lemma AResizeSendsNothing(capacity: nat) returns (run: seq<Sys>)
    requires capacity > 0
    ensures Run(run)
    ensures var s := run[|run| - 1];
            s.history == [Sized(100, 30)] && s.sub.Parked? && s.sub.seen == s.signal == 1 && s.sent == []
  {
    var start := [Boot(capacity, 0)];
    assert Begins(start[0]) && Run(start);
    var looked := LooksFirst(start);
    var frame := EmptyFrame(looked);
    var parked := FindsNothing(looked, frame);
    run := ResizesWakeInVain(parked, 100, 30);
  }
}
