/**
 How a subscription ends. One that is not refused and whose frames can be written gets, once the session has
 ended, the rest of the output and then the closing frame.
 */
module KeeperClosing {
  import opened Basics
  import opened HistorySpec
  import opened KeeperOutput

  /** Closed means the closing frame was sent, last; denied means nothing was; the rest is a failed write. */
  lemma SubscriptionsEndAsSaid(run: seq<Sys>, n: nat)
    requires Run(run) && n < |run|
    ensures var s := run[n];
            && (s.sub.Closed? <==> s.sent != [] && s.sent[|s.sent| - 1].exited)
            && (s.sub.Denied? ==> s.sent == [])
  {
    RunsKeepInvariant(run, n);
  }

  /** A read is refused exactly for a cursor ahead of the output. */
  lemma OnlyCursorsAheadAreRefused(s: Sys, s': Sys)
    requires Inv(s) && s.sub.SawEnded? && SubStep(s, s')
    ensures s'.sub.Refused? <==> s.cursor > s.ring.next
    ensures !s'.sub.Refused? ==> s'.sub.HasFrame? && s'.sub.frame.chunk.start == Max(s.cursor, Oldest(s.ring))
  {
    if s.cursor <= s.ring.next {
      FrameTellsTheTruth(s.ring, s.full, s.cursor, READ_LIMIT);
    }
  }

  /** Still reading: not refused, not closed, no write has failed. */
  predicate Subscribed(sub: SubPc) {
    !sub.Refused? && !sub.Denied? && !sub.Lost? && !sub.Closed?
  }

  // ---------------------------------------------------------------- a resize under way lets go

  /** What a resize that finishes leaves as it was. */
  predicate SameForSubscribers(s: Sys, s': Sys) {
    && s'.sub == s.sub && s'.cursor == s.cursor && s'.sent == s.sent && s'.from == s.from
    && s'.exited == s.exited && s'.closed == s.closed
    && s'.full.stream == s.full.stream && s'.ring.next == s.ring.next
  }

  lemma OnlyTheResizerIsInTheWay(s: Sys)
    requires LocksOk(s) && SignalOk(s) && s.closed && !s.sub.Refused? && s.historyLock.Some?
    ensures ResizerHasHistory(s.resizer)
  {
    match s.historyLock.value {
      case TheReader => assert false;
      case TheResizer =>
      case TheSubscriber => assert false;
    }
  }

  lemma ResizerMoves(s: Sys) returns (s': Sys)
    requires WellFormed(s.ring) && ResizerHasHistory(s.resizer)
    ensures ResizerStep(s, s') && SameForSubscribers(s, s')
    ensures s'.historyLock.None? || (ResizerHasHistory(s'.resizer) && StopsLeft(s'.resizer) < StopsLeft(s.resizer))
  {
    match s.resizer {
      case LockedBoth(_, _) => s' := s.(screenLock := None, historyLock := None, resizer := NoResize);
      case Ioctl(cols, rows) => s' := s.(screen := s.screen + [Sized(cols, rows)], resizer := ScreenSized(cols, rows));
      case ScreenSized(cols, rows) =>
        s' := s.(ring := Resized(s.ring, cols, rows), full := FullResize(s.full, cols, rows),
                 history := s.history + [Sized(cols, rows)], changes := s.changes + 1, resizer := Marked);
      case Marked => s' := s.(screenLock := None, historyLock := None, resizer := ResizeMustNotify);
    }
  }

  function StopsLeft(pc: ResizerPc): nat {
    match pc
    case Ioctl(_, _) => 3
    case ScreenSized(_, _) => 2
    case Marked => 1
    case _ => 0
  }

  /** Steps of the subscriber and of a resize under way, from `n` on. */
  ghost predicate OnlyTheirs(run: seq<Sys>, n: nat) {
    forall i :: n <= i < |run| && 0 < i ==> TheirStep(run, i)
  }

  ghost predicate TheirStep(run: seq<Sys>, i: nat)
    requires 0 < i < |run|
  {
    SubStep(run[i - 1], run[i]) || (ResizerHasHistory(run[i - 1].resizer) && ResizerStep(run[i - 1], run[i]))
  }

  lemma OneMoreOfTheirs(run: seq<Sys>, n: nat, s: Sys)
    requires Run(run) && OnlyTheirs(run, n)
    requires var last := run[|run| - 1];
             SubStep(last, s) || (ResizerHasHistory(last.resizer) && ResizerStep(last, s))
    ensures Run(run + [s]) && OnlyTheirs(run + [s], n)
  {
    Extend(run, s);
    forall i | n <= i < |run + [s]| && 0 < i ensures TheirStep(run + [s], i) {
      if i < |run| {
        assert TheirStep(run, i);
      }
    }
  }

  lemma ResizerMovesOn(run: seq<Sys>) returns (s': Sys)
    requires Run(run)
    requires var s := run[|run| - 1]; HasEnded(s) && !s.sub.Refused? && s.historyLock.Some?
    ensures var s := run[|run| - 1];
            && ResizerHasHistory(s.resizer) && ResizerStep(s, s') && SameForSubscribers(s, s')
            && (s'.historyLock.None? || StopsLeft(s'.resizer) < StopsLeft(s.resizer))
  {
    RunsKeepInvariant(run, |run| - 1);
    OnlyTheResizerIsInTheWay(run[|run| - 1]);
    s' := ResizerMoves(run[|run| - 1]);
  }

  lemma {:induction false} LetsGo(run: seq<Sys>, n: nat) returns (run': seq<Sys>)
    requires Run(run) && n <= |run| && OnlyTheirs(run, n)
    requires var s := run[|run| - 1]; HasEnded(s) && !s.sub.Refused?
    ensures Run(run') && OnlyTheirs(run', n) && run <= run'
    ensures var s, s' := run[|run| - 1], run'[|run'| - 1]; SameForSubscribers(s, s') && s'.historyLock.None?
    decreases if run[|run| - 1].historyLock.None? then 0 else 1 + StopsLeft(run[|run| - 1].resizer)
  {
    var s := run[|run| - 1];
    run' := run;
    if s.historyLock.Some? {
      var next := ResizerMovesOn(run);
      OneMoreOfTheirs(run, n, next);
      run' := LetsGo(run + [next], n);
    }
  }

  // ---------------------------------------------------------------- to the closing frame

  /** How far a subscriber of an ended session is from sending: what it noted before the end costs a round. */
  function Turns(sub: SubPc): nat {
    match sub
    case HasFrame(_, ended, _, _) => if ended then 1 else 7
    case SawEnded(_, ended) => if ended then 2 else 8
    case SawExited(_, exited) => if exited then 3 else 9
    case Saw(_) => 4
    case Looping => 5
    case Parked(_, _, _) => 6
    case _ => 0
  }

  /** Nearer the end of the output, or as near and nearer to sending. */
  predicate Nearer(s: Sys, s': Sys) {
    && s.cursor <= s'.cursor <= s'.ring.next == s.ring.next
    && (s.cursor < s'.cursor || Turns(s'.sub) < Turns(s.sub))
  }

  /** Nothing but the subscription moved. */
  predicate OnlySubscription(s: Sys, s': Sys) {
    s' == s.(sub := s'.sub, cursor := s'.cursor, sent := s'.sent) && s.sent <= s'.sent
  }

  /** The next step of a subscriber whose write works. */
  function Onward(s: Sys): Sys
    requires WellFormed(s.ring) && s.cursor <= s.ring.next
  {
    match s.sub
    case Looping => s.(sub := Saw(s.signal))
    case Saw(seen) => s.(sub := SawExited(seen, s.exited))
    case SawExited(seen, exited) => s.(sub := SawEnded(seen, exited && s.closed))
    case SawEnded(seen, ended) =>
      var frame := ReadFrame(s.ring, s.cursor, READ_LIMIT).value;
      s.(sub := HasFrame(seen, ended, frame, s.ring.marks[0].at <= frame.chunk.start))
    case HasFrame(seen, ended, frame, exact) =>
      if frame.chunk.data != [] then
        s.(sent := s.sent + [Sent(frame, false, exact)], cursor := frame.chunk.next, sub := Looping)
      else if ended then s.(sent := s.sent + [Sent(frame, true, exact)], sub := Closed)
      else s.(sub := if s.signal == seen then Parked(seen, frame, exact) else Looping)
    case Parked(seen, frame, exact) =>
      if s.signal != seen then s.(sub := Looping)
      else s.(sent := s.sent + [Sent(frame, false, exact)], sub := Looping)
    case _ => s
  }

  lemma OnwardIsAStep(s: Sys)
    requires WellFormed(s.ring) && s.cursor <= s.ring.next && s.historyLock.None? && Subscribed(s.sub)
    ensures SubStep(s, Onward(s)) && OnlySubscription(s, Onward(s))
    ensures Subscribed(Onward(s).sub) || Onward(s).sub.Closed?
  {
  }

  /** A frame with bytes leads past the cursor and not past the output. */
  predicate FrameLeadsOn(s: Sys) {
    s.sub.HasFrame? && s.sub.frame.chunk.data != [] ==> s.cursor < s.sub.frame.chunk.next <= s.ring.next
  }

  lemma FramesLeadOn(s: Sys)
    requires WellFormed(s.ring) && |s.full.grids| == |s.full.stream| == s.ring.next && SubOk(s)
    ensures FrameLeadsOn(s)
  {
  }

  lemma OnwardIsNearer(s: Sys)
    requires WellFormed(s.ring) && s.cursor <= s.ring.next && HasEnded(s) && Subscribed(s.sub) && FrameLeadsOn(s)
    ensures Nearer(s, Onward(s))
  {
  }

  lemma OnwardFrom(run: seq<Sys>)
    requires Run(run)
    requires var s := run[|run| - 1];
             HasEnded(s) && s.historyLock.None? && s.cursor <= s.ring.next && Subscribed(s.sub)
    ensures WellFormed(run[|run| - 1].ring)
    ensures var s := run[|run| - 1];
            && SubStep(s, Onward(s)) && OnlySubscription(s, Onward(s)) && Nearer(s, Onward(s))
            && (Subscribed(Onward(s).sub) || Onward(s).sub.Closed?)
  {
    RunsKeepInvariant(run, |run| - 1);
    OnwardIsAStep(run[|run| - 1]);
    FramesLeadOn(run[|run| - 1]);
    OnwardIsNearer(run[|run| - 1]);
  }

  lemma {:induction false} GoesOnward(run: seq<Sys>, n: nat) returns (run': seq<Sys>)
    requires Run(run) && n <= |run| && OnlyTheirs(run, n)
    requires var s := run[|run| - 1];
             && HasEnded(s) && s.historyLock.None? && s.cursor <= s.ring.next && (Subscribed(s.sub) || s.sub.Closed?)
    ensures Run(run') && OnlyTheirs(run', n) && run <= run'
    ensures var s, s' := run[|run| - 1], run'[|run'| - 1]; OnlySubscription(s, s') && s'.sub.Closed?
    decreases run[|run| - 1].ring.next - run[|run| - 1].cursor, Turns(run[|run| - 1].sub)
  {
    run' := run;
    if !run[|run| - 1].sub.Closed? {
      OnwardFrom(run);
      var next := Onward(run[|run| - 1]);
      OneMoreOfTheirs(run, n, next);
      run' := GoesOnward(run + [next], n);
    }
  }

  /**
   From every point of every run at which the session has ended and a subscriber within the output is still
   reading: there is a way on, of its own steps and those of a resize under way, on which every write works;
   and it delivers the rest of the output and ends with the empty closing frame.
   */
  lemma EndedStreamsAreClosed(run: seq<Sys>) returns (run': seq<Sys>)
    requires Run(run)
    requires var s := run[|run| - 1]; HasEnded(s) && Subscribed(s.sub) && s.cursor <= s.ring.next
    ensures Run(run') && run <= run' && OnlyTheirs(run', |run|)
    ensures var s, s' := run[|run| - 1], run'[|run'| - 1];
            && s'.sub.Closed? && s.sent < s'.sent && s'.full.stream == s.full.stream
            && s'.cursor == |s'.full.stream| == CursorAt(s', |s'.sent|)
            && var last := s'.sent[|s'.sent| - 1]; last.exited && last.frame.chunk.data == []
  {
    var free := LetsGo(run, |run|);
    run' := GoesOnward(free, |run|);
    ClosedAtTheEnd(run, run');
  }

  lemma NothingClosedYet(s: Sys)
    requires |s.full.grids| == |s.full.stream| && SentOk(s) && !s.sub.Closed?
    ensures forall i :: 0 <= i < |s.sent| ==> !s.sent[i].exited
  {
  }

  lemma ClosedAtTheEnd(run: seq<Sys>, run': seq<Sys>)
    requires Run(run) && Run(run')
    requires var s, s' := run[|run| - 1], run'[|run'| - 1]; !s.sub.Closed? && s'.sub.Closed? && s.sent <= s'.sent
    ensures var s, s' := run[|run| - 1], run'[|run'| - 1];
            && s.sent < s'.sent && s'.cursor == |s'.full.stream| == CursorAt(s', |s'.sent|)
            && var last := s'.sent[|s'.sent| - 1]; last.exited && last.frame.chunk.data == []
  {
    NotYetClosed(run);
    DeliveredWhenClosed(run');
  }

  lemma WhatRunsSend(run: seq<Sys>)
    requires Run(run)
    ensures var s := run[|run| - 1];
            |s.full.grids| == |s.full.stream| == s.ring.next && SentOk(s) && EndOk(s)
  {
    RunsKeepInvariant(run, |run| - 1);
  }

  lemma NotYetClosed(run: seq<Sys>)
    requires Run(run) && !run[|run| - 1].sub.Closed?
    ensures var s := run[|run| - 1]; forall i :: 0 <= i < |s.sent| ==> !s.sent[i].exited
  {
    WhatRunsSend(run);
    NothingClosedYet(run[|run| - 1]);
  }

  lemma DeliveredWhenClosed(run: seq<Sys>)
    requires Run(run) && run[|run| - 1].sub.Closed?
    ensures var s := run[|run| - 1];
            && s.sent != [] && s.cursor == |s.full.stream| == CursorAt(s, |s.sent|)
            && var last := s.sent[|s.sent| - 1]; last.exited && last.frame.chunk.data == []
  {
    WhatRunsSend(run);
    ClosedIsDelivered(run[|run| - 1]);
  }

  lemma ClosedIsDelivered(s: Sys)
    requires |s.full.grids| == |s.full.stream| == s.ring.next && SentOk(s) && EndOk(s) && s.sub.Closed?
    ensures s.sent != [] && s.cursor == |s.full.stream| == CursorAt(s, |s.sent|)
    ensures var last := s.sent[|s.sent| - 1]; last.exited && last.frame.chunk.data == []
  {
  }
}
