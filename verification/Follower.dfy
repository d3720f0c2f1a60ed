/**
 A view that only watches: it polls frames from wherever its session's keeper is, sets its grid, parses,
 and moves its cursor. Keepers may restart, replies may be lost, and the keeper goes on while a reply is
 on its way.
 */
module Follower {
  import opened Basics
  import opened HistorySpec

  /** The grids the protocol lets a keeper be asked for. */
  predicate ValidDimensions(cols: U16, rows: U16) {
    0 < cols <= 240 && 0 < rows <= 100
  }

  datatype Reply = Reply(frame: Frame, incarnation: nat, exact: bool)

  /** A byte with the terminal size it was parsed on. */
  datatype Cell = Cell(cols: U16, rows: U16, byte: Byte)

  /** `controlling` views keep their own grid; `parsed` is what went into the terminal since its last reset. */
  datatype View = View(offset: nat, incarnation: Option<nat>, blocked: bool, controlling: bool,
                       cols: U16, rows: U16, parsed: seq<Cell>)

  function Cells(cols: U16, rows: U16, data: seq<Byte>): (cells: seq<Cell>)
    ensures |cells| == |data|
    ensures forall k :: 0 <= k < |data| ==> cells[k] == Cell(cols, rows, data[k])
  {
    seq(|data|, k requires 0 <= k < |data| => Cell(cols, rows, data[k]))
  }

  /** What `poll` does with a frame. */
  function Handled(v: View, r: Reply): View {
    if v.incarnation.Some? && v.incarnation.value != r.incarnation then
      v.(controlling := false, offset := 0, parsed := [], incarnation := Some(r.incarnation))
    else if r.frame.chunk.gap then
      v.(incarnation := Some(r.incarnation), blocked := true, controlling := false)
    else
      var g := r.frame.geometry;
      var sized := if !v.controlling && g.cols > 0 && g.rows > 0 then v.(cols := g.cols, rows := g.rows) else v;
      sized.(incarnation := Some(r.incarnation), offset := r.frame.chunk.next,
             parsed := v.parsed + Cells(sized.cols, sized.rows, r.frame.chunk.data))
  }

  /**
   `past` holds the streams of keepers that are gone; the running one is numbered `|past|`. `exact`
   says that since the view's last reset no reply needed a mark the bound had dropped.
   */
  datatype Sys = Sys(past: seq<Full>, ring: Ring, full: Full, view: View, asked: bool, reply: Option<Reply>,
                     exact: bool)

  function Boot(capacity: nat, cols: U16, rows: U16): Sys
    requires capacity > 0
  {
    Sys([], Start(capacity, 80, 24), Full([], [], Geometry(80, 24, 0)),
        View(0, None, false, false, cols, rows, []), false, None, true)
  }

  datatype Action =
    | Output(data: seq<Byte>)
    | Resize(cols: U16, rows: U16)
    | Restart(capacity: nat)
    | Ask
    | Serve
    | Lose
    | Receive

  /** A reply that cannot put a byte on a wrong grid: none was needed, none came, or none is used. */
  predicate Harmless(r: Reply) {
    r.exact || r.frame.chunk.data == [] || r.frame.chunk.gap
  }

  predicate Takes(s: Sys, act: Action, s': Sys) {
    && WellFormed(s.ring)
    && match act
       case Output(data) =>
         && s.ring.next + |data| <= U64_MAX
         && s' == s.(ring := Appended(s.ring, data), full := FullAppend(s.full, data))
       case Resize(cols, rows) =>
         && ValidDimensions(cols, rows)
         && s' == s.(ring := Resized(s.ring, cols, rows), full := FullResize(s.full, cols, rows))
       case Restart(capacity) =>
         && capacity > 0
         && s' == s.(past := s.past + [s.full], ring := Start(capacity, 80, 24),
                     full := Full([], [], Geometry(80, 24, 0)))
       case Ask => !s.view.blocked && !s.asked && s' == s.(asked := true, reply := None)
       case Serve =>
         && s.asked && s.reply.None? && s.view.offset <= s.ring.next
         && var frame := ReadFrame(s.ring, s.view.offset, READ_LIMIT).value;
            s' == s.(reply := Some(Reply(frame, |s.past|, s.ring.marks[0].at <= frame.chunk.start)))
       case Lose => s.asked && s' == s.(asked := false, reply := None)
       case Receive =>
         && s.asked && s.reply.Some?
         && var view := Handled(s.view, s.reply.value);
            var reset := view.incarnation != s.view.incarnation;
            s' == s.(asked := false, reply := None, view := view,
                     exact := (reset && s.view.incarnation.Some?) || (s.exact && Harmless(s.reply.value)))
  }

  predicate StepAt(run: seq<Sys>, acts: seq<Action>, i: nat)
    requires |run| == |acts| + 1 && i < |acts|
  {
    Takes(run[i], acts[i], run[i + 1])
  }

  ghost predicate Run(run: seq<Sys>, acts: seq<Action>) {
    && |run| == |acts| + 1
    && (exists capacity: nat, cols, rows :: capacity > 0 && run[0] == Boot(capacity, cols, rows))
    && forall i :: 0 <= i < |acts| ==> StepAt(run, acts, i)
  }

  /** The stream of incarnation `n`. */
  function StreamOf(s: Sys, n: nat): Full
    requires n <= |s.past|
  {
    if n == |s.past| then s.full else s.past[n]
  }

  /** The first `n` bytes a keeper produced, each on the grid it was produced under. */
  function Produced(f: Full, n: nat): (cells: seq<Cell>)
    requires n <= |f.stream| == |f.grids|
    ensures |cells| == n
    ensures forall k :: 0 <= k < n ==> cells[k] == Cell(f.grids[k].cols, f.grids[k].rows, f.stream[k])
  {
    seq(n, k requires 0 <= k < n => Cell(f.grids[k].cols, f.grids[k].rows, f.stream[k]))
  }

  predicate PositiveGrids(f: Full) {
    && f.grid.cols > 0 && f.grid.rows > 0
    && forall k :: 0 <= k < |f.grids| ==> f.grids[k].cols > 0 && f.grids[k].rows > 0
  }

  ghost predicate StreamsOk(s: Sys) {
    && Refines(s.ring, s.full) && PositiveGrids(s.full)
    && forall n :: 0 <= n < |s.past| ==> |s.past[n].stream| == |s.past[n].grids| && PositiveGrids(s.past[n])
  }

  ghost predicate ReplyOk(s: Sys)
    requires StreamsOk(s)
  {
    s.reply.Some? ==>
      var r := s.reply.value;
      var c := r.frame.chunk;
      && r.incarnation <= |s.past| && s.asked
      && var f := StreamOf(s, r.incarnation);
         && s.view.offset <= c.start <= c.next <= |f.stream|
         && (c.gap <==> s.view.offset < c.start)
         && c.data == f.stream[c.start..c.next]
         && (r.exact ==> AllUnder(f, c.start, c.next, r.frame.geometry))
  }

  ghost predicate ReplicaOk(s: Sys)
    requires StreamsOk(s)
  {
    && !s.view.controlling
    && (s.view.incarnation.None? ==> s.view.offset == 0 && s.view.parsed == [])
    && (s.view.incarnation.Some? ==>
          && s.view.incarnation.value <= |s.past|
          && var f := StreamOf(s, s.view.incarnation.value);
             && s.view.offset <= |f.stream|
             && (s.exact ==> s.view.parsed == Produced(f, s.view.offset)))
  }

  ghost predicate Inv(s: Sys) {
    StreamsOk(s) && ReplyOk(s) && ReplicaOk(s)
  }

  lemma ReceiveKeeps(s: Sys, s': Sys)
    requires Inv(s) && Takes(s, Receive, s')
    ensures Inv(s')
  {
    var r := s.reply.value;
    var c := r.frame.chunk;
    var f := StreamOf(s, r.incarnation);
    if (s.view.incarnation.None? || s.view.incarnation.value == r.incarnation) && !c.gap && s'.exact {
      assert s.view.parsed == Produced(f, s.view.offset);
      ParsedFrame(s.view, f, r);
    }
  }

  lemma ParsedFrame(v: View, f: Full, r: Reply)
    requires !v.controlling && (v.incarnation.None? || v.incarnation.value == r.incarnation)
    requires |f.stream| == |f.grids| && PositiveGrids(f)
    requires var c := r.frame.chunk;
             && !c.gap && v.offset == c.start <= c.next <= |f.stream| && c.data == f.stream[c.start..c.next]
             && (c.data == [] || AllUnder(f, c.start, c.next, r.frame.geometry))
    requires v.parsed == Produced(f, v.offset)
    ensures Handled(v, r).parsed == Produced(f, r.frame.chunk.next)
  {
    var c := r.frame.chunk;
    if c.data != [] {
      assert f.grids[c.start] == r.frame.geometry;
      ParsedOn(f, v.offset, c.next, r.frame.geometry);
    }
  }

  /** Cells parsed under the right grid continue what was produced before them. */
  lemma ParsedOn(f: Full, from: nat, to: nat, g: Geometry)
    requires |f.stream| == |f.grids| && from <= to <= |f.stream| && AllUnder(f, from, to, g)
    ensures Produced(f, to) == Produced(f, from) + Cells(g.cols, g.rows, f.stream[from..to])
  {
  }

  lemma ServeKeeps(s: Sys, s': Sys)
    requires Inv(s) && Takes(s, Serve, s')
    ensures Inv(s')
  {
    ServedFrame(s.ring, s.full, s.view.offset);
  }

  lemma ServedFrame(r: Ring, f: Full, offset: nat)
    requires Refines(r, f) && offset <= r.next
    ensures var frame := ReadFrame(r, offset, READ_LIMIT).value;
            var c := frame.chunk;
            && offset <= c.start <= c.next <= |f.stream|
            && (c.gap <==> offset < c.start)
            && c.data == f.stream[c.start..c.next]
            && (r.marks[0].at <= c.start ==> AllUnder(f, c.start, c.next, frame.geometry))
  {
    FrameTellsTheTruth(r, f, offset, READ_LIMIT);
  }

  /** The keeper's own steps only extend the stream a view or a reply may refer to. */
  lemma KeeperKeeps(s: Sys, act: Action, s': Sys)
    requires Inv(s) && Takes(s, act, s') && (act.Output? || act.Resize? || act.Restart?)
    ensures Inv(s')
  {
    match act {
      case Output(data) => AppendRefines(s.ring, s.full, data);
      case Resize(cols, rows) => ResizeRefines(s.ring, s.full, cols, rows);
      case Restart(capacity) => StartRefines(capacity, 80, 24);
    }
    GrowthKeeps(s, s');
  }

  lemma GrowthKeeps(s: Sys, s': Sys)
    requires Inv(s) && StreamsOk(s')
    requires s'.view == s.view && s'.reply == s.reply && s'.asked == s.asked && s'.exact == s.exact
    requires |s.past| <= |s'.past|
    requires forall n {:trigger StreamOf(s, n)} {:trigger StreamOf(s', n)} :: 0 <= n <= |s.past| ==>
               StreamOf(s, n).stream <= StreamOf(s', n).stream && StreamOf(s, n).grids <= StreamOf(s', n).grids
    ensures ReplyOk(s') && ReplicaOk(s')
  {
    if s.reply.Some? {
      var r := s.reply.value;
      SameSlice(StreamOf(s, r.incarnation).stream, StreamOf(s', r.incarnation).stream,
                r.frame.chunk.start, r.frame.chunk.next);
    }
    if s.view.incarnation.Some? {
      var n := s.view.incarnation.value;
      SameCells(StreamOf(s, n), StreamOf(s', n), s.view.offset);
    }
  }

  lemma SameSlice(a: seq<Byte>, b: seq<Byte>, lo: nat, hi: nat)
    requires a <= b && lo <= hi <= |a|
    ensures b[lo..hi] == a[lo..hi]
  {
  }

  lemma SameCells(f: Full, f': Full, n: nat)
    requires f.stream <= f'.stream && f.grids <= f'.grids && n <= |f.stream| == |f.grids| && |f'.stream| == |f'.grids|
    ensures Produced(f', n) == Produced(f, n)
  {
  }

  lemma StepKeepsInvariant(s: Sys, act: Action, s': Sys)
    requires Inv(s) && Takes(s, act, s')
    ensures Inv(s')
  {
    match act {
      case Receive => ReceiveKeeps(s, s');
      case Serve => ServeKeeps(s, s');
      case Ask =>
      case Lose =>
      case _ => KeeperKeeps(s, act, s');
    }
  }

  lemma {:induction false} RunsKeepInvariant(run: seq<Sys>, acts: seq<Action>, n: nat)
    requires Run(run, acts) && n < |run|
    ensures Inv(run[n])
  {
    if n == 0 {
      var capacity: nat, cols, rows :| capacity > 0 && run[0] == Boot(capacity, cols, rows);
      StartRefines(capacity, 80, 24);
    } else {
      RunsKeepInvariant(run, acts, n - 1);
      assert StepAt(run, acts, n - 1);
      StepKeepsInvariant(run[n - 1], acts[n - 1], run[n]);
    }
  }

  /**
   What a watching view has parsed since its last reset is exactly the first `offset` bytes its keeper
   produced, each on the grid it was produced under, provided no reply needed a dropped mark.
   */
  lemma WatchersReplicateTheStream(run: seq<Sys>, acts: seq<Action>, n: nat)
    requires Run(run, acts) && n < |run| && run[n].view.incarnation.Some? && run[n].exact
    ensures var s := run[n];
            && s.view.incarnation.value <= |s.past|
            && var f := StreamOf(s, s.view.incarnation.value);
               && s.view.offset <= |f.stream| == |f.grids|
               && s.view.parsed == Produced(f, s.view.offset)
  {
    RunsKeepInvariant(run, acts, n);
  }

  /** A reply is inexact only once the keeper holds as many marks as it may. */
  lemma OnlyTheBoundMakesRepliesInexact(s: Sys, s': Sys)
    requires Inv(s) && Takes(s, Serve, s') && !s'.reply.value.exact
    ensures |s.ring.marks| == MAX_MARKS
  {
    FrameTellsTheTruth(s.ring, s.full, s.view.offset, READ_LIMIT);
  }

  // ---------------------------------------------------------------- gaps

  /** Step `i` brought the view a frame with a gap in the output of the keeper it was following. */
  predicate MeetsGap(run: seq<Sys>, acts: seq<Action>, i: nat)
    requires |run| == |acts| + 1 && i < |acts|
  {
    && acts[i].Receive? && run[i].reply.Some? && run[i].reply.value.frame.chunk.gap
    && (run[i].view.incarnation.None? || run[i].view.incarnation.value == run[i].reply.value.incarnation)
  }

  ghost predicate MetGap(run: seq<Sys>, acts: seq<Action>, n: nat)
    requires |run| == |acts| + 1 && n <= |acts|
  {
    exists i: nat :: i < n && MeetsGap(run, acts, i)
  }

  lemma MetGapMoves(run: seq<Sys>, acts: seq<Action>, n: nat)
    requires |run| == |acts| + 1 && 0 < n <= |acts|
    ensures MetGap(run, acts, n) <==> MetGap(run, acts, n - 1) || MeetsGap(run, acts, n - 1)
  {
    if MetGap(run, acts, n) {
      var i: nat :| i < n && MeetsGap(run, acts, i);
      assert i < n - 1 || MeetsGap(run, acts, n - 1);
    }
    if MetGap(run, acts, n - 1) {
      var i: nat :| i < n - 1 && MeetsGap(run, acts, i);
      assert i < n && MeetsGap(run, acts, i);
    }
  }

  lemma BlockStep(s: Sys, act: Action, s': Sys)
    requires Takes(s, act, s')
    ensures s'.view.blocked <==>
            s.view.blocked || (act.Receive? && s.reply.Some? && s.reply.value.frame.chunk.gap
                               && (s.view.incarnation.None? || s.view.incarnation.value == s.reply.value.incarnation))
  {
  }

  /** What is shown is shown on the frame's grid or, by a view in control, on the view's own. */
  lemma ShownOnTheRightGrid(v: View, r: Reply)
    requires v.incarnation.None? || v.incarnation == Some(r.incarnation)
    requires !r.frame.chunk.gap && r.frame.geometry.cols > 0 && r.frame.geometry.rows > 0
    ensures var v', c, g := Handled(v, r), r.frame.chunk, r.frame.geometry;
            && v'.parsed == v.parsed + (if v.controlling then Cells(v.cols, v.rows, c.data)
                                        else Cells(g.cols, g.rows, c.data))
            && v'.controlling == v.controlling && (v.controlling ==> v'.cols == v.cols && v'.rows == v.rows)
  {
  }

  /** A view is blocked exactly after a gap in what it follows: it makes up no screen. */
  lemma {:induction false} BlockedExactlyAfterAGap(run: seq<Sys>, acts: seq<Action>, n: nat)
    requires Run(run, acts) && n < |run|
    ensures run[n].view.blocked <==> MetGap(run, acts, n)
  {
    if n > 0 {
      BlockedExactlyAfterAGap(run, acts, n - 1);
      assert StepAt(run, acts, n - 1);
      BlockStep(run[n - 1], acts[n - 1], run[n]);
      MetGapMoves(run, acts, n);
    }
  }

  /** A blocked view has nothing out, so nothing comes. */
  lemma {:induction false} BlockedAsksNothing(run: seq<Sys>, acts: seq<Action>, n: nat)
    requires Run(run, acts) && n < |run|
    ensures run[n].view.blocked ==> !run[n].asked
  {
    if n > 0 {
      BlockedAsksNothing(run, acts, n - 1);
      assert StepAt(run, acts, n - 1);
    }
  }

  /** And it stays as it is for good: what it showed before the gap is what it shows. */
  lemma {:induction false} BlockedViewsStay(run: seq<Sys>, acts: seq<Action>, m: nat, n: nat)
    requires Run(run, acts) && m <= n < |run| && run[m].view.blocked
    ensures run[n].view == run[m].view
    decreases n
  {
    if m < n {
      BlockedViewsStay(run, acts, m, n - 1);
      BlockedAsksNothing(run, acts, n - 1);
      assert StepAt(run, acts, n - 1);
    }
  }

  /** The frame with the gap itself adds nothing to what is shown. */
  lemma GapsAreNotShown(run: seq<Sys>, acts: seq<Action>, i: nat)
    requires Run(run, acts) && i < |acts| && MeetsGap(run, acts, i)
    ensures run[i + 1].view.parsed == run[i].view.parsed && run[i + 1].view.offset == run[i].view.offset
    ensures run[i + 1].view.blocked && !run[i + 1].view.controlling
  {
    assert StepAt(run, acts, i);
  }

  // ---------------------------------------------------------------- catching up

  /** Following the running keeper, with nothing out and nothing missed. */
  predicate Following(s: Sys) {
    && |s.ring.bytes| <= s.ring.next && !s.view.blocked && !s.asked
    && (s.view.incarnation.None? || s.view.incarnation == Some(|s.past|))
    && Oldest(s.ring) <= s.view.offset <= s.ring.next
  }

  /** One poll: asked, served, received. */
  function Polled(s: Sys): Sys
    requires WellFormed(s.ring) && s.view.offset <= s.ring.next
  {
    var frame := ReadFrame(s.ring, s.view.offset, READ_LIMIT).value;
    var r := Reply(frame, |s.past|, s.ring.marks[0].at <= frame.chunk.start);
    var view := Handled(s.view, r);
    s.(asked := false, reply := None, view := view,
       exact := (view.incarnation != s.view.incarnation && s.view.incarnation.Some?) || (s.exact && Harmless(r)))
  }

  lemma PollIsThreeSteps(s: Sys) returns (asked: Sys, served: Sys)
    requires WellFormed(s.ring) && s.view.offset <= s.ring.next && !s.view.blocked && !s.asked
    ensures Takes(s, Ask, asked) && Takes(asked, Serve, served) && Takes(served, Receive, Polled(s))
  {
    asked := s.(asked := true, reply := None);
    var frame := ReadFrame(s.ring, s.view.offset, READ_LIMIT).value;
    served := asked.(reply := Some(Reply(frame, |s.past|, s.ring.marks[0].at <= frame.chunk.start)));
  }

  lemma PollMovesOn(s: Sys)
    requires Refines(s.ring, s.full) && Following(s) && s.view.offset < s.ring.next
    ensures var s' := Polled(s);
            && s' == s.(asked := false, reply := None, view := s'.view, exact := s'.exact)
            && s.view.offset < s'.view.offset <= s.ring.next && !s'.view.blocked
            && s'.view.incarnation == Some(|s.past|)
  {
    FrameTellsTheTruth(s.ring, s.full, s.view.offset, READ_LIMIT);
  }

  /** A poll in a run: three more steps, further on. */
  lemma PollInRun(run: seq<Sys>, acts: seq<Action>) returns (run': seq<Sys>, acts': seq<Action>)
    requires Run(run, acts) && Following(run[|run| - 1]) && run[|run| - 1].view.offset < run[|run| - 1].ring.next
    ensures Run(run', acts') && run <= run' && acts <= acts' && Polls(acts, acts')
    ensures var s, s' := run[|run| - 1], run'[|run'| - 1];
            && s'.full == s.full && s'.ring == s.ring && s'.past == s.past && Following(s')
            && s.view.offset < s'.view.offset
  {
    var s := run[|run| - 1];
    RunsKeepInvariant(run, acts, |run| - 1);
    PollMovesOn(s);
    var asked, served := PollIsThreeSteps(s);
    run', acts' := ThreeMoreSteps(run, acts, asked, served, Polled(s));
  }

  lemma ThreeMoreSteps(run: seq<Sys>, acts: seq<Action>, asked: Sys, served: Sys, polled: Sys)
    returns (run': seq<Sys>, acts': seq<Action>)
    requires Run(run, acts)
    requires Takes(run[|run| - 1], Ask, asked) && Takes(asked, Serve, served) && Takes(served, Receive, polled)
    ensures Run(run', acts') && run <= run' && acts <= acts' && Polls(acts, acts') && run'[|run'| - 1] == polled
  {
    OneMoreStep(run, acts, Ask, asked);
    OneMoreStep(run + [asked], acts + [Ask], Serve, served);
    OneMoreStep(run + [asked] + [served], acts + [Ask] + [Serve], Receive, polled);
    run' := run + [asked] + [served] + [polled];
    acts' := acts + [Ask] + [Serve] + [Receive];
  }

  /** What comes after `acts` is polling and nothing else. */
  predicate Polls(acts: seq<Action>, acts': seq<Action>) {
    forall i :: |acts| <= i < |acts'| ==> acts'[i].Ask? || acts'[i].Serve? || acts'[i].Receive?
  }

  lemma OneMoreStep(run: seq<Sys>, acts: seq<Action>, act: Action, s: Sys)
    requires Run(run, acts) && Takes(run[|run| - 1], act, s)
    ensures Run(run + [s], acts + [act])
  {
    var run', acts' := run + [s], acts + [act];
    assert run'[0] == run[0];
    forall i | 0 <= i < |acts'| ensures StepAt(run', acts', i) {
      if i < |acts| {
        assert StepAt(run, acts, i);
      }
    }
  }

  /**
   From every reached state in which a view follows the running keeper and has missed nothing: polling alone
   brings it to the end of the output, with every byte of it shown.
   */
  lemma PollingCatchesUp(run: seq<Sys>, acts: seq<Action>) returns (run': seq<Sys>, acts': seq<Action>)
    requires Run(run, acts) && Following(run[|run| - 1])
    ensures Run(run', acts') && run <= run' && acts <= acts' && Polls(acts, acts')
    ensures var s, s' := run[|run| - 1], run'[|run'| - 1];
            && s'.full == s.full && |s.full.stream| == |s.full.grids| == s'.view.offset && !s'.view.blocked
            && (s'.exact && s'.view.incarnation.Some? ==> s'.view.parsed == Produced(s.full, |s.full.stream|))
  {
    run', acts' := PollsToTheEnd(run, acts);
    AllIsShown(run', acts');
  }

  lemma {:induction false} PollsToTheEnd(run: seq<Sys>, acts: seq<Action>)
    returns (run': seq<Sys>, acts': seq<Action>)
    requires Run(run, acts) && Following(run[|run| - 1])
    ensures Run(run', acts') && run <= run' && acts <= acts' && Polls(acts, acts')
    ensures var s, s' := run[|run| - 1], run'[|run'| - 1];
            && s'.full == s.full && s'.ring == s.ring && s'.past == s.past && Following(s')
            && s'.view.offset == s.ring.next
    decreases run[|run| - 1].ring.next - run[|run| - 1].view.offset
  {
    run', acts' := run, acts;
    if run[|run| - 1].view.offset < run[|run| - 1].ring.next {
      var once, polled := PollInRun(run, acts);
      run', acts' := PollsToTheEnd(once, polled);
    }
  }

  lemma AllIsShown(run: seq<Sys>, acts: seq<Action>)
    requires Run(run, acts) && Following(run[|run| - 1]) && run[|run| - 1].view.offset == run[|run| - 1].ring.next
    ensures var s := run[|run| - 1];
            && |s.full.stream| == |s.full.grids| == s.view.offset
            && (s.exact && s.view.incarnation.Some? ==> s.view.parsed == Produced(s.full, |s.full.stream|))
  {
    RunsKeepInvariant(run, acts, |run| - 1);
  }
}
