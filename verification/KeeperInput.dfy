/**
 The input side of a keeper: any number of input handlers and control operations, interleaved step by
 step over the input, controls and presence locks.

 The input lock is held by one handler from before it decides until its answer; the controls lock only
 while deciding, recording, or changing hands. A handler's PTY write goes out in pieces and may fail
 after any of them.
 */
module KeeperInput {
  import opened Basics
  import opened ControllerSpec

  datatype Request = Request(generation: nat, sequence: nat, data: seq<Byte>)

  datatype Pc =
    | Arrived(request: Request)
    | HasInput(request: Request)             // holds the input lock
    | Prepared(request: Request)             // told to write
    | Writing(request: Request)
    | Flushed(request: Request)              // all written and flushed, not yet recorded
    | Noting(request: Request)               // recorded, presence next
    | Replied(request: Request, answer: Answer)

  datatype Status = Going | Whole | Cut

  /** One write to the PTY: `done` bytes of `request.data` have gone out. */
  datatype Entry = Entry(request: Request, done: nat, status: Status)

  datatype Presence = Presence(held: bool, controller: Option<string>)

  /** What a control operation still owes presence while it holds the controls lock. */
  datatype Owed = Took(view: Option<string>) | Cleared

  /** How a lease came about: who took it, and whether by accepting a handoff. */
  datatype Taken = Taken(view: Option<string>, accepted: bool)

  /** `taken` records every lease there has been, by generation. */
  datatype Sys = Sys(ctl: Ctl, presence: Presence, owed: Option<Owed>, inputLock: Option<nat>,
                     handlers: map<nat, Pc>, log: seq<Entry>, taken: map<nat, Taken>)

  const START := Sys(NOBODY, Presence(false, None), None, None, map[], [], map[])

  datatype Action =
    | Arrive(h: nat, request: Request)
    | SessionExited(h: nat)
    | TakeInput(h: nat)
    | GiveUp(h: nat)
    | Decide(h: nat)
    | StartWrite(h: nat)
    | WriteSome(h: nat, upTo: nat)
    | WriteDone(h: nat)
    | WriteFails(h: nat)
    | Record(h: nat)
    | Note(h: nat)
    | Control(op: Op, view: Option<string>)
    | PayPresence

  predicate HoldsInput(pc: Pc) {
    pc.HasInput? || pc.Prepared? || pc.Writing? || pc.Flushed? || pc.Noting?
  }

  /** From the decision to write until it is recorded. */
  predicate InFlight(pc: Pc) {
    pc.Prepared? || pc.Writing? || pc.Flushed?
  }

  function At(s: Sys, h: nat, pc: Pc): Sys {
    s.(handlers := s.handlers[h := pc])
  }

  function Reply(s: Sys, h: nat, answer: Answer): Sys
    requires h in s.handlers
  {
    At(s, h, Replied(s.handlers[h].request, answer)).(inputLock := None)
  }

  /** What `dispatch` owes presence after a control operation; accepting a handoff owes nothing. */
  function OwedFor(op: Op, view: Option<string>, answer: Answer): Option<Owed> {
    if op.OpAcquire? && answer.Lease? then Some(Took(view))
    else if op.OpRelease? && answer == Ok then Some(Cleared)
    else None
  }

  function TakenAfter(taken: map<nat, Taken>, op: Op, view: Option<string>, answer: Answer): map<nat, Taken> {
    if answer.Lease? then taken[answer.generation := Taken(view, op.OpAccept?)] else taken
  }

  predicate Takes(s: Sys, act: Action, s': Sys) {
    match act
    case Arrive(h, request) =>
      h !in s.handlers && |request.data| <= MAX_INPUT && s' == At(s, h, Arrived(request))
    case SessionExited(h) =>
      h in s.handlers && s.handlers[h].Arrived?
      && s' == At(s, h, Replied(s.handlers[h].request, Err(SessionOver)))
    case TakeInput(h) =>
      h in s.handlers && s.handlers[h].Arrived? && s.inputLock.None?
      && s' == At(s, h, HasInput(s.handlers[h].request)).(inputLock := Some(h))
    case GiveUp(h) =>
      h in s.handlers && s.handlers[h].Arrived? && s.inputLock.Some?
      && s' == At(s, h, Replied(s.handlers[h].request, Err(NotAccepted)))
    case Decide(h) =>
      h in s.handlers && s.handlers[h].HasInput? && s.owed.None?
      && var r := s.handlers[h].request;
         var decided := Prepare(s.ctl, r.generation, r.sequence, r.data);
         if decided.answer == Answer.Write then s' == At(s, h, Prepared(r)).(ctl := decided.ctl)
         else s' == Reply(s, h, decided.answer)
    case StartWrite(h) =>
      h in s.handlers && s.handlers[h].Prepared?
      && s' == At(s, h, Writing(s.handlers[h].request)).(log := s.log + [Entry(s.handlers[h].request, 0, Going)])
    case WriteSome(h, upTo) =>
      h in s.handlers && s.handlers[h].Writing? && s.log != []
      && s.log[|s.log| - 1].done <= upTo <= |s.handlers[h].request.data|
      && s' == s.(log := s.log[|s.log| - 1 := s.log[|s.log| - 1].(done := upTo)])
    case WriteDone(h) =>
      h in s.handlers && s.handlers[h].Writing? && s.log != []
      && s.log[|s.log| - 1].done == |s.handlers[h].request.data|
      && s' == At(s, h, Flushed(s.handlers[h].request))
               .(log := s.log[|s.log| - 1 := s.log[|s.log| - 1].(status := Whole)])
    case WriteFails(h) =>
      h in s.handlers && s.handlers[h].Writing? && s.log != []
      && s' == Reply(s, h, Err(OutcomeUnknown)).(log := s.log[|s.log| - 1 := s.log[|s.log| - 1].(status := Cut)])
    case Record(h) =>
      h in s.handlers && s.handlers[h].Flushed? && s.owed.None?
      && s' == At(s, h, Noting(s.handlers[h].request)).(ctl := Written(s.ctl))
    case Note(h) =>
      h in s.handlers && s.handlers[h].Noting? && s' == Reply(s, h, Ok)
    case Control(op, view) =>
      && s.owed.None? && !op.OpPrepare? && !op.OpWritten?
      && var done := Do(s.ctl, op);
         s' == s.(ctl := done.ctl, owed := OwedFor(op, view, done.answer),
                  taken := TakenAfter(s.taken, op, view, done.answer))
    case PayPresence =>
      && s.owed.Some?
      && s' == s.(owed := None, presence := if s.owed.value.Took? then Presence(true, s.owed.value.view)
                                            else Presence(false, None))
  }

  ghost predicate Next(s: Sys, s': Sys) {
    exists act :: Takes(s, act, s')
  }

  ghost predicate StepAt(run: seq<Sys>, i: nat)
    requires 0 < i < |run|
  {
    Next(run[i - 1], run[i])
  }

  ghost predicate Run(run: seq<Sys>) {
    run != [] && run[0] == START && forall i :: 0 < i < |run| ==> StepAt(run, i)
  }

  // ---------------------------------------------------------------- the invariant

  function Last(log: seq<Entry>): Entry
    requires log != []
  {
    log[|log| - 1]
  }

  /** `r` may come next after the writes so far: 1, 2, 3, … within a generation, never after a cut write. */
  predicate MayFollow(log: seq<Entry>, r: Request) {
    if log == [] then r.sequence == 1
    else
      var e := log[|log| - 1];
      || (r.generation > e.request.generation && r.sequence == 1)
      || (r.generation == e.request.generation && r.sequence == e.request.sequence + 1 && e.status.Whole?)
  }

  predicate FollowsAt(log: seq<Entry>, i: nat)
    requires i < |log|
  {
    MayFollow(log[..i], log[i].request)
  }

  predicate LogOk(log: seq<Entry>) {
    && (forall i :: 0 <= i < |log| ==> FollowsAt(log, i))
    && (forall i :: 0 <= i < |log| ==>
                      && log[i].done <= |log[i].request.data|
                      && (log[i].status.Whole? ==> log[i].done == |log[i].request.data|))
    && (forall i :: 0 <= i < |log| - 1 ==> !log[i].status.Going?)
  }

  /** The current generation's last write, or nothing. */
  function LastWritten(ctl: Ctl, log: seq<Entry>): nat {
    if log != [] && Last(log).request.generation == ctl.generation then Last(log).request.sequence else 0
  }

  /** An input fully written under lease `g`. */
  predicate Logged(log: seq<Entry>, g: nat, x: Input) {
    exists i :: 0 <= i < |log| && log[i].status.Whole? && log[i].request == Request(g, x.sequence, x.data)
  }

  ghost predicate LocksOk(s: Sys) {
    && (forall h :: h in s.handlers && HoldsInput(s.handlers[h]) ==> s.inputLock == Some(h))
    && (s.inputLock.Some? ==> s.inputLock.value in s.handlers && HoldsInput(s.handlers[s.inputLock.value]))
    && (forall h :: h in s.handlers ==> |s.handlers[h].request.data| <= MAX_INPUT)
  }

  predicate PresenceOk(s: Sys) {
    match s.owed
    case None => s.presence.held == s.ctl.active
    case Some(Took(_)) => s.ctl.active
    case Some(Cleared) => !s.ctl.active
  }

  /** The handler in flight, if any. */
  function Flight(s: Sys): Option<Pc> {
    if s.inputLock.Some? && s.inputLock.value in s.handlers && InFlight(s.handlers[s.inputLock.value])
    then Some(s.handlers[s.inputLock.value]) else None
  }

  predicate Closed(log: seq<Entry>) {
    log != [] ==> !Last(log).status.Going?
  }

  /** The current lease's last write was cut short. */
  predicate CutShort(ctl: Ctl, log: seq<Entry>) {
    log != [] && Last(log).request.generation == ctl.generation && Last(log).status.Cut?
  }

  /** How the handler in flight stands to the controller and the log. */
  predicate FlightOk(flight: Option<Pc>, ctl: Ctl, log: seq<Entry>) {
    if flight.Some? then
      var r := flight.value.request;
      && r.generation <= ctl.generation
      && (r.generation < ctl.generation ==> ctl.last == 0 && !ctl.uncertain)
      && (r.generation == ctl.generation ==>
            && ctl.uncertain && ctl.last == r.sequence
            && forall x :: x in ctl.recent && x.sequence == r.sequence ==> x.data == r.data)
      && (if flight.value.Prepared? then MayFollow(log, r) && Closed(log)
          else
            log != [] && Last(log).request == r
            && (if flight.value.Writing? then Last(log).status.Going? else Last(log).status.Whole?))
    else
      && ctl.last == LastWritten(ctl, log) && Closed(log) && (ctl.uncertain <==> CutShort(ctl, log))
  }

  predicate DedupOk(ctl: Ctl, log: seq<Entry>) {
    && WindowOk(ctl)
    && (forall i :: 0 <= i < |log| ==> log[i].request.generation <= ctl.generation)
    && (forall x :: x in ctl.recent && (x.sequence < ctl.last || !ctl.uncertain) ==> Logged(log, ctl.generation, x))
  }

  ghost predicate Inv(s: Sys) {
    LocksOk(s) && PresenceOk(s) && LogOk(s.log) && FlightOk(Flight(s), s.ctl, s.log) && DedupOk(s.ctl, s.log)
  }

  // ---------------------------------------------------------------- every step keeps the invariant

  lemma UpdateLast(log: seq<Entry>, e: Entry)
    requires LogOk(log) && log != [] && e.request == Last(log).request && e.done <= |e.request.data|
    requires e.status.Whole? ==> e.done == |e.request.data|
    ensures LogOk(log[|log| - 1 := e])
  {
    var log' := log[|log| - 1 := e];
    forall i | 0 <= i < |log'| ensures FollowsAt(log', i) {
      assert i < |log| ==> FollowsAt(log, i);
      assert log'[..i] == log[..i];
    }
  }

  lemma AppendEntry(log: seq<Entry>, r: Request)
    requires LogOk(log) && MayFollow(log, r) && (log != [] ==> !Last(log).status.Going?)
    ensures LogOk(log + [Entry(r, 0, Going)])
  {
    var log' := log + [Entry(r, 0, Going)];
    forall i | 0 <= i < |log'| ensures FollowsAt(log', i) {
      assert i < |log| ==> FollowsAt(log, i);
      assert log'[..i] == log[..i];
      assert log[..|log|] == log;
    }
  }

  /** Fully written inputs stay so while the log is added to or its open entry goes on. */
  lemma DedupStable(ctl: Ctl, log: seq<Entry>, log': seq<Entry>)
    requires DedupOk(ctl, log) && |log| <= |log'| <= |log| + 1
    requires forall i :: 0 <= i < |log| && (log[i].status.Whole? || i < |log| - 1) ==> log'[i] == log[i]
    requires forall i :: 0 <= i < |log'| ==> log'[i].request.generation <= ctl.generation
    ensures DedupOk(ctl, log')
  {
    forall x | x in ctl.recent && (x.sequence < ctl.last || !ctl.uncertain) ensures Logged(log', ctl.generation, x) {
      assert Logged(log, ctl.generation, x);
      var i :| 0 <= i < |log| && log[i].status.Whole? && log[i].request == Request(ctl.generation, x.sequence, x.data);
      assert log'[i] == log[i];
    }
  }

  /** A step of the handler that holds the input lock, which it keeps or gives back. */
  lemma HolderMoves(s: Sys, h: nat, s': Sys)
    requires LocksOk(s) && s.inputLock == Some(h) && h in s.handlers && h in s'.handlers
    requires s'.handlers == s.handlers[h := s'.handlers[h]] && s'.handlers[h].request == s.handlers[h].request
    requires s'.inputLock == if HoldsInput(s'.handlers[h]) then Some(h) else None
    ensures LocksOk(s')
    ensures Flight(s) == if InFlight(s.handlers[h]) then Some(s.handlers[h]) else None
    ensures Flight(s') == if InFlight(s'.handlers[h]) then Some(s'.handlers[h]) else None
  {
  }

  /** Steps of one handler that leave controller and log alone. */
  lemma QuietKeeps(s: Sys, act: Action, s': Sys)
    requires Inv(s) && Takes(s, act, s')
    requires act.Arrive? || act.SessionExited? || act.TakeInput? || act.GiveUp? || act.Note?
    ensures Inv(s')
  {
    if act.Note? {
      HolderMoves(s, act.h, s');
    } else {
      WaiterMoves(s, act.h, s');
    }
  }

  /** A handler outside the lock arrives, gives up, or takes the lock when it is free. */
  lemma WaiterMoves(s: Sys, h: nat, s': Sys)
    requires LocksOk(s) && h in s'.handlers && s'.handlers == s.handlers[h := s'.handlers[h]]
    requires h in s.handlers ==> s.handlers[h].Arrived?
    requires |s'.handlers[h].request.data| <= MAX_INPUT && !InFlight(s'.handlers[h])
    requires if HoldsInput(s'.handlers[h]) then s.inputLock.None? && s'.inputLock == Some(h)
             else s'.inputLock == s.inputLock
    requires h !in s.handlers ==> !HoldsInput(s'.handlers[h])
    ensures LocksOk(s') && Flight(s') == Flight(s)
  {
  }

  lemma EvictedWereThere(recent: seq<Input>, bytes: int, x: Input)
    requires x in Evict(recent, bytes).0
    ensures x in recent
  {
  }

  /** What deciding to write does to the controller. */
  lemma WriteDecision(c: Ctl, r: Request)
    requires WindowOk(c) && |r.data| <= MAX_INPUT
    requires Prepare(c, r.generation, r.sequence, r.data).answer == Answer.Write
    ensures var c' := Prepare(c, r.generation, r.sequence, r.data).ctl;
            && WindowOk(c')
            && c' == c.(last := c.last + 1, recent := c'.recent, recentBytes := c'.recentBytes, uncertain := true)
            && c.active && !c.uncertain && r.generation == c.generation && r.sequence == c.last + 1
            && forall x :: x in c'.recent ==> x == Input(r.sequence, r.data) || (x in c.recent && x.sequence <= c.last)
  {
    OpsKeepTheWindow(c, OpPrepare(r.generation, r.sequence, r.data));
    var all := c.recent + [Input(r.sequence, r.data)];
    var bytes := c.recentBytes + |r.data|;
    var c' := Prepare(c, r.generation, r.sequence, r.data).ctl;
    forall x | x in c'.recent
      ensures x == Input(r.sequence, r.data) || (x in c.recent && x.sequence <= c.last)
    {
      EvictedWereThere(all, bytes, x);
      if x != Input(r.sequence, r.data) {
        var i :| 0 <= i < |c.recent| && c.recent[i] == x;
      }
    }
  }

  lemma DecideKeeps(s: Sys, h: nat, s': Sys)
    requires Inv(s) && Takes(s, Decide(h), s')
    ensures Inv(s')
  {
    var r := s.handlers[h].request;
    if Prepare(s.ctl, r.generation, r.sequence, r.data).answer == Answer.Write {
      WriteDecision(s.ctl, r);
      DecidedToWrite(s, h, r, s'.ctl, s');
    } else {
      DecidedNotTo(s, h, Prepare(s.ctl, r.generation, r.sequence, r.data).answer, s');
    }
  }

  lemma DecidedNotTo(s: Sys, h: nat, answer: Answer, s': Sys)
    requires Inv(s) && h in s.handlers && s.handlers[h].HasInput? && s' == Reply(s, h, answer)
    ensures Inv(s')
  {
    HolderMoves(s, h, s');
  }

  lemma DecidedToWrite(s: Sys, h: nat, r: Request, c': Ctl, s': Sys)
    requires Inv(s) && h in s.handlers && s.handlers[h] == HasInput(r) && s.owed.None?
    requires s' == At(s, h, Prepared(r)).(ctl := c') && WindowOk(c')
    requires c' == s.ctl.(last := s.ctl.last + 1, recent := c'.recent, recentBytes := c'.recentBytes, uncertain := true)
    requires !s.ctl.uncertain && r.generation == s.ctl.generation && r.sequence == s.ctl.last + 1
    requires forall x :: x in c'.recent ==>
                           x == Input(r.sequence, r.data) || (x in s.ctl.recent && x.sequence <= s.ctl.last)
    ensures Inv(s')
  {
    HolderMoves(s, h, s');
    forall x | x in c'.recent && x.sequence < c'.last ensures Logged(s.log, c'.generation, x) {
      assert Logged(s.log, s.ctl.generation, x);
    }
  }

  lemma StartKeeps(s: Sys, h: nat, s': Sys)
    requires Inv(s) && Takes(s, StartWrite(h), s')
    ensures Inv(s')
  {
    HolderMoves(s, h, s');
    AppendEntry(s.log, s.handlers[h].request);
    DedupStable(s.ctl, s.log, s'.log);
  }

  /** The open entry grows, is closed whole, or is cut. */
  lemma OpenEntryGoesOn(ctl: Ctl, log: seq<Entry>, e: Entry, pc: Pc, next: Option<Pc>)
    requires LogOk(log) && DedupOk(ctl, log) && pc.Writing? && FlightOk(Some(pc), ctl, log)
    requires e.request == pc.request && e.done <= |e.request.data| && (e.status.Whole? ==> e.done == |e.request.data|)
    requires next == match e.status case Going => Some(pc) case Whole => Some(Flushed(pc.request)) case Cut => None
    ensures var log' := log[|log| - 1 := e];
            LogOk(log') && DedupOk(ctl, log') && FlightOk(next, ctl, log')
  {
    UpdateLast(log, e);
    DedupStable(ctl, log, log[|log| - 1 := e]);
  }

  /** What such a step does to the log and the write under way. */
  lemma WriteMoves(s: Sys, act: Action, s': Sys)
    requires LogOk(s.log) && FlightOk(Flight(s), s.ctl, s.log) && Takes(s, act, s')
    requires act.WriteSome? || act.WriteDone? || act.WriteFails?
    requires Flight(s) == Some(s.handlers[act.h])
    requires Flight(s') == if InFlight(s'.handlers[act.h]) then Some(s'.handlers[act.h]) else None
    ensures s.handlers[act.h].Writing? && s.log != [] && s'.log != [] && s'.ctl == s.ctl
    ensures var e := Last(s'.log);
            && s'.log == s.log[|s.log| - 1 := e] && e.request == s.handlers[act.h].request
            && e.done <= |e.request.data| && (e.status.Whole? ==> e.done == |e.request.data|)
            && Flight(s') == match e.status
                             case Going => Some(s.handlers[act.h])
                             case Whole => Some(Flushed(e.request))
                             case Cut => None
  {
  }

  lemma WriteKeeps(s: Sys, act: Action, s': Sys)
    requires Inv(s) && Takes(s, act, s') && (act.WriteSome? || act.WriteDone? || act.WriteFails?)
    ensures Inv(s')
  {
    HolderMoves(s, act.h, s');
    WriteMoves(s, act, s');
    OpenEntryGoesOn(s.ctl, s.log, Last(s'.log), s.handlers[act.h], Flight(s'));
  }

  lemma RecordKeeps(s: Sys, h: nat, s': Sys)
    requires Inv(s) && Takes(s, Record(h), s')
    ensures Inv(s')
  {
    HolderMoves(s, h, s');
    RecordedIsLogged(s.ctl, s.log, s.handlers[h]);
  }

  /** With the write recorded, everything remembered under its lease was written. */
  lemma RecordedIsLogged(ctl: Ctl, log: seq<Entry>, pc: Pc)
    requires DedupOk(ctl, log) && pc.Flushed? && FlightOk(Some(pc), ctl, log)
    ensures DedupOk(Written(ctl), log)
  {
    forall x | x in ctl.recent ensures Logged(log, ctl.generation, x) {
      if ctl.uncertain && x.sequence == ctl.last {
        assert log[|log| - 1].request == Request(ctl.generation, x.sequence, x.data);
      } else {
        assert x.sequence <= ctl.last by {
          var i :| 0 <= i < |ctl.recent| && ctl.recent[i] == x;
        }
      }
    }
  }

  /** A control operation starts a new lease afresh or leaves the lease's inputs alone. */
  lemma ControlShape(c: Ctl, op: Op)
    requires !op.OpPrepare? && !op.OpWritten? && (c.handoff.Some? ==> c.active)
    ensures var c' := Do(c, op).ctl;
            || c' == Ctl(c.generation + 1, true, 0, [], 0, false, None)
            || c' == c.(active := c'.active, handoff := c'.handoff)
    ensures Do(c, op).ctl.active == (if OwedFor(op, None, Do(c, op).answer) == None then c.active
                                     else op.OpAcquire?)
  {
  }

  lemma ControlKeeps(s: Sys, op: Op, view: Option<string>, s': Sys)
    requires Inv(s) && Takes(s, Control(op, view), s')
    ensures Inv(s')
  {
    OpsKeepTheWindow(s.ctl, op);
    ControlShape(s.ctl, op);
    ControlEffect(s, Do(s.ctl, op).ctl, OwedFor(op, view, Do(s.ctl, op).answer), s'.taken, s');
  }

  lemma ControlEffect(s: Sys, c': Ctl, owed: Option<Owed>, taken: map<nat, Taken>, s': Sys)
    requires Inv(s) && s.owed.None? && s' == s.(ctl := c', owed := owed, taken := taken) && WindowOk(c')
    requires c' == Ctl(s.ctl.generation + 1, true, 0, [], 0, false, None)
             || c' == s.ctl.(active := c'.active, handoff := c'.handoff)
    requires if owed.None? then c'.active == s.ctl.active else c'.active == owed.value.Took?
    ensures Inv(s')
  {
    assert Flight(s') == Flight(s);
  }

  lemma PresenceKeeps(s: Sys, s': Sys)
    requires Inv(s) && Takes(s, PayPresence, s')
    ensures Inv(s')
  {
    assert Flight(s') == Flight(s);
  }

  lemma StepKeepsInvariant(s: Sys, act: Action, s': Sys)
    requires Inv(s) && Takes(s, act, s')
    ensures Inv(s')
  {
    match act {
      case Decide(h) => DecideKeeps(s, h, s');
      case StartWrite(h) => StartKeeps(s, h, s');
      case WriteSome(_, _) => WriteKeeps(s, act, s');
      case WriteDone(_) => WriteKeeps(s, act, s');
      case WriteFails(_) => WriteKeeps(s, act, s');
      case Record(h) => RecordKeeps(s, h, s');
      case Control(op, view) => ControlKeeps(s, op, view, s');
      case PayPresence => PresenceKeeps(s, s');
      case _ => QuietKeeps(s, act, s');
    }
  }

  lemma {:induction false} RunsKeepInvariant(run: seq<Sys>, n: nat)
    requires Run(run) && n < |run|
    ensures Inv(run[n])
  {
    if n > 0 {
      RunsKeepInvariant(run, n - 1);
      assert StepAt(run, n);
      var act :| Takes(run[n - 1], act, run[n]);
      StepKeepsInvariant(run[n - 1], act, run[n]);
    }
  }

  // ---------------------------------------------------------------- what every run guarantees

  predicate Before(a: Request, b: Request) {
    a.generation < b.generation || (a.generation == b.generation && a.sequence < b.sequence)
  }

  /** The writes that reach the PTY are strictly ordered by lease and sequence. */
  lemma {:induction false} WritesAreOrdered(log: seq<Entry>, i: nat, j: nat)
    requires LogOk(log) && i < j < |log|
    ensures Before(log[i].request, log[j].request)
    decreases j
  {
    assert FollowsAt(log, j);
    assert Last(log[..j]) == log[j - 1];
    if i < j - 1 {
      WritesAreOrdered(log, i, j - 1);
    }
  }

  /** Within a lease they run 1, 2, 3, … with nothing left out. */
  lemma {:induction false} SequencesAreContiguous(log: seq<Entry>, i: nat) returns (first: nat)
    requires LogOk(log) && i < |log|
    ensures first <= i && log[first].request.sequence == 1
    ensures log[i].request.sequence == i - first + 1
    ensures forall k :: first <= k <= i ==> log[k].request.generation == log[i].request.generation
    ensures forall k :: 0 <= k < first ==> log[k].request.generation < log[i].request.generation
    ensures forall k :: first <= k < i ==> log[k].status.Whole?
  {
    assert FollowsAt(log, i);
    if i == 0 {
      first := 0;
    } else {
      assert Last(log[..i]) == log[i - 1];
      if log[i - 1].request.generation < log[i].request.generation {
        first := i;
        var _ := SequencesAreContiguous(log, i - 1);
      } else {
        first := SequencesAreContiguous(log, i - 1);
      }
    }
  }

  /**
   Under any interleaving of handlers, takeovers, releases and handoffs: PTY writes are in strict
   (generation, sequence) order and numbered 1, 2, 3, … in each generation, and a generation whose write
   was cut short writes nothing more.
   */
  lemma PtyWritesAreFenced(run: seq<Sys>, n: nat, i: nat, j: nat)
    requires Run(run) && n < |run| && i < j < |run[n].log|
    ensures var log := run[n].log;
            && Before(log[i].request, log[j].request)
            && (log[i].request.generation == log[j].request.generation ==>
                  && log[i].status.Whole? && log[i].done == |log[i].request.data|
                  && log[j].request.sequence == log[i].request.sequence + (j - i))
  {
    RunsKeepInvariant(run, n);
    var log := run[n].log;
    WritesAreOrdered(log, i, j);
    var a := SequencesAreContiguous(log, j);
    var b := SequencesAreContiguous(log, i);
    assert log[i].request.generation == log[j].request.generation ==> a == b;
  }

  /** A late `written()` finds nothing of another lease to clear: the flag is down already. */
  lemma LateWrittenClearsNothing(run: seq<Sys>, n: nat, h: nat, s': Sys)
    requires Run(run) && n < |run| && Takes(run[n], Record(h), s')
    requires run[n].handlers[h].request.generation != run[n].ctl.generation
    ensures !run[n].ctl.uncertain && s'.ctl == run[n].ctl
  {
    RunsKeepInvariant(run, n);
  }

  /** "Duplicate" is said only of bytes that were fully written under this very lease. */
  lemma DuplicatesWereWritten(run: seq<Sys>, n: nat, g: nat, sequence: nat, data: seq<Byte>)
    requires Run(run) && n < |run| && Prepare(run[n].ctl, g, sequence, data).answer == Duplicate
    ensures exists i :: 0 <= i < |run[n].log| && run[n].log[i].status.Whole?
                        && run[n].log[i].request == Request(g, sequence, data)
                        && run[n].log[i].done == |data|
  {
    RunsKeepInvariant(run, n);
    assert Logged(run[n].log, g, Input(sequence, data));
  }

  // ---------------------------------------------------------------- whose name presence shows

  /** The last lease up to `g` that was taken outright, not by accepting a handoff. */
  function Shown(taken: map<nat, Taken>, g: nat): nat {
    if g in taken && taken[g].accepted && g > 0 then Shown(taken, g - 1) else g
  }

  /** Presence names whoever took control outright last, as long as it has not been let go since. */
  predicate NamesOk(s: Sys) {
    && (forall g :: g in s.taken ==> g <= s.ctl.generation)
    && (s.ctl.active ==>
          var shown := Shown(s.taken, s.ctl.generation);
          && shown in s.taken && !s.taken[shown].accepted
          && (s.owed.None? ==> s.presence.controller == s.taken[shown].view))
    && (s.owed.Some? && s.owed.value.Took? ==>
          s.ctl.generation in s.taken && s.taken[s.ctl.generation] == Taken(s.owed.value.view, false))
  }

  lemma {:induction false} ShownIsSettled(taken: map<nat, Taken>, g: nat, next: nat, t: Taken)
    requires g < next
    ensures Shown(taken[next := t], g) == Shown(taken, g)
  {
    if g in taken && taken[g].accepted && g > 0 {
      ShownIsSettled(taken, g - 1, next, t);
    }
  }

  lemma {:induction false} ShownIsPast(taken: map<nat, Taken>, g: nat)
    ensures Shown(taken, g) <= g
    ensures forall x :: Shown(taken, g) < x <= g ==> x in taken && taken[x].accepted
  {
    if g in taken && taken[g].accepted && g > 0 {
      ShownIsPast(taken, g - 1);
    }
  }

  lemma ControlNames(s: Sys, op: Op, view: Option<string>, s': Sys)
    requires NamesOk(s) && (s.ctl.handoff.Some? ==> s.ctl.active) && Takes(s, Control(op, view), s')
    ensures NamesOk(s')
  {
    ControlShape(s.ctl, op);
    if Do(s.ctl, op).answer.Lease? {
      ShownIsSettled(s.taken, s.ctl.generation, s.ctl.generation + 1, Taken(view, op.OpAccept?));
    }
  }

  lemma StepKeepsNames(s: Sys, act: Action, s': Sys)
    requires Inv(s) && NamesOk(s) && Takes(s, act, s')
    ensures NamesOk(s')
  {
    match act {
      case Control(op, view) => ControlNames(s, op, view, s');
      case Decide(h) => DecideNames(s, h, s');
      case PayPresence =>
        assert PresenceOk(s);
      case _ =>
    }
  }

  lemma DecideNames(s: Sys, h: nat, s': Sys)
    requires NamesOk(s) && Takes(s, Decide(h), s')
    ensures NamesOk(s')
  {
  }

  lemma {:induction false} RunsKeepNames(run: seq<Sys>, n: nat)
    requires Run(run) && n < |run|
    ensures NamesOk(run[n])
  {
    if n > 0 {
      RunsKeepNames(run, n - 1);
      RunsKeepInvariant(run, n - 1);
      assert StepAt(run, n);
      var act :| Takes(run[n - 1], act, run[n]);
      StepKeepsNames(run[n - 1], act, run[n]);
    }
  }

  /**
   Whenever the controls lock is free, presence says control is held exactly when it is. The name it shows is
   that of whoever took control outright last. Accepting a handoff changes the holder without telling
   presence: the name is the taker's of the lease in force exactly when that lease was not accepted, and
   otherwise only if the two happen to be called the same.
   */
  lemma PresenceMatchesControl(run: seq<Sys>, n: nat)
    requires Run(run) && n < |run| && run[n].owed.None?
    ensures run[n].presence.held == run[n].ctl.active
    ensures run[n].ctl.handoff.Some? ==> run[n].presence.held
    ensures run[n].ctl.active ==>
              var s := run[n];
              var now, shown := s.ctl.generation, Shown(s.taken, s.ctl.generation);
              && shown <= now && shown in s.taken && now in s.taken
              && s.presence.controller == s.taken[shown].view
              && (shown == now <==> !s.taken[now].accepted)
              && (forall g :: shown < g <= now ==> g in s.taken && s.taken[g].accepted)
              && (s.presence.controller == s.taken[now].view <==>
                  !s.taken[now].accepted || s.taken[shown].view == s.taken[now].view)
  {
    RunsKeepInvariant(run, n);
    RunsKeepNames(run, n);
    ShownIsPast(run[n].taken, run[n].ctl.generation);
  }

  lemma Extend(run: seq<Sys>, act: Action, s: Sys)
    requires Run(run) && Takes(run[|run| - 1], act, s)
    ensures Run(run + [s])
  {
    var run' := run + [s];
    forall i | 0 < i < |run'| ensures StepAt(run', i) {
      if i < |run| {
        assert StepAt(run, i);
      }
    }
  }

  /** A controller on its `n`-th lease, nothing ever written, with or without an offer. */
  function HeldBy(n: nat, handoff: Option<Offer>): Ctl {
    Ctl(n, true, 0, [], 0, false, handoff)
  }

  lemma Takeover(run: seq<Sys>, view: string) returns (run': seq<Sys>)
    requires run == [START]
    ensures Run(run') && |run'| == 3
    ensures run'[2] == START.(ctl := HeldBy(1, None), presence := Presence(true, Some(view)),
                              taken := map[1 := Taken(Some(view), false)])
  {
    var s1 := START.(ctl := HeldBy(1, None), owed := Some(Took(Some(view))),
                     taken := map[1 := Taken(Some(view), false)]);
    Extend(run, Control(OpAcquire(false), Some(view)), s1);
    var s2 := s1.(owed := None, presence := Presence(true, Some(view)));
    Extend(run + [s1], PayPresence, s2);
    run' := run + [s1] + [s2];
  }

  /** A run: "alice" takes control and offers it, "bob" accepts, and presence goes on showing "alice". */
  lemma AcceptedControlKeepsTheOldName() returns (run: seq<Sys>)
    ensures Run(run) && |run| == 5
    ensures var s := run[4];
            && s.ctl == HeldBy(2, None) && s.owed.None?
            && s.taken == map[1 := Taken(Some("alice"), false), 2 := Taken(Some("bob"), true)]
            && s.presence == Presence(true, Some("alice"))
  {
    var before := Takeover([START], "alice");
    var s2 := before[2];
    var s3 := s2.(ctl := HeldBy(1, Some(Offer.Offer("t", 120))));
    Extend(before, Control(OpOffer(1, "t", 0), Some("alice")), s3);
    var s4 := s3.(ctl := HeldBy(2, None), taken := s3.taken[2 := Taken(Some("bob"), true)]);
    Extend(before + [s3], Control(OpAccept("t", 1), Some("bob")), s4);
    run := before + [s3] + [s4];
  }
}
