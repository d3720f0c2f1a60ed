/** What a keeper's answer to an input says about the PTY. */
module KeeperAnswers {
  import opened Basics
  import opened ControllerSpec
  import opened Transitions
  import opened KeeperInput

  predicate WholeIn(log: seq<Entry>, r: Request) {
    exists i :: 0 <= i < |log| && log[i].request == r && log[i].status.Whole? && log[i].done == |r.data|
  }

  predicate CutIn(log: seq<Entry>, r: Request) {
    exists i :: 0 <= i < |log| && log[i].request == r && log[i].status.Cut?
  }

  /** A handler that has written, or failed to, is borne out by the log. */
  predicate BorneOut(log: seq<Entry>, pc: Pc) {
    match pc
    case Flushed(r) => WholeIn(log, r)
    case Noting(r) => WholeIn(log, r)
    case Replied(r, answer) =>
      && (answer == Ok || answer == Duplicate ==> WholeIn(log, r))
      && (answer == Err(OutcomeUnknown) ==> CutIn(log, r))
    case _ => true
  }

  ghost predicate AllBorneOut(s: Sys) {
    forall h :: h in s.handlers ==> BorneOut(s.log, s.handlers[h])
  }

  /** What is settled in the log stays. */
  predicate Settles(log: seq<Entry>, log': seq<Entry>) {
    |log| <= |log'| && forall i :: 0 <= i < |log| && !log[i].status.Going? ==> log'[i] == log[i]
  }

  lemma StaysBorneOut(log: seq<Entry>, log': seq<Entry>, pc: Pc)
    requires Settles(log, log') && BorneOut(log, pc)
    ensures BorneOut(log', pc)
  {
    var r := pc.request;
    if WholeIn(log, r) {
      var i :| 0 <= i < |log| && log[i].request == r && log[i].status.Whole? && log[i].done == |r.data|;
      assert log'[i] == log[i];
    }
    if CutIn(log, r) {
      var i :| 0 <= i < |log| && log[i].request == r && log[i].status.Cut?;
      assert log'[i] == log[i];
    }
  }

  /** The handler a step moves, if it moves one. */
  function Mover(act: Action): Option<nat> {
    match act
    case Control(_, _) => None
    case PayPresence => None
    case _ => Some(act.h)
  }

  lemma StepSettles(s: Sys, act: Action, s': Sys)
    requires Inv(s) && Takes(s, act, s')
    ensures Settles(s.log, s'.log)
  {
    if act.WriteSome? || act.WriteDone? || act.WriteFails? {
      HolderMoves(s, act.h, s');
    }
  }

  lemma OthersStay(s: Sys, act: Action, s': Sys, h: nat)
    requires Takes(s, act, s') && Mover(act) != Some(h)
    ensures h in s'.handlers <==> h in s.handlers
    ensures h in s.handlers ==> s'.handlers[h] == s.handlers[h]
  {
  }

  /** What the controller decides is never "written" nor "in doubt". */
  lemma DecisionsAreNoOutcome(c: Ctl, r: Request)
    ensures var answer := Prepare(c, r.generation, r.sequence, r.data).answer;
            answer != Ok && answer != Err(OutcomeUnknown)
  {
  }

  lemma DuplicateIsWhole(s: Sys, r: Request)
    requires DedupOk(s.ctl, s.log) && LogOk(s.log)
    requires Prepare(s.ctl, r.generation, r.sequence, r.data).answer == Duplicate
    ensures WholeIn(s.log, r)
  {
    assert Logged(s.log, r.generation, Input(r.sequence, r.data));
  }

  lemma LastIsWhole(log: seq<Entry>, r: Request)
    requires LogOk(log) && log != [] && Last(log).request == r && Last(log).status.Whole?
    ensures WholeIn(log, r)
  {
    assert log[|log| - 1] == Last(log);
  }

  lemma MoverIsBorneOut(s: Sys, act: Action, s': Sys, h: nat)
    requires Inv(s) && Takes(s, act, s') && Inv(s') && Mover(act) == Some(h)
    requires h in s.handlers ==> BorneOut(s.log, s.handlers[h])
    ensures h in s'.handlers && BorneOut(s'.log, s'.handlers[h])
  {
    if act.Decide? {
      var r := s.handlers[h].request;
      DecisionsAreNoOutcome(s.ctl, r);
      if Prepare(s.ctl, r.generation, r.sequence, r.data).answer == Duplicate {
        DuplicateIsWhole(s, r);
      }
    } else if act.WriteDone? {
      HolderMoves(s, h, s');
      LastIsWhole(s'.log, s.handlers[h].request);
    } else if act.WriteFails? {
      HolderMoves(s, h, s');
      assert s'.log[|s.log| - 1].request == s.handlers[h].request;
    }
  }

  lemma StepIsBorneOut(s: Sys, act: Action, s': Sys)
    requires Inv(s) && Takes(s, act, s') && Inv(s') && AllBorneOut(s)
    ensures AllBorneOut(s')
  {
    StepSettles(s, act, s');
    forall h | h in s'.handlers ensures BorneOut(s'.log, s'.handlers[h]) {
      if Mover(act) == Some(h) {
        MoverIsBorneOut(s, act, s', h);
      } else {
        OthersStay(s, act, s', h);
        StaysBorneOut(s.log, s'.log, s.handlers[h]);
      }
    }
  }

  ghost predicate Sound(s: Sys) {
    Inv(s) && AllBorneOut(s)
  }

  lemma RunStaysSound(run: seq<Sys>, n: nat)
    requires Run(run) && 0 < n < |run| && Sound(run[n - 1])
    ensures Sound(run[n])
  {
    assert StepAt(run, n);
    var act :| Takes(run[n - 1], act, run[n]);
    StepKeepsInvariant(run[n - 1], act, run[n]);
    StepIsBorneOut(run[n - 1], act, run[n]);
  }

  lemma RunsAreSound(run: seq<Sys>, n: nat)
    requires Run(run) && n < |run|
    ensures Sound(run[n])
  {
    RunsKeepInvariant(run, 0);
    forall i | 0 < i < |run| && Sound(run[i - 1]) ensures Sound(run[i]) {
      RunStaysSound(run, i);
    }
    AlongRun(s => Sound(s), run, n);
  }

  // ---------------------------------------------------------------- who wrote

  predicate IsWriting(s: Sys, h: nat) {
    h in s.handlers && s.handlers[h].Writing?
  }

  /** Handler `h` has started a write by step `n`. */
  predicate Started(run: seq<Sys>, h: nat, n: nat)
    requires n < |run|
  {
    exists i :: 0 <= i <= n && IsWriting(run[i], h)
  }

  /** Writing, or past it. */
  predicate PastStart(s: Sys, h: nat) {
    h in s.handlers
    && match s.handlers[h]
       case Writing(_) => true
       case Flushed(_) => true
       case Noting(_) => true
       case Replied(_, answer) => answer == Ok || answer == Err(OutcomeUnknown)
       case _ => false
  }

  lemma StartMoves(s: Sys, act: Action, s': Sys, h: nat)
    requires Takes(s, act, s')
    ensures PastStart(s', h) <==> PastStart(s, h) || IsWriting(s', h)
  {
    if Mover(act) != Some(h) {
      OthersStay(s, act, s', h);
    } else if act.Decide? {
      DecisionsAreNoOutcome(s.ctl, s.handlers[h].request);
    }
  }

  lemma {:induction false} WhoStarted(run: seq<Sys>, n: nat, h: nat)
    requires Run(run) && n < |run|
    ensures PastStart(run[n], h) <==> Started(run, h, n)
  {
    if n > 0 {
      WhoStarted(run, n - 1, h);
      assert StepAt(run, n);
      var act :| Takes(run[n - 1], act, run[n]);
      StartMoves(run[n - 1], act, run[n], h);
      assert IsWriting(run[n], h) ==> Started(run, h, n);
    }
  }

  // ---------------------------------------------------------------- what the controller told them

  /** What a handler was told by the controller, as far as its state shows. */
  function ToldTo(pc: Pc): Option<Answer> {
    match pc
    case Arrived(_) => None
    case HasInput(_) => None
    case Replied(_, answer) =>
      if answer == Ok || answer == Err(OutcomeUnknown) then Some(Answer.Write)
      else if answer == Err(SessionOver) || answer == Err(NotAccepted) then None
      else Some(answer)
    case _ => Some(Answer.Write)
  }

  /** Holding the input lock, handler `h` would be told `answer` about this request now. */
  predicate Deciding(s: Sys, h: nat, request: Request, answer: Answer) {
    && h in s.handlers && s.handlers[h] == HasInput(request)
    && Prepare(s.ctl, request.generation, request.sequence, request.data).answer == answer
  }

  predicate Told(run: seq<Sys>, h: nat, n: nat, request: Request, answer: Answer)
    requires n < |run|
  {
    exists i :: 0 <= i < n && Deciding(run[i], h, request, answer)
  }

  lemma TellingMoves(s: Sys, act: Action, s': Sys, h: nat)
    requires Takes(s, act, s') && h in s'.handlers && ToldTo(s'.handlers[h]).Some?
    ensures var r, answer := s'.handlers[h].request, ToldTo(s'.handlers[h]).value;
            || Deciding(s, h, r, answer)
            || (h in s.handlers && s.handlers[h].request == r && ToldTo(s.handlers[h]) == Some(answer))
  {
    if Mover(act) != Some(h) {
      OthersStay(s, act, s', h);
    } else if act.Decide? {
      DecisionsAreNoOutcome(s.ctl, s.handlers[h].request);
    }
  }

  lemma {:induction false} AnswersWereTold(run: seq<Sys>, n: nat, h: nat)
    requires Run(run) && n < |run| && h in run[n].handlers && ToldTo(run[n].handlers[h]).Some?
    ensures Told(run, h, n, run[n].handlers[h].request, ToldTo(run[n].handlers[h]).value)
  {
    assert n > 0;
    assert StepAt(run, n);
    var act :| Takes(run[n - 1], act, run[n]);
    TellingMoves(run[n - 1], act, run[n], h);
    if h in run[n - 1].handlers && ToldTo(run[n - 1].handlers[h]).Some? {
      AnswersWereTold(run, n - 1, h);
    }
  }

  /**
   What an answer says, over every interleaving: "ok" and "duplicate" that these very bytes are in the PTY,
   whole, under this lease and number; "outcome unknown" that a write of them was cut. These two, "ok" and
   "outcome unknown", are said exactly by the handlers that wrote, so any other answer means that this one
   did not. But for "session exited" and "not accepted", an answer is what the controller decided while the
   handler held the input lock.
   */
  lemma AnswersSayWhatWasWritten(run: seq<Sys>, n: nat, h: nat)
    requires Run(run) && n < |run| && h in run[n].handlers && run[n].handlers[h].Replied?
    ensures var Replied(r, answer) := run[n].handlers[h];
            && (answer == Ok || answer == Err(OutcomeUnknown) <==> Started(run, h, n))
            && (answer == Ok || answer == Duplicate ==> WholeIn(run[n].log, r))
            && (answer == Err(OutcomeUnknown) ==> CutIn(run[n].log, r))
            && (Started(run, h, n) ==> Told(run, h, n, r, Answer.Write))
            && (Started(run, h, n) || answer == Err(SessionOver) || answer == Err(NotAccepted)
                || Told(run, h, n, r, answer))
  {
    WhoStarted(run, n, h);
    RunsAreSound(run, n);
    assert BorneOut(run[n].log, run[n].handlers[h]);
    if ToldTo(run[n].handlers[h]).Some? {
      AnswersWereTold(run, n, h);
    }
  }
}
