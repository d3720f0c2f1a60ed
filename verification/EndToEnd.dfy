/**
 One lease from end to end: a view's send queue, the wire, and the keeper with all its other handlers,
 takeovers and handoffs. Requests and replies may be lost, what is lost to the view may still arrive, the
 send queue may be reset at any moment, and the view may take control while a request of an earlier lease
 is out. Nobody else sends under the lease's generation.
 */
module EndToEnd {
  import opened Basics
  import opened SendQueue
  import opened Leases
  import opened KeeperInput
  import ControllerSpec

  type Bytes = seq<Byte>

  /**
   The view's side of lease `g`. `acks` are the batches whose success it was told; `tries` what it has
   sent under the number after them. `kept` is what it took in, less what its own resets discarded;
   `doubt` the batch that was out when it gave control up.
   */
  datatype Side = Side(view: Holder, g: nat, kept: Bytes, acks: seq<Bytes>, tries: set<Bytes>, doubt: Option<Bytes>)

  /**
   `onWay` are the lease's requests on the wire, each under the handler number it will have; `awaited` is
   the last one sent, while its answer may still count.
   */
  datatype Joint = Joint(keeper: KeeperInput.Sys, onWay: map<nat, Request>, awaited: Option<nat>, side: Side)

  /** `h` numbers the request that goes out next, if one does. */
  datatype Action =
    | Keeper(act: KeeperInput.Action)
    | Type(bytes: Bytes, visible: bool, h: nat)
    | Deliver(h: nat)
    | Lose(h: nat)
    | RefuseBusy(h: nat)
    | Receive(pace: Pace, h: nat)
    | NetworkFails(h: nat)
    | LateAnswer(outcome: Outcome, h: nat)
    | RetryNow(h: nat)
    | Drop(reason: string)
    | ResetQueue(reason: string)

  // ---------------------------------------------------------------- how the client reads refusals

  /** The keeper's words. */
  function TextOf(r: ControllerSpec.Refusal): string {
    match r
    case AlreadyControlled => "session already controlled; " + "explicit takeover required"
    case GenerationsExhausted => "generation exhausted"
    case StaleGeneration => "stale controller generation"
    case HandoffUnavailable => "handoff unavailable"
    case HandoffExpired => "handoff expired"
    case InputUncertain => "input outcome unknown; " + "inspect session and explicitly take control again"
    case OutOfOrder => "out-of-order or conflicting input"
    case SequenceExhausted => "input sequence exhausted"
    case SessionOver => "session exited"
    case NotAccepted =>
      "earlier input is still being written: " + "the program is not reading its input; this input was not accepted"
    case OutcomeUnknown => "input outcome unknown; " + "do not automatically retry"
  }

  /** How the client tells refusals apart, by their words. */
  function OutcomeOfText(text: string): Outcome {
    if text == "stale controller generation" then Fenced
    else if "controller busy" <= text then Busy
    else Failed
  }

  /** What the client makes of this keeper's answers: none of its refusals reads as "busy". */
  function Classify(a: ControllerSpec.Answer, pace: Pace): Outcome {
    if !a.Err? then Accepted(pace) else if a.why.StaleGeneration? then Fenced else Failed
  }

  lemma OtherWords(text: string)
    requires |text| > 1 && text[0] != 'c' && (text[0] != 's' || text[1] != 't')
    ensures OutcomeOfText(text) == Failed
  {
    assert "controller busy"[0] == 'c';
    assert "stale controller generation"[0] == 's' && "stale controller generation"[1] == 't';
  }

  lemma WordsBeginOtherwise(r: ControllerSpec.Refusal)
    requires !r.StaleGeneration?
    ensures var text := TextOf(r); |text| > 1 && text[0] != 'c' && (text[0] != 's' || text[1] != 't')
  {
  }

  lemma RefusalsByTheirWords(r: ControllerSpec.Refusal, pace: Pace)
    ensures OutcomeOfText(TextOf(r)) == Classify(ControllerSpec.Err(r), pace)
  {
    if !r.StaleGeneration? {
      WordsBeginOtherwise(r);
      OtherWords(TextOf(r));
    }
  }

  // ---------------------------------------------------------------- the view's side

  /** The view still believes in the lease. */
  predicate Live(p: Side) {
    p.view.generation == p.g
  }

  predicate Waiting(p: Side) {
    p.view.client.pending.Sending?
  }

  /** What is waited for was sent under this lease, which is still believed in. */
  predicate Ours(p: Side) {
    Live(p) && Waiting(p) && p.view.sentGeneration == p.g
  }

  predicate CurrentEpoch(c: Client) {
    !c.pending.Nothing? && c.pending.epoch == c.epoch
  }

  /** How much a reset discards: all that waits, but not a request that is out in its own epoch. */
  function Discarded(c: Client): int {
    if c.pending.Sending? && CurrentEpoch(c) then c.queued - |c.pending.batch| else c.queued
  }

  function Less(s: Bytes, n: int): Bytes {
    if 0 <= n <= |s| then s[..|s| - n] else s
  }

  /** `s` without `n` bytes at `at`. */
  function Without(s: Bytes, at: nat, n: nat): Bytes {
    if at + n <= |s| then s[..at] + s[at + n..] else s
  }

  /** Success under the lease. */
  predicate Acknowledges(p: Side, e: Event) {
    Ours(p) && e.Answer? && e.outcome.Accepted?
  }

  /** A request of the lease, refused as busy after its epoch passed: known not to be written. */
  predicate DropsOut(p: Side, e: Event) {
    Ours(p) && !CurrentEpoch(p.view.client) && e.Answer? && e.outcome.Busy?
  }

  function KeptAfter(p: Side, e: Event): Bytes {
    var c := p.view.client;
    if TakesIn(c, e) then p.kept + e.bytes
    else if e.Reset? then Less(p.kept, Discarded(c))
    else if DropsOut(p, e) then Without(p.kept, |Concat(p.acks)|, |c.pending.batch|)
    else p.kept
  }

  /** What goes out under the lease for an event. */
  function SendsOut(p: Side, e: Event): Option<Request> {
    var request := Hear(p.view, e).request;
    if request.Some? && request.value.generation == p.g then request else None
  }

  /** What the view does about an event, with the accounts of the lease. */
  function Reacts(p: Side, e: Event): Side {
    var batch := if p.view.client.pending.Nothing? then [] else p.view.client.pending.batch;
    var out := SendsOut(p, e);
    p.(view := Hear(p.view, e).view,
       kept := KeptAfter(p, e),
       acks := if Acknowledges(p, e) then p.acks + [batch] else p.acks,
       tries := (if Acknowledges(p, e) then {} else p.tries) + (if out.Some? then {out.value.data} else {}),
       doubt := if GivesUp(p.view.client, e) then Some(batch) else p.doubt)
  }

  /** Control ends on the view's side; what was out is in doubt. */
  function Ended(p: Side, reason: string): Side {
    p.(view := Dropped(p.view, reason), doubt := if Ours(p) then Some(p.view.client.pending.batch) else None)
  }

  // ---------------------------------------------------------------- steps

  /** The view hears `e`; the wire was `onWay` by then, and `awaited` is still worth waiting for. */
  predicate Hears(s: Joint, e: Event, h: nat, onWay: map<nat, Request>, awaited: Option<nat>, s': Joint) {
    var out := SendsOut(s.side, e);
    if out.Some? then
      h !in onWay && h !in s.keeper.handlers
      && s' == Joint(s.keeper, onWay[h := out.value], Some(h), Reacts(s.side, e))
    else s' == Joint(s.keeper, onWay, awaited, Reacts(s.side, e))
  }

  /** Whose handlers are not the lease's: its generation and its numbers are its own. */
  predicate Foreign(s: Joint, a: KeeperInput.Action) {
    a.Arrive? ==> a.request.generation != s.side.g && a.h !in s.onWay && s.awaited != Some(a.h)
  }

  function AnswerOf(s: Joint): ControllerSpec.Answer {
    if s.awaited.Some? && s.awaited.value in s.keeper.handlers && s.keeper.handlers[s.awaited.value].Replied?
    then s.keeper.handlers[s.awaited.value].answer else ControllerSpec.Write
  }

  predicate HasAnswer(s: Joint) {
    s.awaited.Some? && s.awaited.value in s.keeper.handlers && s.keeper.handlers[s.awaited.value].Replied?
  }

  /** What the view hears in a step, if anything. */
  function EventOf(s: Joint, act: Action): Option<Event> {
    match act
    case Type(bytes, visible, _) => Some(Submit(bytes, visible && s.side.view.generation != 0))
    case RefuseBusy(_) => Some(Answer(Busy))
    case Receive(pace, _) => Some(Answer(Classify(AnswerOf(s), pace)))
    case NetworkFails(_) => Some(Answer(Failed))
    case LateAnswer(outcome, _) => Some(Answer(outcome))
    case RetryNow(_) => Some(Wake)
    case ResetQueue(reason) => Some(Reset(reason))
    case _ => None
  }

  predicate Takes(s: Joint, act: Action, s': Joint) {
    match act
    case Keeper(a) =>
      Foreign(s, a) && KeeperInput.Takes(s.keeper, a, s'.keeper) && s' == s.(keeper := s'.keeper)
    case Deliver(h) =>
      h in s.onWay && KeeperInput.Takes(s.keeper, Arrive(h, s.onWay[h]), s'.keeper)
      && s' == s.(keeper := s'.keeper, onWay := s.onWay - {h})
    case Lose(h) => h in s.onWay && s' == s.(onWay := s.onWay - {h})
    case Type(_, _, h) => Hears(s, EventOf(s, act).value, h, s.onWay, s.awaited, s')
    case RefuseBusy(h) =>
      Ours(s.side) && s.awaited.Some? && s.awaited.value in s.onWay
      && Hears(s, Answer(Busy), h, s.onWay - {s.awaited.value}, None, s')
    case Receive(_, h) => Ours(s.side) && HasAnswer(s) && Hears(s, EventOf(s, act).value, h, s.onWay, None, s')
    case NetworkFails(h) => Ours(s.side) && Hears(s, Answer(Failed), h, s.onWay, s.awaited, s')
    case LateAnswer(outcome, h) =>
      Waiting(s.side) && !Ours(s.side) && Hears(s, Answer(outcome), h, s.onWay, s.awaited, s')
    case RetryNow(h) => s.side.view.client.pending.Sleeping? && Hears(s, Wake, h, s.onWay, s.awaited, s')
    case Drop(reason) => Live(s.side) && s' == s.(side := Ended(s.side, reason))
    case ResetQueue(reason) => Hears(s, Reset(reason), 0, s.onWay, s.awaited, s')
  }

  ghost predicate GrantedOver(before: seq<KeeperInput.Sys>, op: ControllerSpec.Op, view: Option<string>,
                              k: KeeperInput.Sys, g: nat)
  {
    && KeeperInput.Run(before) && GrantedFrom(before[|before| - 1], op, view, k, g)
  }

  ghost predicate GrantedFrom(k0: KeeperInput.Sys, op: ControllerSpec.Op, view: Option<string>,
                              k: KeeperInput.Sys, g: nat)
  {
    && KeeperInput.Takes(k0, Control(op, view), k) && ControllerSpec.Do(k0.ctl, op).answer == ControllerSpec.Lease(g)
    && forall h :: h in k0.handlers ==> k0.handlers[h].request.generation != g
  }

  /** A view without control, in any state: a request of an earlier lease may be out or pausing. */
  predicate WithoutControl(v: Holder, g: nat) {
    ClientOk(v.client) && v.generation == 0 && v.sentGeneration != g
  }

  /** The lease was just granted, by a keeper as runs leave it, to a view without control. */
  ghost predicate Begins(s: Joint) {
    && s == Joint(s.keeper, map[], None, Side(s.side.view, s.side.g, [], [], {}, None))
    && (exists before, op, view :: GrantedOver(before, op, view, s.keeper, s.side.g))
    && (exists v: Holder :: WithoutControl(v, s.side.g) && s.side.view == Granted(v, s.side.g))
  }

  predicate StepAt(run: seq<Joint>, acts: seq<Action>, i: nat)
    requires |run| == |acts| + 1 && i < |acts|
  {
    Takes(run[i], acts[i], run[i + 1])
  }

  ghost predicate Run(run: seq<Joint>, acts: seq<Action>) {
    && |run| == |acts| + 1 && Begins(run[0])
    && forall i :: 0 <= i < |acts| ==> StepAt(run, acts, i)
  }

  // ---------------------------------------------------------------- one lease's writes

  function LeaseWrites(log: seq<Entry>, g: nat): (w: seq<Entry>)
    ensures forall e :: e in w ==> e in log && e.request.generation == g
  {
    if log == [] then []
    else
      LeaseWrites(log[..|log| - 1], g) + (if Last(log).request.generation == g then [Last(log)] else [])
  }

  /** What actually went out of them. */
  function Output(w: seq<Entry>): Bytes {
    if w == [] then []
    else Output(w[..|w| - 1]) + Last(w).request.data[..Min(Last(w).done, |Last(w).request.data|)]
  }

  function WritesOf(s: Joint): seq<Entry> {
    LeaseWrites(s.keeper.log, s.side.g)
  }

  lemma WritesAppended(log: seq<Entry>, e: Entry, g: nat)
    ensures LeaseWrites(log + [e], g)
            == LeaseWrites(log, g) + (if e.request.generation == g then [e] else [])
  {
    assert (log + [e])[..|log|] == log;
  }

  lemma WritesUpdated(log: seq<Entry>, e: Entry, g: nat)
    requires log != [] && e.request == Last(log).request
    ensures var w, w' := LeaseWrites(log, g), LeaseWrites(log[|log| - 1 := e], g);
            if e.request.generation == g then w != [] && Last(w) == Last(log) && w' == w[|w| - 1 := e] else w' == w
  {
    var log' := log[|log| - 1 := e];
    assert log'[..|log'| - 1] == log[..|log| - 1];
  }

  lemma {:induction false} WrittenIsLeased(log: seq<Entry>, i: nat)
    requires i < |log|
    ensures log[i] in LeaseWrites(log, log[i].request.generation)
    decreases |log|
  {
    if i < |log| - 1 {
      WrittenIsLeased(log[..|log| - 1], i);
    }
  }

  /** A lease's writes are the last in the log unless a later lease has written. */
  lemma LastOfLease(log: seq<Entry>, g: nat)
    requires LogOk(log) && LeaseWrites(log, g) != []
    ensures Last(log).request.generation >= g
    ensures Last(log).request.generation == g ==> Last(LeaseWrites(log, g)) == Last(log)
  {
    var e := LeaseWrites(log, g)[0];
    var i :| 0 <= i < |log| && log[i] == e;
    if i < |log| - 1 {
      WritesAreOrdered(log, i, |log| - 1);
    }
  }

  // ---------------------------------------------------------------- the invariant of every run

  predicate SideOk(p: Side) {
    var c := p.view.client;
    && ClientOk(c) && p.g > 0 && (p.view.generation == p.g || p.view.generation == 0)
    && (if Live(p) then
          && p.view.sequence == |p.acks| + 1
          && (Ours(p) ==> p.view.sentSequence == |p.acks| + 1 && c.pending.batch in p.tries)
          && (Waiting(p) && CurrentEpoch(c) ==> Ours(p))
        else c.queue == [] && !CurrentEpoch(c))
  }

  /** A request of the lease: numbered at most one past what is acknowledged, and there it is a try. */
  predicate RequestOk(p: Side, r: Request) {
    && r.generation == p.g && 1 <= r.sequence <= |p.acks| + 1 && |r.data| <= CHUNK_BYTES
    && (r.sequence == |p.acks| + 1 ==> r.data in p.tries)
  }

  function TheRequest(p: Side): Request
    requires Waiting(p)
  {
    Request(p.g, |p.acks| + 1, p.view.client.pending.batch)
  }

  predicate WireOk(p: Side, onWay: map<nat, Request>, handlers: map<nat, Pc>) {
    forall h :: h in onWay ==> h !in handlers && RequestOk(p, onWay[h])
  }

  predicate AwaitOk(p: Side, onWay: map<nat, Request>, awaited: Option<nat>, handlers: map<nat, Pc>) {
    Ours(p) ==>
      && awaited.Some?
      && (awaited.value in onWay ==> onWay[awaited.value] == TheRequest(p))
      && (awaited.value in handlers ==> handlers[awaited.value].request == TheRequest(p))
  }

  /** The handler says, or is about to say, that its request was written. */
  predicate Confirms(pc: Pc) {
    pc.Flushed? || pc.Noting? || (pc.Replied? && (pc.answer.Ok? || pc.answer.Duplicate?))
  }

  predicate WrittenWhole(w: seq<Entry>, r: Request) {
    1 <= r.sequence <= |w| && w[r.sequence - 1] == Entry(r, |r.data|, Whole)
  }

  predicate HandlerOk(p: Side, w: seq<Entry>, pc: Pc) {
    pc.request.generation == p.g ==>
      && RequestOk(p, pc.request) && (Confirms(pc) ==> WrittenWhole(w, pc.request))
      && (pc.Replied? ==> pc.answer.Ok? || pc.answer.Duplicate? || pc.answer.Err?)
  }

  predicate HandlersOk(p: Side, w: seq<Entry>, handlers: map<nat, Pc>) {
    forall h :: h in handlers ==> HandlerOk(p, w, handlers[h])
  }

  predicate Numbered(w: seq<Entry>) {
    forall i :: 0 <= i < |w| ==> w[i].request.sequence == i + 1
  }

  /** Acknowledged batches are there, whole and in order; at most one try for the next number follows. */
  predicate WritesFit(p: Side, w: seq<Entry>) {
    && |p.acks| <= |w| <= |p.acks| + 1 && Numbered(w)
    && (forall i :: 0 <= i < |p.acks| ==> w[i] == Entry(Request(p.g, i + 1, p.acks[i]), |p.acks[i]|, Whole))
    && (|w| > |p.acks| ==> w[|p.acks|].request.generation == p.g && w[|p.acks|].request.data in p.tries)
  }

  predicate JointOk(s: Joint) {
    && SideOk(s.side)
    && WireOk(s.side, s.onWay, s.keeper.handlers) && AwaitOk(s.side, s.onWay, s.awaited, s.keeper.handlers)
    && HandlersOk(s.side, WritesOf(s), s.keeper.handlers) && WritesFit(s.side, WritesOf(s))
  }

  ghost predicate Inv(s: Joint) {
    KeeperInput.Inv(s.keeper) && JointOk(s)
  }

  // ---------------------------------------------------------------- the keeper's steps

  lemma HandlersFrame(p: Side, w: seq<Entry>, handlers: map<nat, Pc>, h: nat, pc: Pc)
    requires HandlersOk(p, w, handlers) && HandlerOk(p, w, pc)
    ensures HandlersOk(p, w, handlers[h := pc])
  {
  }

  /** Steps of one handler that leave the log alone. */
  lemma HandlerMoves(s: Joint, h: nat, pc: Pc, k': KeeperInput.Sys)
    requires JointOk(s) && h in s.keeper.handlers && pc.request == s.keeper.handlers[h].request
    requires k'.handlers == s.keeper.handlers[h := pc] && k'.log == s.keeper.log
    requires HandlerOk(s.side, WritesOf(s), pc)
    ensures JointOk(s.(keeper := k'))
  {
    HandlersFrame(s.side, WritesOf(s), s.keeper.handlers, h, pc);
  }

  /** What the steps of a handler outside deciding and writing are. */
  lemma HandlerEffect(k: KeeperInput.Sys, act: KeeperInput.Action, k': KeeperInput.Sys)
    requires KeeperInput.Takes(k, act, k')
    requires act.SessionExited? || act.TakeInput? || act.GiveUp? || act.Record? || act.Note?
    ensures act.h in k.handlers && act.h in k'.handlers && !k.handlers[act.h].Replied?
    ensures k'.handlers == k.handlers[act.h := k'.handlers[act.h]] && k'.log == k.log
    ensures var pc, pc' := k.handlers[act.h], k'.handlers[act.h];
            && pc'.request == pc.request && (Confirms(pc') ==> Confirms(pc))
            && (pc'.Replied? ==> pc'.answer.Ok? || (pc'.answer.Err? && !pc'.answer.why.OutOfOrder?))
  {
  }

  lemma HandlerStep(s: Joint, act: KeeperInput.Action, s': Joint)
    requires JointOk(s) && Takes(s, Keeper(act), s')
    requires act.SessionExited? || act.TakeInput? || act.GiveUp? || act.Record? || act.Note?
    ensures JointOk(s')
  {
    HandlerEffect(s.keeper, act, s'.keeper);
    assert HandlerOk(s.side, WritesOf(s), s.keeper.handlers[act.h]);
    HandlerMoves(s, act.h, s'.keeper.handlers[act.h], s'.keeper);
  }

  /** An entry of the lease's writes is found at its own number. */
  lemma FoundAtItsNumber(w: seq<Entry>, e: Entry)
    requires Numbered(w) && e in w && e.status.Whole? && e.done == |e.request.data|
    ensures WrittenWhole(w, e.request)
  {
    var i :| 0 <= i < |w| && w[i] == e;
  }

  lemma DuplicateIsWritten(s: Joint, r: Request)
    requires Inv(s) && r.generation == s.side.g
    requires ControllerSpec.Prepare(s.keeper.ctl, r.generation, r.sequence, r.data).answer.Duplicate?
    ensures WrittenWhole(WritesOf(s), r)
  {
    var i := LoggedWhole(s.keeper, r);
    WrittenIsLeased(s.keeper.log, i);
    FoundAtItsNumber(WritesOf(s), s.keeper.log[i]);
  }

  lemma LoggedWhole(k: KeeperInput.Sys, r: Request) returns (i: nat)
    requires KeeperInput.Inv(k)
    requires ControllerSpec.Prepare(k.ctl, r.generation, r.sequence, r.data).answer.Duplicate?
    ensures i < |k.log| && k.log[i] == Entry(r, |r.data|, Whole)
  {
    assert Logged(k.log, k.ctl.generation, ControllerSpec.Input(r.sequence, r.data));
    i :| 0 <= i < |k.log| && k.log[i].status.Whole? && k.log[i].request == r;
  }

  lemma DecideStep(s: Joint, h: nat, s': Joint)
    requires Inv(s) && Takes(s, Keeper(Decide(h)), s')
    ensures JointOk(s')
  {
    var r := s.keeper.handlers[h].request;
    if r.generation == s.side.g
       && ControllerSpec.Prepare(s.keeper.ctl, r.generation, r.sequence, r.data).answer.Duplicate? {
      DuplicateIsWritten(s, r);
    }
    DecidedStep(s, h, s');
  }

  lemma DecidedStep(s: Joint, h: nat, s': Joint)
    requires JointOk(s) && Takes(s, Keeper(Decide(h)), s')
    requires var r := s.keeper.handlers[h].request;
             && r.generation == s.side.g
             && ControllerSpec.Prepare(s.keeper.ctl, r.generation, r.sequence, r.data).answer.Duplicate?
             ==> WrittenWhole(WritesOf(s), r)
    ensures JointOk(s')
  {
    assert HandlerOk(s.side, WritesOf(s), s.keeper.handlers[h]);
    HandlerMoves(s, h, s'.keeper.handlers[h], s'.keeper);
  }

  /** A strange handler arriving, a control operation, or presence: nothing of the lease's is touched. */
  lemma ForeignStep(s: Joint, act: KeeperInput.Action, s': Joint)
    requires JointOk(s) && Takes(s, Keeper(act), s')
    requires act.Arrive? || act.Control? || act.PayPresence?
    ensures JointOk(s')
  {
    if act.Arrive? {
      HandlersFrame(s.side, WritesOf(s), s.keeper.handlers, act.h, Arrived(act.request));
    }
  }

  /** Handlers that confirmed go on confirming while the writes they confirmed stay. */
  /** What was written whole is where it was. */
  predicate WholeStays(w: seq<Entry>, w': seq<Entry>) {
    |w| <= |w'| && forall i :: 0 <= i < |w| && w[i].status.Whole? ==> w'[i] == w[i]
  }

  lemma HandlersOutlive(p: Side, w: seq<Entry>, w': seq<Entry>, handlers: map<nat, Pc>)
    requires HandlersOk(p, w, handlers) && WholeStays(w, w')
    ensures HandlersOk(p, w', handlers)
  {
    forall h | h in handlers ensures HandlerOk(p, w', handlers[h]) {
      assert HandlerOk(p, w, handlers[h]);
    }
  }

  /** Steps of one handler that change the log: only the lease's own handler changes its writes. */
  lemma LogMoves(s: Joint, h: nat, k': KeeperInput.Sys, w': seq<Entry>)
    requires JointOk(s) && h in s.keeper.handlers && h in k'.handlers && w' == LeaseWrites(k'.log, s.side.g)
    requires k'.handlers == s.keeper.handlers[h := k'.handlers[h]]
    requires k'.handlers[h].request == s.keeper.handlers[h].request
    requires WritesFit(s.side, w') && WholeStays(WritesOf(s), w')
    requires HandlerOk(s.side, w', k'.handlers[h])
    ensures JointOk(s.(keeper := k'))
  {
    HandlersOutlive(s.side, WritesOf(s), w', s.keeper.handlers);
    HandlersFrame(s.side, w', s.keeper.handlers, h, k'.handlers[h]);
  }

  /** A write that may begin has the number after the lease's writes so far. */
  lemma NextNumber(log: seq<Entry>, r: Request)
    requires LogOk(log) && MayFollow(log, r) && Numbered(LeaseWrites(log, r.generation))
    ensures r.sequence == |LeaseWrites(log, r.generation)| + 1
  {
    var w := LeaseWrites(log, r.generation);
    if w != [] {
      LastOfLease(log, r.generation);
    }
  }

  lemma PreparedMayFollow(k: KeeperInput.Sys, h: nat)
    requires KeeperInput.Inv(k) && h in k.handlers && k.handlers[h].Prepared?
    ensures LogOk(k.log) && MayFollow(k.log, k.handlers[h].request)
  {
  }

  lemma StartEffect(k: KeeperInput.Sys, h: nat, k': KeeperInput.Sys)
    requires KeeperInput.Takes(k, StartWrite(h), k')
    ensures h in k.handlers && k.handlers[h].Prepared?
    ensures k'.handlers == k.handlers[h := Writing(k.handlers[h].request)]
    ensures k'.log == k.log + [Entry(k.handlers[h].request, 0, Going)]
  {
  }

  lemma StartStep(s: Joint, h: nat, s': Joint)
    requires Inv(s) && Takes(s, Keeper(StartWrite(h)), s')
    ensures JointOk(s')
  {
    StartEffect(s.keeper, h, s'.keeper);
    PreparedMayFollow(s.keeper, h);
    EntryBegins(s, h, s'.keeper);
  }

  lemma EntryBegins(s: Joint, h: nat, k': KeeperInput.Sys)
    requires JointOk(s) && h in s.keeper.handlers
    requires LogOk(s.keeper.log) && MayFollow(s.keeper.log, s.keeper.handlers[h].request)
    requires k'.handlers == s.keeper.handlers[h := Writing(s.keeper.handlers[h].request)]
    requires k'.log == s.keeper.log + [Entry(s.keeper.handlers[h].request, 0, Going)]
    ensures JointOk(s.(keeper := k'))
  {
    var r := s.keeper.handlers[h].request;
    assert HandlerOk(s.side, WritesOf(s), s.keeper.handlers[h]);
    WritesWithANewEntry(s.side, s.keeper.log, r);
    LogMoves(s, h, k', LeaseWrites(k'.log, s.side.g));
  }

  lemma WritesWithANewEntry(p: Side, log: seq<Entry>, r: Request)
    requires LogOk(log) && MayFollow(log, r) && WritesFit(p, LeaseWrites(log, p.g))
    requires r.generation == p.g ==> RequestOk(p, r)
    ensures var w' := LeaseWrites(log + [Entry(r, 0, Going)], p.g);
            WritesFit(p, w') && WholeStays(LeaseWrites(log, p.g), w')
  {
    WritesAppended(log, Entry(r, 0, Going), p.g);
    if r.generation == p.g {
      NextNumber(log, r);
      NewEntryFits(p, LeaseWrites(log, p.g), r);
    }
  }

  lemma NewEntryFits(p: Side, w: seq<Entry>, r: Request)
    requires WritesFit(p, w) && RequestOk(p, r) && r.sequence == |w| + 1
    ensures WritesFit(p, w + [Entry(r, 0, Going)])
  {
  }

  lemma WritingIsLast(k: KeeperInput.Sys, h: nat)
    requires KeeperInput.Inv(k) && h in k.handlers && k.handlers[h].Writing?
    ensures k.log != [] && Last(k.log).request == k.handlers[h].request && Last(k.log).status.Going?
  {
  }

  /** What the steps of a write are: the open entry grows, is closed whole, or is cut. */
  lemma WriteEffect(k: KeeperInput.Sys, act: KeeperInput.Action, k': KeeperInput.Sys)
    requires KeeperInput.Takes(k, act, k') && (act.WriteSome? || act.WriteDone? || act.WriteFails?)
    requires k.log != [] && act.h in k.handlers && Last(k.log).request == k.handlers[act.h].request
    ensures k'.log != [] && k'.log == k.log[|k.log| - 1 := Last(k'.log)] && act.h in k'.handlers
    ensures Last(k'.log).request == k.handlers[act.h].request == k'.handlers[act.h].request
    ensures k'.handlers == k.handlers[act.h := k'.handlers[act.h]]
    ensures Confirms(k'.handlers[act.h]) ==>
              Last(k'.log) == Entry(k.handlers[act.h].request, |k.handlers[act.h].request.data|, Whole)
    ensures k'.handlers[act.h].Replied? ==>
              k'.handlers[act.h].answer.Err? && !k'.handlers[act.h].answer.why.OutOfOrder?
  {
  }

  lemma WriteStep(s: Joint, act: KeeperInput.Action, s': Joint)
    requires JointOk(s) && Takes(s, Keeper(act), s') && (act.WriteSome? || act.WriteDone? || act.WriteFails?)
    requires s.keeper.log != [] && act.h in s.keeper.handlers
    requires Last(s.keeper.log).request == s.keeper.handlers[act.h].request && Last(s.keeper.log).status.Going?
    ensures JointOk(s')
  {
    WriteEffect(s.keeper, act, s'.keeper);
    EntryMoves(s, act.h, s'.keeper);
  }

  lemma EntryMoves(s: Joint, h: nat, k': KeeperInput.Sys)
    requires JointOk(s) && s.keeper.log != [] && h in s.keeper.handlers && h in k'.handlers && k'.log != []
    requires Last(s.keeper.log).request == s.keeper.handlers[h].request && Last(s.keeper.log).status.Going?
    requires k'.log == s.keeper.log[|s.keeper.log| - 1 := Last(k'.log)]
    requires k'.handlers == s.keeper.handlers[h := k'.handlers[h]]
    requires Last(k'.log).request == s.keeper.handlers[h].request == k'.handlers[h].request
    requires var r := s.keeper.handlers[h].request;
             Confirms(k'.handlers[h]) ==> Last(k'.log) == Entry(r, |r.data|, Whole)
    requires k'.handlers[h].Replied? ==> k'.handlers[h].answer.Err?
    ensures JointOk(s.(keeper := k'))
  {
    assert HandlerOk(s.side, WritesOf(s), s.keeper.handlers[h]);
    OpenEntryMoves(s.side, s.keeper.log, Last(k'.log));
    LogMoves(s, h, k', LeaseWrites(k'.log, s.side.g));
  }

  /** The open entry, of whichever lease, goes on or is settled. */
  lemma OpenEntryMoves(p: Side, log: seq<Entry>, e: Entry)
    requires log != [] && e.request == Last(log).request && Last(log).status.Going?
    requires WritesFit(p, LeaseWrites(log, p.g))
    ensures var w, w' := LeaseWrites(log, p.g), LeaseWrites(log[|log| - 1 := e], p.g);
            && WritesFit(p, w') && WholeStays(w, w')
            && (e.request.generation == p.g && e == Entry(e.request, |e.request.data|, Whole) ==>
                  WrittenWhole(w', e.request))
  {
    WritesUpdated(log, e, p.g);
    if e.request.generation == p.g {
      OpenEntryFits(p, LeaseWrites(log, p.g), e);
    }
  }

  lemma OpenEntryFits(p: Side, w: seq<Entry>, e: Entry)
    requires WritesFit(p, w) && w != [] && Last(w).status.Going? && e.request == Last(w).request
    ensures WritesFit(p, w[|w| - 1 := e])
    ensures e == Entry(e.request, |e.request.data|, Whole) ==> WrittenWhole(w[|w| - 1 := e], e.request)
  {
  }

  lemma KeeperStep(s: Joint, act: KeeperInput.Action, s': Joint)
    requires Inv(s) && Takes(s, Keeper(act), s')
    ensures JointOk(s')
  {
    if act.Decide? {
      DecideStep(s, act.h, s');
    } else if act.StartWrite? {
      StartStep(s, act.h, s');
    } else if act.WriteSome? || act.WriteDone? || act.WriteFails? {
      WritingIsLast(s.keeper, act.h);
      WriteStep(s, act, s');
    } else if act.Arrive? || act.Control? || act.PayPresence? {
      ForeignStep(s, act, s');
    } else {
      HandlerStep(s, act, s');
    }
  }

  // ---------------------------------------------------------------- the view's steps

  /** What may be heard when: answers to what is out, wakes of what pauses, typing only with control. */
  predicate Heeds(p: Side, e: Event) {
    && (e.Submit? && e.canSend ==> p.view.generation != 0)
    && (e.Answer? ==> Waiting(p))
    && (e.Wake? ==> p.view.client.pending.Sleeping?)
  }

  lemma SideReacts(p: Side, e: Event)
    requires SideOk(p) && Heeds(p, e)
    ensures SideOk(Reacts(p, e))
  {
    EventsKeepClient(p.view.client, e);
    RequestShape(p.view.client, e);
    if !Live(p) {
      EmptyStaysEmpty(p.view.client, e);
    } else if Handle(p.view.client, e).request.Some? {
      RequestsBelongToTheirEpoch(p.view.client, e);
    }
  }

  /** A client with an empty queue and at most a stale delivery out starts nothing of its own. */
  lemma EmptyStaysEmpty(c: Client, e: Event)
    requires ClientOk(c) && c.queue == [] && !CurrentEpoch(c) && (e.Submit? ==> !e.canSend)
    ensures var t := Handle(c, e);
            && t.client.queue == [] && (t.request.Some? ==> e.Wake?)
            && !CurrentEpoch(t.client) && !TakesIn(c, e) && !GivesUp(c, e)
  {
  }

  /** What goes out under the lease is its next request, and a try. */
  lemma SentIsTheRequest(p: Side, e: Event)
    requires SideOk(p) && Heeds(p, e) && SendsOut(p, e).Some?
    ensures Ours(Reacts(p, e)) && SendsOut(p, e) == Some(TheRequest(Reacts(p, e)))
    ensures RequestOk(Reacts(p, e), SendsOut(p, e).value)
  {
    SideReacts(p, e);
    RequestShape(p.view.client, e);
  }

  /** Without a request going out, what is waited for under the lease is what was. */
  lemma StillOurs(p: Side, e: Event)
    requires SideOk(p) && Heeds(p, e) && SendsOut(p, e).None? && Ours(Reacts(p, e))
    ensures Ours(p) && !e.Answer? && TheRequest(Reacts(p, e)) == TheRequest(p)
  {
    RequestShape(p.view.client, e);
  }

  /** What the lease has sent stays in order through what the view does, told of nothing but the truth. */
  lemma RequestsOutlive(p: Side, e: Event, r: Request)
    requires RequestOk(p, r)
    ensures RequestOk(Reacts(p, e), r)
  {
  }

  lemma TriedMore(p: Side, w: seq<Entry>, p': Side)
    requires WritesFit(p, w) && p'.g == p.g && p'.acks == p.acks && p.tries <= p'.tries
    ensures WritesFit(p', w)
  {
  }

  lemma AckedMore(p: Side, w: seq<Entry>, data: seq<Byte>, p': Side)
    requires WritesFit(p, w) && p'.g == p.g && p'.acks == p.acks + [data]
    requires WrittenWhole(w, Request(p.g, |p.acks| + 1, data))
    ensures WritesFit(p', w)
  {
  }

  lemma WritesOutlive(p: Side, e: Event, w: seq<Entry>)
    requires SideOk(p) && WritesFit(p, w)
    requires Acknowledges(p, e) ==> WrittenWhole(w, TheRequest(p))
    ensures WritesFit(Reacts(p, e), w)
  {
    if Acknowledges(p, e) {
      AckedMore(p, w, p.view.client.pending.batch, Reacts(p, e));
    } else {
      TriedMore(p, w, Reacts(p, e));
    }
  }

  lemma HandlersOutliveEvents(p: Side, e: Event, w: seq<Entry>, handlers: map<nat, Pc>)
    requires HandlersOk(p, w, handlers)
    ensures HandlersOk(Reacts(p, e), w, handlers)
  {
    var p' := Reacts(p, e);
    forall h | h in handlers ensures HandlerOk(p', w, handlers[h]) {
      assert HandlerOk(p, w, handlers[h]);
      if handlers[h].request.generation == p.g {
        RequestsOutlive(p, e, handlers[h].request);
      }
    }
  }

  lemma WireOutlives(p: Side, e: Event, onWay: map<nat, Request>, onWay': map<nat, Request>, handlers: map<nat, Pc>)
    requires WireOk(p, onWay, handlers) && onWay'.Keys <= onWay.Keys
    requires forall h :: h in onWay' ==> onWay'[h] == onWay[h]
    ensures WireOk(Reacts(p, e), onWay', handlers)
  {
    forall h | h in onWay' ensures h !in handlers && RequestOk(Reacts(p, e), onWay'[h]) {
      assert h in onWay;
      RequestsOutlive(p, e, onWay[h]);
    }
  }

  lemma HeardStep(s: Joint, e: Event, h: nat, onWay: map<nat, Request>, awaited: Option<nat>, s': Joint)
    requires JointOk(s) && Heeds(s.side, e) && Hears(s, e, h, onWay, awaited, s')
    requires onWay.Keys <= s.onWay.Keys && forall x :: x in onWay ==> onWay[x] == s.onWay[x]
    requires !e.Answer? ==> awaited == s.awaited && onWay == s.onWay
    requires Acknowledges(s.side, e) ==> WrittenWhole(WritesOf(s), TheRequest(s.side))
    ensures JointOk(s')
  {
    SideReacts(s.side, e);
    WritesOutlive(s.side, e, WritesOf(s));
    HandlersOutliveEvents(s.side, e, WritesOf(s), s.keeper.handlers);
    WireOutlives(s.side, e, s.onWay, onWay, s.keeper.handlers);
    if SendsOut(s.side, e).Some? {
      SentIsTheRequest(s.side, e);
    } else if Ours(s'.side) {
      StillOurs(s.side, e);
    }
  }

  /** An answer that counts as success means the request was written. */
  lemma SuccessIsWritten(s: Joint, pace: Pace)
    requires JointOk(s) && Ours(s.side) && HasAnswer(s) && Classify(AnswerOf(s), pace).Accepted?
    ensures WrittenWhole(WritesOf(s), TheRequest(s.side))
  {
    assert HandlerOk(s.side, WritesOf(s), s.keeper.handlers[s.awaited.value]);
  }

  lemma ViewStep(s: Joint, act: Action, s': Joint)
    requires JointOk(s) && Takes(s, act, s') && EventOf(s, act).Some?
    ensures JointOk(s')
  {
    var e := EventOf(s, act).value;
    match act {
      case Type(_, _, h) => HeardStep(s, e, h, s.onWay, s.awaited, s');
      case RefuseBusy(h) => HeardStep(s, e, h, s.onWay - {s.awaited.value}, None, s');
      case Receive(pace, h) => ReceiveStep(s, pace, h, s');
      case NetworkFails(h) => HeardStep(s, e, h, s.onWay, s.awaited, s');
      case LateAnswer(_, h) => HeardStep(s, e, h, s.onWay, s.awaited, s');
      case RetryNow(h) => HeardStep(s, e, h, s.onWay, s.awaited, s');
      case ResetQueue(_) => HeardStep(s, e, 0, s.onWay, s.awaited, s');
    }
  }

  lemma ReceiveStep(s: Joint, pace: Pace, h: nat, s': Joint)
    requires JointOk(s) && Takes(s, Receive(pace, h), s')
    ensures JointOk(s')
  {
    if Classify(AnswerOf(s), pace).Accepted? {
      SuccessIsWritten(s, pace);
    }
    HeardStep(s, EventOf(s, Receive(pace, h)).value, h, s.onWay, None, s');
  }

  lemma DropStep(s: Joint, reason: string, s': Joint)
    requires JointOk(s) && Takes(s, Drop(reason), s')
    ensures JointOk(s')
  {
    var p, p' := s.side, s'.side;
    EventsKeepClient(p.view.client, Reset(reason));
    forall h | h in s.keeper.handlers ensures HandlerOk(p', WritesOf(s), s.keeper.handlers[h]) {
      assert HandlerOk(p, WritesOf(s), s.keeper.handlers[h]);
    }
  }

  lemma DeliverStep(s: Joint, h: nat, s': Joint)
    requires JointOk(s) && Takes(s, Deliver(h), s')
    ensures JointOk(s')
  {
    HandlersFrame(s.side, WritesOf(s), s.keeper.handlers, h, Arrived(s.onWay[h]));
  }

  lemma OtherStep(s: Joint, act: Action, s': Joint)
    requires JointOk(s) && Takes(s, act, s') && (act.Deliver? || act.Lose? || act.Drop?)
    ensures JointOk(s')
  {
    match act {
      case Deliver(h) => DeliverStep(s, h, s');
      case Lose(_) =>
      case Drop(reason) => DropStep(s, reason, s');
    }
  }

  lemma JointStep(s: Joint, act: Action, s': Joint)
    requires Inv(s) && Takes(s, act, s')
    ensures JointOk(s')
  {
    if act.Keeper? {
      KeeperStep(s, act.act, s');
    } else if EventOf(s, act).Some? {
      ViewStep(s, act, s');
    } else {
      OtherStep(s, act, s');
    }
  }

  lemma KeeperStays(s: Joint, act: Action, s': Joint)
    requires KeeperInput.Inv(s.keeper) && Takes(s, act, s')
    ensures KeeperInput.Inv(s'.keeper)
  {
    match act {
      case Keeper(a) => KeeperInput.StepKeepsInvariant(s.keeper, a, s'.keeper);
      case Deliver(h) => KeeperInput.StepKeepsInvariant(s.keeper, Arrive(h, s.onWay[h]), s'.keeper);
      case _ => assert s'.keeper == s.keeper;
    }
  }

  lemma StepKeepsInvariant(s: Joint, act: Action, s': Joint)
    requires Inv(s) && Takes(s, act, s')
    ensures Inv(s')
  {
    JointStep(s, act, s');
    KeeperStays(s, act, s');
  }

  // ---------------------------------------------------------------- runs

  lemma NoWritesYet(log: seq<Entry>, g: nat)
    requires forall i :: 0 <= i < |log| ==> log[i].request.generation < g
    ensures LeaseWrites(log, g) == []
  {
    assert LeaseWrites(log, g) != [] ==> LeaseWrites(log, g)[0] in log;
  }

  lemma GrantsAreNew(c: ControllerSpec.Ctl, op: ControllerSpec.Op)
    requires ControllerSpec.Do(c, op).answer.Lease?
    ensures ControllerSpec.Do(c, op).answer.generation == c.generation + 1
  {
  }

  lemma LogIsBehind(k: KeeperInput.Sys)
    requires KeeperInput.Inv(k)
    ensures forall i :: 0 <= i < |k.log| ==> k.log[i].request.generation <= k.ctl.generation
  {
  }

  lemma GrantedKeeper(k0: KeeperInput.Sys, op: ControllerSpec.Op, view: Option<string>, k: KeeperInput.Sys, g: nat)
    requires KeeperInput.Inv(k0) && GrantedFrom(k0, op, view, k, g)
    ensures KeeperInput.Inv(k) && g > 0 && k.handlers == k0.handlers && LeaseWrites(k.log, g) == []
  {
    LogIsBehind(k0);
    GrantsAreNew(k0.ctl, op);
    NoWritesYet(k0.log, g);
    KeeperInput.StepKeepsInvariant(k0, Control(op, view), k);
  }

  lemma NewSide(v: Holder, g: nat)
    requires WithoutControl(v, g) && g > 0
    ensures var p := Side(Granted(v, g), g, [], [], {}, None);
            SideOk(p) && Live(p) && !Ours(p) && p.view.client.queue == [] && !CurrentEpoch(p.view.client)
  {
    EventsKeepClient(v.client, Reset("reset"));
  }

  lemma BeginsWell(s: Joint)
    requires Begins(s)
    ensures Inv(s) && WritesOf(s) == [] && Live(s.side) && !Ours(s.side) && s.side.view.client.queue == []
    ensures forall h :: h in s.keeper.handlers ==> s.keeper.handlers[h].request.generation != s.side.g
  {
    var before, op, view :| GrantedOver(before, op, view, s.keeper, s.side.g);
    KeeperInput.RunsKeepInvariant(before, |before| - 1);
    var v: Holder :| WithoutControl(v, s.side.g) && s.side.view == Granted(v, s.side.g);
    GrantedWell(s, before[|before| - 1], op, view, v);
  }

  lemma GrantedWell(s: Joint, k0: KeeperInput.Sys, op: ControllerSpec.Op, view: Option<string>, v: Holder)
    requires KeeperInput.Inv(k0) && GrantedFrom(k0, op, view, s.keeper, s.side.g) && WithoutControl(v, s.side.g)
    requires s == Joint(s.keeper, map[], None, Side(Granted(v, s.side.g), s.side.g, [], [], {}, None))
    ensures Inv(s) && WritesOf(s) == [] && Live(s.side) && !Ours(s.side) && s.side.view.client.queue == []
    ensures forall h :: h in s.keeper.handlers ==> s.keeper.handlers[h].request.generation != s.side.g
  {
    GrantedKeeper(k0, op, view, s.keeper, s.side.g);
    NewSide(v, s.side.g);
  }

  lemma StepOfRun(run: seq<Joint>, acts: seq<Action>, n: nat)
    requires |run| == |acts| + 1 && 0 < n < |run| && StepAt(run, acts, n - 1) && Inv(run[n - 1])
    ensures Inv(run[n])
  {
    StepKeepsInvariant(run[n - 1], acts[n - 1], run[n]);
  }

  lemma {:induction false} RunsKeepInvariant(run: seq<Joint>, acts: seq<Action>, n: nat)
    requires Run(run, acts) && n < |run|
    ensures Inv(run[n])
  {
    if n == 0 {
      BeginsWell(run[0]);
    } else {
      RunsKeepInvariant(run, acts, n - 1);
      StepOfRun(run, acts, n);
    }
  }

  // ---------------------------------------------------------------- what every run guarantees

  /** The acknowledged batches, whole and in order, then at most one try for the next number, whole or cut. */
  predicate AckedThenOneTry(p: Side, w: seq<Entry>) {
    && WritesFit(p, w) && Concat(p.acks) <= Output(w)
    && (|w| == |p.acks| ==> Output(w) == Concat(p.acks))
    && (|w| > |p.acks| ==> Output(w) <= Concat(p.acks) + w[|p.acks|].request.data)
  }

  lemma {:induction false} OutputOfAcks(p: Side, w: seq<Entry>, n: nat)
    requires WritesFit(p, w) && n <= |p.acks|
    ensures Output(w[..n]) == Concat(p.acks[..n])
  {
    if n > 0 {
      OutputOfAcks(p, w, n - 1);
      assert w[..n][..n - 1] == w[..n - 1];
      assert p.acks[..n] == p.acks[..n - 1] + [p.acks[n - 1]];
      ConcatAppend(p.acks[..n - 1], [p.acks[n - 1]]);
      ConcatOne(p.acks[n - 1]);
    }
  }

  lemma FittingIsAcked(p: Side, w: seq<Entry>)
    requires WritesFit(p, w)
    ensures AckedThenOneTry(p, w)
  {
    OutputOfAcks(p, w, |p.acks|);
    assert p.acks[..|p.acks|] == p.acks;
    if |w| == |p.acks| {
      assert w[..|p.acks|] == w;
    } else {
      assert w[..|w| - 1] == w[..|p.acks|];
    }
  }

  /**
   What a lease puts into the PTY, whatever is lost, reset, retried or taken over, and whatever was out when
   it began: the batches acknowledged to its view, whole and in order, and after them at most one of those
   sent under the next number.
   */
  lemma AcknowledgedIsWritten(run: seq<Joint>, acts: seq<Action>, n: nat)
    requires Run(run, acts) && n < |run|
    ensures AckedThenOneTry(run[n].side, WritesOf(run[n]))
  {
    RunsKeepInvariant(run, acts, n);
    FittingIsAcked(run[n].side, WritesOf(run[n]));
  }

  /** A keeper that is free to take the lease's next input. */
  predicate ReadyForNext(k: KeeperInput.Sys, g: nat) {
    k.ctl.active && k.ctl.generation == g && !k.ctl.uncertain && Flight(k).None?
  }

  /** It has counted exactly the lease's writes, all of them whole. */
  lemma LastIsCount(k: KeeperInput.Sys, g: nat)
    requires KeeperInput.Inv(k) && k.ctl.generation == g && Flight(k).None? && Numbered(LeaseWrites(k.log, g))
    ensures k.ctl.last == |LeaseWrites(k.log, g)|
  {
    var w := LeaseWrites(k.log, g);
    LogIsBehind(k);
    assert k.ctl.last == LastWritten(k.ctl, k.log);
    if w != [] {
      LastOfLease(k.log, g);
    }
  }

  lemma RememberedIsWritten(k: KeeperInput.Sys, g: nat)
    requires KeeperInput.Inv(k) && ReadyForNext(k, g) && Numbered(LeaseWrites(k.log, g)) && LeaseWrites(k.log, g) != []
    ensures var recent, w := k.ctl.recent, LeaseWrites(k.log, g);
            recent != [] && Last(w).request.data == recent[|recent| - 1].data
  {
    LastIsCount(k, g);
    var x := k.ctl.recent[|k.ctl.recent| - 1];
    assert x in k.ctl.recent;
    assert Logged(k.log, g, x);
    var i :| 0 <= i < |k.log| && k.log[i].status.Whole? && k.log[i].request == Request(g, x.sequence, x.data);
    WrittenIsLeased(k.log, i);
    FoundAtItsNumber(LeaseWrites(k.log, g), k.log[i]);
  }

  /** What a free keeper says to the input numbered `sequence`, at most one past what it has counted. */
  lemma NextAnswer(c: ControllerSpec.Ctl, sequence: nat, data: Bytes)
    requires ControllerSpec.WindowOk(c) && c.active && !c.uncertain && 0 < sequence && c.last <= sequence <= c.last + 1
    ensures var a := ControllerSpec.Prepare(c, c.generation, sequence, data).answer;
            && (a.Duplicate? <==> sequence == c.last && c.recent != [] && c.recent[|c.recent| - 1].data == data)
            && (a == ControllerSpec.Err(ControllerSpec.OutOfOrder) <==> sequence == c.last && !a.Duplicate?)
            && (sequence == c.last + 1 ==> a.Write? || a == ControllerSpec.Err(ControllerSpec.SequenceExhausted))
  {
    if sequence == c.last {
      ControllerSpec.RecentInputsAreRecognised(c, sequence, data);
    }
  }

  /**
   Over any run, resets included: a keeper free to take the lease's next input answers the view's next
   request "out-of-order" or "duplicate" exactly when a write of the lease was never heard of by its view;
   "duplicate" exactly when these are the very bytes. Otherwise it writes.
   */
  lemma ConflictsExactlyWhenUnheard(run: seq<Joint>, acts: seq<Action>, n: nat, data: Bytes)
    requires Run(run, acts) && n < |run| && Live(run[n].side) && ReadyForNext(run[n].keeper, run[n].side.g)
    ensures var s := run[n];
            var w, sequence := WritesOf(s), s.side.view.sequence;
            var a := ControllerSpec.Prepare(s.keeper.ctl, s.side.g, sequence, data).answer;
            && sequence == |s.side.acks| + 1
            && (a.Duplicate? || a == ControllerSpec.Err(ControllerSpec.OutOfOrder) <==> |w| >= sequence)
            && (a.Duplicate? <==> |w| >= sequence && w[sequence - 1].request.data == data)
            && (|w| < sequence ==> a.Write? || a == ControllerSpec.Err(ControllerSpec.SequenceExhausted))
  {
    RunsKeepInvariant(run, acts, n);
    NextRequestAnswered(run[n], data);
  }

  lemma NextRequestAnswered(s: Joint, data: Bytes)
    requires Inv(s) && Live(s.side) && ReadyForNext(s.keeper, s.side.g)
    ensures var w, sequence := WritesOf(s), s.side.view.sequence;
            var a := ControllerSpec.Prepare(s.keeper.ctl, s.side.g, sequence, data).answer;
            && sequence == |s.side.acks| + 1 && |w| <= sequence
            && (a.Duplicate? || a == ControllerSpec.Err(ControllerSpec.OutOfOrder) <==> |w| >= sequence)
            && (a.Duplicate? <==> |w| >= sequence && w[sequence - 1].request.data == data)
            && (|w| < sequence ==> a.Write? || a == ControllerSpec.Err(ControllerSpec.SequenceExhausted))
  {
    var k := s.keeper;
    LastIsCount(k, s.side.g);
    assert ControllerSpec.WindowOk(k.ctl);
    if WritesOf(s) != [] {
      RememberedIsWritten(k, s.side.g);
    }
    NextAnswer(k.ctl, s.side.view.sequence, data);
  }

  /**
   A keeper that did not accept an input says so in words its client does not know as "busy": the client
   takes the outcome for unknown, gives control up, and never sends those bytes again.
   */
  lemma ARefusalIsTakenForUnknown(p: Side, pace: Pace)
    requires SideOk(p) && Live(p) && Waiting(p) && CurrentEpoch(p.view.client)
    ensures OutcomeOfText(TextOf(ControllerSpec.NotAccepted)) == Failed
    ensures var p' := Reacts(p, Answer(Classify(ControllerSpec.Err(ControllerSpec.NotAccepted), pace)));
            !Live(p') && p'.doubt == Some(p.view.client.pending.batch) && p'.view.client.queue == []
  {
    RefusalsByTheirWords(ControllerSpec.NotAccepted, pace);
  }
}
