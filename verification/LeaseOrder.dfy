/**
 The order of one lease's bytes. As long as no request whose epoch a reset ended is left unheard, and no
 pause of a past epoch runs out, what a lease puts into the PTY is a beginning of what its view took in and
 kept, and the keeper finds nothing out of order.
 */
module LeaseOrder {
  import opened Basics
  import opened SendQueue
  import opened Leases
  import opened KeeperInput
  import opened EndToEnd
  import ControllerSpec

  /**
   What a caller sees of the two ways out of order: a delivery under the lease ends neither in success nor
   as busy after its queue was reset, or a pause from before a reset (or from an earlier lease) runs out.
   */
  predicate Orderly(p: Side, e: Event) {
    Live(p) && !CurrentEpoch(p.view.client) ==>
      && !(e.Wake? && p.view.client.pending.Sleeping?)
      && !(e.Answer? && Ours(p) && !e.outcome.Accepted? && !e.outcome.Busy?)
  }

  predicate OrderlyStep(s: Joint, act: EndToEnd.Action) {
    EventOf(s, act).Some? ==> Orderly(s.side, EventOf(s, act).value)
  }

  // ---------------------------------------------------------------- the accounts of the view

  /** A request of the lease that is out although its epoch has passed. */
  function StaleOut(p: Side): Bytes {
    if Ours(p) && !CurrentEpoch(p.view.client) then p.view.client.pending.batch else []
  }

  /** The batch that may have been written without the view knowing. */
  function Outstanding(p: Side): Option<Bytes> {
    if !Live(p) then p.doubt else if Ours(p) then Some(p.view.client.pending.batch) else None
  }

  /** Everything kept is acknowledged, out, or waiting, in that order. */
  predicate KeptOk(p: Side) {
    if Live(p) then p.kept == Concat(p.acks) + StaleOut(p) + Concat(p.view.client.queue)
    else Concat(p.acks) + (if p.doubt.Some? then p.doubt.value else []) <= p.kept
  }

  lemma TypingKeeps(p: Side, bytes: Bytes)
    requires SideOk(p) && KeptOk(p) && Live(p) && TakesIn(p.view.client, Submit(bytes, true))
    ensures KeptOk(Reacts(p, Submit(bytes, true)))
  {
    TakenInKeeps(p.view.client, bytes);
    JoinsAssociate(Concat(p.acks) + StaleOut(p), Concat(p.view.client.queue), bytes);
  }

  lemma SuccessKeeps(p: Side, pace: Pace)
    requires SideOk(p) && KeptOk(p) && Live(p) && Waiting(p)
    ensures KeptOk(Reacts(p, Answer(Accepted(pace))))
  {
    if CurrentEpoch(p.view.client) {
      CurrentSuccessKeeps(p, pace);
    } else {
      StaleSuccessKeeps(p, pace);
    }
  }

  lemma OneMoreAck(acks: seq<Bytes>, batch: Bytes)
    ensures Concat(acks + [batch]) == Concat(acks) + batch
  {
    ConcatAppend(acks, [batch]);
    ConcatOne(batch);
  }

  lemma CurrentSuccessKeeps(p: Side, pace: Pace)
    requires SideOk(p) && KeptOk(p) && Live(p) && Waiting(p) && CurrentEpoch(p.view.client)
    ensures KeptOk(Reacts(p, Answer(Accepted(pace))))
  {
    var c := p.view.client;
    var p' := Reacts(p, Answer(Accepted(pace)));
    OneMoreAck(p.acks, c.pending.batch);
    SuccessTakesTheBatch(c, pace);
    assert StaleOut(p) == [] && StaleOut(p') == [];
    JoinsAssociate(Concat(p.acks), c.pending.batch, Concat(p'.view.client.queue));
  }

  lemma StaleSuccessKeeps(p: Side, pace: Pace)
    requires SideOk(p) && KeptOk(p) && Live(p) && Waiting(p) && !CurrentEpoch(p.view.client)
    ensures KeptOk(Reacts(p, Answer(Accepted(pace))))
  {
    var c := p.view.client;
    var p' := Reacts(p, Answer(Accepted(pace)));
    OneMoreAck(p.acks, c.pending.batch);
    StaleAnswersKeepTheQueue(c, Accepted(pace));
    assert StaleOut(p') == [];
    assert Concat(p'.acks) == Concat(p.acks) + StaleOut(p);
  }

  lemma RemovesTheMiddle(a: Bytes, b: Bytes, c: Bytes)
    ensures Without(a + b + c, |a|, |b|) == a + c
  {
    assert (a + b + c)[..|a|] == a && (a + b + c)[|a| + |b|..] == c;
  }

  /** Any other answer to a delivery of a past epoch. */
  lemma StaleRefusalKeeps(p: Side, o: Outcome)
    requires SideOk(p) && KeptOk(p) && Live(p) && Waiting(p) && !CurrentEpoch(p.view.client)
    requires !o.Accepted? && (Ours(p) ==> o.Busy?)
    ensures KeptOk(Reacts(p, Answer(o)))
  {
    StaleAnswersKeepTheQueue(p.view.client, o);
    RemovesTheMiddle(Concat(p.acks), StaleOut(p), Concat(p.view.client.queue));
  }

  lemma BatchLeads(p: Side)
    requires SideOk(p) && KeptOk(p) && Ours(p)
    ensures Concat(p.acks) + p.view.client.pending.batch <= p.kept
  {
    if CurrentEpoch(p.view.client) {
      QueueTail(p.view.client.queue);
      JoinsAssociate(Concat(p.acks), p.view.client.pending.batch, Concat(p.view.client.queue[1..]));
    }
  }

  lemma CurrentRefusalKeeps(p: Side, o: Outcome)
    requires SideOk(p) && KeptOk(p) && Ours(p) && CurrentEpoch(p.view.client) && !o.Accepted?
    ensures KeptOk(Reacts(p, Answer(o)))
  {
    BatchLeads(p);
  }

  lemma DropsTheEnd(a: Bytes, b: Bytes)
    ensures Less(a + b, |b|) == a
  {
    assert |a + b| - |b| == |a| && (a + b)[..|a|] == a;
  }

  /** A reset with the lease's request out in its own epoch discards what waits behind it. */
  lemma ResetBehindARequest(p: Side, reason: string)
    requires SideOk(p) && KeptOk(p) && Live(p) && Waiting(p) && CurrentEpoch(p.view.client)
    ensures KeptOk(Reacts(p, Reset(reason)))
  {
    var c, p' := p.view.client, Reacts(p, Reset(reason));
    QueueTail(c.queue);
    var rest := Concat(c.queue[1..]);
    JoinsAssociate(Concat(p.acks), c.pending.batch, rest);
    assert StaleOut(p) == [] && p.kept == Concat(p.acks) + c.pending.batch + rest;
    assert Discarded(c) == |rest|;
    DropsTheEnd(Concat(p.acks) + c.pending.batch, rest);
    assert StaleOut(p') == c.pending.batch && Concat(p'.view.client.queue) == [];
  }

  lemma ResetOfWhatWaits(p: Side, reason: string)
    requires SideOk(p) && KeptOk(p) && Live(p) && !(Waiting(p) && CurrentEpoch(p.view.client))
    ensures KeptOk(Reacts(p, Reset(reason)))
  {
    var c, p' := p.view.client, Reacts(p, Reset(reason));
    assert Discarded(c) == |Concat(c.queue)|;
    DropsTheEnd(Concat(p.acks) + StaleOut(p), Concat(c.queue));
    assert StaleOut(p') == StaleOut(p) && Concat(p'.view.client.queue) == [];
  }

  lemma ResetKeeps(p: Side, reason: string)
    requires SideOk(p) && KeptOk(p) && Live(p)
    ensures KeptOk(Reacts(p, Reset(reason)))
  {
    if Waiting(p) && CurrentEpoch(p.view.client) {
      ResetBehindARequest(p, reason);
    } else {
      ResetOfWhatWaits(p, reason);
    }
  }

  lemma KeptReacts(p: Side, e: Event)
    requires SideOk(p) && KeptOk(p) && Heeds(p, e) && Orderly(p, e)
    ensures KeptOk(Reacts(p, e))
  {
    if !Live(p) {
      EmptyStaysEmpty(p.view.client, e);
    } else {
      match e {
        case Submit(bytes, _) =>
          if TakesIn(p.view.client, e) {
            TypingKeeps(p, bytes);
          }
        case Answer(o) =>
          if o.Accepted? {
            SuccessKeeps(p, o.pace);
          } else if CurrentEpoch(p.view.client) {
            CurrentRefusalKeeps(p, o);
          } else {
            StaleRefusalKeeps(p, o);
          }
        case Wake =>
        case Reset(reason) => ResetKeeps(p, reason);
      }
    }
  }

  lemma EndKeeps(p: Side, reason: string)
    requires SideOk(p) && KeptOk(p) && Live(p)
    ensures KeptOk(Ended(p, reason))
  {
    if Ours(p) {
      BatchLeads(p);
    }
  }

  // ---------------------------------------------------------------- the wire and the keeper

  /** Neither a conflict nor a repetition. */
  predicate Untroubled(a: ControllerSpec.Answer) {
    a.Ok? || (a.Err? && !a.why.OutOfOrder?)
  }

  predicate HandlerSole(g: nat, awaited: Option<nat>, h: nat, pc: Pc) {
    pc.request.generation == g ==> if pc.Replied? then Untroubled(pc.answer) else awaited == Some(h)
  }

  /** Nothing of the lease is anywhere but where the last request is. */
  predicate Sole(g: nat, onWay: map<nat, Request>, awaited: Option<nat>, handlers: map<nat, Pc>) {
    && (forall h :: h in onWay ==> awaited == Some(h))
    && (forall h :: h in handlers ==> HandlerSole(g, awaited, h, handlers[h]))
  }

  /** How far a request got, by where its handler is; `n` writes came before it. */
  predicate PcFits(pc: Pc, w: seq<Entry>, n: nat) {
    && (pc.Arrived? || pc.HasInput? || pc.Prepared? ==> |w| == n)
    && (pc.Writing? ==> |w| == n + 1)
  }

  /** Where the last request is tells whether it was written. */
  predicate AwaitFits(p: Side, onWay: map<nat, Request>, awaited: Option<nat>, handlers: map<nat, Pc>, w: seq<Entry>) {
    if awaited.None? then Live(p) ==> |w| == |p.acks| && !Ours(p)
    else
      && Outstanding(p).Some? && (Live(p) ==> Ours(p))
      && var h, r := awaited.value, Request(p.g, |p.acks| + 1, Outstanding(p).value);
         && (h in onWay ==> onWay[h] == r)
         && (h in handlers ==> handlers[h].request == r && PcFits(handlers[h], w, |p.acks|))
         && (h !in handlers ==> |w| == |p.acks|)
  }

  predicate LastFits(p: Side, w: seq<Entry>) {
    |w| > |p.acks| ==> Outstanding(p).Some? && w[|p.acks|].request.data == Outstanding(p).value
  }

  predicate OrderOk(s: Joint) {
    && KeptOk(s.side) && LastFits(s.side, WritesOf(s))
    && Sole(s.side.g, s.onWay, s.awaited, s.keeper.handlers)
    && AwaitFits(s.side, s.onWay, s.awaited, s.keeper.handlers, WritesOf(s))
  }

  // ---------------------------------------------------------------- the keeper's steps

  /** A step of one handler, with what it does to the lease's writes. */
  lemma OrderMoves(s: Joint, h: nat, k': KeeperInput.Sys)
    requires OrderOk(s) && h in s.keeper.handlers && h in k'.handlers && !s.keeper.handlers[h].Replied?
    requires k'.handlers == s.keeper.handlers[h := k'.handlers[h]]
    requires k'.handlers[h].request == s.keeper.handlers[h].request
    requires var w, pc, g := LeaseWrites(k'.log, s.side.g), k'.handlers[h], s.side.g;
             if pc.request.generation != g then w == WritesOf(s)
             else
               && (pc.Replied? ==> Untroubled(pc.answer)) && PcFits(pc, w, |s.side.acks|)
               && (|w| > |s.side.acks| ==> w[|s.side.acks|].request.data == pc.request.data)
    ensures OrderOk(s.(keeper := k'))
  {
    var g := s.side.g;
    assert HandlerSole(g, s.awaited, h, s.keeper.handlers[h]);
    forall x | x in k'.handlers ensures HandlerSole(g, s.awaited, x, k'.handlers[x]) {
      assert x in s.keeper.handlers;
      assert x != h ==> HandlerSole(g, s.awaited, x, s.keeper.handlers[x]);
    }
  }

  /** The lease's own handler is the awaited one, and its request the outstanding one. */
  lemma OwnHandler(s: Joint, h: nat)
    requires OrderOk(s) && h in s.keeper.handlers && !s.keeper.handlers[h].Replied?
    requires s.keeper.handlers[h].request.generation == s.side.g
    ensures s.awaited == Some(h) && PcFits(s.keeper.handlers[h], WritesOf(s), |s.side.acks|)
    ensures Outstanding(s.side).Some?
    ensures s.keeper.handlers[h].request == Request(s.side.g, |s.side.acks| + 1, Outstanding(s.side).value)
  {
    assert HandlerSole(s.side.g, s.awaited, h, s.keeper.handlers[h]);
  }

  lemma HandlerOrder(s: Joint, act: KeeperInput.Action, s': Joint)
    requires OrderOk(s) && EndToEnd.Takes(s, Keeper(act), s')
    requires act.SessionExited? || act.TakeInput? || act.GiveUp? || act.Record? || act.Note?
    ensures OrderOk(s')
  {
    HandlerEffect(s.keeper, act, s'.keeper);
    QuietMoves(s.keeper, act, s'.keeper);
    if s.keeper.handlers[act.h].request.generation == s.side.g {
      OwnHandler(s, act.h);
    }
    OrderMoves(s, act.h, s'.keeper);
  }

  lemma QuietMoves(k: KeeperInput.Sys, act: KeeperInput.Action, k': KeeperInput.Sys)
    requires KeeperInput.Takes(k, act, k')
    requires act.SessionExited? || act.TakeInput? || act.GiveUp? || act.Record? || act.Note?
    ensures act.h in k.handlers && act.h in k'.handlers
    ensures forall w, n :: PcFits(k.handlers[act.h], w, n) ==> PcFits(k'.handlers[act.h], w, n)
  {
  }

  /** A request numbered right after what was written is never out of order. */
  lemma NextInLineIsUntroubled(c: ControllerSpec.Ctl, r: Request)
    requires r.generation == c.generation ==> r.sequence == c.last + 1
    ensures var a := ControllerSpec.Prepare(c, r.generation, r.sequence, r.data).answer;
            a == ControllerSpec.Write || Untroubled(a)
  {
  }

  lemma DeciderIsAlone(k: KeeperInput.Sys, h: nat)
    requires KeeperInput.Inv(k) && h in k.handlers && k.handlers[h].HasInput?
    ensures Flight(k).None?
  {
  }

  lemma DecideIsSound(s: Joint, h: nat)
    requires EndToEnd.Inv(s) && OrderOk(s) && h in s.keeper.handlers && s.keeper.handlers[h].HasInput?
    requires s.keeper.handlers[h].request.generation == s.side.g
    ensures var r := s.keeper.handlers[h].request;
            var a := ControllerSpec.Prepare(s.keeper.ctl, r.generation, r.sequence, r.data).answer;
            a == ControllerSpec.Write || Untroubled(a)
  {
    OwnHandler(s, h);
    DeciderIsAlone(s.keeper, h);
    if s.keeper.ctl.generation == s.side.g {
      LastIsCount(s.keeper, s.side.g);
    }
    NextInLineIsUntroubled(s.keeper.ctl, s.keeper.handlers[h].request);
  }

  lemma DecideOrder(s: Joint, h: nat, s': Joint)
    requires EndToEnd.Inv(s) && OrderOk(s) && EndToEnd.Takes(s, Keeper(Decide(h)), s')
    ensures OrderOk(s')
  {
    if s.keeper.handlers[h].request.generation == s.side.g {
      DecideIsSound(s, h);
      OwnHandler(s, h);
    }
    DecidedOrder(s, h, s');
  }

  lemma DecidedOrder(s: Joint, h: nat, s': Joint)
    requires OrderOk(s) && EndToEnd.Takes(s, Keeper(Decide(h)), s')
    requires var r := s.keeper.handlers[h].request;
             var a := ControllerSpec.Prepare(s.keeper.ctl, r.generation, r.sequence, r.data).answer;
             r.generation == s.side.g ==>
               && (a == ControllerSpec.Write || Untroubled(a)) && |WritesOf(s)| == |s.side.acks|
    ensures OrderOk(s')
  {
    OrderMoves(s, h, s'.keeper);
  }

  lemma StartOrder(s: Joint, h: nat, s': Joint)
    requires JointOk(s) && OrderOk(s) && EndToEnd.Takes(s, Keeper(StartWrite(h)), s')
    ensures OrderOk(s')
  {
    StartEffect(s.keeper, h, s'.keeper);
    WritesAppended(s.keeper.log, Entry(s.keeper.handlers[h].request, 0, Going), s.side.g);
    if s.keeper.handlers[h].request.generation == s.side.g {
      OwnHandler(s, h);
    }
    OrderMoves(s, h, s'.keeper);
  }

  lemma WriteOrder(s: Joint, act: KeeperInput.Action, s': Joint)
    requires JointOk(s) && OrderOk(s) && EndToEnd.Takes(s, Keeper(act), s')
    requires act.WriteSome? || act.WriteDone? || act.WriteFails?
    requires s.keeper.log != [] && act.h in s.keeper.handlers
    requires Last(s.keeper.log).request == s.keeper.handlers[act.h].request
    ensures OrderOk(s')
  {
    WriteEffect(s.keeper, act, s'.keeper);
    WritesUpdated(s.keeper.log, Last(s'.keeper.log), s.side.g);
    WritingMoves(s.keeper, act, s'.keeper);
    if s.keeper.handlers[act.h].request.generation == s.side.g {
      OwnHandler(s, act.h);
    }
    OrderMoves(s, act.h, s'.keeper);
  }

  lemma WritingMoves(k: KeeperInput.Sys, act: KeeperInput.Action, k': KeeperInput.Sys)
    requires KeeperInput.Takes(k, act, k') && (act.WriteSome? || act.WriteDone? || act.WriteFails?)
    ensures act.h in k.handlers && act.h in k'.handlers && k.handlers[act.h].Writing?
    ensures k'.handlers[act.h].Writing? || k'.handlers[act.h].Flushed? || k'.handlers[act.h].Replied?
  {
  }

  lemma ForeignOrder(s: Joint, act: KeeperInput.Action, s': Joint)
    requires OrderOk(s) && EndToEnd.Takes(s, Keeper(act), s')
    requires act.Arrive? || act.Control? || act.PayPresence?
    ensures OrderOk(s')
  {
    forall x | x in s'.keeper.handlers ensures HandlerSole(s.side.g, s.awaited, x, s'.keeper.handlers[x]) {
      assert x in s.keeper.handlers ==> HandlerSole(s.side.g, s.awaited, x, s.keeper.handlers[x]);
    }
  }

  lemma KeeperOrder(s: Joint, act: KeeperInput.Action, s': Joint)
    requires EndToEnd.Inv(s) && OrderOk(s) && EndToEnd.Takes(s, Keeper(act), s')
    ensures OrderOk(s')
  {
    if act.Decide? {
      DecideOrder(s, act.h, s');
    } else if act.StartWrite? {
      StartOrder(s, act.h, s');
    } else if act.WriteSome? || act.WriteDone? || act.WriteFails? {
      WritingIsLast(s.keeper, act.h);
      WriteOrder(s, act, s');
    } else if act.Arrive? || act.Control? || act.PayPresence? {
      ForeignOrder(s, act, s');
    } else {
      HandlerOrder(s, act, s');
    }
  }

  // ---------------------------------------------------------------- the view's steps

  /** Nothing of the lease is anywhere any more. */
  predicate AllDone(g: nat, onWay: map<nat, Request>, handlers: map<nat, Pc>) {
    onWay == map[] && Sole(g, map[], None, handlers)
  }

  /** With nothing awaited, or its answer here, or it refused on its way, nothing is anywhere. */
  lemma NothingElse(s: Joint, onWay: map<nat, Request>)
    requires JointOk(s) && OrderOk(s) && onWay.Keys <= s.onWay.Keys
    requires s.awaited.Some? ==> s.awaited.value !in onWay
    requires s.awaited.Some? && s.awaited.value in s.keeper.handlers ==> s.keeper.handlers[s.awaited.value].Replied?
    ensures AllDone(s.side.g, onWay, s.keeper.handlers)
  {
    assert forall h :: h in onWay ==> h in s.onWay;
    forall h | h in s.keeper.handlers ensures HandlerSole(s.side.g, None, h, s.keeper.handlers[h]) {
      assert HandlerSole(s.side.g, s.awaited, h, s.keeper.handlers[h]);
    }
  }

  /** From there the view goes on: the next request is the only one, or none is out. */
  lemma GoesOn(s: Joint, e: Event, h: nat, onWay: map<nat, Request>, s': Joint)
    requires SideOk(s.side) && KeptOk(s.side) && Heeds(s.side, e) && Orderly(s.side, e)
    requires Hears(s, e, h, onWay, None, s') && AllDone(s.side.g, onWay, s.keeper.handlers)
    requires !Ours(s'.side) || SendsOut(s.side, e).Some?
    requires Live(s'.side) ==> |WritesOf(s)| == |s'.side.acks|
    requires LastFits(s'.side, WritesOf(s))
    ensures OrderOk(s')
  {
    KeptReacts(s.side, e);
    if SendsOut(s.side, e).Some? {
      SentIsTheRequest(s.side, e);
      forall x | x in s'.keeper.handlers ensures HandlerSole(s.side.g, s'.awaited, x, s'.keeper.handlers[x]) {
        assert HandlerSole(s.side.g, None, x, s.keeper.handlers[x]);
      }
    }
  }

  /** A view that has nothing of the lease out: typing, waking, resetting, and answers to older requests. */
  lemma FreeOrder(s: Joint, e: Event, h: nat, s': Joint)
    requires JointOk(s) && OrderOk(s) && Heeds(s.side, e) && Orderly(s.side, e) && Live(s.side) && !Ours(s.side)
    requires Hears(s, e, h, s.onWay, s.awaited, s')
    ensures OrderOk(s')
  {
    NothingElse(s, s.onWay);
    SideReacts(s.side, e);
    if SendsOut(s.side, e).None? && Ours(s'.side) {
      StillOurs(s.side, e);
    }
    GoesOn(s, e, h, s.onWay, s');
  }

  /** A view that waits for the lease's request: typing and resetting leave it out. */
  lemma BusyOrder(s: Joint, e: Event, h: nat, s': Joint)
    requires JointOk(s) && OrderOk(s) && Ours(s.side) && (e.Submit? || e.Reset?)
    requires Heeds(s.side, e) && Hears(s, e, h, s.onWay, s.awaited, s')
    ensures OrderOk(s')
  {
    KeptReacts(s.side, e);
    StaysOut(s.side, e);
  }

  lemma StaysOut(p: Side, e: Event)
    requires SideOk(p) && Ours(p) && (e.Submit? || e.Reset?)
    ensures SendsOut(p, e).None? && Ours(Reacts(p, e)) && Reacts(p, e).acks == p.acks
    ensures Outstanding(Reacts(p, e)) == Outstanding(p)
  {
  }

  /** A view without control: whatever it hears, nothing more goes out. */
  lemma OverOrder(s: Joint, e: Event, h: nat, s': Joint)
    requires JointOk(s) && OrderOk(s) && !Live(s.side) && Heeds(s.side, e)
    requires Hears(s, e, h, s.onWay, s.awaited, s')
    ensures OrderOk(s')
  {
    KeptReacts(s.side, e);
    EmptyStaysEmpty(s.side.view.client, e);
  }

  /** The lease's request succeeded. */
  lemma SuccessOrder(s: Joint, pace: Pace, h: nat, s': Joint)
    requires JointOk(s) && OrderOk(s) && EndToEnd.Takes(s, Receive(pace, h), s')
    requires Classify(AnswerOf(s), pace).Accepted?
    ensures OrderOk(s')
  {
    var e := Answer(Classify(AnswerOf(s), pace));
    SuccessIsWritten(s, pace);
    NothingElse(s, s.onWay);
    SuccessEnds(s.side, e.outcome.pace);
    GoesOn(s, e, h, s.onWay, s');
  }

  lemma SuccessEnds(p: Side, pace: Pace)
    requires SideOk(p) && Ours(p)
    ensures var e := Answer(Accepted(pace));
            var p' := Reacts(p, e);
            && Live(p') && |p'.acks| == |p.acks| + 1 && (Ours(p') ==> SendsOut(p, e).Some?)
  {
    SideReacts(p, Answer(Accepted(pace)));
    if SendsOut(p, Answer(Accepted(pace))).None? && Ours(Reacts(p, Answer(Accepted(pace)))) {
      StillOurs(p, Answer(Accepted(pace)));
    }
  }

  /** A failure in its own epoch ends the lease on the view's side, with that batch in doubt. */
  lemma FailureEnds(p: Side, o: Outcome)
    requires SideOk(p) && Ours(p) && CurrentEpoch(p.view.client) && !o.Accepted? && !o.Busy?
    ensures var e := Answer(o);
            var p' := Reacts(p, e);
            && !Live(p') && SendsOut(p, e).None? && p'.acks == p.acks && Outstanding(p') == Outstanding(p)
  {
  }

  lemma RefusedOrder(s: Joint, pace: Pace, h: nat, s': Joint)
    requires JointOk(s) && OrderOk(s) && EndToEnd.Takes(s, Receive(pace, h), s')
    requires !Classify(AnswerOf(s), pace).Accepted? && CurrentEpoch(s.side.view.client)
    ensures OrderOk(s')
  {
    var e := Answer(Classify(AnswerOf(s), pace));
    NothingElse(s, s.onWay);
    FailureEnds(s.side, e.outcome);
    GoesOn(s, e, h, s.onWay, s');
  }

  lemma NetworkOrder(s: Joint, h: nat, s': Joint)
    requires JointOk(s) && OrderOk(s) && EndToEnd.Takes(s, NetworkFails(h), s') && CurrentEpoch(s.side.view.client)
    ensures OrderOk(s')
  {
    KeptReacts(s.side, Answer(Failed));
    FailureEnds(s.side, Failed);
  }

  /** Refused as busy on its way: not written, so the view may pause, give up, or go on past it. */
  lemma BusyRefusalOrder(s: Joint, h: nat, s': Joint)
    requires JointOk(s) && OrderOk(s) && EndToEnd.Takes(s, RefuseBusy(h), s')
    ensures OrderOk(s')
  {
    var onWay := s.onWay - {s.awaited.value};
    NothingElse(s, onWay);
    SideReacts(s.side, Answer(Busy));
    if SendsOut(s.side, Answer(Busy)).None? && Ours(s'.side) {
      StillOurs(s.side, Answer(Busy));
    }
    GoesOn(s, Answer(Busy), h, onWay, s');
  }

  /** What the view does: it hears the answer it waits for, or something else happens to it. */
  lemma ViewOrder(s: Joint, act: EndToEnd.Action, s': Joint)
    requires JointOk(s) && OrderOk(s) && EndToEnd.Takes(s, act, s') && EventOf(s, act).Some? && OrderlyStep(s, act)
    ensures OrderOk(s')
  {
    if act.RefuseBusy? || act.NetworkFails? || act.Receive? {
      AnswerOrder(s, act, s');
    } else {
      OwnOrder(s, act, s');
    }
  }

  lemma AnswerOrder(s: Joint, act: EndToEnd.Action, s': Joint)
    requires JointOk(s) && OrderOk(s) && EndToEnd.Takes(s, act, s') && OrderlyStep(s, act)
    requires act.RefuseBusy? || act.NetworkFails? || act.Receive?
    ensures OrderOk(s')
  {
    match act {
      case RefuseBusy(h) => BusyRefusalOrder(s, h, s');
      case NetworkFails(h) => NetworkOrder(s, h, s');
      case Receive(pace, h) => ReceiveOrder(s, pace, h, s');
    }
  }

  lemma ReceiveOrder(s: Joint, pace: Pace, h: nat, s': Joint)
    requires JointOk(s) && OrderOk(s) && EndToEnd.Takes(s, Receive(pace, h), s') && OrderlyStep(s, Receive(pace, h))
    ensures OrderOk(s')
  {
    if Classify(AnswerOf(s), pace).Accepted? {
      SuccessOrder(s, pace, h, s');
    } else {
      RefusedOrder(s, pace, h, s');
    }
  }

  lemma OwnOrder(s: Joint, act: EndToEnd.Action, s': Joint)
    requires JointOk(s) && OrderOk(s) && EndToEnd.Takes(s, act, s') && OrderlyStep(s, act)
    requires act.Type? || act.LateAnswer? || act.RetryNow? || act.ResetQueue?
    ensures OrderOk(s')
  {
    match act {
      case Type(_, _, h) => AnyOrder(s, EventOf(s, act).value, h, s');
      case LateAnswer(_, h) => AnyOrder(s, EventOf(s, act).value, h, s');
      case RetryNow(h) => AnyOrder(s, EventOf(s, act).value, h, s');
      case ResetQueue(_) => AnyOrder(s, EventOf(s, act).value, 0, s');
    }
  }

  lemma AnyOrder(s: Joint, e: Event, h: nat, s': Joint)
    requires JointOk(s) && OrderOk(s) && Heeds(s.side, e) && Orderly(s.side, e)
    requires Hears(s, e, h, s.onWay, s.awaited, s') && (e.Answer? || e.Wake? ==> !Ours(s.side))
    ensures OrderOk(s')
  {
    if !Live(s.side) {
      OverOrder(s, e, h, s');
    } else if Ours(s.side) {
      BusyOrder(s, e, h, s');
    } else {
      FreeOrder(s, e, h, s');
    }
  }

  // ---------------------------------------------------------------- the other steps

  lemma DeliverOrder(s: Joint, h: nat, s': Joint)
    requires JointOk(s) && OrderOk(s) && EndToEnd.Takes(s, Deliver(h), s')
    ensures OrderOk(s')
  {
    assert s.awaited == Some(h);
    forall x | x in s'.keeper.handlers ensures HandlerSole(s.side.g, s.awaited, x, s'.keeper.handlers[x]) {
      assert x in s.keeper.handlers ==> HandlerSole(s.side.g, s.awaited, x, s.keeper.handlers[x]);
    }
  }

  lemma OtherOrder(s: Joint, act: EndToEnd.Action, s': Joint)
    requires JointOk(s) && OrderOk(s) && EndToEnd.Takes(s, act, s') && (act.Lose? || act.Drop?)
    ensures OrderOk(s')
  {
    if act.Drop? {
      EndKeeps(s.side, act.reason);
    }
  }

  lemma StepKeepsOrder(s: Joint, act: EndToEnd.Action, s': Joint)
    requires EndToEnd.Inv(s) && OrderOk(s) && EndToEnd.Takes(s, act, s') && OrderlyStep(s, act)
    ensures OrderOk(s')
  {
    if act.Keeper? {
      KeeperOrder(s, act.act, s');
    } else if EventOf(s, act).Some? {
      ViewOrder(s, act, s');
    } else if act.Deliver? {
      DeliverOrder(s, act.h, s');
    } else {
      OtherOrder(s, act, s');
    }
  }

  lemma BeginsInOrder(s: Joint)
    requires Begins(s)
    ensures OrderOk(s)
  {
    BeginsWell(s);
  }

  ghost predicate OrderlyRun(run: seq<Joint>, acts: seq<EndToEnd.Action>) {
    EndToEnd.Run(run, acts) && forall i :: 0 <= i < |acts| ==> OrderlyStep(run[i], acts[i])
  }

  lemma OrderlyAt(run: seq<Joint>, acts: seq<EndToEnd.Action>, i: nat)
    requires OrderlyRun(run, acts) && i < |acts|
    ensures |run| == |acts| + 1 && EndToEnd.Takes(run[i], acts[i], run[i + 1])
    ensures OrderlyStep(run[i], acts[i]) && EndToEnd.Inv(run[i])
  {
    EndToEnd.RunsKeepInvariant(run, acts, i);
    assert EndToEnd.StepAt(run, acts, i);
  }

  lemma StepOfOrderlyRun(run: seq<Joint>, acts: seq<EndToEnd.Action>, n: nat)
    requires OrderlyRun(run, acts) && 0 < n < |run| && OrderOk(run[n - 1])
    ensures OrderOk(run[n])
  {
    OrderlyAt(run, acts, n - 1);
    StepKeepsOrder(run[n - 1], acts[n - 1], run[n]);
  }

  lemma {:induction false} RunsKeepOrder(run: seq<Joint>, acts: seq<EndToEnd.Action>, n: nat)
    requires OrderlyRun(run, acts) && n < |run|
    ensures OrderOk(run[n])
  {
    if n == 0 {
      BeginsInOrder(run[0]);
    } else {
      RunsKeepOrder(run, acts, n - 1);
      StepOfOrderlyRun(run, acts, n);
    }
  }

  // ---------------------------------------------------------------- what orderly runs guarantee

  /** The acknowledged batches in order, then at most what is outstanding: always a beginning of what was kept. */
  predicate InOrder(p: Side, w: seq<Entry>) {
    && WritesFit(p, w)
    && Concat(p.acks) <= Output(w) <= p.kept
    && Output(w) <= Concat(p.acks) + (if Outstanding(p).Some? then Outstanding(p).value else [])
  }

  lemma OrderedIsInOrder(p: Side, w: seq<Entry>)
    requires SideOk(p) && KeptOk(p) && LastFits(p, w) && WritesFit(p, w)
    ensures InOrder(p, w)
  {
    FittingIsAcked(p, w);
    if Ours(p) {
      BatchLeads(p);
    }
  }

  /**
   With requests and replies lost, takeovers and everybody else at work, a queue reset at any time, and an
   older request still out when the lease began: what the lease puts into the PTY is the batches
   acknowledged to its view in order and at most the one that is outstanding, whole or cut short. It is a
   beginning of what the view took in, less what its resets discarded unsent.
   */
  lemma LeasesReachThePtyInOrder(run: seq<Joint>, acts: seq<EndToEnd.Action>, n: nat)
    requires OrderlyRun(run, acts) && n < |run|
    ensures InOrder(run[n].side, WritesOf(run[n]))
  {
    RunsKeepOrder(run, acts, n);
    EndToEnd.RunsKeepInvariant(run, acts, n);
    OrderedIsInOrder(run[n].side, WritesOf(run[n]));
  }

  /** A view that still has control and waits for nothing: all it kept is in the PTY, each byte once. */
  lemma IdleMeansDelivered(run: seq<Joint>, acts: seq<EndToEnd.Action>, n: nat)
    requires OrderlyRun(run, acts) && n < |run|
    requires Live(run[n].side) && !run[n].side.view.client.running
    ensures Output(WritesOf(run[n])) == run[n].side.kept
  {
    RunsKeepOrder(run, acts, n);
    EndToEnd.RunsKeepInvariant(run, acts, n);
    FittingIsAcked(run[n].side, WritesOf(run[n]));
  }

  /** The keeper never tells this view that its input is out of order, nor takes it for a repetition. */
  lemma NeverOutOfOrder(run: seq<Joint>, acts: seq<EndToEnd.Action>, n: nat, h: nat)
    requires OrderlyRun(run, acts) && n < |run|
    requires h in run[n].keeper.handlers && run[n].keeper.handlers[h].request.generation == run[n].side.g
    requires run[n].keeper.handlers[h].Replied?
    ensures run[n].keeper.handlers[h].answer != ControllerSpec.Err(ControllerSpec.OutOfOrder)
    ensures run[n].keeper.handlers[h].answer != ControllerSpec.Duplicate
  {
    RunsKeepOrder(run, acts, n);
    assert HandlerSole(run[n].side.g, run[n].awaited, h, run[n].keeper.handlers[h]);
  }
}
