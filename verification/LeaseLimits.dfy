/**
 What the two ways out of order do, from every state that offers them: a reset that leaves a request's
 answer unheard, and a pause that outlives its epoch or its lease.
 */
module LeaseLimits {
  import opened Basics
  import opened SendQueue
  import opened Leases
  import opened KeeperInput
  import opened EndToEnd
  import opened Transitions
  import ControllerSpec

  /** Out of nothing a lease begins; from there it takes steps of any kind. */
  ghost function Steps(): (Option<Joint>, Option<Joint>) -> bool {
    (a: Option<Joint>, b: Option<Joint>) => b.Some? && if a.None? then Begins(b.value) else Moves(a.value, b.value)
  }

  ghost predicate Moves(s: Joint, s': Joint) {
    exists act :: EndToEnd.Takes(s, act, s')
  }

  ghost predicate Reached(s: Joint) {
    Reaches(Steps(), None, Some(s))
  }

  lemma ReachedAtFirst(s: Joint)
    requires Begins(s)
    ensures Reached(s)
  {
    NoStep(Steps(), None);
    OneStepMore(Steps(), None, None, Some(s));
  }

  lemma Reach(s: Joint, act: EndToEnd.Action, s': Joint)
    requires Reached(s) && EndToEnd.Takes(s, act, s')
    ensures Reached(s')
  {
    assert Moves(s, s');
    OneStepMore(Steps(), None, Some(s), Some(s'));
  }

  lemma MovesKeep(s: Joint, s': Joint)
    requires EndToEnd.Inv(s) && Moves(s, s')
    ensures EndToEnd.Inv(s')
  {
    var act :| EndToEnd.Takes(s, act, s');
    EndToEnd.StepKeepsInvariant(s, act, s');
  }

  lemma ReachedIsSound(s: Joint)
    requires Reached(s)
    ensures EndToEnd.Inv(s)
  {
    var sound: Option<Joint> -> bool := (o: Option<Joint>) => o.None? || EndToEnd.Inv(o.value);
    forall a, b | sound(a) && Steps()(a, b) ensures sound(b) {
      if a.None? {
        BeginsWell(b.value);
      } else {
        MovesKeep(a.value, b.value);
      }
    }
    ReachesKeeps(Steps(), sound, None, Some(s));
  }

  lemma ReachByKeeper(s: Joint, act: KeeperInput.Action, k': KeeperInput.Sys)
    requires Reached(s) && !act.Arrive? && KeeperInput.Takes(s.keeper, act, k')
    ensures Reached(s.(keeper := k'))
  {
    Reach(s, Keeper(act), s.(keeper := k'));
  }

  // ---------------------------------------------------------------- a request goes through

  /** `r` is on its way or at its handler, undecided, and the input lock is not in its way. */
  predicate Undecided(s: Joint, h: nat, r: Request) {
    || (h in s.onWay && s.onWay[h] == r && h !in s.keeper.handlers && s.keeper.inputLock.None?)
    || (h in s.keeper.handlers && s.keeper.handlers[h] == Arrived(r) && s.keeper.inputLock.None?)
    || (h in s.keeper.handlers && s.keeper.handlers[h] == HasInput(r))
  }

  /** The keeper as it is with `h` about to decide on `r`. */
  function Deciding(k: KeeperInput.Sys, h: nat, r: Request): KeeperInput.Sys {
    At(k, h, HasInput(r)).(inputLock := Some(h))
  }

  lemma ToDecision(s: Joint, h: nat, r: Request) returns (s': Joint)
    requires Reached(s) && Undecided(s, h, r) && |r.data| <= ControllerSpec.MAX_INPUT
    ensures Reached(s') && s' == s.(keeper := Deciding(s.keeper, h, r), onWay := s.onWay - {h})
  {
    var k := s.keeper;
    if h in k.handlers && k.handlers[h] == HasInput(r) {
      HoldsItsLock(s, h);
      assert k == Deciding(k, h, r);
      assert s.onWay - {h} == s.onWay;
      s' := s;
    } else {
      var arrived := s;
      if h !in k.handlers {
        arrived := s.(keeper := At(k, h, Arrived(r)), onWay := s.onWay - {h});
        Reach(s, Deliver(h), arrived);
      }
      ArrivedIsOffTheWire(arrived, h);
      assert arrived.onWay == s.onWay - {h};
      assert Deciding(arrived.keeper, h, r).handlers == Deciding(k, h, r).handlers;
      ReachByKeeper(arrived, TakeInput(h), Deciding(arrived.keeper, h, r));
      s' := arrived.(keeper := Deciding(arrived.keeper, h, r));
    }
  }

  lemma ArrivedIsOffTheWire(s: Joint, h: nat)
    requires Reached(s) && h in s.keeper.handlers
    ensures h !in s.onWay
  {
    ReachedIsSound(s);
  }

  lemma HoldsItsLock(s: Joint, h: nat)
    requires Reached(s) && h in s.keeper.handlers && s.keeper.handlers[h].HasInput?
    ensures s.keeper.inputLock == Some(h) && h !in s.onWay
  {
    ReachedIsSound(s);
    HasInputHoldsTheLock(s.keeper, h);
  }

  lemma HasInputHoldsTheLock(k: KeeperInput.Sys, h: nat)
    requires KeeperInput.Inv(k) && h in k.handlers && k.handlers[h].HasInput?
    ensures k.inputLock == Some(h)
  {
  }

  lemma PutOut(s: Joint, h: nat, r: Request) returns (s': Joint)
    requires Reached(s) && h in s.keeper.handlers && s.keeper.handlers[h] == Prepared(r)
    ensures Reached(s') && s' == s.(keeper := s'.keeper)
    ensures s'.keeper == At(s.keeper, h, Flushed(r)).(log := s.keeper.log + [Entry(r, |r.data|, Whole)])
  {
    var log := s.keeper.log;
    var k4 := At(s.keeper, h, Writing(r)).(log := log + [Entry(r, 0, Going)]);
    var k5 := k4.(log := log + [Entry(r, |r.data|, Going)]);
    var k6 := At(k5, h, Flushed(r)).(log := log + [Entry(r, |r.data|, Whole)]);
    ReachByKeeper(s, StartWrite(h), k4);
    ReachByKeeper(s.(keeper := k4), WriteSome(h, |r.data|), k5);
    ReachByKeeper(s.(keeper := k5), WriteDone(h), k6);
    assert k6.handlers == s.keeper.handlers[h := Flushed(r)];
    s' := s.(keeper := k6);
  }

  lemma Settled(s: Joint, h: nat, r: Request) returns (s': Joint)
    requires Reached(s) && h in s.keeper.handlers && s.keeper.handlers[h] == Flushed(r) && s.keeper.owed.None?
    ensures Reached(s') && s' == s.(keeper := s'.keeper)
    ensures s'.keeper == At(s.keeper, h, Replied(r, ControllerSpec.Ok))
                         .(ctl := ControllerSpec.Written(s.keeper.ctl), inputLock := None)
  {
    var k7 := At(s.keeper, h, Noting(r)).(ctl := ControllerSpec.Written(s.keeper.ctl));
    var k8 := Reply(k7, h, ControllerSpec.Ok);
    ReachByKeeper(s, Record(h), k7);
    ReachByKeeper(s.(keeper := k7), Note(h), k8);
    assert k8.handlers == s.keeper.handlers[h := Replied(r, ControllerSpec.Ok)];
    s' := s.(keeper := k8);
  }

  /** The keeper would write this request if it decided on it now. */
  predicate WouldWrite(k: KeeperInput.Sys, r: Request) {
    && k.owed.None? && |r.data| <= ControllerSpec.MAX_INPUT
    && ControllerSpec.Prepare(k.ctl, r.generation, r.sequence, r.data).answer == ControllerSpec.Write
  }

  /** An undecided request the keeper can still accept is written to the end, and its handler has the answer. */
  lemma GoesThrough(s: Joint, h: nat, r: Request) returns (s': Joint)
    requires Reached(s) && Undecided(s, h, r) && WouldWrite(s.keeper, r)
    ensures Reached(s') && s'.side == s.side && s'.awaited == s.awaited && s'.onWay == s.onWay - {h}
    ensures s'.keeper.handlers == s.keeper.handlers[h := Replied(r, ControllerSpec.Ok)]
    ensures s'.keeper.inputLock.None? && s'.keeper.owed.None?
    ensures s'.keeper.log == s.keeper.log + [Entry(r, |r.data|, Whole)]
    ensures s'.keeper.ctl
            == ControllerSpec.Written(ControllerSpec.Prepare(s.keeper.ctl, r.generation, r.sequence, r.data).ctl)
  {
    var s1 := ToDecision(s, h, r);
    var decided := ControllerSpec.Prepare(s.keeper.ctl, r.generation, r.sequence, r.data);
    var k3 := At(s1.keeper, h, Prepared(r)).(ctl := decided.ctl);
    ReachByKeeper(s1, Decide(h), k3);
    var s2 := PutOut(s1.(keeper := k3), h, r);
    s' := Settled(s2, h, r);
    assert s'.keeper.handlers == s.keeper.handlers[h := Replied(r, ControllerSpec.Ok)];
  }

  // ---------------------------------------------------------------- an answer unheard after a reset

  /** A reset under a request that is out, whose answer is then lost, leaves the lease and its number. */
  lemma ResetAndLost(p: Side, reason: string) returns (wiped: Side, lost: Side)
    requires SideOk(p) && Ours(p) && CurrentEpoch(p.view.client)
    ensures wiped == Reacts(p, Reset(reason)) && lost == Reacts(wiped, Answer(Failed))
    ensures Ours(wiped) && SendsOut(p, Reset(reason)).None? && SendsOut(wiped, Answer(Failed)).None?
    ensures lost.g == p.g && Live(lost) && lost.view.sequence == p.view.sequence
    ensures lost.view.client.queue == [] && lost.view.client.queued == 0 && !lost.view.client.running
  {
    wiped := Reacts(p, Reset(reason));
    lost := Reacts(wiped, Answer(Failed));
  }

  /** A byte typed by a view that waits for nothing goes out with the lease's next number. */
  lemma TypedByteGoesOut(s: Joint, h: nat, b: Byte) returns (s': Joint)
    requires Reached(s) && Live(s.side) && !s.side.view.client.running && s.side.view.client.queue == []
    requires h !in s.onWay && h !in s.keeper.handlers
    ensures Reached(s') && s'.keeper == s.keeper && s'.side.g == s.side.g
    ensures s'.onWay == s.onWay[h := Request(s.side.g, s.side.view.sequence, [b])]
    ensures Ours(s'.side) && CurrentEpoch(s'.side.view.client) && s'.side.view.client.pending.batch == [b]
    ensures s'.awaited == Some(h) && s'.side.view.sequence == s.side.view.sequence && s'.side.acks == s.side.acks
  {
    ReachedIsSound(s);
    OneByteGoesOut(s.side.view.client, b);
    var e := Submit([b], true);
    s' := Joint(s.keeper, s.onWay[h := Request(s.side.g, s.side.view.sequence, [b])], Some(h), Reacts(s.side, e));
    assert SendsOut(s.side, e) == Some(Request(s.side.g, s.side.view.sequence, [b]));
    Reach(s, Type([b], true, h), s');
  }

  /**
   Wherever a write of the lease was never heard of, and the view waits for nothing and the keeper is free:
   the next byte typed, if it is not what was written, is answered "out-of-order".
   */
  lemma UnheardWritesConflict(s: Joint, h: nat, b: Byte) returns (s': Joint)
    requires Reached(s) && Live(s.side) && !s.side.view.client.running && s.side.view.client.queue == []
    requires ReadyForNext(s.keeper, s.side.g) && s.keeper.inputLock.None? && s.keeper.owed.None?
    requires 0 < s.side.view.sequence <= |WritesOf(s)|
    requires WritesOf(s)[s.side.view.sequence - 1].request.data != [b]
    requires h !in s.onWay && h !in s.keeper.handlers
    ensures Reached(s') && h in s'.keeper.handlers
    ensures s'.keeper.handlers[h] == Replied(Request(s.side.g, s.side.view.sequence, [b]),
                                             ControllerSpec.Err(ControllerSpec.OutOfOrder))
  {
    var r := Request(s.side.g, s.side.view.sequence, [b]);
    ReachedIsSound(s);
    NextRequestAnswered(s, [b]);
    var typed := TypedByteGoesOut(s, h, b);
    var deciding := ToDecision(typed, h, r);
    s' := deciding.(keeper := Reply(deciding.keeper, h, ControllerSpec.Err(ControllerSpec.OutOfOrder)));
    ReachByKeeper(deciding, Decide(h), s'.keeper);
  }

  /**
   From every reached state in which a reset finds the lease's request out and undecided, and the keeper can
   still accept it: reset the queue, let the request be written and its answer be lost, and any byte other
   than what was written comes back "out-of-order".
   */
  lemma AnyResetUnderTheLeaseCanConflict(s: Joint, reason: string, h: nat, b: Byte) returns (s': Joint)
    requires Reached(s) && Ours(s.side) && CurrentEpoch(s.side.view.client) && s.awaited.Some?
    requires Undecided(s, s.awaited.value, TheRequest(s.side)) && WouldWrite(s.keeper, TheRequest(s.side))
    requires h !in s.onWay && h !in s.keeper.handlers && s.side.view.client.pending.batch != [b]
    ensures Reached(s') && h in s'.keeper.handlers
    ensures s'.keeper.handlers[h] == Replied(Request(s.side.g, s.side.view.sequence, [b]),
                                             ControllerSpec.Err(ControllerSpec.OutOfOrder))
  {
    ReachedIsSound(s);
    var r := TheRequest(s.side);
    var wiped, lost := ResetAndLost(s.side, reason);
    var s1 := s.(side := wiped);
    Reach(s, ResetQueue(reason), s1);
    var s2 := GoesThrough(s1, s.awaited.value, r);
    var s3 := s2.(side := lost);
    Reach(s2, NetworkFails(h), s3);
    WrittenUnheard(s3, s.awaited.value, r);
    ReadyAfterwards(s.keeper, r, s3.keeper);
    s' := UnheardWritesConflict(s3, h, b);
  }

  lemma WrittenUnheard(s: Joint, h: nat, r: Request)
    requires Reached(s) && h in s.keeper.handlers && s.keeper.handlers[h] == Replied(r, ControllerSpec.Ok)
    requires r.generation == s.side.g
    ensures 0 < r.sequence <= |WritesOf(s)| && WritesOf(s)[r.sequence - 1].request == r
  {
    ReachedIsSound(s);
    ConfirmedIsWritten(s, h, r);
  }

  lemma ConfirmedIsWritten(s: Joint, h: nat, r: Request)
    requires HandlersOk(s.side, WritesOf(s), s.keeper.handlers) && r.generation == s.side.g
    requires h in s.keeper.handlers && s.keeper.handlers[h] == Replied(r, ControllerSpec.Ok)
    ensures 0 < r.sequence <= |WritesOf(s)| && WritesOf(s)[r.sequence - 1].request == r
  {
    assert HandlerOk(s.side, WritesOf(s), s.keeper.handlers[h]);
  }

  /** A keeper that has just written an input is free for the next. */
  lemma ReadyAfterwards(k: KeeperInput.Sys, r: Request, k': KeeperInput.Sys)
    requires WouldWrite(k, r) && k'.inputLock.None?
    requires k'.ctl == ControllerSpec.Written(ControllerSpec.Prepare(k.ctl, r.generation, r.sequence, r.data).ctl)
    ensures ReadyForNext(k', r.generation)
  {
  }

  // ---------------------------------------------------------------- a pause that outlives its epoch

  /**
   What goes out under the lease is the front of the view's own queue, in its own epoch, exactly unless it
   is what was pausing when the epoch passed.
   */
  lemma SentFromTheQueue(p: Side, e: Event)
    requires SideOk(p) && Heeds(p, e) && SendsOut(p, e).Some?
    ensures var c' := Reacts(p, e).view.client;
            (CurrentEpoch(c') && c'.queue != [] && c'.queue[0] == SendsOut(p, e).value.data)
            <==> !(e.Wake? && !CurrentEpoch(p.view.client))
  {
    SideReacts(p, e);
    RequestShape(p.view.client, e);
    RequestsBelongToTheirEpoch(p.view.client, e);
  }

  /**
   From every reached state of a live lease in which a delivery of a past epoch is pausing (refused as busy
   before a reset, or under an earlier lease), and the keeper is free: when the pause runs out those bytes
   are written under this lease's next number, though the view keeps nothing of them.
   */
  lemma OldBytesReachThePty(s: Joint, h: nat) returns (s': Joint)
    requires Reached(s) && Live(s.side) && s.side.view.client.pending.Sleeping? && !CurrentEpoch(s.side.view.client)
    requires h !in s.onWay && h !in s.keeper.handlers && s.keeper.inputLock.None?
    requires WouldWrite(s.keeper, Request(s.side.g, s.side.view.sequence, s.side.view.client.pending.batch))
    ensures Reached(s') && s'.side.g == s.side.g && s'.side.kept == s.side.kept && s'.side.acks == s.side.acks
    ensures var r := Request(s.side.g, s.side.view.sequence, s.side.view.client.pending.batch);
            WritesOf(s') == WritesOf(s) + [Entry(r, |r.data|, Whole)]
  {
    ReachedIsSound(s);
    var r := Request(s.side.g, s.side.view.sequence, s.side.view.client.pending.batch);
    assert SendsOut(s.side, Wake) == Some(r);
    var woken := Joint(s.keeper, s.onWay[h := r], Some(h), Reacts(s.side, Wake));
    Reach(s, RetryNow(h), woken);
    s' := GoesThrough(woken, h, r);
    WritesAppended(s.keeper.log, Entry(r, |r.data|, Whole), s.side.g);
  }

  // ---------------------------------------------------------------- both happen

  /** A keeper's first lease. */
  const HELD: ControllerSpec.Ctl := ControllerSpec.Ctl(1, true, 0, [], 0, false, None)

  lemma FirstGrant(k: KeeperInput.Sys)
    requires k == START.(ctl := HELD, owed := Some(Took(None)), taken := map[1 := Taken(None, false)])
    ensures GrantedOver([START], ControllerSpec.OpAcquire(false), None, k, 1)
  {
    assert [START][|[START]| - 1] == START;
    assert KeeperInput.Takes(START, Control(ControllerSpec.OpAcquire(false), None), k);
  }

  /** A keeper that grants its first lease to a view without control. */
  lemma FirstLease(v: Holder) returns (s: Joint)
    requires WithoutControl(v, 1)
    ensures Reached(s) && s.side == Side(Granted(v, 1), 1, [], [], {}, None) && s.onWay == map[] && s.awaited.None?
    ensures s.keeper == START.(ctl := HELD, presence := Presence(true, None), taken := map[1 := Taken(None, false)])
  {
    var k := START.(ctl := HELD, owed := Some(Took(None)), taken := map[1 := Taken(None, false)]);
    var s0 := Joint(k, map[], None, Side(Granted(v, 1), 1, [], [], {}, None));
    FirstGrant(k);
    assert Begins(s0);
    ReachedAtFirst(s0);
    s := s0.(keeper := k.(owed := None, presence := Presence(true, None)));
    ReachByKeeper(s0, PayPresence, s.keeper);
  }

  lemma FirstIsWritten(data: Bytes, k: KeeperInput.Sys)
    requires k.ctl == HELD && k.owed.None? && |data| <= ControllerSpec.MAX_INPUT
    ensures WouldWrite(k, Request(1, 1, data))
  {
  }

  /** A byte typed right away, a pause of the view, a lost answer, another byte: "out-of-order". */
  lemma AResetUnderTheLeaseCanConflict() returns (s: Joint)
    ensures Reached(s) && 1 in s.keeper.handlers
    ensures s.keeper.handlers[1] == Replied(Request(1, 1, [0x62]), ControllerSpec.Err(ControllerSpec.OutOfOrder))
  {
    var s0 := FirstLease(WATCHING);
    var s1 := TypedByteGoesOut(s0, 0, 0x61);
    assert TheRequest(s1.side) == Request(1, 1, [0x61]);
    FirstIsWritten([0x61], s1.keeper);
    s := AnyResetUnderTheLeaseCanConflict(s1, "paused", 1, 0x62);
  }

  /** A view whose earlier lease ended while a delivery paused writes those bytes first under the new one. */
  lemma APauseCrossesLeases() returns (s: Joint)
    ensures Reached(s) && s.side.kept == [] && s.side.acks == []
    ensures WritesOf(s) == [Entry(Request(1, 1, [0x61]), 1, Whole)]
  {
    var events := [Submit([0x61], true), Answer(Busy), Reset("released")];
    RunsConserveBytes(events);
    var v := Holder(After(IDLE, events), 0, 1, 0, 1);
    PausedClient("released");
    var s0 := FirstLease(v);
    FirstIsWritten([0x61], s0.keeper);
    s := OldBytesReachThePty(s0, 0);
  }
}
