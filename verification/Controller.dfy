/** Input control in the form the keeper has it, changed in place. */
module Controller {
  import opened Basics
  import opened ControllerSpec

  class Controller {
    var generation: nat
    var active: bool
    var last: nat
    var recent: seq<Input>
    var recentBytes: int
    var uncertain: bool
    var handoff: Option<Offer>

    ghost function View(): Ctl
      reads this
    {
      Ctl(generation, active, last, recent, recentBytes, uncertain, handoff)
    }

    constructor ()
      ensures View() == NOBODY && WindowOk(View())
    {
      generation, active, last, recent, recentBytes, uncertain, handoff := 0, false, 0, [], 0, false, None;
    }

    method AcquireLease(takeover: bool) returns (answer: Answer)
      modifies this
      ensures Result(View(), answer) == Acquire(old(View()), takeover)
    {
      if active && !takeover {
        return Err(AlreadyControlled);
      }
      if generation >= U64_MAX {
        return Err(GenerationsExhausted);
      }
      generation := generation + 1;
      handoff := None;
      active := true;
      last := 0;
      recent := [];
      recentBytes := 0;
      uncertain := false;
      return Lease(generation);
    }

    method CheckLease(g: nat) returns (answer: Answer)
      ensures answer == Check(View(), g)
    {
      return if !active || g != generation then Err(StaleGeneration) else Ok;
    }

    method ReleaseLease(g: nat) returns (answer: Answer)
      modifies this
      ensures Result(View(), answer) == Release(old(View()), g)
    {
      answer := CheckLease(g);
      if answer == Ok {
        active := false;
        handoff := None;
      }
    }

    method Offer(g: nat, ticket: string, now: nat) returns (answer: Answer)
      modifies this
      ensures Result(View(), answer) == OfferHandoff(old(View()), g, ticket, now)
    {
      answer := CheckLease(g);
      if answer == Ok {
        handoff := Some(ControllerSpec.Offer.Offer(ticket, Min(now + HANDOFF_SECONDS, U64_MAX)));
      }
    }

    method Cancel(g: nat) returns (answer: Answer)
      modifies this
      ensures Result(View(), answer) == CancelHandoff(old(View()), g)
    {
      answer := CheckLease(g);
      if answer == Ok {
        handoff := None;
      }
    }

    method Accept(ticket: string, now: nat) returns (answer: Answer)
      modifies this
      ensures Result(View(), answer) == AcceptHandoff(old(View()), ticket, now)
    {
      if handoff.None? {
        return Err(HandoffUnavailable);
      }
      if now >= handoff.value.deadline {
        handoff := None;
        return Err(HandoffExpired);
      }
      if ticket != handoff.value.ticket {
        return Err(HandoffUnavailable);
      }
      answer := AcquireLease(true);
    }

    /** Decide about one input; `WindowOk` is why the eviction loop always finds an oldest input. */
    method PrepareInput(g: nat, sequence: nat, data: seq<Byte>) returns (answer: Answer)
      requires WindowOk(View()) && |data| <= MAX_INPUT
      modifies this
      ensures Result(View(), answer) == Prepare(old(View()), g, sequence, data)
      ensures WindowOk(View())
    {
      OpsKeepTheWindow(View(), OpPrepare(g, sequence, data));
      answer := CheckLease(g);
      if answer != Ok {
        return;
      }
      if uncertain {
        return Err(InputUncertain);
      }
      if sequence != 0 && sequence <= last {
        return if Input(sequence, data) in recent then Duplicate else Err(OutOfOrder);
      }
      if last >= U64_MAX {
        return Err(SequenceExhausted);
      }
      if sequence != last + 1 {
        return Err(OutOfOrder);
      }
      last := sequence;
      recent := recent + [Input(sequence, data)];
      BytesSplit(old(recent), [Input(sequence, data)]);
      assert [Input(sequence, data)][1..] == [];
      recentBytes := recentBytes + |data|;
      ghost var all, size := recent, recentBytes;
      while |recent| > DEDUP_WINDOW || recentBytes > DEDUP_BYTES
        invariant recentBytes == BytesOf(recent) && Evict(all, size) == Evict(recent, recentBytes)
        invariant generation == old(generation) && active == old(active) && last == sequence
        invariant uncertain == old(uncertain) && handoff == old(handoff)
        decreases |recent|
      {
        assert recent != [];
        recentBytes := recentBytes - |recent[0].data|;
        recent := recent[1..];
      }
      uncertain := true;
      return Write;
    }

    method MarkWritten()
      modifies this
      ensures View() == Written(old(View()))
    {
      uncertain := false;
    }
  }
}
