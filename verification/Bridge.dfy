/** The grant check in front of the upstream: a control use is spent in the journal before a byte is sent. */
module Bridge {
  import opened Basics
  import opened Ledger
  import opened Framing
  import opened Authority
  import opened Journal

  datatype Need = Observe | Control

  function ActionOf(need: Need): string {
    match need case Observe => "observe" case Control => "control"
  }

  datatype Refused = NoGrant | NotGranted | AlreadyUsed | Unavailable | UpstreamFailed

  datatype Answer = Answered(body: seq<Byte>) | Refusal(why: Refused)

  function RefusalFor(outcome: Outcome): Refused {
    match outcome
    case Denied => NotGranted
    case Spent => AlreadyUsed
    case _ => Unavailable
  }

  datatype Trust = Trust(owner: Key, audience: string, epoch: nat, revoked: set<Id>)

  function PolicyAt(t: Trust, now: nat): Policy {
    Policy(t.owner, t.audience, t.epoch, now, t.revoked)
  }

  /** One upstream call, with the journal file and the anchored tip as they were when it was made. */
  datatype Sent = Sent(resource: string, body: seq<Byte>, file: seq<Byte>, anchored: Option<Tip>)

  // ---------------------------------------------------------------- what a released permit rests on

  lemma CatchUpKeepsCover(c: Codec, node: Key, mem: Mem, disk: seq<Byte>, spend: bool, w: World)
    requires GrantsCovered(mem.index)
    ensures GrantsCovered(CatchUp(c, node, mem, disk, spend, w).mem.index)
  {
    ScanKeepsCover(c, node, mem.index, if |disk| < mem.readTo then [] else disk[mem.readTo..]);
  }

  lemma AppendKeepsCover(c: Codec, node: Key, mem: Mem, disk: seq<Byte>, l: Line, spend: bool, w: World)
    requires GrantsCovered(mem.index)
    ensures GrantsCovered(Append(c, node, mem, disk, l, spend, w).mem.index)
  {
    var r := NewRecord(node, mem.index, l);
    assert GrantsCovered(Apply(mem.index, r.line).index);
  }

  lemma ReserveKeepsCover(c: Codec, node: Key, mem: Mem, disk: seq<Byte>, v: Verified, w: World)
    requires GrantsCovered(mem.index)
    ensures GrantsCovered(ReserveUnderLock(c, node, mem, disk, v, w).mem.index)
  {
    CatchUpKeepsCover(c, node, mem, disk, true, w);
    AppendKeepsCover(c, node, CatchUp(c, node, mem, disk, true, w).mem, disk, ReserveLine(v), true, w);
  }

  lemma FinishKeepsCover(c: Codec, node: Key, mem: Mem, disk: seq<Byte>, p: Permit, event: Event, w: World)
    requires GrantsCovered(mem.index)
    ensures GrantsCovered(FinishUnderLock(c, node, mem, disk, p, event, w).mem.index)
  {
    CatchUpKeepsCover(c, node, mem, disk, false, w);
    var caught := CatchUp(c, node, mem, disk, false, w);
    if caught.outcome == Done && Finishable(caught.mem.index, p) {
      assert (p.grant, p.nonce) in caught.mem.index.ops;
      AppendKeepsCover(c, node, caught.mem, disk, OutcomeLine(caught.mem.index, p, event), false, w);
    }
  }

  /** The file ends with the frame of a record for this very operation, and the anchor names it. */
  ghost predicate ReservedAndAnchored(c: Codec, node: Key, v: Verified, before: seq<Byte>, sent: Sent) {
    exists r: Record ::
      && sent.file == before + Frame(c, r) && sent.anchored == Some(Tip(r.line.seqNo, HashOf(r)))
      && r.sig == Signed(node, LineMessage(r.line))
      && r.line == ReserveLine(v).(seqNo := r.line.seqNo, prev := r.line.prev)
  }

  /** A reservation that went through is written, fsynced and anchored before the permit exists. */
  lemma PermitsAreWrittenAndAnchored(c: Codec, node: Key, mem: Mem, disk: seq<Byte>, v: Verified, w: World,
                                     resource: string, body: seq<Byte>)
    requires ReserveUnderLock(c, node, mem, disk, v, w).outcome == Done
    ensures w.syncOk && w.moveOk
    ensures var done := ReserveUnderLock(c, node, mem, disk, v, w);
            ReservedAndAnchored(c, node, v, disk, Sent(resource, body, done.disk, done.mem.floor))
  {
    var caught := CatchUp(c, node, mem, disk, true, w);
    var r := NewRecord(node, caught.mem.index, ReserveLine(v));
    var done := ReserveUnderLock(c, node, mem, disk, v, w);
    assert done.disk == disk + Frame(c, r);
  }

  lemma ReservingNeverDenies(c: Codec, node: Key, mem: Mem, disk: seq<Byte>, v: Verified, w: World)
    ensures var outcome := ReserveUnderLock(c, node, mem, disk, v, w).outcome;
            outcome != Denied && outcome != NotPending
  {
    AppendNeverDenies(c, node, CatchUp(c, node, mem, disk, true, w).mem, disk, ReserveLine(v), w);
  }

  lemma AppendNeverDenies(c: Codec, node: Key, mem: Mem, disk: seq<Byte>, line: Line, w: World)
    ensures var outcome := Append(c, node, mem, disk, line, true, w).outcome;
            outcome != Denied && outcome != Spent && outcome != NotPending
  {
  }

  /** What a control operation leaves behind: the reservation and, if a permit came of it, its conclusion. */
  ghost function SpendAndConclude(c: Codec, node: Key, mem: Mem, disk: seq<Byte>, v: Verified, event: Event,
                                  w: World, w2: World): Appended
    requires GrantsCovered(mem.index)
  {
    if !w.lockOk then Appended(mem, disk, Io)
    else
      var done := ReserveUnderLock(c, node, mem, disk, v, w);
      if done.outcome != Done || !w.unlockOk || !w2.lockOk then done
      else
        ReserveKeepsCover(c, node, mem, disk, v, w);
        FinishUnderLock(c, node, done.mem, done.disk, PermitOf(v), event, w2)
  }

  class Bridge {
    const trust: Trust
    const journal: Handle
    var calls: seq<Sent>

    ghost predicate Valid()
      reads this, journal, journal.anchor
    {
      GrantsCovered(journal.Memory().index)
    }

    constructor (trust: Trust, journal: Handle)
      requires GrantsCovered(journal.Memory().index)
      ensures Valid() && calls == [] && this.trust == trust && this.journal == journal
    {
      this.trust, this.journal, calls := trust, journal, [];
    }

    /**
     A peer's operation, checked and forwarded. `w` and `w2` are the worlds of the reservation and of the conclusion,
     `reply` what the upstream answers, if it does.
     */
    method Call(presented: Option<Presented>, need: Need, body: seq<Byte>, now: nat, w: World, w2: World,
                reply: Option<seq<Byte>>)
      returns (answer: Answer)
      requires Valid()
      modifies this, journal, journal.anchor, journal.file
      ensures Valid()
      // Nothing presented, or the wrong action asked for: nothing happens at all.
      ensures presented.None? ==> answer == Refusal(NoGrant)
      ensures presented.Some? && presented.value.request.action != ActionOf(need) ==> answer == Refusal(NotGranted)
      ensures presented.None? || presented.value.request.action != ActionOf(need)
              || Verify(presented.value, body, PolicyAt(trust, now)).None? ==>
                calls == old(calls) && journal.file.bytes == old(journal.file.bytes)
                && journal.Memory() == old(journal.Memory()) && answer.Refusal?
      // Observing is checked, then made, and leaves file, handle and anchor as they are.
      ensures need.Observe? ==>
                journal.file.bytes == old(journal.file.bytes) && journal.Memory() == old(journal.Memory())
      ensures need.Observe? && presented.Some? && presented.value.request.action == "observe" ==>
                (|calls| > |old(calls)| <==> Verify(presented.value, body, PolicyAt(trust, now)).Some?)
      // At most one upstream call, for exactly the resource and bytes that were verified.
      ensures calls == old(calls) || (|calls| == |old(calls)| + 1 && calls[..|old(calls)|] == old(calls))
      ensures |calls| > |old(calls)| ==>
                && presented.Some? && presented.value.request.action == ActionOf(need)
                && Verify(presented.value, body, PolicyAt(trust, now)).Some?
                && calls[|old(calls)|].resource == presented.value.grant.resource
                && calls[|old(calls)|].body == body
                && answer == (if reply.Some? then Answered(reply.value) else Refusal(UpstreamFailed))
      ensures |calls| == |old(calls)| ==> answer.Refusal?
      // A control call is made only once its reservation is in the file and anchored.
      ensures need.Control? && |calls| > |old(calls)| ==>
                ReservedAndAnchored(journal.codec, journal.node,
                                    Verify(presented.value, body, PolicyAt(trust, now)).value,
                                    old(journal.file.bytes), calls[|old(calls)|])
      ensures need.Control? && presented.Some? && presented.value.request.action == "control"
              && Verify(presented.value, body, PolicyAt(trust, now)).Some? && w.lockOk && w.unlockOk ==>
                var v := Verify(presented.value, body, PolicyAt(trust, now)).value;
                var done := ReserveUnderLock(journal.codec, journal.node, old(journal.Memory()),
                                             old(journal.file.bytes), v, w);
                && (|calls| > |old(calls)| <==> done.outcome == Done)
                && (done.outcome == Spent ==> answer == Refusal(AlreadyUsed))
                && (done.outcome != Done && done.outcome != Spent ==> answer == Refusal(Unavailable))
      // What is not granted is said so, and a lock that fails only makes the journal unavailable.
      ensures presented.Some? && presented.value.request.action == ActionOf(need)
              && Verify(presented.value, body, PolicyAt(trust, now)).None? ==>
                answer == Refusal(NotGranted)
      ensures need.Control? && presented.Some? && presented.value.request.action == "control"
              && Verify(presented.value, body, PolicyAt(trust, now)).Some? && !(w.lockOk && w.unlockOk) ==>
                answer == Refusal(Unavailable)
      ensures need.Control? && presented.Some? && presented.value.request.action == "control"
              && Verify(presented.value, body, PolicyAt(trust, now)).Some? ==>
                var left := SpendAndConclude(journal.codec, journal.node, old(journal.Memory()),
                                             old(journal.file.bytes),
                                             Verify(presented.value, body, PolicyAt(trust, now)).value,
                                             if reply.Some? then Succeeded else Unknown, w, w2);
                journal.Memory() == left.mem && journal.file.bytes == left.disk
    {
      if presented.None? {
        return Refusal(NoGrant);
      }
      var p := presented.value;
      if p.request.action != ActionOf(need) {
        return Refusal(NotGranted);
      }
      var policy := PolicyAt(trust, now);
      if need.Observe? {
        if Verify(p, body, policy).None? {
          return Refusal(RefusalFor(Denied));
        }
        calls := calls + [Sent(p.request.resource, body, journal.file.bytes, journal.anchor.last)];
      } else {
        ghost var mem, disk := journal.Memory(), journal.file.bytes;
        var outcome, permit := journal.Authorize(p, body, policy, w);
        if outcome != Done {
          if Verify(p, body, policy).Some? {
            ReserveKeepsCover(journal.codec, journal.node, mem, disk, Verify(p, body, policy).value, w);
            ReservingNeverDenies(journal.codec, journal.node, mem, disk, Verify(p, body, policy).value, w);
          }
          return Refusal(RefusalFor(outcome));
        }
        ghost var v := Verify(p, body, policy).value;
        ReserveKeepsCover(journal.codec, journal.node, mem, disk, v, w);
        PermitsAreWrittenAndAnchored(journal.codec, journal.node, mem, disk, v, w, p.request.resource, body);
        calls := calls + [Sent(p.request.resource, body, journal.file.bytes, journal.anchor.last)];
        mem, disk := journal.Memory(), journal.file.bytes;
        FinishKeepsCover(journal.codec, journal.node, mem, disk, permit.value,
                         if reply.Some? then Succeeded else Unknown, w2);
        var _ := journal.Finish(permit.value, if reply.Some? then Succeeded else Unknown, w2);
      }
      return if reply.Some? then Answered(reply.value) else Refusal(UpstreamFailed);
    }
  }
}
