/**
 A control call of the bridge is a run of the journal's steps: the permit it is given is used for its one
 upstream call and then given up. So what holds over all runs holds of what bridges send.
 */
module BridgeRuns {
  import opened Basics
  import opened Ledger
  import opened Framing
  import opened Authority
  import opened Transitions
  import opened JournalRuns
  import opened JournalSteps
  import Bridge

  lemma NextKeeps(c: Codec, node: Key, s: Sys, s': Sys)
    requires Inv(c, node, s) && Next(c, node, s, s')
    ensures Inv(c, node, s')
  {
    var act :| Takes(c, node, s, act, s');
    StepKeepsInvariant(c, node, s, act, s');
  }

  lemma LeadsKeeps(c: Codec, node: Key, s: Sys, s': Sys)
    requires Inv(c, node, s) && Leads(c, node, s, s')
    ensures Inv(c, node, s')
  {
    forall a, b | Inv(c, node, a) && Next(c, node, a, b) ensures Inv(c, node, b) {
      NextKeeps(c, node, a, b);
    }
    ReachesKeeps(Steps(c, node), a => Inv(c, node, a), s, s');
  }

  /** What a handle knows is covered: its index is the replay of records. */
  lemma KnownIsCovered(c: Codec, node: Key, s: Sys, h: nat)
    requires Inv(c, node, s) && h in s.handles
    ensures GrantsCovered(s.handles[h].mem.index)
  {
    assert Knows(c, node, s, s.handles[h]);
    ReplayKeepsCover(node, EMPTY, s.records[..NextSeq(s.handles[h].mem.index) - 1]);
  }

  /** A reservation that went through counted one line more than the file had. */
  lemma ReservationsCountOne(c: Codec, node: Key, s: Sys, h: nat, v: Verified, w: World)
    requires Inv(c, node, s) && h in s.handles
    requires ReserveUnderLock(c, node, s.handles[h].mem, Disk(c, s), v, w).outcome == Done
    ensures NextSeq(ReserveUnderLock(c, node, s.handles[h].mem, Disk(c, s), v, w).mem.index) == |s.records| + 2
  {
    assert Knows(c, node, s, s.handles[h]);
    CatchUpKnows(c, node, s, s.handles[h], true, w, Idle);
    KnownTip(node, s.records);
  }

  lemma KnowsToTheEnd(c: Codec, node: Key, s: Sys, h: nat)
    requires Inv(c, node, s) && h in s.handles && NextSeq(s.handles[h].mem.index) > |s.records|
    ensures s.handles[h].mem.index == IndexOf(node, s.records)
  {
    assert Knows(c, node, s, s.handles[h]);
    assert s.records[..|s.records|] == s.records;
  }

  /** The records a control call may write can be read back. */
  ghost predicate CallIsCarried(c: Codec, node: Key, s: Sys, h: nat, spend: Job, event: Event, w: World)
    requires Accepted(node, s.records) && h in s.handles && spend.Spend?
  {
    var ix := IndexOf(node, s.records);
    var done := ReserveUnderLock(c, node, s.handles[h].mem, Disk(c, s), spend.v, w);
    && (Allowed(ix, spend) ==> Carried(c, NextRecord(node, ix, spend)))
    && (done.outcome == Done ==> Carried(c, NextRecord(node, done.mem.index, Conclude(PermitOf(spend.v), event))))
  }

  /** The upstream call, made under the permit just released. */
  lemma CallsUpstream(c: Codec, node: Key, s0: Sys, s: Sys, before: seq<Release>, rel: Release) returns (s': Sys)
    requires Leads(c, node, s0, s) && s.released == before + [rel] && rel.stage.Held?
    ensures Leads(c, node, s0, s')
    ensures s' == s.(released := before + [rel.(stage := Sent)],
                     calls := s.calls + [Call(|before|, rel.presented.request.resource, rel.body)])
  {
    s' := s.(released := s.released[|before| := rel.(stage := Sent)],
             calls := s.calls + [Call(|before|, rel.presented.request.resource, rel.body)]);
    Then(c, node, s0, s, Upstream(|before|), s');
    LastReplaced(before, rel, rel.(stage := Sent));
  }

  lemma LastReplaced<T>(before: seq<T>, x: T, y: T)
    ensures (before + [x])[|before| := y] == before + [y]
  {
  }

  /** With the lock: reserve; with a permit, call; with the lock again, conclude. */
  lemma LockedCallIsARun(c: Codec, node: Key, s: Sys, h: nat, p: Presented, body: seq<Byte>, policy: Policy,
                         event: Event, w: World, w2: World) returns (s': Sys)
    requires Inv(c, node, s) && h in s.handles && s.handles[h].pc.Idle? && s.holder.None? && w.lockOk
    requires Verify(p, body, policy).Some? && !event.Reserve? && GrantsCovered(s.handles[h].mem.index)
    requires CallIsCarried(c, node, s, h, Spend(p, body, policy, Verify(p, body, policy).value), event, w)
    ensures var left := Bridge.SpendAndConclude(c, node, s.handles[h].mem, Disk(c, s),
                                                Verify(p, body, policy).value, event, w, w2);
            Leads(c, node, s, s') && LeftAs(c, s', h, left)
    ensures CallsAfter(c, node, s, h, p, body, policy, w, s')
  {
    var v := Verify(p, body, policy).value;
    s' := ReservationIsARun(c, node, s, h, p, body, policy, v, w);
    var done := ReserveUnderLock(c, node, s.handles[h].mem, Disk(c, s), v, w);
    if done.outcome == Done && w.unlockOk {
      ReservationsCountOne(c, node, s, h, v, w);
      var rel := Release(PermitOf(v), |s.records|, p, body, policy, Held);
      s' := PermittedCallIsARun(c, node, s, s', h, s.released, rel, event, w2);
    }
  }

  lemma ReservationIsARun(c: Codec, node: Key, s: Sys, h: nat, p: Presented, body: seq<Byte>, policy: Policy,
                          v: Verified, w: World) returns (s': Sys)
    requires Inv(c, node, s) && h in s.handles && s.handles[h].pc.Idle? && s.holder.None? && w.lockOk
    requires Verify(p, body, policy) == Some(v) && GrantsCovered(s.handles[h].mem.index)
    requires var (ix, spend) := (IndexOf(node, s.records), Spend(p, body, policy, v));
             Allowed(ix, spend) ==> Carried(c, NextRecord(node, ix, spend))
    ensures var done := ReserveUnderLock(c, node, s.handles[h].mem, Disk(c, s), v, w);
            && Leads(c, node, s, s') && LeftAs(c, s', h, done) && s'.calls == s.calls && |s'.records| <= |s.records| + 1
            && s'.released == if done.outcome != Done || !w.unlockOk then s.released else
                 s.released + [Release(PermitOf(v), |s.records|, p, body, policy, Held)]
  {
    var spend := Spend(p, body, policy, v);
    s' := OperationsAreRuns(c, node, s, h, spend, 0, w);
    JobsAreOperations(c, node, s.handles[h].mem, Disk(c, s), spend, w);
  }

  /** With a permit just released: call, and with the lock again, conclude. */
  lemma PermittedCallIsARun(c: Codec, node: Key, s0: Sys, s: Sys, h: nat, before: seq<Release>, rel: Release,
                            event: Event, w: World) returns (s': Sys)
    requires Inv(c, node, s0) && Leads(c, node, s0, s)
    requires h in s.handles && s.handles[h].pc.Idle? && s.holder.None?
    requires NextSeq(s.handles[h].mem.index) > |s.records| && !event.Reserve?
    requires s.released == before + [rel] && rel.stage.Held?
    requires Carried(c, NextRecord(node, s.handles[h].mem.index, Conclude(rel.permit, event)))
    ensures GrantsCovered(s.handles[h].mem.index) && Leads(c, node, s0, s')
    ensures LeftAs(c, s', h, if !w.lockOk then Appended(s.handles[h].mem, Disk(c, s), Done)
                             else FinishUnderLock(c, node, s.handles[h].mem, Disk(c, s), rel.permit, event, w))
    ensures s'.calls == s.calls + [Call(|before|, rel.presented.request.resource, rel.body)]
    ensures s'.released == before + [rel.(stage := Concluded)]
  {
    LeadsKeeps(c, node, s0, s);
    KnowsToTheEnd(c, node, s, h);
    KnownIsCovered(c, node, s, h);
    s' := CallsUpstream(c, node, s0, s, before, rel);
    if w.lockOk {
      s' := Concludes(c, node, s0, s', h, before, rel.(stage := Sent), event, w);
    } else {
      s' := GivesUp(c, node, s0, s', h, before, rel.(stage := Sent), event, w);
    }
  }

  /** Exactly when a permit came out there is one call more and one permit more, given up. */
  ghost predicate CallsAfter(c: Codec, node: Key, s: Sys, h: nat, p: Presented, body: seq<Byte>, policy: Policy,
                             w: World, s': Sys)
    requires h in s.handles && Verify(p, body, policy).Some?
  {
    var v := Verify(p, body, policy).value;
    if w.lockOk && w.unlockOk && ReserveUnderLock(c, node, s.handles[h].mem, Disk(c, s), v, w).outcome == Done then
      && s'.calls == s.calls + [Call(|s.released|, p.request.resource, body)]
      && s'.released == s.released + [Release(PermitOf(v), |s.records|, p, body, policy, Concluded)]
    else s'.calls == s.calls && s'.released == s.released
  }

  /**
   A verified control call on an idle handle while nobody holds the lock, whatever its worlds do: it leaves
   file and handle as a run does in which, exactly when a permit came out, one permit is released, one
   upstream call is made under it, for what was asked and with the bytes given, and the permit is given up,
   with its outcome in the file if the second lock and what follows it work.
   */
  lemma ControlCallsAreRuns(c: Codec, node: Key, s: Sys, h: nat, p: Presented, body: seq<Byte>, policy: Policy,
                            event: Event, w: World, w2: World) returns (s': Sys)
    requires Inv(c, node, s) && h in s.handles && s.handles[h].pc.Idle? && s.holder.None?
    requires Verify(p, body, policy).Some? && !event.Reserve?
    requires CallIsCarried(c, node, s, h, Spend(p, body, policy, Verify(p, body, policy).value), event, w)
    ensures GrantsCovered(s.handles[h].mem.index)
    ensures var v := Verify(p, body, policy).value;
            var left := Bridge.SpendAndConclude(c, node, s.handles[h].mem, Disk(c, s), v, event, w, w2);
            Leads(c, node, s, s') && LeftAs(c, s', h, left)
    ensures CallsAfter(c, node, s, h, p, body, policy, w, s')
  {
    KnownIsCovered(c, node, s, h);
    if w.lockOk {
      s' := LockedCallIsARun(c, node, s, h, p, body, policy, event, w, w2);
    } else {
      s' := s;
      NoStep(Steps(c, node), s);
    }
  }

  /** Without the lock the permit is given up all the same. */
  lemma GivesUp(c: Codec, node: Key, s0: Sys, s: Sys, h: nat, before: seq<Release>, rel: Release, event: Event,
                w: World) returns (s': Sys)
    requires Leads(c, node, s0, s) && h in s.handles && s.handles[h].pc.Idle? && s.holder.None?
    requires s.released == before + [rel] && !rel.stage.Concluded? && !w.lockOk && !event.Reserve?
    ensures Leads(c, node, s0, s') && s' == s.(released := before + [rel.(stage := Concluded)])
  {
    LastReplaced(before, rel, rel.(stage := Concluded));
    s' := s.(released := before + [rel.(stage := Concluded)]);
    Then(c, node, s0, s, Begin(h, Conclude(rel.permit, event), |before|, w), s');
  }

  /** The permit is given up and its outcome recorded, if that works. */
  lemma Concludes(c: Codec, node: Key, s0: Sys, s: Sys, h: nat, before: seq<Release>, rel: Release, event: Event,
                  w: World) returns (s': Sys)
    requires Inv(c, node, s0) && Leads(c, node, s0, s) && h in s.handles && s.handles[h].pc.Idle? && s.holder.None?
    requires s.released == before + [rel] && !rel.stage.Concluded? && w.lockOk && !event.Reserve?
    requires Accepted(node, s.records)
    requires Carried(c, NextRecord(node, IndexOf(node, s.records), Conclude(rel.permit, event)))
    ensures GrantsCovered(s.handles[h].mem.index)
    ensures Leads(c, node, s0, s') && s'.calls == s.calls
    ensures LeftAs(c, s', h, FinishUnderLock(c, node, s.handles[h].mem, Disk(c, s), rel.permit, event, w))
    ensures s'.released == before + [rel.(stage := Concluded)]
  {
    LeadsKeeps(c, node, s0, s);
    KnownIsCovered(c, node, s, h);
    var job := Conclude(rel.permit, event);
    s' := OperationsAreRuns(c, node, s, h, job, |before|, w);
    LastReplaced(before, rel, rel.(stage := Concluded));
    JobsAreOperations(c, node, s.handles[h].mem, Disk(c, s), job, w);
    ReachesOn(Steps(c, node), s0, s, s');
  }
}
