/**
 One whole operation of a handle, left undisturbed, is a run of the steps: the interleaved system takes
 the operations apart without changing what they do.
 */
module JournalSteps {
  import opened Basics
  import opened Ledger
  import opened Framing
  import opened Authority
  import opened Transitions
  import opened JournalRuns

  ghost function Steps(c: Codec, node: Key): (Sys, Sys) -> bool {
    (s, s') => Next(c, node, s, s')
  }

  ghost predicate Leads(c: Codec, node: Key, s: Sys, s': Sys) {
    Reaches(Steps(c, node), s, s')
  }

  lemma Then(c: Codec, node: Key, s: Sys, mid: Sys, act: Action, s': Sys)
    requires Leads(c, node, s, mid) && Takes(c, node, mid, act, s')
    ensures Leads(c, node, s, s')
  {
    assert Next(c, node, mid, s');
    OneStepMore(Steps(c, node), s, mid, s');
  }

  /** A whole operation under the lock: catch up, check, append. */
  function JobUnderLock(c: Codec, node: Key, mem: Mem, disk: seq<Byte>, job: Job, w: World): Appended {
    var caught := CatchUp(c, node, mem, disk, IsSpend(job), w);
    if caught.outcome != Done then Appended(caught.mem, disk, caught.outcome)
    else if !Allowed(caught.mem.index, job) then Appended(caught.mem, disk, if IsSpend(job) then Spent else NotPending)
    else Append(c, node, caught.mem, disk, LineFor(caught.mem.index, job), IsSpend(job), w)
  }

  /** It is what reserving and finishing do. */
  lemma JobsAreOperations(c: Codec, node: Key, mem: Mem, disk: seq<Byte>, job: Job, w: World)
    requires GrantsCovered(mem.index)
    ensures job.Spend? ==> JobUnderLock(c, node, mem, disk, job, w) == ReserveUnderLock(c, node, mem, disk, job.v, w)
    ensures job.Conclude? ==>
              JobUnderLock(c, node, mem, disk, job, w) == FinishUnderLock(c, node, mem, disk, job.permit, job.event, w)
  {
    if job.Conclude? {
      ScanKeepsCover(c, node, mem.index, if |disk| < mem.readTo then [] else disk[mem.readTo..]);
    }
  }

  /** The file and the handle as an operation leaves them. */
  ghost predicate LeftAs(c: Codec, s: Sys, h: nat, left: Appended) {
    && s.holder.None? && h in s.handles && s.handles[h].pc.Idle?
    && s.handles[h].mem == left.mem && Disk(c, s) == left.disk
  }

  /** From the write on. `s` is where the operation caught up, `spent` how many permits there were. */
  lemma WriteOn(c: Codec, node: Key, s0: Sys, s: Sys, h: nat, w: World) returns (s': Sys)
    requires Leads(c, node, s0, s) && s.holder == Some(h) && s.tail == []
    requires h in s.handles && s.handles[h].pc.Ready?
    requires Carried(c, NextRecord(node, s.handles[h].mem.index, s.handles[h].pc.job))
    ensures var hd := s.handles[h];
            var left := Append(c, node, hd.mem, Disk(c, s), LineFor(hd.mem.index, hd.pc.job), IsSpend(hd.pc.job), w);
            && Leads(c, node, s0, s') && LeftAs(c, s', h, left)
            && s'.released == ReleasedAfter(s.released, |s.records|, hd.pc.job, left.outcome == Done && w.unlockOk)
            && s'.calls == s.calls && |s'.records| <= |s.records| + 1
  {
    var hd := s.handles[h];
    var job := hd.pc.job;
    var r := NextRecord(node, hd.mem.index, job);
    assert Disk(c, s) == Frames(c, s.records);
    if w.written < |Frame(c, r)| {
      s' := s.(tail := Frame(c, r)[..w.written], holder := None, handles := s.handles[h := hd.(pc := Idle)]);
      Then(c, node, s0, s, Write(h, w.written), s');
    } else {
      var wrote := s.(records := s.records + [r], handles := s.handles[h := hd.(pc := Wrote(job, r))]);
      Then(c, node, s0, s, Write(h, w.written), wrote);
      FramesOfOne(c, s.records, r);
      assert Disk(c, wrote) == Disk(c, s) + Frame(c, r);
      s' := SyncOn(c, node, s0, wrote, h, w);
    }
  }

  /** The permits after an operation: one more exactly when a spend went all the way through. */
  function ReleasedAfter(released: seq<Release>, at: nat, job: Job, done: bool): seq<Release> {
    if done && job.Spend? then
      released + [Release(PermitOf(job.v), at, job.presented, job.body, job.policy, Held)]
    else released
  }

  /** From the fsync on. */
  lemma SyncOn(c: Codec, node: Key, s0: Sys, s: Sys, h: nat, w: World) returns (s': Sys)
    requires Leads(c, node, s0, s) && s.holder == Some(h) && s.tail == [] && s.records != []
    requires h in s.handles && s.handles[h].pc.Wrote?
    ensures var hd := s.handles[h];
            var job := hd.pc.job;
            var done := Authority.Settle(hd.mem, hd.pc.record, |Frame(c, hd.pc.record)|, IsSpend(job), w);
            && Leads(c, node, s0, s')
            && LeftAs(c, s', h, if w.syncOk then Appended(done.mem, Disk(c, s), done.outcome)
                                else Appended(hd.mem, Disk(c, s), Io))
            && s'.released == ReleasedAfter(s.released, |s.records| - 1, job,
                                            w.syncOk && done.outcome == Done && w.unlockOk)
            && s'.calls == s.calls && s'.records == s.records
  {
    var hd := s.handles[h];
    var Wrote(job, r) := hd.pc;
    if !w.syncOk {
      s' := s.(holder := None, handles := s.handles[h := hd.(pc := Idle)]);
      Then(c, node, s0, s, Sync(h, false), s');
    } else {
      var durable := s.(durable := |s.records|, handles := s.handles[h := hd.(pc := Durable(job, r))]);
      Then(c, node, s0, s, Sync(h, true), durable);
      s' := SettleOn(c, node, s0, durable, h, w);
    }
  }

  /** From the anchor on. */
  lemma SettleOn(c: Codec, node: Key, s0: Sys, s: Sys, h: nat, w: World) returns (s': Sys)
    requires Leads(c, node, s0, s) && s.holder == Some(h) && s.records != []
    requires h in s.handles && s.handles[h].pc.Durable?
    ensures var hd := s.handles[h];
            var job := hd.pc.job;
            var done := Authority.Settle(hd.mem, hd.pc.record, |Frame(c, hd.pc.record)|, IsSpend(job), w);
            && Leads(c, node, s0, s') && LeftAs(c, s', h, Appended(done.mem, Disk(c, s), done.outcome))
            && s'.released == ReleasedAfter(s.released, |s.records| - 1, job,
                                            done.outcome == Done && w.unlockOk)
            && s'.calls == s.calls && s'.records == s.records
  {
    var hd := s.handles[h];
    var Durable(job, r) := hd.pc;
    var done := Authority.Settle(hd.mem, r, |Frame(c, r)|, IsSpend(job), w);
    var settled := CountOn(c, node, s0, s, h, job, r, w);
    s' := if done.outcome == Done then ReturnedFrom(settled, h, job, w) else settled;
    if done.outcome == Done {
      ReturnOn(c, node, s0, settled, h, job, r, w);
    }
  }

  lemma CountOn(c: Codec, node: Key, s0: Sys, s: Sys, h: nat, job: Job, r: Record, w: World) returns (s': Sys)
    requires Leads(c, node, s0, s) && s.holder == Some(h)
    requires h in s.handles && s.handles[h].pc == Durable(job, r)
    ensures var done := Authority.Settle(s.handles[h].mem, r, |Frame(c, r)|, IsSpend(job), w);
            && Leads(c, node, s0, s') && h in s'.handles && s'.handles[h].mem == done.mem
            && s'.handles[h].pc == (if done.outcome == Done then Settled(job, r) else Idle)
            && s' == s.(holder := if done.outcome == Done then Some(h) else None, handles := s'.handles)
  {
    var hd := s.handles[h];
    var done := Authority.Settle(hd.mem, r, |Frame(c, r)|, IsSpend(job), w);
    var read := if done.mem.readTo == hd.mem.readTo then hd.read else hd.read + 1;
    var next := Handle(done.mem, read, if done.outcome == Done then Settled(job, r) else Idle);
    s' := s.(holder := if done.outcome == Done then Some(h) else None, handles := s.handles[h := next]);
    Then(c, node, s0, s, Action.Settle(h, w), s');
  }

  function ReturnedFrom(s: Sys, h: nat, job: Job, w: World): Sys
    requires h in s.handles && s.records != []
  {
    s.(holder := None, handles := s.handles[h := s.handles[h].(pc := Idle)],
       released := ReleasedAfter(s.released, |s.records| - 1, job, w.unlockOk))
  }

  /** The return. */
  lemma ReturnOn(c: Codec, node: Key, s0: Sys, s: Sys, h: nat, job: Job, r: Record, w: World)
    requires Leads(c, node, s0, s) && s.holder == Some(h) && s.records != []
    requires h in s.handles && s.handles[h].pc == Settled(job, r)
    ensures Leads(c, node, s0, ReturnedFrom(s, h, job, w))
  {
    Then(c, node, s0, s, Return(h, w.unlockOk), ReturnedFrom(s, h, job, w));
  }

  /**
   Reserving or finishing by an idle handle while nobody holds the lock, whatever its world does, leaves
   the file, the handle and the permits exactly as a run of the steps does.
   */
  lemma OperationsAreRuns(c: Codec, node: Key, s: Sys, h: nat, job: Job, which: nat, w: World) returns (s': Sys)
    requires Inv(c, node, s) && h in s.handles && s.handles[h].pc.Idle? && s.holder.None?
    requires MayBegin(s, job, which) && w.lockOk
    requires var ix := IndexOf(node, s.records); Allowed(ix, job) ==> Carried(c, NextRecord(node, ix, job))
    ensures var left := JobUnderLock(c, node, s.handles[h].mem, Disk(c, s), job, w);
            && Leads(c, node, s, s') && LeftAs(c, s', h, left)
            && s'.released == ReleasedAfter(AfterBegin(s, job, which), |s.records|, job,
                                            left.outcome == Done && w.unlockOk)
            && s'.calls == s.calls && |s'.records| <= |s.records| + 1
  {
    NoStep(Steps(c, node), s);
    var caught := CatchUp(c, node, s.handles[h].mem, Disk(c, s), IsSpend(job), w);
    var go := caught.outcome == Done && Allowed(caught.mem.index, job);
    var read := ReadAfter(s, s.handles[h], caught.mem, |Disk(c, s)|);
    var begun := s.(handles := s.handles[h := Handle(caught.mem, read, if go then Ready(job) else Idle)],
                    holder := if go then Some(h) else None, released := AfterBegin(s, job, which));
    Then(c, node, s, s, Begin(h, job, which, w), begun);
    if go {
      CatchUpKnows(c, node, s, s.handles[h], IsSpend(job), w, Idle);
      s' := WriteOn(c, node, s, begun, h, w);
    } else {
      s' := begun;
    }
  }
}
