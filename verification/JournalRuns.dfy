/**
 Any number of journal handles on one file beside one anchor, as interleaved steps.

 A file lock makes everything between taking and releasing it exclusive, so the steps below are cut at
 the points where something outside can happen: after catching up, after the write, after fsync, when
 the anchor moves, when the call returns. At each of them a process may die, the machine may lose power,
 or the anchor program may fail or succeed without saying so. Permits and upstream calls are recorded as
 they are handed out.
 */
module JournalRuns {
  import opened Basics
  import opened Ledger
  import opened Framing
  import opened Authority

  /** What became of a released permit: held by its caller, used for the upstream call, or concluded. */
  datatype Stage = Held | Sent | Concluded

  /** `at` is the index of the reserve line the permit was released for. */
  datatype Release = Release(permit: Permit, at: nat, presented: Presented, body: seq<Byte>, policy: Policy,
                             stage: Stage)

  /** One upstream call: under which permit, to what, with which bytes. */
  datatype Call = Call(which: nat, resource: string, body: seq<Byte>)

  datatype Job =
    | Spend(presented: Presented, body: seq<Byte>, policy: Policy, v: Verified)
    | Conclude(permit: Permit, event: Event)

  datatype Pc =
    | Idle
    | Ready(job: Job)                    // caught up and checked; the write comes next
    | Wrote(job: Job, record: Record)    // the frame is in the file, not yet durable
    | Durable(job: Job, record: Record)  // fsynced; the anchor comes next
    | Settled(job: Job, record: Record)  // all done but the return

  /** `read` counts the records behind `mem.readTo`. */
  datatype Handle = Handle(mem: Mem, read: nat, pc: Pc)

  /** The file is the frames of `records`, then `tail`, a torn piece of a frame (usually nothing). */
  datatype Sys = Sys(records: seq<Record>, tail: seq<Byte>, durable: nat, anchor: Option<Tip>,
                     handles: map<nat, Handle>, holder: Option<nat>,
                     released: seq<Release>, calls: seq<Call>)

  const START := Sys([], [], 0, None, map[], None, [], [])

  ghost function Disk(c: Codec, s: Sys): seq<Byte>
  {
    Frames(c, s.records) + s.tail
  }

  datatype Action =
    | Open(h: nat, w: World)
    | Begin(h: nat, job: Job, which: nat, w: World)
    | Write(h: nat, written: nat)
    | Sync(h: nat, ok: bool)
    | Land(line: nat)
    | Settle(h: nat, w: World)
    | Return(h: nat, unlockOk: bool)
    | Kill(h: nat)
    | PowerLoss(kept: nat, torn: seq<Byte>)
    | Upstream(which: nat)

  function LastIndex(s: Sys): nat {
    if s.records == [] then 0 else |s.records| - 1
  }

  predicate IsSpend(job: Job) {
    job.Spend?
  }

  function LineFor(ix: Index, job: Job): Line {
    match job
    case Spend(_, _, _, v) => ReserveLine(v)
    case Conclude(p, event) => if p.grant in ix.grants then OutcomeLine(ix, p, event)
                               else Line(0, Zero, p.grant, Zero, p.nonce, p.request, event, 0)
  }

  /** The record a job writes from this index. */
  function NextRecord(node: Key, ix: Index, job: Job): Record {
    NewRecord(node, ix, LineFor(ix, job))
  }

  predicate Allowed(ix: Index, job: Job) {
    match job
    case Spend(_, _, _, v) => Spendable(ix, v)
    case Conclude(p, _) => Finishable(ix, p)
  }

  /** A spend starts from a verified presentation, a conclusion from a permit not yet given up. */
  predicate MayBegin(s: Sys, job: Job, which: nat) {
    match job
    case Spend(p, body, policy, v) => Verify(p, body, policy) == Some(v)
    case Conclude(p, event) =>
      !event.Reserve? && which < |s.released| && s.released[which].permit == p && !s.released[which].stage.Concluded?
  }

  function AfterBegin(s: Sys, job: Job, which: nat): seq<Release> {
    if job.Conclude? && which < |s.released| then
      s.released[which := s.released[which].(stage := Concluded)]
    else s.released
  }

  /** How many whole records a handle has behind it once it has looked at a file of `disk` bytes. */
  function ReadAfter(s: Sys, h: Handle, mem: Mem, disk: nat): nat {
    if mem.readTo == disk && s.tail == [] then |s.records| else h.read
  }

  /** Open the file and read it under a shared lock; a handle exists only if that worked. */
  ghost predicate OpenStep(c: Codec, node: Key, s: Sys, h: nat, w: World, s': Sys) {
    var caught := CatchUp(c, node, FRESH, Disk(c, s), false, w);
    && h !in s.handles && s.holder.None? && w.lockOk && w.unlockOk
    && caught.outcome == Done
    && s' == s.(handles := s.handles[h := Handle(caught.mem, |s.records|, Idle)])
  }

  /** Take the lock, catch up and check. Refused, the lock is released again. */
  ghost predicate BeginStep(c: Codec, node: Key, s: Sys, h: nat, job: Job, which: nat, w: World, s': Sys) {
    && h in s.handles && s.handles[h].pc.Idle? && s.holder.None? && MayBegin(s, job, which)
    && if !w.lockOk then s' == s.(released := AfterBegin(s, job, which)) else
       var caught := CatchUp(c, node, s.handles[h].mem, Disk(c, s), IsSpend(job), w);
       var go := caught.outcome == Done && Allowed(caught.mem.index, job);
       var read := ReadAfter(s, s.handles[h], caught.mem, |Disk(c, s)|);
       s' == s.(handles := s.handles[h := Handle(caught.mem, read, if go then Ready(job) else Idle)],
                holder := if go then Some(h) else None,
                released := AfterBegin(s, job, which))
  }

  /** Write the frame of a record that can be read back; a failed write leaves the bytes that got through. */
  ghost predicate WriteStep(c: Codec, node: Key, s: Sys, h: nat, written: nat, s': Sys) {
    && h in s.handles && s.handles[h].pc.Ready? && s.holder == Some(h)
    && var job := s.handles[h].pc.job;
       var r := NextRecord(node, s.handles[h].mem.index, job);
       Carried(c, r) &&
       if written < |Frame(c, r)| then
         s' == s.(tail := Frame(c, r)[..written], holder := None,
                  handles := s.handles[h := s.handles[h].(pc := Idle)])
       else
         s' == s.(records := s.records + [r], handles := s.handles[h := s.handles[h].(pc := Wrote(job, r))])
  }

  /** Make the file durable, or fail to and give up with the line already in the file. */
  ghost predicate SyncStep(c: Codec, node: Key, s: Sys, h: nat, ok: bool, s': Sys) {
    && h in s.handles && s.handles[h].pc.Wrote? && s.holder == Some(h)
    && var pc := s.handles[h].pc;
       if ok then
         s' == s.(durable := |s.records|, handles := s.handles[h := s.handles[h].(pc := Durable(pc.job, pc.record))])
       else
         s' == s.(holder := None, handles := s.handles[h := s.handles[h].(pc := Idle)])
  }

  /** The anchor program takes a durable line as its tip, moving forward only, asked for by a call
      that may have failed or whose caller may be gone. */
  ghost predicate LandStep(c: Codec, node: Key, s: Sys, line: nat, s': Sys) {
    && line < s.durable <= |s.records|
    && (s.anchor.Some? ==> s.anchor.value.seqNo <= line + 1)
    && s' == s.(anchor := Some(Tip(line + 1, HashOf(s.records[line]))))
  }

  /** Count the line and hear back from the anchor program. */
  ghost predicate SettleStep(c: Codec, node: Key, s: Sys, h: nat, w: World, s': Sys) {
    && h in s.handles && s.handles[h].pc.Durable? && s.holder == Some(h)
    && var pc := s.handles[h].pc;
       var done := Authority.Settle(s.handles[h].mem, pc.record, |Frame(c, pc.record)|, IsSpend(pc.job), w);
       var read := if done.mem.readTo == s.handles[h].mem.readTo then s.handles[h].read else s.handles[h].read + 1;
       if done.outcome == Done then
         s' == s.(handles := s.handles[h := Handle(done.mem, read, Settled(pc.job, pc.record))])
       else
         s' == s.(holder := None, handles := s.handles[h := Handle(done.mem, read, Idle)])
  }

  /** Release the lock and hand over the permit, unless unlocking failed. */
  ghost predicate ReturnStep(c: Codec, node: Key, s: Sys, h: nat, unlockOk: bool, s': Sys) {
    && h in s.handles && s.handles[h].pc.Settled? && s.holder == Some(h)
    && var pc := s.handles[h].pc;
       s' == s.(holder := None, handles := s.handles[h := s.handles[h].(pc := Idle)],
                released := if unlockOk && pc.job.Spend? then
                  s.released + [Release(PermitOf(pc.job.v), LastIndex(s), pc.job.presented, pc.job.body,
                                        pc.job.policy, Held)]
                else s.released)
  }

  /** A process dies; the kernel releases its lock. */
  ghost predicate KillStep(c: Codec, node: Key, s: Sys, h: nat, s': Sys) {
    && h in s.handles
    && s' == s.(handles := s.handles - {h}, holder := if s.holder == Some(h) then None else s.holder)
  }

  /** Power is lost: durable records survive, what follows them survives only in part. */
  ghost predicate PowerLossStep(c: Codec, node: Key, s: Sys, kept: nat, torn: seq<Byte>, s': Sys) {
    && s.durable <= kept <= |s.records|
    && (torn == [] || (kept < |s.records| && Torn(c, s.records[kept], torn)) || (kept == |s.records| && torn <= s.tail))
    && s' == s.(records := s.records[..kept], tail := torn, handles := map[], holder := None)
  }

  /** The caller uses a permit for the one upstream call it is for. */
  ghost predicate UpstreamStep(c: Codec, node: Key, s: Sys, which: nat, s': Sys) {
    && which < |s.released| && s.released[which].stage.Held?
    && var rel := s.released[which];
       s' == s.(released := s.released[which := rel.(stage := Sent)],
                calls := s.calls + [Call(which, rel.presented.request.resource, rel.body)])
  }

  ghost predicate Takes(c: Codec, node: Key, s: Sys, act: Action, s': Sys) {
    match act
    case Open(h, w) => OpenStep(c, node, s, h, w, s')
    case Begin(h, job, which, w) => BeginStep(c, node, s, h, job, which, w, s')
    case Write(h, written) => WriteStep(c, node, s, h, written, s')
    case Sync(h, ok) => SyncStep(c, node, s, h, ok, s')
    case Land(line) => LandStep(c, node, s, line, s')
    case Settle(h, w) => SettleStep(c, node, s, h, w, s')
    case Return(h, unlockOk) => ReturnStep(c, node, s, h, unlockOk, s')
    case Kill(h) => KillStep(c, node, s, h, s')
    case PowerLoss(kept, torn) => PowerLossStep(c, node, s, kept, torn, s')
    case Upstream(which) => UpstreamStep(c, node, s, which, s')
  }

  ghost predicate Next(c: Codec, node: Key, s: Sys, s': Sys) {
    exists act :: Takes(c, node, s, act, s')
  }

  ghost predicate StepAt(c: Codec, node: Key, run: seq<Sys>, i: nat)
    requires 0 < i < |run|
  {
    Next(c, node, run[i - 1], run[i])
  }

  /** A run: any finite interleaving of steps from an empty journal. */
  ghost predicate Run(c: Codec, node: Key, run: seq<Sys>) {
    && run != [] && run[0] == START
    && forall i :: 0 < i < |run| ==> StepAt(c, node, run, i)
  }

  // ---------------------------------------------------------------- the invariant

  /**
   `h` knows exactly the first so many records. Its `readTo` lags behind them only on a torn file, when a
   refused parse had counted all its whole records.
   */
  ghost predicate Knows(c: Codec, node: Key, s: Sys, h: Handle) {
    var known := NextSeq(h.mem.index) - 1;
    && h.read <= known <= |s.records|
    && Accepted(node, s.records[..known]) && h.mem.index == IndexOf(node, s.records[..known])
    && h.mem.readTo == |Frames(c, s.records[..h.read])|
    && (h.read < known ==> s.tail != [] && known == |s.records|)
  }

  ghost predicate FileOk(c: Codec, node: Key, s: Sys) {
    && Accepted(node, s.records) && HonestTerms(s.records) && AllCarried(c, s.records)
    && s.durable <= |s.records|
    && (s.tail != [] ==> exists r :: Torn(c, r, s.tail))
  }

  ghost predicate PcOk(c: Codec, node: Key, s: Sys, h: Handle) {
    match h.pc
    case Idle => true
    case Ready(job) => s.tail == [] && h.read == |s.records| && Allowed(h.mem.index, job) && JobOk(job)
    case Wrote(job, r) => JustWritten(node, s, h, job, r) && JobOk(job)
    case Durable(job, r) => JustWritten(node, s, h, job, r) && JobOk(job) && s.durable == |s.records|
    case Settled(job, r) =>
      && s.records != [] && r == s.records[|s.records| - 1] && Written(r, job) && JobOk(job)
      && s.durable == |s.records| && NoReleaseForLast(s)
  }

  predicate JobOk(job: Job) {
    match job
    case Spend(p, body, policy, v) => Verify(p, body, policy) == Some(v)
    case Conclude(_, event) => !event.Reserve?
  }

  /** The record carries the job's line. */
  predicate Written(r: Record, job: Job) {
    job.Spend? ==> r.line == ReserveLine(job.v).(seqNo := r.line.seqNo, prev := r.line.prev)
  }

  predicate NoReleaseForLast(s: Sys) {
    forall i :: 0 <= i < |s.released| ==> s.released[i].at + 1 < |s.records|
  }

  ghost predicate JustWritten(node: Key, s: Sys, h: Handle, job: Job, r: Record) {
    && s.tail == [] && s.records != [] && h.read == |s.records| - 1 && NextSeq(h.mem.index) == |s.records|
    && r == s.records[|s.records| - 1]
    && r == NextRecord(node, h.mem.index, job)
    && Allowed(h.mem.index, job) && Written(r, job) && NoReleaseForLast(s)
  }

  ghost predicate HandlesOk(c: Codec, node: Key, s: Sys) {
    && (forall h :: h in s.handles ==> Knows(c, node, s, s.handles[h]) && PcOk(c, node, s, s.handles[h]))
    && (forall h :: h in s.handles && !s.handles[h].pc.Idle? ==> s.holder == Some(h))
    && (s.holder.Some? ==> s.holder.value in s.handles)
  }

  /** A released permit belongs to a durable reserve line made from a verified presentation. */
  predicate ReleaseOk(s: Sys, rel: Release) {
    var v := Verify(rel.presented, rel.body, rel.policy);
    && v.Some? && rel.permit == PermitOf(v.value)
    && rel.at < s.durable <= |s.records|
    && s.records[rel.at].line == ReserveLine(v.value).(seqNo := s.records[rel.at].line.seqNo,
                                                       prev := s.records[rel.at].line.prev)
  }

  /** A call is made under a permit given up for it, to the resource and with the bytes it was asked for. */
  predicate CallOk(released: seq<Release>, call: Call) {
    && call.which < |released| && !released[call.which].stage.Held?
    && call.resource == released[call.which].presented.request.resource && call.body == released[call.which].body
  }

  ghost predicate ReleasesOk(s: Sys) {
    && (forall i :: 0 <= i < |s.released| ==> ReleaseOk(s, s.released[i]))
    && (forall i, j :: 0 <= i < j < |s.released| ==> s.released[i].at != s.released[j].at)
    && (forall k :: 0 <= k < |s.calls| ==> CallOk(s.released, s.calls[k]))
    && (forall k, l :: 0 <= k < l < |s.calls| ==> s.calls[k].which != s.calls[l].which)
  }

  ghost predicate Inv(c: Codec, node: Key, s: Sys) {
    FileOk(c, node, s) && HandlesOk(c, node, s) && ReleasesOk(s)
  }

  // ---------------------------------------------------------------- catching up

  lemma MoreRecordsMoreBytes(c: Codec, rs: seq<Record>, j: nat, k: nat)
    requires j < k <= |rs|
    ensures |Frames(c, rs[..j])| < |Frames(c, rs[..k])|
  {
    FramesPrefix(c, rs[..k], j);
    assert rs[..k][..j] == rs[..j];
  }

  lemma KnownTip(node: Key, rs: seq<Record>)
    requires Accepted(node, rs)
    ensures NextSeq(IndexOf(node, rs)) == |rs| + 1
    ensures PrevHash(IndexOf(node, rs)) == if rs == [] then Zero else HashOf(rs[|rs| - 1])
  {
    AcceptedShape(node, rs);
  }

  lemma UnreadBytes(c: Codec, s: Sys, read: nat)
    requires read <= |s.records|
    ensures var size := |Frames(c, s.records[..read])|;
            size <= |Disk(c, s)| && Disk(c, s)[size..] == Frames(c, s.records[read..]) + s.tail
  {
    FramesPrefix(c, s.records, read);
  }

  /** What the parse loop makes of the part of the file a handle has not read. */
  lemma ScanTheUnread(c: Codec, node: Key, s: Sys, h: Handle)
    requires FileOk(c, node, s) && Knows(c, node, s, h)
    ensures h.mem.readTo <= |Disk(c, s)|
    ensures var scanned := Scan(c, node, h.mem.index, Disk(c, s)[h.mem.readTo..]);
            (scanned.verdict.Fine? <==> s.tail == []) && scanned.index == IndexOf(node, s.records)
  {
    UnreadBytes(c, s, h.read);
    ScanReplaysFrames(c, node, h.mem.index, s.records[h.read..], s.tail);
    UnreadReplay(c, node, s, h);
    TailScan(c, node, s);
  }

  /** Its unread records lead a handle to the end of the file, unless it has counted them already. */
  lemma UnreadReplay(c: Codec, node: Key, s: Sys, h: Handle)
    requires Accepted(node, s.records) && Knows(c, node, s, h)
    ensures var unread := Replay(node, h.mem.index, s.records[h.read..]);
            && unread.index == IndexOf(node, s.records)
            && (unread.verdict.Fine? <==> h.read == NextSeq(h.mem.index) - 1)
            && (!unread.verdict.Fine? ==> s.tail != [])
  {
    if h.read == NextSeq(h.mem.index) - 1 {
      AnySplitReplaysTheSame(node, s.records, h.read);
    } else {
      RereadIsRefused(node, s, h);
      assert s.records[..|s.records|] == s.records;
    }
  }

  /** The part behind the last record: nothing, or a torn piece that is refused. */
  lemma TailScan(c: Codec, node: Key, s: Sys)
    requires FileOk(c, node, s)
    ensures var ix := IndexOf(node, s.records);
            var scanned := Scan(c, node, ix, s.tail);
            scanned.index == ix && (scanned.verdict.Fine? <==> s.tail == [])
  {
    if s.tail != [] {
      var r :| Torn(c, r, s.tail);
      TornTailIsRefused(c, node, IndexOf(node, s.records), r, s.tail);
    }
  }

  /** A handle that counted records of a torn file it could not finish meets them again and refuses. */
  lemma RereadIsRefused(node: Key, s: Sys, h: Handle)
    requires Accepted(node, s.records) && h.read < NextSeq(h.mem.index) - 1 <= |s.records|
    ensures var unread := s.records[h.read..];
            Replay(node, h.mem.index, unread) == Accept(node, h.mem.index, unread[0])
            && Accept(node, h.mem.index, unread[0]).verdict.Tampered?
            && Accept(node, h.mem.index, unread[0]).index == h.mem.index
  {
    AcceptedShape(node, s.records);
    assert s.records[h.read..][0] == s.records[h.read];
  }

  /** Catching up changes a handle in one of three ways: not at all, up to a refusal, or completely. */
  lemma CatchUpCases(c: Codec, node: Key, mem: Mem, disk: seq<Byte>, spend: bool, w: World)
    ensures var caught := CatchUp(c, node, mem, disk, spend, w);
            || (caught.mem == mem && caught.outcome != Done)
            || (&& mem.readTo <= |disk|
                && var scanned := Scan(c, node, mem.index, disk[mem.readTo..]);
                   if scanned.verdict.Fine? then
                     caught.mem.index == scanned.index && caught.mem.readTo == |disk|
                   else
                     caught.mem == mem.(index := scanned.index) && caught.outcome != Done)
  {
  }

  /** A handle that has read to the end of a whole file has read all its records. */
  lemma ReadToTheEnd(c: Codec, node: Key, s: Sys, h: Handle, pc: Pc)
    requires Knows(c, node, s, h) && s.tail == []
    ensures Handle(h.mem, ReadAfter(s, h, h.mem, |Disk(c, s)|), pc) == h.(pc := pc)
  {
    assert Disk(c, s) == Frames(c, s.records);
    assert s.records[..|s.records|] == s.records;
    if h.read < |s.records| {
      MoreRecordsMoreBytes(c, s.records, h.read, |s.records|);
    }
  }

  lemma KnowsAll(c: Codec, node: Key, s: Sys, h: Handle)
    requires FileOk(c, node, s)
    requires h.mem.index == IndexOf(node, s.records) && h.mem.readTo == |Frames(c, s.records)| && h.read == |s.records|
    ensures Knows(c, node, s, h)
  {
    KnownTip(node, s.records);
    assert s.records[..|s.records|] == s.records;
  }

  lemma CatchUpOnTornFile(c: Codec, node: Key, s: Sys, h: Handle, caught: Authority.Result, pc: Pc)
    requires FileOk(c, node, s) && Knows(c, node, s, h) && s.tail != []
    requires caught.outcome != Done
    requires caught.mem == h.mem || caught.mem == h.mem.(index := h.mem.index)
             || caught.mem == h.mem.(index := IndexOf(node, s.records))
    ensures var h' := Handle(caught.mem, ReadAfter(s, h, caught.mem, |Disk(c, s)|), pc);
            Knows(c, node, s, h')
  {
    KnownTip(node, s.records);
    assert s.records[..|s.records|] == s.records;
  }

  lemma CatchUpKnows(c: Codec, node: Key, s: Sys, h: Handle, spend: bool, w: World, pc: Pc)
    requires FileOk(c, node, s) && Knows(c, node, s, h)
    ensures var caught := CatchUp(c, node, h.mem, Disk(c, s), spend, w);
            var h' := Handle(caught.mem, ReadAfter(s, h, caught.mem, |Disk(c, s)|), pc);
            && Knows(c, node, s, h')
            && (caught.outcome == Done ==>
                  s.tail == [] && h'.read == |s.records| && caught.mem.index == IndexOf(node, s.records))
  {
    ScanTheUnread(c, node, s, h);
    var caught := CatchUp(c, node, h.mem, Disk(c, s), spend, w);
    CatchUpCases(c, node, h.mem, Disk(c, s), spend, w);
    if s.tail == [] {
      assert Disk(c, s) == Frames(c, s.records);
      ReadToTheEnd(c, node, s, h, pc);
      if caught.mem != h.mem {
        KnowsAll(c, node, s, Handle(caught.mem, |s.records|, pc));
      }
    } else {
      CatchUpOnTornFile(c, node, s, h, caught, pc);
    }
  }

  // ---------------------------------------------------------------- every step keeps the invariant

  lemma KnowsStable(c: Codec, node: Key, s: Sys, s': Sys, h: Handle)
    requires Knows(c, node, s, h)
    requires s.records <= s'.records && (s.tail != [] ==> s'.tail != [] && s'.records == s.records)
    ensures Knows(c, node, s', h)
  {
    var known := NextSeq(h.mem.index) - 1;
    assert s'.records[..known] == s.records[..known];
    assert s'.records[..h.read] == s.records[..h.read];
  }

  /** Steps that only add to the file keep every released permit's line where it is. */
  lemma ReleasesStable(s: Sys, s': Sys)
    requires ReleasesOk(s) && s'.released == s.released && s'.calls == s.calls
    requires s.durable <= s'.durable <= |s'.records|
    requires s.durable <= |s.records| && s.records[..s.durable] <= s'.records
    ensures ReleasesOk(s')
  {
    forall i | 0 <= i < |s.released| ensures ReleaseOk(s', s'.released[i]) {
      assert ReleaseOk(s, s.released[i]);
      assert s.records[..s.durable][s.released[i].at] == s'.records[s.released[i].at];
    }
  }

  /** While `h` acts, every other handle is idle and what it knows does not change. */
  lemma HandlesFrom(c: Codec, node: Key, s: Sys, s': Sys, h: nat)
    requires HandlesOk(c, node, s) && (s.holder.Some? ==> s.holder == Some(h))
    requires s.records <= s'.records && (s.tail != [] ==> s'.tail != [] && s'.records == s.records)
    requires s'.handles.Keys <= s.handles.Keys + {h}
    requires forall g :: g in s'.handles && g != h ==> s'.handles[g] == s.handles[g]
    requires h in s'.handles ==> Knows(c, node, s', s'.handles[h]) && PcOk(c, node, s', s'.handles[h])
    requires s'.holder == if h in s'.handles && !s'.handles[h].pc.Idle? then Some(h) else None
    ensures HandlesOk(c, node, s')
  {
    forall g | g in s'.handles ensures Knows(c, node, s', s'.handles[g]) && PcOk(c, node, s', s'.handles[g]) {
      if g != h {
        OtherHandle(c, node, s, g, h);
        IdleStable(c, node, s, s', s.handles[g]);
      }
    }
  }

  lemma OtherHandle(c: Codec, node: Key, s: Sys, g: nat, h: nat)
    requires HandlesOk(c, node, s) && (s.holder.Some? ==> s.holder == Some(h)) && g != h && g in s.handles
    ensures Knows(c, node, s, s.handles[g]) && s.handles[g].pc.Idle?
  {
  }

  lemma IdleStable(c: Codec, node: Key, s: Sys, s': Sys, h: Handle)
    requires Knows(c, node, s, h) && h.pc.Idle?
    requires s.records <= s'.records && (s.tail != [] ==> s'.tail != [] && s'.records == s.records)
    ensures Knows(c, node, s', h) && PcOk(c, node, s', h)
  {
    KnowsStable(c, node, s, s', h);
  }

  lemma OpenKeeps(c: Codec, node: Key, s: Sys, h: nat, w: World, s': Sys)
    requires Inv(c, node, s) && OpenStep(c, node, s, h, w, s')
    ensures Inv(c, node, s')
  {
    var start := Handle(FRESH, 0, Idle);
    assert s.records[..0] == [];
    CatchUpKnows(c, node, s, start, false, w, Idle);
    KnowsStable(c, node, s, s', s'.handles[h]);
    HandlesFrom(c, node, s, s', h);
    ReleasesStable(s, s');
  }

  lemma BeginKeeps(c: Codec, node: Key, s: Sys, h: nat, job: Job, which: nat, w: World, s': Sys)
    requires Inv(c, node, s) && BeginStep(c, node, s, h, job, which, w, s')
    ensures Inv(c, node, s')
  {
    BeginKeepsReleases(s, s', job, which);
    if w.lockOk {
      var pc := s'.handles[h].pc;
      CatchUpKnows(c, node, s, s.handles[h], IsSpend(job), w, pc);
      assert pc.Ready? ==> JobOk(job);
      HandlesAfterBegin(c, node, s, s', h);
    } else {
      IdleHandlesStay(c, node, s, s', h);
    }
  }

  lemma IdleHandlesStay(c: Codec, node: Key, s: Sys, s': Sys, h: nat)
    requires HandlesOk(c, node, s) && s.holder.None? && h in s.handles && s.handles[h].pc.Idle?
    requires s' == s.(released := s'.released)
    ensures HandlesOk(c, node, s')
  {
    IdleStable(c, node, s, s', s.handles[h]);
    HandlesFrom(c, node, s, s', h);
  }

  lemma HandlesAfterBegin(c: Codec, node: Key, s: Sys, s': Sys, h: nat)
    requires HandlesOk(c, node, s) && s.holder.None? && h in s'.handles
    requires s' == s.(handles := s.handles[h := s'.handles[h]], released := s'.released,
                      holder := if s'.handles[h].pc.Ready? then Some(h) else None)
    requires Knows(c, node, s, s'.handles[h]) && (s'.handles[h].pc.Idle? || s'.handles[h].pc.Ready?)
    requires PcOk(c, node, s, s'.handles[h])
    ensures HandlesOk(c, node, s')
  {
    KnowsStable(c, node, s, s', s'.handles[h]);
    HandlesFrom(c, node, s, s', h);
  }

  lemma BeginKeepsReleases(s: Sys, s': Sys, job: Job, which: nat)
    requires ReleasesOk(s) && MayBegin(s, job, which)
    requires s'.records == s.records && s'.durable == s.durable && s'.calls == s.calls
    requires s'.released == AfterBegin(s, job, which)
    ensures ReleasesOk(s')
  {
    forall i | 0 <= i < |s.released| ensures ReleaseOk(s', s'.released[i]) {
      assert ReleaseOk(s, s.released[i]);
    }
  }

  /** The record a checked job writes extends the accepted chain. */
  lemma NewRecordExtends(c: Codec, node: Key, s: Sys, job: Job)
    requires FileOk(c, node, s) && JobOk(job)
    requires Allowed(IndexOf(node, s.records), job)
    ensures var ix := IndexOf(node, s.records);
            var r := NextRecord(node, ix, job);
            && Accept(node, ix, r).verdict.Fine?
            && Accepted(node, s.records + [r]) && IndexOf(node, s.records + [r]) == Accept(node, ix, r).index
            && HonestTerms(s.records + [r]) && Written(r, job)
  {
    var ix := IndexOf(node, s.records);
    var r := NextRecord(node, ix, job);
    LastStep(node, s.records, r);
    if job.Conclude? {
      OperationsAreIndexed(node, s.records, (job.permit.grant, job.permit.nonce));
    }
    assert forall i: nat :: i < |s.records| ==> (s.records + [r])[i] == s.records[i];
  }

  lemma WriteKeeps(c: Codec, node: Key, s: Sys, h: nat, written: nat, s': Sys)
    requires Inv(c, node, s) && WriteStep(c, node, s, h, written, s')
    ensures Inv(c, node, s')
  {
    var hd := s.handles[h];
    var r := NextRecord(node, hd.mem.index, hd.pc.job);
    if written < |Frame(c, r)| {
      TornWriteKeeps(c, node, s, h, r, Frame(c, r)[..written], s');
    } else {
      WholeWriteKeeps(c, node, s, h, hd.pc.job, r, s');
    }
  }

  lemma TornWriteKeeps(c: Codec, node: Key, s: Sys, h: nat, r: Record, tail: seq<Byte>, s': Sys)
    requires Carried(c, r) && Inv(c, node, s) && h in s.handles && s.holder == Some(h) && s.handles[h].pc.Ready?
    requires |tail| < |Frame(c, r)| && tail == Frame(c, r)[..|tail|]
    requires s' == s.(tail := tail, holder := None, handles := s.handles[h := s.handles[h].(pc := Idle)])
    ensures Inv(c, node, s')
  {
    TornWriteHandles(c, node, s, h, r, s');
    AddingKeepsReleases(s, s');
  }

  lemma TornWriteHandles(c: Codec, node: Key, s: Sys, h: nat, r: Record, s': Sys)
    requires Carried(c, r) && FileOk(c, node, s) && HandlesOk(c, node, s)
    requires h in s.handles && s.holder == Some(h) && s.handles[h].pc.Ready?
    requires |s'.tail| < |Frame(c, r)| && s'.tail == Frame(c, r)[..|s'.tail|]
    requires s' == s.(tail := s'.tail, holder := None, handles := s.handles[h := s.handles[h].(pc := Idle)])
    ensures FileOk(c, node, s') && HandlesOk(c, node, s')
  {
    ReadyKnows(c, node, s, s.handles[h]);
    TornFile(c, node, s, r, s');
    IdleStable(c, node, s, s', s.handles[h].(pc := Idle));
    HandlesFrom(c, node, s, s', h);
  }

  lemma AddingKeepsReleases(s: Sys, s': Sys)
    requires ReleasesOk(s) && s'.released == s.released && s'.calls == s.calls
    requires s.durable == s'.durable <= |s.records| && s.records <= s'.records
    ensures ReleasesOk(s')
  {
    assert s.records[..s.durable] <= s'.records;
    ReleasesStable(s, s');
  }

  lemma WholeWriteKeeps(c: Codec, node: Key, s: Sys, h: nat, job: Job, r: Record, s': Sys)
    requires Carried(c, r) && Inv(c, node, s) && h in s.handles && s.holder == Some(h) && s.handles[h].pc == Ready(job)
    requires r == NextRecord(node, s.handles[h].mem.index, job)
    requires s' == s.(records := s.records + [r], handles := s.handles[h := s.handles[h].(pc := Wrote(job, r))])
    ensures Inv(c, node, s')
  {
    LastIsUnreleased(s, r);
    WholeWriteHandles(c, node, s, h, job, r, s');
    AddingKeepsReleases(s, s');
  }

  lemma WholeWriteHandles(c: Codec, node: Key, s: Sys, h: nat, job: Job, r: Record, s': Sys)
    requires Carried(c, r) && FileOk(c, node, s) && HandlesOk(c, node, s)
    requires h in s.handles && s.holder == Some(h) && s.handles[h].pc == Ready(job)
    requires r == NextRecord(node, s.handles[h].mem.index, job)
    requires s' == s.(records := s.records + [r], handles := s.handles[h := s.handles[h].(pc := Wrote(job, r))])
    requires forall i :: 0 <= i < |s.released| ==> s.released[i].at + 1 < |s'.records|
    ensures FileOk(c, node, s') && HandlesOk(c, node, s')
  {
    ReadyKnows(c, node, s, s.handles[h]);
    WrittenHandle(c, node, s, s', s.handles[h], job, r);
    HandlesFrom(c, node, s, s', h);
  }

  /** A handle about to write has read the whole file. */
  lemma ReadyKnows(c: Codec, node: Key, s: Sys, hd: Handle)
    requires FileOk(c, node, s) && Knows(c, node, s, hd) && hd.pc.Ready? && PcOk(c, node, s, hd)
    ensures s.tail == [] && hd.mem.index == IndexOf(node, s.records) && NextSeq(hd.mem.index) == |s.records| + 1
    ensures Allowed(IndexOf(node, s.records), hd.pc.job) && JobOk(hd.pc.job)
  {
    assert s.records[..|s.records|] == s.records;
    KnownTip(node, s.records);
  }

  lemma TornFile(c: Codec, node: Key, s: Sys, r: Record, s': Sys)
    requires FileOk(c, node, s) && Carried(c, r) && |s'.tail| < |Frame(c, r)| && s'.tail == Frame(c, r)[..|s'.tail|]
    requires s'.records == s.records && s'.durable == s.durable
    ensures FileOk(c, node, s')
  {
    assert s'.tail != [] ==> Torn(c, r, s'.tail);
  }

  lemma LastIsUnreleased(s: Sys, r: Record)
    requires ReleasesOk(s)
    ensures forall i :: 0 <= i < |s.released| ==> s.released[i].at + 1 < |s.records + [r]|
  {
    forall i | 0 <= i < |s.released| ensures s.released[i].at + 1 < |s.records + [r]| {
      assert ReleaseOk(s, s.released[i]);
    }
  }

  lemma WrittenHandle(c: Codec, node: Key, s: Sys, s': Sys, hd: Handle, job: Job, r: Record)
    requires Carried(c, r) && FileOk(c, node, s) && Knows(c, node, s, hd) && hd.pc == Ready(job) && PcOk(c, node, s, hd)
    requires hd.mem.index == IndexOf(node, s.records) && NextSeq(hd.mem.index) == |s.records| + 1
    requires r == NextRecord(node, hd.mem.index, job) && JobOk(job)
    requires s'.records == s.records + [r] && s'.tail == s.tail && s'.durable == s.durable && s'.released == s.released
    requires forall i :: 0 <= i < |s.released| ==> s.released[i].at + 1 < |s'.records|
    ensures var hd' := hd.(pc := Wrote(job, r));
            FileOk(c, node, s') && Knows(c, node, s', hd') && PcOk(c, node, s', hd')
  {
    NewRecordExtends(c, node, s, job);
    KnowsStable(c, node, s, s', hd);
    assert JustWritten(node, s', hd.(pc := Wrote(job, r)), job, r);
  }

  lemma SyncKeeps(c: Codec, node: Key, s: Sys, h: nat, ok: bool, s': Sys)
    requires Inv(c, node, s) && SyncStep(c, node, s, h, ok, s')
    ensures Inv(c, node, s')
  {
    assert PcOk(c, node, s, s.handles[h]);
    SyncedHandle(c, node, s, s', s.handles[h], s'.handles[h]);
    HandlesFrom(c, node, s, s', h);
    assert s.records[..s.durable] <= s'.records;
    ReleasesStable(s, s');
  }

  lemma SyncedHandle(c: Codec, node: Key, s: Sys, s': Sys, hd: Handle, hd': Handle)
    requires Knows(c, node, s, hd) && hd.pc.Wrote? && PcOk(c, node, s, hd)
    requires s'.records == s.records && s'.tail == s.tail && s'.released == s.released
    requires hd' == hd.(pc := Idle) || (hd' == hd.(pc := Durable(hd.pc.job, hd.pc.record)) && s'.durable == |s.records|)
    ensures Knows(c, node, s', hd') && PcOk(c, node, s', hd')
  {
    KnowsStable(c, node, s, s', hd);
  }

  /** Settling a durable record leaves the handle knowing the whole file; only the anchor can object. */
  lemma SettleKnows(c: Codec, node: Key, s: Sys, h: Handle, w: World)
    requires FileOk(c, node, s) && Knows(c, node, s, h) && h.pc.Durable? && PcOk(c, node, s, h)
    ensures var size := |Frame(c, h.pc.record)|;
            var done := Authority.Settle(h.mem, h.pc.record, size, IsSpend(h.pc.job), w);
            var moved := MoveTip(h.mem.floor, Tip(|s.records|, HashOf(h.pc.record)), w.moveOk);
            && done.mem == Mem(h.mem.readTo + size, IndexOf(node, s.records), moved.floor)
            && h.mem.readTo < done.mem.readTo == |Frames(c, s.records)|
            && done.outcome == (if moved.outcome == AnchorUnavailable && !IsSpend(h.pc.job) then Done
                                else moved.outcome)
  {
    CountedRecord(c, node, s, h);
  }

  /** A line just written is the next one in the handle's index, and counted it makes the whole file's. */
  lemma CountedRecord(c: Codec, node: Key, s: Sys, h: Handle)
    requires FileOk(c, node, s) && Knows(c, node, s, h) && h.pc.Durable? && PcOk(c, node, s, h)
    ensures var r := h.pc.record;
            var applied := Apply(h.mem.index, r.line);
            && applied.verdict.Fine? && r.line.seqNo == |s.records|
            && applied.index.(tip := Some(Tip(|s.records|, HashOf(r)))) == IndexOf(node, s.records)
            && |Frame(c, r)| > 0 && h.mem.readTo + |Frame(c, r)| == |Frames(c, s.records)|
  {
    var r := h.pc.record;
    var front := s.records[..|s.records| - 1];
    assert s.records == front + [r];
    AnySplitReplaysTheSame(node, s.records, |front|);
    LastStep(node, front, r);
    KnownTip(node, front);
    FramesOfOne(c, front, r);
  }

  /** A step that changes only the acting handle. */
  lemma OnlyHandleChanges(c: Codec, node: Key, s: Sys, h: nat, hd: Handle, s': Sys)
    requires Inv(c, node, s) && (s.holder.Some? ==> s.holder == Some(h))
    requires s' == s.(handles := s.handles[h := hd], holder := if hd.pc.Idle? then None else Some(h))
    requires Knows(c, node, s', hd) && PcOk(c, node, s', hd)
    ensures Inv(c, node, s')
  {
    HandlesFrom(c, node, s, s', h);
    assert s.records[..s.durable] <= s'.records;
    ReleasesStable(s, s');
  }

  /** Settled or refused by the anchor, the handle goes on knowing the whole file. */
  lemma AfterSettling(c: Codec, node: Key, s: Sys, h: Handle, pc: Pc, floor: Option<Tip>, holder: Option<nat>,
                      handles: map<nat, Handle>)
    requires FileOk(c, node, s) && h.pc.Durable? && PcOk(c, node, s, h)
    requires pc.Idle? || pc == Settled(h.pc.job, h.pc.record)
    ensures var h' := Handle(Mem(|Frames(c, s.records)|, IndexOf(node, s.records), floor), |s.records|, pc);
            var s' := s.(handles := handles, holder := holder);
            Knows(c, node, s', h') && PcOk(c, node, s', h')
  {
    KnownTip(node, s.records);
    assert s.records[..|s.records|] == s.records;
  }

  lemma SettleKeeps(c: Codec, node: Key, s: Sys, h: nat, w: World, s': Sys)
    requires Inv(c, node, s) && SettleStep(c, node, s, h, w, s')
    ensures Inv(c, node, s')
  {
    var hd, hd' := s.handles[h], s'.handles[h];
    assert PcOk(c, node, s, hd);
    SettleKnows(c, node, s, hd, w);
    AfterSettling(c, node, s, hd, hd'.pc, hd'.mem.floor, s'.holder, s'.handles);
    assert hd' == Handle(Mem(|Frames(c, s.records)|, IndexOf(node, s.records), hd'.mem.floor), |s.records|, hd'.pc);
    OnlyHandleChanges(c, node, s, h, hd', s');
  }

  lemma ReturnHandles(c: Codec, node: Key, s: Sys, h: nat, s': Sys)
    requires HandlesOk(c, node, s) && s.holder == Some(h) && h in s.handles
    requires s' == s.(holder := None, handles := s.handles[h := s.handles[h].(pc := Idle)], released := s'.released)
    ensures HandlesOk(c, node, s')
  {
    IdleStable(c, node, s, s', s.handles[h].(pc := Idle));
    HandlesFrom(c, node, s, s', h);
  }

  lemma ReturnReleases(c: Codec, node: Key, s: Sys, h: nat, unlockOk: bool, s': Sys)
    requires ReleasesOk(s) && s.durable <= |s.records| && ReturnStep(c, node, s, h, unlockOk, s')
    requires PcOk(c, node, s, s.handles[h])
    ensures ReleasesOk(s')
  {
    var pc := s.handles[h].pc;
    if unlockOk && pc.job.Spend? {
      OneMoreRelease(s, s', pc.job, pc.record);
    } else {
      assert s.records[..s.durable] <= s'.records;
      ReleasesStable(s, s');
    }
  }

  lemma ReturnKeeps(c: Codec, node: Key, s: Sys, h: nat, unlockOk: bool, s': Sys)
    requires Inv(c, node, s) && ReturnStep(c, node, s, h, unlockOk, s')
    ensures Inv(c, node, s')
  {
    ReturnHandles(c, node, s, h, s');
    ReturnReleases(c, node, s, h, unlockOk, s');
  }

  /** The permit just released is for the last line, which no earlier permit was released for. */
  lemma OneMoreRelease(s: Sys, s': Sys, job: Job, r: Record)
    requires ReleasesOk(s) && job.Spend? && JobOk(job) && Written(r, job) && NoReleaseForLast(s)
    requires s.records != [] && r == s.records[|s.records| - 1] && s.durable == |s.records|
    requires s' == s.(handles := s'.handles, holder := s'.holder,
                      released := s.released
                        + [Release(PermitOf(job.v), LastIndex(s), job.presented, job.body, job.policy, Held)])
    ensures ReleasesOk(s')
  {
    forall i | 0 <= i < |s'.released| ensures ReleaseOk(s', s'.released[i]) {
      if i < |s.released| {
        assert s'.released[i] == s.released[i];
        assert ReleaseOk(s, s.released[i]);
      }
    }
    forall i, j | 0 <= i < j < |s'.released| ensures s'.released[i].at != s'.released[j].at {
      assert s'.released[i] == s.released[i];
    }
    forall k | 0 <= k < |s.calls| ensures CallOk(s'.released, s.calls[k]) {
      assert CallOk(s.released, s.calls[k]);
    }
  }

  lemma PowerLossKeeps(c: Codec, node: Key, s: Sys, kept: nat, torn: seq<Byte>, s': Sys)
    requires Inv(c, node, s) && PowerLossStep(c, node, s, kept, torn, s')
    ensures Inv(c, node, s')
  {
    CutKeepsDurable(s.records, s.durable, kept);
    ReleasesStable(s, s');
    PowerLossFile(c, node, s, kept, torn, s');
  }

  lemma CutKeepsDurable(rs: seq<Record>, durable: nat, kept: nat)
    requires durable <= kept <= |rs|
    ensures rs[..durable] <= rs[..kept]
  {
  }

  lemma PowerLossFile(c: Codec, node: Key, s: Sys, kept: nat, torn: seq<Byte>, s': Sys)
    requires FileOk(c, node, s) && PowerLossStep(c, node, s, kept, torn, s')
    ensures FileOk(c, node, s')
  {
    AnySplitReplaysTheSame(node, s.records, kept);
    if torn != [] && kept == |s.records| {
      var r :| Torn(c, r, s.tail);
      assert torn == s.tail[..|torn|] == Frame(c, r)[..|torn|];
      assert Torn(c, r, torn);
    }
  }

  /** Handles that are left alone, on a file that is left alone. */
  lemma HandlesStable(c: Codec, node: Key, s: Sys, s': Sys)
    requires HandlesOk(c, node, s)
    requires s'.records == s.records && s'.tail == s.tail && s'.durable == s.durable
    requires |s'.released| == |s.released|
    requires forall i :: 0 <= i < |s.released| ==> s'.released[i].at == s.released[i].at
    requires forall g :: g in s'.handles ==> g in s.handles && s'.handles[g] == s.handles[g]
    requires forall g :: g in s'.handles && s.holder == Some(g) ==> s'.holder == Some(g)
    requires s'.holder.Some? ==> s'.holder.value in s'.handles
    ensures HandlesOk(c, node, s')
  {
    forall g | g in s'.handles ensures Knows(c, node, s', s'.handles[g]) && PcOk(c, node, s', s'.handles[g]) {
      HandleStable(c, node, s, s', s.handles[g]);
    }
  }

  lemma HandleStable(c: Codec, node: Key, s: Sys, s': Sys, h: Handle)
    requires Knows(c, node, s, h) && PcOk(c, node, s, h)
    requires s'.records == s.records && s'.tail == s.tail && s'.durable == s.durable
    requires |s'.released| == |s.released|
    requires forall i :: 0 <= i < |s.released| ==> s'.released[i].at == s.released[i].at
    ensures Knows(c, node, s', h) && PcOk(c, node, s', h)
  {
    KnowsStable(c, node, s, s', h);
  }

  lemma LandKeeps(c: Codec, node: Key, s: Sys, line: nat, s': Sys)
    requires Inv(c, node, s) && LandStep(c, node, s, line, s')
    ensures Inv(c, node, s')
  {
    HandlesStable(c, node, s, s');
    ReleasesStable(s, s');
  }

  lemma KillKeeps(c: Codec, node: Key, s: Sys, h: nat, s': Sys)
    requires Inv(c, node, s) && KillStep(c, node, s, h, s')
    ensures Inv(c, node, s')
  {
    HandlesStable(c, node, s, s');
    ReleasesStable(s, s');
  }

  lemma UpstreamReleases(c: Codec, node: Key, s: Sys, which: nat, s': Sys)
    requires ReleasesOk(s) && UpstreamStep(c, node, s, which, s')
    ensures ReleasesOk(s')
  {
    forall i | 0 <= i < |s.released| ensures ReleaseOk(s', s'.released[i]) {
      assert ReleaseOk(s, s.released[i]);
    }
    forall k | 0 <= k < |s'.calls| ensures CallOk(s'.released, s'.calls[k]) {
      if k < |s.calls| {
        assert CallOk(s.released, s.calls[k]);
      }
    }
    forall k, l | 0 <= k < l < |s'.calls| ensures s'.calls[k].which != s'.calls[l].which {
      assert CallOk(s.released, s.calls[k]);
    }
  }

  lemma UpstreamKeeps(c: Codec, node: Key, s: Sys, which: nat, s': Sys)
    requires Inv(c, node, s) && UpstreamStep(c, node, s, which, s')
    ensures Inv(c, node, s')
  {
    HandlesStable(c, node, s, s');
    UpstreamReleases(c, node, s, which, s');
  }

  lemma StepKeepsInvariant(c: Codec, node: Key, s: Sys, act: Action, s': Sys)
    requires Inv(c, node, s) && Takes(c, node, s, act, s')
    ensures Inv(c, node, s')
  {
    match act {
      case Open(h, w) => OpenKeeps(c, node, s, h, w, s');
      case Begin(h, job, which, w) => BeginKeeps(c, node, s, h, job, which, w, s');
      case Write(h, written) => WriteKeeps(c, node, s, h, written, s');
      case Sync(h, ok) => SyncKeeps(c, node, s, h, ok, s');
      case Settle(h, w) => SettleKeeps(c, node, s, h, w, s');
      case Return(h, unlockOk) => ReturnKeeps(c, node, s, h, unlockOk, s');
      case PowerLoss(kept, torn) => PowerLossKeeps(c, node, s, kept, torn, s');
      case Land(line) => LandKeeps(c, node, s, line, s');
      case Kill(h) => KillKeeps(c, node, s, h, s');
      case Upstream(which) => UpstreamKeeps(c, node, s, which, s');
    }
  }

  /** The invariant holds in every state of every run, whatever the anchor program answers. */
  lemma {:induction false} RunsKeepInvariant(c: Codec, node: Key, run: seq<Sys>, n: nat)
    requires Run(c, node, run) && n < |run|
    ensures Inv(c, node, run[n])
  {
    if n > 0 {
      RunsKeepInvariant(c, node, run, n - 1);
      assert StepAt(c, node, run, n);
      var act :| Takes(c, node, run[n - 1], act, run[n]);
      StepKeepsInvariant(c, node, run[n - 1], act, run[n]);
    }
  }
}
