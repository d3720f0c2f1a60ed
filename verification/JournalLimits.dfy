/**
 How a handle comes to go by its memory instead of its file: it meets a torn record with records before it
 that it had not read. If the file is then cut back to what it had read, it spends on it.
 */
module JournalLimits {
  import opened Basics
  import opened Ledger
  import opened Framing
  import opened Authority
  import opened JournalRuns
  import opened JournalSafety
  import opened JournalProgress
  import opened JournalCuts
  import opened Transitions

  ghost function HonestSteps(c: Codec, node: Key): (Sys, Sys) -> bool {
    (s, s') => HonestNext(c, node, s, s')
  }

  /** Reached from an empty journal beside an honest anchor. */
  ghost predicate Reached(c: Codec, node: Key, s: Sys) {
    Reaches(HonestSteps(c, node), START, s)
  }

  lemma Reach(c: Codec, node: Key, s: Sys, act: Action, s': Sys)
    requires Reached(c, node, s) && Takes(c, node, s, act, s') && Honest(s, act)
    ensures Reached(c, node, s')
  {
    assert HonestNext(c, node, s, s');
    OneStepMore(HonestSteps(c, node), START, s, s');
  }

  lemma HonestStepIsSound(c: Codec, node: Key, s: Sys, s': Sys)
    requires Inv(c, node, s) && Anchored(s) && HonestNext(c, node, s, s')
    ensures Inv(c, node, s') && Anchored(s')
  {
    var act :| Takes(c, node, s, act, s') && Honest(s, act);
    StepKeepsInvariant(c, node, s, act, s');
    StepKeepsAnchored(c, node, s, act, s');
  }

  lemma ReachedIsSound(c: Codec, node: Key, s: Sys)
    requires Reached(c, node, s)
    ensures Inv(c, node, s) && Anchored(s)
  {
    forall a, b | Inv(c, node, a) && Anchored(a) && HonestNext(c, node, a, b) ensures Inv(c, node, b) && Anchored(b) {
      HonestStepIsSound(c, node, a, b);
    }
    ReachesKeeps(HonestSteps(c, node), a => Inv(c, node, a) && Anchored(a), START, s);
  }

  /** The world of a call in which nothing goes wrong. */
  function Fair(anchor: Option<Tip>, size: nat): World {
    World(true, true, true, HonestReply(anchor), size, true, true, true)
  }

  // ---------------------------------------------------------------- meeting a torn record

  /**
   From every reached state in which one handle is about to write and another has records still to read: the
   write stops after its first byte, the other handle tries to spend, and from then on it counts every
   record but has read as far as before.
   */
  lemma TornWritesMakeTornHandles(c: Codec, node: Key, s: Sys, writer: nat, h: nat, p: Presented, body: seq<Byte>,
                                  policy: Policy) returns (s': Sys)
    requires Reached(c, node, s) && s.holder == Some(writer) && writer in s.handles
    requires s.handles[writer].pc.Ready? && h in s.handles && h != writer && s.handles[h].read < |s.records|
    requires Verify(p, body, policy).Some?
    requires Carried(c, NextRecord(node, s.handles[writer].mem.index, s.handles[writer].pc.job))
    ensures Reached(c, node, s') && s'.records == s.records && s'.released == s.released && s'.anchor == s.anchor
    ensures h in s'.handles && !ReadsWhatItKnows(s'.handles[h]) && s'.handles[h].mem.readTo == s.handles[h].mem.readTo
    ensures s'.handles[h].pc.Idle? && s'.handles[h].read == s.handles[h].read && s'.holder.None?
  {
    ReachedIsSound(c, node, s);
    ReadyIsWhole(c, node, s, writer, h);
    var torn := TearOff(c, node, s, writer);
    var job := Spend(p, body, policy, Verify(p, body, policy).value);
    s' := Meet(c, node, torn, h, job);
  }

  lemma ReadyIsWhole(c: Codec, node: Key, s: Sys, writer: nat, h: nat)
    requires HandlesOk(c, node, s) && s.holder == Some(writer) && writer in s.handles
    requires s.handles[writer].pc.Ready? && h in s.handles && h != writer
    ensures s.tail == [] && s.handles[h].pc.Idle?
  {
    assert PcOk(c, node, s, s.handles[writer]);
  }

  /** A write that stops after one byte. */
  lemma TearOff(c: Codec, node: Key, s: Sys, writer: nat) returns (s': Sys)
    requires Reached(c, node, s) && s.holder == Some(writer) && writer in s.handles
    requires s.handles[writer].pc.Ready?
    requires Carried(c, NextRecord(node, s.handles[writer].mem.index, s.handles[writer].pc.job))
    ensures Reached(c, node, s') && s'.tail != [] && s'.holder.None?
    ensures s' == s.(tail := s'.tail, holder := None, handles := s.handles[writer := s.handles[writer].(pc := Idle)])
  {
    var hd := s.handles[writer];
    var r := NextRecord(node, hd.mem.index, hd.pc.job);
    s' := s.(tail := Frame(c, r)[..1], holder := None, handles := s.handles[writer := hd.(pc := Idle)]);
    Reach(c, node, s, Write(writer, 1), s');
  }

  /** A spend on the torn file is refused, but the whole records before the tear are counted. */
  lemma Meet(c: Codec, node: Key, s: Sys, h: nat, job: Job) returns (s': Sys)
    requires Reached(c, node, s) && s.tail != [] && s.holder.None?
    requires h in s.handles && s.handles[h].pc.Idle? && s.handles[h].read < |s.records|
    requires job.Spend? && MayBegin(s, job, 0)
    ensures Reached(c, node, s') && s'.holder.None? && h in s'.handles && !ReadsWhatItKnows(s'.handles[h])
    ensures s' == s.(handles := s.handles[h := s'.handles[h]])
    ensures s'.handles[h] == Handle(s.handles[h].mem.(index := s'.handles[h].mem.index), s.handles[h].read, Idle)
  {
    ReachedIsSound(c, node, s);
    var hd := s.handles[h];
    var w := Fair(s.anchor, 0);
    MeetsTheTear(c, node, s, hd, w);
    s' := Refused(c, node, s, h, job, w, CatchUp(c, node, hd.mem, Disk(c, s), true, w));
  }

  lemma Refused(c: Codec, node: Key, s: Sys, h: nat, job: Job, w: World, caught: Authority.Result) returns (s': Sys)
    requires Reached(c, node, s) && s.tail != [] && s.holder.None? && h in s.handles && s.handles[h].pc.Idle?
    requires job.Spend? && MayBegin(s, job, 0) && w == Fair(s.anchor, 0)
    requires caught == CatchUp(c, node, s.handles[h].mem, Disk(c, s), true, w) && caught.outcome != Done
    ensures Reached(c, node, s') && s' == s.(handles := s.handles[h := Handle(caught.mem, s.handles[h].read, Idle)])
  {
    s' := s.(handles := s.handles[h := Handle(caught.mem, s.handles[h].read, Idle)]);
    Reach(c, node, s, Begin(h, job, 0, w), s');
  }

  lemma MeetsTheTear(c: Codec, node: Key, s: Sys, hd: Handle, w: World)
    requires FileOk(c, node, s) && Knows(c, node, s, hd) && s.tail != [] && hd.read < |s.records|
    requires w.statOk && w.readOk
    ensures var caught := CatchUp(c, node, hd.mem, Disk(c, s), true, w);
            && caught.outcome != Done && caught.mem == hd.mem.(index := caught.mem.index)
            && NextSeq(caught.mem.index) - 1 == |s.records|
  {
    ScanTheUnread(c, node, s, hd);
    KnownTip(node, s.records);
  }

  /**
   Such a handle, the file cut back to what it had read: an operation with a use left by its memory is
   granted, on a file that holds no line past `h.read`. Its memory is of all of them.
   */
  lemma TornHandlesSpendOnTheirCut(c: Codec, node: Key, s: Sys, h: nat, v: Verified, w: World)
    requires Reached(c, node, s) && h in s.handles && !ReadsWhatItKnows(s.handles[h])
    requires UsesLeft(s.records, v) && v.maxUses > 0
    requires w == Fair(s.anchor, |Frame(c, NewRecord(node, IndexOf(node, s.records), ReserveLine(v)))|)
    ensures s.handles[h].mem.readTo <= |Disk(c, s)| && s.handles[h].read < |s.records|
    ensures Disk(c, s)[..s.handles[h].mem.readTo] == Frames(c, s.records[..s.handles[h].read])
    ensures ReserveUnderLock(c, node, s.handles[h].mem, Disk(c, s)[..s.handles[h].mem.readTo], v, w).outcome == Done
  {
    ReachedIsSound(c, node, s);
    var hd := s.handles[h];
    HandleIsKnown(c, node, s, h);
    CutToWhatItRead(c, node, s, hd);
    TornHandlesAcceptOneCut(c, node, s, hd, hd.mem.readTo, w);
    SpendableMeansUsesLeft(node, s.records, v);
    GrantedOnTheCut(c, node, s, hd, Frames(c, s.records[..hd.read]), v, w);
  }

  lemma CutToWhatItRead(c: Codec, node: Key, s: Sys, hd: Handle)
    requires Knows(c, node, s, hd) && !ReadsWhatItKnows(hd)
    ensures hd.mem.readTo <= |Disk(c, s)| && hd.read < |s.records|
    ensures Disk(c, s)[..hd.mem.readTo] == Frames(c, s.records[..hd.read])
  {
    UnreadBytes(c, s, hd.read);
    FramesPrefix(c, s.records, hd.read);
  }

  lemma HandleIsKnown(c: Codec, node: Key, s: Sys, h: nat)
    requires Inv(c, node, s) && Anchored(s) && h in s.handles
    ensures Knows(c, node, s, s.handles[h]) && FloorOk(s, s.handles[h].mem.floor)
  {
  }

  lemma GrantedOnTheCut(c: Codec, node: Key, s: Sys, hd: Handle, disk: seq<Byte>, v: Verified, w: World)
    requires FileOk(c, node, s) && Anchored(s) && FloorOk(s, hd.mem.floor)
    requires w == Fair(s.anchor, |Frame(c, NewRecord(node, IndexOf(node, s.records), ReserveLine(v)))|)
    requires var caught := CatchUp(c, node, hd.mem, disk, true, w);
             caught.outcome == Done && caught.mem.index == IndexOf(node, s.records)
    requires Spendable(IndexOf(node, s.records), v) && v.maxUses > 0
    ensures ReserveUnderLock(c, node, hd.mem, disk, v, w).outcome == Done
  {
    var caught := CatchUp(c, node, hd.mem, disk, true, w);
    CatchUpFloor(c, node, s, hd.mem, disk, true, w);
    AppendsWell(c, node, s, caught.mem, disk, v, w, |Frame(c, NewRecord(node, caught.mem.index, ReserveLine(v)))|);
  }

  // ---------------------------------------------------------------- it happens

  const GRANT := Grant(1, 7, 2, 0, "a", "r", "control", 0, 10, 0, 3)

  const POLICY := Policy(1, "a", 0, 5, {})

  function Asking(n: Id): Request {
    Request(1, 7, 0, n, "a", "r", "control", OfBody([]))
  }

  function Shown(n: Id): Presented {
    Presented(GRANT, Signed(1, GrantMessage(GRANT)), Asking(n), Signed(2, RequestMessage(Asking(n))))
  }

  function Use(n: Id): Verified {
    Verified(7, OfGrant(GRANT), n, OfRequest(Asking(n)), 3)
  }

  lemma PlainWords()
    ensures ValidText("a") && ValidText("r") && ValidText("control")
  {
    assert Utf8Length("a") == 1 + Utf8Length("a"[1..]);
    assert Utf8Length("r") == 1 + Utf8Length("r"[1..]);
    PlainLength("control");
  }

  lemma {:induction false} PlainLength(s: string)
    requires forall i :: 0 <= i < |s| ==> s[i] as int < 0x80
    ensures Utf8Length(s) == |s|
  {
    if s != "" {
      PlainLength(s[1..]);
    }
  }

  lemma ShownVerifies(n: Id)
    ensures Verify(Shown(n), [], POLICY) == Some(Use(n))
  {
    PlainWords();
  }

  /** Opening a whole file beside an honest anchor. */
  lemma Opens(c: Codec, node: Key, s: Sys, h: nat) returns (s': Sys)
    requires Reached(c, node, s) && s.tail == [] && s.holder.None? && h !in s.handles
    ensures Reached(c, node, s') && h in s'.handles && s' == s.(handles := s.handles[h := s'.handles[h]])
    ensures s'.handles[h].pc.Idle? && s'.handles[h].read == |s.records|
  {
    ReachedIsSound(c, node, s);
    var w := Fair(s.anchor, 0);
    OpeningWorks(c, node, s, w);
    var caught := CatchUp(c, node, FRESH, Disk(c, s), false, w);
    s' := s.(handles := s.handles[h := Handle(caught.mem, |s.records|, Idle)]);
    Reach(c, node, s, Open(h, w), s');
  }

  lemma OpeningWorks(c: Codec, node: Key, s: Sys, w: World)
    requires FileOk(c, node, s) && Anchored(s) && s.tail == []
    requires w.statOk && w.readOk && w.reply == HonestReply(s.anchor)
    ensures CatchUp(c, node, FRESH, Disk(c, s), false, w).outcome == Done
  {
    NewcomersKnow(c, node, s);
    ScanTheUnread(c, node, s, NEWCOMER);
    AnchorAgrees(node, s, None, w.reply);
  }

  lemma SpendingWorks(c: Codec, node: Key, s: Sys, h: nat, n: Id, w: World)
    requires Reached(c, node, s) && s.tail == [] && h in s.handles && UsesLeft(s.records, Use(n))
    requires w.statOk && w.readOk && w.reply == HonestReply(s.anchor)
    ensures var caught := CatchUp(c, node, s.handles[h].mem, Disk(c, s), true, w);
            caught.outcome == Done && Spendable(caught.mem.index, Use(n))
  {
    ReachedIsSound(c, node, s);
    HandleIsKnown(c, node, s, h);
    CatchesUp(c, node, s, s.handles[h], w);
    SpendableMeansUsesLeft(node, s.records, Use(n));
  }

  /** A spend with a use left gets as far as the write. */
  lemma GetsReady(c: Codec, node: Key, s: Sys, h: nat, n: Id) returns (s': Sys)
    requires Reached(c, node, s) && s.tail == [] && s.holder.None?
    requires h in s.handles && s.handles[h].pc.Idle? && UsesLeft(s.records, Use(n))
    ensures Reached(c, node, s') && h in s'.handles && s'.handles[h].pc == Ready(Spend(Shown(n), [], POLICY, Use(n)))
    ensures s' == s.(handles := s.handles[h := s'.handles[h]], holder := Some(h))
  {
    var w, hd, job := Fair(s.anchor, 0), s.handles[h], Spend(Shown(n), [], POLICY, Use(n));
    ShownVerifies(n);
    SpendingWorks(c, node, s, h, n, w);
    var caught := CatchUp(c, node, hd.mem, Disk(c, s), true, w);
    s' := Readied(c, node, s, h, job, w, caught);
  }

  lemma Readied(c: Codec, node: Key, s: Sys, h: nat, job: Job, w: World, caught: Authority.Result) returns (s': Sys)
    requires Reached(c, node, s) && s.holder.None? && h in s.handles && s.handles[h].pc.Idle?
    requires job.Spend? && MayBegin(s, job, 0) && w == Fair(s.anchor, 0)
    requires caught == CatchUp(c, node, s.handles[h].mem, Disk(c, s), true, w)
    requires caught.outcome == Done && Allowed(caught.mem.index, job)
    ensures Reached(c, node, s') && h in s'.handles && s'.handles[h].pc == Ready(job)
    ensures s' == s.(handles := s.handles[h := s'.handles[h]], holder := Some(h))
  {
    var read := ReadAfter(s, s.handles[h], caught.mem, |Disk(c, s)|);
    s' := s.(handles := s.handles[h := Handle(caught.mem, read, Ready(job))], holder := Some(h));
    Reach(c, node, s, Begin(h, job, 0, w), s');
  }

  /** The write and the fsync work. */
  lemma GetsWritten(c: Codec, node: Key, s: Sys, h: nat, job: Job) returns (s': Sys, r: Record)
    requires Reached(c, node, s) && s.holder == Some(h) && h in s.handles && s.handles[h].pc == Ready(job)
    requires Carried(c, NextRecord(node, s.handles[h].mem.index, job))
    ensures Reached(c, node, s') && r == NextRecord(node, s.handles[h].mem.index, job)
    ensures s' == s.(records := s.records + [r], durable := |s.records| + 1,
                     handles := s.handles[h := s.handles[h].(pc := Durable(job, r))])
  {
    var hd := s.handles[h];
    r := NextRecord(node, hd.mem.index, job);
    var wrote := s.(records := s.records + [r], handles := s.handles[h := hd.(pc := Wrote(job, r))]);
    Reach(c, node, s, Write(h, |Frame(c, r)|), wrote);
    s' := wrote.(durable := |wrote.records|, handles := wrote.handles[h := hd.(pc := Durable(job, r))]);
    Reach(c, node, wrote, Sync(h, true), s');
    assert s'.handles == s.handles[h := hd.(pc := Durable(job, r))];
  }

  /** The anchor takes the newest durable line. */
  lemma Lands(c: Codec, node: Key, s: Sys) returns (s': Sys)
    requires Reached(c, node, s) && s.records != [] && s.durable == |s.records|
    ensures Reached(c, node, s') && s' == s.(anchor := Some(Tip(|s.records|, HashOf(s.records[|s.records| - 1]))))
  {
    AnchorIsBehind(c, node, s);
    s' := s.(anchor := Some(Tip(|s.records|, HashOf(s.records[|s.records| - 1]))));
    Reach(c, node, s, Land(|s.records| - 1), s');
  }

  lemma AnchorIsBehind(c: Codec, node: Key, s: Sys)
    requires Reached(c, node, s)
    ensures s.anchor.Some? ==> s.anchor.value.seqNo <= |s.records|
  {
    ReachedIsSound(c, node, s);
  }

  /** And then it is counted and the permit released. */
  lemma GetsReleased(c: Codec, node: Key, s: Sys, h: nat, job: Job, r: Record) returns (s': Sys)
    requires Reached(c, node, s) && s.holder == Some(h) && h in s.handles && job.Spend?
    requires s.records != [] && r == s.records[|s.records| - 1] && s.handles[h].pc == Durable(job, r)
    requires s.anchor == Some(Tip(|s.records|, HashOf(r)))
    ensures Reached(c, node, s') && h in s'.handles && s'.handles[h].pc.Idle?
    ensures s' == s.(handles := s.handles[h := s'.handles[h]], holder := None, released := s'.released)
    ensures s'.released ==
            s.released + [Release(PermitOf(job.v), |s.records| - 1, job.presented, job.body, job.policy, Held)]
  {
    SettlingWorks(c, node, s, h, Fair(s.anchor, 0));
    var settled := Settles(c, node, s, h, job, r);
    s' := settled.(holder := None, handles := settled.handles[h := settled.handles[h].(pc := Idle)],
                   released := s.released
                     + [Release(PermitOf(job.v), |s.records| - 1, job.presented, job.body, job.policy, Held)]);
    Reach(c, node, settled, Return(h, true), s');
    assert s'.handles == s.handles[h := s'.handles[h]];
  }

  lemma Settles(c: Codec, node: Key, s: Sys, h: nat, job: Job, r: Record) returns (s': Sys)
    requires Reached(c, node, s) && s.holder == Some(h) && h in s.handles && job.Spend?
    requires s.handles[h].pc == Durable(job, r) && s.anchor == Some(Tip(|s.records|, HashOf(r)))
    requires Authority.Settle(s.handles[h].mem, r, |Frame(c, r)|, true, Fair(s.anchor, 0)).outcome == Done
    ensures Reached(c, node, s') && h in s'.handles && s'.handles[h].pc == Settled(job, r)
    ensures s' == s.(handles := s.handles[h := s'.handles[h]])
  {
    var hd := s.handles[h];
    var done := Authority.Settle(hd.mem, r, |Frame(c, r)|, true, Fair(s.anchor, 0));
    var read := if done.mem.readTo == hd.mem.readTo then hd.read else hd.read + 1;
    s' := s.(handles := s.handles[h := Handle(done.mem, read, Settled(job, r))]);
    Reach(c, node, s, Action.Settle(h, Fair(s.anchor, 0)), s');
  }

  lemma SettlingWorks(c: Codec, node: Key, s: Sys, h: nat, w: World)
    requires Reached(c, node, s) && h in s.handles && s.handles[h].pc.Durable?
    requires IsSpend(s.handles[h].pc.job) && w.moveOk
    ensures var hd := s.handles[h];
            Authority.Settle(hd.mem, hd.pc.record, |Frame(c, hd.pc.record)|, true, w).outcome == Done
  {
    ReachedIsSound(c, node, s);
    var hd := s.handles[h];
    HandleIsKnown(c, node, s, h);
    assert PcOk(c, node, s, hd);
    SettleKnows(c, node, s, hd, w);
    FloorAllows(s, hd.mem.floor);
  }

  lemma NoneUsed(n: Id)
    ensures UsesLeft([], Use(n))
  {
    assert Reservations([], 7) == {};
  }

  lemma OneUsed(rs: seq<Record>, m: Id, n: Id)
    requires |rs| == 1 && m != n
    requires rs[0].line == ReserveLine(Use(m)).(seqNo := rs[0].line.seqNo, prev := rs[0].line.prev)
    ensures UsesLeft(rs, Use(n))
  {
    assert Reservations(rs, 7) == {0};
  }

  /** The first record of the run below, and the one that is torn. */
  function First(node: Key): Record {
    NewRecord(node, EMPTY, ReserveLine(Use(1)))
  }

  function Second(node: Key): Record {
    NewRecord(node, Accept(node, EMPTY, First(node)).index, ReserveLine(Use(2)))
  }

  /** About to write, a handle goes by the whole file. */
  lemma ReadyGoesByTheFile(c: Codec, node: Key, s: Sys, h: nat)
    requires Reached(c, node, s) && h in s.handles && s.handles[h].pc.Ready?
    ensures Accepted(node, s.records) && s.handles[h].mem.index == IndexOf(node, s.records)
  {
    ReachedIsSound(c, node, s);
    ReadyKnows(c, node, s, s.handles[h]);
  }

  lemma FirstIsAccepted(node: Key)
    ensures Accepted(node, [First(node)]) && IndexOf(node, [First(node)]) == Accept(node, EMPTY, First(node)).index
  {
    PreChecksImplyApply(EMPTY, Use(1), PermitOf(Use(1)), Unknown);
    LastStep(node, [], First(node));
    assert [] + [First(node)] == [First(node)];
  }

  /** One permit is released, by handle 1; handle 0 has read nothing. */
  lemma OnePermit(c: Codec, node: Key) returns (s: Sys)
    requires Carried(c, First(node))
    ensures Reached(c, node, s) && s.tail == [] && s.holder.None? && s.records == [First(node)]
    ensures |s.released| == 1 && s.released[0].at == 0
    ensures 0 in s.handles && s.handles[0].pc.Idle? && s.handles[0].read == 0
    ensures 1 in s.handles && s.handles[1].pc.Idle?
  {
    NoStep(HonestSteps(c, node), START);
    var s1 := Opens(c, node, START, 0);
    var s2 := Opens(c, node, s1, 1);
    NoneUsed(1);
    var s3 := GetsReady(c, node, s2, 1, 1);
    ReadyGoesByTheFile(c, node, s3, 1);
    var written, r := GetsWritten(c, node, s3, 1, s3.handles[1].pc.job);
    var s4 := Lands(c, node, written);
    s := GetsReleased(c, node, s4, 1, s3.handles[1].pc.job, r);
  }

  /** The next write tears, and handle 0 meets the tear. */
  lemma TornRun(c: Codec, node: Key) returns (s: Sys)
    requires Carried(c, First(node)) && Carried(c, Second(node))
    ensures Reached(c, node, s) && |s.released| == 1 && s.released[0].at == 0 && s.records == [First(node)]
    ensures 0 in s.handles && !ReadsWhatItKnows(s.handles[0]) && s.handles[0].read == 0
  {
    var s1 := OnePermit(c, node);
    OneUsed(s1.records, 1, 2);
    var s2 := GetsReady(c, node, s1, 1, 2);
    ReadyGoesByTheFile(c, node, s2, 1);
    FirstIsAccepted(node);
    ShownVerifies(2);
    s := TornWritesMakeTornHandles(c, node, s2, 1, 0, Shown(2), [], POLICY);
  }

  /**
   A run and a codec that carries its records: a permit is released for line 0, the next write tears, a
   handle that had read nothing meets the tear, the file is emptied, and that handle is granted another use
   on the empty file.
   */
  lemma ATornHandleSpendsOnAnEmptiedFile(node: Key) returns (c: Codec, s: Sys)
    ensures Carried(c, First(node)) && Carried(c, Second(node))
    ensures Reached(c, node, s) && |s.released| == 1 && s.released[0].at == 0 && s.records == [First(node)]
    ensures 0 in s.handles && s.handles[0].mem.readTo == 0
    ensures exists w :: ReserveUnderLock(c, node, s.handles[0].mem, [], Use(3), w).outcome == Done
  {
    var table := [First(node), Second(node)];
    c := TableCodec(table);
    EveryHistoryHasACodec(node, table);
    assert table[0] in table && table[1] in table;
    s := TornRun(c, node);
    OneUsed(s.records, 1, 3);
    SpendsOnNothing(c, node, s);
  }

  lemma SpendsOnNothing(c: Codec, node: Key, s: Sys)
    requires Reached(c, node, s) && 0 in s.handles && !ReadsWhatItKnows(s.handles[0])
    requires s.handles[0].read == 0 && UsesLeft(s.records, Use(3))
    ensures s.handles[0].mem.readTo == 0
    ensures exists w :: ReserveUnderLock(c, node, s.handles[0].mem, [], Use(3), w).outcome == Done
  {
    var w := Fair(s.anchor, |Frame(c, NewRecord(node, IndexOf(node, s.records), ReserveLine(Use(3))))|);
    ReachedIsSound(c, node, s);
    HandleIsKnown(c, node, s, 0);
    assert s.records[..0] == [];
    TornHandlesSpendOnTheirCut(c, node, s, 0, Use(3), w);
    assert Disk(c, s)[..0] == [];
  }
}
