/**
 What a journal answers, by what its file and its anchor say: who is refused and who is not, and that what
 concludes an operation is not held up by an anchor that is down.
 */
module JournalAnswers {
  import opened Basics
  import opened Ledger
  import opened Framing
  import opened Authority
  import opened JournalRuns
  import opened JournalSafety
  import opened JournalProgress
  import opened JournalCuts

  // ---------------------------------------------------------------- whatever the file

  /** Without a spend nobody waits for the anchor: opening and concluding never answer that it is unavailable. */
  lemma OnlySpendsNeedTheAnchor(c: Codec, node: Key, mem: Mem, disk: seq<Byte>, p: Permit, event: Event, v: Verified,
                                w: World)
    requires GrantsCovered(mem.index)
    ensures CatchUp(c, node, mem, disk, false, w).outcome != AnchorUnavailable
    ensures FinishUnderLock(c, node, mem, disk, p, event, w).outcome != AnchorUnavailable
    ensures w.reply.NoAnswer? ==>
              && CatchUp(c, node, mem, disk, true, w).outcome != Done
              && ReserveUnderLock(c, node, mem, disk, v, w).outcome != Done
              && ReserveUnderLock(c, node, mem, disk, v, w).disk == disk
    ensures !w.moveOk ==> ReserveUnderLock(c, node, mem, disk, v, w).outcome != Done
  {
    SilenceMatters(c, node, mem, disk, w);
    ScanKeepsCover(c, node, mem.index, if |disk| < mem.readTo then [] else disk[mem.readTo..]);
    var caught := CatchUp(c, node, mem, disk, false, w);
    if caught.outcome == Done && Finishable(caught.mem.index, p) {
      assert (p.grant, p.nonce) in caught.mem.index.ops;
      AppendsWithoutTheAnchor(c, node, caught.mem, disk, OutcomeLine(caught.mem.index, p, event), w);
    }
  }

  lemma SilenceMatters(c: Codec, node: Key, mem: Mem, disk: seq<Byte>, w: World)
    ensures CatchUp(c, node, mem, disk, false, w).outcome != AnchorUnavailable
    ensures w.reply.NoAnswer? ==> CatchUp(c, node, mem, disk, true, w).outcome != Done
  {
  }

  lemma AppendsWithoutTheAnchor(c: Codec, node: Key, mem: Mem, disk: seq<Byte>, line: Line, w: World)
    ensures Append(c, node, mem, disk, line, false, w).outcome != AnchorUnavailable
  {
  }

  /**
   An anchor that names a tip is heeded: nothing goes on, spend or not, unless the lines read reach that number,
   and with that very line if they end there. What is refused leaves the file as it was.
   */
  lemma TheAnchorIsHeeded(c: Codec, node: Key, mem: Mem, disk: seq<Byte>, spend: bool, t: Tip, w: World)
    requires w.reply == Says(t) && CatchUp(c, node, mem, disk, spend, w).outcome == Done
    ensures var tip := CatchUp(c, node, mem, disk, spend, w).mem.index.tip;
            tip.Some? && (t.seqNo < tip.value.seqNo || t == tip.value)
  {
  }

  lemma RefusedFilesAreLeft(c: Codec, node: Key, mem: Mem, disk: seq<Byte>, v: Verified, p: Permit, event: Event,
                            w: World)
    requires GrantsCovered(mem.index)
    ensures CatchUp(c, node, mem, disk, true, w).outcome != Done ==>
              && ReserveUnderLock(c, node, mem, disk, v, w).disk == disk
              && ReserveUnderLock(c, node, mem, disk, v, w).outcome == CatchUp(c, node, mem, disk, true, w).outcome
    ensures CatchUp(c, node, mem, disk, false, w).outcome != Done ==>
              && FinishUnderLock(c, node, mem, disk, p, event, w).disk == disk
              && FinishUnderLock(c, node, mem, disk, p, event, w).outcome ==
                 CatchUp(c, node, mem, disk, false, w).outcome
  {
  }

  /** So a last line other than the one the anchor names for that number is not spent on, nor written after. */
  lemma OtherLinesAreNotSpentOn(c: Codec, node: Key, mem: Mem, disk: seq<Byte>, t: Tip, v: Verified, p: Permit,
                                event: Event, w: World)
    requires w.reply == Says(t) && GrantsCovered(mem.index)
    requires mem.readTo <= |disk|
    requires var tip := Scan(c, node, mem.index, disk[mem.readTo..]).index.tip;
             tip.None? || tip.value.seqNo < t.seqNo || (tip.value.seqNo == t.seqNo && tip.value != t)
    ensures ReserveUnderLock(c, node, mem, disk, v, w).outcome != Done
    ensures ReserveUnderLock(c, node, mem, disk, v, w).disk == disk
    ensures FinishUnderLock(c, node, mem, disk, p, event, w).outcome != Done
    ensures FinishUnderLock(c, node, mem, disk, p, event, w).disk == disk
  {
    CaughtUpMeansScanned(c, node, mem, disk, true, w);
    CaughtUpMeansScanned(c, node, mem, disk, false, w);
    if CatchUp(c, node, mem, disk, true, w).outcome == Done {
      TheAnchorIsHeeded(c, node, mem, disk, true, t, w);
    }
    if CatchUp(c, node, mem, disk, false, w).outcome == Done {
      TheAnchorIsHeeded(c, node, mem, disk, false, t, w);
    }
    RefusedFilesAreLeft(c, node, mem, disk, v, p, event, w);
  }

  lemma CaughtUpMeansScanned(c: Codec, node: Key, mem: Mem, disk: seq<Byte>, spend: bool, w: World)
    requires mem.readTo <= |disk|
    ensures CatchUp(c, node, mem, disk, spend, w).outcome == Done ==>
              CatchUp(c, node, mem, disk, spend, w).mem.index == Scan(c, node, mem.index, disk[mem.readTo..]).index
  {
  }

  /** What cannot be looked at is not judged: the memory stays, and the answer is that reading failed. */
  lemma FailedReadsChangeNothing(c: Codec, node: Key, mem: Mem, disk: seq<Byte>, spend: bool, w: World)
    requires !w.statOk || (!w.readOk && mem.readTo <= |disk|)
    ensures CatchUp(c, node, mem, disk, spend, w) == Result(mem, Io)
  {
  }

  // ---------------------------------------------------------------- a file with no torn tail

  /** The file has a line with the tip's number, which is the tip's line if it is the last. */
  predicate Reaches(rs: seq<Record>, t: Tip) {
    t.seqNo < |rs| || (rs != [] && t == Tip(|rs|, HashOf(rs[|rs| - 1])))
  }

  /** What the anchor's reply makes of a file that was read without a fault. */
  predicate Answers(rs: seq<Record>, floor: Option<Tip>, reply: Reply, spend: bool, outcome: Outcome) {
    match reply
    case NoAnswer => outcome == if spend then AnchorUnavailable else Done
    case Null => outcome == Done
    case Says(t) => if NotBehind(floor, t) && Reaches(rs, t) then outcome == Done else outcome.Broken?
  }

  /**
   Every answer there is, when file and reads are sound: a handle, old or new, catches up to the whole file,
   and whether it may go on is for the anchor alone to say; without a spend, silence is consent.
   */
  lemma CatchingUpAnswers(c: Codec, node: Key, s: Sys, h: Handle, spend: bool, w: World)
    requires FileOk(c, node, s) && Knows(c, node, s, h) && s.tail == [] && w.statOk && w.readOk
    ensures var caught := CatchUp(c, node, h.mem, Disk(c, s), spend, w);
            && caught.mem.index == IndexOf(node, s.records) && caught.mem.readTo == |Disk(c, s)|
            && Answers(s.records, h.mem.floor, w.reply, spend, caught.outcome)
  {
    ScanTheUnread(c, node, s, h);
    KnownTip(node, s.records);
    AcceptedShape(node, s.records);
    AnswersByTip(node, s.records, h.mem.floor, w.reply);
  }

  lemma AnswersByTip(node: Key, rs: seq<Record>, floor: Option<Tip>, reply: Reply)
    requires Accepted(node, rs)
    ensures AskTip(floor, reply).outcome == Done ==>
              (CheckAnchored(IndexOf(node, rs), AskTip(floor, reply).answer) == Done <==>
               (reply.Says? ==> Reaches(rs, reply.tip)))
    ensures CheckAnchored(IndexOf(node, rs), AskTip(floor, reply).answer) == Done
            || CheckAnchored(IndexOf(node, rs), AskTip(floor, reply).answer).Broken?
  {
    AcceptedShape(node, rs);
  }

  /** Opening a sound file works with the anchor down, and with any anchor that names a line of it. */
  lemma SoundFilesOpen(c: Codec, node: Key, s: Sys, w: World)
    requires FileOk(c, node, s) && s.tail == [] && w.statOk && w.readOk
    ensures var caught := CatchUp(c, node, FRESH, Disk(c, s), false, w);
            && (caught.outcome == Done <==> w.reply.Says? ==> Reaches(s.records, w.reply.tip))
            && caught.mem.index == IndexOf(node, s.records)
  {
    NewcomersKnow(c, node, s);
    CatchingUpAnswers(c, node, s, NEWCOMER, false, w);
  }

  // ---------------------------------------------------------------- spent

  /** Beside an honest anchor that answers, "spent" is said exactly when no use is left, whatever fails after. */
  lemma SpentExactlyWhenUsedUp(c: Codec, node: Key, s: Sys, h: Handle, v: Verified, w: World)
    requires FileOk(c, node, s) && Knows(c, node, s, h) && s.tail == []
    requires Anchored(s) && FloorOk(s, h.mem.floor) && v.maxUses > 0
    requires w.statOk && w.readOk && w.reply == HonestReply(s.anchor)
    ensures var done := ReserveUnderLock(c, node, h.mem, Disk(c, s), v, w);
            (done.outcome == Spent <==> !UsesLeft(s.records, v)) && (done.outcome == Spent ==> done.disk == Disk(c, s))
  {
    CatchesUp(c, node, s, h, w);
    SpendableMeansUsesLeft(node, s.records, v);
  }

  // ---------------------------------------------------------------- concluded

  /** The operation of this permit was reserved, for this request, and nothing later was said of it. */
  ghost predicate IsPending(rs: seq<Record>, p: Permit) {
    && (exists i: nat :: i < |rs| && Reserves(rs[i], (p.grant, p.nonce)) && rs[i].line.body == p.request)
    && LastEvent(rs, (p.grant, p.nonce)).Reserve?
  }

  lemma FinishableMeansPending(node: Key, rs: seq<Record>, p: Permit)
    requires Accepted(node, rs)
    ensures Finishable(IndexOf(node, rs), p) <==> IsPending(rs, p)
  {
    var key := (p.grant, p.nonce);
    OperationsAreIndexed(node, rs, key);
    if key in IndexOf(node, rs).ops {
      OperationsAreAsLastSaid(node, rs, key);
    }
  }

  /** The conclusion of a permit is in the file and in the memory. */
  ghost predicate IsConcluded(c: Codec, node: Key, s: Sys, p: Permit, event: Event, done: Appended) {
    var r := NewRecord(node, IndexOf(node, s.records), LineFor(IndexOf(node, s.records), Conclude(p, event)));
    && done.disk == Disk(c, s) + Frame(c, r)
    && KeyOf(r) == (p.grant, p.nonce) && r.line.body == p.request && r.line.event == event
    && (p.grant, p.nonce) in done.mem.index.ops
    && done.mem.index.ops[(p.grant, p.nonce)] == Operation(p.request, event)
  }

  /**
   Whether or not the anchor answers, and whether or not it moves: a permit's outcome is recorded exactly if
   the operation is still pending. Otherwise it is refused as not pending and the file left as it was.
   */
  lemma ConclusionsAreRecorded(c: Codec, node: Key, s: Sys, h: Handle, p: Permit, event: Event, w: World)
    requires FileOk(c, node, s) && Knows(c, node, s, h) && s.tail == [] && !event.Reserve?
    requires Anchored(s) && FloorOk(s, h.mem.floor)
    requires w.statOk && w.readOk && w.syncOk && (w.reply == NoAnswer || w.reply == HonestReply(s.anchor))
    requires w.written >= |Frame(c, NextRecord(node, IndexOf(node, s.records), Conclude(p, event)))|
    ensures GrantsCovered(h.mem.index)
    ensures var done := FinishUnderLock(c, node, h.mem, Disk(c, s), p, event, w);
            if IsPending(s.records, p) then done.outcome == Done && IsConcluded(c, node, s, p, event, done)
            else done.outcome == NotPending && done.disk == Disk(c, s)
  {
    ReplayKeepsCover(node, EMPTY, s.records[..NextSeq(h.mem.index) - 1]);
    CatchingUpAnswers(c, node, s, h, false, w);
    HonestAnswersPass(node, s, h.mem.floor, w);
    CatchUpFloor(c, node, s, h.mem, Disk(c, s), false, w);
    FinishableMeansPending(node, s.records, p);
    var caught := CatchUp(c, node, h.mem, Disk(c, s), false, w);
    if IsPending(s.records, p) {
      ReplayKeepsCover(node, EMPTY, s.records);
      ConclusionGoesThrough(c, node, s, caught.mem, p, event, w);
    }
  }

  lemma HonestAnswersPass(node: Key, s: Sys, floor: Option<Tip>, w: World)
    requires Accepted(node, s.records) && Anchored(s) && FloorOk(s, floor)
    requires w.reply == NoAnswer || w.reply == HonestReply(s.anchor)
    ensures Answers(s.records, floor, w.reply, false, Done)
    ensures forall outcome :: Answers(s.records, floor, w.reply, false, outcome) ==> outcome == Done
  {
  }

  lemma ConclusionGoesThrough(c: Codec, node: Key, s: Sys, mem: Mem, p: Permit, event: Event, w: World)
    requires FileOk(c, node, s) && FloorOk(s, mem.floor) && mem.index == IndexOf(node, s.records)
    requires Finishable(mem.index, p) && p.grant in mem.index.grants && !event.Reserve? && w.syncOk
    requires w.written >= |Frame(c, NextRecord(node, mem.index, Conclude(p, event)))|
    ensures var done := Append(c, node, mem, Disk(c, s), OutcomeLine(mem.index, p, event), false, w);
            done.outcome == Done && IsConcluded(c, node, s, p, event, done)
  {
    var r := NextRecord(node, mem.index, Conclude(p, event));
    KnownTip(node, s.records);
    PreChecksImplyApply(mem.index, Verified(0, Zero, 0, Zero, 0), p, event);
    assert NotBehind(mem.floor, Tip(r.line.seqNo, HashOf(r)));
  }
}
