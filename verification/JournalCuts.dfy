/**
 Files that were cut or replaced behind the journal's back, at any moment of any run: what a handle that
 knew the file, or one that opens it afresh, still grants.
 */
module JournalCuts {
  import opened Basics
  import opened Ledger
  import opened Framing
  import opened Authority
  import opened JournalRuns
  import opened JournalSafety
  import opened JournalProgress

  /** A handle that opens the file afresh. */
  const NEWCOMER := Handle(FRESH, 0, Idle)

  lemma NewcomersKnow(c: Codec, node: Key, s: Sys)
    ensures Knows(c, node, s, NEWCOMER) && FloorOk(s, NEWCOMER.mem.floor) && ReadsWhatItKnows(NEWCOMER)
  {
    assert s.records[..0] == [];
  }

  /** The handle has read every record it counts; it has not met a torn one. */
  predicate ReadsWhatItKnows(h: Handle) {
    h.read == NextSeq(h.mem.index) - 1
  }

  /** `k` records hold every reserve line whose permit was released. */
  ghost predicate HoldsEveryPermit(node: Key, s: Sys, k: nat)
    requires k <= |s.records|
  {
    forall i :: 0 <= i < |s.released| ==>
                  && s.released[i].at < k
                  && (s.released[i].permit.grant, s.released[i].permit.nonce) in IndexOf(node, s.records[..k]).ops
  }

  /** An index that passed the anchor check holds every reserve line whose permit was released. */
  lemma AnchorCheckCoversPermits(node: Key, s: Sys, k: nat, i: nat)
    requires Accepted(node, s.records) && ReleasesOk(s) && Anchored(s) && k <= |s.records| && i < |s.released|
    requires CheckAnchored(IndexOf(node, s.records[..k]), s.anchor) == Done
    ensures s.released[i].at < k
    ensures (s.released[i].permit.grant, s.released[i].permit.nonce) in IndexOf(node, s.records[..k]).ops
  {
    AnySplitReplaysTheSame(node, s.records, k);
    AcceptedShape(node, s.records[..k]);
    ReleasedAt(s, i);
    var rel := s.released[i];
    OperationsAreIndexed(node, s.records[..k], (rel.permit.grant, rel.permit.nonce));
    assert Reserves(s.records[..k][rel.at], (rel.permit.grant, rel.permit.nonce));
  }

  lemma AnchorCheckCoversAll(node: Key, s: Sys, k: nat)
    requires Accepted(node, s.records) && ReleasesOk(s) && Anchored(s) && k <= |s.records|
    requires CheckAnchored(IndexOf(node, s.records[..k]), s.anchor) == Done
    ensures HoldsEveryPermit(node, s, k)
  {
    forall i | 0 <= i < |s.released|
      ensures s.released[i].at < k
      ensures (s.released[i].permit.grant, s.released[i].permit.nonce) in IndexOf(node, s.records[..k]).ops
    {
      AnchorCheckCoversPermits(node, s, k, i);
    }
  }

  /** Caught up for a spend beside an anchor that answers, a handle agrees with what it answered. */
  lemma SpendChecksTheAnchor(c: Codec, node: Key, mem: Mem, disk: seq<Byte>, anchor: Option<Tip>, w: World)
    requires w.reply == HonestReply(anchor) && CatchUp(c, node, mem, disk, true, w).outcome == Done
    ensures CheckAnchored(CatchUp(c, node, mem, disk, true, w).mem.index, anchor) == Done
    ensures mem.readTo <= |disk| && Scan(c, node, mem.index, disk[mem.readTo..]).verdict.Fine?
    ensures CatchUp(c, node, mem, disk, true, w).mem.index == Scan(c, node, mem.index, disk[mem.readTo..]).index
  {
  }

  // ---------------------------------------------------------------- replaced files

  /** `r` is one of the records in these bytes, read as whole frames. */
  ghost predicate Carries(c: Codec, disk: seq<Byte>, r: Record) {
    exists bodies, rs :: IsFileOf(c, disk, bodies, rs) && r in rs
  }

  /** What follows a handle's read position carries no line signed by the node but its own. */
  ghost predicate NothingForeign(c: Codec, node: Key, s: Sys, h: Handle, disk: seq<Byte>) {
    h.mem.readTo <= |disk| ==>
      forall r :: Carries(c, disk[h.mem.readTo..], r) && r.sig == Signed(node, LineMessage(r.line)) ==> r in s.records
  }

  lemma {:induction false} LinesAreSigned(node: Key, all: seq<Record>, j: nat)
    requires Accepted(node, all) && j <= |all|
    ensures forall r :: r in all[j..] ==> r.sig == Signed(node, LineMessage(r.line))
  {
    AcceptedShape(node, all);
  }

  lemma ContinuationIsAccepted(node: Key, known: seq<Record>, rs: seq<Record>)
    requires Accepted(node, known) && Replay(node, IndexOf(node, known), rs).verdict.Fine?
    ensures Accepted(node, known + rs) && IndexOf(node, known + rs) == Replay(node, IndexOf(node, known), rs).index
    ensures forall r :: r in rs ==> r.sig == Signed(node, LineMessage(r.line))
  {
    ReplaySplit(node, EMPTY, known, rs);
    LinesAreSigned(node, known + rs, |known|);
    assert (known + rs)[|known|..] == rs;
  }

  lemma LinesAreOwn(c: Codec, node: Key, s: Sys, h: Handle, disk: seq<Byte>, known: seq<Record>,
                    bodies: seq<seq<Byte>>, rs: seq<Record>)
    requires known <= s.records && h.mem.readTo <= |disk| && NothingForeign(c, node, s, h, disk)
    requires IsFileOf(c, disk[h.mem.readTo..], bodies, rs)
    requires forall r :: r in rs ==> r.sig == Signed(node, LineMessage(r.line))
    ensures forall r :: r in known + rs ==> r in s.records
  {
    forall r | r in rs ensures r in s.records {
      assert Carries(c, disk[h.mem.readTo..], r);
    }
  }

  /** What a known prefix and newly read lines amount to. */
  lemma ReadOn(c: Codec, node: Key, s: Sys, h: Handle, disk: seq<Byte>) returns (k: nat)
    requires Accepted(node, s.records) && Knows(c, node, s, h) && NothingForeign(c, node, s, h, disk)
    requires h.mem.readTo <= |disk| && Scan(c, node, h.mem.index, disk[h.mem.readTo..]).verdict.Fine?
    ensures NextSeq(h.mem.index) - 1 <= k <= |s.records|
    ensures Scan(c, node, h.mem.index, disk[h.mem.readTo..]).index == IndexOf(node, s.records[..k])
  {
    var known := s.records[..NextSeq(h.mem.index) - 1];
    var bodies, rs := AcceptedFileIsFrames(c, node, h.mem.index, disk[h.mem.readTo..]);
    var all := known + rs;
    ContinuationIsAccepted(node, known, rs);
    LinesAreOwn(c, node, s, h, disk, known, bodies, rs);
    SignedLinesOnlyFormPrefixes(node, s.records, all);
    k := |all|;
    assert s.records[..k] == all;
  }

  /**
   A file whose bytes past a handle's read position are replaced by anything that carries no line signed by
   the node but its own: the handle, old or new, torn or not, gets past catching up for a spend only with
   the replay of a beginning of the true history that holds every reserve line whose permit was released.
   Lines read cannot be edited, reordered, repeated or left out; bytes before `readTo` are not read again.
   */
  lemma SubstitutedFilesKeepEveryPermit(c: Codec, node: Key, s: Sys, h: Handle, disk: seq<Byte>, w: World)
    returns (k: nat)
    requires Inv(c, node, s) && Anchored(s) && Knows(c, node, s, h) && FloorOk(s, h.mem.floor)
    requires NothingForeign(c, node, s, h, disk) && w.reply == HonestReply(s.anchor)
    ensures k <= |s.records|
    ensures CatchUp(c, node, h.mem, disk, true, w).outcome == Done ==>
              && CatchUp(c, node, h.mem, disk, true, w).mem.index == IndexOf(node, s.records[..k])
              && HoldsEveryPermit(node, s, k)
  {
    k := 0;
    if CatchUp(c, node, h.mem, disk, true, w).outcome == Done {
      SpendChecksTheAnchor(c, node, h.mem, disk, s.anchor, w);
      k := ReadOn(c, node, s, h, disk);
      AnchorCheckCoversAll(node, s, k);
    }
  }

  // ---------------------------------------------------------------- cut files

  /** What a cut leaves: some whole records and, off the boundaries, a torn piece of one. */
  lemma CutDisk(c: Codec, node: Key, s: Sys, cut: nat) returns (k: nat, tail: seq<Byte>)
    requires FileOk(c, node, s) && cut <= |Disk(c, s)|
    ensures k <= |s.records| && Disk(c, s)[..cut] == Frames(c, s.records[..k]) + tail
    ensures tail != [] ==> exists r :: Torn(c, r, tail) && (k < |s.records| ==> r == s.records[k])
  {
    var whole := Frames(c, s.records);
    if cut <= |whole| {
      k, tail := CutLeaves(c, s.records, cut);
      assert Disk(c, s)[..cut] == whole[..cut];
    } else {
      k, tail := |s.records|, s.tail[..cut - |whole|];
      assert s.records[..k] == s.records;
      var r :| Torn(c, r, s.tail);
      TornPrefix(c, r, s.tail, |tail|);
    }
  }

  lemma TornPrefix(c: Codec, r: Record, tail: seq<Byte>, n: nat)
    requires Torn(c, r, tail) && 0 < n <= |tail|
    ensures Torn(c, r, tail[..n])
  {
    assert tail[..n] == Frame(c, r)[..|tail|][..n] == Frame(c, r)[..n];
  }

  /** The state with a cut file in it. */
  function CutState(s: Sys, k: nat, tail: seq<Byte>): Sys
    requires k <= |s.records|
  {
    s.(records := s.records[..k], tail := tail, durable := 0)
  }

  lemma CutFileOk(c: Codec, node: Key, s: Sys, k: nat, tail: seq<Byte>)
    requires FileOk(c, node, s) && k <= |s.records|
    requires tail != [] ==> exists r :: Torn(c, r, tail)
    ensures FileOk(c, node, CutState(s, k, tail))
  {
    AnySplitReplaysTheSame(node, s.records, k);
  }

  lemma KnownBeforeCut(c: Codec, node: Key, s: Sys, h: Handle, k: nat, tail: seq<Byte>)
    requires Knows(c, node, s, h) && ReadsWhatItKnows(h) && k <= |s.records|
    requires tail != [] && k < |s.records| ==> Torn(c, s.records[k], tail)
    requires h.mem.readTo <= |Frames(c, s.records[..k]) + tail|
    ensures Knows(c, node, CutState(s, k, tail), h)
  {
    if k < h.read {
      MoreRecordsMoreBytes(c, s.records, k, k + 1);
      assert s.records[..k + 1] == s.records[..k] + [s.records[k]];
      FramesOfOne(c, s.records[..k], s.records[k]);
      if k + 1 < h.read {
        MoreRecordsMoreBytes(c, s.records, k + 1, h.read);
      }
      assert false;
    }
    assert s.records[..k][..h.read] == s.records[..h.read];
  }

  /**
   A file cut anywhere, torn or not: a new handle, or an old one that has read what it knows, gets past
   catching up for a spend only if the cut left whole records and among them every reserve line whose permit
   was released.
   */
  lemma CutFilesKeepEveryPermit(c: Codec, node: Key, s: Sys, h: Handle, cut: nat, w: World) returns (k: nat)
    requires Inv(c, node, s) && Anchored(s) && Knows(c, node, s, h) && FloorOk(s, h.mem.floor)
    requires ReadsWhatItKnows(h) && cut <= |Disk(c, s)| && w.reply == HonestReply(s.anchor)
    ensures k <= |s.records|
    ensures CatchUp(c, node, h.mem, Disk(c, s)[..cut], true, w).outcome == Done ==>
              && cut == |Frames(c, s.records[..k])|
              && CatchUp(c, node, h.mem, Disk(c, s)[..cut], true, w).mem.index == IndexOf(node, s.records[..k])
              && HoldsEveryPermit(node, s, k)
  {
    var tail;
    k, tail := CutDisk(c, node, s, cut);
    var cutFile := CutState(s, k, tail);
    assert Disk(c, cutFile) == Disk(c, s)[..cut];
    if h.mem.readTo <= cut {
      CutFileOk(c, node, s, k, tail);
      KnownBeforeCut(c, node, s, h, k, tail);
      CatchUpKnows(c, node, cutFile, h, true, w, Idle);
      if CatchUp(c, node, h.mem, Disk(c, cutFile), true, w).outcome == Done {
        SpendChecksTheAnchor(c, node, h.mem, Disk(c, cutFile), s.anchor, w);
        AnchorCheckCoversAll(node, s, k);
      }
    }
  }

  // ---------------------------------------------------------------- handles that met a torn record

  /** Past its read position such a handle finds a record it has counted already, or a torn piece of it. */
  lemma TornHandleRefusesMore(c: Codec, node: Key, s: Sys, h: Handle, cut: nat)
    requires FileOk(c, node, s) && Knows(c, node, s, h) && !ReadsWhatItKnows(h)
    requires h.mem.readTo < cut <= |Disk(c, s)|
    ensures Scan(c, node, h.mem.index, Disk(c, s)[..cut][h.mem.readTo..]).verdict.Tampered?
  {
    var unread := s.records[h.read..];
    UnreadBytes(c, s, h.read);
    RereadIsRefused(node, s, h);
    SliceOfRest(Disk(c, s), h.mem.readTo, cut);
    assert Frames(c, unread) + s.tail == Frame(c, unread[0]) + (Frames(c, unread[1..]) + s.tail);
    CountedAgainIsRefused(c, node, h.mem.index, unread[0], Frames(c, unread[1..]) + s.tail, cut - h.mem.readTo);
  }

  lemma CountedAgainIsRefused(c: Codec, node: Key, ix: Index, r: Record, rest: seq<Byte>, n: nat)
    requires Carried(c, r) && Accept(node, ix, r).verdict.Tampered? && 0 < n <= |Frame(c, r) + rest|
    ensures Scan(c, node, ix, (Frame(c, r) + rest)[..n]).verdict.Tampered?
  {
    var first, left := Frame(c, r), (Frame(c, r) + rest)[..n];
    if n < |first| {
      assert left == first[..n];
      TornTailIsRefused(c, node, ix, r, left);
    } else {
      assert left == first + rest[..n - |first|];
      FrameThenRest(c, r, rest[..n - |first|]);
    }
  }

  lemma SliceOfRest<T>(s: seq<T>, from: nat, to: nat)
    requires from <= to <= |s|
    ensures s[..to][from..] == s[from..][..to - from]
  {
  }

  /**
   A handle whose last parse ended at a torn record has counted records past its read position. Of a file
   cut anywhere it accepts exactly the one cut to that position, where it has nothing to read: reserve
   lines whose permits were released may be missing there. What it goes by is its memory of all of them.
   */
  lemma TornHandlesAcceptOneCut(c: Codec, node: Key, s: Sys, h: Handle, cut: nat, w: World)
    requires Inv(c, node, s) && Anchored(s) && Knows(c, node, s, h) && FloorOk(s, h.mem.floor)
    requires !ReadsWhatItKnows(h) && cut <= |Disk(c, s)|
    requires w.statOk && w.readOk && w.reply == HonestReply(s.anchor)
    ensures var caught := CatchUp(c, node, h.mem, Disk(c, s)[..cut], true, w);
            && (caught.outcome == Done <==> cut == h.mem.readTo)
            && (caught.outcome == Done ==>
                  caught.mem.index == IndexOf(node, s.records) && h.read < |s.records|
                  && HoldsEveryPermit(node, s, |s.records|))
  {
    if h.mem.readTo < cut {
      TornHandleRefusesMore(c, node, s, h, cut);
    } else if cut == h.mem.readTo {
      assert s.records[..|s.records|] == s.records;
      assert Disk(c, s)[..cut][cut..] == [];
      AnchorAgrees(node, s, h.mem.floor, w.reply);
      AnchorCheckCoversAll(node, s, |s.records|);
    }
  }

  // ---------------------------------------------------------------- budgets hold all the same

  /** With every released reserve line in the index, what is spendable is within the released permits' budget. */
  lemma IndexedPermitsAreCounted(node: Key, s: Sys, k: nat, v: Verified)
    requires Accepted(node, s.records) && ReleasesOk(s) && k <= |s.records| && HoldsEveryPermit(node, s, k)
    requires Spendable(IndexOf(node, s.records[..k]), v) && v.maxUses > 0
    ensures |PermitsFor(s, v.grant)| < v.maxUses
    ensures forall i :: i in PermitsFor(s, v.grant) ==> s.released[i].permit.nonce != v.nonce
  {
    var rs := s.records[..k];
    AnySplitReplaysTheSame(node, s.records, k);
    SpendableMeansUsesLeft(node, rs, v);
    var ats := seq(|s.released|, i requires 0 <= i < |s.released| => s.released[i].at);
    forall i | i in PermitsFor(s, v.grant) ensures s.released[i].at in Reservations(rs, v.grant) {
      ReleasedAt(s, i);
    }
    InjectionBound(PermitsFor(s, v.grant), Reservations(rs, v.grant), ats);
  }

  /**
   Whatever is cut off or put behind a handle's read position, whichever handle it is: a spend that goes
   through leaves the permits of its grant within the budget and is for an operation that has none.
   */
  lemma SpendsOnChangedFilesStayWithinBudget(c: Codec, node: Key, s: Sys, h: Handle, disk: seq<Byte>, v: Verified,
                                             w: World)
    requires Inv(c, node, s) && Anchored(s) && Knows(c, node, s, h) && FloorOk(s, h.mem.floor)
    requires NothingForeign(c, node, s, h, disk) && w.reply == HonestReply(s.anchor) && v.maxUses > 0
    requires ReserveUnderLock(c, node, h.mem, disk, v, w).outcome == Done
    ensures |PermitsFor(s, v.grant)| < v.maxUses
    ensures forall i :: i in PermitsFor(s, v.grant) ==> s.released[i].permit.nonce != v.nonce
  {
    var k := SubstitutedFilesKeepEveryPermit(c, node, s, h, disk, w);
    IndexedPermitsAreCounted(node, s, k, v);
  }

  /** The same for a file cut anywhere, by a handle that met a torn record or one that did not. */
  lemma SpendsOnCutFilesStayWithinBudget(c: Codec, node: Key, s: Sys, h: Handle, cut: nat, v: Verified, w: World)
    requires Inv(c, node, s) && Anchored(s) && Knows(c, node, s, h) && FloorOk(s, h.mem.floor)
    requires cut <= |Disk(c, s)| && w.reply == HonestReply(s.anchor) && v.maxUses > 0
    requires ReserveUnderLock(c, node, h.mem, Disk(c, s)[..cut], v, w).outcome == Done
    ensures |PermitsFor(s, v.grant)| < v.maxUses
    ensures forall i :: i in PermitsFor(s, v.grant) ==> s.released[i].permit.nonce != v.nonce
  {
    var k := |s.records|;
    if ReadsWhatItKnows(h) {
      k := CutFilesKeepEveryPermit(c, node, s, h, cut, w);
    } else {
      TornHandlesAcceptOneCut(c, node, s, h, cut, w);
      assert s.records[..k] == s.records;
    }
    IndexedPermitsAreCounted(node, s, k, v);
  }

  /** And what a torn handle writes on its cut is refused by whoever opens the file next. */
  lemma TheNextReaderRefuses(c: Codec, node: Key, s: Sys, h: Handle, line: Line, spend: bool, w: World)
    requires Inv(c, node, s) && Knows(c, node, s, h) && !ReadsWhatItKnows(h)
    requires Carried(c, NewRecord(node, h.mem.index, line))
    ensures var r := NewRecord(node, h.mem.index, line);
            var disk := Frames(c, s.records[..h.read]) + Frame(c, r);
            CatchUp(c, node, FRESH, disk, spend, w).outcome != Done
  {
    var r := NewRecord(node, h.mem.index, line);
    var front := s.records[..h.read];
    FramesOfOne(c, front, r);
    AnySplitReplaysTheSame(node, s.records, h.read);
    KnownTip(node, front);
    LastStep(node, front, r);
    var disk := Frames(c, front + [r]);
    assert disk + [] == disk && disk[0..] == disk;
    ScanReplaysFrames(c, node, EMPTY, front + [r], []);
  }
}
