/** The other direction of the budget: a use that is left is granted when the world lets it. */
module JournalProgress {
  import opened Basics
  import opened Ledger
  import opened Framing
  import opened Authority
  import opened JournalRuns
  import opened JournalSafety

  /** The uses of a grant that are gone, and whether this operation is among them. */
  ghost predicate UsesLeft(rs: seq<Record>, v: Verified) {
    && |Reservations(rs, v.grant)| < v.maxUses
    && (forall j :: j in Reservations(rs, v.grant) ==> rs[j].line.terms == v.terms)
    && !exists i: nat :: i < |rs| && Reserves(rs[i], (v.grant, v.nonce))
  }

  /** The check in memory is the question about the file. */
  lemma SpendableMeansUsesLeft(node: Key, rs: seq<Record>, v: Verified)
    requires Accepted(node, rs) && v.maxUses > 0
    ensures Spendable(IndexOf(node, rs), v) <==> UsesLeft(rs, v)
  {
    CountersAreExact(node, rs, v.grant);
    OperationsAreIndexed(node, rs, (v.grant, v.nonce));
    if v.grant in IndexOf(node, rs).grants {
      var j :| j in Reservations(rs, v.grant);
      assert rs[j].line.terms == IndexOf(node, rs).grants[v.grant].terms;
    } else {
      assert |Reservations(rs, v.grant)| == 0;
    }
  }

  /** A world in which nothing goes wrong: locks, reads, the anchor's answer, the write, fsync and the move. */
  predicate GoesWell(s: Sys, w: World, size: nat) {
    && w.lockOk && w.statOk && w.readOk && w.written >= size && w.syncOk && w.moveOk && w.unlockOk
    && w.reply == HonestReply(s.anchor)
  }

  /** Catching up for a spend works on a file with no torn tail beside an honest anchor that answers. */
  lemma CatchesUp(c: Codec, node: Key, s: Sys, h: Handle, w: World)
    requires FileOk(c, node, s) && Knows(c, node, s, h) && s.tail == []
    requires Anchored(s) && FloorOk(s, h.mem.floor)
    requires w.statOk && w.readOk && w.reply == HonestReply(s.anchor)
    ensures var caught := CatchUp(c, node, h.mem, Disk(c, s), true, w);
            && caught.outcome == Done && caught.mem.index == IndexOf(node, s.records) && FloorOk(s, caught.mem.floor)
  {
    ScanTheUnread(c, node, s, h);
    AnchorAgrees(node, s, h.mem.floor, w.reply);
  }

  /** By a handle that knows every record, a new line is written, counted and anchored, whatever is in the file. */
  lemma AppendsWell(c: Codec, node: Key, s: Sys, mem: Mem, disk: seq<Byte>, v: Verified, w: World, size: nat)
    requires FileOk(c, node, s) && FloorOk(s, mem.floor) && mem.index == IndexOf(node, s.records)
    requires Spendable(mem.index, v) && v.maxUses > 0
    requires size == |Frame(c, NewRecord(node, mem.index, ReserveLine(v)))| && GoesWell(s, w, size)
    ensures Append(c, node, mem, disk, ReserveLine(v), true, w).outcome == Done
  {
    var r := NewRecord(node, mem.index, ReserveLine(v));
    KnownTip(node, s.records);
    PreChecksImplyApply(mem.index, v, PermitOf(v), Unknown);
    assert NotBehind(mem.floor, Tip(r.line.seqNo, HashOf(r)));
  }

  /**
   Beside an honest anchor, on a file with no torn tail, when nothing goes wrong: a verified operation is
   granted exactly when its grant has a use left in the file, under its terms, and its nonce is new.
   */
  lemma UsesLeftAreGranted(c: Codec, node: Key, s: Sys, h: nat, p: Presented, body: seq<Byte>, policy: Policy, w: World)
    requires Inv(c, node, s) && Anchored(s) && s.tail == [] && h in s.handles
    requires Verify(p, body, policy).Some?
    requires var v := Verify(p, body, policy).value;
             GoesWell(s, w, |Frame(c, NewRecord(node, IndexOf(node, s.records), ReserveLine(v)))|)
    ensures var v := Verify(p, body, policy).value;
            var done := ReserveUnderLock(c, node, s.handles[h].mem, Disk(c, s), v, w);
            && (done.outcome == Done <==> UsesLeft(s.records, v))
            && (done.outcome != Done ==> done.outcome == Spent && done.disk == Disk(c, s))
  {
    var v := Verify(p, body, policy).value;
    var mem := s.handles[h].mem;
    assert Knows(c, node, s, s.handles[h]) && FloorOk(s, mem.floor);
    CatchesUp(c, node, s, s.handles[h], w);
    SpendableMeansUsesLeft(node, s.records, v);
    var caught := CatchUp(c, node, mem, Disk(c, s), true, w);
    if Spendable(caught.mem.index, v) {
      var r := NewRecord(node, caught.mem.index, ReserveLine(v));
      AppendsWell(c, node, s, caught.mem, Disk(c, s), v, w, |Frame(c, r)|);
    }
  }
}
