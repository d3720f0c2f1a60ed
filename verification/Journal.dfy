/** The journal and its anchors in the form the program has them: objects updated in place. */
module Journal {
  import opened Basics
  import opened Ledger
  import opened Framing
  import opened Authority

  /** The in-process anchor: a cell shared by its clones that only moves forward. */
  class MemoryAnchor {
    var tip: Option<Tip>

    constructor ()
      ensures tip == None
    {
      tip := None;
    }

    method Ask() returns (t: Option<Tip>)
      ensures t == tip
    {
      t := tip;
    }

    method Advance(t: Tip) returns (outcome: Outcome)
      modifies this
      ensures outcome == Done <==> NotBehind(old(tip), t)
      ensures outcome == Done || outcome.Broken?
      ensures tip == if outcome == Done then Some(t) else old(tip)
    {
      if tip.Some? {
        var was := tip.value;
        if t.seqNo < was.seqNo {
          return Broken(NeverBack);
        }
        if t.seqNo == was.seqNo && t.hash != was.hash {
          return Broken(NeverSideways);
        }
      }
      tip := Some(t);
      return Done;
    }
  }

  /** The external anchor program's client, with the newest tip it has seen. */
  class CommandAnchor {
    var last: Option<Tip>

    constructor ()
      ensures last == None
    {
      last := None;
    }

    method Ask(reply: Reply) returns (outcome: Outcome, answer: Option<Tip>)
      modifies this
      ensures Asked(last, outcome, answer) == AskTip(old(last), reply)
    {
      match reply {
        case NoAnswer => return AnchorUnavailable, None;
        case Null => return Done, None;
        case Says(t) =>
          if last.Some? {
            var l := last.value;
            if t.seqNo < l.seqNo || (t.seqNo == l.seqNo && t.hash != l.hash) {
              return Broken(AnchorWentBack), None;
            }
          }
          last := Some(t);
          return Done, Some(t);
      }
    }

    method Advance(t: Tip, ran: bool) returns (outcome: Outcome)
      modifies this
      ensures Moved(last, outcome) == MoveTip(old(last), t, ran)
    {
      if last.Some? {
        var was := last.value;
        if t.seqNo < was.seqNo || (t.seqNo == was.seqNo && t.hash != was.hash) {
          return Broken(NeverBackOrSideways);
        }
      }
      if !ran {
        return AnchorUnavailable;
      }
      last := Some(t);
      return Done;
    }
  }

  /** The file several handles share. */
  class File {
    var bytes: seq<Byte>

    constructor ()
      ensures bytes == []
    {
      bytes := [];
    }
  }

  class Handle {
    const codec: Codec
    const node: Key
    const file: File
    const anchor: CommandAnchor
    var readTo: nat
    var tip: Option<Tip>
    var grants: map<Id, Used>
    var ops: map<(Id, Id), Operation>

    /** The handle's memory as the value the operations are specified on. */
    ghost function Memory(): Mem
      reads this, anchor
    {
      Mem(readTo, Index(tip, grants, ops), anchor.last)
    }

    constructor (codec: Codec, node: Key, file: File, anchor: CommandAnchor)
      ensures this.codec == codec && this.node == node && this.file == file && this.anchor == anchor
      ensures Memory() == Mem(0, EMPTY, anchor.last)
    {
      this.codec, this.node, this.file, this.anchor := codec, node, file, anchor;
      readTo, tip, grants, ops := 0, None, map[], map[];
    }

    /** What `open` does once the file is open: read it all under a shared lock. */
    method Open(w: World) returns (outcome: Outcome)
      requires Memory() == Mem(0, EMPTY, anchor.last)
      modifies this, anchor
      ensures !w.lockOk ==> outcome == Io && Memory() == old(Memory())
      ensures w.lockOk ==>
                var caught := CatchUp(codec, node, old(Memory()), file.bytes, false, w);
                Memory() == caught.mem && outcome == if w.unlockOk then caught.outcome else Io
    {
      if !w.lockOk {
        return Io;
      }
      outcome := CatchUpInPlace(false, w);
      if !w.unlockOk {
        return Io;
      }
    }

    /** Take in what the file has beyond `readTo`, line by line, and ask the anchor about the result. */
    method CatchUpInPlace(spend: bool, w: World) returns (outcome: Outcome)
      modifies this, anchor
      ensures Result(Memory(), outcome) == CatchUp(codec, node, old(Memory()), file.bytes, spend, w)
    {
      if !w.statOk {
        return Io;
      }
      var len := |file.bytes|;
      if len < readTo {
        return Broken(Shorter);
      }
      if !w.readOk {
        return Io;
      }
      var verdict := ParseInPlace(file.bytes[readTo..]);
      if verdict.Tampered? {
        return Broken(verdict.why);
      }
      readTo := len;
      outcome := CheckTipInPlace(spend, w);
    }

    /** The parse loop; records before a flaw stay counted. */
    method ParseInPlace(rest: seq<Byte>) returns (verdict: Verdict)
      modifies this
      ensures readTo == old(readTo)
      ensures Step(Memory().index, verdict) == Scan(codec, node, old(Memory()).index, rest)
    {
      ghost var whole := Scan(codec, node, Memory().index, rest);
      var at := 0;
      ghost var left := rest;
      while at < |rest|
        invariant 0 <= at <= |rest|
        invariant readTo == old(readTo)
        invariant left == rest[at..] && Scan(codec, node, Memory().index, left) == whole
      {
        ghost var was := Memory().index;
        if |rest| < at + HEADER {
          ScanStops(codec, node, was, rest, at, TruncatedHeader);
          return Tampered(TruncatedHeader);
        }
        var size := FromBigEndian(rest[at..at + HEADER]);
        if |rest| < at + HEADER + size {
          ScanStops(codec, node, was, rest, at, TruncatedRecord);
          return Tampered(TruncatedRecord);
        }
        var decoded := codec.decode(rest[at + HEADER..at + HEADER + size]);
        if decoded.None? {
          ScanStops(codec, node, was, rest, at, Unreadable);
          return Tampered(Unreadable);
        }
        verdict := AcceptInPlace(decoded.value);
        ScanTakes(codec, node, was, rest, at, size, decoded.value);
        left := rest[at + HEADER + size..];
        if verdict.Tampered? {
          return;
        }
        at := at + HEADER + size;
      }
      assert rest[at..] == [];
      verdict := Fine;
    }

    /** One record read: its place in the chain, its signature, its line. */
    method AcceptInPlace(record: Record) returns (verdict: Verdict)
      modifies this
      ensures readTo == old(readTo)
      ensures Step(Memory().index, verdict) == Accept(node, old(Memory()).index, record)
    {
      var line := record.line;
      var expected := if tip.None? then 1 else tip.value.seqNo + 1;
      var prev := if tip.None? then Zero else tip.value.hash;
      if line.seqNo != expected || line.prev != prev {
        return Tampered(BrokenChain);
      }
      if record.sig != Signed(node, LineMessage(line)) {
        return Tampered(NotSigned);
      }
      verdict := ApplyInPlace(line);
      if verdict.Fine? {
        tip := Some(Tip(line.seqNo, HashOf(record)));
      }
    }

    /** What the anchor says of the file just read; a spend needs its answer. */
    method CheckTipInPlace(spend: bool, w: World) returns (outcome: Outcome)
      modifies anchor
      ensures var asked := AskTip(old(anchor.last), w.reply);
              && anchor.last == asked.floor
              && outcome == if asked.outcome == AnchorUnavailable && !spend then Done
                            else if asked.outcome != Done then asked.outcome
                            else CheckAnchored(Memory().index, asked.answer)
    {
      var asked, anchored := anchor.Ask(w.reply);
      if asked == AnchorUnavailable && !spend {
        anchored := None;
      } else if asked != Done {
        return asked;
      }
      if anchored.Some? {
        if tip.Some? && tip.value.seqNo >= anchored.value.seqNo {
          if tip.value.seqNo == anchored.value.seqNo && tip.value.hash != anchored.value.hash {
            return Broken(DivergesFromAnchor);
          }
        } else {
          return Broken(BehindAnchor);
        }
      }
      return Done;
    }

    method ApplyInPlace(line: Line) returns (verdict: Verdict)
      modifies this`grants, this`ops
      ensures Step(Index(tip, grants, ops), verdict) == Apply(old(Index(tip, grants, ops)), line)
    {
      var key := (line.grant, line.nonce);
      if line.event.Reserve? {
        if line.grant !in grants {
          grants := grants[line.grant := Used(line.terms, 0)];
        }
        var entry := grants[line.grant];
        assert grants == old(grants)[line.grant := entry];
        if entry.terms != line.terms || entry.count >= line.maxUses || key in ops {
          return Tampered(NeverGranted);
        }
        grants := grants[line.grant := entry.(count := entry.count + 1)];
        assert grants == old(grants)[line.grant := entry.(count := entry.count + 1)];
        ops := ops[key := Operation(line.body, Reserve)];
      } else {
        if key in ops && ops[key].body == line.body && ops[key].event.Reserve? {
          ops := ops[key := Operation(line.body, line.event)];
        } else {
          return Tampered(NothingPending);
        }
      }
      return Fine;
    }

    /** Give the line its place in the chain and write it; only a line known durable is counted and anchored. */
    method AppendInPlace(unplaced: Line, spend: bool, w: World) returns (outcome: Outcome)
      modifies this, anchor, file
      ensures Appended(Memory(), file.bytes, outcome) ==
              Append(codec, node, old(Memory()), old(file.bytes), unplaced, spend, w)
    {
      var line := unplaced.(seqNo := if tip.None? then 1 else tip.value.seqNo + 1,
                            prev := if tip.None? then Zero else tip.value.hash);
      var record := Record(line, Signed(node, LineMessage(line)));
      assert record == NewRecord(node, Memory().index, unplaced);
      var body := codec.encode(record);
      var framed := BigEndian(|body| % FRAME_LIMIT) + body;
      if w.written < |framed| {
        file.bytes := file.bytes + framed[..w.written];
        return Io;
      }
      file.bytes := file.bytes + framed;
      if !w.syncOk {
        return Io;
      }
      outcome := SettleInPlace(record, |framed|, spend, w);
    }

    /** The rest of `append`, once the line is durable. */
    method SettleInPlace(record: Record, size: nat, spend: bool, w: World) returns (outcome: Outcome)
      modifies this, anchor
      ensures Result(Memory(), outcome) == Settle(old(Memory()), record, size, spend, w)
    {
      var applied := ApplyInPlace(record.line);
      if applied.Tampered? {
        return Broken(applied.why);
      }
      readTo := readTo + size;
      var t := Tip(record.line.seqNo, HashOf(record));
      tip := Some(t);
      outcome := anchor.Advance(t, w.moveOk);
      if outcome == AnchorUnavailable && !spend {
        outcome := Done;
      }
    }

    /** Verify, then reserve under the file lock. A permit comes out exactly when all of it worked. */
    method Authorize(p: Presented, body: seq<Byte>, policy: Policy, w: World)
      returns (outcome: Outcome, permit: Option<Permit>)
      modifies this, anchor, file
      ensures permit.Some? <==> outcome == Done
      ensures Verify(p, body, policy).None? ==>
                outcome == Denied && Memory() == old(Memory()) && file.bytes == old(file.bytes)
      ensures Verify(p, body, policy).Some? && !w.lockOk ==>
                outcome == Io && Memory() == old(Memory()) && file.bytes == old(file.bytes)
      ensures Verify(p, body, policy).Some? && w.lockOk ==>
                var v := Verify(p, body, policy).value;
                var done := ReserveUnderLock(codec, node, old(Memory()), old(file.bytes), v, w);
                && Memory() == done.mem && file.bytes == done.disk
                && outcome == (if w.unlockOk then done.outcome else Io)
                && (permit.Some? ==> permit.value == PermitOf(v))
    {
      permit := None;
      var verified := Verify(p, body, policy);
      if verified.None? {
        return Denied, None;
      }
      var v := verified.value;
      if !w.lockOk {
        return Io, None;
      }
      outcome := CatchUpInPlace(true, w);
      if outcome == Done {
        var known := v.grant in grants;
        if (known && (grants[v.grant].terms != v.terms || grants[v.grant].count >= v.maxUses))
           || (v.grant, v.nonce) in ops
        {
          outcome := Spent;
        } else {
          outcome := AppendInPlace(Line(0, Zero, v.grant, v.terms, v.nonce, v.request, Reserve, v.maxUses),
                                   true, w);
          if outcome == Done {
            permit := Some(Permit(v.grant, v.nonce, v.request));
          }
        }
      }
      if !w.unlockOk {
        return Io, None;
      }
    }

    /** Record an outcome for a permit, under the file lock. */
    method Finish(permit: Permit, event: Event, w: World) returns (outcome: Outcome)
      requires GrantsCovered(Memory().index)
      modifies this, anchor, file
      ensures !w.lockOk ==>
                outcome == Io && Memory() == old(Memory()) && file.bytes == old(file.bytes)
      ensures w.lockOk ==>
                var done := FinishUnderLock(codec, node, old(Memory()), old(file.bytes), permit, event, w);
                && Memory() == done.mem && file.bytes == done.disk
                && outcome == if w.unlockOk then done.outcome else Io
    {
      if !w.lockOk {
        return Io;
      }
      ghost var unread := if |file.bytes| < readTo then [] else file.bytes[readTo..];
      ScanKeepsCover(codec, node, Memory().index, unread);
      outcome := CatchUpInPlace(false, w);
      if outcome == Done {
        var key := (permit.grant, permit.nonce);
        if key in ops && ops[key].event.Reserve? && ops[key].body == permit.request {
          var terms := grants[permit.grant].terms;
          outcome := AppendInPlace(Line(0, Zero, permit.grant, terms, permit.nonce, permit.request, event, 0),
                                   false, w);
        } else {
          outcome := NotPending;
        }
      }
      if !w.unlockOk {
        return Io;
      }
    }

    /** How many operations are reserved with no outcome yet. */
    method PendingCount() returns (n: nat)
      ensures n == |PendingKeys(Memory().index)|
    {
      var left := ops.Keys;
      n := 0;
      ghost var pending: set<(Id, Id)> := {};
      while left != {}
        invariant left <= ops.Keys && pending == PendingKeys(Memory().index) - left
        invariant n == |pending|
        decreases left
      {
        var key :| key in left;
        left := left - {key};
        if ops[key].event.Reserve? {
          n := n + 1;
          pending := pending + {key};
        }
      }
    }
  }
}
