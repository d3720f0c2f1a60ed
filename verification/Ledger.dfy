/**
 The authority journal as a list of records: what a line says, which records the journal accepts, and
 the in-memory index it rebuilds from them.

 Digests and signatures are ideal: a digest is the value it was taken over, a signature names the key
 that made it. Distinct contents therefore have distinct digests, and a signature verifies for exactly
 one message, which is what SHA-256 and Ed25519 are relied on for.
 */
module Ledger {
  import opened Basics

  /** A 32-byte identifier. */
  type Id = nat
  /** A signing key, identified with its public half. */
  type Key = nat

  datatype Grant = Grant(version: nat, id: Id, subject: Key, run: Id, audience: string,
                         resource: string, action: string, notBefore: nat, expires: nat,
                         policyEpoch: nat, maxUses: nat)

  datatype Request = Request(version: nat, grantId: Id, run: Id, nonce: Id, audience: string,
                             resource: string, action: string, body: Digest)

  datatype Digest =
    | Zero
    | OfGrant(grant: Grant)
    | OfRequest(request: Request)
    | OfBody(body: seq<Byte>)
    | OfRecord(line: Line, sig: Signature)

  /** What is signed. The constructors are the domain-separation prefixes. */
  datatype Message = GrantMessage(grant: Grant) | RequestMessage(request: Request) | LineMessage(line: Line)

  datatype Signature = Signed(signer: Key, message: Message) | Garbage(n: nat)

  datatype Event = Reserve | Succeeded | Failed | Unknown

  datatype Line = Line(seqNo: nat, prev: Digest, grant: Id, terms: Digest, nonce: Id, body: Digest,
                       event: Event, maxUses: nat)

  datatype Record = Record(line: Line, sig: Signature)

  datatype Tip = Tip(seqNo: nat, hash: Digest)

  datatype Used = Used(terms: Digest, count: nat)

  datatype Operation = Operation(body: Digest, event: Event)

  /** What a journal handle keeps in memory about the lines it has read. */
  datatype Index = Index(tip: Option<Tip>, grants: map<Id, Used>, ops: map<(Id, Id), Operation>)

  const EMPTY := Index(None, map[], map[])

  /** What is wrong with a journal that is refused as tampered with. */
  datatype Flaw =
    | TruncatedHeader
    | TruncatedRecord
    | Unreadable
    | BrokenChain
    | NotSigned
    | NeverGranted
    | NothingPending
    | Shorter
    | BehindAnchor
    | DivergesFromAnchor
    | AnchorWentBack
    | NeverBackOrSideways
    | NeverBack
    | NeverSideways

  function Words(flaw: Flaw): string {
    match flaw
    case TruncatedHeader => "a truncated record header"
    case TruncatedRecord => "a truncated record"
    case Unreadable => "an unreadable record"
    case BrokenChain => "a gap or a broken chain"
    case NotSigned => "a line not signed by this node"
    case NeverGranted => "a reservation the journal could never have granted"
    case NothingPending => "an outcome for no pending reservation"
    case Shorter => "the journal is shorter than already read"
    case BehindAnchor => "the journal is behind its anchored tip (rolled back or cut)"
    case DivergesFromAnchor => "the journal diverges from its anchored tip"
    case AnchorWentBack => "the anchor answered below or beside a tip it already gave"
    case NeverBackOrSideways => "the anchored tip never moves backwards or sideways"
    case NeverBack => "the anchored tip never moves backwards"
    case NeverSideways => "the anchored tip never moves sideways"
  }

  datatype Verdict = Fine | Tampered(why: Flaw)

  datatype Step = Step(index: Index, verdict: Verdict)

  function NextSeq(ix: Index): nat {
    if ix.tip.None? then 1 else ix.tip.value.seqNo + 1
  }

  function PrevHash(ix: Index): Digest {
    if ix.tip.None? then Zero else ix.tip.value.hash
  }

  function HashOf(r: Record): Digest {
    OfRecord(r.line, r.sig)
  }

  /** Count one line into the index. A refused reservation still leaves the grant's entry behind. */
  function Apply(ix: Index, line: Line): Step {
    var key := (line.grant, line.nonce);
    if line.event.Reserve? then
      var entry := if line.grant in ix.grants then ix.grants[line.grant] else Used(line.terms, 0);
      if entry.terms != line.terms || entry.count >= line.maxUses || key in ix.ops then
        Step(ix.(grants := ix.grants[line.grant := entry]),
             Tampered(NeverGranted))
      else
        Step(ix.(grants := ix.grants[line.grant := entry.(count := entry.count + 1)],
                 ops := ix.ops[key := Operation(line.body, Reserve)]),
             Fine)
    else if key in ix.ops && ix.ops[key] == Operation(line.body, Reserve) then
      Step(ix.(ops := ix.ops[key := Operation(line.body, line.event)]), Fine)
    else
      Step(ix, Tampered(NothingPending))
  }

  /** One record as the journal reads it: chain, signature, then `Apply`. */
  function Accept(node: Key, ix: Index, r: Record): Step {
    if r.line.seqNo != NextSeq(ix) || r.line.prev != PrevHash(ix) then
      Step(ix, Tampered(BrokenChain))
    else if r.sig != Signed(node, LineMessage(r.line)) then
      Step(ix, Tampered(NotSigned))
    else
      var applied := Apply(ix, r.line);
      if applied.verdict.Fine? then
        Step(applied.index.(tip := Some(Tip(r.line.seqNo, HashOf(r)))), Fine)
      else
        applied
  }

  /** Records in order, stopping at the first one refused. */
  function Replay(node: Key, ix: Index, rs: seq<Record>): Step
    decreases |rs|
  {
    if rs == [] then Step(ix, Fine)
    else
      var first := Accept(node, ix, rs[0]);
      if first.verdict.Fine? then Replay(node, first.index, rs[1..]) else first
  }

  predicate Accepted(node: Key, rs: seq<Record>) {
    Replay(node, EMPTY, rs).verdict.Fine?
  }

  function IndexOf(node: Key, rs: seq<Record>): Index {
    Replay(node, EMPTY, rs).index
  }

  /** The record the journal signs for `line` at the end of its chain. */
  function NewRecord(node: Key, ix: Index, line: Line): Record {
    var placed := line.(seqNo := NextSeq(ix), prev := PrevHash(ix));
    Record(placed, Signed(node, LineMessage(placed)))
  }

  // ---------------------------------------------------------------- replay composes

  lemma {:induction false} ReplaySplit(node: Key, ix: Index, a: seq<Record>, b: seq<Record>)
    ensures Replay(node, ix, a + b) ==
            if Replay(node, ix, a).verdict.Fine? then Replay(node, Replay(node, ix, a).index, b)
            else Replay(node, ix, a)
    decreases |a|
  {
    if a == [] {
      assert a + b == b;
    } else {
      assert (a + b)[1..] == a[1..] + b;
      var first := Accept(node, ix, a[0]);
      if first.verdict.Fine? {
        ReplaySplit(node, first.index, a[1..], b);
      }
    }
  }

  /** Whatever way the reads of a file are split, the index ends where one read from scratch ends. */
  lemma AnySplitReplaysTheSame(node: Key, rs: seq<Record>, cut: nat)
    requires Accepted(node, rs) && cut <= |rs|
    ensures Accepted(node, rs[..cut])
    ensures Replay(node, IndexOf(node, rs[..cut]), rs[cut..]) == Step(IndexOf(node, rs), Fine)
  {
    assert rs == rs[..cut] + rs[cut..];
    ReplaySplit(node, EMPTY, rs[..cut], rs[cut..]);
  }

  lemma LastStep(node: Key, rs: seq<Record>, r: Record)
    ensures Accepted(node, rs) ==>
              Replay(node, EMPTY, rs + [r]) == Accept(node, IndexOf(node, rs), r)
  {
    ReplaySplit(node, EMPTY, rs, [r]);
    if Accepted(node, rs) {
      var ix := IndexOf(node, rs);
      assert [r][1..] == [];
      assert Replay(node, ix, [r]) == Accept(node, ix, r);
    }
  }

  /** An accepted list is an accepted list and one more accepted record. */
  lemma LastRecord(node: Key, rs: seq<Record>)
    requires Accepted(node, rs) && rs != []
    ensures var (front, last) := (rs[..|rs| - 1], rs[|rs| - 1]);
            && rs == front + [last] && Accepted(node, front)
            && Accept(node, IndexOf(node, front), last) == Step(IndexOf(node, rs), Fine)
  {
    var front, last := rs[..|rs| - 1], rs[|rs| - 1];
    assert rs == front + [last];
    AnySplitReplaysTheSame(node, rs, |front|);
    LastStep(node, front, last);
  }

  // ---------------------------------------------------------------- what an accepted list looks like

  /** The tip names the last record, and every record sits at its own sequence number, signed. */
  lemma {:induction false} AcceptedShape(node: Key, rs: seq<Record>)
    requires Accepted(node, rs)
    ensures IndexOf(node, rs).tip ==
            if rs == [] then None else Some(Tip(|rs|, HashOf(rs[|rs| - 1])))
    ensures forall i :: 0 <= i < |rs| ==>
                          && rs[i].line.seqNo == i + 1
                          && rs[i].sig == Signed(node, LineMessage(rs[i].line))
                          && rs[i].line.prev == if i == 0 then Zero else HashOf(rs[i - 1])
  {
    if rs != [] {
      var front, last := rs[..|rs| - 1], rs[|rs| - 1];
      LastRecord(node, rs);
      AcceptedShape(node, front);
    }
  }

  /** A record determines everything before it: two accepted lists that end alike are the same list. */
  lemma {:induction false} SameEndSameList(node: Key, a: seq<Record>, b: seq<Record>)
    requires Accepted(node, a) && Accepted(node, b) && a != [] && b != []
    requires a[|a| - 1] == b[|b| - 1]
    ensures a == b
  {
    AcceptedShape(node, a);
    AcceptedShape(node, b);
    assert |a| == |b|;
    var n := |a|;
    var a', b' := a[..n - 1], b[..n - 1];
    AnySplitReplaysTheSame(node, a, n - 1);
    AnySplitReplaysTheSame(node, b, n - 1);
    if n > 1 {
      assert HashOf(a[n - 2]) == HashOf(b[n - 2]);
      SameEndSameList(node, a', b');
    }
    assert a == a' + [a[n - 1]] && b == b' + [b[n - 1]];
  }

  /**
   The node's signature makes the chain unforgeable: any accepted list built from lines this node
   signed into `history` (reordered, repeated or deleted at will) is a prefix of `history`.
   */
  lemma SignedLinesOnlyFormPrefixes(node: Key, history: seq<Record>, rs: seq<Record>)
    requires Accepted(node, history) && Accepted(node, rs)
    requires forall r :: r in rs ==> r in history
    ensures rs <= history
  {
    if rs != [] {
      AcceptedShape(node, history);
      AcceptedShape(node, rs);
      var last := rs[|rs| - 1];
      assert last in rs;
      var k :| 0 <= k < |history| && history[k] == last;
      AnySplitReplaysTheSame(node, history, k + 1);
      SameEndSameList(node, rs, history[..k + 1]);
    }
  }

  // ---------------------------------------------------------------- budgets

  predicate IsReserve(r: Record, g: Id) {
    r.line.event.Reserve? && r.line.grant == g
  }

  /** Where the reservations of a grant sit. */
  function Reservations(rs: seq<Record>, g: Id): set<nat> {
    set i: nat | i < |rs| && IsReserve(rs[i], g)
  }

  lemma ReservationsGrow(rs: seq<Record>, r: Record, g: Id)
    ensures Reservations(rs + [r], g) ==
            Reservations(rs, g) + (if IsReserve(r, g) then {|rs|} else {})
    ensures |Reservations(rs + [r], g)| == |Reservations(rs, g)| + (if IsReserve(r, g) then 1 else 0)
  {
    var all := rs + [r];
    assert forall i: nat :: i < |rs| ==> all[i] == rs[i];
    assert Reservations(all, g) ==
           Reservations(rs, g) + (if IsReserve(r, g) then {|rs|} else {});
    assert |rs| !in Reservations(rs, g);
  }

  /** Reservations were made under signed grants: the line repeats the grant's id and its budget. */
  ghost predicate HonestTerms(rs: seq<Record>) {
    forall i: nat :: i < |rs| && rs[i].line.event.Reserve? ==>
                       && rs[i].line.terms.OfGrant?
                       && rs[i].line.terms.grant.id == rs[i].line.grant
                       && rs[i].line.terms.grant.maxUses == rs[i].line.maxUses
  }

  function KeyOf(r: Record): (Id, Id) {
    (r.line.grant, r.line.nonce)
  }

  /** The counter of `g` is exact: one per reserve line, all of them under the terms of the first. */
  ghost predicate CountsExactly(rs: seq<Record>, ix: Index, g: Id) {
    && (g in ix.grants <==> Reservations(rs, g) != {})
    && (g in ix.grants ==>
          && ix.grants[g].count == |Reservations(rs, g)|
          && forall i :: i in Reservations(rs, g) ==> rs[i].line.terms == ix.grants[g].terms)
  }

  lemma CountStep(rs: seq<Record>, ix: Index, r: Record, g: Id)
    requires CountsExactly(rs, ix, g) && Apply(ix, r.line).verdict.Fine?
    ensures CountsExactly(rs + [r], Apply(ix, r.line).index, g)
  {
    ReservationsGrow(rs, r, g);
    var all := rs + [r];
    assert forall i :: i in Reservations(rs, g) ==> all[i] == rs[i];
    if IsReserve(r, g) {
      assert |rs| in Reservations(all, g);
    }
  }

  lemma {:induction false} CountersAreExact(node: Key, rs: seq<Record>, g: Id)
    requires Accepted(node, rs)
    ensures CountsExactly(rs, IndexOf(node, rs), g)
  {
    if rs != [] {
      var front, last := rs[..|rs| - 1], rs[|rs| - 1];
      LastRecord(node, rs);
      CountersAreExact(node, front, g);
      CountStep(front, IndexOf(node, front), last, g);
    } else {
      assert Reservations(rs, g) == {};
    }
  }

  /** However the lines came about, a grant is never reserved more often than its signed terms allow. */
  lemma {:induction false} BudgetIsNeverExceeded(node: Key, rs: seq<Record>, g: Id, i: nat)
    requires Accepted(node, rs) && HonestTerms(rs)
    requires i < |rs| && IsReserve(rs[i], g)
    ensures |Reservations(rs, g)| <= rs[i].line.maxUses
  {
    var front, last := rs[..|rs| - 1], rs[|rs| - 1];
    LastRecord(node, rs);
    ReservationsGrow(front, last, g);
    CountersAreExact(node, front, g);
    if IsReserve(last, g) {
      NewestStaysWithin(front, IndexOf(node, front), last, g);
      if i < |front| {
        assert i in Reservations(front, g);
        assert front[i].line.terms == last.line.terms;
      }
    } else {
      BudgetIsNeverExceeded(node, front, g, i);
    }
  }

  /** A reservation that is counted finds the counter below its budget, and the terms those of the first. */
  lemma NewestStaysWithin(front: seq<Record>, ix: Index, last: Record, g: Id)
    requires CountsExactly(front, ix, g) && IsReserve(last, g) && Apply(ix, last.line).verdict.Fine?
    ensures |Reservations(front, g)| < last.line.maxUses
    ensures forall i :: i in Reservations(front, g) ==> front[i].line.terms == last.line.terms
  {
    assert g !in ix.grants ==> |Reservations(front, g)| == 0;
  }

  predicate Reserves(r: Record, key: (Id, Id)) {
    r.line.event.Reserve? && KeyOf(r) == key
  }

  /** The operation is known exactly when it was reserved, and what was reserved is remembered. */
  ghost predicate IndexesExactly(rs: seq<Record>, ix: Index, key: (Id, Id)) {
    && (key in ix.ops <==> exists i: nat :: i < |rs| && Reserves(rs[i], key))
    && (key in ix.ops ==>
          && key.0 in ix.grants
          && forall i: nat :: i < |rs| && Reserves(rs[i], key) ==> rs[i].line.body == ix.ops[key].body)
  }

  lemma IndexStep(rs: seq<Record>, ix: Index, r: Record, key: (Id, Id))
    requires IndexesExactly(rs, ix, key) && Apply(ix, r.line).verdict.Fine?
    ensures IndexesExactly(rs + [r], Apply(ix, r.line).index, key)
  {
    var all := rs + [r];
    assert forall i: nat :: i < |rs| ==> all[i] == rs[i];
    assert all[|rs|] == r;
    if key in ix.ops {
      var i: nat :| i < |rs| && Reserves(rs[i], key);
      assert Reserves(all[i], key);
    }
  }

  lemma {:induction false} OperationsAreIndexed(node: Key, rs: seq<Record>, key: (Id, Id))
    requires Accepted(node, rs)
    ensures IndexesExactly(rs, IndexOf(node, rs), key)
  {
    if rs != [] {
      var front, last := rs[..|rs| - 1], rs[|rs| - 1];
      LastRecord(node, rs);
      OperationsAreIndexed(node, front, key);
      IndexStep(front, IndexOf(node, front), last, key);
    }
  }

  /** What the last line of an operation says of it. */
  function LastEvent(rs: seq<Record>, key: (Id, Id)): Event
    decreases |rs|
  {
    if rs == [] then Event.Reserve
    else if KeyOf(rs[|rs| - 1]) == key then rs[|rs| - 1].line.event
    else LastEvent(rs[..|rs| - 1], key)
  }

  lemma LastEventOfMore(rs: seq<Record>, r: Record, key: (Id, Id))
    ensures LastEvent(rs + [r], key) == if KeyOf(r) == key then r.line.event else LastEvent(rs, key)
  {
    assert (rs + [r])[..|rs|] == rs;
  }

  lemma EventStep(ix: Index, r: Record, key: (Id, Id))
    requires Apply(ix, r.line).verdict.Fine? && key in Apply(ix, r.line).index.ops
    ensures Apply(ix, r.line).index.ops[key].event ==
            if KeyOf(r) == key then r.line.event else if key in ix.ops then ix.ops[key].event else Event.Reserve
    ensures KeyOf(r) != key ==> key in ix.ops
  {
  }

  /** The index has an operation in the state its last line put it in. */
  lemma {:induction false} OperationsAreAsLastSaid(node: Key, rs: seq<Record>, key: (Id, Id))
    requires Accepted(node, rs) && key in IndexOf(node, rs).ops
    ensures IndexOf(node, rs).ops[key].event == LastEvent(rs, key)
    decreases |rs|
  {
    if rs != [] {
      var front, last := rs[..|rs| - 1], rs[|rs| - 1];
      LastRecord(node, rs);
      LastEventOfMore(front, last, key);
      EventStep(IndexOf(node, front), last, key);
      if KeyOf(last) != key {
        OperationsAreAsLastSaid(node, front, key);
      }
    }
  }

  /** No operation is reserved twice. */
  lemma {:induction false} OneReservationPerOperation(node: Key, rs: seq<Record>, i: nat, j: nat)
    requires Accepted(node, rs)
    requires i < |rs| && j < |rs| && rs[i].line.event.Reserve? && rs[j].line.event.Reserve?
    requires KeyOf(rs[i]) == KeyOf(rs[j])
    ensures i == j
  {
    if i != j {
      var lo, hi := Min(i, j), Max(i, j);
      var upto := rs[..hi + 1];
      AnySplitReplaysTheSame(node, rs, hi + 1);
      LastRecord(node, upto);
      assert upto[..hi][lo] == rs[lo];
      assert Reserves(upto[..hi][lo], KeyOf(rs[hi]));
      OperationsAreIndexed(node, upto[..hi], KeyOf(rs[hi]));
    }
  }

  /** The operations reserved with no outcome yet. */
  function PendingKeys(ix: Index): set<(Id, Id)> {
    set key | key in ix.ops && ix.ops[key].event.Reserve?
  }

  function ReserveLines(rs: seq<Record>): nat {
    if rs == [] then 0
    else ReserveLines(rs[..|rs| - 1]) + (if rs[|rs| - 1].line.event.Reserve? then 1 else 0)
  }

  /** Conservation: what is pending is what was reserved less what was concluded. */
  lemma {:induction false} PendingIsReservedLessConcluded(node: Key, rs: seq<Record>)
    requires Accepted(node, rs)
    ensures |PendingKeys(IndexOf(node, rs))| + (|rs| - ReserveLines(rs)) == ReserveLines(rs)
  {
    if rs == [] {
      assert PendingKeys(EMPTY) == {};
    } else {
      var front, last := rs[..|rs| - 1], rs[|rs| - 1];
      LastRecord(node, rs);
      PendingIsReservedLessConcluded(node, front);
      PendingStep(IndexOf(node, front), last);
      assert PendingKeys(IndexOf(node, rs)) == PendingKeys(Apply(IndexOf(node, front), last.line).index);
    }
  }

  lemma PendingStep(ix: Index, r: Record)
    requires Apply(ix, r.line).verdict.Fine?
    ensures |PendingKeys(Apply(ix, r.line).index)| == |PendingKeys(ix)| + (if r.line.event.Reserve? then 1 else -1)
  {
    var was, now := PendingKeys(ix), PendingKeys(Apply(ix, r.line).index);
    if r.line.event.Reserve? {
      assert now == was + {KeyOf(r)};
    } else {
      assert now == was - {KeyOf(r)};
    }
  }
}
