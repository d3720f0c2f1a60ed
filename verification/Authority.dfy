/**
 Authorization on top of the ledger: who may ask (`Verify`), where the tip is anchored, and what one
 journal operation does to a handle's memory and to the file. Everything outside the process (the file
 system and the anchor program) answers through a `World` parameter.
 */
module Authority {
  import opened Basics
  import opened Ledger
  import opened Framing

  /** The source's `Error`; `Done` is success. */
  datatype Outcome =
    | Done
    | Denied
    | Spent
    | NotPending
    | Io
    | AnchorUnavailable
    | Broken(why: Flaw)

  // ---------------------------------------------------------------- verification

  datatype Presented = Presented(grant: Grant, ownerSig: Signature, request: Request, subjectSig: Signature)

  datatype Policy = Policy(owner: Key, audience: string, epoch: nat, now: nat, revoked: set<Id>)

  datatype Verified = Verified(grant: Id, terms: Digest, nonce: Id, request: Digest, maxUses: nat)

  function Utf8Size(c: char): nat {
    if c as int < 0x80 then 1 else if c as int < 0x800 then 2 else if c as int < 0x1_0000 then 3 else 4
  }

  function Utf8Length(s: string): nat {
    if s == "" then 0 else Utf8Size(s[0]) + Utf8Length(s[1..])
  }

  predicate IsControl(c: char) {
    c as int < 0x20 || 0x7F <= c as int < 0xA0
  }

  predicate ValidText(s: string) {
    s != "" && Utf8Length(s) <= 256 && forall i :: 0 <= i < |s| ==> !IsControl(s[i])
  }

  function Verify(p: Presented, body: seq<Byte>, policy: Policy): Option<Verified> {
    var (g, r) := (p.grant, p.request);
    if || g.version != 1
       || r.version != 1
       || g.maxUses == 0
       || g.notBefore >= g.expires
       || policy.now < g.notBefore
       || policy.now >= g.expires
       || g.policyEpoch != policy.epoch
       || g.id in policy.revoked
       || g.audience != policy.audience
       || r.audience != g.audience
       || r.resource != g.resource
       || r.action != g.action
       || r.run != g.run
       || r.grantId != g.id
       || !ValidText(g.audience)
       || !ValidText(g.resource)
       || !ValidText(g.action)
       || OfBody(body) != r.body
    then None
    else if p.ownerSig != Signed(policy.owner, GrantMessage(g)) then None
    else if p.subjectSig != Signed(g.subject, RequestMessage(r)) then None
    else Some(Verified(g.id, OfGrant(g), r.nonce, OfRequest(r), g.maxUses))
  }

  /**
   The two digests a verified operation carries pin down everything that was signed: the same pair can
   come only from the same grant, the same request and the same body bytes.
   */
  lemma VerifiedBindsWhatWasSigned(p: Presented, body: seq<Byte>, policy: Policy,
                                   p': Presented, body': seq<Byte>, policy': Policy)
    requires Verify(p, body, policy).Some? && Verify(p', body', policy').Some?
    requires Verify(p, body, policy).value.request == Verify(p', body', policy').value.request
    ensures p.request == p'.request && body == body'
    ensures Verify(p, body, policy).value.terms == Verify(p', body', policy').value.terms <==> p.grant == p'.grant
    ensures p.grant.id == p'.grant.id && p.grant.resource == p'.grant.resource && p.grant.action == p'.grant.action
  {
    assert OfBody(body) == OfBody(body');
  }

  /** Signatures made for one presentation verify no other grant, request or body. */
  lemma SignaturesCannotBeReused(p: Presented, body: seq<Byte>, policy: Policy,
                                 p': Presented, body': seq<Byte>, policy': Policy)
    requires Verify(p, body, policy).Some? && Verify(p', body', policy').Some?
    requires p'.ownerSig == p.ownerSig && p'.subjectSig == p.subjectSig
    ensures p' == p && body' == body
  {
  }

  /**
   A presentation that verified once verifies again exactly within its scope: for the same owner, audience
   and policy epoch, while the grant is not revoked and its time has come and not run out. It then stands
   for the same operation.
   */
  lemma VerificationEndsWithItsScope(p: Presented, body: seq<Byte>, policy: Policy, later: Policy)
    requires Verify(p, body, policy).Some?
    ensures Verify(p, body, later).Some? <==>
            && later.owner == policy.owner && later.audience == policy.audience && later.epoch == policy.epoch
            && p.grant.id !in later.revoked && p.grant.notBefore <= later.now < p.grant.expires
    ensures Verify(p, body, later).Some? ==> Verify(p, body, later) == Verify(p, body, policy)
  {
  }

  /** The presentation of an operation as it is made: the owner signs the grant, the subject a request repeating it. */
  function Made(owner: Key, g: Grant, nonce: Id, body: seq<Byte>): Presented {
    var r := Request(1, g.id, g.run, nonce, g.audience, g.resource, g.action, OfBody(body));
    Presented(g, Signed(owner, GrantMessage(g)), r, Signed(g.subject, RequestMessage(r)))
  }

  /** The grant can be used here and now. */
  predicate Usable(g: Grant, policy: Policy) {
    && g.version == 1 && g.maxUses > 0 && g.notBefore <= policy.now < g.expires
    && g.audience == policy.audience && g.policyEpoch == policy.epoch && g.id !in policy.revoked
    && ValidText(g.audience) && ValidText(g.resource) && ValidText(g.action)
  }

  /**
   A presentation verifies exactly if it was made so, with the policy's owner's key and for these bytes, and its
   grant can be used; it then stands for that operation of that grant and nothing else.
   */
  lemma OnlyWhatWasMadeVerifies(p: Presented, body: seq<Byte>, policy: Policy)
    ensures Verify(p, body, policy).Some? <==>
            p == Made(policy.owner, p.grant, p.request.nonce, body) && Usable(p.grant, policy)
    ensures Verify(p, body, policy).Some? ==>
              Verify(p, body, policy).value ==
              Verified(p.grant.id, OfGrant(p.grant), p.request.nonce, OfRequest(p.request), p.grant.maxUses)
  {
  }

  // ---------------------------------------------------------------- the tip anchor

  /** What running `<program> tip` gave: no usable answer, `null`, or a tip. */
  datatype Reply = NoAnswer | Null | Says(tip: Tip)

  /** `t` is `floor` itself or has a higher number. */
  predicate NotBehind(floor: Option<Tip>, t: Tip) {
    floor.Some? ==> floor.value.seqNo < t.seqNo || floor.value == t
  }

  datatype Asked = Asked(floor: Option<Tip>, outcome: Outcome, answer: Option<Tip>)

  function AskTip(floor: Option<Tip>, reply: Reply): Asked {
    match reply
    case NoAnswer => Asked(floor, AnchorUnavailable, None)
    case Null => Asked(floor, Done, None)
    case Says(t) =>
      if NotBehind(floor, t) then Asked(Some(t), Done, Some(t))
      else Asked(floor, Broken(AnchorWentBack), None)
  }

  datatype Moved = Moved(floor: Option<Tip>, outcome: Outcome)

  /** `ran`: the program was run and exited 0. It is not run at all for a refused tip. */
  function MoveTip(floor: Option<Tip>, t: Tip, ran: bool): Moved {
    if !NotBehind(floor, t) then
      Moved(floor, Broken(NeverBackOrSideways))
    else if !ran then Moved(floor, AnchorUnavailable)
    else Moved(Some(t), Done)
  }

  datatype AnchorCall = Ask(reply: Reply) | Move(tip: Tip, ran: bool)

  /** The floor a command anchor has after a run of calls, whatever the program answered. */
  function FloorAfter(floor: Option<Tip>, calls: seq<AnchorCall>): Option<Tip>
    decreases |calls|
  {
    if calls == [] then floor
    else match calls[0]
      case Ask(reply) => FloorAfter(AskTip(floor, reply).floor, calls[1..])
      case Move(t, ran) => FloorAfter(MoveTip(floor, t, ran).floor, calls[1..])
  }

  lemma {:induction false} FloorNeverMovesBack(floor: Option<Tip>, calls: seq<AnchorCall>)
    ensures floor.Some? ==> FloorAfter(floor, calls).Some? && NotBehind(floor, FloorAfter(floor, calls).value)
    decreases |calls|
  {
    if calls != [] {
      var next := match calls[0]
        case Ask(reply) => AskTip(floor, reply).floor
        case Move(t, ran) => MoveTip(floor, t, ran).floor;
      FloorNeverMovesBack(next, calls[1..]);
    }
  }

  /**
   Whatever the program does, a tip this process accepted is a floor for good: a later answer naming a
   tip is accepted exactly when it is at or beyond everything accepted before. `null` is outside the
   rule: it is never checked against the floor.
   */
  lemma AcceptedAnswersNeverGoBack(floor: Option<Tip>, t: Tip, calls: seq<AnchorCall>, reply: Reply)
    requires NotBehind(floor, t)
    ensures var seen := FloorAfter(AskTip(floor, Says(t)).floor, calls);
            && seen.Some? && NotBehind(Some(t), seen.value)
            && (reply.Says? ==> (AskTip(seen, reply).outcome == Done <==> NotBehind(seen, reply.tip)))
            && (reply.Says? && AskTip(seen, reply).outcome == Done ==> NotBehind(Some(t), reply.tip))
            && (reply.Null? ==> AskTip(seen, reply) == Asked(seen, Done, None))
  {
    FloorNeverMovesBack(Some(t), calls);
  }

  // ---------------------------------------------------------------- one handle's memory

  /** A handle: how far it has read, its index, and the floor of its own anchor client. */
  datatype Mem = Mem(readTo: nat, index: Index, floor: Option<Tip>)

  const FRESH := Mem(0, EMPTY, None)

  /** How the outside world behaves during one operation. */
  datatype World = World(
    lockOk: bool,     // taking the file lock succeeds
    statOk: bool,     // asking for the file length succeeds
    readOk: bool,     // seeking and reading succeed
    reply: Reply,     // the anchor program asked for its tip
    written: nat,     // how many bytes of a frame reach the file before the write fails
    syncOk: bool,     // fsync succeeds
    moveOk: bool,     // the anchor program asked to advance exits 0
    unlockOk: bool)    // releasing the file lock succeeds

  datatype Result = Result(mem: Mem, outcome: Outcome)

  /** The anchored tip contradicts an index that has not reached it or holds another line there. */
  function CheckAnchored(ix: Index, answer: Option<Tip>): Outcome {
    if answer.None? then Done
    else if ix.tip.Some? && ix.tip.value.seqNo >= answer.value.seqNo then
      if ix.tip.value.seqNo == answer.value.seqNo && ix.tip.value.hash != answer.value.hash then
        Broken(DivergesFromAnchor)
      else Done
    else Broken(BehindAnchor)
  }

  function CatchUp(c: Codec, node: Key, mem: Mem, disk: seq<Byte>, spend: bool, w: World): Result {
    if !w.statOk then Result(mem, Io)
    else if |disk| < mem.readTo then Result(mem, Broken(Shorter))
    else if !w.readOk then Result(mem, Io)
    else
      var scanned := Scan(c, node, mem.index, disk[mem.readTo..]);
      if scanned.verdict.Tampered? then
        Result(mem.(index := scanned.index), Broken(scanned.verdict.why))
      else
        var read := mem.(index := scanned.index, readTo := |disk|);
        var asked := AskTip(read.floor, w.reply);
        var known := read.(floor := asked.floor);
        if asked.outcome == AnchorUnavailable && !spend then Result(known, CheckAnchored(known.index, None))
        else if asked.outcome != Done then Result(known, asked.outcome)
        else Result(known, CheckAnchored(known.index, asked.answer))
  }

  datatype Appended = Appended(mem: Mem, disk: seq<Byte>, outcome: Outcome)

  /** What is left to do for a line that fsync has made safe: the index, the tip, the anchor. */
  function Settle(mem: Mem, r: Record, size: nat, spend: bool, w: World): Result {
    var applied := Apply(mem.index, r.line);
    if applied.verdict.Tampered? then
      Result(mem.(index := applied.index), Broken(applied.verdict.why))
    else
      var tip := Tip(r.line.seqNo, HashOf(r));
      var settled := mem.(index := applied.index.(tip := Some(tip)), readTo := mem.readTo + size);
      var moved := MoveTip(settled.floor, tip, w.moveOk);
      Result(settled.(floor := moved.floor),
             if moved.outcome == AnchorUnavailable && !spend then Done else moved.outcome)
  }

  function Append(c: Codec, node: Key, mem: Mem, disk: seq<Byte>, line: Line, spend: bool, w: World): Appended {
    var r := NewRecord(node, mem.index, line);
    var frame := Frame(c, r);
    if w.written < |frame| then Appended(mem, disk + frame[..w.written], Io)
    else if !w.syncOk then Appended(mem, disk + frame, Io)
    else
      var settled := Settle(mem, r, |frame|, spend, w);
      Appended(settled.mem, disk + frame, settled.outcome)
  }

  // ---------------------------------------------------------------- reserve and finish

  datatype Permit = Permit(grant: Id, nonce: Id, request: Digest)

  function PermitOf(v: Verified): Permit {
    Permit(v.grant, v.nonce, v.request)
  }

  predicate Spendable(ix: Index, v: Verified) {
    && (v.grant in ix.grants ==> ix.grants[v.grant].terms == v.terms && ix.grants[v.grant].count < v.maxUses)
    && (v.grant, v.nonce) !in ix.ops
  }

  predicate Finishable(ix: Index, p: Permit) {
    (p.grant, p.nonce) in ix.ops && ix.ops[(p.grant, p.nonce)] == Operation(p.request, Reserve)
  }

  function ReserveLine(v: Verified): Line {
    Line(0, Zero, v.grant, v.terms, v.nonce, v.request, Reserve, v.maxUses)
  }

  function OutcomeLine(ix: Index, p: Permit, event: Event): Line
    requires p.grant in ix.grants
  {
    Line(0, Zero, p.grant, ix.grants[p.grant].terms, p.nonce, p.request, event, 0)
  }

  /** Under the lock: catch up with a spend in mind, check, append. `Done` releases the permit. */
  function ReserveUnderLock(c: Codec, node: Key, mem: Mem, disk: seq<Byte>, v: Verified, w: World): Appended {
    var caught := CatchUp(c, node, mem, disk, true, w);
    if caught.outcome != Done then Appended(caught.mem, disk, caught.outcome)
    else if !Spendable(caught.mem.index, v) then Appended(caught.mem, disk, Spent)
    else Append(c, node, caught.mem, disk, ReserveLine(v), true, w)
  }

  /** A permit's grant was counted when its operation was reserved, so the lookup below cannot miss. */
  predicate GrantsCovered(ix: Index) {
    forall key :: key in ix.ops ==> key.0 in ix.grants
  }

  function FinishUnderLock(c: Codec, node: Key, mem: Mem, disk: seq<Byte>, p: Permit, event: Event, w: World): Appended
    requires GrantsCovered(mem.index)
  {
    var caught := CatchUp(c, node, mem, disk, false, w);
    ScanKeepsCover(c, node, mem.index, if |disk| < mem.readTo then [] else disk[mem.readTo..]);
    if caught.outcome != Done then Appended(caught.mem, disk, caught.outcome)
    else if !Finishable(caught.mem.index, p) then Appended(caught.mem, disk, NotPending)
    else
      assert (p.grant, p.nonce) in caught.mem.index.ops;
      Append(c, node, caught.mem, disk, OutcomeLine(caught.mem.index, p, event), false, w)
  }

  lemma AcceptKeepsCover(node: Key, ix: Index, r: Record)
    requires GrantsCovered(ix)
    ensures GrantsCovered(Accept(node, ix, r).index)
  {
    assert GrantsCovered(Apply(ix, r.line).index);
  }

  lemma {:induction false} ScanKeepsCover(c: Codec, node: Key, ix: Index, bytes: seq<Byte>)
    requires GrantsCovered(ix)
    ensures GrantsCovered(Scan(c, node, ix, bytes).index)
    decreases |bytes|
  {
    if |bytes| >= HEADER && |bytes| >= HEADER + FromBigEndian(bytes[..HEADER]) {
      var size := FromBigEndian(bytes[..HEADER]);
      var decoded := c.decode(bytes[HEADER..HEADER + size]);
      if decoded.Some? {
        AcceptKeepsCover(node, ix, decoded.value);
        if Accept(node, ix, decoded.value).verdict.Fine? {
          ScanKeepsCover(c, node, Accept(node, ix, decoded.value).index, bytes[HEADER + size..]);
        }
      }
    }
  }

  lemma {:induction false} ReplayKeepsCover(node: Key, ix: Index, rs: seq<Record>)
    requires GrantsCovered(ix)
    ensures GrantsCovered(Replay(node, ix, rs).index)
    decreases |rs|
  {
    if rs != [] {
      AcceptKeepsCover(node, ix, rs[0]);
      ReplayKeepsCover(node, Accept(node, ix, rs[0]).index, rs[1..]);
    }
  }

  /** Whatever the memory and the file, what the pre-checks let through `Apply` accepts. */
  lemma PreChecksImplyApply(ix: Index, v: Verified, p: Permit, event: Event)
    requires !event.Reserve?
    ensures Spendable(ix, v) && v.maxUses > 0 ==>
              Apply(ix, ReserveLine(v)).verdict.Fine?
    ensures Finishable(ix, p) && p.grant in ix.grants ==>
              Apply(ix, OutcomeLine(ix, p, event)).verdict.Fine?
  {
  }
}
