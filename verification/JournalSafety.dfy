/** What every run of the journal guarantees, and what more it guarantees beside an honest anchor. */
module JournalSafety {
  import opened Basics
  import opened Ledger
  import opened Framing
  import opened Authority
  import opened JournalRuns

  // ---------------------------------------------------------------- budgets, whatever the anchor does

  /** The permits released for a grant id, by position. */
  function PermitsFor(s: Sys, g: Id): set<nat> {
    set i: nat | i < |s.released| && s.released[i].permit.grant == g
  }

  /** The upstream calls made under a grant id, by position. */
  function CallsFor(s: Sys, g: Id): set<nat> {
    set k: nat | k < |s.calls| && s.calls[k].which < |s.released| && s.released[s.calls[k].which].permit.grant == g
  }

  /** An injection into a set bounds the size of its source. */
  lemma {:induction false} InjectionBound(from: set<nat>, to: set<nat>, f: seq<nat>)
    requires forall a :: a in from ==> a < |f| && f[a] in to
    requires forall a, b :: a in from && b in from && a != b ==> f[a] != f[b]
    ensures |from| <= |to|
  {
    if from != {} {
      var a :| a in from;
      InjectionBound(from - {a}, to - {f[a]}, f);
    }
  }

  lemma ReleasedAt(s: Sys, i: nat)
    requires ReleasesOk(s) && i < |s.released|
    ensures var rel := s.released[i];
            && rel.at < |s.records| && IsReserve(s.records[rel.at], rel.permit.grant)
            && KeyOf(s.records[rel.at]) == (rel.permit.grant, rel.permit.nonce)
            && s.records[rel.at].line.terms == OfGrant(rel.presented.grant)
            && s.records[rel.at].line.maxUses == rel.presented.grant.maxUses
  {
    assert ReleaseOk(s, s.released[i]);
  }

  /**
   Over every interleaving of opens, spends, conclusions, crashes and power losses by any number of
   handles, with the anchor failing or lying at will: the permits released for a grant id never exceed
   the uses of the terms it was first reserved under, which are the terms of every one of its permits.
   */
  lemma PermitsStayWithinBudget(c: Codec, node: Key, run: seq<Sys>, n: nat, g: Id)
    requires Run(c, node, run) && n < |run|
    ensures var s := run[n];
            && (forall j :: j in Reservations(s.records, g) ==> |PermitsFor(s, g)| <= s.records[j].line.maxUses)
            && (forall i :: i in PermitsFor(s, g) ==> |PermitsFor(s, g)| <= s.released[i].presented.grant.maxUses)
            && (forall i, j :: i in PermitsFor(s, g) && j in PermitsFor(s, g) ==>
                                 s.released[i].presented.grant == s.released[j].presented.grant)
  {
    RunsKeepInvariant(c, node, run, n);
    var s := run[n];
    var ats := seq(|s.released|, i requires 0 <= i < |s.released| => s.released[i].at);
    forall i | i in PermitsFor(s, g)
      ensures s.released[i].at in Reservations(s.records, g)
      ensures s.records[s.released[i].at].line.terms == OfGrant(s.released[i].presented.grant)
      ensures s.records[s.released[i].at].line.maxUses == s.released[i].presented.grant.maxUses
    {
      ReleasedAt(s, i);
    }
    InjectionBound(PermitsFor(s, g), Reservations(s.records, g), ats);
    CountersAreExact(node, s.records, g);
    forall j | j in Reservations(s.records, g)
      ensures |PermitsFor(s, g)| <= s.records[j].line.maxUses
    {
      BudgetIsNeverExceeded(node, s.records, g, j);
    }
  }

  /** No operation gets two permits. */
  lemma OperationsArePermittedOnce(c: Codec, node: Key, run: seq<Sys>, n: nat, i: nat, j: nat)
    requires Run(c, node, run) && n < |run|
    requires i < |run[n].released| && j < |run[n].released|
    requires run[n].released[i].permit.grant == run[n].released[j].permit.grant
    requires run[n].released[i].permit.nonce == run[n].released[j].permit.nonce
    ensures i == j
  {
    RunsKeepInvariant(c, node, run, n);
    var s := run[n];
    ReleasedAt(s, i);
    ReleasedAt(s, j);
    OneReservationPerOperation(node, s.records, s.released[i].at, s.released[j].at);
  }

  /**
   At most one upstream control call per operation and at most `maxUses` per grant, each made under a
   permit whose reserve line is durable and whose presentation the owner and the subject signed for
   exactly the bytes sent.
   */
  lemma UpstreamCallsAreBacked(c: Codec, node: Key, run: seq<Sys>, n: nat, k: nat)
    requires Run(c, node, run) && n < |run| && k < |run[n].calls|
    ensures var s := run[n];
            && s.calls[k].which < |s.released|
            && var rel := s.released[s.calls[k].which];
               var g := rel.presented.grant;
               && rel.at < s.durable <= |s.records|
               && KeyOf(s.records[rel.at]) == (rel.permit.grant, rel.permit.nonce)
               && |CallsFor(s, rel.permit.grant)| <= g.maxUses
               && rel.presented.ownerSig == Signed(rel.policy.owner, GrantMessage(g))
               && rel.presented.subjectSig == Signed(g.subject, RequestMessage(rel.presented.request))
               && rel.presented.request.body == OfBody(s.calls[k].body) && s.calls[k].resource == g.resource
               && rel.presented.request.resource == g.resource && rel.presented.request.action == g.action
               && g.notBefore <= rel.policy.now < g.expires && g.id !in rel.policy.revoked
               && g.audience == rel.policy.audience && g.policyEpoch == rel.policy.epoch
               && (forall l: nat | l < |s.calls| && s.calls[l].which < |s.released| ::
                     s.released[s.calls[l].which].permit.grant == rel.permit.grant ==>
                       s.released[s.calls[l].which].permit.nonce == rel.permit.nonce ==> l == k)
  {
    RunsKeepInvariant(c, node, run, n);
    var s := run[n];
    var rel := s.released[s.calls[k].which];
    assert ReleaseOk(s, rel);
    var g := rel.permit.grant;
    PermitsStayWithinBudget(c, node, run, n, g);
    assert CallOk(s.released, s.calls[k]);
    var whiches := seq(|s.calls|, l requires 0 <= l < |s.calls| => s.calls[l].which);
    InjectionBound(CallsFor(s, g), PermitsFor(s, g), whiches);
    assert s.calls[k].which in PermitsFor(s, g);
    forall l: nat | l < |s.calls| && s.calls[l].which < |s.released|
      && s.released[s.calls[l].which].permit.grant == g && s.released[s.calls[l].which].permit.nonce == rel.permit.nonce
      ensures l == k
    {
      OperationsArePermittedOnce(c, node, run, n, s.calls[l].which, s.calls[k].which);
    }
  }

  /** A torn file stops everything: no handle gets past catching up, and none is about to write. */
  lemma TornFilesStopEverything(c: Codec, node: Key, run: seq<Sys>, n: nat, h: nat, spend: bool, w: World)
    requires Run(c, node, run) && n < |run| && run[n].tail != []
    ensures CatchUp(c, node, FRESH, Disk(c, run[n]), spend, w).outcome != Done
    ensures h in run[n].handles ==>
              && CatchUp(c, node, run[n].handles[h].mem, Disk(c, run[n]), spend, w).outcome != Done
              && (run[n].handles[h].pc.Idle? || run[n].handles[h].pc.Settled?)
  {
    RunsKeepInvariant(c, node, run, n);
    var s := run[n];
    assert s.records[..0] == [];
    CatchUpKnows(c, node, s, Handle(FRESH, 0, Idle), spend, w, Idle);
    if h in s.handles {
      CatchUpKnows(c, node, s, s.handles[h], spend, w, Idle);
      assert PcOk(c, node, s, s.handles[h]);
    }
  }

  // ---------------------------------------------------------------- beside an honest anchor

  function HonestReply(anchor: Option<Tip>): Reply {
    if anchor.None? then Null else Says(anchor.value)
  }

  /** The program may fail to answer, but what it says is its tip, and exit 0 means the tip is there. */
  ghost predicate Honest(s: Sys, act: Action) {
    match act
    case Open(_, w) => w.reply == NoAnswer || w.reply == HonestReply(s.anchor)
    case Begin(_, _, _, w) => w.reply == NoAnswer || w.reply == HonestReply(s.anchor)
    case Settle(h, w) =>
      w.moveOk && h in s.handles && s.handles[h].pc.Durable? ==>
        s.anchor == Some(Tip(|s.records|, HashOf(s.handles[h].pc.record)))
    case _ => true
  }

  ghost predicate HonestNext(c: Codec, node: Key, s: Sys, s': Sys) {
    exists act :: Takes(c, node, s, act, s') && Honest(s, act)
  }

  ghost predicate HonestStepAt(c: Codec, node: Key, run: seq<Sys>, i: nat)
    requires 0 < i < |run|
  {
    HonestNext(c, node, run[i - 1], run[i])
  }

  ghost predicate HonestRun(c: Codec, node: Key, run: seq<Sys>) {
    && run != [] && run[0] == START
    && forall i :: 0 < i < |run| ==> HonestStepAt(c, node, run, i)
  }

  /** `t` names one of the durable lines. */
  predicate NamesDurableLine(s: Sys, t: Tip) {
    0 < t.seqNo <= s.durable <= |s.records| && t.hash == HashOf(s.records[t.seqNo - 1])
  }

  predicate FloorOk(s: Sys, floor: Option<Tip>) {
    floor.Some? ==> NamesDurableLine(s, floor.value) && s.anchor.Some? && floor.value.seqNo <= s.anchor.value.seqNo
  }

  /** Every released permit's reserve line is at or below the anchored tip. */
  predicate Covers(anchor: Option<Tip>, released: seq<Release>) {
    forall i :: 0 <= i < |released| ==> anchor.Some? && released[i].at < anchor.value.seqNo
  }

  ghost predicate Anchored(s: Sys) {
    && (s.anchor.Some? ==> NamesDurableLine(s, s.anchor.value))
    && (forall h :: h in s.handles ==> FloorOk(s, s.handles[h].mem.floor))
    && (forall h :: h in s.handles && s.handles[h].pc.Settled? && s.handles[h].pc.job.Spend? ==>
                      s.anchor.Some? && s.anchor.value.seqNo >= |s.records|)
    && Covers(s.anchor, s.released)
  }

  /** Steps that leave the anchor alone and the durable lines in place. */
  lemma AnchoredStable(s: Sys, s': Sys, h: nat)
    requires Anchored(s) && s'.anchor == s.anchor
    requires s.durable <= s'.durable <= |s'.records| && s.durable <= |s.records|
    requires s.records[..s.durable] <= s'.records
    requires forall g :: g in s'.handles && g != h ==>
                           g in s.handles && s.handles[g].mem.floor == s'.handles[g].mem.floor && s'.handles[g].pc.Idle?
    requires h in s'.handles ==>
               && (FloorOk(s, s'.handles[h].mem.floor) || FloorOk(s', s'.handles[h].mem.floor))
               && (s'.handles[h].pc.Settled? && s'.handles[h].pc.job.Spend? ==>
                     s'.anchor.Some? && s'.anchor.value.seqNo >= |s'.records|)
    requires Covers(s.anchor, s'.released)
    ensures Anchored(s')
  {
    assert forall i: nat :: i < s.durable ==> s.records[..s.durable][i] == s'.records[i];
    forall g | g in s'.handles ensures FloorOk(s', s'.handles[g].mem.floor) {
      if g != h {
        assert FloorOk(s, s.handles[g].mem.floor);
      }
    }
  }

  /** Nobody but `h` is in the middle of anything. */
  ghost predicate OthersIdle(s: Sys, h: nat) {
    s.durable <= |s.records| && forall g :: g in s.handles && g != h ==> s.handles[g].pc.Idle?
  }

  lemma HolderAlone(c: Codec, node: Key, s: Sys, h: nat)
    requires Inv(c, node, s) && (s.holder.Some? ==> s.holder.value == h)
    ensures OthersIdle(s, h)
  {
  }

  lemma CatchUpFloor(c: Codec, node: Key, s: Sys, mem: Mem, disk: seq<Byte>, spend: bool, w: World)
    requires (s.anchor.Some? ==> NamesDurableLine(s, s.anchor.value)) && FloorOk(s, mem.floor)
    requires w.reply == NoAnswer || w.reply == HonestReply(s.anchor)
    ensures FloorOk(s, CatchUp(c, node, mem, disk, spend, w).mem.floor)
  {
  }

  lemma OpenKeepsAnchored(c: Codec, node: Key, s: Sys, h: nat, w: World, s': Sys)
    requires OthersIdle(s, h) && Anchored(s) && OpenStep(c, node, s, h, w, s') && Honest(s, Open(h, w))
    ensures Anchored(s')
  {
    CatchUpFloor(c, node, s, FRESH, Disk(c, s), false, w);
    assert s.records[..s.durable] <= s'.records;
    AnchoredStable(s, s', h);
  }

  lemma BeginKeepsAnchored(c: Codec, node: Key, s: Sys, h: nat, job: Job, which: nat, w: World, s': Sys)
    requires OthersIdle(s, h) && Anchored(s) && BeginStep(c, node, s, h, job, which, w, s')
    requires Honest(s, Begin(h, job, which, w))
    ensures Anchored(s')
  {
    CatchUpFloor(c, node, s, s.handles[h].mem, Disk(c, s), IsSpend(job), w);
    assert s.records[..s.durable] <= s'.records;
    assert Covers(s.anchor, s'.released);
    AnchoredStable(s, s', h);
  }

  /** Writing and syncing touch neither the anchor nor any floor. */
  lemma WriteKeepsAnchored(c: Codec, node: Key, s: Sys, h: nat, s': Sys)
    requires OthersIdle(s, h) && Anchored(s)
    requires (exists n :: WriteStep(c, node, s, h, n, s')) || (exists ok :: SyncStep(c, node, s, h, ok, s'))
    ensures Anchored(s')
  {
    assert s.records[..s.durable] <= s'.records;
    AnchoredStable(s, s', h);
  }

  lemma LandKeepsAnchored(c: Codec, node: Key, s: Sys, line: nat, s': Sys)
    requires Inv(c, node, s) && Anchored(s) && LandStep(c, node, s, line, s')
    ensures Anchored(s')
  {
    forall g | g in s'.handles ensures FloorOk(s', s'.handles[g].mem.floor) {
      assert FloorOk(s, s.handles[g].mem.floor);
    }
    forall i | 0 <= i < |s.released| ensures s.released[i].at < s'.anchor.value.seqNo {
      assert s.released[i].at < s.anchor.value.seqNo;
    }
  }

  /** Settled with the anchor's word for it, the anchor is at the last line; otherwise only the floor counts. */
  lemma SettledFloor(s: Sys, floor: Option<Tip>, t: Tip, moveOk: bool)
    requires FloorOk(s, floor) && s.durable == |s.records| && s.records != []
    requires t == Tip(|s.records|, HashOf(s.records[|s.records| - 1])) && (moveOk ==> s.anchor == Some(t))
    ensures FloorOk(s, MoveTip(floor, t, moveOk).floor)
    ensures MoveTip(floor, t, moveOk).outcome == Done ==> s.anchor == Some(t)
  {
  }

  lemma SettleKeepsAnchored(c: Codec, node: Key, s: Sys, h: nat, w: World, s': Sys)
    requires Inv(c, node, s) && Anchored(s) && SettleStep(c, node, s, h, w, s')
    requires Honest(s, Settle(h, w))
    ensures Anchored(s')
  {
    var hd := s.handles[h];
    assert PcOk(c, node, s, hd);
    SettleKnows(c, node, s, hd, w);
    assert FloorOk(s, hd.mem.floor);
    SettledFloor(s, hd.mem.floor, Tip(|s.records|, HashOf(hd.pc.record)), w.moveOk);
    SettledAnchored(s, s', h);
  }

  lemma SettledAnchored(s: Sys, s': Sys, h: nat)
    requires Anchored(s) && h in s.handles && h in s'.handles && s.durable <= |s.records|
    requires forall g :: g in s.handles && g != h ==> s.handles[g].pc.Idle?
    requires s' == s.(handles := s.handles[h := s'.handles[h]], holder := s'.holder)
    requires FloorOk(s, s'.handles[h].mem.floor)
    requires s'.handles[h].pc.Settled? && s'.handles[h].pc.job.Spend? ==>
               s.anchor.Some? && s.anchor.value.seqNo >= |s.records|
    ensures Anchored(s')
  {
    assert s.records[..s.durable] <= s'.records;
    AnchoredStable(s, s', h);
  }

  lemma ReturnKeepsAnchored(c: Codec, node: Key, s: Sys, h: nat, unlockOk: bool, s': Sys)
    requires OthersIdle(s, h) && Anchored(s) && ReturnStep(c, node, s, h, unlockOk, s')
    requires s.records != []
    ensures Anchored(s')
  {
    assert s.records[..s.durable] <= s'.records;
    if s.handles[h].pc.job.Spend? {
      assert s.anchor.Some? && LastIndex(s) < s.anchor.value.seqNo;
    }
    assert Covers(s.anchor, s'.released);
    AnchoredStable(s, s', h);
  }

  lemma KillKeepsAnchored(c: Codec, node: Key, s: Sys, h: nat, s': Sys)
    requires Inv(c, node, s) && Anchored(s) && KillStep(c, node, s, h, s')
    ensures Anchored(s')
  {
    forall g | g in s'.handles ensures FloorOk(s', s'.handles[g].mem.floor) {
      assert FloorOk(s, s.handles[g].mem.floor);
    }
  }

  lemma PowerLossKeepsAnchored(c: Codec, node: Key, s: Sys, kept: nat, torn: seq<Byte>, s': Sys)
    requires Inv(c, node, s) && Anchored(s) && PowerLossStep(c, node, s, kept, torn, s')
    ensures Anchored(s')
  {
    assert s.records[..s.durable] <= s'.records;
    AnchoredStable(s, s', 0);
  }

  lemma UpstreamKeepsAnchored(c: Codec, node: Key, s: Sys, which: nat, s': Sys)
    requires Inv(c, node, s) && Anchored(s) && UpstreamStep(c, node, s, which, s')
    ensures Anchored(s')
  {
    forall g | g in s'.handles ensures FloorOk(s', s'.handles[g].mem.floor) {
      assert FloorOk(s, s.handles[g].mem.floor);
    }
    assert Covers(s.anchor, s'.released);
  }

  /** The steps of a call that leave the anchor alone. */
  lemma CallKeepsAnchored(c: Codec, node: Key, s: Sys, act: Action, s': Sys)
    requires act.Open? || act.Begin? || act.Write? || act.Sync? || (act.Return? && s.records != [])
    requires OthersIdle(s, act.h) && Anchored(s) && Takes(c, node, s, act, s') && Honest(s, act)
    ensures Anchored(s')
  {
    match act {
      case Open(h, w) => OpenKeepsAnchored(c, node, s, h, w, s');
      case Begin(h, job, which, w) => BeginKeepsAnchored(c, node, s, h, job, which, w, s');
      case Write(h, _) => WriteKeepsAnchored(c, node, s, h, s');
      case Sync(h, _) => WriteKeepsAnchored(c, node, s, h, s');
      case Return(h, unlockOk) => ReturnKeepsAnchored(c, node, s, h, unlockOk, s');
    }
  }

  /** Whoever takes such a step is alone, and returns only with a line in the file. */
  lemma CallerAlone(c: Codec, node: Key, s: Sys, act: Action, s': Sys)
    requires Inv(c, node, s) && Takes(c, node, s, act, s')
    requires act.Open? || act.Begin? || act.Write? || act.Sync? || act.Return?
    ensures OthersIdle(s, act.h) && (act.Return? ==> s.records != [])
  {
    HolderAlone(c, node, s, act.h);
    if act.Return? {
      assert PcOk(c, node, s, s.handles[act.h]);
    }
  }

  /** The steps that may move the anchor, or that nobody's call takes. */
  lemma OutsideKeepsAnchored(c: Codec, node: Key, s: Sys, act: Action, s': Sys)
    requires act.Land? || act.Settle? || act.Kill? || act.PowerLoss? || act.Upstream?
    requires Inv(c, node, s) && Anchored(s) && Takes(c, node, s, act, s') && Honest(s, act)
    ensures Anchored(s')
  {
    match act {
      case Land(line) => LandKeepsAnchored(c, node, s, line, s');
      case Settle(h, w) => SettleKeepsAnchored(c, node, s, h, w, s');
      case Kill(h) => KillKeepsAnchored(c, node, s, h, s');
      case PowerLoss(kept, torn) => PowerLossKeepsAnchored(c, node, s, kept, torn, s');
      case Upstream(which) => UpstreamKeepsAnchored(c, node, s, which, s');
    }
  }

  lemma StepKeepsAnchored(c: Codec, node: Key, s: Sys, act: Action, s': Sys)
    requires Inv(c, node, s) && Anchored(s) && Takes(c, node, s, act, s') && Honest(s, act)
    ensures Anchored(s')
  {
    if act.Open? || act.Begin? || act.Write? || act.Sync? || act.Return? {
      CallerAlone(c, node, s, act, s');
      CallKeepsAnchored(c, node, s, act, s');
    } else {
      OutsideKeepsAnchored(c, node, s, act, s');
    }
  }

  /** Over honest runs the anchor names a durable line and covers every released permit. */
  lemma {:induction false} HonestRunsStayAnchored(c: Codec, node: Key, run: seq<Sys>, n: nat)
    requires HonestRun(c, node, run) && n < |run|
    ensures Inv(c, node, run[n]) && Anchored(run[n])
  {
    if n > 0 {
      HonestRunsStayAnchored(c, node, run, n - 1);
      assert HonestStepAt(c, node, run, n);
      var act :| Takes(c, node, run[n - 1], act, run[n]) && Honest(run[n - 1], act);
      StepKeepsInvariant(c, node, run[n - 1], act, run[n]);
      StepKeepsAnchored(c, node, run[n - 1], act, run[n]);
    }
  }

  /**
   On a file with no torn tail and beside an honest anchor no step is ever answered "tampered": not
   when catching up, whatever was read before, and not when a written line is counted and anchored.
   */
  lemma HonestRunsNeverAnswerTampered(c: Codec, node: Key, run: seq<Sys>, n: nat, h: nat, spend: bool, w: World)
    requires HonestRun(c, node, run) && n < |run| && run[n].tail == []
    requires w.reply == NoAnswer || w.reply == HonestReply(run[n].anchor)
    ensures h in run[n].handles ==>
              && !CatchUp(c, node, run[n].handles[h].mem, Disk(c, run[n]), spend, w).outcome.Broken?
              && (run[n].handles[h].pc.Durable? ==>
                    var r := run[n].handles[h].pc.record;
                    !Authority.Settle(run[n].handles[h].mem, r, |Frame(c, r)|, spend, w).outcome.Broken?)
    ensures !CatchUp(c, node, FRESH, Disk(c, run[n]), spend, w).outcome.Broken?
  {
    HonestRunsStayAnchored(c, node, run, n);
    var s := run[n];
    assert s.records[..0] == [];
    CatchUpNeverBroken(c, node, s, Handle(FRESH, 0, Idle), spend, w);
    if h in s.handles {
      assert FloorOk(s, s.handles[h].mem.floor);
      CatchUpNeverBroken(c, node, s, s.handles[h], spend, w);
      if s.handles[h].pc.Durable? {
        assert PcOk(c, node, s, s.handles[h]);
        FloorAllows(s, s.handles[h].mem.floor);
        SettleNeverBroken(c, node, s, s.handles[h], spend, w);
      }
    }
  }

  /** The last line of a file that is durable throughout is never behind a floor. */
  lemma FloorAllows(s: Sys, floor: Option<Tip>)
    requires FloorOk(s, floor) && s.durable == |s.records| && s.records != []
    ensures NotBehind(floor, Tip(|s.records|, HashOf(s.records[|s.records| - 1])))
  {
  }

  lemma SettleNeverBroken(c: Codec, node: Key, s: Sys, h: Handle, spend: bool, w: World)
    requires FileOk(c, node, s) && Knows(c, node, s, h) && h.pc.Durable? && PcOk(c, node, s, h)
    requires NotBehind(h.mem.floor, Tip(|s.records|, HashOf(s.records[|s.records| - 1])))
    ensures !Authority.Settle(h.mem, h.pc.record, |Frame(c, h.pc.record)|, spend, w).outcome.Broken?
  {
    SettleKnows(c, node, s, h, w);
  }

  /** An honest anchor's answer passes the floor and agrees with the whole file. */
  lemma AnchorAgrees(node: Key, s: Sys, floor: Option<Tip>, reply: Reply)
    requires Accepted(node, s.records) && FloorOk(s, floor)
    requires s.anchor.Some? ==> NamesDurableLine(s, s.anchor.value)
    requires reply == NoAnswer || reply == HonestReply(s.anchor)
    ensures !AskTip(floor, reply).outcome.Broken?
    ensures CheckAnchored(IndexOf(node, s.records), AskTip(floor, reply).answer) == Done
  {
    AcceptedShape(node, s.records);
  }

  lemma CatchUpNeverBroken(c: Codec, node: Key, s: Sys, h: Handle, spend: bool, w: World)
    requires FileOk(c, node, s) && Knows(c, node, s, h) && s.tail == []
    requires Anchored(s) && FloorOk(s, h.mem.floor)
    requires w.reply == NoAnswer || w.reply == HonestReply(s.anchor)
    ensures !CatchUp(c, node, h.mem, Disk(c, s), spend, w).outcome.Broken?
  {
    ScanTheUnread(c, node, s, h);
    AnchorAgrees(node, s, h.mem.floor, w.reply);
    assert CheckAnchored(IndexOf(node, s.records), None) == Done;
  }
}
