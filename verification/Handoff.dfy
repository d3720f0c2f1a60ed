/** Passing control on by ticket: what an accepted handoff says about everything that went before it. */
module Handoff {
  import opened Basics
  import opened ControllerSpec
  import opened Transitions

  /** The controller after the first `n` of a run of operations, in whatever order their callers made them. */
  function CtlAt(ops: seq<Op>, n: nat): Ctl
    requires n <= |ops|
    decreases n
  {
    if n == 0 then NOBODY else Do(CtlAt(ops, n - 1), ops[n - 1]).ctl
  }

  function AnswerAt(ops: seq<Op>, n: nat): Answer
    requires n < |ops|
  {
    Do(CtlAt(ops, n), ops[n]).answer
  }

  /** Operation `k` gave or took control, or made or withdrew an offer. */
  predicate Moves(ops: seq<Op>, k: nat)
    requires k < |ops|
  {
    !ops[k].OpPrepare? && !ops[k].OpWritten? && !AnswerAt(ops, k).Err?
  }

  predicate Unmoved(ops: seq<Op>, i: nat, n: nat)
    requires n <= |ops|
  {
    forall k :: i < k < n ==> !Moves(ops, k)
  }

  lemma StaysUnmoved(ops: seq<Op>, i: nat, n: nat)
    requires 0 < n <= |ops| && Unmoved(ops, i, n - 1) && !Moves(ops, n - 1)
    ensures Unmoved(ops, i, n)
  {
  }

  /** When an offer runs out. */
  function Deadline(op: Op): nat
    requires op.OpOffer?
  {
    Min(op.now + HANDOFF_SECONDS, U64_MAX)
  }

  /** Where a standing offer comes from: its lease made it, and nothing has moved since. */
  lemma {:induction false} OffersAreMade(ops: seq<Op>, n: nat) returns (i: nat)
    requires n <= |ops| && CtlAt(ops, n).handoff.Some?
    ensures i < n && ops[i].OpOffer? && AnswerAt(ops, i) == Ok && Unmoved(ops, i, n)
    ensures CtlAt(ops, n).handoff.value == Offer(ops[i].ticket, Deadline(ops[i]))
    ensures CtlAt(ops, n).active && CtlAt(ops, n).generation == ops[i].g
  {
    var before, op := CtlAt(ops, n - 1), ops[n - 1];
    if op.OpOffer? && AnswerAt(ops, n - 1) == Ok {
      i := n - 1;
    } else {
      OnlyOffersOffer(before, op);
      i := OffersAreMade(ops, n - 1);
      assert !Moves(ops, n - 1);
      StaysUnmoved(ops, i, n);
    }
  }

  /** Any other operation leaves the offer it found, the lease with it, or no offer at all. */
  lemma OnlyOffersOffer(c: Ctl, op: Op)
    requires Do(c, op).ctl.handoff.Some? && !(op.OpOffer? && Do(c, op).answer == Ok)
    ensures Do(c, op).ctl.handoff == c.handoff
    ensures Do(c, op).ctl.active == c.active && Do(c, op).ctl.generation == c.generation
    ensures op.OpPrepare? || op.OpWritten? || Do(c, op).answer.Err?
  {
  }

  /**
   A handoff that is accepted was offered, with this ticket and less than 120 seconds before, by the very
   lease it ends; since then nobody gave or took control, withdrew the offer or replaced it.
   */
  lemma HandoffsAreGenuine(ops: seq<Op>, n: nat) returns (i: nat)
    requires n < |ops| && ops[n].OpAccept? && AnswerAt(ops, n).Lease?
    ensures i < n && ops[i].OpOffer? && AnswerAt(ops, i) == Ok && ops[i].ticket == ops[n].ticket
    ensures ops[n].now < ops[i].now + 120
    ensures Unmoved(ops, i, n)
    ensures CtlAt(ops, n).generation == ops[i].g && AnswerAt(ops, n) == Lease(ops[i].g + 1)
    ensures Check(CtlAt(ops, n + 1), ops[i].g) == Err(StaleGeneration)
  {
    i := OffersAreMade(ops, n);
  }

  /** So a ticket that is offered once is accepted at most once. */
  lemma TicketsWorkOnce(ops: seq<Op>, m: nat, n: nat)
    requires m < n < |ops| && ops[m].OpAccept? && ops[n].OpAccept? && ops[m].ticket == ops[n].ticket
    requires AnswerAt(ops, m).Lease? && AnswerAt(ops, n).Lease?
    ensures exists i, j :: 0 <= i < m < j < n && ops[i].OpOffer? && ops[j].OpOffer?
                           && ops[i].ticket == ops[j].ticket == ops[n].ticket
  {
    var i := HandoffsAreGenuine(ops, m);
    var j := HandoffsAreGenuine(ops, n);
    assert j <= m ==> j == m || Moves(ops, m);
  }

  /** And an offer is good for exactly its 120 seconds, for exactly its ticket. */
  lemma OffersAreHonoured(c: Ctl, g: nat, ticket: string, now: nat, said: string, later: nat)
    requires Check(c, g) == Ok && c.generation < U64_MAX && now + HANDOFF_SECONDS <= U64_MAX
    ensures var offered := OfferHandoff(c, g, ticket, now).ctl;
            AcceptHandoff(offered, said, later).answer.Lease? <==> said == ticket && later < now + HANDOFF_SECONDS
  {
  }

  predicate Offers(ops: seq<Op>, i: nat)
    requires i < |ops|
  {
    ops[i].OpOffer? && AnswerAt(ops, i) == Ok
  }

  /** Operation `k` ends the offer of `i`: by moving control or the offer, or by coming for it too late. */
  predicate Withdraws(ops: seq<Op>, i: nat, k: nat)
    requires i < |ops| && k < |ops| && ops[i].OpOffer?
  {
    Moves(ops, k) || (ops[k].OpAccept? && ops[k].now >= Deadline(ops[i]))
  }

  /** The offer made at `i` still stands at `n`. */
  predicate Stands(ops: seq<Op>, i: nat, n: nat)
    requires n <= |ops|
  {
    i < n && Offers(ops, i) && forall k :: i < k < n ==> !Withdraws(ops, i, k)
  }

  predicate IsOffer(offer: Option<Offer>, op: Op) {
    op.OpOffer? && offer == Some(Offer(op.ticket, Deadline(op)))
  }

  /** What an operation does to the offer it finds. */
  lemma OfferMoves(c: Ctl, op: Op)
    requires !(op.OpOffer? && Do(c, op).answer == Ok)
    ensures var moves := !op.OpPrepare? && !op.OpWritten? && !Do(c, op).answer.Err?;
            var late := op.OpAccept? && c.handoff.Some? && op.now >= c.handoff.value.deadline;
            Do(c, op).ctl.handoff == if moves || late then None else c.handoff
  {
  }

  lemma OfferStandsOn(ops: seq<Op>, i: nat, n: nat)
    requires i < n < |ops|
    ensures Stands(ops, i, n + 1) <==> Stands(ops, i, n) && !Withdraws(ops, i, n)
  {
  }

  /** The offer the controller holds is the one that stands. */
  lemma {:induction false} OffersStand(ops: seq<Op>, n: nat)
    requires n <= |ops|
    ensures CtlAt(ops, n).handoff.Some? ==> exists i: nat :: Stands(ops, i, n)
    ensures forall i: nat :: Stands(ops, i, n) ==> IsOffer(CtlAt(ops, n).handoff, ops[i])
  {
    if n > 0 {
      OffersStand(ops, n - 1);
      var c, op := CtlAt(ops, n - 1), ops[n - 1];
      if Offers(ops, n - 1) {
        assert Stands(ops, n - 1, n);
        forall i: nat | Stands(ops, i, n) ensures i == n - 1 {
          assert i < n - 1 ==> !Withdraws(ops, i, n - 1);
        }
      } else {
        OfferMoves(c, op);
        forall i: nat | Stands(ops, i, n) ensures IsOffer(Do(c, op).ctl.handoff, ops[i]) {
          OfferStandsOn(ops, i, n - 1);
        }
        if Do(c, op).ctl.handoff.Some? {
          var i: nat :| Stands(ops, i, n - 1);
          OfferStandsOn(ops, i, n - 1);
        }
      }
    }
  }

  /**
   The answer to a ticket, over any operations: control if it is the one on offer and in time, "expired" once
   that offer has run out, which is then gone, and otherwise "unavailable", with nothing changed.
   */
  lemma TicketsAreAnswered(ops: seq<Op>, n: nat)
    requires n < |ops| && ops[n].OpAccept?
    ensures forall i: nat :: Stands(ops, i, n) ==>
                               AnswerAt(ops, n) ==
                               if ops[n].now >= Deadline(ops[i]) then Err(HandoffExpired)
                               else if ops[n].ticket != ops[i].ticket then Err(HandoffUnavailable)
                               else if CtlAt(ops, n).generation >= U64_MAX then Err(GenerationsExhausted)
                               else Lease(CtlAt(ops, n).generation + 1)
    ensures (forall i: nat :: !Stands(ops, i, n)) ==> AnswerAt(ops, n) == Err(HandoffUnavailable)
    ensures AnswerAt(ops, n) == Err(HandoffExpired) ==> CtlAt(ops, n + 1) == CtlAt(ops, n).(handoff := None)
    ensures AnswerAt(ops, n).Err? && AnswerAt(ops, n) != Err(HandoffExpired) ==> CtlAt(ops, n + 1) == CtlAt(ops, n)
  {
    OffersStand(ops, n);
  }

  /** Operation `i` granted lease `g`. */
  predicate Grants(ops: seq<Op>, i: nat, g: nat)
    requires i < |ops|
  {
    AnswerAt(ops, i) == Lease(g)
  }

  /** Operation `k` ends whatever lease there was: another is granted, or it is released. */
  predicate Ends(ops: seq<Op>, k: nat)
    requires k < |ops|
  {
    AnswerAt(ops, k).Lease? || (ops[k].OpRelease? && AnswerAt(ops, k) == Ok)
  }

  /** Lease `g` was granted at `i` and nothing up to `n` ended it. */
  predicate InForce(ops: seq<Op>, i: nat, n: nat, g: nat)
    requires n <= |ops|
  {
    i < n && Grants(ops, i, g) && forall k :: i < k < n ==> !Ends(ops, k)
  }

  lemma StillInForce(ops: seq<Op>, i: nat, n: nat, g: nat)
    requires 0 < n <= |ops| && !Ends(ops, n - 1)
    ensures InForce(ops, i, n, g) <==> InForce(ops, i, n - 1, g)
  {
  }

  lemma NewlyInForce(ops: seq<Op>, i: nat, n: nat, g: nat)
    requires 0 < n <= |ops| && Ends(ops, n - 1)
    ensures InForce(ops, i, n, g) <==> i == n - 1 && Grants(ops, i, g)
  {
  }

  /** What ends a lease leaves exactly the one it grants. */
  lemma GrantedPasses(c: Ctl, op: Op, g: nat)
    requires Do(c, op).answer.Lease? || (op.OpRelease? && Do(c, op).answer == Ok)
    ensures Check(Do(c, op).ctl, g) == Ok <==> Do(c, op).answer == Lease(g)
  {
  }

  /** Whatever was done before: a generation passes the check exactly if its lease is the one in force. */
  lemma {:induction false} OnlyTheLeaseInForcePasses(ops: seq<Op>, n: nat, g: nat)
    requires n <= |ops|
    ensures Check(CtlAt(ops, n), g) == Ok <==> exists i: nat :: InForce(ops, i, n, g)
  {
    if n > 0 {
      if Ends(ops, n - 1) {
        GrantedPasses(CtlAt(ops, n - 1), ops[n - 1], g);
        forall i: nat ensures InForce(ops, i, n, g) <==> i == n - 1 && Grants(ops, i, g) {
          NewlyInForce(ops, i, n, g);
        }
        if Grants(ops, n - 1, g) {
          assert InForce(ops, n - 1, n, g);
        }
      } else {
        OnlyTheLeaseInForcePasses(ops, n - 1, g);
        LeasesOutlive(CtlAt(ops, n - 1), ops[n - 1]);
        forall i: nat ensures InForce(ops, i, n, g) <==> InForce(ops, i, n - 1, g) {
          StillInForce(ops, i, n, g);
        }
        if Check(CtlAt(ops, n - 1), g) == Ok {
          var i: nat :| InForce(ops, i, n - 1, g);
          assert InForce(ops, i, n, g);
        }
      }
    }
  }

  lemma LeasesOutlive(c: Ctl, op: Op)
    requires !Do(c, op).answer.Lease? && !(op.OpRelease? && Do(c, op).answer == Ok)
    ensures Do(c, op).ctl.active == c.active && Do(c, op).ctl.generation == c.generation
  {
  }

  // ---------------------------------------------------------------- who may do what, over any operations

  /** Some lease is in force. */
  ghost predicate Taken(ops: seq<Op>, n: nat)
    requires n <= |ops|
  {
    exists i: nat, g :: InForce(ops, i, n, g)
  }

  /** A session is active exactly while a lease is in force, which is then the controller's generation. */
  lemma TakenMeansActive(ops: seq<Op>, n: nat)
    requires n <= |ops|
    ensures CtlAt(ops, n).active <==> Taken(ops, n)
  {
    var c := CtlAt(ops, n);
    OnlyTheLeaseInForcePasses(ops, n, c.generation);
    if Taken(ops, n) {
      var i: nat, g :| InForce(ops, i, n, g);
      OnlyTheLeaseInForcePasses(ops, n, g);
    }
  }

  /** How many leases were granted before `n`. */
  function GrantsBefore(ops: seq<Op>, n: nat): nat
    requires n <= |ops|
  {
    if n == 0 then 0 else GrantsBefore(ops, n - 1) + (if AnswerAt(ops, n - 1).Lease? then 1 else 0)
  }

  lemma GenerationMoves(c: Ctl, op: Op)
    ensures Do(c, op).ctl.generation == c.generation + (if Do(c, op).answer.Lease? then 1 else 0)
    ensures Do(c, op).answer.Lease? ==> Do(c, op).answer == Lease(c.generation + 1) && c.generation < U64_MAX
  {
  }

  /** Generations count the leases: each grant has a number of its own, the next one. */
  lemma {:induction false} GenerationsCountGrants(ops: seq<Op>, n: nat)
    requires n <= |ops|
    ensures CtlAt(ops, n).generation == GrantsBefore(ops, n) <= U64_MAX
    ensures n < |ops| && AnswerAt(ops, n).Lease? ==> AnswerAt(ops, n) == Lease(GrantsBefore(ops, n) + 1)
  {
    if n > 0 {
      GenerationsCountGrants(ops, n - 1);
      GenerationMoves(CtlAt(ops, n - 1), ops[n - 1]);
    }
    if n < |ops| {
      GenerationMoves(CtlAt(ops, n), ops[n]);
    }
  }

  /**
   Control is given to whoever asks exactly when nobody has it, or when it is taken over outright; a refusal
   says so and leaves lease, offer and window as they were. Only 2^64 - 1 grants exhaust the numbers.
   */
  lemma ControlIsGivenOnlyWhenFree(ops: seq<Op>, n: nat)
    requires n < |ops| && ops[n].OpAcquire?
    ensures AnswerAt(ops, n).Lease? <==> (ops[n].takeover || !Taken(ops, n)) && GrantsBefore(ops, n) < U64_MAX
    ensures !AnswerAt(ops, n).Lease? ==>
              && CtlAt(ops, n + 1) == CtlAt(ops, n)
              && AnswerAt(ops, n) == Err(if Taken(ops, n) && !ops[n].takeover then AlreadyControlled
                                         else GenerationsExhausted)
  {
    TakenMeansActive(ops, n);
    GenerationsCountGrants(ops, n);
  }

  /** The lease an operation is made under, if it names one. */
  function Names(op: Op): Option<nat> {
    match op
    case OpRelease(g) => Some(g)
    case OpOffer(g, _, _) => Some(g)
    case OpCancel(g) => Some(g)
    case OpPrepare(g, _, _) => Some(g)
    case _ => None
  }

  ghost predicate LeaseInForce(ops: seq<Op>, n: nat, g: nat)
    requires n <= |ops|
  {
    exists i: nat :: InForce(ops, i, n, g)
  }

  /**
   Whatever names a lease is refused as stale exactly when that lease is not in force, and then changes
   nothing; releasing, offering and withdrawing under the lease in force always work.
   */
  lemma OnlyTheLeaseInForceActs(ops: seq<Op>, n: nat)
    requires n < |ops| && Names(ops[n]).Some?
    ensures var g := Names(ops[n]).value;
            && (AnswerAt(ops, n) == Err(StaleGeneration) <==> !LeaseInForce(ops, n, g))
            && (!LeaseInForce(ops, n, g) ==> CtlAt(ops, n + 1) == CtlAt(ops, n))
            && (LeaseInForce(ops, n, g) && !ops[n].OpPrepare? ==> AnswerAt(ops, n) == Ok)
  {
    OnlyTheLeaseInForcePasses(ops, n, Names(ops[n]).value);
  }

  // ---------------------------------------------------------------- the inputs of a lease, in turn

  /** Inputs taken for writing after `i` and before `n`. */
  function WritesSince(ops: seq<Op>, i: nat, n: nat): nat
    requires n <= |ops|
  {
    if n <= i + 1 then 0 else WritesSince(ops, i, n - 1) + (if AnswerAt(ops, n - 1) == Write then 1 else 0)
  }

  /** Where inputs were taken for writing, and where a write was reported. */
  function Took(ops: seq<Op>): nat -> bool {
    (k: nat) => k < |ops| && AnswerAt(ops, k) == Write
  }

  function Reported(ops: seq<Op>): nat -> bool {
    (k: nat) => k < |ops| && ops[k].OpWritten?
  }

  /** The last of `took` between `i` and `n` has no `told` after it. */
  ghost predicate LeftOpen(took: nat -> bool, told: nat -> bool, i: nat, n: nat) {
    exists k: nat :: i < k < n && took(k) && forall j: nat :: k < j < n ==> !told(j)
  }

  lemma LeftOpenMoves(took: nat -> bool, told: nat -> bool, i: nat, n: nat)
    requires i < n
    ensures LeftOpen(took, told, i, n + 1) <==> (i < n && took(n)) || (LeftOpen(took, told, i, n) && !told(n))
  {
    if LeftOpen(took, told, i, n) && !told(n) {
      var k: nat :| i < k < n && took(k) && forall j: nat :: k < j < n ==> !told(j);
      assert forall j: nat :: k < j < n + 1 ==> !told(j);
    }
    if LeftOpen(took, told, i, n + 1) && !took(n) {
      var k: nat :| i < k < n + 1 && took(k) && forall j: nat :: k < j < n + 1 ==> !told(j);
      assert told(n) ==> k == n;
    }
  }

  /** An input taken after `i` whose write is not reported. */
  ghost predicate InDoubt(ops: seq<Op>, i: nat, n: nat) {
    LeftOpen(Took(ops), Reported(ops), i, n)
  }

  /** The last number of the lease is how many inputs it has had, and it knows of any doubt. */
  ghost predicate KeepsCount(ops: seq<Op>, i: nat, n: nat)
    requires n <= |ops|
  {
    CtlAt(ops, n).last == WritesSince(ops, i, n) && (CtlAt(ops, n).uncertain <==> InDoubt(ops, i, n))
  }

  lemma CountBegins(ops: seq<Op>, i: nat, g: nat)
    requires i < |ops| && Grants(ops, i, g)
    ensures KeepsCount(ops, i, i + 1)
  {
    assert !InDoubt(ops, i, i + 1);
  }

  lemma CountGoesOn(ops: seq<Op>, i: nat, n: nat)
    requires i < n < |ops| && !Ends(ops, n) && KeepsCount(ops, i, n)
    ensures KeepsCount(ops, i, n + 1)
  {
    LeftOpenMoves(Took(ops), Reported(ops), i, n);
    InputMoves(CtlAt(ops, n), ops[n]);
  }

  lemma LeaseKeepsCount(ops: seq<Op>, i: nat, n: nat, g: nat)
    requires n <= |ops| && InForce(ops, i, n, g)
    ensures KeepsCount(ops, i, n)
  {
    CountBegins(ops, i, g);
    forall k: nat | i + 1 <= k < n && KeepsCount(ops, i, k) ensures KeepsCount(ops, i, k + 1) {
      CountGoesOn(ops, i, k);
    }
    Upwards((k: nat) => k <= |ops| && KeepsCount(ops, i, k), i + 1, n);
  }

  lemma InputMoves(c: Ctl, op: Op)
    requires !Do(c, op).answer.Lease? && !(op.OpRelease? && Do(c, op).answer == Ok)
    ensures Do(c, op).ctl.last == c.last + (if Do(c, op).answer == Write then 1 else 0)
    ensures Do(c, op).ctl.uncertain <==> Do(c, op).answer == Write || (c.uncertain && !op.OpWritten?)
    ensures Do(c, op).answer == Write ==> op.OpPrepare?
  {
  }

  /**
   Under the lease in force the next input is the one after those taken, and it is taken exactly if each of
   those was reported written. While one is not, nothing is taken and nothing else is said.
   */
  lemma InputsAreTakenInTurn(ops: seq<Op>, i: nat, n: nat)
    requires n < |ops| && ops[n].OpPrepare? && InForce(ops, i, n, ops[n].g)
    ensures AnswerAt(ops, n) == Write <==>
            !InDoubt(ops, i, n) && ops[n].sequence == WritesSince(ops, i, n) + 1 <= U64_MAX
    ensures AnswerAt(ops, n) == Err(InputUncertain) <==> InDoubt(ops, i, n)
    ensures !InDoubt(ops, i, n) && WritesSince(ops, i, n) < U64_MAX
            && (ops[n].sequence == 0 || ops[n].sequence > WritesSince(ops, i, n) + 1) ==>
              AnswerAt(ops, n) == Err(OutOfOrder)
    ensures AnswerAt(ops, n) != Write ==> CtlAt(ops, n + 1) == CtlAt(ops, n)
  {
    LeaseKeepsCount(ops, i, n, ops[n].g);
    OnlyTheLeaseInForcePasses(ops, n, ops[n].g);
  }
}
