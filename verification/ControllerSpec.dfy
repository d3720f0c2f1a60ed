/** Who holds a session's input: fencing generations, the dedup window and handoff tickets, as values. */
module ControllerSpec {
  import opened Basics

  const DEDUP_WINDOW: nat := 64
  const DEDUP_BYTES: nat := 256 * 1024
  const HANDOFF_SECONDS: nat := 120

  /** The protocol's limit on one input. */
  const MAX_INPUT: nat := 16 * 1024

  datatype Input = Input(sequence: nat, data: seq<Byte>)

  datatype Offer = Offer(ticket: string, deadline: nat)

  datatype Ctl = Ctl(generation: nat, active: bool, last: nat, recent: seq<Input>, recentBytes: int,
                     uncertain: bool, handoff: Option<Offer>)

  const NOBODY := Ctl(0, false, 0, [], 0, false, None)

  /** Why an operation on input control is refused. */
  datatype Refusal =
    | AlreadyControlled
    | GenerationsExhausted
    | StaleGeneration
    | HandoffUnavailable
    | HandoffExpired
    | InputUncertain
    | OutOfOrder
    | SequenceExhausted
    | SessionOver       // the session's child has exited
    | NotAccepted       // an earlier input is still being written
    | OutcomeUnknown    // the write failed part way

  datatype Answer = Ok | Lease(generation: nat) | Write | Duplicate | Err(why: Refusal)

  datatype Result = Result(ctl: Ctl, answer: Answer)

  function Acquire(c: Ctl, takeover: bool): Result {
    if c.active && !takeover then Result(c, Err(AlreadyControlled))
    else if c.generation >= U64_MAX then Result(c, Err(GenerationsExhausted))
    else Result(Ctl(c.generation + 1, true, 0, [], 0, false, None), Lease(c.generation + 1))
  }

  function Check(c: Ctl, g: nat): Answer {
    if !c.active || g != c.generation then Err(StaleGeneration) else Ok
  }

  function Release(c: Ctl, g: nat): Result {
    if Check(c, g) != Ok then Result(c, Check(c, g)) else Result(c.(active := false, handoff := None), Ok)
  }

  function OfferHandoff(c: Ctl, g: nat, ticket: string, now: nat): Result {
    if Check(c, g) != Ok then Result(c, Check(c, g))
    else Result(c.(handoff := Some(Offer(ticket, Min(now + HANDOFF_SECONDS, U64_MAX)))), Ok)
  }

  function CancelHandoff(c: Ctl, g: nat): Result {
    if Check(c, g) != Ok then Result(c, Check(c, g)) else Result(c.(handoff := None), Ok)
  }

  function AcceptHandoff(c: Ctl, ticket: string, now: nat): Result {
    if c.handoff.None? then Result(c, Err(HandoffUnavailable))
    else if now >= c.handoff.value.deadline then Result(c.(handoff := None), Err(HandoffExpired))
    else if ticket != c.handoff.value.ticket then Result(c, Err(HandoffUnavailable))
    else Acquire(c, true)
  }

  /** The eviction loop: oldest first, until the window is within both bounds. */
  function Evict(recent: seq<Input>, bytes: int): (seq<Input>, int) {
    if recent != [] && (|recent| > DEDUP_WINDOW || bytes > DEDUP_BYTES) then
      Evict(recent[1..], bytes - |recent[0].data|)
    else (recent, bytes)
  }

  predicate Remembered(c: Ctl, sequence: nat, data: seq<Byte>) {
    Input(sequence, data) in c.recent
  }

  function Prepare(c: Ctl, g: nat, sequence: nat, data: seq<Byte>): Result {
    if Check(c, g) != Ok then Result(c, Check(c, g))
    else if c.uncertain then Result(c, Err(InputUncertain))
    else if sequence != 0 && sequence <= c.last then
      Result(c, if Remembered(c, sequence, data) then Duplicate else Err(OutOfOrder))
    else if c.last >= U64_MAX then Result(c, Err(SequenceExhausted))
    else if sequence != c.last + 1 then Result(c, Err(OutOfOrder))
    else
      var (recent, bytes) := Evict(c.recent + [Input(sequence, data)], c.recentBytes + |data|);
      Result(c.(last := sequence, recent := recent, recentBytes := bytes, uncertain := true), Write)
  }

  function Written(c: Ctl): Ctl {
    c.(uncertain := false)
  }

  // ---------------------------------------------------------------- the dedup window

  function BytesOf(inputs: seq<Input>): nat {
    if inputs == [] then 0 else |inputs[0].data| + BytesOf(inputs[1..])
  }

  /** Consecutive sequence numbers ending at `last`, each input within the protocol's limit. */
  predicate InARow(recent: seq<Input>, last: nat) {
    forall i :: 0 <= i < |recent| ==> recent[i].sequence == last - |recent| + 1 + i && |recent[i].data| <= MAX_INPUT
  }

  /** The lease's last inputs, all of them in a row, with their exact size, within bounds. */
  predicate ListOk(recent: seq<Input>, bytes: int, last: nat) {
    && |recent| <= DEDUP_WINDOW && bytes == BytesOf(recent) <= DEDUP_BYTES
    && Min(16, last) <= |recent| <= last
    && InARow(recent, last)
  }

  /** A handoff offer stands only while its lease does. */
  predicate WindowOk(c: Ctl) {
    ListOk(c.recent, c.recentBytes, c.last) && (c.handoff.Some? ==> c.active)
  }

  lemma {:induction false} BytesSplit(a: seq<Input>, b: seq<Input>)
    ensures BytesOf(a + b) == BytesOf(a) + BytesOf(b)
  {
    if a == [] {
      assert a + b == b;
    } else {
      assert (a + b)[1..] == a[1..] + b;
      BytesSplit(a[1..], b);
    }
  }

  lemma {:induction false} BytesBound(inputs: seq<Input>)
    requires forall i :: 0 <= i < |inputs| ==> |inputs[i].data| <= MAX_INPUT
    ensures BytesOf(inputs) <= |inputs| * MAX_INPUT
  {
    if inputs != [] {
      BytesBound(inputs[1..]);
    }
  }

  /**
   Eviction keeps a suffix within both bounds, never more than it must drop: with inputs the protocol
   admits, sixteen always fit. It never looks for an oldest input in an empty window.
   */
  lemma {:induction false} EvictKeepsASuffix(recent: seq<Input>, bytes: int) returns (k: nat)
    requires bytes == BytesOf(recent)
    requires forall i :: 0 <= i < |recent| ==> |recent[i].data| <= MAX_INPUT
    ensures k <= |recent| && Evict(recent, bytes) == (recent[k..], BytesOf(recent[k..]))
    ensures |recent[k..]| <= DEDUP_WINDOW && BytesOf(recent[k..]) <= DEDUP_BYTES
    ensures |recent| - k >= Min(16, |recent|)
    ensures k > 0 ==> |recent[k - 1..]| > DEDUP_WINDOW || BytesOf(recent[k - 1..]) > DEDUP_BYTES
  {
    if |recent| > DEDUP_WINDOW || bytes > DEDUP_BYTES {
      BytesBound(recent);
      assert |recent| > 16;
      k := EvictKeepsASuffix(recent[1..], bytes - |recent[0].data|);
      assert recent[1..][k..] == recent[k + 1..];
      if k > 0 {
        assert recent[1..][k - 1..] == recent[k..];
      }
      k := k + 1;
    } else {
      k := 0;
      assert recent[0..] == recent;
    }
  }

  datatype Op =
    | OpAcquire(takeover: bool)
    | OpRelease(g: nat)
    | OpOffer(g: nat, ticket: string, now: nat)
    | OpCancel(g: nat)
    | OpAccept(ticket: string, now: nat)
    | OpPrepare(g: nat, sequence: nat, data: seq<Byte>)
    | OpWritten

  function Do(c: Ctl, op: Op): Result {
    match op
    case OpAcquire(takeover) => Acquire(c, takeover)
    case OpRelease(g) => Release(c, g)
    case OpOffer(g, ticket, now) => OfferHandoff(c, g, ticket, now)
    case OpCancel(g) => CancelHandoff(c, g)
    case OpAccept(ticket, now) => AcceptHandoff(c, ticket, now)
    case OpPrepare(g, sequence, data) => Prepare(c, g, sequence, data)
    case OpWritten => Result(Written(c), Ok)
  }

  /** What eviction leaves of a run of inputs is the end of that run, and long enough. */
  lemma EvictRow(all: seq<Input>, bytes: int, last: nat)
    requires InARow(all, last) && bytes == BytesOf(all) && Min(16, last) <= |all| <= last
    ensures ListOk(Evict(all, bytes).0, Evict(all, bytes).1, last)
  {
    var k := EvictKeepsASuffix(all, bytes);
    forall i | 0 <= i < |all| - k
      ensures all[k..][i].sequence == last - (|all| - k) + 1 + i && |all[k..][i].data| <= MAX_INPUT
    {
      assert all[k..][i] == all[k + i];
    }
  }

  lemma OneMore(recent: seq<Input>, bytes: int, last: nat, data: seq<Byte>) returns (all: seq<Input>)
    requires ListOk(recent, bytes, last) && |data| <= MAX_INPUT
    ensures all == recent + [Input(last + 1, data)]
    ensures InARow(all, last + 1) && BytesOf(all) == bytes + |data| && Min(16, last + 1) <= |all| <= last + 1
  {
    var one := [Input(last + 1, data)];
    all := recent + one;
    BytesSplit(recent, one);
    assert BytesOf(one) == |data| by {
      assert one[1..] == [];
    }
  }

  /** Every operation keeps the window: contiguous, exactly counted, at least the last sixteen inputs. */
  lemma OpsKeepTheWindow(c: Ctl, op: Op)
    requires WindowOk(c) && (op.OpPrepare? ==> |op.data| <= MAX_INPUT)
    ensures WindowOk(Do(c, op).ctl)
  {
    if op.OpPrepare? && Do(c, op).answer == Write {
      var all := OneMore(c.recent, c.recentBytes, c.last, op.data);
      EvictRow(all, c.recentBytes + |op.data|, c.last + 1);
    }
  }

  /**
   A repeated input is recognised exactly when it is the one remembered: any of the lease's last sixteen
   is, with the bytes it had; other bytes under a used sequence are a conflict, never a write.
   */
  lemma RecentInputsAreRecognised(c: Ctl, sequence: nat, data: seq<Byte>)
    requires WindowOk(c) && c.active && !c.uncertain && 0 < sequence <= c.last
    ensures Prepare(c, c.generation, sequence, data).answer == Duplicate <==>
            c.last - |c.recent| < sequence
            && c.recent[sequence - (c.last - |c.recent| + 1)].data == data
    ensures Prepare(c, c.generation, sequence, data).answer == Duplicate
            || Prepare(c, c.generation, sequence, data).answer == Err(OutOfOrder)
    ensures c.last < sequence + 16 ==> c.last - |c.recent| < sequence
    ensures Prepare(c, c.generation, sequence, data).ctl == c
  {
    if c.last - |c.recent| < sequence {
      assert c.recent[sequence - (c.last - |c.recent| + 1)].sequence == sequence;
    }
  }
}
