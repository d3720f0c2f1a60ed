/** A view's hold on its session's input: the lease it believes it has, and what its requests carry. */
module Leases {
  import opened Basics
  import opened SendQueue
  import KeeperInput

  /**
   `generation` is 0 without control. A request carries the generation and sequence in force when it is
   sent, kept here for when its answer comes.
   */
  datatype Holder = Holder(client: Client, generation: nat, sequence: nat, sentGeneration: nat, sentSequence: nat)

  const WATCHING := Holder(IDLE, 0, 1, 0, 1)

  datatype Heard = Heard(view: Holder, request: Option<KeeperInput.Request>)

  /** An acknowledged request moves the sequence on, if the lease is still the one it was sent under. */
  function Advanced(v: Holder, e: Event): nat {
    if e.Answer? && e.outcome.Accepted? && v.sentGeneration == v.generation then v.sentSequence + 1 else v.sequence
  }

  /** A send queue event in its view: an unknown outcome gives control up, a request takes its number. */
  function Hear(v: Holder, e: Event): Heard {
    var turn := Handle(v.client, e);
    var sequence := Advanced(v, e);
    var generation := if GivesUp(v.client, e) then 0 else v.generation;
    if turn.request.None? then
      Heard(v.(client := turn.client, generation := generation, sequence := sequence), None)
    else
      Heard(Holder(turn.client, generation, sequence, generation, sequence),
            Some(KeeperInput.Request(generation, sequence, turn.request.value)))
  }

  /** Control ends on the view's side, for any reason it knows of. */
  function Dropped(v: Holder, reason: string): Holder {
    v.(client := Handle(v.client, Reset(reason)).client, generation := 0)
  }

  /** A lease arrives; a view that has one already never asks. */
  function Granted(v: Holder, g: nat): Holder {
    if v.generation != 0 then v
    else v.(client := Handle(v.client, Reset("reset")).client, generation := g, sequence := 1)
  }

  /**
   Control taken while a request of an earlier lease is out: its late success moves the new lease's numbers
   exactly if the two leases have the same generation, as after a restart of the keeper.
   */
  lemma OldAnswersCountOnlyUnderTheirGeneration(v: Holder, g: nat, pace: Pace)
    requires ClientOk(v.client) && v.generation == 0 && g > 0 && v.client.pending.Sending?
    ensures var after := Hear(Granted(v, g), Answer(Accepted(pace))).view;
            after.generation == g && after.sequence == if v.sentGeneration == g then v.sentSequence + 1 else 1
  {
  }

  // ---------------------------------------------------------------- the numbers of a lease

  /** What a view goes through: its send queue's events, the end of its control, a lease arriving. */
  datatype Happening = Happens(e: Event) | Loses(reason: string) | Gains(generation: nat)

  function Then(v: Holder, h: Happening): Holder {
    match h
    case Happens(e) => Hear(v, e).view
    case Loses(reason) => Dropped(v, reason)
    case Gains(g) => Granted(v, g)
  }

  function ViewAfter(happened: seq<Happening>): Holder
    decreases |happened|
  {
    if happened == [] then WATCHING
    else Then(ViewAfter(happened[..|happened| - 1]), happened[|happened| - 1])
  }

  /** A lease begins at 1, and what was last sent under it is at most one behind. */
  predicate NumbersOk(v: Holder) {
    if v.sentGeneration == v.generation then v.sentSequence + 1 >= v.sequence
    else v.generation != 0 ==> v.sequence == 1
  }

  lemma HearingKeepsNumbers(v: Holder, e: Event)
    requires NumbersOk(v)
    ensures NumbersOk(Hear(v, e).view)
    ensures Hear(v, e).view.sequence >= v.sequence
    ensures Hear(v, e).view.generation == v.generation || Hear(v, e).view.generation == 0
  {
  }

  lemma {:induction false} NumbersStayOk(happened: seq<Happening>)
    ensures NumbersOk(ViewAfter(happened))
    decreases |happened|
  {
    if happened != [] {
      var before, last := happened[..|happened| - 1], happened[|happened| - 1];
      NumbersStayOk(before);
      if last.Happens? {
        HearingKeepsNumbers(ViewAfter(before), last.e);
      }
    }
  }

  /**
   Over all a view can go through: while it has control it has one lease, which nothing replaces, and the
   lease's numbers only go up. It comes by a lease only without one, and then begins at 1.
   */
  lemma NumbersNeverGoBack(happened: seq<Happening>, next: Happening)
    ensures var v := ViewAfter(happened);
            var v' := Then(v, next);
            && (v.generation != 0 ==> v'.generation == v.generation || v'.generation == 0)
            && (v'.generation == v.generation != 0 ==> v'.sequence >= v.sequence)
            && (v'.generation != 0 && v.generation == 0 ==>
                  next.Gains? && v'.generation == next.generation && v'.sequence == 1 && v'.client.queue == [])
  {
    NumbersStayOk(happened);
    if next.Happens? {
      HearingKeepsNumbers(ViewAfter(happened), next.e);
    }
  }
}
