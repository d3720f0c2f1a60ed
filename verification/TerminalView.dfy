/** One view of a session, in the form `mountTerminal` has it: variables its serialised steps reassign. */
module TerminalView {
  import opened Basics
  import opened SendQueue
  import opened Leases
  import opened InputController
  import Follower
  import HistorySpec
  import KeeperInput

  class TerminalView {
    const input: InputController
    var generation: nat
    var sequence: nat
    var sentGeneration: nat
    var sentSequence: nat
    var offset: nat
    var incarnation: Option<nat>
    var blocked: bool
    var paused: bool
    var cols: HistorySpec.U16
    var rows: HistorySpec.U16

    /** What went into the terminal since its last reset. */
    ghost var parsed: seq<Follower.Cell>

    ghost function Hold(): Holder
      reads this, input
    {
      Holder.Holder(input.View(), generation, sequence, sentGeneration, sentSequence)
    }

    ghost function Watch(): Follower.View
      reads this
    {
      Follower.View(offset, incarnation, blocked, generation != 0, cols, rows, parsed)
    }

    ghost predicate Valid()
      reads this, input
    {
      input.Valid()
    }

    constructor (cols: HistorySpec.U16, rows: HistorySpec.U16)
      ensures Valid() && fresh(input) && Hold() == WATCHING && !paused
      ensures Watch() == Follower.View(0, None, false, false, cols, rows, [])
    {
      input := new InputController();
      generation, sequence, sentGeneration, sentSequence := 0, 1, 0, 1;
      offset, incarnation, blocked, paused := 0, None, false, false;
      this.cols, this.rows := cols, rows;
      parsed := [];
    }

    /** Number a request with the lease and sequence in force now. */
    method Send(data: Option<seq<Byte>>) returns (request: Option<KeeperInput.Request>)
      modifies this`sentGeneration, this`sentSequence
      ensures data.None? ==> request.None? && sentGeneration == old(sentGeneration) && sentSequence == old(sentSequence)
      ensures data.Some? ==>
                && request == Some(KeeperInput.Request(generation, sequence, data.value))
                && sentGeneration == generation && sentSequence == sequence
    {
      if data.None? {
        return None;
      }
      sentGeneration, sentSequence := generation, sequence;
      return Some(KeeperInput.Request(generation, sequence, data.value));
    }

    /** Typing, pasting or dropping; `visible` is whether the page is. */
    method Type(bytes: seq<Byte>, visible: bool) returns (taken: bool, request: Option<KeeperInput.Request>)
      requires Valid()
      modifies this`sentGeneration, this`sentSequence, input
      ensures Valid()
      ensures var canSend := visible && !paused && old(generation) != 0;
              && Heard(Hold(), request) == Hear(old(Hold()), Submit(bytes, canSend))
              && taken == SubmitAnswer(old(input.View()), bytes, canSend)
    {
      var data;
      taken, data := input.Submit(bytes, visible && !paused && generation != 0);
      request := Send(data);
    }

    /** The answer to the request that is out, or its failure. */
    method Answered(outcome: Outcome) returns (request: Option<KeeperInput.Request>)
      requires Valid() && input.pending.Sending?
      modifies this`generation, this`sequence, this`sentGeneration, this`sentSequence, input
      ensures Valid() && Heard(Hold(), request) == Hear(old(Hold()), Answer(outcome))
    {
      if outcome.Accepted? && sentGeneration == generation {
        sequence := sentSequence + 1;
      }
      var data := input.Answered(outcome);
      if input.condition == Uncertain {
        generation := 0;
      }
      request := Send(data);
    }

    method Retry() returns (request: Option<KeeperInput.Request>)
      requires Valid() && input.pending.Sleeping?
      modifies this`sentGeneration, this`sentSequence, input`pending
      ensures Valid() && Heard(Hold(), request) == Hear(old(Hold()), Wake)
    {
      var data := input.Retry();
      request := Send(data);
    }

    /** The keeper granted control. */
    method TakeControl(g: nat)
      requires Valid()
      modifies this`generation, this`sequence, input
      ensures Valid() && Hold() == Granted(old(Hold()), g)
    {
      if generation != 0 {
        return;
      }
      generation, sequence := g, 1;
      input.Reset("reset");
    }

    /** Released, fenced, or a resize that could not be confirmed. */
    method Drop(reason: string)
      requires Valid()
      modifies this`generation, input
      ensures Valid() && Hold() == Dropped(old(Hold()), reason)
    {
      generation := 0;
      input.Reset(reason);
    }

    /** Pausing resets the send queue and keeps the lease. */
    method SetPaused(value: bool)
      requires Valid()
      modifies this`paused, input
      ensures Valid() && paused == value
      ensures Hold() == if value then Hear(old(Hold()), Reset("paused")).view else old(Hold())
    {
      paused := value;
      if value {
        input.Reset("paused");
      }
    }

    /** A frame has arrived. */
    method HandleFrame(r: Follower.Reply)
      requires Valid()
      modifies this`generation, this`offset, this`incarnation, this`blocked, this`cols, this`rows, this`parsed, input
      ensures Valid() && Watch() == Follower.Handled(old(Watch()), r)
      ensures Hold() == if old(incarnation).Some? && old(incarnation).value != r.incarnation then
                          Dropped(old(Hold()), "stream-restarted")
                        else if r.frame.chunk.gap then Dropped(old(Hold()), "history-gap")
                        else old(Hold())
    {
      if incarnation.Some? && incarnation.value != r.incarnation {
        Drop("stream-restarted");
        offset, parsed, incarnation := 0, [], Some(r.incarnation);
        return;
      }
      incarnation := Some(r.incarnation);
      if r.frame.chunk.gap {
        blocked := true;
        Drop("history-gap");
        return;
      }
      var grid := r.frame.geometry;
      if generation == 0 && grid.cols > 0 && grid.rows > 0 && (cols != grid.cols || rows != grid.rows) {
        cols, rows := grid.cols, grid.rows;
      }
      parsed := parsed + Follower.Cells(cols, rows, r.frame.chunk.data);
      offset := r.frame.chunk.next;
    }
  }
}
