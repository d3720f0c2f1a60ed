/** The send queue in the form the view has it, changed in place; each method runs up to its next wait. */
module InputController {
  import opened Basics
  import opened Utf8
  import opened SendQueue

  class InputController {
    var queue: seq<seq<Byte>>
    var queued: int
    var running: bool
    var epoch: nat
    var chunk: nat
    var condition: Condition
    var refusal: Option<Reason>
    var discarded: int
    var sent: int
    var pending: Pending

    /** Everything ever taken in, and where it went. */
    ghost var books: Books

    ghost function View(): Client
      reads this
    {
      Client(queue, queued, running, epoch, chunk, condition, refusal, discarded, sent, pending)
    }

    ghost predicate Valid()
      reads this
    {
      ClientOk(View()) && BooksOk(View(), books)
    }

    constructor ()
      ensures Valid() && View() == IDLE && books.all == 0
    {
      queue, queued, running, epoch, chunk := [], 0, false, 0, CHUNK_BYTES;
      condition, refusal, discarded, sent, pending := AtRest, None, 0, 0, Nothing;
      books := NO_BOOKS;
    }

    /** How much of the queue goes out together. */
    method Count() returns (size: nat, take: nat)
      ensures take == Take(queue, chunk) && size == Total(queue[..take])
    {
      size, take := 0, 0;
      assert queue[..0] == [] && queue[0..] == queue;
      while take < |queue| && size + |queue[take]| <= chunk
        invariant take <= |queue| && size == Total(queue[..take]) && size <= chunk
        invariant Take(queue, chunk) == take + Take(queue[take..], chunk - size)
      {
        assert queue[take..][0] == queue[take] && queue[take..][1..] == queue[take + 1..];
        assert queue[..take + 1] == queue[..take] + [queue[take]];
        ConcatAppend(queue[..take], [queue[take]]);
        ConcatOne(queue[take]);
        size, take := size + |queue[take]|, take + 1;
      }
    }

    /** Put the next request in front of the queue, in one piece. */
    method BuildBatch() returns (batch: seq<Byte>)
      requires queue != [] && chunk >= 4 && AllNonempty(queue)
      modifies this`queue
      ensures queue == Batched(old(queue), chunk) && queue != [] && batch == queue[0]
      ensures AsMuchAsFits(old(queue), chunk, batch)
      ensures Concat(queue) == Concat(old(queue)) && 0 < |batch| <= chunk
    {
      BatchKeepsBytes(queue, chunk);
      BatchIsAsMuchAsFits(queue, chunk);
      ghost var whole := Batched(queue, chunk);
      assert whole[0] in whole;
      var size, take := Count();
      if take == 0 {
        var pieces := ChunkUtf8(queue[0], chunk);
        queue := pieces.value + queue[1..];
        batch := queue[0];
      } else {
        batch := [];
        var parts := queue[..take];
        for i := 0 to |parts|
          invariant batch == Concat(parts[..i]) && queue == old(queue)
        {
          assert parts[..i + 1] == parts[..i] + [parts[i]];
          ConcatAppend(parts[..i], [parts[i]]);
          ConcatOne(parts[i]);
          batch := batch + parts[i];
        }
        assert parts[..|parts|] == parts;
        queue := [batch] + queue[take..];
      }
    }

    /** One turn of the sending loop, from its condition to its next wait or its end. */
    method Turn() returns (request: Option<seq<Byte>>)
      requires AllNonempty(queue) && chunk >= 4
      modifies this`queue, this`running, this`pending, this`condition, this`refusal
      ensures SendQueue.Turn.Turn(View(), request) == NextRequest(old(View()))
    {
      if queue == [] {
        condition, refusal := AtRest, None;
        running, pending := false, Nothing;
        return None;
      }
      var batch := Start();
      return Some(batch);
    }

    /** Put the next request together and note that it is out. */
    method Start() returns (batch: seq<Byte>)
      requires queue != [] && AllNonempty(queue) && chunk >= 4
      modifies this`queue, this`running, this`pending, this`condition, this`refusal
      ensures SendQueue.Turn.Turn(View(), Some(batch)) == NextRequest(old(View()))
    {
      ghost var was := View();
      batch := BuildBatch();
      assert queue == Batched(was.queue, was.chunk);
      NoteOut(batch);
    }

    method NoteOut(batch: seq<Byte>)
      modifies this`running, this`pending, this`condition, this`refusal
      ensures View() == old(View()).(running := true, pending := Sending(batch, epoch, 0), refusal := None,
                                     condition := if queued > |batch| then Queued else Underway)
    {
      running := true;
      condition, refusal := if queued > |batch| then Queued else Underway, None;
      pending := Sending(batch, epoch, 0);
    }

    /** The end of the sending loop by any other way. */
    method Finish() returns (request: Option<seq<Byte>>)
      requires AllNonempty(queue) && chunk >= 4
      modifies this`queue, this`running, this`pending, this`condition, this`refusal
      ensures SendQueue.Turn.Turn(View(), request) == Leave(old(View()))
    {
      running, pending := false, Nothing;
      if queue == [] {
        return None;
      }
      request := Turn();
    }

    /** Text from the terminal; refused when control is not held or the queue is full. */
    method Submit(bytes: seq<Byte>, canSend: bool) returns (taken: bool, request: Option<seq<Byte>>)
      requires Valid()
      modifies this
      ensures Valid() && books == Entered(old(View()), old(books), Event.Submit(bytes, canSend))
      ensures SendQueue.Turn.Turn(View(), request) == Handle(old(View()), Event.Submit(bytes, canSend))
      ensures taken == SubmitAnswer(old(View()), bytes, canSend)
    {
      EventsConserveBytes(View(), books, Event.Submit(bytes, canSend));
      books := Entered(View(), books, Event.Submit(bytes, canSend));
      if bytes == [] {
        return true, None;
      }
      if !canSend {
        refusal := Some(ViewOnly);
        return false, None;
      }
      if queued + |bytes| > MAX_QUEUED_BYTES {
        refusal := Some(TooLarge);
        return false, None;
      }
      queue := queue + [bytes];
      queued := queued + |bytes|;
      refusal := None;
      taken, request := true, None;
      if running {
        condition := Queued;
      } else {
        request := Turn();
      }
    }

    /** A delivery ended, well or with a reason: go on, give up, or find that the view has moved on. */
    method Conclude(batch: seq<Byte>, itsEpoch: nat, failure: Option<Reason>) returns (request: Option<seq<Byte>>)
      requires AllNonempty(queue) && chunk >= 4 && (itsEpoch == epoch && failure.None? ==> queue != [])
      modifies this`queue, this`queued, this`running, this`pending, this`condition, this`refusal
      modifies this`epoch, this`discarded
      ensures SendQueue.Turn.Turn(View(), request) == Delivered(old(View()), batch, itsEpoch, failure)
    {
      if itsEpoch != epoch {
        request := Finish();
      } else if failure.Some? {
        discarded := discarded + queued - |batch|;
        queue, queued, epoch := [], 0, epoch + 1;
        condition, refusal := Uncertain, failure;
        request := Finish();
      } else {
        QueueTail(queue);
        queue, queued := queue[1..], queued - |batch|;
        request := Turn();
      }
    }

    /** The size of the next request follows how long this one took. */
    method Adapt(pace: Pace, size: nat)
      modifies this`chunk, this`sent
      ensures chunk == Paced(old(chunk), pace) && sent == old(sent) + size
    {
      sent := sent + size;
      match pace {
        case Slow => chunk := Max(MIN_CHUNK_BYTES, chunk / 2);
        case Fast => chunk := Min(CHUNK_BYTES, chunk * 2);
        case Middling =>
      }
    }

    /** The request that was out has ended. */
    method Answered(outcome: Outcome) returns (request: Option<seq<Byte>>)
      requires Valid() && pending.Sending?
      modifies this
      ensures Valid() && books == Entered(old(View()), old(books), Answer(outcome))
      ensures SendQueue.Turn.Turn(View(), request) == Handle(old(View()), Answer(outcome))
    {
      EventsConserveBytes(View(), books, Answer(outcome));
      books := Entered(View(), books, Answer(outcome));
      request := Hear(outcome);
    }

    /** Go on, pause before trying again, or give up. */
    method Hear(outcome: Outcome) returns (request: Option<seq<Byte>>)
      requires ClientOk(View()) && pending.Sending?
      modifies this`queue, this`queued, this`running, this`pending, this`condition, this`refusal, this`epoch,
               this`chunk, this`sent, this`discarded
      ensures SendQueue.Turn.Turn(View(), request) == Handle(old(View()), Answer(outcome))
    {
      var Sending(batch, itsEpoch, attempt) := pending;
      if outcome.Accepted? {
        Adapt(outcome.pace, |batch|);
        request := Conclude(batch, itsEpoch, None);
      } else if outcome.Busy? && attempt < BUSY_RETRIES && itsEpoch == epoch {
        pending := Sleeping(batch, itsEpoch, attempt);
        return None;
      } else {
        request := Conclude(batch, itsEpoch, Some(ReasonFor(outcome)));
      }
    }

    /** The pause before a retry is over. */
    method Retry() returns (request: Option<seq<Byte>>)
      requires Valid() && pending.Sleeping?
      modifies this`pending
      ensures Valid() && books == Entered(old(View()), old(books), Wake)
      ensures SendQueue.Turn.Turn(View(), request) == Handle(old(View()), Wake)
    {
      EventsConserveBytes(View(), books, Wake);
      pending := Sending(pending.batch, pending.epoch, pending.attempt + 1);
      return Some(pending.batch);
    }

    /** Forget the queue and begin a new epoch; a delivery that is out keeps the old one. */
    method Reset(reason: string)
      requires Valid()
      modifies this
      ensures Valid() && books == Entered(old(View()), old(books), Event.Reset(reason))
      ensures View() == Handle(old(View()), Event.Reset(reason)).client
    {
      EventsConserveBytes(View(), books, Event.Reset(reason));
      books := Entered(View(), books, Event.Reset(reason));
      epoch := epoch + 1;
      discarded := discarded + queued;
      queue, queued := [], 0;
      condition := AtRest;
      refusal := if reason == "reset" then None else Some(Told(reason));
    }
  }
}
