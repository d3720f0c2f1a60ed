/**
 The send queue as values: what is queued, what is out, and what each event
 does to it. An event runs the controller's code up to its next wait; `request` is what it then sends.
 */
module SendQueue {
  import opened Basics
  import opened Utf8

  const CHUNK_BYTES: nat := 2048
  const MIN_CHUNK_BYTES: nat := 256
  const MAX_QUEUED_BYTES: nat := 1024 * 1024
  const BUSY_RETRIES: nat := 6

  /** The delivery that is being waited for: a request that is out, or a pause before retrying it. */
  datatype Pending =
    | Nothing
    | Sending(batch: seq<Byte>, epoch: nat, attempt: nat)
    | Sleeping(batch: seq<Byte>, epoch: nat, attempt: nat)

  /** The condition and the refusal a view shows, and in which words. */
  datatype Condition = AtRest | Queued | Underway | Uncertain

  function Shown(c: Condition): string {
    match c
    case AtRest => "idle"
    case Queued => "queued"
    case Underway => "sending"
    case Uncertain => "uncertain"
  }

  datatype Reason = ViewOnly | TooLarge | WasFenced | WasBusy | WasUnknown | Told(words: string)

  function Said(r: Reason): string {
    match r
    case ViewOnly => "view-only"
    case TooLarge => "too-large"
    case WasFenced => "fenced"
    case WasBusy => "busy"
    case WasUnknown => "unknown-outcome"
    case Told(words) => words
  }

  datatype Client = Client(queue: seq<seq<Byte>>, queued: int, running: bool, epoch: nat, chunk: nat,
                           condition: Condition, refusal: Option<Reason>,
                           discarded: int, sent: int, pending: Pending)

  const IDLE := Client([], 0, false, 0, CHUNK_BYTES, AtRest, None, 0, 0, Nothing)

  /** How long a request took, against the slow and fast marks. */
  datatype Pace = Slow | Middling | Fast

  datatype Outcome = Accepted(pace: Pace) | Busy | Fenced | Failed

  datatype Event =
    | Submit(bytes: seq<Byte>, canSend: bool)
    | Answer(outcome: Outcome)
    | Wake
    | Reset(reason: string)

  datatype Turn = Turn(client: Client, request: Option<seq<Byte>>)

  // ---------------------------------------------------------------- building a request

  /** How many queued pieces fit into one request. */
  function Take(queue: seq<seq<Byte>>, room: nat): (n: nat)
    ensures n <= |queue|
  {
    if queue == [] || |queue[0]| > room then 0 else 1 + Take(queue[1..], room - |queue[0]|)
  }

  /** The queue with its next request in front, in one piece. */
  function Batched(queue: seq<seq<Byte>>, chunk: nat): (queue': seq<seq<Byte>>)
    requires queue != [] && chunk > 0
    ensures queue' != []
  {
    var n := Take(queue, chunk);
    if n == 0 then Chunks(queue[0], chunk) + queue[1..] else [Concat(queue[..n])] + queue[n..]
  }

  /** The head of the sending loop: put the next request in front and send it, or stop. */
  function NextRequest(c: Client): Turn {
    if c.queue == [] || c.chunk == 0 then
      Turn(c.(running := false, pending := Nothing, condition := AtRest, refusal := None), None)
    else
      var queue := Batched(c.queue, c.chunk);
      Turn(c.(queue := queue, running := true, pending := Sending(queue[0], c.epoch, 0),
              condition := if c.queued > |queue[0]| then Queued else Underway, refusal := None),
           Some(queue[0]))
  }

  /** Leaving the loop for another reason: go round again if something is waiting. */
  function Leave(c: Client): Turn {
    var stopped := c.(running := false, pending := Nothing);
    if c.queue == [] then Turn(stopped, None) else NextRequest(stopped)
  }

  function Paced(chunk: nat, pace: Pace): nat {
    match pace
    case Slow => Max(MIN_CHUNK_BYTES, chunk / 2)
    case Fast => Min(CHUNK_BYTES, chunk * 2)
    case Middling => chunk
  }

  function ReasonFor(o: Outcome): Reason {
    match o case Fenced => WasFenced case Busy => WasBusy case _ => WasUnknown
  }

  /** After a delivery ended: go on, or give up and say so; a delivery of a past epoch is nobody's. */
  function Delivered(c: Client, batch: seq<Byte>, epoch: nat, failure: Option<Reason>): Turn {
    if epoch != c.epoch then Leave(c)
    else if failure.Some? then
      Leave(c.(discarded := c.discarded + c.queued - |batch|, queue := [], queued := 0, epoch := c.epoch + 1,
               condition := Uncertain, refusal := failure))
    else NextRequest(c.(queue := if c.queue == [] then [] else c.queue[1..], queued := c.queued - |batch|))
  }

  function Handle(c: Client, e: Event): Turn {
    match e
    case Submit(bytes, canSend) =>
      if bytes == [] then Turn(c, None)
      else if !canSend then Turn(c.(refusal := Some(ViewOnly)), None)
      else if c.queued + |bytes| > MAX_QUEUED_BYTES then Turn(c.(refusal := Some(TooLarge)), None)
      else
        var queued := c.(queue := c.queue + [bytes], queued := c.queued + |bytes|, refusal := None);
        if c.running then Turn(queued.(condition := Queued), None) else NextRequest(queued)
    case Answer(outcome) =>
      if !c.pending.Sending? then Turn(c, None)
      else
        var Sending(batch, epoch, attempt) := c.pending;
        (match outcome
         case Accepted(pace) =>
           Delivered(c.(chunk := Paced(c.chunk, pace), sent := c.sent + |batch|), batch, epoch, None)
         case _ =>
           if outcome.Busy? && attempt < BUSY_RETRIES && epoch == c.epoch then
             Turn(c.(pending := Sleeping(batch, epoch, attempt)), None)
           else Delivered(c, batch, epoch, Some(ReasonFor(outcome))))
    case Wake =>
      if !c.pending.Sleeping? then Turn(c, None)
      else
        Turn(c.(pending := Sending(c.pending.batch, c.pending.epoch, c.pending.attempt + 1)), Some(c.pending.batch))
    case Reset(reason) =>
      Turn(c.(epoch := c.epoch + 1, discarded := c.discarded + c.queued, queue := [], queued := 0,
              condition := AtRest, refusal := if reason == "reset" then None else Some(Told(reason))),
           None)
  }

  predicate TakesIn(c: Client, e: Event) {
    e.Submit? && e.bytes != [] && e.canSend && c.queued + |e.bytes| <= MAX_QUEUED_BYTES
  }

  /** What `submit` answers: text it did not take in is refused, except for no text at all. */
  function SubmitAnswer(c: Client, bytes: seq<Byte>, canSend: bool): bool {
    bytes == [] || TakesIn(c, Submit(bytes, canSend))
  }

  // ---------------------------------------------------------------- accounts

  /**
   What was taken in and what was acknowledged in this epoch, and over all epochs how many bytes were
   taken in, acknowledged while their epoch lasted, and left in doubt.
   */
  datatype Books = Books(accepted: seq<Byte>, acked: seq<Byte>, all: nat, ackedAll: nat, inDoubt: nat)

  const NO_BOOKS := Books([], [], 0, 0, 0)

  /** The batch an answer is for, while its epoch lasts. */
  predicate AnswersCurrent(c: Client, e: Event) {
    e.Answer? && c.pending.Sending? && c.pending.epoch == c.epoch
  }

  predicate GivesUp(c: Client, e: Event) {
    AnswersCurrent(c, e) && !e.outcome.Accepted? && !(e.outcome.Busy? && c.pending.attempt < BUSY_RETRIES)
  }

  function Entered(c: Client, b: Books, e: Event): Books {
    if TakesIn(c, e) then b.(accepted := b.accepted + e.bytes, all := b.all + |e.bytes|)
    else if AnswersCurrent(c, e) && e.outcome.Accepted? then
      b.(acked := b.acked + c.pending.batch, ackedAll := b.ackedAll + |c.pending.batch|)
    else if GivesUp(c, e) then b.(accepted := [], acked := [], inDoubt := b.inDoubt + |c.pending.batch|)
    else if e.Reset? then b.(accepted := [], acked := [])
    else b
  }

  function Total(queue: seq<seq<Byte>>): nat {
    |Concat(queue)|
  }

  predicate AllNonempty(queue: seq<seq<Byte>>) {
    forall p :: p in queue ==> p != []
  }

  /** At every wait: exact sizes, one delivery at most, and nothing stranded. */
  predicate ClientOk(c: Client) {
    && c.queued == Total(c.queue) && c.queued <= MAX_QUEUED_BYTES && AllNonempty(c.queue)
    && MIN_CHUNK_BYTES <= c.chunk <= CHUNK_BYTES
    && (c.running <==> !c.pending.Nothing?)
    && (!c.running ==> c.queue == []) && (c.condition == Uncertain ==> !c.running)
    && (!c.pending.Nothing? ==>
          && 0 < |c.pending.batch| <= CHUNK_BYTES && c.pending.epoch <= c.epoch
          && c.pending.attempt <= BUSY_RETRIES && (c.pending.Sleeping? ==> c.pending.attempt < BUSY_RETRIES)
          && (c.pending.epoch == c.epoch ==> c.queue != [] && c.queue[0] == c.pending.batch))
  }

  /** Nothing taken in is lost or made up, in order within the epoch and in number over all epochs. */
  predicate BooksOk(c: Client, b: Books) {
    && b.accepted == b.acked + Concat(c.queue)
    && b.all == b.ackedAll + c.discarded + b.inDoubt + c.queued
  }

  lemma {:induction false} TakeFits(queue: seq<seq<Byte>>, room: nat)
    ensures var n := Take(queue, room);
            && Total(queue[..n]) <= room
            && (n == 0 && queue != [] ==> |queue[0]| > room)
    decreases |queue|
  {
    if queue != [] && |queue[0]| <= room {
      TakeFits(queue[1..], room - |queue[0]|);
      var n := Take(queue, room);
      assert queue[..n][1..] == queue[1..][..n - 1];
    }
  }

  lemma ConcatNonempty(queue: seq<seq<Byte>>)
    requires queue != [] && queue[0] != []
    ensures Concat(queue) != []
  {
  }

  /** Making the next request keeps every byte in its place; the request is nonempty and fits. */
  lemma BatchKeepsBytes(queue: seq<seq<Byte>>, chunk: nat)
    requires queue != [] && chunk > 0 && AllNonempty(queue)
    ensures var queue' := Batched(queue, chunk);
            && queue' != [] && Concat(queue') == Concat(queue) && AllNonempty(queue') && |queue'[0]| <= chunk
  {
    var n := Take(queue, chunk);
    TakeFits(queue, chunk);
    assert queue[0] in queue;
    QueueTail(queue);
    if n == 0 {
      ChunksReassemble(queue[0], chunk);
      ConcatAppend(Chunks(queue[0], chunk), queue[1..]);
      assert Chunks(queue[0], chunk)[0] in Chunks(queue[0], chunk);
    } else {
      assert queue[..n][0] == queue[0];
      assert forall p :: p in queue[n..] ==> p in queue;
      assert queue == queue[..n] + queue[n..];
      ConcatAppend(queue[..n], queue[n..]);
      ConcatAppend([Concat(queue[..n])], queue[n..]);
      ConcatOne(Concat(queue[..n]));
      ConcatNonempty(queue[..n]);
    }
  }

  lemma NextRequestKeeps(c: Client)
    requires c.queued == Total(c.queue) && c.queued <= MAX_QUEUED_BYTES && AllNonempty(c.queue)
    requires MIN_CHUNK_BYTES <= c.chunk <= CHUNK_BYTES
    ensures var t := NextRequest(c);
            && ClientOk(t.client) && Concat(t.client.queue) == Concat(c.queue)
            && t.client.epoch == c.epoch && t.client.queued == c.queued && t.client.discarded == c.discarded
            && (t.request.Some? <==> c.queue != [])
            && (t.request.Some? ==>
                  t.client.pending == Sending(t.request.value, c.epoch, 0) && |t.request.value| <= c.chunk)
  {
    if c.queue != [] {
      BatchKeepsBytes(c.queue, c.chunk);
      var queue := Batched(c.queue, c.chunk);
      assert queue[0] in queue;
    }
  }

  lemma QueueTail(queue: seq<seq<Byte>>)
    requires queue != [] && AllNonempty(queue)
    ensures Concat(queue) == queue[0] + Concat(queue[1..]) && AllNonempty(queue[1..])
  {
    assert forall p :: p in queue[1..] ==> p in queue;
  }

  lemma DeliveredKeeps(c: Client, batch: seq<Byte>, epoch: nat, failure: Option<Reason>)
    requires ClientOk(c) && c.pending.Sending? && c.pending.batch == batch && c.pending.epoch == epoch
    ensures var t := Delivered(c, batch, epoch, failure);
            && ClientOk(t.client)
            && (epoch != c.epoch ==>
                  Concat(t.client.queue) == Concat(c.queue) && t.client.discarded == c.discarded)
            && (epoch == c.epoch && failure.None? ==>
                  Concat(c.queue) == batch + Concat(t.client.queue) && t.client.discarded == c.discarded)
            && (epoch == c.epoch && failure.Some? ==>
                  && t.client.queue == [] && t.request.None?
                  && t.client.discarded == c.discarded + c.queued - |batch|)
  {
    if epoch != c.epoch {
      NextRequestKeeps(c.(running := false, pending := Nothing));
    } else if failure.None? {
      QueueTail(c.queue);
      NextRequestKeeps(c.(queue := c.queue[1..], queued := c.queued - |batch|));
    }
  }

  /** Text that is taken in: at an idle client it goes out at once, else it waits behind what is out. */
  lemma TakenInKeeps(c: Client, bytes: seq<Byte>)
    requires ClientOk(c) && TakesIn(c, Submit(bytes, true))
    ensures var t := Handle(c, Submit(bytes, true));
            && ClientOk(t.client) && Concat(t.client.queue) == Concat(c.queue) + bytes
            && t.client.epoch == c.epoch && t.client.discarded == c.discarded
            && t.client.queued == c.queued + |bytes|
            && (if c.running then t.request.None? && t.client.pending == c.pending
                else t.request.Some? && t.client.pending == Sending(t.request.value, c.epoch, 0))
  {
    ConcatAppend(c.queue, [bytes]);
    ConcatOne(bytes);
    if !c.running {
      NextRequestKeeps(c.(queue := c.queue + [bytes], queued := c.queued + |bytes|, refusal := None));
    }
  }

  lemma SubmitKeeps(c: Client, b: Books, e: Event)
    requires ClientOk(c) && BooksOk(c, b) && e.Submit?
    ensures ClientOk(Handle(c, e).client) && BooksOk(Handle(c, e).client, Entered(c, b, e))
  {
    if TakesIn(c, e) {
      TakenInKeeps(c, e.bytes);
      JoinsAssociate(b.acked, Concat(c.queue), e.bytes);
    }
  }

  lemma AcceptedIs(c: Client, pace: Pace)
    requires ClientOk(c) && c.pending.Sending?
    ensures var paced := c.(chunk := Paced(c.chunk, pace), sent := c.sent + |c.pending.batch|);
            && Handle(c, Answer(Accepted(pace))) == Delivered(paced, c.pending.batch, c.pending.epoch, None)
            && ClientOk(paced)
  {
  }

  lemma AcceptedKeeps(c: Client, b: Books, pace: Pace)
    requires ClientOk(c) && BooksOk(c, b) && c.pending.Sending?
    ensures var e := Answer(Accepted(pace));
            ClientOk(Handle(c, e).client) && BooksOk(Handle(c, e).client, Entered(c, b, e))
  {
    var Sending(batch, epoch, attempt) := c.pending;
    var t := Handle(c, Answer(Accepted(pace)));
    AcceptedIs(c, pace);
    DeliveredKeeps(c.(chunk := Paced(c.chunk, pace), sent := c.sent + |batch|), batch, epoch, None);
    if epoch == c.epoch {
      JoinsAssociate(b.acked, batch, Concat(t.client.queue));
    }
  }

  lemma FailedKeeps(c: Client, b: Books, e: Event)
    requires ClientOk(c) && BooksOk(c, b) && c.pending.Sending? && e.Answer? && !e.outcome.Accepted?
    ensures ClientOk(Handle(c, e).client) && BooksOk(Handle(c, e).client, Entered(c, b, e))
  {
    var Sending(batch, epoch, attempt) := c.pending;
    if !(e.outcome.Busy? && attempt < BUSY_RETRIES && epoch == c.epoch) {
      DeliveredKeeps(c, batch, epoch, Some(ReasonFor(e.outcome)));
    }
  }

  /** Every event, at every wait: sizes exact, one delivery at most, no byte lost, reordered or invented. */
  lemma EventsConserveBytes(c: Client, b: Books, e: Event)
    requires ClientOk(c) && BooksOk(c, b)
    ensures ClientOk(Handle(c, e).client) && BooksOk(Handle(c, e).client, Entered(c, b, e))
  {
    match e {
      case Submit(_, _) => SubmitKeeps(c, b, e);
      case Answer(outcome) =>
        if c.pending.Sending? {
          if outcome.Accepted? {
            AcceptedKeeps(c, b, outcome.pace);
          } else {
            FailedKeeps(c, b, e);
          }
        }
      case Wake =>
      case Reset(_) =>
    }
  }

  /** The client alone: every event leaves it sound. */
  lemma EventsKeepClient(c: Client, e: Event)
    requires ClientOk(c)
    ensures ClientOk(Handle(c, e).client)
  {
    match e {
      case Submit(bytes, _) =>
        if TakesIn(c, e) {
          TakenInKeeps(c, bytes);
        }
      case Answer(outcome) =>
        if c.pending.Sending? {
          AnswersKeepClient(c, outcome);
        }
      case Wake =>
      case Reset(_) =>
    }
  }

  lemma AnswersKeepClient(c: Client, outcome: Outcome)
    requires ClientOk(c) && c.pending.Sending?
    ensures ClientOk(Handle(c, Answer(outcome)).client)
  {
    var Sending(batch, epoch, attempt) := c.pending;
    if outcome.Accepted? {
      AcceptedIs(c, outcome.pace);
      DeliveredKeeps(c.(chunk := Paced(c.chunk, outcome.pace), sent := c.sent + |batch|), batch, epoch, None);
    } else if !(outcome.Busy? && attempt < BUSY_RETRIES && epoch == c.epoch) {
      DeliveredKeeps(c, batch, epoch, Some(ReasonFor(outcome)));
    }
  }

  /** The answer to a delivery of a past epoch changes nothing that waits. */
  lemma StaleAnswersKeepTheQueue(c: Client, outcome: Outcome)
    requires ClientOk(c) && c.pending.Sending? && c.pending.epoch != c.epoch
    ensures var c' := Handle(c, Answer(outcome)).client;
            && Concat(c'.queue) == Concat(c.queue) && c'.epoch == c.epoch
            && (c'.pending.Sending? ==> c'.pending.epoch == c.epoch) && !c'.pending.Sleeping?
  {
    var Sending(batch, epoch, attempt) := c.pending;
    var c1 := if outcome.Accepted? then c.(chunk := Paced(c.chunk, outcome.pace), sent := c.sent + |batch|) else c;
    NextRequestKeeps(c1.(running := false, pending := Nothing));
  }

  /** Success in its own epoch takes exactly the acknowledged batch off the queue. */
  lemma SuccessTakesTheBatch(c: Client, pace: Pace)
    requires ClientOk(c) && c.pending.Sending? && c.pending.epoch == c.epoch
    ensures var c' := Handle(c, Answer(Accepted(pace))).client;
            && Concat(c.queue) == c.pending.batch + Concat(c'.queue) && c'.epoch == c.epoch
            && (c'.pending.Sending? ==> c'.pending.epoch == c.epoch) && !c'.pending.Sleeping?
  {
    var batch := c.pending.batch;
    var paced := c.(chunk := Paced(c.chunk, pace), sent := c.sent + |batch|);
    AcceptedIs(c, pace);
    QueueTail(c.queue);
    NextRequestKeeps(paced.(queue := c.queue[1..], queued := c.queued - |batch|));
  }

  function After(c: Client, events: seq<Event>): Client {
    if events == [] then c else Handle(After(c, events[..|events| - 1]), events[|events| - 1]).client
  }

  function BooksAfter(c: Client, events: seq<Event>): Books {
    if events == [] then NO_BOOKS
    else
      var before := events[..|events| - 1];
      Entered(After(c, before), BooksAfter(c, before), events[|events| - 1])
  }

  /** Over whole runs, with any outcomes and any resets. */
  lemma {:induction false} RunsConserveBytes(events: seq<Event>)
    ensures ClientOk(After(IDLE, events)) && BooksOk(After(IDLE, events), BooksAfter(IDLE, events))
    decreases |events|
  {
    if events != [] {
      var before := events[..|events| - 1];
      RunsConserveBytes(before);
      EventsConserveBytes(After(IDLE, before), BooksAfter(IDLE, before), events[|events| - 1]);
    }
  }

  /** Nothing is dropped silently: text is taken in whole, or refused whole with the reason said. */
  lemma RefusalsAreWholeAndSaid(c: Client, bytes: seq<Byte>, canSend: bool)
    requires ClientOk(c)
    ensures SubmitAnswer(c, bytes, canSend) <==> bytes == [] || (canSend && c.queued + |bytes| <= 1024 * 1024)
    ensures var c' := Handle(c, Submit(bytes, canSend)).client;
            if SubmitAnswer(c, bytes, canSend) then
              Concat(c'.queue) == Concat(c.queue) + bytes && c'.queued == c.queued + |bytes|
            else
              && c' == c.(refusal := Some(if canSend then TooLarge else ViewOnly))
              && (canSend ==> c.queued + |bytes| > MAX_QUEUED_BYTES)
  {
    if TakesIn(c, Submit(bytes, canSend)) {
      TakenInKeeps(c, bytes);
    }
  }

  // ---------------------------------------------------------------- a request takes all it can

  /** The first pieces of the queue, as many as fit together; of a piece that does not fit, as much as fits. */
  predicate AsMuchAsFits(queue: seq<seq<Byte>>, chunk: nat, request: seq<Byte>)
    requires queue != []
  {
    if |queue[0]| > chunk then LongestPiece(queue[0], chunk, request)
    else exists n :: 0 < n <= |queue| && FitsExactly(queue, chunk, request, n)
  }

  predicate FitsExactly(queue: seq<seq<Byte>>, chunk: nat, request: seq<Byte>, n: nat)
    requires n <= |queue|
  {
    request == Concat(queue[..n]) && |request| <= chunk && (n < |queue| ==> |Concat(queue[..n + 1])| > chunk)
  }

  lemma {:induction false} TakeStopsWhenFull(queue: seq<seq<Byte>>, room: nat)
    ensures var n := Take(queue, room);
            n < |queue| ==> Total(queue[..n + 1]) > room
    decreases |queue|
  {
    if queue != [] {
      if |queue[0]| > room {
        assert queue[..1] == [queue[0]];
        ConcatOne(queue[0]);
      } else {
        TakeStopsWhenFull(queue[1..], room - |queue[0]|);
        var n := Take(queue, room);
        if n < |queue| {
          assert queue[..n + 1][1..] == queue[1..][..n];
        }
      }
    }
  }

  lemma BatchIsAsMuchAsFits(queue: seq<seq<Byte>>, chunk: nat)
    requires queue != [] && chunk > 0 && AllNonempty(queue)
    ensures AsMuchAsFits(queue, chunk, Batched(queue, chunk)[0])
  {
    var n := Take(queue, chunk);
    TakeFits(queue, chunk);
    if n == 0 {
      assert queue[0] in queue;
      CutIsLongest(queue[0], chunk);
      ChunksUnfold(queue[0], chunk, CutPoint(queue[0], chunk));
    } else {
      TakeStopsWhenFull(queue, chunk);
      assert FitsExactly(queue, chunk, Concat(queue[..n]), n);
    }
  }

  /** What waits when an event leaves nothing out: the next request is made of it. */
  function NextInLine(c: Client, e: Event): seq<seq<Byte>> {
    if TakesIn(c, e) && !c.running then c.queue + [e.bytes]
    else if e.Answer? && c.pending.Sending? then
      if c.pending.epoch != c.epoch then c.queue
      else if e.outcome.Accepted? && c.queue != [] then c.queue[1..] else []
    else []
  }

  /**
   At every wait, whatever happens: except for a retry, a request goes out exactly when something is next in
   line, and it takes as much of that as one request may. Nothing that would fit is left for later.
   */
  lemma WhatPiledUpGoesTogether(c: Client, e: Event)
    requires ClientOk(c) && !e.Wake?
    ensures var t, next := Handle(c, e), NextInLine(c, e);
            && (t.request.Some? <==> next != [])
            && (t.request.Some? ==> AsMuchAsFits(next, t.client.chunk, t.request.value))
  {
    var next := NextInLine(c, e);
    if next != [] {
      NextIsNonempty(c, e);
      BatchIsAsMuchAsFits(next, Handle(c, e).client.chunk);
    }
  }

  lemma NextIsNonempty(c: Client, e: Event)
    requires ClientOk(c) && !e.Wake? && NextInLine(c, e) != []
    ensures AllNonempty(NextInLine(c, e)) && Handle(c, e).client.chunk >= MIN_CHUNK_BYTES
    ensures Handle(c, e).request == Some(Batched(NextInLine(c, e), Handle(c, e).client.chunk)[0])
  {
    if c.queue != [] {
      QueueTail(c.queue);
    }
  }

  // ---------------------------------------------------------------- sizes, conditions and reasons

  /** A slow answer halves the size, a fast one doubles it, each down or up to its bound; nothing else does. */
  predicate OneNotch(before: nat, after: nat, e: Event, counted: bool) {
    if counted && e.Answer? && e.outcome == Accepted(Slow) then
      if before == MIN_CHUNK_BYTES then after == before else 2 * after == before
    else if counted && e.Answer? && e.outcome == Accepted(Fast) then
      if before == CHUNK_BYTES then after == before else after == 2 * before
    else after == before
  }

  predicate FourSizes(chunk: nat) {
    chunk == 256 || chunk == 512 || chunk == 1024 || chunk == 2048
  }

  /** Going on or leaving the loop moves no size. */
  lemma DeliveredKeepsChunk(c: Client, batch: seq<Byte>, epoch: nat, failure: Option<Reason>)
    ensures Delivered(c, batch, epoch, failure).client.chunk == c.chunk
  {
  }

  lemma AnswersMoveChunk(c: Client, outcome: Outcome)
    requires FourSizes(c.chunk) && c.pending.Sending?
    ensures OneNotch(c.chunk, Handle(c, Answer(outcome)).client.chunk, Answer(outcome), true)
  {
    var Sending(batch, epoch, attempt) := c.pending;
    if outcome.Accepted? {
      DeliveredKeepsChunk(c.(chunk := Paced(c.chunk, outcome.pace), sent := c.sent + |batch|), batch, epoch, None);
    } else {
      DeliveredKeepsChunk(c, batch, epoch, Some(ReasonFor(outcome)));
    }
  }

  lemma ChunkMoves(c: Client, e: Event)
    requires FourSizes(c.chunk)
    ensures OneNotch(c.chunk, Handle(c, e).client.chunk, e, c.pending.Sending?)
  {
    if e.Answer? && c.pending.Sending? {
      AnswersMoveChunk(c, e.outcome);
    }
  }

  /** Over all runs the request size is one of four, and moves by one notch at a time. */
  lemma {:induction false} SizesMoveByNotches(events: seq<Event>, e: Event)
    ensures var c := After(IDLE, events);
            FourSizes(c.chunk) && OneNotch(c.chunk, Handle(c, e).client.chunk, e, c.pending.Sending?)
    decreases |events|
  {
    if events != [] {
      SizesMoveByNotches(events[..|events| - 1], events[|events| - 1]);
    }
    ChunkMoves(After(IDLE, events), e);
  }

  /** What is queued and not out. */
  function Behind(c: Client): int {
    if !c.pending.Nothing? && c.pending.epoch == c.epoch then c.queued - |c.pending.batch| else c.queued
  }

  /** "sending" or "queued" by whether something waits behind what is out; at rest or uncertain otherwise. */
  predicate ConditionIsTrue(c: Client) {
    if !c.running then c.condition == AtRest || c.condition == Uncertain
    else if Behind(c) > 0 then c.condition == Queued
    else if !c.pending.Nothing? && c.pending.epoch == c.epoch then c.condition == Underway
    else c.condition == AtRest
  }

  lemma NextRequestIsTold(c: Client)
    requires c.queued == Total(c.queue) && AllNonempty(c.queue) && c.chunk > 0
    ensures ConditionIsTrue(NextRequest(c).client)
  {
    if c.queue != [] {
      BatchKeepsBytes(c.queue, c.chunk);
    }
  }

  lemma EventsKeepConditions(c: Client, e: Event)
    requires ClientOk(c) && ConditionIsTrue(c)
    ensures ConditionIsTrue(Handle(c, e).client)
  {
    match e {
      case Submit(bytes, _) =>
        if TakesIn(c, e) && !c.running {
          ConcatAppend(c.queue, [bytes]);
          ConcatOne(bytes);
          NextRequestIsTold(c.(queue := c.queue + [bytes], queued := c.queued + |bytes|, refusal := None));
        }
      case Answer(outcome) =>
        if c.pending.Sending? {
          AnswersKeepConditions(c, outcome);
        }
      case Wake =>
      case Reset(_) =>
    }
  }

  lemma AnswersKeepConditions(c: Client, outcome: Outcome)
    requires ClientOk(c) && ConditionIsTrue(c) && c.pending.Sending?
    ensures ConditionIsTrue(Handle(c, Answer(outcome)).client)
  {
    var Sending(batch, epoch, attempt) := c.pending;
    var c1 := if outcome.Accepted? then c.(chunk := Paced(c.chunk, outcome.pace), sent := c.sent + |batch|) else c;
    if epoch != c.epoch {
      NextRequestIsTold(c1.(running := false, pending := Nothing));
    } else if outcome.Accepted? {
      QueueTail(c.queue);
      NextRequestIsTold(c1.(queue := c.queue[1..], queued := c.queued - |batch|));
    }
  }

  /** Over all runs the condition shown is the true one. */
  lemma {:induction false} ConditionsAreTrue(events: seq<Event>)
    ensures ConditionIsTrue(After(IDLE, events))
    decreases |events|
  {
    if events != [] {
      var before := events[..|events| - 1];
      ConditionsAreTrue(before);
      RunsConserveBytes(before);
      EventsKeepConditions(After(IDLE, before), events[|events| - 1]);
    }
  }

  /** While its epoch lasts a busy keeper is tried again with the same bytes, six times and no more. */
  lemma BusyIsTriedAgain(c: Client)
    requires ClientOk(c) && c.pending.Sending? && c.pending.epoch == c.epoch
    ensures var busy := Handle(c, Answer(Busy)).client;
            if c.pending.attempt < 6 then
              && busy == c.(pending := busy.pending) && busy.pending.Sleeping?
              && Handle(busy, Wake).request == Some(c.pending.batch)
              && Handle(busy, Wake).client.pending == Sending(c.pending.batch, c.epoch, c.pending.attempt + 1)
            else busy.condition == Uncertain && !busy.running && busy.queue == []
  {
  }

  /**
   A delivery that is given up in its epoch is said to be uncertain and why, in the words for what went
   wrong; what waited behind it is dropped and counted, and nothing more goes out.
   */
  lemma FailuresAreSaid(c: Client, e: Event)
    requires ClientOk(c) && GivesUp(c, e)
    ensures var t := Handle(c, e);
            && t.client.condition == Uncertain && t.client.refusal.Some? && t.request.None?
            && Said(t.client.refusal.value) ==
               (if e.outcome.Fenced? then "fenced" else if e.outcome.Busy? then "busy" else "unknown-outcome")
            && t.client.queue == [] && t.client.discarded == c.discarded + Behind(c) && t.client.epoch == c.epoch + 1
  {
  }

  /**
   What is shown as refused has a cause: text that was refused, a delivery given up, or a reset that gave its
   reason. It is taken back when text is taken in, when a new request goes out and by a plain reset.
   */
  lemma RefusalsHaveACause(c: Client, e: Event)
    requires ClientOk(c)
    ensures var after := Handle(c, e);
            && (after.client.refusal.Some? && after.client.refusal != c.refusal ==>
                  GivesUp(c, e) || (e.Submit? && !SubmitAnswer(c, e.bytes, e.canSend)) || e.Reset?)
            && (e.Reset? && e.reason != "reset" ==>
                  after.client.refusal.Some? && Said(after.client.refusal.value) == e.reason)
            && (TakesIn(c, e) || (after.request.Some? && !e.Wake?) || e == Reset("reset") ==>
                  after.client.refusal.None?)
  {
  }

  /** What a run of round trips does to the request size. */
  function ChunkAfter(chunk: nat, paces: seq<Pace>): nat
    decreases |paces|
  {
    if paces == [] then chunk else ChunkAfter(Paced(chunk, paces[0]), paces[1..])
  }

  /** Three slow answers bring any size down to the least, three fast ones back up to the most. */
  lemma SlowAndFastConverge(chunk: nat)
    requires MIN_CHUNK_BYTES <= chunk <= CHUNK_BYTES
    ensures ChunkAfter(chunk, [Slow, Slow, Slow]) == MIN_CHUNK_BYTES
    ensures ChunkAfter(chunk, [Fast, Fast, Fast]) == CHUNK_BYTES
  {
    assert [Slow, Slow, Slow][1..] == [Slow, Slow] && [Slow, Slow][1..] == [Slow] && [Slow][1..] == [];
    assert [Fast, Fast, Fast][1..] == [Fast, Fast] && [Fast, Fast][1..] == [Fast] && [Fast][1..] == [];
    assert ChunkAfter(Paced(Paced(Paced(chunk, Slow), Slow), Slow), []) == MIN_CHUNK_BYTES;
    assert ChunkAfter(Paced(Paced(Paced(chunk, Fast), Fast), Fast), []) == CHUNK_BYTES;
  }

  // ---------------------------------------------------------------- the requests

  /** The requests a run of events sent, in order, retries included. */
  function Requests(c: Client, events: seq<Event>): seq<seq<Byte>> {
    if events == [] then []
    else
      var before := events[..|events| - 1];
      var turn := Handle(After(c, before), events[|events| - 1]);
      Requests(c, before) + (if turn.request.Some? then [turn.request.value] else [])
  }

  predicate AllText(queue: seq<seq<Byte>>) {
    forall p :: p in queue ==> WellFormed(p)
  }

  predicate AllSubmitText(events: seq<Event>) {
    forall i :: 0 <= i < |events| && events[i].Submit? ==> WellFormed(events[i].bytes)
  }

  predicate TextOnly(c: Client) {
    AllText(c.queue) && (c.pending.Nothing? || WellFormed(c.pending.batch))
  }

  lemma {:induction false} ConcatText(queue: seq<seq<Byte>>)
    requires AllText(queue)
    ensures WellFormed(Concat(queue))
  {
    if queue != [] {
      ConcatText(queue[1..]);
      JoinWellFormed(queue[0], Concat(queue[1..]));
    }
  }

  lemma BatchIsText(queue: seq<seq<Byte>>, chunk: nat)
    requires queue != [] && chunk >= 4 && AllText(queue)
    ensures AllText(Batched(queue, chunk))
  {
    var n := Take(queue, chunk);
    if n == 0 {
      ChunksAreWellFormed(queue[0], chunk);
    } else {
      ConcatText(queue[..n]);
    }
  }

  lemma NextRequestIsText(c: Client)
    requires c.chunk >= 4 && AllText(c.queue)
    ensures TextOnly(NextRequest(c).client)
  {
    if c.queue != [] {
      BatchIsText(c.queue, c.chunk);
    }
  }

  lemma EventsKeepText(c: Client, e: Event)
    requires ClientOk(c) && TextOnly(c) && (e.Submit? ==> WellFormed(e.bytes))
    ensures TextOnly(Handle(c, e).client)
  {
    match e {
      case Submit(bytes, _) =>
        if TakesIn(c, e) && !c.running {
          NextRequestIsText(c.(queue := c.queue + [bytes], queued := c.queued + |bytes|, refusal := None));
        }
      case Answer(outcome) =>
        if c.pending.Sending? {
          var Sending(batch, epoch, attempt) := c.pending;
          var c1 := if outcome.Accepted? then c.(chunk := Paced(c.chunk, outcome.pace), sent := c.sent + |batch|)
                    else c;
          if epoch != c.epoch {
            NextRequestIsText(c1.(running := false, pending := Nothing));
          } else if outcome.Accepted? {
            NextRequestIsText(c1.(queue := c.queue[1..], queued := c.queued - |batch|));
          }
        }
      case Wake =>
      case Reset(_) =>
    }
  }

  /**
   Every request a client ever sends is nonempty and at most 2048 bytes, a fresh one within the chunk
   size in force, which stays in [256, 2048]; a retry carries the very bytes that were refused, and no
   batch goes out more than seven times; and if what is submitted is text, each request is text of its
   own, however the chunk size changes within a paste.
   */
  lemma RequestsAreSound(events: seq<Event>, e: Event)
    ensures var c := After(IDLE, events);
            var turn := Handle(c, e);
            && MIN_CHUNK_BYTES <= c.chunk <= CHUNK_BYTES
            && (turn.request.Some? ==>
                  && 0 < |turn.request.value| <= CHUNK_BYTES && turn.client.pending.Sending?
                  && turn.client.pending.batch == turn.request.value
                  && (!e.Wake? ==> |turn.request.value| <= turn.client.chunk && turn.client.pending.attempt == 0)
                  && (e.Wake? ==>
                        && c.pending.Sleeping? && turn.request.value == c.pending.batch
                        && turn.client.pending.attempt == c.pending.attempt + 1 <= BUSY_RETRIES))
            && (AllSubmitText(events + [e]) && turn.request.Some? ==> WellFormed(turn.request.value))
  {
    RunsConserveBytes(events);
    var c := After(IDLE, events);
    RequestShape(c, e);
    if AllSubmitText(events + [e]) {
      assert (events + [e])[|events|] == e;
      assert forall i :: 0 <= i < |events| ==> (events + [e])[i] == events[i];
      RunsKeepText(events);
      EventsKeepText(c, e);
    }
  }

  lemma {:induction false} RunsKeepText(events: seq<Event>)
    requires AllSubmitText(events)
    ensures TextOnly(After(IDLE, events))
    decreases |events|
  {
    if events != [] {
      var before := events[..|events| - 1];
      RunsKeepText(before);
      RunsConserveBytes(before);
      EventsKeepText(After(IDLE, before), events[|events| - 1]);
    }
  }

  lemma RequestShape(c: Client, e: Event)
    requires ClientOk(c)
    ensures var turn := Handle(c, e);
            turn.request.Some? ==>
              && 0 < |turn.request.value| <= CHUNK_BYTES && turn.client.pending.Sending?
              && turn.client.pending.batch == turn.request.value
              && (!e.Wake? ==> |turn.request.value| <= turn.client.chunk && turn.client.pending.attempt == 0)
              && (e.Wake? ==>
                    && c.pending.Sleeping? && turn.request.value == c.pending.batch
                    && turn.client.pending.attempt == c.pending.attempt + 1 <= BUSY_RETRIES)
  {
    match e {
      case Submit(bytes, _) =>
        if TakesIn(c, e) && !c.running {
          ConcatAppend(c.queue, [bytes]);
          ConcatOne(bytes);
          NextRequestKeeps(c.(queue := c.queue + [bytes], queued := c.queued + |bytes|, refusal := None));
        }
      case Answer(outcome) =>
        if c.pending.Sending? {
          var Sending(batch, epoch, attempt) := c.pending;
          var c1 := if outcome.Accepted? then c.(chunk := Paced(c.chunk, outcome.pace), sent := c.sent + |batch|)
                    else c;
          if epoch != c.epoch {
            NextRequestKeeps(c1.(running := false, pending := Nothing));
          } else if outcome.Accepted? {
            QueueTail(c.queue);
            NextRequestKeeps(c1.(queue := c.queue[1..], queued := c.queued - |batch|));
          }
        }
      case Wake =>
      case Reset(_) =>
    }
  }

  /**
   A request carries the head of the current queue exactly unless it is the retry of a delivery whose
   epoch has passed: after its pause the code sends again without looking at the epoch.
   */
  lemma RequestsBelongToTheirEpoch(c: Client, e: Event)
    requires ClientOk(c) && Handle(c, e).request.Some?
    ensures Handle(c, e).client.pending.epoch == c.epoch <==>
            !(e.Wake? && c.pending.epoch != c.epoch)
    ensures Handle(c, e).client.pending.epoch == Handle(c, e).client.epoch <==>
            !(e.Wake? && c.pending.epoch != c.epoch)
  {
    RequestShape(c, e);
  }

  /** Busy once, then a reset during the pause. */
  lemma PausedClient(why: string)
    ensures var c := After(IDLE, [Submit([0x61], true), Answer(Busy), Reset(why)]);
            c.pending == Sleeping([0x61], 0, 0) && c.epoch == 1 && c.queue == []
  {
    var e1, e2, e3 := Submit([0x61], true), Answer(Busy), Reset(why);
    OneByteGoesOut(IDLE, 0x61);
    assert After(IDLE, []) == IDLE;
    assert [e1][..0] == [] && After(IDLE, [e1]) == Handle(IDLE, e1).client;
    assert [e1, e2][..1] == [e1] && After(IDLE, [e1, e2]) == Handle(Handle(IDLE, e1).client, e2).client;
    assert [e1, e2, e3][..2] == [e1, e2];
  }

  /** Such a retry happens. */
  lemma AStaleRetryIsSent()
    ensures var c := After(IDLE, [Submit([0x61], true), Answer(Busy), Reset("view-changed")]);
            && Handle(c, Wake).request == Some([0x61]) && c.pending.epoch != c.epoch && c.queue == []
            && Handle(c, Wake).client.pending.Sending?
  {
    PausedClient("view-changed");
  }

  /** One byte typed into an idle client goes straight out. */
  lemma OneByteGoesOut(c: Client, b: Byte)
    requires c.queue == [] && c.queued == 0 && !c.running && c.chunk > 0
    ensures var t := Handle(c, Submit([b], true));
            t.request == Some([b]) && t.client.pending == Sending([b], c.epoch, 0)
            && t.client.running && t.client.chunk == c.chunk && t.client.epoch == c.epoch
  {
    var queue: seq<seq<Byte>> := [[b]];
    assert queue[1..] == [] && queue[..1] == queue && c.queue + [[b]] == queue;
    assert Take([], c.chunk - 1) == 0;
    assert Take(queue, c.chunk) == 1;
    ConcatOne([b]);
    assert Batched(queue, c.chunk) == [[b]];
  }
}
