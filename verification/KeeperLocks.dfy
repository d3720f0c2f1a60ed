/**
 Every path a keeper thread takes through the keeper's locks, and why the threads never wait for each
 other in a circle, nor anything but input for a PTY write that does not return.
 */
module KeeperLocks {
  import opened Basics

  datatype Lock = InputLock | Controls | PresenceLock | ScreenLock | HistoryLock | Signal

  /** input < controls < {presence, screen < history, signal} */
  function Rank(l: Lock): nat {
    match l
    case InputLock => 0
    case Controls => 1
    case PresenceLock => 2
    case ScreenLock => 2
    case HistoryLock => 3
    case Signal => 4
  }

  datatype Instr =
    | Take(l: Lock)
    | Try(l: Lock)    // polled until a deadline, then given up
    | Drop(l: Lock)
    | PtyWrite        // may never return
    | Work            // everything else: computing, sockets with timeouts

  /** One point on a path: the locks held there and what comes next. */
  datatype Stop = Stop(held: set<Lock>, instr: Instr)

  /** One turn of each thread: every request, every branch, and each turn of the loops. */
  datatype Kind =
    | ReaderChunk | ReaderEnd | ChildExit | Status | ScreenRequest | ReadRequest | Hello
    | PlainControl | LeaseGrantedOrReleased | ResizeDone | ResizeFailed
    | InputWritten | InputCut | InputAnswered | SubscribeFrame | SubscribeWait | SubscribeRefused

  /** A resize up to the new size: the ioctl, the screen and the mark, or the ioctl that fails. */
  const TO_RESIZE: seq<Stop> :=
    [Stop({}, Take(Controls)), Stop({Controls}, Take(ScreenLock)),
     Stop({Controls, ScreenLock}, Take(HistoryLock)), Stop({Controls, ScreenLock, HistoryLock}, Work)]

  /** An input that passed its checks, up to the write. */
  const TO_WRITE: seq<Stop> :=
    [Stop({}, Try(InputLock)), Stop({InputLock}, Take(Controls)),
     Stop({InputLock, Controls}, Drop(Controls)), Stop({InputLock}, PtyWrite)]

  function CodeOf(k: Kind): seq<Stop> {
    match k
    case ReaderChunk => // a chunk is parsed and recorded, then signalled
      [Stop({}, Work), Stop({}, Take(ScreenLock)), Stop({ScreenLock}, Take(HistoryLock)),
       Stop({ScreenLock, HistoryLock}, Work), Stop({ScreenLock, HistoryLock}, Drop(HistoryLock)),
       Stop({ScreenLock}, Drop(ScreenLock)), Stop({}, Take(Signal)), Stop({Signal}, Drop(Signal))]
    case ReaderEnd =>
      [Stop({}, Work), Stop({}, Take(Signal)), Stop({Signal}, Drop(Signal))]
    case ChildExit =>
      [Stop({}, Work), Stop({}, Take(Signal)), Stop({Signal}, Drop(Signal))]
    case Status =>
      [Stop({}, Work)]
    case ScreenRequest =>
      [Stop({}, Take(ScreenLock)), Stop({ScreenLock}, Work), Stop({ScreenLock}, Drop(ScreenLock)),
       Stop({}, Work)]
    case ReadRequest =>
      [Stop({}, Take(HistoryLock)), Stop({HistoryLock}, Work), Stop({HistoryLock}, Drop(HistoryLock)),
       Stop({}, Work)]
    case Hello =>
      [Stop({}, Take(PresenceLock)), Stop({PresenceLock}, Work), Stop({PresenceLock}, Drop(PresenceLock)),
       Stop({}, Work)]
    case PlainControl => // check, handoff, or a refused acquire, release or resize
      [Stop({}, Take(Controls)), Stop({Controls}, Work), Stop({Controls}, Drop(Controls)), Stop({}, Work)]
    case LeaseGrantedOrReleased => // presence is told under the controls lock
      [Stop({}, Take(Controls)), Stop({Controls}, Work), Stop({Controls}, Take(PresenceLock)),
       Stop({Controls, PresenceLock}, Drop(PresenceLock)), Stop({Controls}, Drop(Controls)), Stop({}, Work)]
    case ResizeDone => // screen and history are let go before the signal
      TO_RESIZE +
      [Stop({Controls, ScreenLock, HistoryLock}, Drop(ScreenLock)),
       Stop({Controls, HistoryLock}, Drop(HistoryLock)), Stop({Controls}, Take(Signal)),
       Stop({Controls, Signal}, Drop(Signal)), Stop({Controls}, Drop(Controls)), Stop({}, Work)]
    case ResizeFailed =>
      TO_RESIZE +
      [Stop({Controls, ScreenLock, HistoryLock}, Drop(HistoryLock)),
       Stop({Controls, ScreenLock}, Drop(ScreenLock)), Stop({Controls}, Drop(Controls)), Stop({}, Work)]
    case InputWritten =>
      TO_WRITE +
      [Stop({InputLock}, Take(Controls)), Stop({InputLock, Controls}, Drop(Controls)),
       Stop({InputLock}, Take(PresenceLock)), Stop({InputLock, PresenceLock}, Drop(PresenceLock)),
       Stop({InputLock}, Drop(InputLock)), Stop({}, Work)]
    case InputCut =>
      TO_WRITE +
      [Stop({InputLock}, Drop(InputLock)), Stop({}, Work)]
    case InputAnswered =>
      [Stop({}, Try(InputLock)), Stop({InputLock}, Take(Controls)),
       Stop({InputLock, Controls}, Drop(Controls)), Stop({InputLock}, Drop(InputLock)), Stop({}, Work)]
    case SubscribeFrame =>
      [Stop({}, Take(Signal)), Stop({Signal}, Drop(Signal)), Stop({}, Take(HistoryLock)),
       Stop({HistoryLock}, Work), Stop({HistoryLock}, Drop(HistoryLock)), Stop({}, Work)]
    case SubscribeWait => // waiting lets the signal go and takes it again
      [Stop({}, Take(Signal)), Stop({Signal}, Drop(Signal)), Stop({}, Take(HistoryLock)),
       Stop({HistoryLock}, Work), Stop({HistoryLock}, Drop(HistoryLock)), Stop({}, Take(Signal)),
       Stop({Signal}, Drop(Signal)), Stop({}, Take(Signal)), Stop({Signal}, Drop(Signal)), Stop({}, Work)]
    case SubscribeRefused => // the error is sent with the history lock still held
      [Stop({}, Take(Signal)), Stop({Signal}, Drop(Signal)), Stop({}, Take(HistoryLock)),
       Stop({HistoryLock}, Work), Stop({HistoryLock}, Work), Stop({HistoryLock}, Drop(HistoryLock))]
  }

  function After(p: Stop): set<Lock> {
    match p.instr
    case Take(l) => p.held + {l}
    case Try(l) => p.held + {l}
    case Drop(l) => p.held - {l}
    case _ => p.held
  }

  function HeldAt(path: seq<Stop>, pc: nat): set<Lock> {
    if pc < |path| then path[pc].held else {}
  }

  /** Locks are taken upwards, the input lock is only ever tried for, and a PTY write holds it alone. */
  predicate Ordered(p: Stop) {
    match p.instr
    case Take(l) => l != InputLock && forall m :: m in p.held ==> Rank(m) < Rank(l)
    case Try(l) => l == InputLock && p.held == {}
    case Drop(l) => l in p.held
    case PtyWrite => p.held == {InputLock}
    case Work => true
  }

  /** No path has more stops. */
  const LONGEST: nat := 16

  /** A path is short, ordered throughout, keeps its books, and starts and ends with no lock. */
  predicate PathOk(path: seq<Stop>) {
    |path| <= LONGEST && WellTrodden(path)
  }

  predicate WellTrodden(path: seq<Stop>) {
    HeldAt(path, 0) == {} && forall pc: nat :: pc < |path| ==> StopOk(path, pc)
  }

  predicate StopOk(path: seq<Stop>, pc: nat)
    requires pc < |path|
  {
    Ordered(path[pc]) && HeldAt(path, pc + 1) == After(path[pc])
  }

  /** A thread: the path it is on, how far it is, and the locks it owns. */
  datatype Thread = Thread(path: seq<Stop>, pc: nat, held: set<Lock>)

  datatype Sys = Sys(threads: map<nat, Thread>, owner: map<Lock, nat>)

  const START := Sys(map[], map[])

  predicate Finished(th: Thread) {
    th.pc >= |th.path|
  }

  function NextInstr(th: Thread): Instr
    requires !Finished(th)
  {
    th.path[th.pc].instr
  }

  function Advance(s: Sys, t: nat, held: set<Lock>, owner: map<Lock, nat>): Sys
    requires t in s.threads
  {
    Sys(s.threads[t := Thread(s.threads[t].path, s.threads[t].pc + 1, held)], owner)
  }

  predicate Step(s: Sys, t: nat, s': Sys) {
    && t in s.threads
    && var th := s.threads[t];
       if Finished(th) then s' == s.(threads := s.threads - {t})
       else match NextInstr(th)
         case Take(l) => l !in s.owner && s' == Advance(s, t, th.held + {l}, s.owner[l := t])
         case Try(l) =>
           if l !in s.owner then s' == Advance(s, t, th.held + {l}, s.owner[l := t])
           else s' == s || s' == s.(threads := s.threads - {t})
         case Drop(l) => s' == Advance(s, t, th.held - {l}, s.owner - {l})
         case PtyWrite => s' == Advance(s, t, th.held, s.owner)
         case Work => s' == Advance(s, t, th.held, s.owner)
  }

  predicate Spawn(s: Sys, t: nat, k: Kind, s': Sys) {
    t !in s.threads && s' == s.(threads := s.threads[t := Thread(CodeOf(k), 0, {})])
  }

  ghost predicate Next(s: Sys, s': Sys) {
    (exists t :: Step(s, t, s')) || (exists t, k :: Spawn(s, t, k, s'))
  }

  ghost predicate StepAt(run: seq<Sys>, i: nat)
    requires 0 < i < |run|
  {
    Next(run[i - 1], run[i])
  }

  ghost predicate Run(run: seq<Sys>) {
    run != [] && run[0] == START && forall i :: 0 < i < |run| ==> StepAt(run, i)
  }

  /** The thread owns just what its path says it holds here. */
  predicate BooksOk(th: Thread) {
    PathOk(th.path) && th.pc <= |th.path| && th.held == HeldAt(th.path, th.pc)
  }

  predicate OwnersOk(s: Sys) {
    && (forall l :: l in s.owner ==> s.owner[l] in s.threads && l in s.threads[s.owner[l]].held)
    && (forall t, l :: t in s.threads && l in s.threads[t].held ==> l in s.owner && s.owner[l] == t)
  }

  predicate Inv(s: Sys) {
    OwnersOk(s) && forall t :: t in s.threads ==> BooksOk(s.threads[t])
  }

  lemma NextIsOrdered(th: Thread)
    requires BooksOk(th) && !Finished(th)
    ensures Ordered(th.path[th.pc]) && th.path[th.pc].held == th.held
    ensures BooksOk(Thread(th.path, th.pc + 1, After(th.path[th.pc])))
  {
    assert StopOk(th.path, th.pc);
  }

  lemma FinishedHoldsNothing(th: Thread)
    requires BooksOk(th) && (Finished(th) || NextInstr(th).Try?)
    ensures th.held == {}
  {
    if !Finished(th) {
      NextIsOrdered(th);
    }
  }

  lemma OutputPathsAreOrdered(k: Kind)
    requires k.ReaderEnd? || k.ChildExit? || k.Status? || k.ScreenRequest? || k.ReadRequest?
    ensures WellTrodden(CodeOf(k))
  {
  }

  lemma ReaderChunkIsOrdered()
    ensures WellTrodden(CodeOf(ReaderChunk))
  {
  }

  lemma ControlPathsAreOrdered(k: Kind)
    requires k.Hello? || k.PlainControl? || k.LeaseGrantedOrReleased?
    ensures WellTrodden(CodeOf(k))
  {
  }

  /** This stop is in order and leaves what the next one, or `end`, holds. */
  predicate StopLeads(path: seq<Stop>, pc: nat, end: set<Lock>)
    requires pc < |path|
  {
    Ordered(path[pc]) && After(path[pc]) == if pc + 1 < |path| then path[pc + 1].held else end
  }

  predicate LeadsTo(path: seq<Stop>, end: set<Lock>) {
    forall pc: nat :: pc < |path| ==> StopLeads(path, pc, end)
  }

  /** Two pieces of a path that fit together. */
  lemma Joined(a: seq<Stop>, b: seq<Stop>)
    requires a != [] && b != [] && a[0].held == {} && LeadsTo(a, b[0].held) && LeadsTo(b, {})
    ensures WellTrodden(a + b)
  {
    forall pc: nat | pc < |a + b| ensures StopOk(a + b, pc) {
      if pc < |a| {
        assert StopLeads(a, pc, b[0].held);
      } else {
        assert StopLeads(b, pc - |a|, {});
      }
    }
  }

  lemma ResizingLeads()
    ensures LeadsTo(TO_RESIZE, {Controls, ScreenLock, HistoryLock})
  {
  }

  lemma WritingLeads()
    ensures LeadsTo(TO_WRITE, {InputLock})
  {
  }

  lemma ResizeDoneIsOrdered()
    ensures WellTrodden(CodeOf(ResizeDone))
  {
    ResizingLeads();
    Joined(TO_RESIZE, CodeOf(ResizeDone)[|TO_RESIZE|..]);
  }

  lemma ResizeFailedIsOrdered()
    ensures WellTrodden(CodeOf(ResizeFailed))
  {
    ResizingLeads();
    Joined(TO_RESIZE, CodeOf(ResizeFailed)[|TO_RESIZE|..]);
  }

  lemma InputWrittenIsOrdered()
    ensures WellTrodden(CodeOf(InputWritten))
  {
    WritingLeads();
    Joined(TO_WRITE, CodeOf(InputWritten)[|TO_WRITE|..]);
  }

  lemma InputCutIsOrdered()
    ensures WellTrodden(CodeOf(InputCut))
  {
    WritingLeads();
    Joined(TO_WRITE, CodeOf(InputCut)[|TO_WRITE|..]);
  }

  lemma InputAnsweredIsOrdered()
    ensures WellTrodden(CodeOf(InputAnswered))
  {
  }

  lemma SubscribePathsAreOrdered(k: Kind)
    requires k.SubscribeFrame? || k.SubscribeWait? || k.SubscribeRefused?
    ensures WellTrodden(CodeOf(k))
  {
  }

  lemma PathsAreShort(k: Kind)
    ensures |CodeOf(k)| <= LONGEST
  {
  }

  /** Every path of every thread takes its locks in the one order. */
  lemma EveryPathIsOrdered(k: Kind)
    ensures PathOk(CodeOf(k))
  {
    PathsAreShort(k);
    match k {
      case Hello => ControlPathsAreOrdered(k);
      case PlainControl => ControlPathsAreOrdered(k);
      case LeaseGrantedOrReleased => ControlPathsAreOrdered(k);
      case ResizeDone => ResizeDoneIsOrdered();
      case ResizeFailed => ResizeFailedIsOrdered();
      case InputWritten => InputWrittenIsOrdered();
      case InputCut => InputCutIsOrdered();
      case InputAnswered => InputAnsweredIsOrdered();
      case SubscribeFrame => SubscribePathsAreOrdered(k);
      case SubscribeWait => SubscribePathsAreOrdered(k);
      case SubscribeRefused => SubscribePathsAreOrdered(k);
      case ReaderChunk => ReaderChunkIsOrdered();
      case _ => OutputPathsAreOrdered(k);
    }
  }

  lemma AdvanceKeepsOwners(s: Sys, t: nat, s': Sys)
    requires OwnersOk(s) && t in s.threads && !Finished(s.threads[t]) && Step(s, t, s') && t in s'.threads && s' != s
    requires Ordered(s.threads[t].path[s.threads[t].pc])
    requires s.threads[t].path[s.threads[t].pc].held == s.threads[t].held
    ensures OwnersOk(s') && s'.threads == s.threads[t := s'.threads[t]]
    ensures s'.threads[t] == Thread(s.threads[t].path, s.threads[t].pc + 1, After(s.threads[t].path[s.threads[t].pc]))
  {
    forall l | l in s'.owner ensures s'.owner[l] in s'.threads && l in s'.threads[s'.owner[l]].held {
      assert l in s.owner ==> s.owner[l] in s.threads && l in s.threads[s.owner[l]].held;
    }
    forall u, l | u in s'.threads && l in s'.threads[u].held ensures l in s'.owner && s'.owner[l] == u {
      assert u in s.threads && (l in s.threads[u].held ==> l in s.owner && s.owner[l] == u);
    }
  }

  lemma StepKeepsInvariant(s: Sys, t: nat, s': Sys)
    requires Inv(s) && Step(s, t, s')
    ensures Inv(s')
  {
    var th := s.threads[t];
    assert BooksOk(th);
    if t in s'.threads && s' != s {
      NextIsOrdered(th);
      AdvanceKeepsOwners(s, t, s');
    } else if s' != s {
      FinishedHoldsNothing(th);
    }
  }

  lemma SpawnKeepsInvariant(s: Sys, t: nat, path: seq<Stop>, s': Sys)
    requires Inv(s) && PathOk(path) && t !in s.threads && s' == s.(threads := s.threads[t := Thread(path, 0, {})])
    ensures Inv(s')
  {
    assert BooksOk(Thread(path, 0, {}));
  }

  lemma {:induction false} RunsKeepInvariant(run: seq<Sys>, n: nat)
    requires Run(run) && n < |run|
    ensures Inv(run[n])
  {
    if n > 0 {
      RunsKeepInvariant(run, n - 1);
      assert StepAt(run, n);
      var s, s' := run[n - 1], run[n];
      if t :| Step(s, t, s') {
        StepKeepsInvariant(s, t, s');
      } else {
        var t, k :| Spawn(s, t, k, s');
        EveryPathIsOrdered(k);
        SpawnKeepsInvariant(s, t, CodeOf(k), s');
      }
    }
  }

  predicate WantsLock(s: Sys, t: nat) {
    t in s.threads && !Finished(s.threads[t]) && NextInstr(s.threads[t]).Take?
  }

  function Wanted(s: Sys, t: nat): Lock
    requires WantsLock(s, t)
  {
    NextInstr(s.threads[t]).l
  }

  /** `t` is blocked on a lock `u` holds. */
  predicate WaitsFor(s: Sys, t: nat, u: nat) {
    WantsLock(s, t) && Wanted(s, t) in s.owner && s.owner[Wanted(s, t)] == u
  }

  predicate StalledOnPty(s: Sys, t: nat) {
    t in s.threads && !Finished(s.threads[t]) && NextInstr(s.threads[t]).PtyWrite?
  }

  /** Whoever is waited for waits, if at all, for a higher lock, and is never stalled on the PTY. */
  lemma WaitingGoesUp(s: Sys, t: nat, u: nat)
    requires Inv(s) && WaitsFor(s, t, u)
    ensures u in s.threads && !StalledOnPty(s, u)
    ensures WantsLock(s, u) ==> Rank(Wanted(s, t)) < Rank(Wanted(s, u))
  {
    assert BooksOk(s.threads[t]) && BooksOk(s.threads[u]);
    NextIsOrdered(s.threads[t]);
    if !Finished(s.threads[u]) {
      NextIsOrdered(s.threads[u]);
    }
  }

  /** No reachable state has a circular wait. */
  lemma {:induction false} NoCircularWait(run: seq<Sys>, n: nat, chain: seq<nat>)
    requires Run(run) && n < |run| && |chain| > 1
    requires forall i :: 0 < i < |chain| ==> WaitsFor(run[n], chain[i - 1], chain[i])
    ensures chain[0] != chain[|chain| - 1]
    ensures WantsLock(run[n], chain[0])
    ensures WantsLock(run[n], chain[|chain| - 1]) ==>
              Rank(Wanted(run[n], chain[0])) < Rank(Wanted(run[n], chain[|chain| - 1]))
    decreases |chain|
  {
    RunsKeepInvariant(run, n);
    var last := |chain| - 1;
    assert WaitsFor(run[n], chain[0], chain[1]) && WaitsFor(run[n], chain[last - 1], chain[last]);
    WaitingGoesUp(run[n], chain[last - 1], chain[last]);
    if |chain| > 2 {
      NoCircularWait(run, n, chain[..last]);
    }
  }

  /** Can move at once: nothing it wants is taken, and it is not in the hands of the program behind the PTY. */
  predicate CanMove(s: Sys, t: nat) {
    t in s.threads && !StalledOnPty(s, t) && (WantsLock(s, t) ==> Wanted(s, t) !in s.owner)
  }

  /** A thread takes a turn that gets it somewhere, or a new one arrives. */
  datatype Event = Turn(t: nat) | Arrival(t: nat, k: Kind)

  predicate Happens(s: Sys, e: Event, s': Sys) {
    match e
    case Turn(t) => Step(s, t, s') && s' != s && !StalledOnPty(s, t)
    case Arrival(t, k) => Spawn(s, t, k, s')
  }

  /** A thread whose way is free goes a stop further, ends, or gives up trying. */
  lemma TakesTurn(s: Sys, t: nat) returns (s': Sys)
    requires CanMove(s, t)
    ensures Happens(s, Turn(t), s')
  {
    var th := s.threads[t];
    if Finished(th) || (NextInstr(th).Try? && NextInstr(th).l in s.owner) {
      s' := s.(threads := s.threads - {t});
      assert t !in s'.threads;
    } else {
      match NextInstr(th) {
        case Take(l) => s' := Advance(s, t, th.held + {l}, s.owner[l := t]);
        case Try(l) => s' := Advance(s, t, th.held + {l}, s.owner[l := t]);
        case Drop(l) => s' := Advance(s, t, th.held - {l}, s.owner - {l});
        case Work => s' := Advance(s, t, th.held, s.owner);
      }
      assert s'.threads[t].pc == th.pc + 1;
    }
  }

  /** Whoever waits, waits along ever higher locks for a thread that can move. */
  lemma {:induction false} SomebodyCanMove(s: Sys, t: nat) returns (u: nat)
    requires Inv(s) && t in s.threads && !StalledOnPty(s, t)
    ensures CanMove(s, u) && (WantsLock(s, t) && Wanted(s, t) in s.owner ==> u != t)
    decreases if WantsLock(s, t) then 5 - Rank(Wanted(s, t)) else 0
  {
    if WantsLock(s, t) && Wanted(s, t) in s.owner {
      var v := s.owner[Wanted(s, t)];
      WaitingGoesUp(s, t, v);
      u := SomebodyCanMove(s, v);
    } else {
      u := t;
    }
  }

  /**
   A program that does not read its input stalls input and nothing else: whatever handlers are stuck in
   PTY writes, any other thread can move, or waits along ever higher locks for one that can.
   */
  lemma StalledInputBlocksNobodyElse(run: seq<Sys>, n: nat, t: nat) returns (u: nat)
    requires Run(run) && n < |run| && t in run[n].threads && !StalledOnPty(run[n], t)
    ensures CanMove(run[n], u) && exists s' :: Happens(run[n], Turn(u), s')
    ensures WantsLock(run[n], t) && Wanted(run[n], t) in run[n].owner ==> u != t
  {
    RunsKeepInvariant(run, n);
    u := SomebodyCanMove(run[n], t);
    var s' := TakesTurn(run[n], u);
  }

  // ---------------------------------------------------------------- every schedule runs out

  /** Any order of such events; stalled threads take no turns. */
  ghost predicate Schedule(s: Sys, es: seq<Event>, s': Sys)
    decreases |es|
  {
    if es == [] then s' == s else exists mid :: Happens(s, es[0], mid) && Schedule(mid, es[1..], s')
  }

  function TurnsIn(es: seq<Event>): nat {
    if es == [] then 0 else (if es[0].Turn? then 1 else 0) + TurnsIn(es[1..])
  }

  function ArrivalsIn(es: seq<Event>): nat {
    if es == [] then 0 else (if es[0].Arrival? then 1 else 0) + ArrivalsIn(es[1..])
  }

  /** What a thread has left of its path, and its end. */
  function ToDo(th: Thread): nat {
    if Finished(th) then 1 else |th.path| - th.pc + 1
  }

  /** What all of these have left. */
  ghost function AllToDo(threads: map<nat, Thread>): nat
    decreases |threads|
  {
    if threads == map[] then 0
    else
      var t :| t in threads;
      ToDo(threads[t]) + AllToDo(threads - {t})
  }

  /** It does not matter whose share is counted first. */
  lemma {:induction false} ShareOf(threads: map<nat, Thread>, t: nat)
    requires t in threads
    ensures AllToDo(threads) == ToDo(threads[t]) + AllToDo(threads - {t})
    decreases |threads|
  {
    var first :| first in threads && AllToDo(threads) == ToDo(threads[first]) + AllToDo(threads - {first});
    if first != t {
      ShareOf(threads - {first}, t);
      ShareOf(threads - {t}, first);
      assert threads - {first} - {t} == threads - {t} - {first};
    }
  }

  lemma ShareChanges(threads: map<nat, Thread>, t: nat, th: Thread)
    ensures AllToDo(threads[t := th]) == ToDo(th) + AllToDo(threads - {t})
  {
    ShareOf(threads[t := th], t);
    assert threads[t := th] - {t} == threads - {t};
  }

  lemma {:induction false} SharesAreShort(threads: map<nat, Thread>)
    requires forall t :: t in threads ==> BooksOk(threads[t])
    ensures AllToDo(threads) <= (LONGEST + 1) * |threads|
    decreases |threads|
  {
    if threads != map[] {
      var t :| t in threads;
      ShareOf(threads, t);
      assert BooksOk(threads[t]);
      SharesAreShort(threads - {t});
      assert |threads - {t}| == |threads| - 1;
    }
  }

  /** A turn shortens what is left: the thread is gone, or one stop further. */
  lemma TurnsShorten(s: Sys, t: nat, s': Sys)
    requires Inv(s) && Happens(s, Turn(t), s')
    ensures AllToDo(s'.threads) < AllToDo(s.threads)
  {
    assert BooksOk(s.threads[t]);
    ShareOf(s.threads, t);
    if t in s'.threads {
      NextIsOrdered(s.threads[t]);
      AdvanceKeepsOwners(s, t, s');
      ShareChanges(s.threads, t, s'.threads[t]);
    }
  }

  lemma ArrivalsAreShort(s: Sys, t: nat, k: Kind, s': Sys)
    requires Inv(s) && Spawn(s, t, k, s')
    ensures AllToDo(s'.threads) <= AllToDo(s.threads) + LONGEST + 1
  {
    PathsAreShort(k);
    ShareChanges(s.threads, t, s'.threads[t]);
    assert s.threads - {t} == s.threads;
  }

  lemma EventsKeepInvariant(s: Sys, e: Event, s': Sys)
    requires Inv(s) && Happens(s, e, s')
    ensures Inv(s')
  {
    match e {
      case Turn(t) => StepKeepsInvariant(s, t, s');
      case Arrival(t, k) =>
        EveryPathIsOrdered(k);
        SpawnKeepsInvariant(s, t, CodeOf(k), s');
    }
  }

  /** Turns are paid for by what was left to do and by who arrived. */
  lemma {:induction false} SchedulesRunOut(s: Sys, es: seq<Event>, s': Sys)
    requires Inv(s) && Schedule(s, es, s')
    ensures Inv(s')
    ensures TurnsIn(es) + AllToDo(s'.threads) <= AllToDo(s.threads) + (LONGEST + 1) * ArrivalsIn(es)
    decreases |es|
  {
    if es != [] {
      var mid :| Happens(s, es[0], mid) && Schedule(mid, es[1..], s');
      EventsKeepInvariant(s, es[0], mid);
      if es[0].Turn? {
        TurnsShorten(s, es[0].t, mid);
      } else {
        ArrivalsAreShort(s, es[0].t, es[0].k, mid);
      }
      SchedulesRunOut(mid, es[1..], s');
    }
  }

  /** Some turn gets somewhere. */
  ghost predicate GoesOn(s: Sys) {
    exists u, next :: Happens(s, Turn(u), next)
  }

  lemma OnlyTheStalledAreStuck(s: Sys)
    requires Inv(s)
    ensures GoesOn(s) <==> exists t :: t in s.threads && !StalledOnPty(s, t)
  {
    if t :| t in s.threads && !StalledOnPty(s, t) {
      var u := SomebodyCanMove(s, t);
      var next := TakesTurn(s, u);
    }
  }

  /** In its PTY write a handler holds the input lock and nothing else; so there is at most one. */
  lemma StalledHasInput(s: Sys, t: nat)
    requires Inv(s) && StalledOnPty(s, t)
    ensures s.threads[t].held == {InputLock} && InputLock in s.owner && s.owner[InputLock] == t
  {
    assert BooksOk(s.threads[t]);
    NextIsOrdered(s.threads[t]);
  }

  /**
   Whatever handlers are stuck in PTY writes, in whatever order the others take turns and new ones arrive,
   from every reachable state: the turns are bounded by the threads there are and those that arrive, and as
   long as anybody else is left one of them has a turn to take. So without arrivals every order in which
   turns are taken while there are any ends, with everybody through but the one input handler in its PTY
   write, which holds the input lock and nothing else.
   */
  lemma StalledInputDelaysNobodyElse(run: seq<Sys>, n: nat, es: seq<Event>, s': Sys)
    requires Run(run) && n < |run| && Schedule(run[n], es, s')
    ensures TurnsIn(es) <= (LONGEST + 1) * (|run[n].threads| + ArrivalsIn(es))
    ensures GoesOn(s') <==> exists t :: t in s'.threads && !StalledOnPty(s', t)
    ensures forall t :: StalledOnPty(s', t) ==>
                          s'.threads[t].held == {InputLock} && InputLock in s'.owner && s'.owner[InputLock] == t
  {
    RunsKeepInvariant(run, n);
    SchedulesRunOut(run[n], es, s');
    SharesAreShort(run[n].threads);
    OnlyTheStalledAreStuck(s');
    forall t | StalledOnPty(s', t)
      ensures s'.threads[t].held == {InputLock} && InputLock in s'.owner && s'.owner[InputLock] == t
    {
      StalledHasInput(s', t);
    }
  }
}
