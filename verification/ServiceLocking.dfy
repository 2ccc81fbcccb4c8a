/** The locking protocol around the collector: handle_action_request (src/upnp_device.c) opens and
    closes an outer transaction in two short critical sections, service_lock/service_unlock
    (src/upnp_transport.c) bracket the writes in between, and any number of threads interleave. */
module ServiceLocking {
  import opened Wrappers
  import E = LastChangeEngine
  import R = LastChangeReplay

  /** Where a thread stands. All but Idle are inside the mutex. */
  datatype Pc = Idle
    | OpenLocked | OpenStarted                // outer bracket of an action being opened
    | Locked | Started | Finished             // service_lock ... service_unlock
    | CloseLocked | CloseFinished             // outer bracket being closed
    | Reading                                 // a section that only reads variables

  /** `inAction`: the outer transaction of an action is open. Background threads never set it. */
  datatype Thread = Thread(inAction: bool, pc: Pc)

  datatype System = System(engine: E.Engine, holder: Option<nat>, threads: seq<Thread>)

  datatype Move = Spawn
    | LockOpen | StartOpen | UnlockOpen
    | Lock | Start | Write(v: nat, value: string) | Finish | Unlock
    | LockClose | FinishClose | UnlockClose
    | LockRead | UnlockRead

  /** How many transactions a thread has open. */
  function Depth(t: Thread): nat {
    (if t.inAction then 1 else 0) + (if t.pc == Started then 1 else 0)
  }

  function TotalDepth(threads: seq<Thread>): nat {
    if threads == [] then 0 else Depth(threads[0]) + TotalDepth(threads[1..])
  }

  // ---------------------------------------------------------------- moves of one thread

  predicate TakesMutex(move: Move) {
    move.LockOpen? || move.Lock? || move.LockClose? || move.LockRead?
  }

  predicate ReleasesMutex(move: Move) {
    move.UnlockOpen? || move.Unlock? || move.UnlockClose? || move.UnlockRead?
  }

  /** May thread code perform this move next? */
  predicate InProgramOrder(t: Thread, move: Move) {
    match move
    case Spawn => false
    case LockOpen => t == Thread(false, Idle)
    case StartOpen => t.pc == OpenLocked
    case UnlockOpen => t.pc == OpenStarted
    case Lock => t.pc == Idle
    case Start => t.pc == Locked
    case Write(_, _) => t.pc == Started
    case Finish => t.pc == Started
    case Unlock => t.pc == Finished
    case LockClose => t == Thread(true, Idle)
    case FinishClose => t.pc == CloseLocked
    case UnlockClose => t.pc == CloseFinished
    case LockRead => t.pc == Idle
    case UnlockRead => t.pc == Reading
  }

  function NextThread(t: Thread, move: Move): Thread {
    match move
    case Spawn => t
    case LockOpen => t.(pc := OpenLocked)
    case StartOpen => Thread(true, OpenStarted)
    case UnlockOpen => t.(pc := Idle)
    case Lock => t.(pc := Locked)
    case Start => t.(pc := Started)
    case Write(_, _) => t
    case Finish => t.(pc := Finished)
    case Unlock => t.(pc := Idle)
    case LockClose => t.(pc := CloseLocked)
    case FinishClose => Thread(false, CloseFinished)
    case UnlockClose => t.(pc := Idle)
    case LockRead => t.(pc := Reading)
    case UnlockRead => t.(pc := Idle)
  }

  /** What the move does to the collector. */
  function EngineOp(move: Move): Option<E.Op> {
    match move
    case StartOpen => Some(E.Start)
    case Start => Some(E.Start)
    case Write(v, value) => Some(E.Change(v, value))
    case Finish => Some(E.Finish)
    case FinishClose => Some(E.Finish)
    case _ => None
  }

  // ---------------------------------------------------------------- moves of the system

  /** Scheduling: the mutex is taken only when free; writes name a variable of the service. */
  predicate Enabled(s: System, i: nat, move: Move) {
    if move == Spawn then true else
      && i < |s.threads| && InProgramOrder(s.threads[i], move)
      && (TakesMutex(move) ==> s.holder == None)
      && (move.Write? ==> move.v < |s.engine.names| && move.v != s.engine.lastChange)
  }

  ghost predicate Inv(s: System) {
    && E.Valid(s.engine)
    && s.engine.open == TotalDepth(s.threads)
    && HolderInv(s.holder, s.threads)
  }

  lemma {:induction false} DepthOfUpdate(threads: seq<Thread>, i: nat, t: Thread)
    requires i < |threads|
    ensures TotalDepth(threads[i := t]) + Depth(threads[i]) == TotalDepth(threads) + Depth(t)
  {
    if i > 0 {
      DepthOfUpdate(threads[1..], i - 1, t);
      assert threads[i := t][1..] == threads[1..][i - 1 := t];
    } else {
      assert threads[0 := t][1..] == threads[1..];
    }
  }

  lemma {:induction false} DepthOfSpawn(threads: seq<Thread>)
    ensures TotalDepth(threads + [Thread(false, Idle)]) == TotalDepth(threads)
  {
    if threads != [] {
      DepthOfSpawn(threads[1..]);
      assert (threads + [Thread(false, Idle)])[1..] == threads[1..] + [Thread(false, Idle)];
    } else {
      assert threads + [Thread(false, Idle)] == [Thread(false, Idle)];
    }
  }

  /** The assertion in UPnPLastChangeCollector_finish never fails, whatever the interleaving. */
  lemma FinishNeverUnderflows(s: System, i: nat, move: Move)
    requires Inv(s) && Enabled(s, i, move)
    ensures EngineOp(move).Some? ==> E.CanStep(s.engine, EngineOp(move).value)
  {
    if i < |s.threads| {
      DepthOfUpdate(s.threads, i, Thread(false, Idle));
    }
  }

  ghost function Moved(s: System, i: nat, move: Move): System
    requires Inv(s) && Enabled(s, i, move)
  {
    if move == Spawn then s.(threads := s.threads + [Thread(false, Idle)]) else
      var op := EngineOp(move);
      FinishNeverUnderflows(s, i, move);
      System(if op.Some? then E.Step(s.engine, op.value) else s.engine,
             if TakesMutex(move) then Some(i) else if ReleasesMutex(move) then None else s.holder,
             s.threads[i := NextThread(s.threads[i], move)])
  }

  lemma MovedKeepsInv(s: System, i: nat, move: Move)
    requires Inv(s) && Enabled(s, i, move)
    ensures Inv(Moved(s, i, move))
  {
    if move == Spawn {
      DepthOfSpawn(s.threads);
    } else {
      DepthOfUpdate(s.threads, i, NextThread(s.threads[i], move));
      MovedKeepsHolder(s, i, move);
    }
  }

  ghost predicate HolderInv(holder: Option<nat>, threads: seq<Thread>) {
    && (forall i :: 0 <= i < |threads| ==> (threads[i].pc != Idle <==> holder == Some(i)))
    && (forall i :: 0 <= i < |threads| && threads[i].pc in {OpenStarted, CloseLocked} ==> threads[i].inAction)
    && (forall i :: 0 <= i < |threads| && threads[i].pc in {OpenLocked, CloseFinished} ==> !threads[i].inAction)
    && (holder.Some? ==> holder.value < |threads|)
  }

  lemma MovedKeepsHolder(s: System, i: nat, move: Move)
    requires Inv(s) && move != Spawn && Enabled(s, i, move)
    ensures HolderInv(Moved(s, i, move).holder, Moved(s, i, move).threads)
  {
  }

  ghost function Next(s: System, i: nat, move: Move): (r: System)
    requires Inv(s) && Enabled(s, i, move)
    ensures Inv(r)
  {
    MovedKeepsInv(s, i, move);
    Moved(s, i, move)
  }

  /** Mutual exclusion: whoever touches the collector or a variable holds the mutex. */
  lemma OnlyTheHolderTouches(s: System, i: nat, move: Move)
    requires Inv(s) && Enabled(s, i, move) && EngineOp(move).Some?
    ensures s.holder == Some(i)
  {
  }

  /** An event leaves only from a finish that closes the very last bracket of all threads. */
  lemma EventsOnlyWhenNobodyIsInside(s: System, i: nat, move: Move)
    requires Inv(s) && Enabled(s, i, move) && Next(s, i, move).engine.wire != s.engine.wire
    ensures move.Finish? || move.FinishClose?
    ensures forall k :: 0 <= k < |s.threads| ==> Depth(Next(s, i, move).threads[k]) == 0
    ensures |Next(s, i, move).engine.wire| == |s.engine.wire| + 1
  {
    var r := Next(s, i, move);
    OnlyTheHolderTouches(s, i, move);
    if move.Write? || move.Start? || move.StartOpen? {
      DepthOfUpdate(s.threads, i, Thread(false, Idle));
    }
    ZeroTotal(r.threads);
  }

  lemma {:induction false} ZeroTotal(threads: seq<Thread>)
    ensures TotalDepth(threads) == 0 <==> forall k :: 0 <= k < |threads| ==> Depth(threads[k]) == 0
  {
    if threads != [] {
      ZeroTotal(threads[1..]);
      assert threads == [threads[0]] + threads[1..];
    }
  }

  // ---------------------------------------------------------------- runs

  ghost predicate CanGo(s: System, moves: seq<(nat, Move)>)
    requires Inv(s)
    decreases |moves|
  {
    moves == [] ||
      (Enabled(s, moves[0].0, moves[0].1) && CanGo(Next(s, moves[0].0, moves[0].1), moves[1..]))
  }

  ghost function Go(s: System, moves: seq<(nat, Move)>): (r: System)
    requires Inv(s) && CanGo(s, moves)
    ensures Inv(r)
    decreases |moves|
  {
    if moves == [] then s else Go(Next(s, moves[0].0, moves[0].1), moves[1..])
  }

  function OpsOf(moves: seq<(nat, Move)>): seq<E.Op> {
    if moves == [] then [] else
      (if EngineOp(moves[0].1).Some? then [EngineOp(moves[0].1).value] else []) + OpsOf(moves[1..])
  }

  /** Every interleaving is, for the collector, a run of its operations one at a time. */
  lemma {:induction false} InterleavingIsARun(s: System, moves: seq<(nat, Move)>)
    requires Inv(s) && CanGo(s, moves)
    ensures E.CanRun(s.engine, OpsOf(moves)) && Go(s, moves).engine == E.Run(s.engine, OpsOf(moves))
    decreases |moves|
  {
    if moves != [] {
      var (i, move) := moves[0];
      InterleavingIsARun(Next(s, i, move), moves[1..]);
      if EngineOp(move).Some? {
        FinishNeverUnderflows(s, i, move);
        E.RunFirst(s.engine, EngineOp(move).value, OpsOf(moves[1..]));
      } else {
        assert [] + OpsOf(moves[1..]) == OpsOf(moves[1..]);
      }
    }
  }

  // ---------------------------------------------------------------- one thread by itself

  /** A piece of the program of a thread. */
  predicate Follows(t: Thread, path: seq<Move>)
    decreases |path|
  {
    path == [] || (InProgramOrder(t, path[0]) && Follows(NextThread(t, path[0]), path[1..]))
  }

  function EndOf(t: Thread, path: seq<Move>): Thread
    decreases |path|
  {
    if path == [] then t else EndOf(NextThread(t, path[0]), path[1..])
  }

  function By(i: nat, path: seq<Move>): seq<(nat, Move)> {
    if path == [] then [] else [(i, path[0])] + By(i, path[1..])
  }

  ghost predicate WritesVariables(e: E.Engine, path: seq<Move>) {
    forall move <- path :: move.Write? ==> move.v < |e.names| && move.v != e.lastChange
  }

  /** With the mutex free or its own a thread can be scheduled alone, and only it moves. */
  lemma {:induction false} AloneCanGo(s: System, i: nat, path: seq<Move>)
    requires Inv(s) && i < |s.threads| && (s.holder == None || s.holder == Some(i))
    requires Follows(s.threads[i], path) && WritesVariables(s.engine, path)
    ensures CanGo(s, By(i, path))
    ensures var r := Go(s, By(i, path));
      && r.threads == s.threads[i := EndOf(s.threads[i], path)]
      && r.holder == if EndOf(s.threads[i], path).pc == Idle then None else Some(i)
    decreases |path|
  {
    hide Inv, InProgramOrder, NextThread, Next, Enabled;
    if path == [] {
      OnlyTheHolderIsInside(s, i);
      assert s.threads[i := s.threads[i]] == s.threads;
    } else {
      var next := AloneMoves(s, i, path[0]);
      AloneCanGo(next, i, path[1..]);
      assert By(i, path)[1..] == By(i, path[1..]);
    }
  }

  lemma OnlyTheHolderIsInside(s: System, i: nat)
    requires Inv(s) && i < |s.threads|
    ensures s.threads[i].pc != Idle <==> s.holder == Some(i)
  {
  }

  lemma AloneMoves(s: System, i: nat, move: Move) returns (next: System)
    requires Inv(s) && i < |s.threads| && (s.holder == None || s.holder == Some(i))
    requires InProgramOrder(s.threads[i], move) && WritesVariables(s.engine, [move])
    ensures Enabled(s, i, move) && next == Next(s, i, move)
    ensures next.threads == s.threads[i := NextThread(s.threads[i], move)]
    ensures next.holder == None || next.holder == Some(i)
    ensures next.engine.names == s.engine.names && next.engine.lastChange == s.engine.lastChange
  {
    assert move in [move];
    next := Next(s, i, move);
    FinishNeverUnderflows(s, i, move);
  }

  ghost predicate Quiet(s: System) {
    s.holder == None && forall k :: 0 <= k < |s.threads| ==> !s.threads[k].inAction
  }

  /** Start-up: the collector has just been built and no thread is inside. */
  ghost function Boot(ns: string, names: seq<string>, values: seq<string>, lastChange: nat): (s: System)
    requires E.ValidTable(names, values, lastChange)
    ensures Inv(s)
  {
    System(E.Build(ns, names, values, lastChange), None, [])
  }

  /** Whenever the mutex is free and no action is under way, nothing is pending and a controller
      replaying all events agrees with the store, for every interleaving of any threads. */
  lemma QuietMeansAgreement(ns: string, names: seq<string>, values: seq<string>, lastChange: nat,
                            moves: seq<(nat, Move)>)
    requires E.ValidTable(names, values, lastChange) && R.Announces(ns, names, values, lastChange)
    requires CanGo(Boot(ns, names, values, lastChange), moves)
    ensures var s := Go(Boot(ns, names, values, lastChange), moves);
      Quiet(s) ==>
        && s.engine.pending == []
        && R.Agrees(s.engine, E.Observe(ns, map[], s.engine.wire), E.AllVariables(|names|) - s.engine.ignored)
  {
    var boot := Boot(ns, names, values, lastChange);
    var s := Go(boot, moves);
    InterleavingIsARun(boot, moves);
    if Quiet(s) {
      ZeroTotal(s.threads);
      R.ReplayAgreement(ns, names, values, lastChange, OpsOf(moves));
    }
  }

  // ---------------------------------------------------------------- no deadlock

  function WorkLeft(t: Thread): nat {
    match t.pc
    case OpenLocked => 5
    case OpenStarted => 4
    case CloseLocked => 2
    case CloseFinished => 1
    case Idle => if t.inAction then 3 else 0
    case Locked => 3 + (if t.inAction then 3 else 0)
    case Started => 2 + (if t.inAction then 3 else 0)
    case Finished => 1 + (if t.inAction then 3 else 0)
    case Reading => 1 + (if t.inAction then 3 else 0)
  }

  function TotalWork(threads: seq<Thread>): nat {
    if threads == [] then 0 else WorkLeft(threads[0]) + TotalWork(threads[1..])
  }

  /** The move by which a thread gets on with what it has begun. */
  function WayOut(t: Thread): Move {
    match t.pc
    case OpenLocked => StartOpen
    case OpenStarted => UnlockOpen
    case CloseLocked => FinishClose
    case CloseFinished => UnlockClose
    case Idle => LockClose
    case Locked => Start
    case Started => Finish
    case Finished => Unlock
    case Reading => UnlockRead
  }

  lemma {:induction false} WorkOfUpdate(threads: seq<Thread>, i: nat, t: Thread)
    requires i < |threads|
    ensures TotalWork(threads[i := t]) + WorkLeft(threads[i]) == TotalWork(threads) + WorkLeft(t)
  {
    if i > 0 {
      WorkOfUpdate(threads[1..], i - 1, t);
      assert threads[i := t][1..] == threads[1..][i - 1 := t];
    } else {
      assert threads[0 := t][1..] == threads[1..];
    }
  }

  /** The holder, or with the mutex free any thread in an action, can move on and has less to do. */
  lemma WayOutWorks(s: System, i: nat)
    requires Inv(s) && i < |s.threads|
    requires if s.holder.Some? then s.holder == Some(i) else s.threads[i].inAction
    ensures var move := WayOut(s.threads[i]);
      Enabled(s, i, move) && TotalWork(Next(s, i, move).threads) < TotalWork(s.threads)
  {
    var move := WayOut(s.threads[i]);
    WorkOfUpdate(s.threads, i, NextThread(s.threads[i], move));
  }

  /** From every reachable state the threads can be scheduled to a quiet one: no deadlock. */
  lemma {:induction false} CanComeToRest(s: System) returns (moves: seq<(nat, Move)>)
    requires Inv(s)
    ensures CanGo(s, moves) && Quiet(Go(s, moves))
    decreases TotalWork(s.threads)
  {
    if Quiet(s) {
      moves := [];
    } else {
      var i: nat :| i < |s.threads| && (if s.holder.Some? then s.holder == Some(i) else s.threads[i].inAction);
      var move := WayOut(s.threads[i]);
      WayOutWorks(s, i);
      var rest := CanComeToRest(Next(s, i, move));
      moves := [(i, move)] + rest;
      assert moves[1..] == rest;
    }
  }
}
