/** The transport under the locking protocol: any number of actions with their outer brackets, the
    polling thread and the output's callbacks interleave. What happens inside one critical section
    are the writes of one transport event; tags are collected, and a document is edited for them,
    outside of any. */
module TransportThreads {
  import opened Wrappers
  import E = LastChangeEngine
  import H = LateSubscriber
  import L = ServiceLocking
  import R = LastChangeReplay
  import T = TransportSteps
  import I = TransportInvariants
  import opened TransportEventing

  /** The threads with the transport as of the event being handled, what the store shows of it, the
      writes of that event still to be made, and a document edited for tags but not yet in place. */
  datatype Conf = Conf(s: L.System, t: T.Transport, shown: T.Vars, todo: seq<T.Write>, draft: Option<string>)

  /** A move of a thread; a section beginning to handle an event; an event that needs no lock. */
  datatype Turn = Plain(i: nat, move: L.Move) | Begin(i: nat, begun: T.Event) | Outside(outside: T.Event)

  const UNEVENTED: set<nat> := {LAST_CHANGE, 8, 13, 4, 19}

  /** Tags and the end of a stream come from one thread, which has put a document in place before it
      sees the next of them. */
  predicate WaitsForDraft(ev: T.Event) {
    ev.Tags? || ev.EndOfStream?
  }

  predicate InTurn(c: Conf, ev: T.Event) {
    && (ev.MetaUpdate? ==> c.draft == Some(ev.didl))
    && (WaitsForDraft(ev) ==> c.draft == None)
  }

  /** The document is edited from what the store shows when the tags come, mutex or not. */
  function DraftAfter(c: Conf, ev: T.Event): Option<string> {
    match ev
    case Tags(tags) =>
      if T.Reports(c.t.output, tags) then Some(T.Draft(c.t, tags, c.shown[T.AvMeta])) else c.draft
    case MetaUpdate(_) => None
    case _ => c.draft
  }

  /** A section that handles an event makes its writes, all of them and in order. */
  ghost predicate CanTurn(c: Conf, turn: Turn) {
    match turn
    case Plain(i, move) =>
      && move != L.Start && L.Enabled(c.s, i, move)
      && (move.Write? ==> c.todo != [] && move == L.Write(VarIndex(c.todo[0].v), c.todo[0].text))
      && (move.Finish? ==> c.todo == [])
    case Begin(i, ev) => L.Enabled(c.s, i, L.Start) && Locks(c.t, ev) && InTurn(c, ev)
    case Outside(ev) => !Locks(c.t, ev) && InTurn(c, ev)
  }

  ghost predicate Good(c: Conf) {
    && L.Inv(c.s) && Mirrors(c.s.engine, c.shown) && c.s.engine.ignored == UNEVENTED
    && T.Store(c.shown, c.todo) == c.t.vars
    && (c.todo != [] ==> c.s.holder.Some? && c.s.threads[c.s.holder.value].pc == L.Started)
  }

  ghost function Turned(c: Conf, turn: Turn): Conf
    requires Good(c) && CanTurn(c, turn)
  {
    match turn
    case Plain(i, move) =>
      if move.Write? then
        c.(s := L.Next(c.s, i, move), shown := c.shown[c.todo[0].v := c.todo[0].text], todo := c.todo[1..])
      else c.(s := L.Next(c.s, i, move))
    case Begin(i, ev) => Conf(L.Next(c.s, i, L.Start), T.Step(c.t, ev), c.shown, T.Writes(c.t, ev), DraftAfter(c, ev))
    case Outside(ev) => c.(t := T.Step(c.t, ev), draft := DraftAfter(c, ev))
  }

  // ---------------------------------------------------------------- every turn keeps the store on course

  lemma InsideIsOpen(s: L.System, i: nat)
    requires L.Inv(s) && i < |s.threads| && s.threads[i].pc == L.Started
    ensures s.engine.open > 0
  {
    L.DepthOfUpdate(s.threads, i, L.Thread(false, L.Idle));
  }

  lemma StoreFirst(vars: T.Vars, ws: seq<T.Write>)
    requires ws != []
    ensures T.Store(vars, ws) == T.Store(vars[ws[0].v := ws[0].text], ws[1..])
  {
    assert ws == [ws[0]] + ws[1..];
    I.StoreConcat(vars, [ws[0]], ws[1..]);
    I.StoreOne(vars, ws[0]);
  }

  lemma WriteKeepsGood(c: Conf, i: nat, move: L.Move)
    requires Good(c) && CanTurn(c, Plain(i, move)) && move.Write?
    ensures Good(Turned(c, Plain(i, move)))
  {
    hide T.Store, Mirrors, E.Step, VarIndex;
    InsideIsOpen(c.s, i);
    OneChange(c.s.engine, c.shown, c.todo[0]);
    StoreFirst(c.shown, c.todo);
  }

  lemma BeginKeepsGood(c: Conf, i: nat, ev: T.Event)
    requires Good(c) && CanTurn(c, Begin(i, ev))
    ensures Good(Turned(c, Begin(i, ev)))
  {
    hide T.Store, T.Writes, Mirrors, Locks;
    assert c.todo == [];
    I.StoreNone(c.shown);
    StartMirrors(c.s.engine, c.shown);
  }

  lemma OutsideKeepsGood(c: Conf, ev: T.Event)
    requires Good(c) && CanTurn(c, Outside(ev))
    ensures Good(Turned(c, Outside(ev)))
  {
    hide T.Store, Mirrors, Locks;
    UnlockedWritesNothing(c.t, ev);
    I.StoreNone(c.t.vars);
  }

  lemma BracketKeepsMirror(s: L.System, shown: T.Vars, i: nat, move: L.Move)
    requires L.Inv(s) && Mirrors(s.engine, shown) && L.Enabled(s, i, move) && !move.Write?
    ensures Mirrors(L.Next(s, i, move).engine, shown) && L.Next(s, i, move).engine.ignored == s.engine.ignored
  {
    hide Mirrors, E.Notify;
    L.FinishNeverUnderflows(s, i, move);
    if L.EngineOp(move) == Some(E.Start) {
      StartMirrors(s.engine, shown);
    } else if L.EngineOp(move) == Some(E.Finish) {
      FinishMirrors(s.engine, shown);
    }
  }

  lemma PlainKeepsGood(c: Conf, i: nat, move: L.Move)
    requires Good(c) && CanTurn(c, Plain(i, move)) && !move.Write?
    ensures Good(Turned(c, Plain(i, move)))
  {
    hide T.Store, Mirrors, E.Step;
    BracketKeepsMirror(c.s, c.shown, i, move);
  }

  lemma TurnKeepsGood(c: Conf, turn: Turn)
    requires Good(c) && CanTurn(c, turn)
    ensures Good(Turned(c, turn))
  {
    hide Good, Turned;
    match turn
    case Plain(i, move) =>
      if move.Write? {
        WriteKeepsGood(c, i, move);
      } else {
        PlainKeepsGood(c, i, move);
      }
    case Begin(i, ev) => BeginKeepsGood(c, i, ev);
    case Outside(ev) => OutsideKeepsGood(c, ev);
  }

  // ---------------------------------------------------------------- schedules

  ghost predicate CanTake(c: Conf, turns: seq<Turn>)
    requires Good(c)
    decreases |turns|
  {
    turns == []
    || (CanTurn(c, turns[0])
        && (TurnKeepsGood(c, turns[0]);
            CanTake(Turned(c, turns[0]), turns[1..])))
  }

  ghost function Take(c: Conf, turns: seq<Turn>): (r: Conf)
    requires Good(c) && CanTake(c, turns)
    ensures Good(r)
    decreases |turns|
  {
    if turns == [] then c else
      TurnKeepsGood(c, turns[0]);
      Take(Turned(c, turns[0]), turns[1..])
  }

  function MoveOf(turn: Turn): seq<(nat, L.Move)> {
    match turn
    case Plain(i, move) => [(i, move)]
    case Begin(i, _) => [(i, L.Start)]
    case Outside(_) => []
  }

  function Moves(turns: seq<Turn>): seq<(nat, L.Move)> {
    if turns == [] then [] else MoveOf(turns[0]) + Moves(turns[1..])
  }

  function EventOf(turn: Turn): seq<T.Event> {
    match turn
    case Plain(_, _) => []
    case Begin(_, ev) => [ev]
    case Outside(ev) => [ev]
  }

  /** The events handled, in the order in which their sections began. */
  function Events(turns: seq<Turn>): seq<T.Event> {
    if turns == [] then [] else EventOf(turns[0]) + Events(turns[1..])
  }

  lemma {:induction false} EventsHappen(c: Conf, turns: seq<Turn>)
    requires Good(c) && CanTake(c, turns)
    ensures Take(c, turns).t == T.Run(c.t, Events(turns))
    decreases |turns|
  {
    hide Good, T.Step;
    if turns != [] {
      TurnKeepsGood(c, turns[0]);
      EventsHappen(Turned(c, turns[0]), turns[1..]);
      match turns[0]
      case Plain(_, _) => assert [] + Events(turns[1..]) == Events(turns[1..]);
      case Begin(_, ev) => RunOneEvent(c.t, ev, Events(turns[1..]));
      case Outside(ev) => RunOneEvent(c.t, ev, Events(turns[1..]));
    }
  }

  lemma RunOneEvent(t: T.Transport, ev: T.Event, evs: seq<T.Event>)
    ensures T.Run(t, [ev] + evs) == T.Run(T.Step(t, ev), evs)
  {
    hide T.Step;
    assert ([ev] + evs)[1..] == evs;
  }

  lemma TurnIsAMove(c: Conf, turn: Turn)
    requires Good(c) && CanTurn(c, turn)
    ensures if MoveOf(turn) == [] then Turned(c, turn).s == c.s
            else var (i, move) := MoveOf(turn)[0];
              MoveOf(turn) == [(i, move)] && L.Enabled(c.s, i, move) && Turned(c, turn).s == L.Next(c.s, i, move)
  {
    hide L.Next, T.Step;
  }

  lemma GoFirst(s: L.System, i: nat, move: L.Move, rest: seq<(nat, L.Move)>)
    requires L.Inv(s) && L.Enabled(s, i, move) && L.CanGo(L.Next(s, i, move), rest)
    ensures L.CanGo(s, [(i, move)] + rest) && L.Go(s, [(i, move)] + rest) == L.Go(L.Next(s, i, move), rest)
  {
    hide L.Next, L.Enabled, L.Inv;
    assert ([(i, move)] + rest)[1..] == rest;
  }

  lemma {:induction false} TurnsAreMoves(c: Conf, turns: seq<Turn>)
    requires Good(c) && CanTake(c, turns)
    ensures L.Inv(c.s) && L.CanGo(c.s, Moves(turns)) && Take(c, turns).s == L.Go(c.s, Moves(turns))
    decreases |turns|
  {
    hide L.Next, L.Enabled, L.Inv, MoveOf, Turned, CanTurn, Good;
    HasInv(c);
    if turns != [] {
      TurnKeepsGood(c, turns[0]);
      TurnsAreMoves(Turned(c, turns[0]), turns[1..]);
      TurnIsAMove(c, turns[0]);
      var rest := Moves(turns[1..]);
      if MoveOf(turns[0]) == [] {
        assert [] + rest == rest;
      } else {
        GoFirst(c.s, MoveOf(turns[0])[0].0, MoveOf(turns[0])[0].1, rest);
      }
    }
  }

  // ---------------------------------------------------------------- the controller

  lemma BootIsGood(ns: string, names: seq<string>, values: seq<string>)
    requires TransportTable(names, values)
    ensures var e := E.Build(ns, names, values, LAST_CHANGE);
      && E.CanRun(e, Unevented())
      && Good(Conf(L.System(E.Run(e, Unevented()), None, []), T.Boot(), T.Boot().vars, [], None))
  {
    hide T.Boot, T.Store, Unevented, E.Build, E.Run, E.CanRun, Mirrors, T.InitialValue;
    BuildMirrors(ns, names, values);
    UneventedMirror(E.Build(ns, names, values, LAST_CHANGE), T.Boot().vars);
    I.StoreNone(T.Boot().vars);
  }

  /** The service has started: the collector is built, four variables are taken out of eventing, and
      no thread is inside. */
  ghost function BootConf(ns: string, names: seq<string>, values: seq<string>): (c: Conf)
    requires TransportTable(names, values)
    ensures Good(c)
  {
    BootIsGood(ns, names, values);
    var engine := E.Run(E.Build(ns, names, values, LAST_CHANGE), Unevented());
    Conf(L.System(engine, None, []), T.Boot(), T.Boot().vars, [], None)
  }

  lemma BootIsQuiet(ns: string, names: seq<string>, values: seq<string>)
    requires TransportTable(names, values)
    ensures var c := BootConf(ns, names, values);
      L.Quiet(c.s) && c.draft == None && c.t == T.Boot()
  {
  }

  /** With the mutex free and no action under way every write is made and no transaction is open. */
  lemma QuietIsDone(c: Conf)
    requires Good(c) && L.Quiet(c.s)
    ensures c.s.engine.open == 0 && Mirrors(c.s.engine, c.t.vars)
  {
    hide T.Store, Mirrors;
    L.ZeroTotal(c.s.threads);
    I.StoreNone(c.shown);
  }

  /** The collector's operations from its construction to the end of a schedule. */
  lemma OpsOfTurns(ns: string, names: seq<string>, values: seq<string>, turns: seq<Turn>)
    requires TransportTable(names, values) && CanTake(BootConf(ns, names, values), turns)
    ensures var e := E.Build(ns, names, values, LAST_CHANGE);
      var ops := Unevented() + L.OpsOf(Moves(turns));
      E.CanRun(e, ops) && E.Run(e, ops) == Take(BootConf(ns, names, values), turns).s.engine
  {
    hide Good, T.Boot, E.Build, Moves, L.OpsOf, Unevented, Take, CanTake, L.Go, L.CanGo;
    var e, c := E.Build(ns, names, values, LAST_CHANGE), BootConf(ns, names, values);
    BuildMirrors(ns, names, values);
    UneventedMirror(e, T.Boot().vars);
    TurnsAreMoves(c, turns);
    HasInv(c);
    L.InterleavingIsARun(c.s, Moves(turns));
    E.RunConcat(e, Unevented(), L.OpsOf(Moves(turns)));
  }

  lemma HasInv(c: Conf)
    requires Good(c)
    ensures L.Inv(c.s)
  {
  }

  /** For every schedule of any number of actions, polls and callbacks: whenever the mutex is free and
      no action is under way, a controller that applied all events holds the current value of every
      variable of the transport except the relative time, and its picture is coherent. */
  lemma ControllerSeesThreads(ns: string, names: seq<string>, values: seq<string>, turns: seq<Turn>)
    requires TransportTable(names, values) && R.Announces(ns, names, values, LAST_CHANGE)
    requires CanTake(BootConf(ns, names, values), turns)
    ensures var c := Take(BootConf(ns, names, values), turns);
      var seen := E.Observe(ns, map[], c.s.engine.wire);
      var t := T.Run(T.Boot(), Events(turns));
      L.Quiet(c.s) ==>
        && (forall v: T.Var | v != T.RelTime :: E.At(seen, VarName(v)) == Some(t.vars[v]))
        && SeesCoherent(seen, t.state)
  {
    hide Good, T.Boot, E.Build, Moves, Events, L.OpsOf, Unevented, Take, CanTake, L.Quiet, E.Observe, E.Run, T.Run,
         SeesCoherent, VarName, T.InitialValue, E.At;
    var boot := BootConf(ns, names, values);
    var c := Take(boot, turns);
    if L.Quiet(c.s) {
      EventsHappen(boot, turns);
      OpsOfTurns(ns, names, values, turns);
      QuietIsDone(c);
      R.ReplayAgreement(ns, names, values, LAST_CHANGE, Unevented() + L.OpsOf(Moves(turns)));
      IgnoresFour(c);
      AgreesWithVars(c.s.engine, c.t.vars, E.Observe(ns, map[], c.s.engine.wire));
      I.AlwaysCoherentFromBoot(Events(turns));
      SeeingIsCoherent(E.Observe(ns, map[], c.s.engine.wire), c.t);
    }
  }

  lemma IgnoresFour(c: Conf)
    requires Good(c)
    ensures c.s.engine.ignored == {LAST_CHANGE, 8, 13, 4, 19}
  {
  }

  /** A controller that joins whenever the mutex is free and no action is under way, with the
      snapshot and all later events, holds the same whenever that is the case again. */
  lemma LateControllerSeesThreads(ns: string, names: seq<string>, values: seq<string>,
                                  earlier: seq<Turn>, later: seq<Turn>)
    requires TransportTable(names, values) && CanTake(BootConf(ns, names, values), earlier)
    requires var joined := Take(BootConf(ns, names, values), earlier); L.Quiet(joined.s) && CanTake(joined, later)
    ensures var joined := Take(BootConf(ns, names, values), earlier);
      var now := Take(joined, later);
      L.Quiet(now.s) ==>
        && joined.s.engine.wire <= now.s.engine.wire
        && forall v: T.Var | v != T.RelTime ::
             E.At(H.Joined(joined.s.engine, now.s.engine), VarName(v))
             == Some(T.Run(T.Run(T.Boot(), Events(earlier)), Events(later)).vars[v])
  {
    hide Good, T.Boot, E.Build, Moves, Events, L.OpsOf, Unevented, Take, CanTake, L.Quiet, E.Run, E.CanRun, T.Run,
         VarName, T.InitialValue, E.At, H.Joined, H.Reported, Mirrors, L.Go, L.CanGo;
    var boot := BootConf(ns, names, values);
    var joined := Take(boot, earlier);
    var now := Take(joined, later);
    var ops, more := Unevented() + L.OpsOf(Moves(earlier)), L.OpsOf(Moves(later));
    OpsOfTurns(ns, names, values, earlier);
    TurnsAreMoves(joined, later);
    L.InterleavingIsARun(joined.s, Moves(later));
    QuietIsDone(joined);
    EventsHappen(boot, earlier);
    EventsHappen(joined, later);
    TableIsValid(names, values);
    H.LateSubscriberAgrees(ns, names, values, LAST_CHANGE, ops, more);
    if L.Quiet(now.s) {
      QuietIsDone(now);
      IgnoresFour(now);
      RunKeepsNames(joined.s.engine, more);
      forall v: T.Var | v != T.RelTime
        ensures E.At(H.Joined(joined.s.engine, now.s.engine), VarName(v)) == Some(now.t.vars[v])
      {
        KeepsName(ns, names, values, ops, more, v);
        VarIsReported(now.s.engine, now.t.vars, v);
        HoldsValue(now.s.engine, now.t.vars, H.Joined(joined.s.engine, now.s.engine), v);
      }
    }
  }

  lemma TableIsValid(names: seq<string>, values: seq<string>)
    requires TransportTable(names, values)
    ensures E.ValidTable(names, values, LAST_CHANGE) && |names| > 1
  {
  }

  lemma RunKeepsNames(e: E.Engine, ops: seq<E.Op>)
    requires E.Valid(e) && E.CanRun(e, ops)
    ensures E.Run(e, ops).names == e.names && e.wire <= E.Run(e, ops).wire
  {
  }

  lemma KeepsName(ns: string, names: seq<string>, values: seq<string>, ops: seq<E.Op>, more: seq<E.Op>, v: T.Var)
    requires TransportTable(names, values)
    requires var e := E.Build(ns, names, values, LAST_CHANGE); E.CanRun(e, ops) && E.CanRun(E.Run(e, ops), more)
    ensures var r := E.Run(E.Run(E.Build(ns, names, values, LAST_CHANGE), ops), more);
      |r.names| == VARIABLES && r.names[VarIndex(v)] == VarName(v)
  {
    hide VarName, VarIndex;
  }
}
