/** Pieces of schedules that the handlers really make: an action opens its outer bracket, handles its
    event in a section of its own, and closes the bracket; callbacks handle an event without one. */
module TransportActions {
  import opened Wrappers
  import E = LastChangeEngine
  import I = TransportInvariants
  import L = ServiceLocking
  import T = TransportSteps
  import opened TransportEventing
  import opened TransportThreads

  // ---------------------------------------------------------------- putting schedules together

  lemma {:induction false} TakeConcat(c: Conf, a: seq<Turn>, b: seq<Turn>)
    requires Good(c) && CanTake(c, a) && CanTake(Take(c, a), b)
    ensures CanTake(c, a + b) && Take(c, a + b) == Take(Take(c, a), b)
    decreases |a|
  {
    hide Good, CanTurn, Turned;
    if a == [] {
      assert a + b == b;
    } else {
      TurnKeepsGood(c, a[0]);
      assert (a + b)[1..] == a[1..] + b;
      TakeConcat(Turned(c, a[0]), a[1..], b);
    }
  }

  lemma {:induction false} EventsConcat(a: seq<Turn>, b: seq<Turn>)
    ensures Events(a + b) == Events(a) + Events(b)
    decreases |a|
  {
    if a == [] {
      assert a + b == b;
    } else {
      assert (a + b)[1..] == a[1..] + b;
      EventsConcat(a[1..], b);
      assert EventOf(a[0]) + (Events(a[1..]) + Events(b)) == EventOf(a[0]) + Events(a[1..]) + Events(b);
    }
  }

  /** One turn in front of a schedule. */
  lemma More(c: Conf, turn: Turn, rest: seq<Turn>) returns (turns: seq<Turn>)
    requires Good(c) && CanTurn(c, turn) && Good(Turned(c, turn)) && CanTake(Turned(c, turn), rest)
    ensures turns == [turn] + rest && CanTake(c, turns) && Take(c, turns) == Take(Turned(c, turn), rest)
    ensures Events(turns) == EventOf(turn) + Events(rest)
  {
    hide Good, CanTurn, Turned;
    turns := [turn] + rest;
    assert turns[1..] == rest;
  }

  lemma Nothing(c: Conf)
    requires Good(c)
    ensures CanTake(c, []) && Take(c, []) == c && Events([]) == []
  {
  }

  // ---------------------------------------------------------------- a section can always be made

  /** What a move that writes nothing does to the collector. */
  function AfterMove(e: E.Engine, move: L.Move): E.Engine
    requires e.lastChange < |e.values| && !move.Write?
  {
    if L.EngineOp(move) == Some(E.Start) then e.(open := e.open + 1)
    else if L.EngineOp(move) == Some(E.Finish) && e.open > 0 then E.Notify(e.(open := e.open - 1))
    else e
  }

  lemma MoveIs(s: L.System, i: nat, move: L.Move)
    requires L.Inv(s) && i < |s.threads| && L.Enabled(s, i, move) && move != L.Spawn && !move.Write?
    ensures L.Next(s, i, move).engine == AfterMove(s.engine, move)
  {
    hide E.Notify;
    L.FinishNeverUnderflows(s, i, move);
  }

  lemma PlainStep(c: Conf, i: nat, move: L.Move) returns (next: Conf)
    requires Good(c) && CanTurn(c, Plain(i, move)) && i < |c.s.threads| && move != L.Spawn && !move.Write?
    ensures next == Turned(c, Plain(i, move)) && Good(next)
    ensures next.t == c.t && next.todo == c.todo && next.shown == c.shown && next.draft == c.draft
    ensures next.s.engine == AfterMove(c.s.engine, move)
    ensures next.s.threads == c.s.threads[i := L.NextThread(c.s.threads[i], move)]
    ensures next.s.holder == if L.TakesMutex(move) then Some(i) else if L.ReleasesMutex(move) then None else c.s.holder
  {
    hide Good, E.Step, T.Step;
    TurnKeepsGood(c, Plain(i, move));
    HasInv(c);
    MoveIs(c.s, i, move);
    next := Turned(c, Plain(i, move));
  }

  /** Where a section leaves a thread that was idle before it. */
  ghost predicate IsBack(c: Conf, r: Conf, i: nat, t: T.Transport, draft: Option<string>)
    requires i < |c.s.threads|
  {
    && r.t == t && r.todo == [] && r.s.holder == None && r.draft == draft
    && r.s.threads == c.s.threads[i := c.s.threads[i].(pc := L.Idle)]
  }

  lemma SectionEnds(c: Conf, i: nat) returns (turns: seq<Turn>)
    requires Good(c) && i < |c.s.threads| && c.s.threads[i].pc == L.Started && c.s.holder == Some(i) && c.todo == []
    ensures CanTake(c, turns) && IsBack(c, Take(c, turns), i, c.t, c.draft) && Events(turns) == []
    ensures Take(c, turns).s.engine == AfterMove(c.s.engine, L.Finish)
  {
    hide Good, Turned, T.Step, E.Step, CanTake, Take, Events;
    var finished := PlainStep(c, i, L.Finish);
    var done := PlainStep(finished, i, L.Unlock);
    Nothing(done);
    turns := More(finished, Plain(i, L.Unlock), []);
    turns := More(c, Plain(i, L.Finish), turns);
    assert c.s.threads[i := finished.s.threads[i]][i := done.s.threads[i]] == c.s.threads[i := done.s.threads[i]];
  }

  lemma BeginStep(c: Conf, i: nat, ev: T.Event) returns (next: Conf)
    requires Good(c) && CanTurn(c, Begin(i, ev)) && i < |c.s.threads|
    ensures next == Turned(c, Begin(i, ev)) && Good(next)
    ensures next.t == T.Step(c.t, ev) && next.s.holder == c.s.holder && next.draft == DraftAfter(c, ev)
    ensures next.shown == c.shown && next.todo == T.Writes(c.t, ev) && next.s.engine == AfterMove(c.s.engine, L.Start)
    ensures next.s.threads == c.s.threads[i := c.s.threads[i].(pc := L.Started)]
  {
    hide Good, E.Step, T.Step;
    TurnKeepsGood(c, Begin(i, ev));
    HasInv(c);
    MoveIs(c.s, i, L.Start);
    next := Turned(c, Begin(i, ev));
  }

  lemma WriteStep(c: Conf, i: nat) returns (turn: Turn, next: Conf)
    requires Good(c) && i < |c.s.threads| && c.s.threads[i].pc == L.Started && c.s.holder == Some(i) && c.todo != []
    ensures CanTurn(c, turn) && next == Turned(c, turn) && Good(next)
    ensures next.t == c.t && next.todo == c.todo[1..] && next.s.holder == Some(i) && next.s.threads == c.s.threads
    ensures next.shown == c.shown[c.todo[0].v := c.todo[0].text] && next.draft == c.draft
    ensures turn == Plain(i, L.Write(VarIndex(c.todo[0].v), c.todo[0].text))
  {
    hide Good, E.Step, T.Step, VarIndex;
    turn := Plain(i, L.Write(VarIndex(c.todo[0].v), c.todo[0].text));
    VariableIsThere(c, c.todo[0].v);
    TurnKeepsGood(c, turn);
    next := Turned(c, turn);
    assert c.s.threads[i := c.s.threads[i]] == c.s.threads;
  }

  /** All writes of the event are made, one by one. */
  lemma {:induction false} SectionGoesOn(c: Conf, i: nat) returns (turns: seq<Turn>)
    requires Good(c) && i < |c.s.threads| && c.s.threads[i].pc == L.Started && c.s.holder == Some(i)
    ensures CanTake(c, turns) && IsBack(c, Take(c, turns), i, c.t, c.draft) && Events(turns) == []
    decreases |c.todo|
  {
    if c.todo == [] {
      turns := SectionEnds(c, i);
    } else {
      hide Good, CanTurn, Turned, CanTake, Take, Events;
      var turn, next := WriteStep(c, i);
      turns := SectionGoesOn(next, i);
      turns := More(c, turn, turns);
    }
  }

  lemma VariableIsThere(c: Conf, v: T.Var)
    requires Good(c)
    ensures VarIndex(v) < |c.s.engine.names| && VarIndex(v) != c.s.engine.lastChange
  {
    hide T.Store, VarIndex;
    IsAVariable(c.s.engine, c.shown, v);
  }

  lemma LockingChangesNoDraft(c: Conf, r: Conf, ev: T.Event)
    requires r.t == c.t && r.shown == c.shown && r.draft == c.draft
    ensures InTurn(r, ev) <==> InTurn(c, ev)
    ensures DraftAfter(r, ev) == DraftAfter(c, ev)
  {
    hide T.Reports, T.Draft;
  }

  /** With the mutex free any idle thread can handle any event that locks, to the end. */
  lemma EventCanBeHandled(c: Conf, i: nat, ev: T.Event) returns (turns: seq<Turn>)
    requires Good(c) && i < |c.s.threads| && c.s.threads[i].pc == L.Idle && c.s.holder == None && Locks(c.t, ev)
    requires InTurn(c, ev)
    ensures CanTake(c, turns) && IsBack(c, Take(c, turns), i, T.Step(c.t, ev), DraftAfter(c, ev))
    ensures Events(turns) == [ev]
  {
    hide Good, Turned, T.Step, E.Step, CanTake, Take, Locks, Events, T.Writes, AfterMove, DraftAfter, InTurn;
    var locked := PlainStep(c, i, L.Lock);
    LockingChangesNoDraft(c, locked, ev);
    var begun := BeginStep(locked, i, ev);
    turns := SectionGoesOn(begun, i);
    turns := More(locked, Begin(i, ev), turns);
    turns := More(c, Plain(i, L.Lock), turns);
  }

  lemma NothingDue(c: Conf)
    requires Good(c) && c.s.holder == None
    ensures c.todo == [] && c.shown == c.t.vars
  {
    I.StoreNone(c.shown);
  }

  // ---------------------------------------------------------------- the brackets of an action

  /** Only the threads and the collector have moved. */
  ghost predicate SameTransport(c: Conf, r: Conf) {
    r.t == c.t && r.shown == c.shown && r.todo == c.todo && r.draft == c.draft
  }

  lemma ThreeMoves(c: Conf, i: nat, a: L.Move, b: L.Move, z: L.Move, next: Conf, last: Conf, r: Conf)
    returns (turns: seq<Turn>)
    requires Good(c) && CanTurn(c, Plain(i, a)) && next == Turned(c, Plain(i, a)) && Good(next)
    requires CanTurn(next, Plain(i, b)) && last == Turned(next, Plain(i, b)) && Good(last)
    requires CanTurn(last, Plain(i, z)) && r == Turned(last, Plain(i, z)) && Good(r)
    ensures CanTake(c, turns) && Take(c, turns) == r && Events(turns) == []
  {
    hide Good, CanTurn, Turned, CanTake, Take, Events;
    Nothing(r);
    turns := More(last, Plain(i, z), []);
    turns := More(next, Plain(i, b), turns);
    turns := More(c, Plain(i, a), turns);
  }

  lemma ActionOpens(c: Conf, i: nat) returns (turns: seq<Turn>)
    requires Good(c) && i < |c.s.threads| && c.s.threads[i] == L.Thread(false, L.Idle) && c.s.holder == None
    ensures CanTake(c, turns) && Events(turns) == [] && SameTransport(c, Take(c, turns))
    ensures Take(c, turns).s == L.System(c.s.engine.(open := c.s.engine.open + 1), None,
                                         c.s.threads[i := L.Thread(true, L.Idle)])
  {
    hide Good, Turned, E.Step, E.Notify, CanTake, Take, Events;
    var locked := PlainStep(c, i, L.LockOpen);
    var started := PlainStep(locked, i, L.StartOpen);
    var inside := PlainStep(started, i, L.UnlockOpen);
    turns := ThreeMoves(c, i, L.LockOpen, L.StartOpen, L.UnlockOpen, locked, started, inside);
  }

  lemma ActionCloses(c: Conf, i: nat) returns (turns: seq<Turn>)
    requires Good(c) && i < |c.s.threads| && c.s.threads[i] == L.Thread(true, L.Idle) && c.s.holder == None
    ensures CanTake(c, turns) && Events(turns) == [] && SameTransport(c, Take(c, turns))
    ensures c.s.engine.open > 0 && c.s.engine.lastChange < |c.s.engine.values|
    ensures Take(c, turns).s == L.System(E.Notify(c.s.engine.(open := c.s.engine.open - 1)), None,
                                         c.s.threads[i := L.Thread(false, L.Idle)])
  {
    hide Good, Turned, E.Step, E.Notify, CanTake, Take, Events;
    ActionIsOpen(c, i);
    var locked := PlainStep(c, i, L.LockClose);
    var finished := PlainStep(locked, i, L.FinishClose);
    var closed := PlainStep(finished, i, L.UnlockClose);
    turns := ThreeMoves(c, i, L.LockClose, L.FinishClose, L.UnlockClose, locked, finished, closed);
  }

  lemma ActionIsOpen(c: Conf, i: nat)
    requires Good(c) && i < |c.s.threads| && c.s.threads[i].inAction
    ensures c.s.engine.open > 0 && c.s.engine.lastChange < |c.s.engine.values|
  {
    L.DepthOfUpdate(c.s.threads, i, L.Thread(false, L.Idle));
  }

  /** A new thread comes, idle and outside of any action. */
  lemma Spawned(c: Conf) returns (turns: seq<Turn>)
    requires Good(c)
    ensures CanTake(c, turns) && Events(turns) == [] && SameTransport(c, Take(c, turns))
    ensures Take(c, turns).s == c.s.(threads := c.s.threads + [L.Thread(false, L.Idle)])
  {
    hide Good, CanTake, Take, Events;
    var turn := Plain(0, L.Spawn);
    TurnKeepsGood(c, turn);
    HasInv(c);
    Nothing(Turned(c, turn));
    turns := More(c, turn, []);
  }

  lemma TwoComers(c: Conf) returns (turns: seq<Turn>)
    requires Good(c)
    ensures CanTake(c, turns) && Events(turns) == [] && SameTransport(c, Take(c, turns))
    ensures Take(c, turns).s == c.s.(threads := c.s.threads + [L.Thread(false, L.Idle), L.Thread(false, L.Idle)])
  {
    hide Good, CanTake, Take, Events;
    var first := Spawned(c);
    var second := Spawned(Take(c, first));
    TakeConcat(c, first, second);
    EventsConcat(first, second);
    turns := first + second;
    var idle := L.Thread(false, L.Idle);
    assert c.s.threads + [idle] + [idle] == c.s.threads + [idle, idle];
  }

  /** From rest every action can be carried out, outer bracket and all, to rest again. */
  lemma ActionCanBeDone(c: Conf, i: nat, ev: T.Event) returns (turns: seq<Turn>)
    requires Good(c) && L.Quiet(c.s) && i < |c.s.threads| && c.s.threads[i].pc == L.Idle
    requires Locks(c.t, ev) && InTurn(c, ev)
    ensures CanTake(c, turns) && IsBack(c, Take(c, turns), i, T.Step(c.t, ev), DraftAfter(c, ev))
    ensures Events(turns) == [ev]
  {
    hide Good, Turned, T.Step, E.Step, E.Notify, CanTake, Take, Locks, Events;
    var opening := ActionOpens(c, i);
    var inside := Take(c, opening);
    var section := EventCanBeHandled(inside, i, ev);
    var handled := Take(inside, section);
    var closing := ActionCloses(handled, i);
    TakeConcat(inside, section, closing);
    TakeConcat(c, opening, section + closing);
    EventsConcat(section, closing);
    EventsConcat(opening, section + closing);
    turns := opening + (section + closing);
  }
}
