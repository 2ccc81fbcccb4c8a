/** The hazard of joining inside a transaction is real: two overlapping actions that set the next URI
    bring the service there, at a moment when the mutex is free for the subscriber. */
module TransportHazard {
  import opened Wrappers
  import opened LastChangeDocument
  import E = LastChangeEngine
  import R = LastChangeReplay
  import H = LateSubscriber
  import L = ServiceLocking
  import T = TransportSteps
  import I = TransportInvariants
  import opened DeclaredVariables
  import opened SnapshotHazard
  import opened TransportEventing
  import opened TransportThreads
  import opened TransportActions

  /** A SetNextAVTransportURI that leaves the meta data of the next URI as it is. */
  function SetNext(t: T.Transport, uri: string): T.Event {
    T.SetNextUri(uri, Some(t.vars[T.NextMeta]))
  }

  /** A write inside a transaction: a change is stored and queued. */
  function Queued(e: E.Engine, v: nat, text: string): E.Engine
    requires v < |e.names| == |e.values|
  {
    if e.values[v] == text then e
    else e.(values := e.values[v := text], pending := e.pending + [E.ElementFor(e, v, text)])
  }

  /** The variable is written there and back in overlapping transactions, and the last one closes. */
  function Rounded(e: E.Engine, v: nat, text: string): E.Engine
    requires v < |e.names| == |e.values| && e.lastChange < |e.values|
  {
    E.Notify(Queued(Queued(e.(open := 1), v, text), v, e.values[v]).(open := 0))
  }

  lemma WriteIs(e: E.Engine, v: nat, text: string)
    requires E.Valid(e) && e.open > 0 && v < |e.names| && v !in e.ignored
    ensures E.SetValue(e, v, text) == Queued(e, v, text)
  {
  }

  // ---------------------------------------------------------------- the section of the action

  lemma NextIsReported(c: Conf, v: T.Var)
    requires Good(c) && (v == T.NextUri || v == T.NextMeta)
    ensures VarIndex(v) < |c.s.engine.names| == |c.s.engine.values| && VarIndex(v) !in c.s.engine.ignored
    ensures c.s.engine.values[VarIndex(v)] == c.shown[v]
  {
  }

  lemma QueueStep(c: Conf, i: nat) returns (turn: Turn, next: Conf)
    requires Good(c) && i < |c.s.threads| && c.s.threads[i].pc == L.Started && c.s.holder == Some(i)
    requires c.todo != [] && (c.todo[0].v == T.NextUri || c.todo[0].v == T.NextMeta)
    ensures CanTurn(c, turn) && next == Turned(c, turn) && Good(next) && EventOf(turn) == []
    ensures next.t == c.t && next.todo == c.todo[1..] && next.s.holder == Some(i) && next.s.threads == c.s.threads
    ensures next.draft == c.draft && next.shown == c.shown[c.todo[0].v := c.todo[0].text]
    ensures var v := VarIndex(c.todo[0].v);
      v < |c.s.engine.names| == |c.s.engine.values| && next.s.engine == Queued(c.s.engine, v, c.todo[0].text)
  {
    hide Good, E.SetValue, VarIndex, Queued;
    HasInv(c);
    InsideIsOpen(c.s, i);
    NextIsReported(c, c.todo[0].v);
    EngineIsValid(c);
    WriteIs(c.s.engine, VarIndex(c.todo[0].v), c.todo[0].text);
    turn, next := WriteStep(c, i);
  }

  lemma EngineIsValid(c: Conf)
    requires Good(c)
    ensures E.Valid(c.s.engine)
  {
  }

  lemma NextIndices()
    ensures VarIndex(T.NextUri) == 1 && VarIndex(T.NextMeta) == 2
  {
  }

  lemma StillOpen(c: Conf, i: nat)
    requires Good(c) && i < |c.s.threads| && c.s.threads[i] == L.Thread(true, L.Started)
    ensures c.s.engine.open > 1 && c.s.engine.lastChange < |c.s.engine.values|
  {
    L.DepthOfUpdate(c.s.threads, i, L.Thread(false, L.Idle));
  }

  /** Inside of an action the end of a section flushes nothing. */
  lemma SectionEndsInside(c: Conf, i: nat) returns (turns: seq<Turn>)
    requires Good(c) && i < |c.s.threads| && c.s.threads[i] == L.Thread(true, L.Started)
    requires c.s.holder == Some(i) && c.todo == []
    ensures CanTake(c, turns) && IsBack(c, Take(c, turns), i, c.t, c.draft) && Events(turns) == []
    ensures c.s.engine.open > 0 && Take(c, turns).s.engine == c.s.engine.(open := c.s.engine.open - 1)
  {
    hide Good, Turned, CanTake, Take, Events, T.Step, E.Step;
    StillOpen(c, i);
    turns := SectionEnds(c, i);
  }

  /** The section's two writes. */
  lemma SectionQueues(c: Conf, i: nat, uri: string) returns (turns: seq<Turn>)
    requires Good(c) && i < |c.s.threads| && c.s.threads[i] == L.Thread(true, L.Started) && c.s.holder == Some(i)
    requires c.todo == [T.Write(T.NextUri, uri), T.Write(T.NextMeta, c.shown[T.NextMeta])]
    ensures CanTake(c, turns) && IsBack(c, Take(c, turns), i, c.t, c.draft) && Events(turns) == []
    ensures c.s.engine.open > 0 && 1 < |c.s.engine.names| == |c.s.engine.values|
    ensures Take(c, turns).s.engine == Queued(c.s.engine.(open := c.s.engine.open - 1), 1, uri)
  {
    hide Good, Turned, CanTurn, CanTake, Take, Events, T.Step, E.Step;
    NextIndices();
    var first, half := QueueStep(c, i);
    var second, written := QueueStep(half, i);
    NextIsReported(half, T.NextMeta);
    turns := SectionEndsInside(written, i);
    turns := More(half, second, turns);
    turns := More(c, first, turns);
  }

  /** The section by which an action with its outer bracket open sets the next URI. */
  lemma SectionSetsNext(c: Conf, i: nat, uri: string) returns (turns: seq<Turn>)
    requires Good(c) && i < |c.s.threads| && c.s.threads[i] == L.Thread(true, L.Idle) && c.s.holder == None
    ensures CanTake(c, turns) && IsBack(c, Take(c, turns), i, T.Step(c.t, SetNext(c.t, uri)), c.draft)
    ensures 1 < |c.s.engine.names| == |c.s.engine.values|
    ensures Take(c, turns).s.engine == Queued(c.s.engine, 1, uri) && Events(turns) == [SetNext(c.t, uri)]
  {
    hide Good, Turned, CanTake, Take, Events, T.Step, E.Step;
    NothingDue(c);
    var locked := PlainStep(c, i, L.Lock);
    var begun := BeginStep(locked, i, SetNext(c.t, uri));
    assert begun.todo == [T.Write(T.NextUri, uri), T.Write(T.NextMeta, c.t.vars[T.NextMeta])];
    turns := SectionQueues(begun, i, uri);
    turns := More(locked, Begin(i, SetNext(c.t, uri)), turns);
    turns := More(c, Plain(i, L.Lock), turns);
  }

  // ---------------------------------------------------------------- two actions that overlap

  /** An action opens its bracket and sets the next URI. */
  lemma OpensAndSets(c: Conf, i: nat, uri: string) returns (turns: seq<Turn>)
    requires Good(c) && i < |c.s.threads| && c.s.threads[i] == L.Thread(false, L.Idle) && c.s.holder == None
    ensures CanTake(c, turns) && Events(turns) == [SetNext(c.t, uri)]
    ensures Take(c, turns).t == T.Step(c.t, SetNext(c.t, uri))
    ensures 1 < |c.s.engine.names| == |c.s.engine.values|
    ensures Take(c, turns).s == L.System(Queued(c.s.engine.(open := c.s.engine.open + 1), 1, uri), None,
                                         c.s.threads[i := L.Thread(true, L.Idle)])
  {
    hide Good, CanTake, Take, Events, T.Step;
    var opening := ActionOpens(c, i);
    var inside := Take(c, opening);
    var section := SectionSetsNext(inside, i, uri);
    turns := opening + section;
    TakeConcat(c, opening, section);
    EventsConcat(opening, section);
  }

  /** Within it another action sets the next URI, and both close. */
  lemma SetsAndBothClose(c: Conf, i: nat, j: nat, uri: string) returns (turns: seq<Turn>)
    requires Good(c) && i < |c.s.threads| && c.s.threads[i] == L.Thread(true, L.Idle) && c.s.holder == None
    requires j < |c.s.threads| && c.s.threads[j] == L.Thread(false, L.Idle) && c.s.engine.open == 1
    ensures CanTake(c, turns) && Events(turns) == [SetNext(c.t, uri)]
    ensures Take(c, turns).t == T.Step(c.t, SetNext(c.t, uri))
    ensures 1 < |c.s.engine.names| == |c.s.engine.values| && c.s.engine.lastChange < |c.s.engine.values|
    ensures Take(c, turns).s == L.System(E.Notify(Queued(c.s.engine, 1, uri).(open := 0)), None,
                                         c.s.threads[i := L.Thread(false, L.Idle)])
  {
    hide Good, CanTake, Take, Events, T.Step;
    var first := OpensAndSets(c, j, uri);
    var written := Take(c, first);
    var second := ActionCloses(written, j);
    var one := Take(written, second);
    var third := ActionCloses(one, i);
    TakeConcat(written, second, third);
    TakeConcat(c, first, second + third);
    EventsConcat(second, third);
    EventsConcat(first, second + third);
    turns := first + (second + third);
  }

  // ---------------------------------------------------------------- what the collector makes of it

  /** The first round leaves a document of both changes behind as the last one. */
  lemma FirstRound(e: E.Engine, v: nat, uri: string)
    requires E.Valid(e) && e.open == 0 && v in H.Reported(e) && e.values[v] != uri
    ensures var r := Rounded(e, v, uri);
      && E.Valid(r) && H.Recorded(r) && v in H.Reported(r) && r.open == 0 && r.values[v] == e.values[v]
      && E.LastDoc(r) == [E.ElementFor(r, v, uri), E.ElementFor(r, v, r.values[v])]
  {
    hide Print, Read, E.LastDoc;
    var there, back := E.ElementFor(e, v, uri), E.ElementFor(e, v, e.values[v]);
    assert e.values[v := uri][v := e.values[v]] == e.values;
    assert [] + [there] + [back] == [there, back];
    var full := e.(pending := [there, back]);
    E.NotifyEffect(full);
  }

  /** After the first write of a second round there is a hazard; the second write makes the same
      document again, so nothing is sent. */
  lemma SecondRound(e: E.Engine, v: nat, uri: string)
    requires E.Valid(e) && H.Recorded(e) && e.open == 0 && v in H.Reported(e) && e.values[v] != uri
    requires E.LastDoc(e) == [E.ElementFor(e, v, uri), E.ElementFor(e, v, e.values[v])]
    ensures var half := Queued(e.(open := 1), v, uri);
      && E.Valid(half) && Hazard(half) && v in H.Reported(half) && half.values[v] == uri
      && half.wire == e.wire && half.ignored == e.ignored && Rounded(e, v, uri) == e.(pending := [])
  {
    hide Print, Read, E.LastDoc, Hazard;
    var there, back := E.ElementFor(e, v, uri), E.ElementFor(e, v, e.values[v]);
    assert e.values[v := uri][v := e.values[v]] == e.values;
    assert [] + [there] + [back] == [there, back] && [] + [there] == [there];
    var half := e.(open := 1, values := e.values[v := uri], pending := [there]);
    SameLastDoc(e, half);
    HalfWritten(half, v, uri, e.values[v]);
  }

  lemma SameLastDoc(e: E.Engine, r: E.Engine)
    requires E.Valid(e) && E.Valid(r) && r.ns == e.ns && r.lastChange == e.lastChange
    requires r.values[r.lastChange] == e.values[e.lastChange]
    ensures E.LastDoc(r) == E.LastDoc(e)
  {
    hide Read;
  }

  // ---------------------------------------------------------------- the schedule

  lemma QuietEngine(c: Conf)
    requires Good(c) && L.Quiet(c.s)
    ensures E.Valid(c.s.engine) && c.s.engine.open == 0
  {
    L.ZeroTotal(c.s.threads);
  }

  lemma SetNextLeaves(t: T.Transport, uri: string)
    ensures T.Step(t, SetNext(t, uri)).vars == t.vars[T.NextUri := uri]
  {
    hide T.Store;
    var a, b := T.Write(T.NextUri, uri), T.Write(T.NextMeta, t.vars[T.NextMeta]);
    assert T.Writes(t, SetNext(t, uri)) == [a, b];
    I.StoreTwo(t.vars, a, b);
    assert t.vars[T.NextUri := uri][T.NextMeta := t.vars[T.NextMeta]] == t.vars[T.NextUri := uri];
  }

  /** Two overlapping actions set the next URI and set it back. */
  lemma OneRound(c: Conf, i: nat, j: nat, uri: string)
    returns (first: seq<Turn>, half: Conf, second: seq<Turn>, round: Conf)
    requires Good(c) && L.Quiet(c.s) && i < |c.s.threads| && j < |c.s.threads| && i != j
    requires c.s.threads[i] == c.s.threads[j] == L.Thread(false, L.Idle)
    ensures CanTake(c, first) && half == Take(c, first) && half.s.holder == None
    ensures CanTake(half, second) && round == Take(half, second)
    ensures 1 < |c.s.engine.names| == |c.s.engine.values| && c.s.engine.lastChange < |c.s.engine.values|
    ensures half.s.engine == Queued(c.s.engine.(open := 1), 1, uri)
    ensures round.s == c.s.(engine := Rounded(c.s.engine, 1, uri))
    ensures half.t.vars[T.NextUri] == uri && round.t.vars == c.t.vars
    ensures Events(first) == [SetNext(c.t, uri)] && Events(second) == [SetNext(c.t, c.t.vars[T.NextUri])]
  {
    hide Good, CanTake, Take, T.Step;
    QuietEngine(c);
    first := OpensAndSets(c, i, uri);
    half := Take(c, first);
    var back := c.t.vars[T.NextUri];
    SetNextLeaves(c.t, uri);
    SetNextLeaves(half.t, back);
    assert c.t.vars[T.NextUri := uri][T.NextUri := back] == c.t.vars;
    NothingDue(c);
    NextIndices();
    NextIsReported(c, T.NextUri);
    second := SetsAndBothClose(half, i, j, back);
    round := Take(half, second);
    assert c.s.threads[i := L.Thread(true, L.Idle)][i := L.Thread(false, L.Idle)] == c.s.threads;
  }

  lemma RunOfTurns(c: Conf, turns: seq<Turn>) returns (ops: seq<E.Op>)
    requires Good(c) && CanTake(c, turns)
    ensures E.Valid(c.s.engine) && E.CanRun(c.s.engine, ops) && Take(c, turns).s.engine == E.Run(c.s.engine, ops)
  {
    hide Good, CanTake, Take, L.Go, L.CanGo, E.Run, E.CanRun, L.OpsOf, Moves;
    EngineIsValid(c);
    HasInv(c);
    TurnsAreMoves(c, turns);
    L.InterleavingIsARun(c.s, Moves(turns));
    ops := L.OpsOf(Moves(turns));
  }

  /** Is a controller that joined at the one configuration stale at the other? */
  ghost predicate IsStale(joined: Conf, now: Conf)
    requires Good(joined) && Good(now)
  {
    var (e, r) := (joined.s.engine, now.s.engine);
    L.Quiet(now.s) && e.wire <= r.wire && !R.Agrees(r, H.Joined(e, r), H.Reported(r))
  }

  lemma SilenceIsStale(joined: Conf, later: seq<Turn>, v: nat)
    requires Good(joined) && CanTake(joined, later) && L.Quiet(Take(joined, later).s)
    requires var (e, now) := (joined.s.engine, Take(joined, later).s.engine);
      v in H.Reported(e) && now.wire == e.wire && now.ignored == e.ignored && now.values[v] != e.values[v]
    ensures IsStale(joined, Take(joined, later))
  {
    hide Good, CanTake, Take, E.Run, E.CanRun, H.Reported, H.Joined, R.Agrees, E.Valid;
    var ops := RunOfTurns(joined, later);
    QuietEngine(Take(joined, later));
    SilentMoveIsStale(joined.s.engine, ops, v);
  }

  /** From every quiet state two actions that overlap, each setting the next URI, lead to a moment at
      which the mutex is free and a subscriber joins in a hazard: when the same two then set it
      back, all is quiet again and the subscriber is left with the wrong URI. */
  lemma HazardByActions(c: Conf, uri: string) returns (moves: seq<Turn>, later: seq<Turn>)
    requires Good(c) && L.Quiet(c.s) && VarIndex(T.NextUri) in H.Reported(c.s.engine) && uri != c.t.vars[T.NextUri]
    ensures CanTake(c, moves)
    ensures var joined := Take(c, moves);
      && joined.s.holder == None && Hazard(joined.s.engine) && CanTake(joined, later)
      && IsStale(joined, Take(joined, later)) && Take(joined, later).t.vars == c.t.vars
    ensures var there, back := SetNext(c.t, uri), SetNext(c.t, c.t.vars[T.NextUri]);
      Events(moves) == [there, back, there] && Events(later) == [back]
  {
    hide Good, CanTake, Take, Events, E.Valid, H.Reported, Hazard, IsStale, H.Recorded, E.LastDoc, Rounded, Queued;
    NextIndices();
    var n := |c.s.threads|;
    var coming := TwoComers(c);
    var come := Take(c, coming);
    QuietEngine(c);
    NothingDue(come);
    NextIsReported(come, T.NextUri);
    var first, half, second, round := OneRound(come, n, n + 1, uri);
    FirstRound(c.s.engine, 1, uri);
    var third, joined, fourth, end := OneRound(round, n, n + 1, uri);
    SecondRound(round.s.engine, 1, uri);
    later := fourth;
    TakeConcat(half, second, third);
    TakeConcat(come, first, second + third);
    TakeConcat(c, coming, first + (second + third));
    EventsConcat(second, third);
    EventsConcat(first, second + third);
    EventsConcat(coming, first + (second + third));
    moves := coming + (first + (second + third));
    SilenceIsStale(joined, later, 1);
  }

  lemma NextUriIsReported(ns: string, names: seq<string>, values: seq<string>, turns: seq<Turn>)
    requires TransportTable(names, values) && CanTake(BootConf(ns, names, values), turns)
    ensures E.Valid(Take(BootConf(ns, names, values), turns).s.engine)
    ensures VarIndex(T.NextUri) in H.Reported(Take(BootConf(ns, names, values), turns).s.engine)
  {
    hide Good, CanTake, Take, E.Run, E.CanRun, H.Reported, VarIndex, VarName, T.InitialValue, Unevented, L.OpsOf, Moves;
    var c := Take(BootConf(ns, names, values), turns);
    OpsOfTurns(ns, names, values, turns);
    EngineIsValid(c);
    MirrorsShown(c);
    IgnoresFour(c);
    VarIsReported(c.s.engine, c.shown, T.NextUri);
  }

  lemma MirrorsShown(c: Conf)
    requires Good(c)
    ensures Mirrors(c.s.engine, c.shown)
  {
  }

  /** So it can happen after any schedule that has come to rest. */
  lemma HazardFromBoot(ns: string, names: seq<string>, values: seq<string>, earlier: seq<Turn>, uri: string)
    returns (moves: seq<Turn>, later: seq<Turn>)
    requires TransportTable(names, values) && CanTake(BootConf(ns, names, values), earlier)
    requires var c := Take(BootConf(ns, names, values), earlier); L.Quiet(c.s) && uri != c.t.vars[T.NextUri]
    ensures var c := Take(BootConf(ns, names, values), earlier);
      && CanTake(c, moves)
      && var joined := Take(c, moves);
        && joined.s.holder == None && Hazard(joined.s.engine) && CanTake(joined, later)
        && IsStale(joined, Take(joined, later)) && Take(joined, later).t.vars == c.t.vars
  {
    hide Good, CanTake, Take, Hazard, IsStale, H.Reported, E.Valid, TransportTable, Events;
    NextUriIsReported(ns, names, values, earlier);
    moves, later := HazardByActions(Take(BootConf(ns, names, values), earlier), uri);
  }

  /** The service as declared, just started. */
  ghost function Service(): Conf {
    TableIsDeclared();
    BootConf(NAMESPACE, NAMES, DEFAULTS)
  }

  lemma ServiceIsQuiet()
    ensures Good(Service()) && L.Quiet(Service().s) && Service().t == T.Boot()
  {
    hide Good, BootConf, L.Quiet, T.Boot, TransportTable, NAMES, DEFAULTS;
    TableIsDeclared();
    BootIsQuiet(NAMESPACE, NAMES, DEFAULTS);
  }

  /** In particular every URI will do in a service that has just started. */
  lemma HazardInService(uri: string) returns (moves: seq<Turn>, later: seq<Turn>)
    requires uri != ""
    ensures Good(Service()) && CanTake(Service(), moves)
    ensures var joined := Take(Service(), moves);
      && joined.s.holder == None && Hazard(joined.s.engine) && CanTake(joined, later)
      && IsStale(joined, Take(joined, later)) && Take(joined, later).t.vars == T.Boot().vars
  {
    hide Good, CanTake, Take, Hazard, IsStale, H.Reported, E.Valid, TransportTable, Events, BootConf, NAMES, DEFAULTS;
    TableIsDeclared();
    ServiceIsQuiet();
    Nothing(Service());
    NextIsUnset();
    moves, later := HazardFromBoot(NAMESPACE, NAMES, DEFAULTS, [], uri);
  }

  lemma NextIsUnset()
    ensures T.Boot().vars[T.NextUri] == ""
  {
  }
}
