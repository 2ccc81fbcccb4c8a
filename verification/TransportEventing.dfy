/** The transport's writes go through the eventing engine: how its variables are numbered and named,
    when an engine holds them, and what a controller that agrees with the engine sees of them. */
module TransportEventing {
  import opened Wrappers
  import opened LastChangeEngine
  import opened LastChangeReplay
  import opened LateSubscriber
  import LastChangeDocument
  import T = TransportSteps
  import I = TransportInvariants

  const VARIABLES := 30
  const LAST_CHANGE := 26

  /** The numbers of enum transport_variable_t. */
  function VarIndex(v: T.Var): (i: nat)
    ensures i < VARIABLES && i != LAST_CHANGE
  {
    match v
    case NextUri => 1
    case NextMeta => 2
    case CurMeta => 3
    case RelTime => 8
    case CurTrack => 14
    case CurUri => 15
    case Actions => 16
    case NrTracks => 17
    case AvUri => 18
    case AvMeta => 23
    case TrackDuration => 27
    case TransportState => 28
  }

  /** The name each of them is declared with. */
  function VarName(v: T.Var): string {
    match v
    case NextUri => "NextAVTransportURI"
    case NextMeta => "NextAVTransportURIMetaData"
    case CurMeta => "CurrentTrackMetaData"
    case RelTime => "RelativeTimePosition"
    case CurTrack => "CurrentTrack"
    case CurUri => "CurrentTrackURI"
    case Actions => "CurrentTransportActions"
    case NrTracks => "NumberOfTracks"
    case AvUri => "AVTransportURI"
    case AvMeta => "AVTransportURIMetaData"
    case TrackDuration => "CurrentTrackDuration"
    case TransportState => "TransportState"
  }

  lemma NamesAreReported(v: T.Var)
    ensures InSnapshot(VarName(v))
  {
    assert VarName(v)[0] != 'L' && VarName(v)[1] != '_';
    assert "LastChange"[0] == 'L' && "A_ARG_TYPE_"[1] == '_';
  }

  lemma VarIndexInjective(v: T.Var, w: T.Var)
    ensures VarIndex(v) == VarIndex(w) <==> v == w
  {
  }

  /** Does handling the event lock the service? */
  predicate Locks(t: T.Transport, ev: T.Event) {
    match ev
    case Seek(unit, _, _) => T.IsRelTime(unit)
    case Tags(_) => false
    case EndOfStream => t.output.hasCallback
    case AboutToFinish => T.StartsNextStream(t, ev)
    case _ => true
  }

  // ---------------------------------------------------------------- the store holds the transport's variables

  ghost predicate Mirrors(e: Engine, vars: T.Vars) {
    && Valid(e) && |e.names| == VARIABLES && e.lastChange == LAST_CHANGE
    && forall v: T.Var :: e.values[VarIndex(v)] == vars[v]
  }

  lemma IsValid(e: Engine, vars: T.Vars)
    requires Mirrors(e, vars)
    ensures Valid(e) && |e.names| == VARIABLES
  {
  }

  lemma OneChange(e: Engine, vars: T.Vars, w: T.Write)
    requires Mirrors(e, vars) && e.open > 0
    ensures var r := Step(e, Change(VarIndex(w.v), w.text));
      Mirrors(r, vars[w.v := w.text]) && r.open == e.open && r.ignored == e.ignored
  {
    hide VarIndex, LastChangeDocument.Print;
    forall v: T.Var
      ensures VarIndex(v) == VarIndex(w.v) <==> v == w.v
    {
      VarIndexInjective(v, w.v);
    }
  }

  lemma RunOne(e: Engine, op: Op)
    requires Valid(e) && CanStep(e, op)
    ensures CanRun(e, [op]) && Run(e, [op]) == Step(e, op)
  {
    hide Step;
    RunFirst(e, op, []);
    assert [op] + [] == [op];
  }

  lemma IsAVariable(e: Engine, vars: T.Vars, v: T.Var)
    requires Mirrors(e, vars)
    ensures VarIndex(v) < |e.names| && VarIndex(v) != e.lastChange
  {
  }

  lemma StartMirrors(e: Engine, vars: T.Vars)
    requires Mirrors(e, vars)
    ensures Mirrors(Step(e, Start), vars)
  {
  }

  lemma FinishMirrors(e: Engine, vars: T.Vars)
    requires Mirrors(e, vars) && e.open > 0
    ensures var r := Step(e, Finish); Mirrors(r, vars) && r.open == e.open - 1 && r.ignored == e.ignored
  {
  }

  lemma UnlockedWritesNothing(t: T.Transport, ev: T.Event)
    requires !Locks(t, ev)
    ensures T.Writes(t, ev) == []
  {
  }

  // ---------------------------------------------------------------- the controller

  /** The four variables the service takes out of eventing: relative and absolute times and counters. */
  function Unevented(): seq<Op> {
    [Ignore(8), Ignore(13), Ignore(4), Ignore(19)]
  }

  /** A table of variables as the service declares it. */
  ghost predicate TransportTable(names: seq<string>, values: seq<string>) {
    && ValidTable(names, values, LAST_CHANGE) && |names| == VARIABLES
    && forall v: T.Var :: names[VarIndex(v)] == VarName(v) && values[VarIndex(v)] == T.InitialValue(v)
  }

  lemma IgnoreMirrors(e: Engine, vars: T.Vars, i: nat)
    requires Mirrors(e, vars) && e.open == 0 && i < VARIABLES
    ensures CanStep(e, Ignore(i))
    ensures var r := Step(e, Ignore(i)); Mirrors(r, vars) && r.open == 0 && r.ignored == e.ignored + {i}
  {
  }

  lemma UneventedMirror(e: Engine, vars: T.Vars)
    requires Mirrors(e, vars) && e.open == 0
    ensures CanRun(e, Unevented())
    ensures var r := Run(e, Unevented()); Mirrors(r, vars) && r.open == 0 && r.ignored == e.ignored + {8, 13, 4, 19}
  {
    hide Mirrors, Step;
    IsValid(e, vars);
    IgnoreMirrors(e, vars, 8);
    var e1 := Step(e, Ignore(8));
    IgnoreMirrors(e1, vars, 13);
    var e2 := Step(e1, Ignore(13));
    IgnoreMirrors(e2, vars, 4);
    var e3 := Step(e2, Ignore(4));
    IgnoreMirrors(e3, vars, 19);
    RunOne(e3, Ignore(19));
    RunFirst(e2, Ignore(4), [Ignore(19)]);
    RunFirst(e1, Ignore(13), [Ignore(4)] + [Ignore(19)]);
    RunFirst(e, Ignore(8), [Ignore(13)] + ([Ignore(4)] + [Ignore(19)]));
    assert Unevented() == [Ignore(8)] + ([Ignore(13)] + ([Ignore(4)] + [Ignore(19)]));
  }

  lemma BuildMirrors(ns: string, names: seq<string>, values: seq<string>)
    requires TransportTable(names, values)
    ensures var e := Build(ns, names, values, LAST_CHANGE); Mirrors(e, T.Boot().vars) && e.open == 0
  {
    hide VarIndex, T.InitialValue;
  }

  lemma IsEvented(v: T.Var)
    requires v != T.RelTime
    ensures VarIndex(v) !in {LAST_CHANGE, 8, 13, 4, 19}
  {
  }

  lemma IsTracked(ignored: set<nat>, i: nat)
    requires i < VARIABLES && i !in ignored
    ensures i in AllVariables(VARIABLES) - ignored
  {
    hide AllVariables;
  }

  lemma AgreesAt(e: Engine, vars: T.Vars, seen: map<string, string>, v: T.Var)
    requires Mirrors(e, vars) && VarIndex(v) in AllVariables(VARIABLES) - e.ignored
    requires Agrees(e, seen, AllVariables(VARIABLES) - e.ignored)
    ensures At(seen, e.names[VarIndex(v)]) == Some(vars[v])
  {
    hide At, VarIndex, AllVariables;
  }

  lemma AgreesWithVars(e: Engine, vars: T.Vars, seen: map<string, string>)
    requires Mirrors(e, vars) && Agrees(e, seen, AllVariables(VARIABLES) - e.ignored)
    requires e.ignored == {LAST_CHANGE, 8, 13, 4, 19}
    ensures forall v: T.Var | v != T.RelTime :: At(seen, e.names[VarIndex(v)]) == Some(vars[v])
  {
    hide At, VarIndex, Agrees, AllVariables;
    forall v: T.Var | v != T.RelTime
      ensures At(seen, e.names[VarIndex(v)]) == Some(vars[v])
    {
      IsEvented(v);
      IsTracked(e.ignored, VarIndex(v));
      AgreesAt(e, vars, seen, v);
    }
  }

  /** A controller's picture of the transport is coherent: the name it knows is the state's, the
      actions are those of the state, while playing the current track is the one that was set, and
      the track numbers are 1 exactly for a URI that is not empty. */
  ghost predicate SeesCoherent(seen: map<string, string>, state: T.State) {
    && (match state
        case Stopped =>
          At(seen, "TransportState") == Some("STOPPED")
          && At(seen, "CurrentTransportActions") in {Some("PLAY"), Some("PLAY,SEEK")}
        case Playing =>
          && At(seen, "TransportState") == Some("PLAYING")
          && At(seen, "CurrentTransportActions") == Some("PAUSE,STOP,SEEK")
          && At(seen, "AVTransportURI") == At(seen, "CurrentTrackURI")
          && At(seen, "AVTransportURIMetaData") == At(seen, "CurrentTrackMetaData")
        case PausedPlayback =>
          At(seen, "TransportState") == Some("PAUSED_PLAYBACK")
          && At(seen, "CurrentTransportActions") == Some("PLAY,STOP,SEEK")
        case _ => false)
    && At(seen, "NumberOfTracks") == (if At(seen, "AVTransportURI") == Some("") then Some("0") else Some("1"))
    && At(seen, "CurrentTrack") == (if At(seen, "CurrentTrackURI") == Some("") then Some("0") else Some("1"))
  }

  lemma SeeingIsCoherent(seen: map<string, string>, t: T.Transport)
    requires I.Coherent(t) && forall v: T.Var | v != T.RelTime :: At(seen, VarName(v)) == Some(t.vars[v])
    ensures SeesCoherent(seen, t.state)
  {
    hide VarName, At;
    NamesSpelled();
    assert At(seen, VarName(T.TransportState)) == Some(t.vars[T.TransportState]);
    assert At(seen, VarName(T.Actions)) == Some(t.vars[T.Actions]);
    assert At(seen, VarName(T.AvUri)) == Some(t.vars[T.AvUri]) && At(seen, VarName(T.CurUri)) == Some(t.vars[T.CurUri]);
    assert At(seen, VarName(T.AvMeta)) == Some(t.vars[T.AvMeta]);
    assert At(seen, VarName(T.CurMeta)) == Some(t.vars[T.CurMeta]);
    assert At(seen, VarName(T.NrTracks)) == Some(t.vars[T.NrTracks]);
    assert At(seen, VarName(T.CurTrack)) == Some(t.vars[T.CurTrack]);
  }

  lemma NamesSpelled()
    ensures VarName(T.TransportState) == "TransportState" && VarName(T.Actions) == "CurrentTransportActions"
    ensures VarName(T.AvUri) == "AVTransportURI" && VarName(T.CurUri) == "CurrentTrackURI"
    ensures VarName(T.AvMeta) == "AVTransportURIMetaData" && VarName(T.CurMeta) == "CurrentTrackMetaData"
    ensures VarName(T.NrTracks) == "NumberOfTracks" && VarName(T.CurTrack) == "CurrentTrack"
  {
  }

  lemma VarIsReported(e: Engine, vars: T.Vars, v: T.Var)
    requires Mirrors(e, vars) && e.ignored == {LAST_CHANGE, 8, 13, 4, 19} && v != T.RelTime
    requires e.names[VarIndex(v)] == VarName(v)
    ensures VarIndex(v) in Reported(e)
  {
    hide VarIndex, VarName, AllVariables;
    IsEvented(v);
    NamesAreReported(v);
  }

  lemma HoldsValue(e: Engine, vars: T.Vars, seen: map<string, string>, v: T.Var)
    requires Mirrors(e, vars) && e.names[VarIndex(v)] == VarName(v)
    requires VarIndex(v) in Reported(e) && Agrees(e, seen, Reported(e))
    ensures At(seen, VarName(v)) == Some(vars[v])
  {
    hide VarIndex, VarName, Reported;
  }
}
