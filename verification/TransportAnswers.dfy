/** What each action of a controller and each event of the output comes to, in the texts the state
    variables show and the codes the handlers return. */
module TransportAnswers {
  import opened Wrappers
  import opened StringSearch
  import opened TransportSteps
  import opened TransportInvariants
  import DidlWriter
  import UpnpTime

  /** Nothing but these variables is written. */
  ghost predicate KeepsAllBut(t: Transport, r: Transport, written: set<Var>) {
    forall v: Var | v !in written :: r.vars[v] == t.vars[v]
  }

  lemma PlayLeavesOne(t: Transport, ok: bool, v: Var)
    ensures Step(t, Play(ok)).vars[v] == AfterPlay(t, ok, v)
  {
    hide Step, AfterPlay;
    StepLeaves(t, Play(ok), v);
  }

  lemma CoherentNames(t: Transport)
    requires Coherent(t)
    ensures NamesState(t) && ActionsFit(t)
  {
  }

  /** A play in terms of the state, where the names are still those of the state. */
  lemma PlayDoes(t: Transport, ok: bool)
    requires t.state == Stopped || t.state == Playing || t.state == PausedPlayback
    requires t.vars[TransportState] == StateName(t.state)
    ensures var r, begins := Step(t, Play(ok)), t.state != Playing;
      && (begins && ok ==>
            && r.vars[TransportState] == StateName(Playing) && r.vars[Actions] == "PAUSE,STOP,SEEK"
            && r.vars[CurUri] == t.vars[AvUri] && r.vars[CurMeta] == t.vars[AvMeta]
            && r.vars[CurTrack] == (if t.vars[AvUri] == "" then "0" else "1"))
      && r.vars[RelTime] == (if t.state == Stopped then "0:00:00" else t.vars[RelTime])
  {
    hide Step, StateName;
    NamesDiffer(t.state, Playing);
    PlayLeavesOne(t, ok, TransportState);
    PlayLeavesOne(t, ok, Actions);
    PlayLeavesOne(t, ok, CurUri);
    PlayLeavesOne(t, ok, CurMeta);
    PlayLeavesOne(t, ok, CurTrack);
    PlayLeavesOne(t, ok, RelTime);
  }

  lemma PlayKeeps(t: Transport, ok: bool, v: Var)
    requires t.state == Stopped || t.state == Playing || t.state == PausedPlayback
    requires v != RelTime
    requires t.state != Playing && ok ==> v !in {TransportState, Actions, CurUri, CurMeta, CurTrack}
    ensures Step(t, Play(ok)).vars[v] == t.vars[v]
  {
    hide Step;
    PlayLeavesOne(t, ok, v);
  }

  /** Play starts from STOPPED and PAUSED unless the output fails, which is answered by 704; the time is
      set to zero when starting from STOPPED, even then, and the output can call back from then on. */
  lemma PlayAnswers(t: Transport, ok: bool)
    requires Coherent(t)
    ensures var r, begins := Step(t, Play(ok)), t.vars[TransportState] != "PLAYING";
      && ReturnCode(t, Play(ok)) == (if begins && !ok then -1 else 0)
      && ErrorCode(t, Play(ok)) == (if begins && !ok then Some(704) else None)
      && (begins && ok ==>
            && r.vars[TransportState] == "PLAYING" && r.vars[Actions] == "PAUSE,STOP,SEEK"
            && r.vars[CurUri] == t.vars[AvUri] && r.vars[CurMeta] == t.vars[AvMeta]
            && r.vars[CurTrack] == (if t.vars[AvUri] == "" then "0" else "1"))
      && (begins ==> r.output.hasCallback)
      && r.vars[RelTime] == (if t.vars[TransportState] == "STOPPED" then "0:00:00" else t.vars[RelTime])
      && KeepsAllBut(t, r, if begins && ok then {TransportState, Actions, CurUri, CurMeta, CurTrack, RelTime}
                           else {RelTime})
  {
    hide Step, StateName, Coherent, NamesState;
    CoherentNames(t);
    NameTellsState(t);
    NamedByState(t);
    NamesAreSpelled();
    PlayDoes(t, ok);
    PlayGivesCallback(t, ok);
    var begins := t.state != Playing;
    forall v: Var | v !in if begins && ok then {TransportState, Actions, CurUri, CurMeta, CurTrack, RelTime}
                          else {RelTime}
      ensures Step(t, Play(ok)).vars[v] == t.vars[v]
    {
      PlayKeeps(t, ok, v);
    }
  }

  lemma PlayGivesCallback(t: Transport, ok: bool)
    ensures CanStartPlaying(t.state) ==> Step(t, Play(ok)).output.hasCallback
  {
    hide Store, Writes;
  }

  /** Pause is answered by 701 in STOPPED and by 704 if the output fails. */
  lemma PauseAnswers(t: Transport, ok: bool)
    requires Coherent(t)
    ensures var r, was := Step(t, Pause(ok)), t.vars[TransportState];
      && ErrorCode(t, Pause(ok)) == (if was == "STOPPED" then Some(701)
                                     else if was == "PLAYING" && !ok then Some(704)
                                     else None)
      && ReturnCode(t, Pause(ok)) == (if ErrorCode(t, Pause(ok)).Some? then -1 else 0)
      && (was == "PLAYING" && ok ==>
            r.vars[TransportState] == "PAUSED_PLAYBACK" && r.vars[Actions] == "PLAY,STOP,SEEK")
      && KeepsAllBut(t, r, if was == "PLAYING" && ok then {TransportState, Actions} else {})
  {
    hide Step, StateName, Coherent, NamesState, After;
    CoherentNames(t);
    NameTellsState(t);
    NamedByState(t);
    NamesAreSpelled();
    NamesDiffer(t.state, PausedPlayback);
    forall v: Var
      ensures Step(t, Pause(ok)).vars[v]
           == if t.state == Playing && ok then Entered(t.vars, PausedPlayback, v) else t.vars[v]
    {
      PauseLeaves(t, ok, v);
    }
  }

  lemma PauseLeaves(t: Transport, ok: bool, v: Var)
    ensures Step(t, Pause(ok)).vars[v]
         == if t.state == Playing && ok then Entered(t.vars, PausedPlayback, v) else t.vars[v]
  {
    hide Step, Entered;
    StepLeaves(t, Pause(ok), v);
  }

  /** Stop is never refused; the actions tell whether there is a URI to seek in. */
  lemma StopAnswers(t: Transport)
    requires Coherent(t)
    ensures var r, was := Step(t, Stop), t.vars[TransportState];
      && ReturnCode(t, Stop) == 0 && ErrorCode(t, Stop) == None
      && r.vars[TransportState] == "STOPPED"
      && (was != "STOPPED" ==> r.vars[Actions] == if t.vars[AvUri] == "" then "PLAY" else "PLAY,SEEK")
      && KeepsAllBut(t, r, if was != "STOPPED" then {TransportState, Actions} else {})
  {
    hide Step, StateName, Coherent, NamesState, After;
    CoherentNames(t);
    NameTellsState(t);
    NamedByState(t);
    NamesAreSpelled();
    NamesDiffer(t.state, Stopped);
    forall v: Var
      ensures Step(t, Stop).vars[v] == if t.state == Stopped then t.vars[v] else Entered(t.vars, Stopped, v)
    {
      StopLeavesOne(t, v);
    }
  }

  lemma StopLeavesOne(t: Transport, v: Var)
    requires t.state != NoMediaPresent
    ensures Step(t, Stop).vars[v] == if t.state == Stopped then t.vars[v] else Entered(t.vars, Stopped, v)
  {
    hide Step, Entered;
    StepLeaves(t, Stop, v);
  }

  /** In the states that are never entered play and pause are refused with 701, stop only without media. */
  lemma OtherStatesRefuse(t: Transport, ok: bool)
    requires t.state in {Transitioning, PausedRecording, Recording, NoMediaPresent}
    ensures ReturnCode(t, Play(ok)) == ReturnCode(t, Pause(ok)) == -1 && ReturnCode(t, Stop) == 0
    ensures ErrorCode(t, Play(ok)) == ErrorCode(t, Pause(ok)) == Some(701)
    ensures ErrorCode(t, Stop) == if t.state == NoMediaPresent then Some(701) else None
  {
  }

  /** A URI is set in every state; while playing it is the current track's at once. Meta data of the
      stream are wanted without meta data or for an audio item. */
  lemma SetUriAnswers(t: Transport, uri: string, meta: string)
    requires Coherent(t)
    ensures var r, now := Step(t, SetUri(uri, meta)), t.vars[TransportState] == "PLAYING";
      var tracks := if uri == "" then "0" else "1";
      && ReturnCode(t, SetUri(uri, meta)) == 0 && r.state == t.state
      && r.vars[AvUri] == uri && r.vars[AvMeta] == meta && r.vars[NrTracks] == tracks
      && (now ==> r.vars[CurUri] == uri && r.vars[CurMeta] == meta && r.vars[CurTrack] == tracks)
      && KeepsAllBut(t, r, if now then {AvUri, AvMeta, NrTracks, CurUri, CurMeta, CurTrack}
                           else {AvUri, AvMeta, NrTracks})
      && r.output.uri == (if uri == "" then None else Some(uri))
      && (r.output.wantsMeta <==> meta == "" || exists i :: OccursAt(meta, "object.item.audioItem", i))
      && r.output.nextUri == t.output.nextUri && r.output.hasCallback == t.output.hasCallback
  {
    hide Step, StateName, Coherent, NamesState, After, WantsStreamMeta, OccursAt, TrackCount;
    assert TrackCount(uri) == (if uri == "" then "0" else "1") by { TracksAre(uri); }
    CoherentNames(t);
    NameTellsState(t);
    SetUriLeavesOne(t, uri, meta, AvUri);
    SetUriLeavesOne(t, uri, meta, AvMeta);
    SetUriLeavesOne(t, uri, meta, NrTracks);
    SetUriLeavesOne(t, uri, meta, CurUri);
    SetUriLeavesOne(t, uri, meta, CurMeta);
    SetUriLeavesOne(t, uri, meta, CurTrack);
    forall v: Var | v !in {AvUri, AvMeta, NrTracks} && (t.state != Playing || v !in {CurUri, CurMeta, CurTrack})
      ensures Step(t, SetUri(uri, meta)).vars[v] == t.vars[v]
    {
      SetUriLeavesOne(t, uri, meta, v);
    }
    SetUriOutput(t, uri, meta);
    WantsIff(meta);
  }

  lemma TracksAre(uri: string)
    ensures TrackCount(uri) == if uri == "" then "0" else "1"
  {
  }

  lemma SetUriLeavesOne(t: Transport, uri: string, meta: string, v: Var)
    ensures Step(t, SetUri(uri, meta)).vars[v] == Replaced(t.vars, uri, meta, t.state == Playing, v)
  {
    hide Step, Replaced;
    StepLeaves(t, SetUri(uri, meta), v);
  }

  lemma SetUriOutput(t: Transport, uri: string, meta: string)
    ensures var r := Step(t, SetUri(uri, meta));
      && r.state == t.state && r.output.uri == (if uri == "" then None else Some(uri))
      && r.output.wantsMeta == WantsStreamMeta(meta)
      && r.output.nextUri == t.output.nextUri && r.output.hasCallback == t.output.hasCallback
  {
    hide Store, Writes, WantsStreamMeta;
  }

  lemma WantsIff(meta: string)
    ensures WantsStreamMeta(meta) <==> meta == "" || exists i :: OccursAt(meta, "object.item.audioItem", i)
  {
    hide OccursAt, StrStr;
    StrStrFirst(meta, "object.item.audioItem", 0);
    if i :| OccursAt(meta, "object.item.audioItem", i) {
      OccursNotBefore(meta, "object.item.audioItem", i);
    }
  }

  lemma OccursNotBefore(s: string, t: string, i: int)
    requires OccursAt(s, t, i)
    ensures i >= 0
  {
  }

  /** The next URI is set on both sides, even if its meta data is missing, which is an error. */
  lemma SetNextUriAnswers(t: Transport, uri: string, meta: Option<string>)
    ensures var ev := SetNextUri(uri, meta);
      var r := Step(t, ev);
      && ReturnCode(t, ev) == (if meta.None? then -1 else 0)
      && r.vars[NextUri] == uri && (meta.Some? ==> r.vars[NextMeta] == meta.value)
      && KeepsAllBut(t, r, if meta.Some? then {NextUri, NextMeta} else {NextUri})
      && r.output == t.output.(nextUri := if uri == "" then None else Some(uri)) && r.state == t.state
  {
    hide Step, After;
    SetNextOutput(t, uri, meta);
    SetNextLeavesOne(t, uri, meta, NextUri);
    SetNextLeavesOne(t, uri, meta, NextMeta);
    forall v: Var | v != NextUri && (meta.None? || v != NextMeta)
      ensures Step(t, SetNextUri(uri, meta)).vars[v] == t.vars[v]
    {
      SetNextLeavesOne(t, uri, meta, v);
    }
  }

  lemma SetNextOutput(t: Transport, uri: string, meta: Option<string>)
    ensures var r := Step(t, SetNextUri(uri, meta));
      r.output == t.output.(nextUri := if uri == "" then None else Some(uri)) && r.state == t.state
  {
    hide Store, Writes;
  }

  lemma SetNextLeavesOne(t: Transport, uri: string, meta: Option<string>, v: Var)
    ensures Step(t, SetNextUri(uri, meta)).vars[v] == AfterSetNext(t.vars, uri, meta, v)
  {
    hide Step, AfterSetNext;
    StepLeaves(t, SetNextUri(uri, meta), v);
  }

  /** A seek shows its target exactly if it is by REL_TIME and the output follows; it does nothing else
      and is never an error. */
  lemma SeekAnswers(t: Transport, unit: string, target: string, ok: bool)
    ensures var r := Step(t, Seek(unit, target, ok));
      && ReturnCode(t, Seek(unit, target, ok)) == 0
      && r.vars == (if unit == "REL_TIME" && ok then t.vars[RelTime := target] else t.vars)
      && r.state == t.state && r.output == t.output
  {
    hide Store;
    StoreNone(t.vars);
    StoreOne(t.vars, Write(RelTime, target));
  }

  /** The end of a stream with nothing queued leaves no URI behind on either side of the transport. */
  lemma EndAnswers(t: Transport)
    requires Coherent(t) && t.output.hasCallback && t.output.nextUri.None?
    ensures var r := Step(t, EndOfStream);
      && r.vars[AvUri] == r.vars[CurUri] == r.vars[AvMeta] == r.vars[CurMeta] == ""
      && r.vars[NrTracks] == r.vars[CurTrack] == "0" && r.vars[TransportState] == "STOPPED"
      && (t.vars[TransportState] != "STOPPED" ==> r.vars[Actions] == "PLAY")
      && KeepsAllBut(t, r, {AvUri, CurUri, AvMeta, CurMeta, NrTracks, CurTrack, TransportState, Actions})
  {
    hide Step, StateName, Coherent, NamesState, After;
    CoherentNames(t);
    NameTellsState(t);
    NamedByState(t);
    NamesAreSpelled();
    NamesDiffer(t.state, Stopped);
    EndLeavesOne(t, AvUri);
    EndLeavesOne(t, CurUri);
    EndLeavesOne(t, AvMeta);
    EndLeavesOne(t, CurMeta);
    EndLeavesOne(t, NrTracks);
    EndLeavesOne(t, CurTrack);
    EndLeavesOne(t, TransportState);
    EndLeavesOne(t, Actions);
    forall v: Var | v !in {AvUri, CurUri, AvMeta, CurMeta, NrTracks, CurTrack, TransportState, Actions}
      ensures Step(t, EndOfStream).vars[v] == t.vars[v]
    {
      EndLeavesOne(t, v);
    }
  }

  lemma EndLeavesOne(t: Transport, v: Var)
    requires EndsPlayback(t, EndOfStream)
    ensures Step(t, EndOfStream).vars[v] == AfterEnd(t.vars, v)
  {
    hide Step, AfterEnd;
    StepLeaves(t, EndOfStream, v);
  }

  /** What the output does with its URIs at the end of a stream and shortly before: what is queued moves
      up, and shortly before the end the current one goes even if nothing is queued. */
  lemma OutputMovesUp(t: Transport)
    ensures var o, ended, finishing := t.output, Step(t, EndOfStream).output, Step(t, AboutToFinish).output;
      && ended.uri == (if o.nextUri.Some? then o.nextUri else o.uri) && finishing.uri == o.nextUri
      && ended.nextUri == finishing.nextUri == None
      && ended.hasCallback == finishing.hasCallback == o.hasCallback && ended.song == finishing.song == o.song
      && ended.wantsMeta == finishing.wantsMeta == o.wantsMeta
  {
    hide Store, Writes;
  }

  /** A queued stream that starts becomes the transport's and the current track, and nothing is left in
      the queue; the state stays. */
  lemma NextStreamAnswers(t: Transport, ev: Event)
    requires StartsNextStream(t, ev)
    ensures var r, tracks := Step(t, ev), if t.vars[NextUri] == "" then "0" else "1";
      && r.vars[AvUri] == r.vars[CurUri] == t.vars[NextUri] && r.vars[AvMeta] == r.vars[CurMeta] == t.vars[NextMeta]
      && r.vars[NrTracks] == r.vars[CurTrack] == tracks && r.vars[NextUri] == r.vars[NextMeta] == ""
      && r.state == t.state
      && KeepsAllBut(t, r, {AvUri, AvMeta, NrTracks, CurUri, CurMeta, CurTrack, NextUri, NextMeta})
  {
    hide Step, After, StateName;
    NextLeavesOne(t, ev, AvUri);
    NextLeavesOne(t, ev, AvMeta);
    NextLeavesOne(t, ev, NrTracks);
    NextLeavesOne(t, ev, CurUri);
    NextLeavesOne(t, ev, CurMeta);
    NextLeavesOne(t, ev, CurTrack);
    NextLeavesOne(t, ev, NextUri);
    NextLeavesOne(t, ev, NextMeta);
    NextKeepsState(t, ev);
    forall v: Var | v !in {AvUri, AvMeta, NrTracks, CurUri, CurMeta, CurTrack, NextUri, NextMeta}
      ensures Step(t, ev).vars[v] == t.vars[v]
    {
      NextLeavesOne(t, ev, v);
    }
  }

  lemma NextLeavesOne(t: Transport, ev: Event, v: Var)
    requires StartsNextStream(t, ev)
    ensures Step(t, ev).vars[v] == AfterNextStream(t.vars, v)
  {
    hide Step, AfterNextStream;
    StepLeaves(t, ev, v);
  }

  lemma NextKeepsState(t: Transport, ev: Event)
    requires StartsNextStream(t, ev)
    ensures Step(t, ev).state == t.state
  {
    hide Store, Writes;
  }

  /** Without a callback, or with nothing queued shortly before the end, the transport hears nothing. */
  lemma SilentOutput(t: Transport, ev: Event)
    requires (ev == EndOfStream && !t.output.hasCallback)
          || (ev == AboutToFinish && (!t.output.hasCallback || t.output.nextUri.None?))
    ensures Step(t, ev).vars == t.vars && Step(t, ev).state == t.state
  {
    StoreNone(t.vars);
  }

  /** A poll writes the two times only, a document for tags the two meta data only, and collecting tags
      nothing. */
  lemma OthersKeep(t: Transport, ev: Event)
    requires ev.Poll? || ev.MetaUpdate? || ev.Tags?
    ensures KeepsAllBut(t, Step(t, ev), if ev.Poll? then {TrackDuration, RelTime}
                                        else if ev.MetaUpdate? then {AvMeta, CurMeta}
                                        else {})
  {
    hide Step, UpnpTime.Print, UpnpTime.CDiv;
    forall v: Var
      ensures Step(t, ev).vars[v] == After(t, ev, v)
    {
      StepLeaves(t, ev, v);
    }
  }
}
