/** The objects behind TransportSteps: the output's globals of src/output_gstreamer.c, and the
    instance variables and action handlers of src/upnp_transport.c. One method call is what
    happens between service_lock and service_unlock. */
module UpnpTransport {
  import opened Wrappers
  import opened SongMetaData
  import opened TransportSteps
  import DidlWriter
  import StringSearch
  import UpnpTime
  import opened I = TransportInvariants

  // ---------------------------------------------------------------- the output

  datatype PlayFeedback = PlayStopped | PlayStartedNextStream

  class GstOutput {
    var gsuri: Option<string>
    var gsNextUri: Option<string>
    var playTransCallback: bool
    var metaUpdateCallback: bool
    var songMeta: SongMetaData

    ghost function View(): Output
      reads this
    {
      Output(gsuri, gsNextUri, playTransCallback, metaUpdateCallback, songMeta)
    }

    constructor ()
      ensures View() == Boot().output
    {
      gsuri, gsNextUri, playTransCallback, metaUpdateCallback, songMeta := None, None, false, false, NO_SONG;
    }

    /** The callback is remembered even if playing fails. */
    method Play(works: bool) returns (rc: int)
      modifies this
      ensures View() == old(View()).(hasCallback := true) && (rc == 0 <==> works)
    {
      playTransCallback := true;
      rc := if works then 0 else -1;
    }

    method SetNextUri(uri: string)
      modifies this
      ensures View() == old(View()).(nextUri := NonEmpty(uri))
    {
      gsNextUri := if uri != "" then Some(uri) else None;
    }

    method SetUri(uri: string, metaCallback: bool)
      modifies this
      ensures View() == old(View()).(uri := NonEmpty(uri), wantsMeta := metaCallback, song := Cleared(old(songMeta)))
    {
      gsuri := if uri != "" then Some(uri) else None;
      metaUpdateCallback := metaCallback;
      songMeta := songMeta.(title := None, artist := None, album := None, genre := None);
    }

    /** End of stream on the bus: what is reported, if a callback is known. */
    method EndOfStream() returns (feedback: Option<PlayFeedback>)
      modifies this
      ensures View() == if old(gsNextUri).Some? then old(View()).(uri := old(gsNextUri), nextUri := None)
                        else old(View())
      ensures feedback == if !playTransCallback then None
                          else Some(if old(gsNextUri).Some? then PlayStartedNextStream else PlayStopped)
    {
      feedback := None;
      if gsNextUri != None {
        gsuri := gsNextUri;
        gsNextUri := None;
        if playTransCallback {
          feedback := Some(PlayStartedNextStream);
        }
      } else if playTransCallback {
        feedback := Some(PlayStopped);
      }
    }

    /** The about-to-finish signal; without a next URI the current one is dropped. */
    method PrepareNextStream() returns (feedback: Option<PlayFeedback>)
      modifies this
      ensures View() == old(View()).(uri := old(gsNextUri), nextUri := None)
      ensures feedback == if playTransCallback && old(gsNextUri).Some? then Some(PlayStartedNextStream) else None
    {
      feedback := None;
      gsuri := gsNextUri;
      gsNextUri := None;
      if gsuri != None && playTransCallback {
        feedback := Some(PlayStartedNextStream);
      }
    }

    /** A tag list from the stream: is there anything to call the meta callback with? */
    method AddTags(tags: SongMetaData) returns (anyChange: bool)
      modifies this
      ensures View() == if metaUpdateCallback then old(View()).(song := Merge(old(songMeta), tags)) else old(View())
      ensures anyChange <==> metaUpdateCallback && songMeta != old(songMeta)
    {
      anyChange := false;
      if metaUpdateCallback {
        var merged := SongMetaData(Merged(songMeta.title, tags.title), Merged(songMeta.artist, tags.artist),
                                   Merged(songMeta.album, tags.album), Merged(songMeta.genre, tags.genre),
                                   Merged(songMeta.composer, tags.composer));
        anyChange := merged != songMeta;
        songMeta := merged;
      }
    }
  }

  // ---------------------------------------------------------------- writes in order

  lemma StateKeepsUris(vars: Vars, s: State)
    ensures Store(vars, StateWrites(vars, s))[AvUri] == vars[AvUri]
    ensures Store(vars, StateWrites(vars, s))[AvMeta] == vars[AvMeta]
  {
    StoreValue(vars, StateWrites(vars, s), AvUri);
    StoreValue(vars, StateWrites(vars, s), AvMeta);
    OfState(vars, s, AvUri);
    OfState(vars, s, AvMeta);
  }

  lemma PlayIgnoresTime(vars: Vars, text: string)
    ensures PlayWrites(vars[RelTime := text]) == PlayWrites(vars)
  {
  }

  lemma AfterRestart(vars: Vars, vars': Vars, stopped: bool)
    requires vars' == if stopped then vars[RelTime := ZeroTime()] else vars
    ensures vars' == Store(vars, When(stopped, RestartWrites())) && PlayWrites(vars') == PlayWrites(vars)
  {
    hide PlayWrites;
    StoreOne(vars, Write(RelTime, ZeroTime()));
    PlayIgnoresTime(vars, ZeroTime());
  }

  lemma NothingMore(vars: Vars, vars': Vars, front: seq<Write>, rest: seq<Write>)
    requires vars' == Store(vars, front)
    ensures vars' == Store(vars, front + When(false, rest))
  {
    assert front + [] == front;
  }

  lemma AfterUri(vars: Vars, vars': Vars, uri: string, meta: string, current: bool)
    requires var replaced := Store(vars, TransportWrites(uri, meta));
      vars' == if current then Store(replaced, CurrentWrites(uri, meta)) else replaced
    ensures vars' == Store(vars, TransportWrites(uri, meta) + When(current, CurrentWrites(uri, meta)))
  {
    hide TransportWrites, CurrentWrites;
    StoreConcat(vars, TransportWrites(uri, meta), When(current, CurrentWrites(uri, meta)));
    StoreNone(Store(vars, TransportWrites(uri, meta)));
  }

  lemma AfterNextUri(vars: Vars, vars': Vars, uri: string, meta: Option<string>)
    requires vars' == if meta.None? then vars[NextUri := uri] else vars[NextUri := uri][NextMeta := meta.value]
    ensures vars' == Store(vars, SetNextWrites(uri, meta))
  {
    StoreOne(vars, Write(NextUri, uri));
    assert [Write(NextUri, uri)] + [] == [Write(NextUri, uri)];
    if meta.Some? {
      StoreTwo(vars, Write(NextUri, uri), Write(NextMeta, meta.value));
      assert [Write(NextUri, uri)] + [Write(NextMeta, meta.value)]
          == [Write(NextUri, uri), Write(NextMeta, meta.value)];
    }
  }

  lemma AfterClearing(vars: Vars, vars': Vars)
    requires vars' == Store(Store(vars, TransportWrites("", "")), CurrentWrites("", ""))
    ensures vars' == Store(vars, TransportWrites("", "") + CurrentWrites("", ""))
    ensures StateWrites(vars', Stopped) == StateWrites(vars[AvUri := ""], Stopped)
  {
    hide TransportWrites, CurrentWrites, Store;
    var both := TransportWrites("", "") + CurrentWrites("", "");
    StoreConcat(vars, TransportWrites("", ""), CurrentWrites("", ""));
    StoreValue(vars, both, AvUri);
    StoreValue(vars, both, TransportState);
    OfBoth("", "", AvUri);
    OfBoth("", "", TransportState);
  }

  lemma StepOfPoll(t: Transport, duration: int, position: int)
    ensures Step(t, Event.Poll(duration, position, true))
         == t.(vars := Store(t.vars, PollWrites(t, duration, position)), lastDuration := duration,
               lastPosition := UpnpTime.CDiv(position, UpnpTime.SECOND))
    ensures Step(t, Event.Poll(duration, position, false)) == t
  {
    hide Store, PollWrites, UpnpTime.CDiv;
    StoreNone(t.vars);
  }

  lemma PollIsStored(t: Transport, vars': Vars, duration: int, position: int)
    requires var times := if duration == t.lastDuration then t.vars
                          else t.vars[TrackDuration := UpnpTime.Print(duration)];
      vars' == if UpnpTime.CDiv(position, UpnpTime.SECOND) == t.lastPosition then times
               else times[RelTime := UpnpTime.Print(position)]
    ensures vars' == Store(t.vars, PollWrites(t, duration, position))
  {
    hide Store, UpnpTime.Print, UpnpTime.CDiv;
    var a, b := Write(TrackDuration, UpnpTime.Print(duration)), Write(RelTime, UpnpTime.Print(position));
    var front := When(duration != t.lastDuration, [a]);
    var back := When(UpnpTime.CDiv(position, UpnpTime.SECOND) != t.lastPosition, [b]);
    StoreConcat(t.vars, front, back);
    StoreOne(t.vars, a);
    StoreNone(t.vars);
    StoreOne(Store(t.vars, front), b);
    StoreNone(Store(t.vars, front));
  }

  // ---------------------------------------------------------------- the service

  class AvTransport {
    var transportState: State
    var vars: Vars
    var lastDuration: int
    var lastPosition: int
    const output: GstOutput
    const writer: DidlWriter.Writer

    ghost function View(): Transport
      reads this, output, writer
    {
      Transport(transportState, vars, output.View(), lastDuration, lastPosition, writer.xmlId)
    }

    constructor (output: GstOutput, writer: DidlWriter.Writer)
      requires output.View() == Boot().output && writer.xmlId == 42
      ensures this.output == output && this.writer == writer && View() == Boot()
    {
      transportState := Stopped;
      vars := map v: Var | true :: InitialValue(v);
      lastDuration, lastPosition := -1, -1;
      this.output, this.writer := output, writer;
    }

    method ReplaceVar(v: Var, text: string) returns (changed: bool)
      modifies this`vars
      ensures vars == old(vars)[v := text] && (changed <==> old(vars)[v] != text)
    {
      changed := vars[v] != text;
      if changed {
        vars := vars[v := text];
      }
    }

    method ReplaceTransportUriAndMeta(uri: string, meta: string) returns (requiresStreamMetaCallback: bool)
      modifies this`vars
      ensures vars == Store(old(vars), TransportWrites(uri, meta))
      ensures requiresStreamMetaCallback == WantsStreamMeta(meta)
      ensures requiresStreamMetaCallback <==> meta == "" || exists i :: StringSearch.OccursAt(meta, AUDIO_ITEM, i)
    {
      var _ := ReplaceVar(AvUri, uri);
      var _ := ReplaceVar(AvMeta, meta);
      var tracks := if |uri| > 0 then "1" else "0";
      var _ := ReplaceVar(NrTracks, tracks);
      StoreThree(old(vars), Write(AvUri, uri), Write(AvMeta, meta), Write(NrTracks, tracks));
      requiresStreamMetaCallback := |meta| == 0 || StringSearch.StrStr(meta, AUDIO_ITEM, 0).Some?;
      StringSearch.StrStrFirst(meta, AUDIO_ITEM, 0);
    }

    method ReplaceCurrentUriAndMeta(uri: string, meta: string)
      modifies this`vars
      ensures vars == Store(old(vars), CurrentWrites(uri, meta))
    {
      var tracks := if |uri| > 0 then "1" else "0";
      var _ := ReplaceVar(CurTrack, tracks);
      var _ := ReplaceVar(CurUri, uri);
      var _ := ReplaceVar(CurMeta, meta);
      StoreThree(old(vars), Write(CurTrack, tracks), Write(CurUri, uri), Write(CurMeta, meta));
    }

    method ChangeTransportState(newState: State)
      requires newState != NoMediaPresent
      modifies this`transportState, this`vars
      ensures transportState == newState && vars == Store(old(vars), StateWrites(old(vars), newState))
    {
      transportState := newState;
      var changed := ReplaceVar(TransportState, StateName(newState));
      StoreOne(old(vars), Write(TransportState, StateName(newState)));
      if !changed {
        return;
      }
      var availableActions := None;
      match newState {
        case Stopped =>
          if |vars[AvUri]| == 0 {
            availableActions := Some("PLAY");
          } else {
            availableActions := Some("PLAY,SEEK");
          }
        case Playing => availableActions := Some("PAUSE,STOP,SEEK");
        case PausedPlayback => availableActions := Some("PLAY,STOP,SEEK");
        case _ =>
      }
      if availableActions.Some? {
        var _ := ReplaceVar(Actions, availableActions.value);
        StoreTwo(old(vars), Write(TransportState, StateName(newState)), Write(Actions, availableActions.value));
        assert [Write(TransportState, StateName(newState))] + [Write(Actions, availableActions.value)]
            == [Write(TransportState, StateName(newState)), Write(Actions, availableActions.value)];
      }
    }

    // ---------------------------------------------------------------- actions

    /** The handlers return their code and the error number they report to the controller. */
    method Play(works: bool) returns (rc: int, error: Option<int>)
      modifies this`transportState, this`vars, output
      ensures View() == Step(old(View()), Event.Play(works)) && rc == ReturnCode(old(View()), Event.Play(works))
      ensures error == ErrorCode(old(View()), Event.Play(works))
    {
      hide Store, PlayWrites, When, UpnpTime.CDiv, ZeroTime;
      rc, error := 0, None;
      ghost var front, rest := When(transportState == Stopped, RestartWrites()), PlayWrites(vars);
      match transportState {
        case Playing =>
          AfterRestart(vars, vars, false);
          NothingMore(vars, vars, front, rest);
        case Stopped =>
          var _ := ReplaceVar(RelTime, ZeroTime());
          AfterRestart(old(vars), vars, true);
          rc, error := StartOutput(works);
          StoreConcat(old(vars), front, When(works, rest));
        case PausedPlayback =>
          AfterRestart(vars, vars, false);
          rc, error := StartOutput(works);
          StoreConcat(old(vars), front, When(works, rest));
        case _ =>
          AfterRestart(vars, vars, false);
          NothingMore(vars, vars, front, rest);
          rc, error := -1, Some(701);
      }
    }

    /** The common part of playing from STOPPED and from PAUSED. */
    method StartOutput(works: bool) returns (rc: int, error: Option<int>)
      modifies this`transportState, this`vars, output
      ensures output.View() == old(output.View()).(hasCallback := true)
      ensures transportState == if works then Playing else old(transportState)
      ensures vars == Store(old(vars), When(works, PlayWrites(old(vars))))
      ensures rc == (if works then 0 else -1) && error == if works then None else Some(704)
    {
      hide StateWrites, CurrentWrites;
      StoreNone(vars);
      rc := output.Play(works);
      error := None;
      if rc != 0 {
        rc, error := -1, Some(704);
      } else {
        ChangeTransportState(Playing);
        StateKeepsUris(old(vars), Playing);
        ReplaceCurrentUriAndMeta(vars[AvUri], vars[AvMeta]);
        StoreConcat(old(vars), StateWrites(old(vars), Playing), CurrentWrites(old(vars)[AvUri], old(vars)[AvMeta]));
      }
    }

    method PauseStream(works: bool) returns (rc: int, error: Option<int>)
      modifies this`transportState, this`vars
      ensures View() == Step(old(View()), Pause(works)) && rc == ReturnCode(old(View()), Pause(works))
      ensures error == ErrorCode(old(View()), Pause(works))
    {
      hide Store, StateWrites, UpnpTime.CDiv;
      StoreNone(vars);
      rc, error := 0, None;
      match transportState {
        case PausedPlayback =>
        case Playing =>
          if !works {
            rc, error := -1, Some(704);
          } else {
            ChangeTransportState(PausedPlayback);
          }
        case _ =>
          rc, error := -1, Some(701);
      }
    }

    method StopPlaying() returns (rc: int, error: Option<int>)
      modifies this`transportState, this`vars
      ensures View() == Step(old(View()), Event.Stop) && rc == ReturnCode(old(View()), Event.Stop)
      ensures error == ErrorCode(old(View()), Event.Stop)
    {
      hide Store, StateWrites, UpnpTime.CDiv;
      StoreNone(vars);
      rc, error := 0, None;
      match transportState {
        case Stopped =>
        case NoMediaPresent =>
          error := Some(701);
        case _ =>
          ChangeTransportState(Stopped);
      }
    }

    method SetAvTransportUri(uri: string, meta: string) returns (rc: int)
      modifies this`vars, output
      ensures View() == Step(old(View()), Event.SetUri(uri, meta))
      ensures rc == ReturnCode(old(View()), Event.SetUri(uri, meta))
    {
      hide Store, TransportWrites, CurrentWrites, UpnpTime.CDiv, WantsStreamMeta, When;
      var requiresMetaUpdate := ReplaceTransportUriAndMeta(uri, meta);
      if transportState == Playing {
        ReplaceCurrentUriAndMeta(uri, meta);
      }
      AfterUri(old(vars), vars, uri, meta, transportState == Playing);
      output.SetUri(uri, requiresMetaUpdate);
      rc := 0;
    }

    method SetNextAvTransportUri(nextUri: string, nextUriMeta: Option<string>) returns (rc: int)
      modifies this`vars, output
      ensures View() == Step(old(View()), Event.SetNextUri(nextUri, nextUriMeta))
      ensures rc == ReturnCode(old(View()), Event.SetNextUri(nextUri, nextUriMeta))
    {
      hide Store, UpnpTime.CDiv;
      rc := 0;
      output.SetNextUri(nextUri);
      var _ := ReplaceVar(NextUri, nextUri);
      if nextUriMeta == None {
        rc := -1;
      } else {
        var _ := ReplaceVar(NextMeta, nextUriMeta.value);
      }
      AfterNextUri(old(vars), vars, nextUri, nextUriMeta);
    }

    method SeekTo(unit: string, target: string, works: bool) returns (rc: int)
      modifies this`vars
      ensures View() == Step(old(View()), Event.Seek(unit, target, works)) && rc == 0
    {
      hide Store, UpnpTime.CDiv;
      StoreNone(vars);
      if unit == "REL_TIME" {
        if works {
          var _ := ReplaceVar(RelTime, target);
          StoreOne(old(vars), Write(RelTime, target));
        }
      }
      rc := 0;
    }

    // ---------------------------------------------------------------- feedback from the output

    method InformPlayTransition(feedback: PlayFeedback)
      modifies this`transportState, this`vars
      ensures transportState == if feedback == PlayStopped then Stopped else old(transportState)
      ensures feedback == PlayStopped ==> vars == Store(old(vars), EndWrites(old(vars)))
      ensures feedback == PlayStartedNextStream ==> vars == Store(old(vars), NextStreamWrites(old(vars)))
    {
      hide Store, StateWrites, TransportWrites, CurrentWrites;
      match feedback {
        case PlayStopped =>
          var _ := ReplaceTransportUriAndMeta("", "");
          ReplaceCurrentUriAndMeta("", "");
          ghost var cleared := vars;
          AfterClearing(old(vars), vars);
          ChangeTransportState(Stopped);
          StoreConcat(old(vars), TransportWrites("", "") + CurrentWrites("", ""), StateWrites(cleared, Stopped));
        case PlayStartedNextStream =>
          var avUri, avMeta := vars[NextUri], vars[NextMeta];
          var _ := ReplaceTransportUriAndMeta(avUri, avMeta);
          ReplaceCurrentUriAndMeta(avUri, avMeta);
          ghost var replaced := vars;
          var _ := ReplaceVar(NextUri, "");
          var _ := ReplaceVar(NextMeta, "");
          StoreConcat(old(vars), TransportWrites(avUri, avMeta), CurrentWrites(avUri, avMeta));
          StoreTwo(replaced, Write(NextUri, ""), Write(NextMeta, ""));
          StoreConcat(old(vars), TransportWrites(avUri, avMeta) + CurrentWrites(avUri, avMeta),
                      [Write(NextUri, ""), Write(NextMeta, "")]);
      }
    }

    method OnEndOfStream()
      modifies this`transportState, this`vars, output
      ensures View() == Step(old(View()), Event.EndOfStream)
    {
      hide Store, NextStreamWrites, EndWrites, UpnpTime.CDiv;
      StoreNone(vars);
      var feedback := output.EndOfStream();
      if feedback.Some? {
        InformPlayTransition(feedback.value);
      }
    }

    method OnAboutToFinish()
      modifies this`transportState, this`vars, output
      ensures View() == Step(old(View()), Event.AboutToFinish)
    {
      hide Store, NextStreamWrites, EndWrites, UpnpTime.CDiv;
      StoreNone(vars);
      var feedback := output.PrepareNextStream();
      if feedback.Some? {
        InformPlayTransition(feedback.value);
      }
    }

    /** Tags from the stream; all texts are C strings. */
    method OnTags(tags: SongMetaData)
      requires DidlWriter.IsCSong(Merge(output.songMeta, tags)) && DidlWriter.NoNul(vars[AvMeta])
      modifies this`vars, output, writer
      ensures View() == Streamed(old(View()), tags)
    {
      var didl := CollectTags(tags);
      if didl.Some? {
        PutMeta(didl.value);
      }
    }

    /** What is done before the lock is taken: the output's song and the document edited for it. */
    method CollectTags(tags: SongMetaData) returns (didl: Option<string>)
      requires DidlWriter.IsCSong(Merge(output.songMeta, tags)) && DidlWriter.NoNul(vars[AvMeta])
      modifies output, writer
      ensures View() == Step(old(View()), Event.Tags(tags))
      ensures didl == if Reports(old(View()).output, tags) then Some(StreamDidl(old(View()), tags)) else None
    {
      hide Store, UpnpTime.CDiv, Merge, DidlFor, DidlWriter.UniqueId;
      StoreNone(vars);
      didl := None;
      var anyChange := output.AddTags(tags);
      if anyChange {
        didl := DraftMeta(output.songMeta);
      }
    }

    method DraftMeta(meta: SongMetaData) returns (didl: Option<string>)
      requires DidlWriter.IsCSong(meta) && DidlWriter.NoNul(vars[AvMeta])
      modifies writer
      ensures var titled := meta.title.Some? && meta.title.value != "";
        && writer.xmlId == (if titled then (old(writer.xmlId) + 1) % 0x1_0000_0000 else old(writer.xmlId))
        && didl == if titled then Some(DidlFor(meta, Some(vars[AvMeta]), DidlWriter.UniqueId(old(writer.xmlId))))
                   else None
    {
      hide DidlFor, DidlWriter.UniqueId;
      if meta.title == None || |meta.title.value| == 0 {
        return None;
      }
      var text := writer.ToDidl(meta, Some(vars[AvMeta]));
      didl := Some(text[..text.Length - 1]);
    }

    /** What is done under the lock. */
    method PutMeta(didl: string)
      modifies this`vars
      ensures View() == Step(old(View()), MetaUpdate(didl))
    {
      hide Store, UpnpTime.CDiv;
      var _ := ReplaceVar(AvMeta, didl);
      var _ := ReplaceVar(CurMeta, didl);
      StoreTwo(old(vars), Write(AvMeta, didl), Write(CurMeta, didl));
    }

    // ---------------------------------------------------------------- the polling thread

    /** One round of the polling loop. */
    method UpdateTrackTime(duration: int, position: int, works: bool)
      modifies this`vars, this`lastDuration, this`lastPosition
      ensures View() == Step(old(View()), Event.Poll(duration, position, works))
    {
      hide Store, UpnpTime.CDiv, UpnpTime.Print, Step;
      StepOfPoll(View(), duration, position);
      if works {
        if duration != lastDuration {
          var tbuf := UpnpTime.PrintUpnpTime(duration);
          var _ := ReplaceVar(TrackDuration, tbuf);
          lastDuration := duration;
        }
        var second := UpnpTime.CDiv(position, UpnpTime.SECOND);
        if second != lastPosition {
          var tbuf := UpnpTime.PrintUpnpTime(position);
          var _ := ReplaceVar(RelTime, tbuf);
          lastPosition := second;
        }
        PollIsStored(old(View()), vars, duration, position);
      }
    }
  }
}
