/** What every run of the AVTransport service keeps. */
module TransportInvariants {
  import opened Wrappers
  import opened TransportSteps
  import opened SongMetaData
  import UpnpTime

  /** The value a variable has after some writes. */
  function LastWrite(ws: seq<Write>, v: Var): Option<string> {
    if ws == [] then None
    else if ws[|ws| - 1].v == v then Some(ws[|ws| - 1].text)
    else LastWrite(ws[..|ws| - 1], v)
  }

  function OrElse(known: Option<string>, text: string): string {
    if known.Some? then known.value else text
  }

  lemma {:induction false} StoreValue(vars: Vars, ws: seq<Write>, v: Var)
    ensures Store(vars, ws)[v] == OrElse(LastWrite(ws, v), vars[v])
  {
    if ws != [] {
      StoreValue(vars, ws[..|ws| - 1], v);
    }
  }

  lemma {:induction false} LastWriteConcat(a: seq<Write>, b: seq<Write>, v: Var)
    ensures LastWrite(a + b, v) == if LastWrite(b, v).Some? then LastWrite(b, v) else LastWrite(a, v)
  {
    if b == [] {
      assert a + b == a;
    } else {
      assert (a + b)[..|a + b| - 1] == a + b[..|b| - 1];
      LastWriteConcat(a, b[..|b| - 1], v);
    }
  }

  lemma LastOfOne(w: Write, v: Var)
    ensures LastWrite([w], v) == if w.v == v then Some(w.text) else None
  {
    assert [w][..0] == [];
  }

  lemma LastOfTwo(a: Write, b: Write, v: Var)
    ensures LastWrite([a, b], v) == if b.v == v then Some(b.text) else if a.v == v then Some(a.text) else None
  {
    assert [a, b] == [a] + [b];
    LastWriteConcat([a], [b], v);
    LastOfOne(a, v);
    LastOfOne(b, v);
  }

  lemma LastOfThree(a: Write, b: Write, c: Write, v: Var)
    ensures LastWrite([a, b, c], v)
         == if c.v == v then Some(c.text)
            else if b.v == v then Some(b.text)
            else if a.v == v then Some(a.text)
            else None
  {
    assert [a, b, c] == [a, b] + [c];
    LastWriteConcat([a, b], [c], v);
    LastOfTwo(a, b, v);
    LastOfOne(c, v);
  }

  lemma {:induction false} StoreConcat(vars: Vars, a: seq<Write>, b: seq<Write>)
    ensures Store(vars, a + b) == Store(Store(vars, a), b)
  {
    if b == [] {
      assert a + b == a;
    } else {
      assert (a + b)[..|a + b| - 1] == a + b[..|b| - 1];
      StoreConcat(vars, a, b[..|b| - 1]);
    }
  }

  lemma StoreNone(vars: Vars)
    ensures Store(vars, []) == vars
  {
  }

  lemma StoreOne(vars: Vars, w: Write)
    ensures Store(vars, [w]) == vars[w.v := w.text]
  {
    assert [w][..0] == [];
  }

  lemma StoreTwo(vars: Vars, a: Write, b: Write)
    ensures Store(vars, [a, b]) == vars[a.v := a.text][b.v := b.text]
  {
    assert [a, b] == [a] + [b];
    StoreConcat(vars, [a], [b]);
    StoreOne(vars, a);
    StoreOne(vars[a.v := a.text], b);
  }

  lemma StoreThree(vars: Vars, a: Write, b: Write, c: Write)
    ensures Store(vars, [a, b, c]) == vars[a.v := a.text][b.v := b.text][c.v := c.text]
  {
    assert [a, b, c] == [a, b] + [c];
    StoreConcat(vars, [a, b], [c]);
    StoreTwo(vars, a, b);
    StoreOne(vars[a.v := a.text][b.v := b.text], c);
  }

  lemma OfWhen(condition: bool, ws: seq<Write>, v: Var)
    ensures LastWrite(When(condition, ws), v) == if condition then LastWrite(ws, v) else None
  {
  }

  // ---------------------------------------------------------------- what each group of writes leaves

  lemma OfTransport(uri: string, meta: string, v: Var)
    ensures LastWrite(TransportWrites(uri, meta), v) ==
      match v
      case AvUri => Some(uri)
      case AvMeta => Some(meta)
      case NrTracks => Some(TrackCount(uri))
      case _ => None
  {
    LastOfThree(Write(AvUri, uri), Write(AvMeta, meta), Write(NrTracks, TrackCount(uri)), v);
  }

  lemma OfCurrent(uri: string, meta: string, v: Var)
    ensures LastWrite(CurrentWrites(uri, meta), v) ==
      match v
      case CurUri => Some(uri)
      case CurMeta => Some(meta)
      case CurTrack => Some(TrackCount(uri))
      case _ => None
  {
    LastOfThree(Write(CurTrack, TrackCount(uri)), Write(CurUri, uri), Write(CurMeta, meta), v);
  }

  lemma OfBoth(uri: string, meta: string, v: Var)
    ensures LastWrite(TransportWrites(uri, meta) + CurrentWrites(uri, meta), v) ==
      match v
      case AvUri => Some(uri)
      case CurUri => Some(uri)
      case AvMeta => Some(meta)
      case CurMeta => Some(meta)
      case NrTracks => Some(TrackCount(uri))
      case CurTrack => Some(TrackCount(uri))
      case _ => None
  {
    LastWriteConcat(TransportWrites(uri, meta), CurrentWrites(uri, meta), v);
    OfTransport(uri, meta, v);
    OfCurrent(uri, meta, v);
  }

  lemma OfState(vars: Vars, s: State, v: Var)
    ensures LastWrite(StateWrites(vars, s), v) ==
      match v
      case TransportState => Some(StateName(s))
      case Actions => if vars[TransportState] == StateName(s) then None else ActionsIn(s, vars[AvUri])
      case _ => None
  {
    hide LastWrite, When, StateName;
    var name, actions := Write(TransportState, StateName(s)), ActionsIn(s, vars[AvUri]);
    LastOfOne(name, v);
    if actions.None? {
      assert [name] + [] == [name];
    } else {
      var follow := [Write(Actions, actions.value)];
      LastOfOne(follow[0], v);
      OfWhen(vars[TransportState] != StateName(s), follow, v);
      LastWriteConcat([name], When(vars[TransportState] != StateName(s), follow), v);
    }
  }

  lemma OfRestart(v: Var)
    ensures LastWrite(RestartWrites(), v) == if v == RelTime then Some(ZeroTime()) else None
  {
    LastOfOne(Write(RelTime, ZeroTime()), v);
  }

  lemma OfTags(didl: string, v: Var)
    ensures LastWrite(TagWrites(didl), v) == if v == AvMeta || v == CurMeta then Some(didl) else None
  {
    LastOfTwo(Write(AvMeta, didl), Write(CurMeta, didl), v);
  }

  lemma OfPlay(vars: Vars, v: Var)
    ensures LastWrite(PlayWrites(vars), v) ==
      match v
      case CurUri => Some(vars[AvUri])
      case CurMeta => Some(vars[AvMeta])
      case CurTrack => Some(TrackCount(vars[AvUri]))
      case _ => LastWrite(StateWrites(vars, Playing), v)
  {
    LastWriteConcat(StateWrites(vars, Playing), CurrentWrites(vars[AvUri], vars[AvMeta]), v);
    OfCurrent(vars[AvUri], vars[AvMeta], v);
    OfState(vars, Playing, v);
  }

  lemma OfNextStream(vars: Vars, v: Var)
    ensures LastWrite(NextStreamWrites(vars), v) ==
      if v == NextUri || v == NextMeta then Some("")
      else LastWrite(TransportWrites(vars[NextUri], vars[NextMeta]) + CurrentWrites(vars[NextUri], vars[NextMeta]), v)
  {
    var both := TransportWrites(vars[NextUri], vars[NextMeta]) + CurrentWrites(vars[NextUri], vars[NextMeta]);
    LastWriteConcat(both, [Write(NextUri, ""), Write(NextMeta, "")], v);
    LastOfTwo(Write(NextUri, ""), Write(NextMeta, ""), v);
  }

  lemma OfEnd(vars: Vars, v: Var)
    ensures LastWrite(EndWrites(vars), v) ==
      if v == TransportState || v == Actions then LastWrite(StateWrites(vars[AvUri := ""], Stopped), v)
      else LastWrite(TransportWrites("", "") + CurrentWrites("", ""), v)
  {
    hide TransportWrites, CurrentWrites, StateWrites, LastWrite;
    LastWriteConcat(TransportWrites("", "") + CurrentWrites("", ""), StateWrites(vars[AvUri := ""], Stopped), v);
    OfBoth("", "", v);
    OfState(vars[AvUri := ""], Stopped, v);
  }

  // ---------------------------------------------------------------- what an event leaves in each variable

  /** Entering a state. */
  function Entered(vars: Vars, s: State, v: Var): string {
    match v
    case TransportState => StateName(s)
    case Actions =>
      if vars[TransportState] == StateName(s) then vars[Actions] else OrElse(ActionsIn(s, vars[AvUri]), vars[Actions])
    case _ => vars[v]
  }

  /** Making a URI and its meta data the transport's, and the current track's if `current`. */
  function Replaced(vars: Vars, uri: string, meta: string, current: bool, v: Var): string {
    match v
    case AvUri => uri
    case AvMeta => meta
    case NrTracks => TrackCount(uri)
    case CurUri => if current then uri else vars[v]
    case CurMeta => if current then meta else vars[v]
    case CurTrack => if current then TrackCount(uri) else vars[v]
    case _ => vars[v]
  }

  function AfterStart(vars: Vars, v: Var): string {
    match v
    case CurUri => vars[AvUri]
    case CurMeta => vars[AvMeta]
    case CurTrack => TrackCount(vars[AvUri])
    case _ => Entered(vars, Playing, v)
  }

  function AfterPlay(t: Transport, ok: bool, v: Var): string {
    if v == RelTime && t.state == Stopped then ZeroTime()
    else if CanStartPlaying(t.state) && ok then AfterStart(t.vars, v)
    else t.vars[v]
  }

  function AfterPoll(t: Transport, duration: int, position: int, v: Var): string {
    if v == TrackDuration && duration != t.lastDuration then UpnpTime.Print(duration)
    else if v == RelTime && UpnpTime.CDiv(position, UpnpTime.SECOND) != t.lastPosition then UpnpTime.Print(position)
    else t.vars[v]
  }

  function AfterNextStream(vars: Vars, v: Var): string {
    if v == NextUri || v == NextMeta then "" else Replaced(vars, vars[NextUri], vars[NextMeta], true, v)
  }

  function AfterEnd(vars: Vars, v: Var): string {
    if v == TransportState || v == Actions then Entered(vars[AvUri := ""], Stopped, v)
    else Replaced(vars, "", "", true, v)
  }

  function AfterSetNext(vars: Vars, uri: string, meta: Option<string>, v: Var): string {
    if v == NextUri then uri else if v == NextMeta then OrElse(meta, vars[v]) else vars[v]
  }

  /** The value of a variable after an event. */
  function After(t: Transport, ev: Event, v: Var): string {
    match ev
    case Play(ok) => AfterPlay(t, ok, v)
    case Pause(ok) => if t.state == Playing && ok then Entered(t.vars, PausedPlayback, v) else t.vars[v]
    case Stop => if t.state == Stopped || t.state == NoMediaPresent then t.vars[v] else Entered(t.vars, Stopped, v)
    case SetUri(uri, meta) => Replaced(t.vars, uri, meta, t.state == Playing, v)
    case SetNextUri(uri, meta) => AfterSetNext(t.vars, uri, meta, v)
    case Seek(unit, target, ok) => if v == RelTime && IsRelTime(unit) && ok then target else t.vars[v]
    case MetaUpdate(didl) => if v == AvMeta || v == CurMeta then didl else t.vars[v]
    case Poll(duration, position, ok) => if ok then AfterPoll(t, duration, position, v) else t.vars[v]
    case _ =>
      if StartsNextStream(t, ev) then AfterNextStream(t.vars, v)
      else if EndsPlayback(t, ev) then AfterEnd(t.vars, v)
      else t.vars[v]
  }

  lemma PlayLeaves(t: Transport, ok: bool, v: Var)
    ensures OrElse(LastWrite(When(t.state == Stopped, RestartWrites())
                             + When(CanStartPlaying(t.state) && ok, PlayWrites(t.vars)), v), t.vars[v])
         == AfterPlay(t, ok, v)
  {
    hide LastWrite, PlayWrites, ZeroTime, When, RestartWrites, AfterStart;
    var front, rest := RestartWrites(), PlayWrites(t.vars);
    OfWhen(t.state == Stopped, front, v);
    OfWhen(CanStartPlaying(t.state) && ok, rest, v);
    LastWriteConcat(When(t.state == Stopped, front), When(CanStartPlaying(t.state) && ok, rest), v);
    OfRestart(v);
    StartLeaves(t.vars, v);
  }

  lemma StartLeaves(vars: Vars, v: Var)
    ensures OrElse(LastWrite(PlayWrites(vars), v), vars[v]) == AfterStart(vars, v)
    ensures v == RelTime ==> LastWrite(PlayWrites(vars), v) == None
  {
    hide LastWrite, PlayWrites, StateWrites, Entered, TrackCount;
    OfPlay(vars, v);
    StateLeaves(vars, Playing, v);
    if v == RelTime {
      StateLeavesOthers(vars, Playing, v);
    }
  }

  lemma StateLeavesOthers(vars: Vars, s: State, v: Var)
    requires v != TransportState && v != Actions
    ensures LastWrite(StateWrites(vars, s), v) == None && Entered(vars, s, v) == vars[v]
  {
    hide LastWrite, StateWrites;
    OfState(vars, s, v);
  }

  lemma StateLeaves(vars: Vars, s: State, v: Var)
    ensures OrElse(LastWrite(StateWrites(vars, s), v), vars[v]) == Entered(vars, s, v)
  {
    hide LastWrite, StateWrites, StateName;
    OfState(vars, s, v);
  }

  lemma UriLeaves(vars: Vars, uri: string, meta: string, current: bool, v: Var)
    ensures OrElse(LastWrite(TransportWrites(uri, meta) + When(current, CurrentWrites(uri, meta)), v), vars[v])
         == Replaced(vars, uri, meta, current, v)
  {
    hide LastWrite, TransportWrites, CurrentWrites, When;
    OfWhen(current, CurrentWrites(uri, meta), v);
    LastWriteConcat(TransportWrites(uri, meta), When(current, CurrentWrites(uri, meta)), v);
    OfTransport(uri, meta, v);
    OfCurrent(uri, meta, v);
  }

  lemma NextUriLeaves(vars: Vars, uri: string, meta: Option<string>, v: Var)
    ensures OrElse(LastWrite(SetNextWrites(uri, meta), v), vars[v]) == AfterSetNext(vars, uri, meta, v)
  {
    hide LastWrite;
    LastOfOne(Write(NextUri, uri), v);
    assert [Write(NextUri, uri)] + [] == [Write(NextUri, uri)];
    if meta.Some? {
      assert [Write(NextUri, uri)] + [Write(NextMeta, meta.value)]
          == [Write(NextUri, uri), Write(NextMeta, meta.value)];
      LastOfTwo(Write(NextUri, uri), Write(NextMeta, meta.value), v);
    }
  }

  lemma PollLeaves(t: Transport, duration: int, position: int, v: Var)
    ensures OrElse(LastWrite(PollWrites(t, duration, position), v), t.vars[v]) == AfterPoll(t, duration, position, v)
  {
    hide LastWrite, UpnpTime.Print, UpnpTime.CDiv, When;
    var a, b := [Write(TrackDuration, UpnpTime.Print(duration))], [Write(RelTime, UpnpTime.Print(position))];
    var second := UpnpTime.CDiv(position, UpnpTime.SECOND);
    OfWhen(duration != t.lastDuration, a, v);
    OfWhen(second != t.lastPosition, b, v);
    LastWriteConcat(When(duration != t.lastDuration, a), When(second != t.lastPosition, b), v);
    LastOfOne(a[0], v);
    LastOfOne(b[0], v);
  }

  lemma NextStreamLeaves(vars: Vars, v: Var)
    ensures OrElse(LastWrite(NextStreamWrites(vars), v), vars[v]) == AfterNextStream(vars, v)
  {
    hide LastWrite, NextStreamWrites, TransportWrites, CurrentWrites;
    OfNextStream(vars, v);
    OfBoth(vars[NextUri], vars[NextMeta], v);
  }

  lemma EndLeaves(vars: Vars, v: Var)
    ensures OrElse(LastWrite(EndWrites(vars), v), vars[v]) == AfterEnd(vars, v)
  {
    hide LastWrite, EndWrites, TransportWrites, CurrentWrites, StateWrites, Entered, TrackCount, ActionsIn, StateName;
    OfEnd(vars, v);
    OfBoth("", "", v);
    StateLeaves(vars[AvUri := ""], Stopped, v);
  }

  /** The writes of an event, carried out in order, leave exactly these values. */
  lemma StepLeaves(t: Transport, ev: Event, v: Var)
    ensures Step(t, ev).vars[v] == After(t, ev, v)
  {
    StoreValue(t.vars, Writes(t, ev), v);
    WritesLeave(t, ev, v);
  }

  lemma ActionsLeave(t: Transport, ev: Event, v: Var)
    requires ev.Play? || ev.Pause? || ev.Stop?
    ensures OrElse(LastWrite(Writes(t, ev), v), t.vars[v]) == After(t, ev, v)
  {
    hide LastWrite, StateWrites, PlayWrites, AfterPlay, Entered, When, ZeroTime;
    match ev
    case Play(ok) => PlayLeaves(t, ok, v);
    case Pause(ok) =>
      OfWhen(t.state == Playing && ok, StateWrites(t.vars, PausedPlayback), v);
      StateLeaves(t.vars, PausedPlayback, v);
    case Stop =>
      OfWhen(t.state != Stopped && t.state != NoMediaPresent, StateWrites(t.vars, Stopped), v);
      StateLeaves(t.vars, Stopped, v);
  }

  lemma UrisLeave(t: Transport, ev: Event, v: Var)
    requires ev.SetUri? || ev.SetNextUri?
    ensures OrElse(LastWrite(Writes(t, ev), v), t.vars[v]) == After(t, ev, v)
  {
    hide LastWrite, TransportWrites, CurrentWrites, SetNextWrites, AfterSetNext, Replaced, When;
    match ev
    case SetUri(uri, meta) => UriLeaves(t.vars, uri, meta, t.state == Playing, v);
    case SetNextUri(uri, meta) => NextUriLeaves(t.vars, uri, meta, v);
  }

  lemma MetaLeaves(t: Transport, didl: string, v: Var)
    ensures OrElse(LastWrite(Writes(t, MetaUpdate(didl)), v), t.vars[v]) == After(t, MetaUpdate(didl), v)
  {
    hide LastWrite, When, ZeroTime, IsRelTime;
    hide Entered, Replaced, AfterPlay, AfterPoll, AfterSetNext, AfterNextStream, AfterEnd;
    hide StateWrites, PlayWrites, TransportWrites, CurrentWrites, SetNextWrites;
    hide PollWrites, NextStreamWrites, EndWrites, TagWrites;
    OfTags(didl, v);
  }

  lemma TagsLeave(t: Transport, tags: SongMetaData, v: Var)
    ensures OrElse(LastWrite(Writes(t, Tags(tags)), v), t.vars[v]) == After(t, Tags(tags), v)
  {
  }

  lemma SeekLeaves(t: Transport, unit: string, target: string, ok: bool, v: Var)
    ensures OrElse(LastWrite(Writes(t, Seek(unit, target, ok)), v), t.vars[v]) == After(t, Seek(unit, target, ok), v)
  {
    hide LastWrite, When, IsRelTime;
    OfWhen(IsRelTime(unit) && ok, [Write(RelTime, target)], v);
    LastOfOne(Write(RelTime, target), v);
  }

  lemma PolledLeaves(t: Transport, duration: int, position: int, ok: bool, v: Var)
    ensures var ev := Poll(duration, position, ok); OrElse(LastWrite(Writes(t, ev), v), t.vars[v]) == After(t, ev, v)
  {
    hide LastWrite, When, PollWrites, AfterPoll;
    OfWhen(ok, PollWrites(t, duration, position), v);
    PollLeaves(t, duration, position, v);
  }

  lemma OutputLeaves(t: Transport, ev: Event, v: Var)
    requires ev.EndOfStream? || ev.AboutToFinish?
    ensures OrElse(LastWrite(Writes(t, ev), v), t.vars[v]) == After(t, ev, v)
  {
    hide LastWrite, NextStreamWrites, EndWrites, AfterNextStream, AfterEnd, When;
    OfWhen(EndsPlayback(t, ev), EndWrites(t.vars), v);
    NextStreamLeaves(t.vars, v);
    EndLeaves(t.vars, v);
  }

  lemma WritesLeave(t: Transport, ev: Event, v: Var)
    ensures OrElse(LastWrite(Writes(t, ev), v), t.vars[v]) == After(t, ev, v)
  {
    hide LastWrite, Writes, After;
    match ev
    case SetUri(_, _) => UrisLeave(t, ev, v);
    case SetNextUri(_, _) => UrisLeave(t, ev, v);
    case Tags(tags) => TagsLeave(t, tags, v);
    case MetaUpdate(didl) => MetaLeaves(t, didl, v);
    case Seek(unit, target, ok) => SeekLeaves(t, unit, target, ok, v);
    case Poll(duration, position, ok) => PolledLeaves(t, duration, position, ok, v);
    case EndOfStream => OutputLeaves(t, ev, v);
    case AboutToFinish => OutputLeaves(t, ev, v);
    case _ => ActionsLeave(t, ev, v);
  }

  // ---------------------------------------------------------------- coherence

  /** Only three of the seven states occur, and the variable names the state. */
  predicate NamesState(t: Transport) {
    match t.state
    case Stopped => t.vars[TransportState] == "STOPPED"
    case Playing => t.vars[TransportState] == "PLAYING"
    case PausedPlayback => t.vars[TransportState] == "PAUSED_PLAYBACK"
    case _ => false
  }

  lemma NamesAreSpelled()
    ensures StateName(Stopped) == "STOPPED" && StateName(Playing) == "PLAYING"
    ensures StateName(PausedPlayback) == "PAUSED_PLAYBACK"
    ensures StateName(Transitioning) == "TRANSITIONING" && StateName(PausedRecording) == "PAUSED_RECORDING"
    ensures StateName(Recording) == "RECORDING" && StateName(NoMediaPresent) == "NO_MEDIA_PRESENT"
  {
  }

  lemma NamedByState(t: Transport)
    requires NamesState(t)
    ensures t.vars[TransportState] == StateName(t.state)
    ensures t.state == Stopped || t.state == Playing || t.state == PausedPlayback
  {
    hide StateName;
    NamesAreSpelled();
  }

  /** Three names occur, each for one state. */
  lemma NameTellsState(t: Transport)
    requires NamesState(t)
    ensures t.vars[TransportState] in {"STOPPED", "PLAYING", "PAUSED_PLAYBACK"}
    ensures t.vars[TransportState] == "STOPPED" <==> t.state == Stopped
    ensures t.vars[TransportState] == "PLAYING" <==> t.state == Playing
    ensures t.vars[TransportState] == "PAUSED_PLAYBACK" <==> t.state == PausedPlayback
  {
    assert |"STOPPED"| == |"PLAYING"| == 7 && |"PAUSED_PLAYBACK"| == 15 && "STOPPED"[0] == 'S' && "PLAYING"[0] == 'P';
  }

  /** The announced actions belong to the state; for STOPPED there are two lists. */
  predicate ActionsFit(t: Transport) {
    match t.state
    case Stopped => t.vars[Actions] == "PLAY" || t.vars[Actions] == "PLAY,SEEK"
    case Playing => t.vars[Actions] == "PAUSE,STOP,SEEK"
    case PausedPlayback => t.vars[Actions] == "PLAY,STOP,SEEK"
    case _ => false
  }

  /** The track numbers are 1 exactly when their URI is not empty. */
  predicate CountsTracks(t: Transport) {
    Counts(t.vars[NrTracks], t.vars[AvUri]) && Counts(t.vars[CurTrack], t.vars[CurUri])
  }

  predicate Counts(tracks: string, uri: string) {
    (tracks == "1" <==> uri != "") && (tracks == "0" <==> uri == "")
  }

  lemma TrackCountCounts(uri: string)
    ensures Counts(TrackCount(uri), uri)
  {
  }

  /** While playing, the current track is the transport's. */
  predicate PlaysWhatIsSet(t: Transport) {
    t.state == Playing ==> t.vars[AvUri] == t.vars[CurUri] && t.vars[AvMeta] == t.vars[CurMeta]
  }

  /** Once out of STOPPED the output can call back. */
  predicate CanCallBack(t: Transport) {
    t.state != Stopped ==> t.output.hasCallback
  }

  predicate Coherent(t: Transport) {
    NamesState(t) && ActionsFit(t) && CountsTracks(t) && PlaysWhatIsSet(t) && CanCallBack(t)
  }

  lemma NamesDiffer(s: State, s': State)
    ensures StateName(s) == StateName(s') <==> s == s'
  {
    assert StateName(Stopped)[0] == 'S' && StateName(Playing)[1] == 'L' && StateName(Transitioning)[0] == 'T'
        && StateName(PausedPlayback)[7] == 'P' && StateName(PausedRecording)[7] == 'R'
        && StateName(Recording)[0] == 'R' && StateName(NoMediaPresent)[0] == 'N';
    assert StateName(Playing)[0] == StateName(PausedPlayback)[0] == StateName(PausedRecording)[0] == 'P';
    assert StateName(PausedPlayback)[1] == StateName(PausedRecording)[1] == 'A';
  }

  lemma BootIsCoherent()
    ensures Coherent(Boot())
  {
  }

  lemma StepKeepsNames(t: Transport, ev: Event)
    requires NamesState(t)
    ensures NamesState(Step(t, ev))
  {
    hide Store, Writes, StateName;
    NamesAreSpelled();
    NamedByState(t);
    StepLeaves(t, ev, TransportState);
  }

  lemma StepKeepsActions(t: Transport, ev: Event)
    requires NamesState(t) && ActionsFit(t)
    ensures ActionsFit(Step(t, ev))
  {
    hide Store, Writes, StateName;
    NamedByState(t);
    StepLeaves(t, ev, Actions);
    NamesDiffer(t.state, NextState(t, ev));
  }

  lemma StepCountsTransport(t: Transport, ev: Event)
    requires CountsTracks(t)
    ensures Counts(Step(t, ev).vars[NrTracks], Step(t, ev).vars[AvUri])
  {
    hide Store, Writes, TrackCount, Counts, ActionsIn, StateName;
    hide ZeroTime, IsRelTime, UpnpTime.Print, UpnpTime.CDiv;
    TrackCountCounts("");
    TrackCountCounts(t.vars[NextUri]);
    if ev.SetUri? {
      TrackCountCounts(ev.uri);
    }
    StepLeaves(t, ev, NrTracks);
    StepLeaves(t, ev, AvUri);
  }

  lemma StepCountsCurrent(t: Transport, ev: Event)
    requires CountsTracks(t)
    ensures Counts(Step(t, ev).vars[CurTrack], Step(t, ev).vars[CurUri])
  {
    hide Store, Writes, TrackCount, Counts, ActionsIn, StateName;
    hide ZeroTime, IsRelTime, UpnpTime.Print, UpnpTime.CDiv;
    TrackCountCounts("");
    TrackCountCounts(t.vars[AvUri]);
    TrackCountCounts(t.vars[NextUri]);
    if ev.SetUri? {
      TrackCountCounts(ev.uri);
    }
    StepLeaves(t, ev, CurTrack);
    StepLeaves(t, ev, CurUri);
  }

  lemma StepKeepsCounts(t: Transport, ev: Event)
    requires CountsTracks(t)
    ensures CountsTracks(Step(t, ev))
  {
    hide Step, Counts;
    StepCountsTransport(t, ev);
    StepCountsCurrent(t, ev);
  }

  lemma StepKeepsPlaying(t: Transport, ev: Event)
    requires PlaysWhatIsSet(t)
    ensures PlaysWhatIsSet(Step(t, ev))
  {
    hide Store, Writes;
    StepLeaves(t, ev, AvUri);
    StepLeaves(t, ev, CurUri);
    StepLeaves(t, ev, AvMeta);
    StepLeaves(t, ev, CurMeta);
  }

  lemma StepKeepsCoherent(t: Transport, ev: Event)
    requires Coherent(t)
    ensures Coherent(Step(t, ev))
  {
    hide Step, NamesState, ActionsFit, CountsTracks, PlaysWhatIsSet;
    StepKeepsNames(t, ev);
    StepKeepsActions(t, ev);
    StepKeepsCounts(t, ev);
    StepKeepsPlaying(t, ev);
    StepKeepsCallback(t, ev);
  }

  lemma StepKeepsCallback(t: Transport, ev: Event)
    requires NamesState(t) && CanCallBack(t)
    ensures CanCallBack(Step(t, ev))
  {
    hide Store, Writes;
  }

  /** In every reachable state the transport is coherent. */
  lemma {:induction false} AlwaysCoherent(t: Transport, evs: seq<Event>)
    requires Coherent(t)
    ensures Coherent(Run(t, evs))
    decreases |evs|
  {
    hide Coherent, Step;
    if evs != [] {
      StepKeepsCoherent(t, evs[0]);
      AlwaysCoherent(Step(t, evs[0]), evs[1..]);
    }
  }

  /** So in every reachable state the variable holds one of three names, and tells the state. */
  lemma AlwaysNamed(evs: seq<Event>)
    ensures var t := Run(Boot(), evs);
      && t.vars[TransportState] in {"STOPPED", "PLAYING", "PAUSED_PLAYBACK"}
      && (t.vars[TransportState] == "STOPPED" <==> t.state == Stopped)
      && (t.vars[TransportState] == "PLAYING" <==> t.state == Playing)
      && (t.vars[TransportState] == "PAUSED_PLAYBACK" <==> t.state == PausedPlayback)
  {
    hide Run, Boot, NamesState;
    AlwaysCoherentFromBoot(evs);
    NameTellsState(Run(Boot(), evs));
  }

  lemma AlwaysCoherentFromBoot(evs: seq<Event>)
    ensures Coherent(Run(Boot(), evs))
  {
    BootIsCoherent();
    AlwaysCoherent(Boot(), evs);
  }

  // ---------------------------------------------------------------- transitions

  /** PAUSED is entered only from PLAYING by a pause that works, PLAYING only by a play that works,
      STOPPED only by a stop or when a stream ends with nothing queued. */
  lemma Transitions(t: Transport, ev: Event)
    requires Coherent(t)
    ensures var next := Step(t, ev).state;
      next != t.state <==>
        || (ev == Play(true) && t.state != Playing)
        || (ev == Pause(true) && t.state == Playing)
        || (ev == Stop && t.state != Stopped)
        || (EndsPlayback(t, ev) && t.state != Stopped)
    ensures var next := Step(t, ev).state;
      next != t.state ==>
        && (next == Playing <==> ev == Play(true))
        && (next == PausedPlayback <==> ev == Pause(true))
        && (next == Stopped <==> ev == Stop || ev == EndOfStream)
  {
    hide Store, Writes, ActionsFit, CountsTracks, PlaysWhatIsSet, StateName;
  }

  /** The actions announced in STOPPED are those of the moment of entry: while STOPPED nothing
      changes them, whatever URI is set. */
  lemma StoppedActionsAreFrozen(t: Transport, ev: Event)
    requires Coherent(t) && t.state == Stopped && Step(t, ev).state == Stopped
    ensures Step(t, ev).vars[Actions] == t.vars[Actions]
  {
    hide Store, Writes, ActionsFit, CountsTracks, PlaysWhatIsSet;
    StepLeaves(t, ev, Actions);
  }

  /** On entering STOPPED they say whether there is something to seek in. */
  lemma StoppedActionsOnEntry(t: Transport, ev: Event)
    requires Coherent(t) && t.state != Stopped && Step(t, ev).state == Stopped
    ensures Step(t, ev).vars[Actions] == if Step(t, ev).vars[AvUri] == "" then "PLAY" else "PLAY,SEEK"
  {
    hide Store, Writes, CountsTracks, PlaysWhatIsSet, StateName;
    NamedByState(t);
    NamesDiffer(t.state, Stopped);
    StepLeaves(t, ev, Actions);
    StepLeaves(t, ev, AvUri);
  }

  /** The actions announced in STOPPED are those of the URI that is set now. */
  predicate ActionsMatchUri(t: Transport) {
    t.state == Stopped ==> t.vars[Actions] == if t.vars[AvUri] == "" then "PLAY" else "PLAY,SEEK"
  }

  /** An event that makes the URI come or go while STOPPED: a URI set, a next stream taken, or the
      end of a stream that the output still had in hand. */
  predicate FlipsUri(t: Transport, ev: Event) {
    t.state == Stopped
    && ((ev.SetUri? && (ev.uri == "") != (t.vars[AvUri] == ""))
        || (StartsNextStream(t, ev) && (t.vars[NextUri] == "") != (t.vars[AvUri] == ""))
        || (EndsPlayback(t, ev) && t.vars[AvUri] != ""))
  }

  lemma FlipIsSeen(t: Transport, ev: Event)
    requires Coherent(t) && t.state == Stopped && Step(t, ev).state == Stopped
    ensures FlipsUri(t, ev) <==> (Step(t, ev).vars[AvUri] == "") != (t.vars[AvUri] == "")
  {
    hide Store, Writes, Coherent;
    StepLeaves(t, ev, AvUri);
  }

  lemma ListsDiffer()
    ensures "PLAY" != "PLAY,SEEK"
  {
    assert |"PLAY"| == 4 && |"PLAY,SEEK"| == 9;
  }

  /** When the list fits the URI after a step, whether it did before or not: always on leaving or
      entering STOPPED, and within STOPPED exactly if it fitted and the URI did not come or go, or
      it did not fit and the URI did. */
  lemma StepMatchesIff(t: Transport, ev: Event)
    requires Coherent(t)
    ensures ActionsMatchUri(Step(t, ev)) <==>
      t.state != Stopped || Step(t, ev).state != Stopped || (ActionsMatchUri(t) <==> !FlipsUri(t, ev))
  {
    hide Step, FlipsUri, NamesState, CountsTracks, PlaysWhatIsSet, CanCallBack;
    if Step(t, ev).state == Stopped {
      if t.state == Stopped {
        StoppedActionsAreFrozen(t, ev);
        FlipIsSeen(t, ev);
        ListsDiffer();
      } else {
        StoppedActionsOnEntry(t, ev);
      }
    }
  }

  predicate NeverFlips(t: Transport, evs: seq<Event>)
    decreases |evs|
  {
    evs == [] || (!FlipsUri(t, evs[0]) && NeverFlips(Step(t, evs[0]), evs[1..]))
  }

  predicate AlwaysMatches(t: Transport, evs: seq<Event>)
    decreases |evs|
  {
    ActionsMatchUri(t) && (evs == [] || AlwaysMatches(Step(t, evs[0]), evs[1..]))
  }

  lemma FlippingStaysStopped(t: Transport, ev: Event)
    requires Coherent(t) && FlipsUri(t, ev)
    ensures t.state == Stopped && Step(t, ev).state == Stopped
  {
    hide Store, Writes;
  }

  /** The list fits the URI in every state of a run exactly if the URI never comes or goes while
      STOPPED. */
  lemma {:induction false} AlwaysMatchesIff(t: Transport, evs: seq<Event>)
    requires Coherent(t) && ActionsMatchUri(t)
    ensures AlwaysMatches(t, evs) <==> NeverFlips(t, evs)
    decreases |evs|
  {
    hide Step, ActionsMatchUri, FlipsUri, Coherent;
    if evs != [] {
      StepMatchesIff(t, evs[0]);
      StepKeepsCoherent(t, evs[0]);
      if FlipsUri(t, evs[0]) {
        FlippingStaysStopped(t, evs[0]);
      }
      if ActionsMatchUri(Step(t, evs[0])) {
        AlwaysMatchesIff(Step(t, evs[0]), evs[1..]);
      }
    }
  }

  lemma AlwaysMatchesFromBoot(evs: seq<Event>)
    ensures AlwaysMatches(Boot(), evs) <==> NeverFlips(Boot(), evs)
  {
    BootIsCoherent();
    AlwaysMatchesIff(Boot(), evs);
  }

  /** So a URI set in STOPPED leaves the list behind: seeking is possible but not announced. */
  lemma StaleActions(uri: string, meta: string)
    requires uri != ""
    ensures var t := Step(Boot(), SetUri(uri, meta));
      t.state == Stopped && t.vars[AvUri] == uri && t.vars[Actions] == "PLAY"
  {
    BootIsCoherent();
    StoppedActionsAreFrozen(Boot(), SetUri(uri, meta));
    StepLeaves(Boot(), SetUri(uri, meta), AvUri);
  }
}
