/** The AVTransport service of src/upnp_transport.c with the URI bookkeeping of
    src/output_gstreamer.c: what each action and each event of the output writes. */
module TransportSteps {
  import opened Wrappers
  import opened StringSearch
  import opened SongMetaData
  import DidlWriter
  import UpnpTime

  datatype State =
    Stopped | Playing | Transitioning | PausedPlayback | PausedRecording | Recording | NoMediaPresent

  function StateName(s: State): string {
    match s
    case Stopped => "STOPPED"
    case Playing => "PLAYING"
    case Transitioning => "TRANSITIONING"
    case PausedPlayback => "PAUSED_PLAYBACK"
    case PausedRecording => "PAUSED_RECORDING"
    case Recording => "RECORDING"
    case NoMediaPresent => "NO_MEDIA_PRESENT"
  }

  /** The state variables that change after start-up. */
  datatype Var =
    TransportState | Actions | AvUri | AvMeta | NextUri | NextMeta | CurUri | CurMeta | NrTracks | CurTrack
    | TrackDuration | RelTime

  type Vars = m: map<Var, string> | forall v: Var :: v in m
    witness map v: Var | true :: ""

  datatype Write = Write(v: Var, text: string)

  /** The output's URIs, whether a play has left it a transition callback, whether it reports
      stream meta data, and the meta data it has collected. */
  datatype Output = Output(uri: Option<string>, nextUri: Option<string>, hasCallback: bool,
                           wantsMeta: bool, song: SongMetaData)

  /** `lastDuration` and `lastPosition` belong to the polling thread, `xmlId` to the DIDL writer. */
  datatype Transport = Transport(state: State, vars: Vars, output: Output,
                                 lastDuration: int, lastPosition: int, xmlId: uint32)

  /** Actions with the success of the output call they make, events of the output, one poll. Tags of
      the stream come in two events: the output collects them and a document is edited for them
      outside of the lock, then both meta data variables are replaced by it. */
  datatype Event =
    | Play(ok: bool)
    | Pause(ok: bool)
    | Stop
    | SetUri(uri: string, meta: string)
    | SetNextUri(nextUri: string, nextMeta: Option<string>)
    | Seek(unit: string, target: string, ok: bool)
    | Tags(tags: SongMetaData)
    | MetaUpdate(didl: string)
    | EndOfStream
    | AboutToFinish
    | Poll(duration: int, position: int, ok: bool)

  // ---------------------------------------------------------------- groups of writes

  function Store(vars: Vars, ws: seq<Write>): Vars {
    if ws == [] then vars else
      var last := ws[|ws| - 1];
      Store(vars, ws[..|ws| - 1])[last.v := last.text]
  }

  function When(condition: bool, ws: seq<Write>): seq<Write> {
    if condition then ws else []
  }

  function TrackCount(uri: string): string {
    if uri == "" then "0" else "1"
  }

  function TransportWrites(uri: string, meta: string): seq<Write> {
    [Write(AvUri, uri), Write(AvMeta, meta), Write(NrTracks, TrackCount(uri))]
  }

  function CurrentWrites(uri: string, meta: string): seq<Write> {
    [Write(CurTrack, TrackCount(uri)), Write(CurUri, uri), Write(CurMeta, meta)]
  }

  /** The actions announced on entering a state; none for the states that are never entered. */
  function ActionsIn(s: State, avUri: string): Option<string> {
    match s
    case Stopped => Some(if avUri == "" then "PLAY" else "PLAY,SEEK")
    case Playing => Some("PAUSE,STOP,SEEK")
    case PausedPlayback => Some("PLAY,STOP,SEEK")
    case _ => None
  }

  /** Entering a state; the actions follow only if the state variable changes. */
  function StateWrites(vars: Vars, s: State): seq<Write> {
    var actions := ActionsIn(s, vars[AvUri]);
    [Write(TransportState, StateName(s))]
    + if actions.None? then [] else When(vars[TransportState] != StateName(s), [Write(Actions, actions.value)])
  }

  /** A new song starts at time zero. */
  function RestartWrites(): seq<Write> {
    [Write(RelTime, ZeroTime())]
  }

  function PlayWrites(vars: Vars): seq<Write> {
    StateWrites(vars, Playing) + CurrentWrites(vars[AvUri], vars[AvMeta])
  }

  function NextStreamWrites(vars: Vars): seq<Write> {
    TransportWrites(vars[NextUri], vars[NextMeta]) + CurrentWrites(vars[NextUri], vars[NextMeta])
    + [Write(NextUri, ""), Write(NextMeta, "")]
  }

  function EndWrites(vars: Vars): seq<Write> {
    TransportWrites("", "") + CurrentWrites("", "") + StateWrites(vars[AvUri := ""], Stopped)
  }

  function SetNextWrites(uri: string, meta: Option<string>): seq<Write> {
    [Write(NextUri, uri)] + if meta.None? then [] else [Write(NextMeta, meta.value)]
  }

  // ---------------------------------------------------------------- stream meta data

  function Merged(known: Option<string>, tag: Option<string>): Option<string> {
    if tag.Some? then tag else known
  }

  function Merge(song: SongMetaData, tags: SongMetaData): SongMetaData {
    SongMetaData(Merged(song.title, tags.title), Merged(song.artist, tags.artist), Merged(song.album, tags.album),
                 Merged(song.genre, tags.genre), Merged(song.composer, tags.composer))
  }

  /** What SongMetaData_clear leaves: it does not touch the composer. */
  function Cleared(song: SongMetaData): SongMetaData {
    song.(title := None, artist := None, album := None, genre := None)
  }

  /** A tag list leads to a DIDL document if it changes something and there is a title. */
  predicate Reports(o: Output, tags: SongMetaData) {
    var song := Merge(o.song, tags);
    o.wantsMeta && song != o.song && song.title.Some? && song.title.value != ""
  }

  /** The document for the song with these tags, edited from the one that was read. */
  function Draft(t: Transport, tags: SongMetaData, original: string): string {
    DidlFor(Merge(t.output.song, tags), Some(original), DidlWriter.UniqueId(t.xmlId))
  }

  function StreamDidl(t: Transport, tags: SongMetaData): string {
    Draft(t, tags, t.vars[AvMeta])
  }

  function TagWrites(didl: string): seq<Write> {
    [Write(AvMeta, didl), Write(CurMeta, didl)]
  }

  const AUDIO_ITEM := "object.item.audioItem"

  predicate WantsStreamMeta(meta: string) {
    meta == "" || Contains(meta, AUDIO_ITEM)
  }

  // ---------------------------------------------------------------- steps

  function NonEmpty(uri: string): Option<string> {
    if uri == "" then None else Some(uri)
  }

  predicate CanStartPlaying(s: State) {
    s == Stopped || s == PausedPlayback
  }

  /** Does this event take a URI from the queue and tell the transport? */
  predicate StartsNextStream(t: Transport, ev: Event) {
    (ev.EndOfStream? || ev.AboutToFinish?) && t.output.nextUri.Some? && t.output.hasCallback
  }

  predicate EndsPlayback(t: Transport, ev: Event) {
    ev.EndOfStream? && t.output.nextUri.None? && t.output.hasCallback
  }

  function PollWrites(t: Transport, duration: int, position: int): seq<Write> {
    When(duration != t.lastDuration, [Write(TrackDuration, UpnpTime.Print(duration))])
    + When(UpnpTime.CDiv(position, UpnpTime.SECOND) != t.lastPosition, [Write(RelTime, UpnpTime.Print(position))])
  }

  function ZeroTime(): string {
    "0:00:00"
  }

  /** The one seek unit that is supported. */
  predicate IsRelTime(unit: string) {
    unit == "REL_TIME"
  }

  /** The calls of VariableContainer_change an event makes, in order. */
  function Writes(t: Transport, ev: Event): seq<Write> {
    match ev
    case Play(ok) =>
      When(t.state == Stopped, RestartWrites()) + When(CanStartPlaying(t.state) && ok, PlayWrites(t.vars))
    case Pause(ok) => When(t.state == Playing && ok, StateWrites(t.vars, PausedPlayback))
    case Stop => When(t.state != Stopped && t.state != NoMediaPresent, StateWrites(t.vars, Stopped))
    case SetUri(uri, meta) => TransportWrites(uri, meta) + When(t.state == Playing, CurrentWrites(uri, meta))
    case SetNextUri(uri, meta) => SetNextWrites(uri, meta)
    case Seek(unit, target, ok) => When(IsRelTime(unit) && ok, [Write(RelTime, target)])
    case Tags(_) => []
    case MetaUpdate(didl) => TagWrites(didl)
    case Poll(duration, position, ok) => When(ok, PollWrites(t, duration, position))
    case _ =>
      if StartsNextStream(t, ev) then NextStreamWrites(t.vars)
      else When(EndsPlayback(t, ev), EndWrites(t.vars))
  }

  function NextState(t: Transport, ev: Event): State {
    match ev
    case Play(ok) => if CanStartPlaying(t.state) && ok then Playing else t.state
    case Pause(ok) => if t.state == Playing && ok then PausedPlayback else t.state
    case Stop => if t.state == NoMediaPresent then t.state else Stopped
    case EndOfStream => if EndsPlayback(t, ev) then Stopped else t.state
    case _ => t.state
  }

  function NextOutput(t: Transport, ev: Event): Output {
    var o := t.output;
    match ev
    case Play(_) => if CanStartPlaying(t.state) then o.(hasCallback := true) else o
    case SetUri(uri, meta) =>
      o.(uri := NonEmpty(uri), wantsMeta := WantsStreamMeta(meta), song := Cleared(o.song))
    case SetNextUri(uri, _) => o.(nextUri := NonEmpty(uri))
    case Tags(tags) => if o.wantsMeta then o.(song := Merge(o.song, tags)) else o
    case EndOfStream => if o.nextUri.Some? then o.(uri := o.nextUri, nextUri := None) else o
    case AboutToFinish => o.(uri := o.nextUri, nextUri := None)
    case _ => o
  }

  function Step(t: Transport, ev: Event): Transport {
    var polled := ev.Poll? && ev.ok;
    Transport(NextState(t, ev), Store(t.vars, Writes(t, ev)), NextOutput(t, ev),
              if polled then ev.duration else t.lastDuration,
              if polled then UpnpTime.CDiv(ev.position, UpnpTime.SECOND) else t.lastPosition,
              if ev.Tags? && Reports(t.output, ev.tags) then (t.xmlId + 1) % 0x1_0000_0000 else t.xmlId)
  }

  /** Tags whose document is put in place with nothing in between. */
  function Streamed(t: Transport, tags: SongMetaData): Transport {
    var collected := Step(t, Tags(tags));
    if Reports(t.output, tags) then Step(collected, MetaUpdate(StreamDidl(t, tags))) else collected
  }

  /** What the action handler returns. */
  function ReturnCode(t: Transport, ev: Event): int {
    match ev
    case Play(ok) => if t.state == Playing || (CanStartPlaying(t.state) && ok) then 0 else -1
    case Pause(ok) => if t.state == PausedPlayback || (t.state == Playing && ok) then 0 else -1
    case SetNextUri(_, meta) => if meta.None? then -1 else 0
    case _ => 0
  }

  /** The error number the handler reports to the controller, if any. */
  function ErrorCode(t: Transport, ev: Event): Option<int> {
    match ev
    case Play(ok) =>
      if CanStartPlaying(t.state) then (if ok then None else Some(704))
      else if t.state == Playing then None
      else Some(701)
    case Pause(ok) =>
      if t.state == Playing then (if ok then None else Some(704))
      else if t.state == PausedPlayback then None
      else Some(701)
    case Stop => if t.state == NoMediaPresent then Some(701) else None
    case _ => None
  }

  const NO_SONG := SongMetaData(None, None, None, None, None)

  function InitialValue(v: Var): string {
    match v
    case TransportState => "STOPPED"
    case Actions => "PLAY"
    case NrTracks => "0"
    case CurTrack => "0"
    case TrackDuration => ZeroTime()
    case RelTime => ZeroTime()
    case _ => ""
  }

  /** The state when the service starts. */
  function Boot(): Transport {
    Transport(Stopped, map v: Var | true :: InitialValue(v), Output(None, None, false, false, NO_SONG), -1, -1, 42)
  }

  function Run(t: Transport, evs: seq<Event>): Transport
    decreases |evs|
  {
    if evs == [] then t else Run(Step(t, evs[0]), evs[1..])
  }
}
