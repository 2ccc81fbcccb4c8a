/** Meta data found in the stream, announced by editing the transport's DIDL document. */
module StreamMetaData {
  import opened Wrappers
  import opened ReplaceRange
  import opened MarkupEditing
  import opened SongMetaData
  import opened TransportSteps
  import opened TransportInvariants
  import DidlWriter
  import XmlEscape

  /** A document that stream meta data can be put into: none yet, or one whose edited elements
      hold plain text and whose identifier is where controllers put it. */
  ghost predicate IsEditable(song: SongMetaData, didl: string) {
    didl == "" || (HoldsTexts(didl) && HasUsualId(didl, Values(song)))
  }

  lemma StreamedLeaves(t: Transport, tags: SongMetaData, v: Var)
    ensures Streamed(t, tags).vars[v]
         == if Reports(t.output, tags) && (v == AvMeta || v == CurMeta) then StreamDidl(t, tags) else t.vars[v]
  {
    hide Store, Writes, Reports, StreamDidl, NextOutput;
    StepLeaves(t, Tags(tags), v);
    StepLeaves(Step(t, Tags(tags)), MetaUpdate(StreamDidl(t, tags)), v);
  }

  /** A reported tag list makes both meta data variables a document that is settled for the song. */
  lemma TagsSettle(t: Transport, tags: SongMetaData)
    requires Reports(t.output, tags) && IsEditable(Merge(t.output.song, tags), t.vars[AvMeta])
    ensures var r := Streamed(t, tags);
      && r.vars[AvMeta] == r.vars[CurMeta] == StreamDidl(t, tags)
      && r.output.song == Merge(t.output.song, tags)
      && IsSettled(r.output.song, r.vars[AvMeta])
  {
    hide Store, Writes, IsSettled, HoldsTexts, HasUsualId, DidlFor, Reports, Merge, DidlWriter.UniqueId;
    var song, id := Merge(t.output.song, tags), DidlWriter.UniqueId(t.xmlId);
    StreamedLeaves(t, tags, AvMeta);
    StreamedLeaves(t, tags, CurMeta);
    DidlWriter.UniqueIdIsClean(t.xmlId);
    if t.vars[AvMeta] == "" {
      FixedPointFresh(song, id);
    } else {
      FixedPoint(song, t.vars[AvMeta], id);
    }
    ReportsWanted(t.output, tags);
  }

  lemma ReportsWanted(o: Output, tags: SongMetaData)
    requires Reports(o, tags)
    ensures o.wantsMeta
  {
  }

  /** Tags that lead to a song the document is settled for change no variable, hence no event. */
  lemma EchoIsQuiet(t: Transport, tags: SongMetaData)
    requires IsSettled(Merge(t.output.song, tags), t.vars[AvMeta]) && t.vars[CurMeta] == t.vars[AvMeta]
    ensures Streamed(t, tags).vars == t.vars
  {
    hide Streamed, Edits, DidlFor, Reports, Merge;
    assert StreamDidl(t, tags) == t.vars[AvMeta];
    forall v: Var
      ensures Streamed(t, tags).vars[v] == t.vars[v]
    {
      StreamedLeaves(t, tags, v);
    }
  }

  /** A controller may send the announced document back with the URI, and the stream may repeat
      all its tags: nothing changes any more. */
  lemma ControllerEcho(t: Transport, uri: string)
    requires t.state == Playing && IsSettled(t.output.song, t.vars[AvMeta])
    ensures var back := Step(t, SetUri(uri, t.vars[AvMeta]));
      Streamed(back, t.output.song).vars == back.vars && back.vars[AvMeta] == t.vars[AvMeta]
  {
    hide Store, Writes, IsSettled;
    var ev := SetUri(uri, t.vars[AvMeta]);
    StepLeaves(t, ev, AvMeta);
    StepLeaves(t, ev, CurMeta);
    var back := Step(t, ev);
    assert Merge(back.output.song, t.output.song) == t.output.song;
    EchoIsQuiet(back, t.output.song);
  }

  // ---------------------------------------------------------------- what is left of the previous song

  /** The output forgets the previous song when a URI is set, but not its composer: the next song is
      what its tags say exactly if there was no composer or the tags name one. */
  lemma MergeForgetsIff(t: Transport, uri: string, meta: string, tags: SongMetaData)
    ensures Merge(Step(t, SetUri(uri, meta)).output.song, tags) == Merge(NO_SONG, tags) <==>
      t.output.song.composer.None? || tags.composer.Some?
  {
    hide Store, Writes;
  }

  /** The document announced when a URI has been set and the stream reports its tags. */
  function Announced(t: Transport, uri: string, meta: string, tags: SongMetaData): string {
    Streamed(Step(t, SetUri(uri, meta)), tags).vars[AvMeta]
  }

  /** The same transport with an output that has no song to remember. */
  function Forgetful(t: Transport): Transport {
    t.(output := t.output.(song := NO_SONG))
  }

  /** The song that is announced: the tags, and the previous composer if they name none. */
  function SongOf(t: Transport, tags: SongMetaData): SongMetaData {
    tags.(composer := Merged(t.output.song.composer, tags.composer))
  }

  predicate IsReported(meta: string, tags: SongMetaData) {
    WantsStreamMeta(meta) && tags.title.Some? && tags.title.value != ""
  }

  /** With a title the document is that of the song, without one the meta data stays. */
  lemma AnnouncedIs(t: Transport, uri: string, meta: string, tags: SongMetaData)
    ensures Announced(t, uri, meta, tags)
         == if IsReported(meta, tags) then DidlFor(SongOf(t, tags), Some(meta), DidlWriter.UniqueId(t.xmlId)) else meta
  {
    hide Store, Writes, WantsStreamMeta, DidlFor, DidlWriter.UniqueId;
    var cleared := Step(t, SetUri(uri, meta));
    StepLeaves(t, SetUri(uri, meta), AvMeta);
    StreamedLeaves(cleared, tags, AvMeta);
  }

  /** The composer's element in the given document, or empty in a fresh one. */
  function ComposerWithout(meta: string): Option<string> {
    if meta == "" then Some("") else Get(meta, Field(4))
  }

  /** Can every song be put into the document? */
  ghost predicate TakesAnySong(t: Transport, meta: string, tags: SongMetaData) {
    IsEditable(SongOf(t, tags), meta) && IsEditable(SongOf(Forgetful(t), tags), meta)
  }

  lemma ComposerReads(song: SongMetaData, meta: string, id: string)
    requires Clean(id) && IsEditable(song, meta)
    ensures Get(DidlFor(song, Some(meta), id), Field(4))
         == if song.composer.Some? && ComposerWithout(meta).Some? then Escaped(song.composer) else ComposerWithout(meta)
  {
    hide Get, Field, Escaped, Edits, Edit, Generate, HoldsTexts, HasUsualId;
    EscapedIsKnown(song.composer);
    if meta == "" {
      ValuesAreTexts(song);
      GeneratedReadsBack(Values(song), id, 4);
    } else {
      AnnouncedReadsBack(song, meta, id, 4);
    }
  }

  lemma EscapedIsKnown(value: Option<string>)
    ensures Escaped(value).Some? == value.Some?
  {
  }

  /** Two songs that differ in the composer only, of which one has none, lead to the same document
      if the composer's element would read the same without it. */
  lemma ComposerIdle(song: SongMetaData, meta: string, id: string)
    requires meta != "" ==> HoldsTexts(meta)
    requires song.composer.None? || ComposerWithout(meta).None? || ComposerWithout(meta) == Escaped(song.composer)
    ensures DidlFor(song, Some(meta), id) == DidlFor(song.(composer := None), Some(meta), id)
  {
    hide Get, Field, Edits, Edit, HoldsTexts;
    var other := song.(composer := None);
    ValuesAreTexts(song);
    if meta == "" {
      SameLines(Values(song), Values(other), 0);
    } else {
      LastFieldIdle(meta, Values(song), 0);
      assert Values(other) == Values(song)[4 := None];
    }
  }

  lemma {:induction false} SameLines(vs: seq<Option<string>>, ws: seq<Option<string>>, from: nat)
    requires |vs| == |ws| == 5 && from <= 5 && forall k: nat | k < 5 :: ValueOrEmpty(vs[k]) == ValueOrEmpty(ws[k])
    ensures Lines(vs, from, 5) == Lines(ws, from, 5)
    decreases 5 - from
  {
    if from < 5 {
      SameLines(vs, ws, from + 1);
    }
  }

  /** When the previous composer does not show in the announced document: exactly if nothing is
      announced, the tags name a composer, there was none, or the composer's element is missing or
      reads the same without it. */
  lemma ComposerShowsIff(t: Transport, uri: string, meta: string, tags: SongMetaData)
    requires TakesAnySong(t, meta, tags)
    ensures Announced(t, uri, meta, tags) == Announced(Forgetful(t), uri, meta, tags) <==>
      || !IsReported(meta, tags) || tags.composer.Some? || t.output.song.composer.None?
      || ComposerWithout(meta).None? || ComposerWithout(meta) == Escaped(t.output.song.composer)
  {
    hide Announced, IsReported, DidlFor, Get, Field, Escaped, DidlWriter.UniqueId, HoldsTexts, HasUsualId;
    var id := DidlWriter.UniqueId(t.xmlId);
    DidlWriter.UniqueIdIsClean(t.xmlId);
    AnnouncedIs(t, uri, meta, tags);
    AnnouncedIs(Forgetful(t), uri, meta, tags);
    ComposerReads(SongOf(t, tags), meta, id);
    ComposerReads(SongOf(Forgetful(t), tags), meta, id);
    if tags.composer.None? && (t.output.song.composer.None? || ComposerWithout(meta).None?
                               || ComposerWithout(meta) == Escaped(t.output.song.composer)) {
      ComposerIdle(SongOf(t, tags), meta, id);
    }
  }

  /** For instance, a new stream without meta data that names only a title is announced with the
      composer of the one before. */
  lemma ComposerStays(t: Transport, uri: string, title: string)
    requires title != ""
    ensures var cleared := Step(t, SetUri(uri, ""));
      var tags := SongMetaData(Some(title), None, None, None, None);
      var didl := Streamed(cleared, tags).vars[AvMeta];
      && Get(didl, Field(0)) == Escaped(Some(title))
      && Get(didl, Field(1)) == Get(didl, Field(2)) == Get(didl, Field(3)) == Some("")
      && Get(didl, Field(4)) == Some(ValueOrEmpty(Escaped(t.output.song.composer)))
  {
    hide Store, Writes, Get, Field, Generate, XmlEscape.Escape, DidlWriter.UniqueId;
    var next := Step(t, SetUri(uri, ""));
    var tags := SongMetaData(Some(title), None, None, None, None);
    var song := SongMetaData(Some(title), None, None, None, t.output.song.composer);
    StepLeaves(t, SetUri(uri, ""), AvMeta);
    assert Merge(next.output.song, tags) == song && Reports(next.output, tags);
    StreamedLeaves(next, tags, AvMeta);
    DidlWriter.UniqueIdIsClean(next.xmlId);
    ValuesAreTexts(song);
    FreshFields(song, DidlWriter.UniqueId(next.xmlId));
  }

  lemma FreshFields(song: SongMetaData, id: string)
    requires Clean(id) && AreTexts(Values(song))
    ensures forall k: nat | k < 5 :: Get(Generate(Values(song), id), Field(k)) == Some(ValueOrEmpty(Values(song)[k]))
  {
    forall k: nat | k < 5
      ensures Get(Generate(Values(song), id), Field(k)) == Some(ValueOrEmpty(Values(song)[k]))
    {
      GeneratedReadsBack(Values(song), id, k);
    }
  }
}
