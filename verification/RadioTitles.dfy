/** A stream that names its titles while it plays, as internet radio does: what is announced after any
    sequence of tag lists. */
module RadioTitles {
  import opened Wrappers
  import opened StringSearch
  import opened ReplaceRange
  import opened MarkupEditing
  import opened MarkupTokens
  import opened QuotedAttributes
  import opened SongMetaData
  import opened FreshDidl
  import opened TransportSteps
  import opened TransportInvariants
  import opened StreamMetaData
  import DidlWriter
  import XmlEscape

  // ---------------------------------------------------------------- one tag list

  /** The song after a tag list: every field the list names is replaced, the others stay. Without a
      wish for meta data nothing is kept. */
  lemma TagsReplace(t: Transport, tags: SongMetaData)
    ensures var was, song := t.output.song, Step(t, Tags(tags)).output.song;
      if !t.output.wantsMeta then song == was else
        && song.title == (if tags.title.Some? then tags.title else was.title)
        && song.artist == (if tags.artist.Some? then tags.artist else was.artist)
        && song.album == (if tags.album.Some? then tags.album else was.album)
        && song.genre == (if tags.genre.Some? then tags.genre else was.genre)
        && song.composer == (if tags.composer.Some? then tags.composer else was.composer)
  {
    hide Store, Writes;
  }

  /** A document is due exactly if some field is named anew and the song has a title. */
  lemma DueIff(t: Transport, tags: SongMetaData)
    ensures var was := t.output.song;
      Reports(t.output, tags) <==>
        && t.output.wantsMeta
        && (|| (tags.title.Some? && tags.title != was.title) || (tags.artist.Some? && tags.artist != was.artist)
            || (tags.album.Some? && tags.album != was.album) || (tags.genre.Some? && tags.genre != was.genre)
            || (tags.composer.Some? && tags.composer != was.composer))
        && (if tags.title.Some? then tags.title.value != "" else was.title.Some? && was.title.value != "")
    ensures !Reports(t.output, tags) ==> Streamed(t, tags).vars == t.vars && Streamed(t, tags).xmlId == t.xmlId
  {
    StoreNone(t.vars);
  }

  /** A new title that is reported shows in the element of the announced document, whatever document
      the tags are put into, as long as it can be edited and has the element. */
  lemma NewTitleShows(t: Transport, tags: SongMetaData)
    requires tags.title.Some? && Reports(t.output, tags) && IsEditable(Merge(t.output.song, tags), t.vars[AvMeta])
    requires t.vars[AvMeta] == "" || Get(t.vars[AvMeta], Element("dc:title")).Some?
    ensures var r := Streamed(t, tags);
      && Get(r.vars[AvMeta], Element("dc:title")) == Some(XmlEscape.Escape(tags.title.value, false))
      && r.vars[CurMeta] == r.vars[AvMeta]
  {
    hide Streamed, Reports, Get, Generate, EditOriginal, Element, XmlEscape.Escape, DidlWriter.UniqueId, HasUsualId,
         HoldsTexts;
    var song, id := Merge(t.output.song, tags), DidlWriter.UniqueId(t.xmlId);
    DidlWriter.UniqueIdIsClean(t.xmlId);
    StreamedLeaves(t, tags, AvMeta);
    StreamedLeaves(t, tags, CurMeta);
    ValuesAreTexts(song);
    if t.vars[AvMeta] == "" {
      GeneratedReadsBack(Values(song), id, 0);
    } else {
      AnnouncedReadsBack(song, t.vars[AvMeta], id, 0);
    }
  }

  // ---------------------------------------------------------------- documents that take any song

  /** All five elements hold plain text, and the identifier comes before them. */
  ghost predicate Ready(doc: string) {
    && HoldsTexts(doc)
    && (exists from: nat, to: nat :: IdComesFirst(doc, from, to))
    && forall k: nat | k < 5 :: Get(doc, Field(k)).Some?
  }

  /** In a document made from nothing no element begins before its tag. */
  lemma NoneBeforeOpening(vs: seq<Option<string>>, id: string, k: nat, i: nat)
    requires AreTexts(vs) && Clean(id) && k < 5 && i < |Flatten(Opening(id))|
    ensures !OccursAt(Generate(vs, id), Field(k).start, i)
  {
    hide Name, Clean, IsText, Opening, Closing, Lines, ElementTokens, StrStr, OccursAt;
    LinesSplit(vs, 0, k);
    OpeningIsHarmless(id, k);
    LinesAreHarmless(vs, 0, k, k);
    LinesAreHarmless(vs, k + 1, 5, k);
    ClosingIsWellFormed();
    NamesAreClean(k);
    BlanksAreText();
    var pre, post := Opening(id) + Lines(vs, 0, k) + [Plain("\n\t")], Lines(vs, k + 1, 5) + Closing();
    var element := ElementTokens(Name(k), ValueOrEmpty(vs[k]));
    NotAmong(Tag(Name(k)), Opening(id), Lines(vs, 0, k), Plain("\n\t"));
    SevenParts(Opening(id), Lines(vs, 0, k), [Plain("\n\t")], element, Lines(vs, k + 1, 5), Closing());
    FoundBehind(pre, Name(k), ValueOrEmpty(vs[k]), post);
    FlattenConcat(Opening(id) + Lines(vs, 0, k), [Plain("\n\t")]);
    FlattenConcat(Opening(id), Lines(vs, 0, k));
    StrStrFirst(Generate(vs, id), Field(k).start, 0);
  }

  lemma FreshIsReady(song: SongMetaData, id: string)
    requires Clean(id) && '"' !in id
    ensures Ready(DidlFor(song, None, id))
  {
    hide Generate, Get, Locate, OccursAt, Field, Attribute, Row, LinesText, Values, Opening;
    var vs := Values(song);
    var doc := Generate(vs, id);
    ValuesAreTexts(song);
    forall k: nat | k < 5
      ensures Get(doc, Field(k)) == Some(ValueOrEmpty(vs[k])) && IsText(ValueOrEmpty(vs[k]))
    {
      GeneratedReadsBack(vs, id, k);
    }
    var from, to := IdInFront(vs, id);
    forall k: nat, i: nat | k < 5 && i <= to
      ensures !OccursAt(doc, Field(k).start, i)
    {
      NoneBeforeOpening(vs, id, k, i);
    }
    assert IdComesFirst(doc, from, to);
  }

  lemma IdInFront(vs: seq<Option<string>>, id: string) returns (from: nat, to: nat)
    requires |vs| == 5 && '"' !in id
    ensures Locate(Generate(vs, id), ID_ATTRIBUTE) == Some(Range(from, to)) && to < |Flatten(Opening(id))|
  {
    hide Generate, Locate, Row, LinesText, Opening;
    var d, u, n := METADATA + "DIDL-Lite/", "http://purl.org/" + "dc/elements/1.1/", METADATA + "upnp/";
    NamespacesAreWords();
    FreshIsRow(vs, id);
    IdIsFound(d, u, n, id, FreshRest(vs));
    MarkersAreSpelled();
    OpeningIsText(id);
    var front := "<DIDL-Lite" + Attribute("xmlns", d) + Attribute("xmlns:dc", u) + Attribute("xmlns:upnp", n)
                 + ">\n<item";
    from, to := |front| + 5, |front| + 5 + |id|;
    OpeningLength(id);
  }

  lemma OpeningLength(id: string)
    ensures |"<" + DidlHeader() + ">" + "\n" + "<item" + Attribute("id", id) + ">"|
         == |"<DIDL-Lite" + Attribute("xmlns", METADATA + "DIDL-Lite/")
             + Attribute("xmlns:dc", "http://purl.org/" + "dc/elements/1.1/")
             + Attribute("xmlns:upnp", METADATA + "upnp/") + ">\n<item"| + |id| + 7
  {
  }

  lemma ElementBeginsWithBracket(doc: string, k: nat, i: nat)
    requires k < 5 && OccursAt(doc, Field(k).start, i)
    ensures i < |doc| && doc[i] == '<'
  {
    OccursAsSlice(doc, Field(k).start, i);
    assert doc[i..i + |Field(k).start|][0] == '<';
  }

  /** No tag of an element reaches up to a quote. */
  lemma ElementHasNoQuote(p: string, rest: string, k: nat, i: nat)
    requires k < 5 && p != [] && p[|p| - 1] == '"' && i < |p| && OccursAt(p + rest, Field(k).start, i)
    ensures i + |Field(k).start| <= |p| && OccursAt(p, Field(k).start, i)
  {
    hide Name;
    NamesAreClean(k);
    NoReachOver(p, rest, Field(k).start, i);
    OccursInFront(p, rest, Field(k).start, i);
  }

  /** Writing another identifier keeps it before the elements. */
  lemma NewIdComesFirst(doc: string, id: string, from: nat, to: nat)
    requires IdComesFirst(doc, from, to) && Clean(id) && '"' !in id
    ensures IdComesFirst(Put(doc, ID_ATTRIBUTE, id), from, from + |id|)
  {
    hide StrStr, OccursAt, Field, Get;
    QuotedId(doc, from, to);
    var p, x, q := doc[..from], doc[from..to], doc[to..];
    PartsAround(doc, ID_ATTRIBUTE, from, to);
    var r := p + (id + q);
    assert p + id + q == r && p + x + q == doc && doc == p + (x + q);
    CommonFront(p, x + q, id + q, ID_ATTRIBUTE.start, 0);
    assert r[from..from + |id|] == id && r[from + |id|] == q[0] == '"';
    AttributeBounds(r, " id=\"", from - 5, from + |id|);
    forall k: nat, i: nat | k < 5 && i <= from + |id|
      ensures !OccursAt(r, Field(k).start, i)
    {
      if OccursAt(r, Field(k).start, i) {
        ElementBeginsWithBracket(r, k, i);
        assert i < from;
        ElementHasNoQuote(p, id + q, k, i);
        OccursInFront(p, x + q, Field(k).start, i);
      }
    }
  }

  /** Announcing a song on top of such a document leaves one that shows every field known, escaped. */
  lemma AnnouncedIsReady(song: SongMetaData, doc: string, id: string)
    requires Ready(doc) && doc != "" && Clean(id) && '"' !in id
    ensures var r := DidlFor(song, Some(doc), id);
      Ready(r) && forall k: nat | k < 5 && Values(song)[k].Some? :: Get(r, Field(k)) == Values(song)[k]
  {
    hide Edit, Edits, Values, Put, Get, Field, IdComesFirst;
    var vs := Values(song);
    var edited := Edit(doc, vs, 0);
    var from: nat, to: nat :| IdComesFirst(doc, from, to);
    ValuesAreTexts(song);
    EditReadsBack(doc, vs, 0);
    NoEdits(doc, vs, 0);
    EditKeepsIdFirst(doc, vs, 0, from, to);
    if Edits(doc, vs, 0) > 0 {
      NewIdComesFirst(edited, id, from, to);
      forall k: nat | k < 5
        ensures Get(Put(edited, ID_ATTRIBUTE, id), Field(k)) == Get(edited, Field(k))
      {
        FirstIdKeeps(edited, id, from, to, k);
      }
    }
  }

  /** So does announcing it without one. */
  lemma FreshShows(song: SongMetaData, id: string)
    requires Clean(id)
    ensures forall k: nat | k < 5 && Values(song)[k].Some? :: Get(DidlFor(song, None, id), Field(k)) == Values(song)[k]
  {
    hide Generate, Get, Field, Values;
    ValuesAreTexts(song);
    forall k: nat | k < 5 && Values(song)[k].Some?
      ensures Get(DidlFor(song, None, id), Field(k)) == Values(song)[k]
    {
      GeneratedReadsBack(Values(song), id, k);
    }
  }

  // ---------------------------------------------------------------- any sequence of tag lists

  function Radio(t: Transport, lists: seq<SongMetaData>): Transport {
    if lists == [] then t else Streamed(Radio(t, lists[..|lists| - 1]), lists[|lists| - 1])
  }

  /** The five fields in the order of their elements. */
  function Named(tags: SongMetaData, k: nat): Option<string>
    requires k < 5
  {
    match k
    case 0 => tags.title
    case 1 => tags.artist
    case 2 => tags.album
    case 3 => tags.genre
    case _ => tags.composer
  }

  /** The last value that any list gives a field, or the one known before. */
  function Latest(known: Option<string>, lists: seq<SongMetaData>, k: nat): Option<string>
    requires k < 5
  {
    if lists == [] then known
    else
      var last := Named(lists[|lists| - 1], k);
      if last.Some? then last else Latest(known, lists[..|lists| - 1], k)
  }

  predicate IsTitled(song: SongMetaData) {
    song.title.Some? && song.title.value != ""
  }

  /** Once the song has a title, the announced document shows every field known. */
  ghost predicate Shows(t: Transport) {
    && t.output.wantsMeta
    && (t.vars[AvMeta] == "" || Ready(t.vars[AvMeta]))
    && (IsTitled(t.output.song) ==>
          && t.vars[AvMeta] != ""
          && forall k: nat | k < 5 && Named(t.output.song, k).Some? ::
               Get(t.vars[AvMeta], Field(k)) == Escaped(Named(t.output.song, k)))
  }

  lemma FieldsByName(song: SongMetaData, k: nat)
    requires k < 5
    ensures Values(song)[k] == Escaped(Named(song, k))
    ensures Values(song)[k].Some? == Named(song, k).Some?
  {
    hide XmlEscape.Escape;
  }

  lemma ReadyIsNotEmpty(doc: string)
    requires Ready(doc)
    ensures doc != ""
  {
    hide StrStr;
    GetFinds(doc, Field(0));
  }

  lemma DraftShows(song: SongMetaData, doc: string, n: uint32)
    requires doc == "" || Ready(doc)
    ensures var r := DidlFor(song, Some(doc), DidlWriter.UniqueId(n));
      && Ready(r)
      && forall k: nat | k < 5 && Named(song, k).Some? ::
           Get(r, Field(k)) == Escaped(Named(song, k))
  {
    hide Ready, Get, Field, Generate, EditOriginal, Values, DidlWriter.UniqueId, Escaped, Named;
    var id := DidlWriter.UniqueId(n);
    DidlWriter.UniqueIdIsClean(n);
    if doc == "" {
      FreshIsReady(song, id);
      FreshShows(song, id);
    } else {
      AnnouncedIsReady(song, doc, id);
    }
    forall k: nat | k < 5 && Named(song, k).Some?
      ensures Get(DidlFor(song, Some(doc), id), Field(k)) == Escaped(Named(song, k))
    {
      FieldsByName(song, k);
    }
  }

  lemma StreamedShows(t: Transport, tags: SongMetaData)
    requires Shows(t)
    ensures Shows(Streamed(t, tags))
  {
    hide Ready, Get, Field, Escaped, DidlFor, Store, Writes, DidlWriter.UniqueId;
    StreamedLeaves(t, tags, AvMeta);
    TagsReplace(t, tags);
    DueIff(t, tags);
    if Reports(t.output, tags) {
      DraftShows(Merge(t.output.song, tags), t.vars[AvMeta], t.xmlId);
      ReadyIsNotEmpty(StreamDidl(t, tags));
    }
  }

  lemma {:induction false} RadioKeeps(t: Transport, lists: seq<SongMetaData>, k: nat)
    requires Shows(t) && k < 5
    ensures Shows(Radio(t, lists)) && Named(Radio(t, lists).output.song, k) == Latest(Named(t.output.song, k), lists, k)
  {
    hide Shows, Streamed, Step;
    if lists != [] {
      var front, last := lists[..|lists| - 1], lists[|lists| - 1];
      RadioKeeps(t, front, k);
      StreamedShows(Radio(t, front), last);
      StreamedNames(Radio(t, front), last, k);
    }
  }

  lemma StreamedNames(t: Transport, tags: SongMetaData, k: nat)
    requires Shows(t) && k < 5
    ensures Named(Streamed(t, tags).output.song, k)
         == if Named(tags, k).Some? then Named(tags, k) else Named(t.output.song, k)
  {
    hide Shows, Streamed, Step;
    assert t.output.wantsMeta by { WantsMeta(t); }
    SameSong(t, tags);
    TagsReplace(t, tags);
  }

  lemma WantsMeta(t: Transport)
    requires Shows(t)
    ensures t.output.wantsMeta
  {
  }

  /** Putting the document in place does not touch the song. */
  lemma SameSong(t: Transport, tags: SongMetaData)
    ensures Streamed(t, tags).output == Step(t, Tags(tags)).output
  {
    hide Store, Writes, Reports, StreamDidl;
  }

  lemma FieldsAreSpelled()
    ensures Field(0) == Element("dc:title") && Field(1) == Element("upnp:artist")
    ensures Field(2) == Element("upnp:album") && Field(3) == Element("upnp:genre")
    ensures Field(4) == Element("upnp:creator")
  {
  }

  lemma SetUriShows(t: Transport, uri: string, meta: string)
    requires meta == "" || (WantsStreamMeta(meta) && Ready(meta))
    ensures var r := Step(t, SetUri(uri, meta));
      && Shows(r) && r.output.song == SongMetaData(None, None, None, None, t.output.song.composer)
  {
    hide Store, Writes, Ready, Contains;
    StepLeaves(t, SetUri(uri, meta), AvMeta);
  }

  /** After a URI without meta data, or with those of an audio item, and any sequence of tag lists, once
      there is a title: every element of the announced document reads as the latest value the stream
      has named for it. */
  lemma RadioShowsLatest(t: Transport, uri: string, meta: string, lists: seq<SongMetaData>)
    requires meta == "" || (WantsStreamMeta(meta) && Ready(meta))
    ensures var doc := Radio(Step(t, SetUri(uri, meta)), lists).vars[AvMeta];
      var title, artist, album := Latest(None, lists, 0), Latest(None, lists, 1), Latest(None, lists, 2);
      var genre, composer := Latest(None, lists, 3), Latest(t.output.song.composer, lists, 4);
      title.Some? && title.value != "" ==>
        && Get(doc, Element("dc:title")) == Some(XmlEscape.Escape(title.value, false))
        && (artist.Some? ==> Get(doc, Element("upnp:artist")) == Some(XmlEscape.Escape(artist.value, false)))
        && (album.Some? ==> Get(doc, Element("upnp:album")) == Some(XmlEscape.Escape(album.value, false)))
        && (genre.Some? ==> Get(doc, Element("upnp:genre")) == Some(XmlEscape.Escape(genre.value, false)))
        && (composer.Some? ==> Get(doc, Element("upnp:creator")) == Some(XmlEscape.Escape(composer.value, false)))
  {
    hide Step, Radio, Latest, Ready, WantsStreamMeta, Get, Field, Element, XmlEscape.Escape;
    var given := Step(t, SetUri(uri, meta));
    SetUriShows(t, uri, meta);
    FieldsAreSpelled();
    RadioKeeps(given, lists, 0);
    RadioKeeps(given, lists, 1);
    RadioKeeps(given, lists, 2);
    RadioKeeps(given, lists, 3);
    RadioKeeps(given, lists, 4);
  }
}
