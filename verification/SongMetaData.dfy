/** Announcing song meta data as a DIDL-Lite document (src/song-meta-data.c): a fresh document,
    or a surgical edit of the one the controller sent. */
module SongMetaData {
  import opened Wrappers
  import opened StringSearch
  import opened ReplaceRange
  import opened MarkupEditing
  import opened MarkupSeams
  import opened MarkupTokens
  import opened QuotedAttributes
  import XmlEscape

  datatype SongMetaData = SongMetaData(title: Option<string>, artist: Option<string>, album: Option<string>,
                                       genre: Option<string>, composer: Option<string>)

  // ---------------------------------------------------------------- the five edited elements

  function Name(k: nat): string
    requires k < 5
  {
    if k == 0 then "dc:title"
    else if k == 1 then "upnp:artist"
    else if k == 2 then "upnp:album"
    else if k == 3 then "upnp:genre"
    else "upnp:creator"
  }

  lemma NamesAreClean(k: nat)
    requires k < 5
    ensures Clean(Name(k)) && '"' !in Name(k) && ' ' !in Name(k)
  {
  }

  lemma NamesDiffer(j: nat, k: nat)
    requires j < 5 && k < 5
    ensures Name(j) == Name(k) <==> j == k
  {
    assert |Name(0)| == 8 && |Name(1)| == 11 && |Name(2)| == 10 && |Name(3)| == 10 && |Name(4)| == 12;
    assert Name(2)[5] == 'a' && Name(3)[5] == 'g';
  }

  function Field(k: nat): Markers
    requires k < 5
  {
    Element(Name(k))
  }

  function Escaped(value: Option<string>): Option<string> {
    if value.None? then None else Some(XmlEscape.Escape(value.value, false))
  }

  /** The replacement texts, in the order of the edits. */
  function Values(song: SongMetaData): (vs: seq<Option<string>>)
    ensures |vs| == 5
  {
    [Escaped(song.title), Escaped(song.artist), Escaped(song.album),
     Escaped(song.genre), Escaped(song.composer)]
  }

  ghost predicate AreTexts(vs: seq<Option<string>>) {
    |vs| == 5 && forall k :: 0 <= k < 5 && vs[k].Some? ==> IsText(vs[k].value)
  }

  lemma EscapedIsText(value: Option<string>)
    ensures Escaped(value).Some? ==> IsText(Escaped(value).value)
  {
    if value.Some? {
      XmlEscape.EscapedIsCharacterData(value.value, false);
    }
  }

  lemma ValuesAreTexts(song: SongMetaData)
    ensures AreTexts(Values(song))
  {
    EscapedIsText(song.title);
    EscapedIsText(song.artist);
    EscapedIsText(song.album);
    EscapedIsText(song.genre);
    EscapedIsText(song.composer);
  }

  // ---------------------------------------------------------------- editing a document

  /** A value that is not known leaves the document alone. */
  function PutIfKnown(doc: string, m: Markers, value: Option<string>): string {
    if value.None? then doc else Put(doc, m, value.value)
  }

  /** The document after the edits of the elements from k on. */
  function Edit(doc: string, vs: seq<Option<string>>, k: nat): string
    requires |vs| == 5 && k <= 5
    decreases 5 - k
  {
    if k == 5 then doc else Edit(PutIfKnown(doc, Field(k), vs[k]), vs, k + 1)
  }

  /** How many of these edits change the document. */
  function Edits(doc: string, vs: seq<Option<string>>, k: nat): nat
    requires |vs| == 5 && k <= 5
    decreases 5 - k
  {
    if k == 5 then 0
    else
      var next := PutIfKnown(doc, Field(k), vs[k]);
      (if next == doc then 0 else 1) + Edits(next, vs, k + 1)
  }

  const ID_ATTRIBUTE: Markers := Markers(" id=\"", "\"")

  function EditOriginal(vs: seq<Option<string>>, original: string, id: string): string
    requires |vs| == 5
  {
    if Edits(original, vs, 0) > 0 then Put(Edit(original, vs, 0), ID_ATTRIBUTE, id) else Edit(original, vs, 0)
  }

  // ---------------------------------------------------------------- a fresh document

  const METADATA := "urn:schemas-upnp-org:" + "metadata-1-0/"

  function Attribute(name: string, value: string): string {
    " " + name + "=\"" + value + "\""
  }

  function DidlHeader(): string {
    "DIDL-Lite"
    + Attribute("xmlns", METADATA + "DIDL-Lite/")
    + Attribute("xmlns:dc", "http://purl.org/" + "dc/elements/1.1/")
    + Attribute("xmlns:upnp", METADATA + "upnp/")
  }

  function ValueOrEmpty(value: Option<string>): string {
    if value.None? then "" else value.value
  }

  function Line(k: nat, value: Option<string>): seq<Token>
    requires k < 5
  {
    [Plain("\n\t")] + ElementTokens(Name(k), ValueOrEmpty(value))
  }

  /** The elements from one number up to another, each on an indented line of its own. */
  function Lines(vs: seq<Option<string>>, from: nat, to: nat): seq<Token>
    requires |vs| == 5 && from <= to <= 5
    decreases 5 - from
  {
    if from == to then [] else Line(from, vs[from]) + Lines(vs, from + 1, to)
  }

  function Opening(id: string): seq<Token> {
    [Tag(DidlHeader()), Plain("\n"), Tag("item" + Attribute("id", id))]
  }

  function Closing(): seq<Token> {
    [Plain("\n"), Tag("/item"), Plain("\n"), Tag("/DIDL-Lite")]
  }

  function Generate(vs: seq<Option<string>>, id: string): string
    requires |vs| == 5
  {
    Flatten(Opening(id) + Lines(vs, 0, 5) + Closing())
  }

  /** SongMetaData_to_DIDL with the identifier it would use. */
  function DidlFor(song: SongMetaData, original: Option<string>, id: string): string {
    if original.None? || original.value == "" then Generate(Values(song), id)
    else EditOriginal(Values(song), original.value, id)
  }

  // ---------------------------------------------------------------- values read back

  ghost predicate HoldsTexts(doc: string) {
    forall k: nat | k < 5 :: Get(doc, Field(k)).Some? ==> IsText(Get(doc, Field(k)).value)
  }

  lemma TextHasNoTag(c: string, body: string)
    requires IsText(c)
    ensures !Contains(c, Angle(body)) && NoSelfOverlap(Angle(['/'] + body)) == ('<' !in body)
  {
    StrStrFirst(c, Angle(body), 0);
    TagBegins(c, body);
    assert Angle(['/'] + body)[1..] == ['/'] + body + ['>'];
  }

  lemma PutReadsBack(doc: string, k: nat, c: string)
    requires k < 5 && IsText(c) && Get(doc, Field(k)).Some?
    ensures Get(Put(doc, Field(k), c), Field(k)) == Some(c)
  {
    hide Get, Put, Locate, StrStr;
    NamesAreClean(k);
    TextHasNoTag(c, ['/'] + Name(k));
    TextHasNoTag(c, Name(k));
    GetFinds(doc, Field(k));
    PutGet(doc, Field(k), c);
  }

  lemma GetFinds(doc: string, m: Markers)
    ensures Get(doc, m).Some? == Locate(doc, m).Some?
  {
  }

  /** One edit changes what its own element reads as and nothing else. */
  lemma FieldAfterPut(doc: string, k: nat, v: Option<string>, j: nat)
    requires k < 5 && j < 5 && HoldsTexts(doc) && (v.Some? ==> IsText(v.value))
    ensures Get(PutIfKnown(doc, Field(k), v), Field(j))
         == if j == k && v.Some? && Get(doc, Field(j)).Some? then v else Get(doc, Field(j))
  {
    hide Get, Put, Locate, StrStr, Name;
    if v.Some? {
      if Get(doc, Field(k)).None? {
        GetPut(doc, Field(k));
      } else if j == k {
        PutReadsBack(doc, k, v.value);
      } else {
        NamesAreClean(j);
        NamesAreClean(k);
        NamesDiffer(j, k);
        assert IsText(Get(doc, Field(k)).value);
        assert Get(doc, Field(j)).Some? ==> IsText(Get(doc, Field(j)).value);
        PutKeepsOther(doc, Name(k), Name(j), v.value);
      }
    }
  }

  /** What element j should read as after the edits. */
  function ReadBack(doc: string, vs: seq<Option<string>>, j: nat): Option<string>
    requires |vs| == 5 && j < 5
  {
    if vs[j].Some? && Get(doc, Field(j)).Some? then vs[j] else Get(doc, Field(j))
  }

  /** After the edits every known field that has an element reads back as its escaped value,
      everything else reads as before. */
  lemma {:induction false} EditReadsBack(doc: string, vs: seq<Option<string>>, k: nat)
    requires AreTexts(vs) && k <= 5 && HoldsTexts(doc)
    ensures HoldsTexts(Edit(doc, vs, k))
    ensures forall j: nat | j < 5 ::
      Get(Edit(doc, vs, k), Field(j)) == if k <= j then ReadBack(doc, vs, j) else Get(doc, Field(j))
    decreases 5 - k
  {
    hide Get, Put, Locate, StrStr, Name, PutIfKnown, Element;
    if k < 5 {
      var next := PutIfKnown(doc, Field(k), vs[k]);
      forall j: nat | j < 5
        ensures Get(next, Field(j)) == if j == k && vs[k].Some? && Get(doc, Field(j)).Some? then vs[k]
                                       else Get(doc, Field(j))
      {
        FieldAfterPut(doc, k, vs[k], j);
      }
      EditReadsBack(next, vs, k + 1);
    }
  }

  /** No edit is counted exactly if every known field that has an element reads as it should. */
  lemma {:induction false} NoEdits(doc: string, vs: seq<Option<string>>, k: nat)
    requires |vs| == 5 && k <= 5
    ensures Edits(doc, vs, k) == 0 <==>
      forall j: nat | k <= j < 5 && vs[j].Some? :: Get(doc, Field(j)).None? || Get(doc, Field(j)) == vs[j]
    ensures Edits(doc, vs, k) == 0 ==> Edit(doc, vs, k) == doc
    decreases 5 - k
  {
    hide Get, Put, Locate, StrStr, Name;
    if k < 5 {
      NoEdits(doc, vs, k + 1);
      if vs[k].Some? {
        PutChanges(doc, Field(k), vs[k].value);
      }
    }
  }

  // ---------------------------------------------------------------- the new identifier

  lemma QuotedId(doc: string, from: nat, to: nat)
    requires Locate(doc, ID_ATTRIBUTE) == Some(Range(from, to))
    ensures 5 <= from <= to <= |doc| && Quoted(doc[..from], doc[from..to], doc[to..])
    ensures doc == doc[..from] + (doc[from..to] + doc[to..])
  {
    PartsAround(doc, ID_ATTRIBUTE, from, to);
    OccursAsSlice(doc[..from], ID_ATTRIBUTE.start, from - 5);
    assert doc[..from][from - 5..from][4] == '"';
    StrStrFirst(doc, ID_ATTRIBUTE.end, from);
    assert doc[to..][0] == '"';
    forall i | from <= i < to
      ensures doc[i] != '"'
    {
      QuoteOccurs(doc, i);
    }
  }

  /** What writing the identifier does to element k, whatever the text between its quotes. */
  lemma IdChanges(doc: string, from: nat, to: nat, id: string, k: nat)
    requires k < 5 && Locate(doc, ID_ATTRIBUTE) == Some(Range(from, to)) && IsText(id)
    ensures from <= to <= |doc| && doc == doc[..from] + (doc[from..to] + doc[to..])
    ensures Put(doc, ID_ATTRIBUTE, id) == doc[..from] + (id + doc[to..])
    ensures QuotedEffect(doc[..from], doc[from..to], doc[to..], id, Field(k))
  {
    hide Name, StrStr, QuotedEffect, Get;
    QuotedId(doc, from, to);
    NamesAreClean(k);
    EffectIsKnown(doc[..from], doc[from..to], doc[to..], id, Name(k));
    assert doc[..from] + id + doc[to..] == doc[..from] + (id + doc[to..]);
  }

  /** Writing the identifier there damages element k, which reads as the value now: it reaches up to
      the identifier and has an end tag behind it, or it opens within the old identifier and
      another one behind that reads differently. */
  predicate Damages(doc: string, at: Range, k: nat, value: string)
    requires k < 5 && at.from <= at.to <= |doc|
  {
    var behind := doc[at.to..];
    || (Inside(doc, at.from, Field(k)) && Contains(behind, Field(k).end))
    || (Swallowed(doc, at.from, at.to, Field(k)) && Get(behind, Field(k)).Some? && Get(behind, Field(k)) != Some(value))
  }

  /** The identifier is there already, or writing it damages no element that was to be written. */
  ghost predicate IdSpares(doc: string, vs: seq<Option<string>>, id: string)
    requires |vs| == 5
  {
    match Locate(doc, ID_ATTRIBUTE)
    case None => true
    case Some(at) =>
      doc[at.from..at.to] == id || forall k: nat | k < 5 && vs[k].Some? :: !Damages(doc, at, k, vs[k].value)
  }

  lemma DamageIsSeen(doc: string, at: Range, id: string, k: nat, value: string)
    requires k < 5 && Locate(doc, ID_ATTRIBUTE) == Some(at) && IsText(id) && doc[at.from..at.to] != id
    requires Get(doc, Field(k)).None? || Get(doc, Field(k)) == Some(value)
    ensures var r := Put(doc, ID_ATTRIBUTE, id);
      Damages(doc, at, k, value) <==> Get(r, Field(k)).Some? && Get(r, Field(k)) != Some(value)
  {
    hide StrStr, Get, Field, Put;
    IdChanges(doc, at.from, at.to, id, k);
    GetFinds(doc, Field(k));
  }

  lemma IdKeepsFields(doc: string, vs: seq<Option<string>>, id: string)
    requires AreTexts(vs) && IsText(id) && Edits(doc, vs, 0) == 0
    ensures Edits(Put(doc, ID_ATTRIBUTE, id), vs, 0) == 0 <==> IdSpares(doc, vs, id)
  {
    hide Put, StrStr, Damages, Field, Edits, Get;
    var r := Put(doc, ID_ATTRIBUTE, id);
    NoEdits(doc, vs, 0);
    NoEdits(r, vs, 0);
    match Locate(doc, ID_ATTRIBUTE)
    case None => NoIdNoWrite(doc, id);
    case Some(at) =>
      if doc[at.from..at.to] == id {
        SameIdNoWrite(doc, at, id);
      } else {
        forall k: nat | k < 5 && vs[k].Some?
          ensures Damages(doc, at, k, vs[k].value) <==> Get(r, Field(k)).Some? && Get(r, Field(k)) != vs[k]
        {
          DamageIsSeen(doc, at, id, k, vs[k].value);
        }
      }
  }

  lemma NoIdNoWrite(doc: string, id: string)
    requires Locate(doc, ID_ATTRIBUTE).None?
    ensures Put(doc, ID_ATTRIBUTE, id) == doc
  {
  }

  lemma SameIdNoWrite(doc: string, at: Range, id: string)
    requires Locate(doc, ID_ATTRIBUTE) == Some(at) && doc[at.from..at.to] == id
    ensures Put(doc, ID_ATTRIBUTE, id) == doc
  {
    GetPut(doc, ID_ATTRIBUTE);
  }

  // ---------------------------------------------------------------- the fixed point

  /** What announcing the same meta data on top of an announced document must do. */
  ghost predicate IsSettled(song: SongMetaData, didl: string) {
    && Edits(didl, Values(song), 0) == 0
    && forall id :: DidlFor(song, Some(didl), id) == didl
  }

  lemma SettledIfNoEdits(song: SongMetaData, didl: string)
    requires didl != ""
    ensures IsSettled(song, didl) <==> Edits(didl, Values(song), 0) == 0
  {
    NoEdits(didl, Values(song), 0);
  }

  lemma PutKeepsNonEmpty(doc: string, m: Markers, c: string)
    requires m.start != ""
    ensures doc != "" ==> Put(doc, m, c) != ""
  {
  }

  lemma {:induction false} EditKeepsNonEmpty(doc: string, vs: seq<Option<string>>, k: nat)
    requires |vs| == 5 && k <= 5 && doc != ""
    ensures Edit(doc, vs, k) != ""
    decreases 5 - k
  {
    hide Put;
    if k < 5 {
      if vs[k].Some? {
        PutKeepsNonEmpty(doc, Field(k), vs[k].value);
      }
      EditKeepsNonEmpty(PutIfKnown(doc, Field(k), vs[k]), vs, k + 1);
    }
  }

  lemma EditSettles(doc: string, vs: seq<Option<string>>)
    requires AreTexts(vs) && HoldsTexts(doc)
    ensures Edits(Edit(doc, vs, 0), vs, 0) == 0
  {
    hide Edit, Edits, Field;
    EditReadsBack(doc, vs, 0);
    NoEdits(Edit(doc, vs, 0), vs, 0);
  }

  /** When an edited original is a fixed point: exactly if nothing was edited, or the identifier was
      already there or could be written without damage to an element that was to be written. */
  lemma FixedPointIff(song: SongMetaData, original: string, id: string)
    requires original != "" && HoldsTexts(original) && IsText(id)
    ensures var vs := Values(song);
      IsSettled(song, DidlFor(song, Some(original), id)) <==>
        Edits(original, vs, 0) == 0 || IdSpares(Edit(original, vs, 0), vs, id)
  {
    hide Edit, Edits, Values, HoldsTexts, IdSpares, Put, IsSettled;
    var vs := Values(song);
    var edited := Edit(original, vs, 0);
    ValuesAreTexts(song);
    NoEdits(original, vs, 0);
    EditKeepsNonEmpty(original, vs, 0);
    PutKeepsNonEmpty(edited, ID_ATTRIBUTE, id);
    EditSettles(original, vs);
    IdKeepsFields(edited, vs, id);
    SettledIfNoEdits(song, DidlFor(song, Some(original), id));
  }

  /** Writing the identifier makes element k read otherwise: it reaches up to the identifier, or it
      opens within the old one and none behind reads the same. */
  predicate Loses(doc: string, at: Range, k: nat, value: string)
    requires k < 5 && at.from <= at.to <= |doc|
  {
    || Inside(doc, at.from, Field(k))
    || (Swallowed(doc, at.from, at.to, Field(k)) && Get(doc[at.to..], Field(k)) != Some(value))
  }

  lemma LossIsSeen(doc: string, at: Range, id: string, k: nat, value: string)
    requires k < 5 && Locate(doc, ID_ATTRIBUTE) == Some(at) && IsText(id) && doc[at.from..at.to] != id
    requires Get(doc, Field(k)) == Some(value)
    ensures Loses(doc, at, k, value) <==> Get(Put(doc, ID_ATTRIBUTE, id), Field(k)) != Some(value)
  {
    hide StrStr, Get, Field, Put;
    IdChanges(doc, at.from, at.to, id, k);
  }

  /** When a known field with an element reads back from the announced document: exactly if nothing
      was edited, there is no identifier to write, it is there already, or writing it does not
      lose the element. */
  lemma AnnouncedReadsBackIff(song: SongMetaData, original: string, id: string, k: nat)
    requires original != "" && HoldsTexts(original) && IsText(id)
    requires k < 5 && Values(song)[k].Some? && Get(original, Field(k)).Some?
    ensures var vs := Values(song);
      var edited := Edit(original, vs, 0);
      var at := Locate(edited, ID_ATTRIBUTE);
      Get(DidlFor(song, Some(original), id), Field(k)) == vs[k] <==>
        || Edits(original, vs, 0) == 0 || at.None?
        || edited[at.value.from..at.value.to] == id || !Loses(edited, at.value, k, vs[k].value)
  {
    hide Edit, Edits, Values, HoldsTexts, Put, Get, Loses, Field;
    var vs := Values(song);
    var edited := Edit(original, vs, 0);
    ValuesAreTexts(song);
    EditReadsBack(original, vs, 0);
    NoEdits(original, vs, 0);
    match Locate(edited, ID_ATTRIBUTE)
    case None => NoIdNoWrite(edited, id);
    case Some(at) =>
      if edited[at.from..at.to] == id {
        SameIdNoWrite(edited, at, id);
      } else {
        LossIsSeen(edited, at, id, k, vs[k].value);
      }
  }

  // ---------------------------------------------------------------- documents as controllers send them

  /** The identifier attribute comes before every opening tag of an edited element. */
  ghost predicate IdComesFirst(doc: string, from: nat, to: nat) {
    && Locate(doc, ID_ATTRIBUTE) == Some(Range(from, to))
    && forall k: nat, i: nat | k < 5 && i <= to :: !OccursAt(doc, Field(k).start, i)
  }

  lemma TagStaysBehind(p: string, x: string, c: string, q: string, other: string,
                       at: nat, name: string, to: nat, i: nat)
    requires Clean(name) && Clean(other) && i <= to < at
    requires OccursAt(p, Angle(name), at) && at + |Angle(name)| == |p|
    requires !OccursAt(p + x + q, Angle(other), i)
    ensures !OccursAt(p + c + q, Angle(other), i)
  {
    OccursInFront(p, c + q, Angle(name), at);
    assert p + c + q == p + (c + q) && p + x + q == p + (x + q);
    if OccursAt(p + c + q, Angle(other), i) {
      TagsAreApart(p + c + q, other, i, name, at);
      OccursInFront(p, c + q, Angle(other), i);
      OccursInFront(p, x + q, Angle(other), i);
    }
  }

  lemma LocateInFront(p: string, q: string, q': string, m: Markers, from: nat, to: nat)
    requires Locate(p + q, m) == Some(Range(from, to)) && to + |m.end| <= |p|
    ensures Locate(p + q', m) == Some(Range(from, to))
  {
    hide StrStr;
    CommonFront(p, q, q', m.start, 0);
    CommonFront(p, q, q', m.end, from);
  }

  lemma PutKeepsIdFirst(doc: string, k: nat, c: string, from: nat, to: nat)
    requires k < 5 && IdComesFirst(doc, from, to)
    ensures IdComesFirst(Put(doc, Field(k), c), from, to)
  {
    hide StrStr, Name, OccursAt, IsText, Get;
    match Locate(doc, Field(k))
    case None =>
    case Some(r) =>
      var p, x, q := doc[..r.from], doc[r.from..r.to], doc[r.to..];
      var at := r.from - |Field(k).start|;
      PartsAround(doc, Field(k), r.from, r.to);
      OccursInFront(p, x + q, Field(k).start, at);
      assert doc == p + (x + q) && p + c + q == p + (c + q);
      assert at > to;
      LocateInFront(p, x + q, c + q, ID_ATTRIBUTE, from, to);
      forall j: nat, i: nat | j < 5 && i <= to
        ensures !OccursAt(p + c + q, Field(j).start, i)
      {
        NamesAreClean(j);
        NamesAreClean(k);
        assert !OccursAt(doc, Field(j).start, i);
        TagStaysBehind(p, x, c, q, Name(j), at, Name(k), to, i);
      }
  }

  lemma {:induction false} EditKeepsIdFirst(doc: string, vs: seq<Option<string>>, k: nat, from: nat, to: nat)
    requires |vs| == 5 && k <= 5 && IdComesFirst(doc, from, to)
    ensures IdComesFirst(Edit(doc, vs, k), from, to)
    decreases 5 - k
  {
    hide IdComesFirst, Put, Name;
    if k < 5 {
      if vs[k].Some? {
        PutKeepsIdFirst(doc, k, vs[k].value, from, to);
      }
      EditKeepsIdFirst(PutIfKnown(doc, Field(k), vs[k]), vs, k + 1, from, to);
    }
  }

  lemma FirstIdIsApart(doc: string, from: nat, to: nat, k: nat)
    requires k < 5 && IdComesFirst(doc, from, to)
    ensures !Inside(doc, from, Field(k)) && !Swallowed(doc, from, to, Field(k))
  {
    hide Name, OccursAt;
    StrStrFirst(doc, Field(k).start, 0);
  }

  lemma FirstIdSpares(doc: string, vs: seq<Option<string>>, id: string, from: nat, to: nat)
    requires |vs| == 5 && IdComesFirst(doc, from, to)
    ensures IdSpares(doc, vs, id)
  {
    hide Inside, Swallowed, Get, Contains, Field;
    forall k: nat | k < 5
      ensures !Inside(doc, from, Field(k)) && !Swallowed(doc, from, to, Field(k))
    {
      FirstIdIsApart(doc, from, to, k);
    }
  }

  /** Written there the identifier changes no element, known or not. */
  lemma FirstIdKeeps(doc: string, id: string, from: nat, to: nat, k: nat)
    requires k < 5 && IdComesFirst(doc, from, to) && IsText(id)
    ensures Get(Put(doc, ID_ATTRIBUTE, id), Field(k)) == Get(doc, Field(k))
  {
    hide Get, Put, Field;
    FirstIdIsApart(doc, from, to, k);
    IdChanges(doc, from, to, id, k);
  }

  /** A text in which nothing looks like an identifier attribute. */
  predicate HasNoId(s: string) {
    !Contains(s, ID_ATTRIBUTE.start)
  }

  /** An identifier attribute cannot arise across the angle brackets around an element's content. */
  lemma IdWithinPart(p: string, c: string, q: string, i: nat)
    requires p != [] && p[|p| - 1] == '>' && q != [] && q[0] == '<'
    requires OccursAt(p + c + q, ID_ATTRIBUTE.start, i)
    ensures i + 5 <= |p| || |p| + |c| <= i || |p| <= i <= i + 5 <= |p| + |c|
  {
    var s := p + c + q;
    OccursAsSlice(s, ID_ATTRIBUTE.start, i);
    assert forall d :: 0 <= d < 5 ==> s[i + d] == s[i..i + 5][d] == ID_ATTRIBUTE.start[d];
    assert s[|p| - 1] == '>' && s[|p| + |c|] == '<';
  }

  lemma HasNoIdAnywhere(s: string)
    ensures HasNoId(s) <==> forall i: nat :: !OccursAt(s, ID_ATTRIBUTE.start, i)
  {
    StrStrFirst(s, ID_ATTRIBUTE.start, 0);
  }

  lemma NoIdInParts(p: string, x: string, c: string, q: string)
    requires p != [] && p[|p| - 1] == '>' && q != [] && q[0] == '<'
    requires HasNoId(p + x + q) && HasNoId(c)
    ensures HasNoId(p + c + q)
  {
    hide HasNoId, OccursAt;
    HasNoIdAnywhere(p + x + q);
    HasNoIdAnywhere(c);
    HasNoIdAnywhere(p + c + q);
    forall i: nat
      ensures !OccursAt(p + c + q, ID_ATTRIBUTE.start, i)
    {
      if OccursAt(p + c + q, ID_ATTRIBUTE.start, i) {
        IdWithinPart(p, c, q, i);
        IdMoves(p, x, c, q, i);
      }
    }
  }

  lemma IdMoves(p: string, x: string, c: string, q: string, i: nat)
    requires i + 5 <= |p| || |p| + |c| <= i || |p| <= i <= i + 5 <= |p| + |c|
    requires OccursAt(p + c + q, ID_ATTRIBUTE.start, i)
    ensures i + 5 <= |p| ==> OccursAt(p + x + q, ID_ATTRIBUTE.start, i)
    ensures |p| + |c| <= i ==> OccursAt(p + x + q, ID_ATTRIBUTE.start, |p| + |x| + (i - |p| - |c|))
    ensures |p| <= i <= i + 5 <= |p| + |c| ==> OccursAt(c, ID_ATTRIBUTE.start, i - |p|)
  {
    hide OccursAt;
    if i + 5 <= |p| {
      assert p + c + q == p + (c + q) && p + x + q == p + (x + q);
      OccursInFront(p, c + q, ID_ATTRIBUTE.start, i);
      OccursInFront(p, x + q, ID_ATTRIBUTE.start, i);
    } else if |p| + |c| <= i {
      OccursInBack(p + c, q, ID_ATTRIBUTE.start, i - |p| - |c|);
      OccursInBack(p + x, q, ID_ATTRIBUTE.start, i - |p| - |c|);
    } else {
      OccursInPart(p, c, q, ID_ATTRIBUTE.start, i - |p|);
    }
  }

  lemma PartsAreBracketed(doc: string, k: nat, from: nat, to: nat)
    requires k < 5 && Locate(doc, Field(k)) == Some(Range(from, to))
    ensures from > 0 && doc[..from][from - 1] == '>' && doc[to..] != [] && doc[to..][0] == '<'
  {
    hide Name, StrStr, Get;
    PartsAround(doc, Field(k), from, to);
    OccursAsSlice(doc[..from], Field(k).start, from - |Field(k).start|);
    assert doc[..from][from - |Field(k).start|..from][|Field(k).start| - 1] == '>';
    StrStrFirst(doc, Field(k).end, from);
    assert doc[to..][0] == Field(k).end[0];
  }

  lemma {:induction false} EditKeepsNoId(doc: string, vs: seq<Option<string>>, k: nat)
    requires |vs| == 5 && k <= 5 && HasNoId(doc)
    requires forall j: nat | j < 5 && vs[j].Some? :: HasNoId(vs[j].value)
    ensures HasNoId(Edit(doc, vs, k))
    decreases 5 - k
  {
    hide HasNoId, Name, StrStr, Locate;
    if k < 5 {
      var r := Locate(doc, Field(k));
      if vs[k].Some? && r.Some? {
        var (from, to) := (r.value.from, r.value.to);
        PartsAround(doc, Field(k), from, to);
        PartsAreBracketed(doc, k, from, to);
        NoIdInParts(doc[..from], doc[from..to], vs[k].value, doc[to..]);
      }
      EditKeepsNoId(PutIfKnown(doc, Field(k), vs[k]), vs, k + 1);
    }
  }

  /** A document a caller can recognise: the identifier attribute comes before the edited elements,
      or nothing in the document or in the new values looks like one. */
  ghost predicate HasUsualId(original: string, vs: seq<Option<string>>)
    requires |vs| == 5
  {
    || (exists from: nat, to: nat :: IdComesFirst(original, from, to))
    || (HasNoId(original) && forall j: nat | j < 5 && vs[j].Some? :: HasNoId(vs[j].value))
  }

  /** The second announcement of the same meta data edits nothing and returns the document as it is. */
  lemma FixedPoint(song: SongMetaData, original: string, id: string)
    requires original != "" && HoldsTexts(original) && IsText(id) && HasUsualId(original, Values(song))
    ensures IsSettled(song, DidlFor(song, Some(original), id))
  {
    hide Edit, Edits, Values, HoldsTexts, Put, IdComesFirst, IdSpares, IsText;
    var vs := Values(song);
    var edited := Edit(original, vs, 0);
    if HasNoId(original) && forall j: nat | j < 5 && vs[j].Some? :: HasNoId(vs[j].value) {
      EditKeepsNoId(original, vs, 0);
      NoIdSpares(edited, vs, id);
    } else {
      var from: nat, to: nat :| IdComesFirst(original, from, to);
      EditKeepsIdFirst(original, vs, 0, from, to);
      FirstIdSpares(edited, vs, id, from, to);
    }
    FixedPointIff(song, original, id);
  }

  lemma NoIdSpares(doc: string, vs: seq<Option<string>>, id: string)
    requires |vs| == 5 && HasNoId(doc)
    ensures IdSpares(doc, vs, id)
  {
  }

  /** From such a document every field reads back as it should. */
  lemma AnnouncedReadsBack(song: SongMetaData, original: string, id: string, k: nat)
    requires original != "" && HoldsTexts(original) && IsText(id) && HasUsualId(original, Values(song)) && k < 5
    ensures Get(DidlFor(song, Some(original), id), Field(k)) == ReadBack(original, Values(song), k)
  {
    hide Edit, Edits, Values, HoldsTexts, Put, Get, IdComesFirst, IsText, Field;
    var vs := Values(song);
    var edited := Edit(original, vs, 0);
    ValuesAreTexts(song);
    EditReadsBack(original, vs, 0);
    if HasNoId(original) && forall j: nat | j < 5 && vs[j].Some? :: HasNoId(vs[j].value) {
      EditKeepsNoId(original, vs, 0);
      NoIdNoWrite(edited, id);
    } else {
      var from: nat, to: nat :| IdComesFirst(original, from, to);
      EditKeepsIdFirst(original, vs, 0, from, to);
      FirstIdKeeps(edited, id, from, to, k);
    }
  }

  /** A last field that is not known, or reads already as it should, makes no difference. */
  lemma {:induction false} LastFieldIdle(doc: string, vs: seq<Option<string>>, k: nat)
    requires AreTexts(vs) && k <= 4 && HoldsTexts(doc)
    requires vs[4].None? || Get(doc, Field(4)).None? || Get(doc, Field(4)) == vs[4]
    ensures Edit(doc, vs, k) == Edit(doc, vs[4 := None], k) && Edits(doc, vs, k) == Edits(doc, vs[4 := None], k)
    decreases 5 - k
  {
    hide Get, Put, Field;
    if k == 4 {
      if vs[4].Some? {
        PutChanges(doc, Field(4), vs[4].value);
      }
      assert Edit(doc, vs, 5) == doc && Edits(doc, vs, 5) == 0;
    } else {
      var next := PutIfKnown(doc, Field(k), vs[k]);
      forall j: nat | j < 5
        ensures Get(next, Field(j)) == if j == k && vs[k].Some? && Get(doc, Field(j)).Some? then vs[k]
                                       else Get(doc, Field(j))
      {
        FieldAfterPut(doc, k, vs[k], j);
      }
      LastFieldIdle(next, vs, k + 1);
    }
  }

  // ---------------------------------------------------------------- fresh documents

  lemma {:induction false} LinesSplit(vs: seq<Option<string>>, from: nat, k: nat)
    requires |vs| == 5 && from <= k < 5
    ensures Lines(vs, from, 5) == Lines(vs, from, k) + Line(k, vs[k]) + Lines(vs, k + 1, 5)
    decreases 5 - from
  {
    hide Line;
    if from < k {
      LinesSplit(vs, from + 1, k);
    }
  }

  /** Tokens that may stand before element k. */
  ghost predicate Harmless(ts: seq<Token>, k: nat)
    requires k < 5
  {
    AllWellFormed(ts) && Tag(Name(k)) !in ts
  }

  lemma LineIsHarmless(j: nat, value: Option<string>, k: nat)
    requires j < 5 && k < 5 && (value.Some? ==> IsText(value.value))
    ensures AllWellFormed(Line(j, value)) && (j != k ==> Harmless(Line(j, value), k))
  {
    NamesAreClean(j);
    NamesAreClean(k);
    NamesDiffer(j, k);
    NoSlash(k);
    hide Name;
    assert (['/'] + Name(j))[0] == '/';
  }

  lemma NoSlash(k: nat)
    requires k < 5
    ensures '/' !in Name(k)
  {
  }

  lemma {:induction false} LinesAreHarmless(vs: seq<Option<string>>, from: nat, to: nat, k: nat)
    requires AreTexts(vs) && from <= to <= 5 && k < 5
    ensures AllWellFormed(Lines(vs, from, to)) && (to <= k || k < from ==> Harmless(Lines(vs, from, to), k))
    decreases 5 - from
  {
    hide Line, Name, WellFormed, IsText;
    if from < to {
      LineIsHarmless(from, vs[from], k);
      LinesAreHarmless(vs, from + 1, to, k);
    }
  }

  lemma AttributeIsClean(name: string, value: string)
    requires Clean(name) && Clean(value)
    ensures Clean(Attribute(name, value)) && ' ' in Attribute(name, value)
  {
    assert Attribute(name, value)[0] == ' ';
  }

  lemma PartsAreClean()
    ensures Clean("DIDL-Lite") && Clean("xmlns") && Clean("xmlns:dc") && Clean("xmlns:upnp")
  {
  }

  lemma NamespacesAreClean()
    ensures Clean(METADATA + "DIDL-Lite/") && Clean(METADATA + "upnp/")
    ensures Clean("http://purl.org/" + "dc/elements/1.1/")
  {
    assert Clean("urn:schemas-upnp-org:") && Clean("metadata-1-0/");
  }

  lemma HeaderIsClean()
    ensures Clean(DidlHeader()) && ' ' in DidlHeader()
  {
    hide Attribute;
    PartsAreClean();
    NamespacesAreClean();
    AttributeIsClean("xmlns", METADATA + "DIDL-Lite/");
    AttributeIsClean("xmlns:dc", "http://purl.org/" + "dc/elements/1.1/");
    AttributeIsClean("xmlns:upnp", METADATA + "upnp/");
  }

  lemma OpeningIsHarmless(id: string, k: nat)
    requires k < 5 && Clean(id)
    ensures Harmless(Opening(id), k)
  {
    HeaderIsClean();
    NamesAreClean(k);
    assert Clean("item") && Clean("id");
    AttributeIsClean("id", id);
  }

  lemma NotAmong(t: Token, a: seq<Token>, b: seq<Token>, last: Token)
    requires t !in a && t !in b && t != last
    ensures t !in a + b + [last]
  {
  }

  lemma BlanksAreText()
    ensures IsText("\n\t") && IsText("")
  {
  }

  lemma ClosingIsWellFormed()
    ensures AllWellFormed(Closing())
  {
  }

  /** In a fresh document every field reads back as its escaped value, an unknown one as empty. */
  lemma GeneratedReadsBack(vs: seq<Option<string>>, id: string, k: nat)
    requires AreTexts(vs) && Clean(id) && k < 5
    ensures Get(Generate(vs, id), Field(k)) == Some(ValueOrEmpty(vs[k]))
  {
    hide Name, Get, Clean, IsText, Opening, Closing, Lines, ElementTokens;
    LinesSplit(vs, 0, k);
    OpeningIsHarmless(id, k);
    LinesAreHarmless(vs, 0, k, k);
    LinesAreHarmless(vs, k + 1, 5, k);
    ClosingIsWellFormed();
    NamesAreClean(k);
    var pre, post := Opening(id) + Lines(vs, 0, k) + [Plain("\n\t")], Lines(vs, k + 1, 5) + Closing();
    BlanksAreText();
    NotAmong(Tag(Name(k)), Opening(id), Lines(vs, 0, k), Plain("\n\t"));
    GetElement(pre, Name(k), ValueOrEmpty(vs[k]), post);
    SevenParts(Opening(id), Lines(vs, 0, k), [Plain("\n\t")], ElementTokens(Name(k), ValueOrEmpty(vs[k])),
               Lines(vs, k + 1, 5), Closing());
  }

  lemma SevenParts<T>(a: seq<T>, b: seq<T>, c: seq<T>, d: seq<T>, e: seq<T>, f: seq<T>)
    ensures a + (b + (c + d) + e) + f == (a + b + c) + d + (e + f)
  {
  }

  lemma GeneratedIsNotEmpty(vs: seq<Option<string>>, id: string)
    requires |vs| == 5
    ensures Generate(vs, id) != ""
  {
  }

  /** Announcing the same meta data on top of a fresh document changes nothing. */
  lemma FixedPointFresh(song: SongMetaData, id: string)
    requires Clean(id)
    ensures IsSettled(song, DidlFor(song, None, id)) && IsSettled(song, DidlFor(song, Some(""), id))
  {
    hide Generate, Values, IsSettled, Get, Edits;
    var vs := Values(song);
    ValuesAreTexts(song);
    forall k: nat | k < 5
      ensures Get(Generate(vs, id), Field(k)) == Some(ValueOrEmpty(vs[k]))
    {
      GeneratedReadsBack(vs, id, k);
    }
    GeneratedIsNotEmpty(vs, id);
    NoEdits(Generate(vs, id), vs, 0);
    SettledIfNoEdits(song, Generate(vs, id));
  }

  /** The fields under the names of their elements. */
  lemma GeneratedFields(song: SongMetaData, id: string)
    requires Clean(id)
    ensures var didl := DidlFor(song, None, id);
      && Get(didl, Element("dc:title")) == Some(ValueOrEmpty(Escaped(song.title)))
      && Get(didl, Element("upnp:artist")) == Some(ValueOrEmpty(Escaped(song.artist)))
      && Get(didl, Element("upnp:album")) == Some(ValueOrEmpty(Escaped(song.album)))
      && Get(didl, Element("upnp:genre")) == Some(ValueOrEmpty(Escaped(song.genre)))
      && Get(didl, Element("upnp:creator")) == Some(ValueOrEmpty(Escaped(song.composer)))
  {
    hide Generate, Get, Escaped, Element;
    ValuesAreTexts(song);
    GeneratedReadsBack(Values(song), id, 0);
    GeneratedReadsBack(Values(song), id, 1);
    GeneratedReadsBack(Values(song), id, 2);
    GeneratedReadsBack(Values(song), id, 3);
    GeneratedReadsBack(Values(song), id, 4);
  }
}
