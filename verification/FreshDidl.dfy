/** The text of a document made from nothing, as src/song-meta-data.c spells it, and what a reader finds
    in it besides the five elements: the namespaces and the identifier. */
module FreshDidl {
  import opened Wrappers
  import opened StringSearch
  import opened ReplaceRange
  import opened MarkupEditing
  import opened MarkupTokens
  import opened QuotedAttributes
  import opened SongMetaData

  // ---------------------------------------------------------------- the text

  function ElementText(name: string, value: string): string {
    "<" + name + ">" + value + "</" + name + ">"
  }

  lemma ElementIsText(name: string, value: string)
    ensures Flatten(ElementTokens(name, value)) == ElementText(name, value)
  {
    var e := ElementTokens(name, value);
    FlattenThree(e[0], e[1], e[2]);
    assert "</" == "<" + "/";
  }

  lemma LineIsText(k: nat, value: Option<string>)
    requires k < 5
    ensures Flatten(Line(k, value)) == "\n\t" + ElementText(Name(k), ValueOrEmpty(value))
  {
    hide Name, ElementText, ElementTokens;
    ElementIsText(Name(k), ValueOrEmpty(value));
    FlattenConcat([Plain("\n\t")], ElementTokens(Name(k), ValueOrEmpty(value)));
    FlattenOne(Plain("\n\t"));
  }

  function LinesText(vs: seq<Option<string>>, from: nat): string
    requires |vs| == 5 && from <= 5
    decreases 5 - from
  {
    if from == 5 then "" else "\n\t" + ElementText(Name(from), ValueOrEmpty(vs[from])) + LinesText(vs, from + 1)
  }

  lemma {:induction false} LinesAreText(vs: seq<Option<string>>, from: nat)
    requires |vs| == 5 && from <= 5
    ensures Flatten(Lines(vs, from, 5)) == LinesText(vs, from)
    decreases 5 - from
  {
    hide Line, ElementText, Name;
    if from < 5 {
      LineIsText(from, vs[from]);
      LinesAreText(vs, from + 1);
      FlattenConcat(Line(from, vs[from]), Lines(vs, from + 1, 5));
    }
  }

  lemma OpeningIsText(id: string)
    ensures Flatten(Opening(id)) == "<" + DidlHeader() + ">" + "\n" + "<item" + Attribute("id", id) + ">"
  {
    hide DidlHeader, Attribute;
    FlattenThree(Tag(DidlHeader()), Plain("\n"), Tag("item" + Attribute("id", id)));
    assert "<" + ("item" + Attribute("id", id)) == "<item" + Attribute("id", id);
  }

  lemma ClosingIsText()
    ensures Flatten(Closing()) == "\n" + "</item>" + "\n" + "</DIDL-Lite>"
  {
    FlattenThree(Plain("\n"), Tag("/item"), Plain("\n"));
    FlattenOne(Tag("/DIDL-Lite"));
    FlattenConcat([Plain("\n"), Tag("/item"), Plain("\n")], [Tag("/DIDL-Lite")]);
    assert Closing() == [Plain("\n"), Tag("/item"), Plain("\n")] + [Tag("/DIDL-Lite")];
    assert Angle("/item") == "</item>" && Angle("/DIDL-Lite") == "</DIDL-Lite>";
  }

  /** A fresh document is the header, the item with its identifier, a line for each of the five
      elements in order, and the closing tags. */
  lemma GeneratedText(vs: seq<Option<string>>, id: string)
    requires |vs| == 5
    ensures Generate(vs, id)
         == "<" + DidlHeader() + ">" + "\n" + "<item" + Attribute("id", id) + ">"
          + LinesText(vs, 0)
          + ("\n" + "</item>" + "\n" + "</DIDL-Lite>")
  {
    hide Opening, Closing, Lines, DidlHeader, Attribute, LinesText;
    OpeningIsText(id);
    LinesAreText(vs, 0);
    ClosingIsText();
    FlattenConcat(Opening(id) + Lines(vs, 0, 5), Closing());
    FlattenConcat(Opening(id), Lines(vs, 0, 5));
  }

  // ---------------------------------------------------------------- the namespaces

  lemma DidlNamespace()
    ensures METADATA + "DIDL-Lite/" == "urn:schemas-upnp-org:metadata-1-0/DIDL-Lite/"
  {
  }

  lemma UpnpNamespace()
    ensures METADATA + "upnp/" == "urn:schemas-upnp-org:metadata-1-0/upnp/"
  {
  }

  lemma DcNamespace()
    ensures "http://purl.org/" + "dc/elements/1.1/" == "http://purl.org/dc/elements/1.1/"
  {
  }

  /** A value without a blank or a quote. */
  predicate IsWord(s: string) {
    ' ' !in s && '"' !in s
  }

  lemma NamespacesAreWords()
    ensures IsWord(METADATA + "DIDL-Lite/") && IsWord(METADATA + "upnp/")
    ensures IsWord("http://purl.org/" + "dc/elements/1.1/")
  {
    assert IsWord("urn:schemas-upnp-org:") && IsWord("metadata-1-0/");
  }

  lemma Regrouped(a: string, b: string, c: string, d: string, lines: string, end: string)
    ensures "<" + ("DIDL-Lite" + a + b + c) + ">" + "\n" + "<item" + d + ">" + lines + end
         == "<DIDL-Lite" + (a + (b + (c + (">\n<item" + (d + (">" + lines + end))))))
  {
    assert ">" + "\n" + "<item" == ">\n<item" && "<" + "DIDL-Lite" == "<DIDL-Lite";
    Associated("<", "DIDL-Lite", a, b, c, ">" + "\n" + "<item", d, ">" + lines + end);
    assert "<" + ("DIDL-Lite" + a + b + c) + ">" + "\n" + "<item" + d + ">" + lines + end
        == "<" + ("DIDL-Lite" + a + b + c) + (">" + "\n" + "<item") + d + (">" + lines + end);
  }

  lemma Associated(x: string, y: string, a: string, b: string, c: string, z: string, d: string, e: string)
    ensures x + (y + a + b + c) + z + d + e == (x + y) + (a + (b + (c + (z + (d + e)))))
  {
  }

  /** The text with the attributes one behind the other, each with what is behind it. */
  lemma FreshWords(vs: seq<Option<string>>, id: string)
    requires |vs| == 5
    ensures var rest := ">" + LinesText(vs, 0) + ("\n" + "</item>" + "\n" + "</DIDL-Lite>");
      Generate(vs, id)
      == "<DIDL-Lite" + (Attribute("xmlns", METADATA + "DIDL-Lite/")
         + (Attribute("xmlns:dc", "http://purl.org/" + "dc/elements/1.1/")
         + (Attribute("xmlns:upnp", METADATA + "upnp/") + (">\n<item" + (Attribute("id", id) + rest)))))
  {
    hide Attribute, LinesText, Generate;
    GeneratedText(vs, id);
    Regrouped(Attribute("xmlns", METADATA + "DIDL-Lite/"),
              Attribute("xmlns:dc", "http://purl.org/" + "dc/elements/1.1/"),
              Attribute("xmlns:upnp", METADATA + "upnp/"), Attribute("id", id), LinesText(vs, 0),
              "\n" + "</item>" + "\n" + "</DIDL-Lite>");
  }

  /** What comes before the value of an attribute. */
  function Before(name: string): string {
    " " + name + "=\""
  }

  lemma AttributeParts(name: string, value: string, rest: string)
    ensures Attribute(name, value) + rest == Before(name) + (value + ("\"" + rest))
    ensures |Before(name)| == |name| + 3 && Before(name)[0] == ' '
    ensures Attribute(name, value)[0] == ' ' && |Attribute(name, value)| == |name| + |value| + 4
    ensures forall m: nat | m < |name| :: Before(name)[m + 1] == Attribute(name, value)[m + 1] == name[m]
    ensures Attribute(name, value)[|name| + 1] == Before(name)[|name| + 1] == '='
  {
  }

  lemma AttributeIsWord(name: string, value: string)
    requires ' ' !in name && IsWord(value)
    ensures ' ' !in Attribute(name, value)[1..]
  {
    assert Attribute(name, value)[1..] == name + "=\"" + value + "\"";
  }

  /** The attribute that is found reads as its value. */
  lemma AttributeReads(doc: string, p: string, name: string, value: string, rest: string)
    requires doc == p + (Attribute(name, value) + rest) && '"' !in value
    requires StrStr(doc, Before(name), 0) == Some(|p|)
    ensures Get(doc, Markers(Before(name), "\"")) == Some(value)
    ensures Locate(doc, Markers(Before(name), "\"")) == Some(Range(|p| + |name| + 3, |p| + |name| + 3 + |value|))
  {
    hide StrStr, Get, Locate, Attribute, Before;
    AttributeParts(name, value, rest);
    var from := |p| + |Before(name)|;
    var to := from + |value|;
    assert doc == p + Before(name) + value + ("\"" + rest);
    assert doc[from..to] == value && doc[to] == '"';
    AttributeBounds(doc, Before(name), |p|, to);
  }

  lemma FirstIsAtOnce(name: string, value: string, rest: string)
    ensures StrStr(Attribute(name, value) + rest, Before(name), 0) == Some(0)
  {
    hide StrStr, Attribute, Before;
    AttributeParts(name, value, rest);
    FoundInFront(Before(name), value + ("\"" + rest));
  }

  /** An attribute with another name is passed over. */
  lemma OtherIsPassed(other: string, value: string, rest: string, name: string, m: nat)
    requires ' ' !in other && IsWord(value)
    requires m <= |other| && m <= |name| && (other + "=")[m] != (name + "=")[m]
    ensures StrStr(Attribute(other, value) + rest, Before(name), 0)
         == Shift(StrStr(rest, Before(name), 0), |Attribute(other, value)|)
  {
    hide StrStr, Attribute, Before;
    AttributeParts(other, value, rest);
    AttributeParts(name, "", "");
    AttributeIsWord(other, value);
    WordPassed(Attribute(other, value), rest, Before(name), m + 1);
  }

  /** Four attributes in a row behind a tag name, the last one in another tag. */
  function Row(d: string, u: string, n: string, id: string, rest: string): string {
    "<DIDL-Lite" + (Attribute("xmlns", d) + (Attribute("xmlns:dc", u) + (Attribute("xmlns:upnp", n)
    + (">\n<item" + (Attribute("id", id) + rest)))))
  }

  lemma NamesAreTold()
    ensures ' ' !in "xmlns" && ' ' !in "xmlns:dc" && ' ' !in "xmlns:upnp" && ' ' !in "id"
    ensures ' ' !in "<DIDL-Lite" && ' ' !in ">\n<item" && |"<DIDL-Lite"| == 10
    ensures ("xmlns" + "=")[5] != ("xmlns:dc" + "=")[5] && ("xmlns" + "=")[5] != ("xmlns:upnp" + "=")[5]
    ensures ("xmlns:dc" + "=")[6] != ("xmlns:upnp" + "=")[6]
    ensures ("xmlns" + "=")[0] == ("xmlns:dc" + "=")[0] == ("xmlns:upnp" + "=")[0] != ("id" + "=")[0]
  {
  }

  lemma NamespacesAreFound(d: string, u: string, n: string, id: string, rest: string)
    requires IsWord(d) && IsWord(u) && IsWord(n)
    ensures var doc := Row(d, u, n, id, rest);
      && Get(doc, Markers(Before("xmlns"), "\"")) == Some(d)
      && Get(doc, Markers(Before("xmlns:dc"), "\"")) == Some(u)
      && Get(doc, Markers(Before("xmlns:upnp"), "\"")) == Some(n)
  {
    hide StrStr, Get, Attribute, Before;
    NamesAreTold();
    var a, b, c := Attribute("xmlns", d), Attribute("xmlns:dc", u), Attribute("xmlns:upnp", n);
    var tail := ">\n<item" + (Attribute("id", id) + rest);
    var doc := Row(d, u, n, id, rest);
    AttributeParts("xmlns", "", "");
    AttributeParts("xmlns:dc", "", "");
    AttributeParts("xmlns:upnp", "", "");
    TextPassed("<DIDL-Lite", a + (b + (c + tail)), Before("xmlns"));
    FirstIsAtOnce("xmlns", d, b + (c + tail));
    AttributeReads(doc, "<DIDL-Lite", "xmlns", d, b + (c + tail));
    TextPassed("<DIDL-Lite", a + (b + (c + tail)), Before("xmlns:dc"));
    OtherIsPassed("xmlns", d, b + (c + tail), "xmlns:dc", 5);
    FirstIsAtOnce("xmlns:dc", u, c + tail);
    assert doc == ("<DIDL-Lite" + a) + (b + (c + tail));
    AttributeReads(doc, "<DIDL-Lite" + a, "xmlns:dc", u, c + tail);
    TextPassed("<DIDL-Lite", a + (b + (c + tail)), Before("xmlns:upnp"));
    OtherIsPassed("xmlns", d, b + (c + tail), "xmlns:upnp", 5);
    OtherIsPassed("xmlns:dc", u, c + tail, "xmlns:upnp", 6);
    FirstIsAtOnce("xmlns:upnp", n, tail);
    assert doc == ("<DIDL-Lite" + a + b) + (c + tail);
    AttributeReads(doc, "<DIDL-Lite" + a + b, "xmlns:upnp", n, tail);
  }

  /** The identifier stands in the second tag. */
  lemma IdIsFound(d: string, u: string, n: string, id: string, rest: string)
    requires IsWord(d) && IsWord(u) && IsWord(n) && '"' !in id
    ensures var doc := Row(d, u, n, id, rest);
      var front := "<DIDL-Lite" + Attribute("xmlns", d) + Attribute("xmlns:dc", u) + Attribute("xmlns:upnp", n)
                   + ">\n<item";
      && doc == front + (Attribute("id", id) + rest)
      && Get(doc, Markers(Before("id"), "\"")) == Some(id)
      && Locate(doc, Markers(Before("id"), "\"")) == Some(Range(|front| + 5, |front| + 5 + |id|))
  {
    hide StrStr, Get, Locate, Attribute, Before;
    NamesAreTold();
    var a, b, c := Attribute("xmlns", d), Attribute("xmlns:dc", u), Attribute("xmlns:upnp", n);
    var last := Attribute("id", id) + rest;
    var tail := ">\n<item" + last;
    AttributeParts("id", "", "");
    TextPassed("<DIDL-Lite", a + (b + (c + tail)), Before("id"));
    OtherIsPassed("xmlns", d, b + (c + tail), "id", 0);
    OtherIsPassed("xmlns:dc", u, c + tail, "id", 0);
    OtherIsPassed("xmlns:upnp", n, tail, "id", 0);
    TextPassed(">\n<item", last, Before("id"));
    FirstIsAtOnce("id", id, rest);
    AttributeReads(Row(d, u, n, id, rest), "<DIDL-Lite" + a + b + c + ">\n<item", "id", id, rest);
  }

  lemma MarkersAreSpelled()
    ensures Before("xmlns") == " xmlns=\"" && Before("xmlns:dc") == " xmlns:dc=\""
    ensures Before("xmlns:upnp") == " xmlns:upnp=\"" && Before("id") == " id=\""
  {
  }

  /** In every document made from nothing the three prefixes are bound to their namespaces, and the
      identifier is the given one. */
  lemma NamespacesReadBack(song: SongMetaData, id: string)
    requires '"' !in id
    ensures var didl := DidlFor(song, None, id);
      && Get(didl, Markers(" xmlns=\"", "\"")) == Some("urn:schemas-upnp-org:metadata-1-0/DIDL-Lite/")
      && Get(didl, Markers(" xmlns:dc=\"", "\"")) == Some("http://purl.org/dc/elements/1.1/")
      && Get(didl, Markers(" xmlns:upnp=\"", "\"")) == Some("urn:schemas-upnp-org:metadata-1-0/upnp/")
      && Get(didl, Markers(" id=\"", "\"")) == Some(id)
  {
    hide Generate, Get, Attribute, Before, LinesText, Row, Values;
    FreshIsRow(Values(song), id);
    NamespacesAreWords();
    var d, u, n := METADATA + "DIDL-Lite/", "http://purl.org/" + "dc/elements/1.1/", METADATA + "upnp/";
    NamespacesAreFound(d, u, n, id, FreshRest(Values(song)));
    IdIsFound(d, u, n, id, FreshRest(Values(song)));
    MarkersAreSpelled();
    DidlNamespace();
    DcNamespace();
    UpnpNamespace();
  }

  /** What is behind the identifier. */
  function FreshRest(vs: seq<Option<string>>): string
    requires |vs| == 5
  {
    ">" + LinesText(vs, 0) + ("\n" + "</item>" + "\n" + "</DIDL-Lite>")
  }

  lemma FreshIsRow(vs: seq<Option<string>>, id: string)
    requires |vs| == 5
    ensures Generate(vs, id)
         == Row(METADATA + "DIDL-Lite/", "http://purl.org/" + "dc/elements/1.1/", METADATA + "upnp/", id, FreshRest(vs))
  {
    hide Generate, Attribute, LinesText;
    FreshWords(vs, id);
  }

  lemma LineParts(name: string, value: string)
    ensures "\n\t" + ElementText(name, value) == ("\n\t<" + name + ">") + value + ("</" + name + ">")
  {
    assert "\n\t" + "<" == "\n\t<";
  }

  lemma StartTagsAreSpelled()
    ensures "\n\t<" + "dc:title" + ">" == "\n\t<dc:title>"
    ensures "\n\t<" + "upnp:artist" + ">" == "\n\t<upnp:artist>" && "\n\t<" + "upnp:album" + ">" == "\n\t<upnp:album>"
    ensures "\n\t<" + "upnp:genre" + ">" == "\n\t<upnp:genre>" && "\n\t<" + "upnp:creator" + ">" == "\n\t<upnp:creator>"
  {
  }

  lemma EndTagsAreSpelled()
    ensures "</" + "dc:title" + ">" == "</dc:title>"
    ensures "</" + "upnp:artist" + ">" == "</upnp:artist>" && "</" + "upnp:album" + ">" == "</upnp:album>"
    ensures "</" + "upnp:genre" + ">" == "</upnp:genre>" && "</" + "upnp:creator" + ">" == "</upnp:creator>"
  {
  }

  lemma LinesAreSpelled(vs: seq<Option<string>>)
    requires |vs| == 5
    ensures LinesText(vs, 0)
         == "\n\t<dc:title>" + ValueOrEmpty(vs[0]) + "</dc:title>"
          + ("\n\t<upnp:artist>" + ValueOrEmpty(vs[1]) + "</upnp:artist>"
          + ("\n\t<upnp:album>" + ValueOrEmpty(vs[2]) + "</upnp:album>"
          + ("\n\t<upnp:genre>" + ValueOrEmpty(vs[3]) + "</upnp:genre>"
          + ("\n\t<upnp:creator>" + ValueOrEmpty(vs[4]) + "</upnp:creator>"))))
  {
    hide ElementText, ValueOrEmpty;
    StartTagsAreSpelled();
    EndTagsAreSpelled();
    LineParts("dc:title", ValueOrEmpty(vs[0]));
    LineParts("upnp:artist", ValueOrEmpty(vs[1]));
    LineParts("upnp:album", ValueOrEmpty(vs[2]));
    LineParts("upnp:genre", ValueOrEmpty(vs[3]));
    LineParts("upnp:creator", ValueOrEmpty(vs[4]));
    assert LinesText(vs, 5) == "";
    UnrollLines(vs);
  }

  lemma UnrollLines(vs: seq<Option<string>>)
    requires |vs| == 5
    ensures LinesText(vs, 0)
         == "\n\t" + ElementText("dc:title", ValueOrEmpty(vs[0]))
          + ("\n\t" + ElementText("upnp:artist", ValueOrEmpty(vs[1]))
          + ("\n\t" + ElementText("upnp:album", ValueOrEmpty(vs[2]))
          + ("\n\t" + ElementText("upnp:genre", ValueOrEmpty(vs[3]))
          + ("\n\t" + ElementText("upnp:creator", ValueOrEmpty(vs[4]))))))
  {
    hide ElementText, ValueOrEmpty;
    assert LinesText(vs, 5) == "";
    assert LinesText(vs, 4) == "\n\t" + ElementText("upnp:creator", ValueOrEmpty(vs[4]));
    assert LinesText(vs, 2) == "\n\t" + ElementText("upnp:album", ValueOrEmpty(vs[2])) + LinesText(vs, 3);
  }

  lemma JointsAreSpelled()
    ensures "<DIDL-Lite" + " xmlns=\"" == "<DIDL-Lite xmlns=\""
    ensures "\"" + " xmlns:dc=\"" == "\" xmlns:dc=\"" && "\"" + " xmlns:upnp=\"" == "\" xmlns:upnp=\""
    ensures "\"" + ">\n<item" + " id=\"" == "\">\n<item id=\"" && "\"" + ">" == "\">"
    ensures "\n" + "</item>" + "\n" + "</DIDL-Lite>" == "\n</item>\n</DIDL-Lite>"
  {
  }

  lemma RowIsText(d: string, u: string, n: string, id: string, rest: string)
    ensures Row(d, u, n, id, rest)
         == "<DIDL-Lite xmlns=\"" + d + "\" xmlns:dc=\"" + u + "\" xmlns:upnp=\"" + n
          + "\">\n<item id=\"" + id + ("\"" + rest)
  {
    hide Attribute;
    JointsAreSpelled();
    MarkersAreSpelled();
    AttributeParts("xmlns", d, "");
    RowParts(Before("xmlns"), d, Before("xmlns:dc"), u, Before("xmlns:upnp"), n, Before("id"), id, rest);
    RowAttributes(d, u, n, id, rest);
  }

  lemma RowAttributes(d: string, u: string, n: string, id: string, rest: string)
    ensures Row(d, u, n, id, rest)
         == "<DIDL-Lite" + (Before("xmlns") + d + "\"" + (Before("xmlns:dc") + u + "\""
            + (Before("xmlns:upnp") + n + "\"" + (">\n<item" + (Before("id") + id + "\"" + rest)))))
  {
  }

  lemma RowParts(a: string, d: string, b: string, u: string, c: string, n: string, e: string, id: string, rest: string)
    ensures "<DIDL-Lite" + (a + d + "\"" + (b + u + "\"" + (c + n + "\"" + (">\n<item" + (e + id + "\"" + rest)))))
         == ("<DIDL-Lite" + a) + d + ("\"" + b) + u + ("\"" + c) + n + ("\"" + ">\n<item" + e) + id + ("\"" + rest)
  {
  }

  /** A document made from nothing: the namespaces, the item with its identifier, and a line for each
      of the five fields in order, escaped, an unknown one empty. */
  lemma FreshText(song: SongMetaData, id: string)
    ensures DidlFor(song, None, id)
         == "<DIDL-Lite xmlns=\"" + "urn:schemas-upnp-org:metadata-1-0/DIDL-Lite/"
          + "\" xmlns:dc=\"" + "http://purl.org/dc/elements/1.1/"
          + "\" xmlns:upnp=\"" + "urn:schemas-upnp-org:metadata-1-0/upnp/"
          + "\">\n<item id=\"" + id + ("\">"
          + ("\n\t<dc:title>" + ValueOrEmpty(Escaped(song.title)) + "</dc:title>"
          + ("\n\t<upnp:artist>" + ValueOrEmpty(Escaped(song.artist)) + "</upnp:artist>"
          + ("\n\t<upnp:album>" + ValueOrEmpty(Escaped(song.album)) + "</upnp:album>"
          + ("\n\t<upnp:genre>" + ValueOrEmpty(Escaped(song.genre)) + "</upnp:genre>"
          + ("\n\t<upnp:creator>" + ValueOrEmpty(Escaped(song.composer)) + "</upnp:creator>")))))
          + "\n</item>\n</DIDL-Lite>")
  {
    hide Generate, Row, LinesText, ValueOrEmpty, Escaped;
    var vs := Values(song);
    FreshIsRow(vs, id);
    LinesAreSpelled(vs);
    JointsAreSpelled();
    RowIsText(METADATA + "DIDL-Lite/", "http://purl.org/" + "dc/elements/1.1/", METADATA + "upnp/", id, FreshRest(vs));
    DidlNamespace();
    DcNamespace();
    UpnpNamespace();
    assert "\"" + FreshRest(vs) == "\">" + LinesText(vs, 0) + "\n</item>\n</DIDL-Lite>";
  }
}
