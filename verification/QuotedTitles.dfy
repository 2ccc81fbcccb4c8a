/** Titles that look like an identifier attribute: XML allows quotes in character data, escaping
    keeps them, and the identifier is then written into the title. */
module QuotedTitles {
  import opened Wrappers
  import opened StringSearch
  import opened ReplaceRange
  import opened MarkupEditing
  import opened MarkupSeams
  import opened MarkupTokens
  import opened QuotedAttributes
  import opened SongMetaData
  import XmlEscape

  /** A document of one title element and what follows it. */
  function TitleDocument(title: string, rest: string): string {
    Angle("dc:title") + title + (Angle("/dc:title") + rest)
  }

  function Titled(title: string): SongMetaData {
    SongMetaData(Some(title), None, None, None, None)
  }

  lemma TitleTags()
    ensures Angle("dc:title") == Field(0).start && Angle("/dc:title") == Field(0).end
    ensures Clean("dc:title") && Clean("/dc:title") && "/dc:title" == ['/'] + "dc:title"
  {
    NamesAreClean(0);
    assert "/dc:title" == ['/'] + "dc:title";
  }

  lemma TitleIsLocated(title: string, rest: string)
    requires IsText(title)
    ensures Locate(TitleDocument(title, rest), Field(0)) == Some(Range(10, 10 + |title|))
    ensures Get(TitleDocument(title, rest), Field(0)) == Some(title)
  {
    hide StrStr, Clean, IsText;
    var p, q := Angle("dc:title"), Angle("/dc:title") + rest;
    TitleTags();
    assert p + title + q == p + (title + q);
    FoundInFront(p, title + q);
    SearchOverText(p, title, q, "/dc:title", |p|);
    FoundInFront(Angle("/dc:title"), rest);
    assert (p + title + q)[|p|..|p| + |title|] == title;
  }

  lemma TitleIsPut(title: string, rest: string, c: string)
    requires IsText(title)
    ensures Put(TitleDocument(title, rest), Field(0), c) == TitleDocument(c, rest)
  {
    hide Locate;
    TitleIsLocated(title, rest);
    var doc := TitleDocument(title, rest);
    assert doc[..10] == Angle("dc:title") && doc[10 + |title|..] == Angle("/dc:title") + rest;
  }

  /** In such a document no other element is found. */
  lemma NothingElse(title: string, rest: string, k: nat)
    requires IsText(title) && IsText(rest) && 0 < k < 5
    ensures Get(TitleDocument(title, rest), Field(k)) == None
  {
    hide StrStr, Name;
    var ts := ElementTokens(Name(0), title) + [Plain(rest)];
    NamesAreClean(0);
    NamesAreClean(k);
    NamesDiffer(0, k);
    NoSlash(k);
    TokensOfTitle(title, rest);
    SearchTokens(ts, Name(k));
    NotATag(ts, Name(k));
  }

  lemma TokensOfTitle(title: string, rest: string)
    ensures Flatten(ElementTokens(Name(0), title) + [Plain(rest)]) == TitleDocument(title, rest)
  {
    TitleTags();
    FlattenElement([], Name(0), title, [Plain(rest)]);
    FlattenOne(Plain(rest));
    assert [] + ElementTokens(Name(0), title) + [Plain(rest)] == ElementTokens(Name(0), title) + [Plain(rest)];
  }

  lemma {:induction false} NotATag(ts: seq<Token>, body: string)
    requires Tag(body) !in ts
    ensures FindTag(ts, body) == None
  {
    if ts != [] {
      NotATag(ts[1..], body);
    }
  }

  lemma TitleHoldsTexts(title: string, rest: string)
    requires IsText(title) && IsText(rest)
    ensures HoldsTexts(TitleDocument(title, rest))
  {
    hide Get, Field, TitleDocument;
    TitleIsLocated(title, rest);
    forall k: nat | 0 < k < 5
      ensures Get(TitleDocument(title, rest), Field(k)) == None
    {
      NothingElse(title, rest, k);
    }
  }

  lemma {:induction false} NoneKnown(doc: string, vs: seq<Option<string>>, k: nat)
    requires |vs| == 5 && k <= 5 && forall j: nat | k <= j < 5 :: vs[j].None?
    ensures Edit(doc, vs, k) == doc && Edits(doc, vs, k) == 0
    decreases 5 - k
  {
    if k < 5 {
      NoneKnown(doc, vs, k + 1);
    }
  }

  /** A title that differs is the one edit. */
  lemma TitleIsEdited(before: string, rest: string, title: string)
    requires IsText(before) && Escaped(Some(title)).value != before
    ensures var vs := Values(Titled(title));
      var doc := TitleDocument(before, rest);
      Edit(doc, vs, 0) == TitleDocument(Escaped(Some(title)).value, rest) && Edits(doc, vs, 0) > 0
  {
    hide Put, XmlEscape.Escape, TitleDocument, IsText;
    var vs := Values(Titled(title));
    var doc := TitleDocument(before, rest);
    var next := TitleDocument(vs[0].value, rest);
    TitleIsPut(before, rest, vs[0].value);
    NoneKnown(next, vs, 1);
    TitlesDiffer(before, vs[0].value, rest);
  }

  lemma TitlesDiffer(a: string, b: string, rest: string)
    ensures TitleDocument(a, rest) == TitleDocument(b, rest) <==> a == b
  {
    if TitleDocument(a, rest) == TitleDocument(b, rest) {
      assert |a| == |b|;
      assert TitleDocument(a, rest)[10..10 + |a|] == a && TitleDocument(b, rest)[10..10 + |b|] == b;
    }
  }

  // ---------------------------------------------------------------- the identifier in the title

  lemma {:induction false} EscapeKeeps(s: string)
    requires '<' !in s && '>' !in s && '&' !in s
    ensures XmlEscape.Escape(s, false) == s
  {
    if s != [] {
      EscapeKeeps(s[1..]);
    }
  }

  lemma EscapedTitle(b: string, tail: string)
    requires tail == "" || tail == "\""
    ensures XmlEscape.Escape(" id=\"" + b + tail, false) == " id=\"" + XmlEscape.Escape(b, false) + tail
  {
    XmlEscape.EscapeConcat(" id=\"" + b, tail, false);
    XmlEscape.EscapeConcat(" id=\"", b, false);
    EscapeKeeps(" id=\"");
    EscapeKeeps(tail);
  }

  lemma {:induction false} EscapeAddsNoQuote(s: string)
    requires '"' !in s
    ensures '"' !in XmlEscape.Escape(s, false)
  {
    if s != [] {
      EscapeAddsNoQuote(s[1..]);
    }
  }

  /** The first text that looks like an identifier is the one found. */
  lemma IdIsLocated(front: string, x: string, behind: string)
    requires ' ' !in front && '"' !in x
    ensures var doc := front + (" id=\"" + (x + ("\"" + behind)));
      Locate(doc, ID_ATTRIBUTE) == Some(Range(|front| + 5, |front| + 5 + |x|))
  {
    hide StrStr;
    var rest := x + ("\"" + behind);
    FoundInFront(" id=\"", rest);
    TextPassed(front, " id=\"" + rest, " id=\"");
    var doc, to := front + (" id=\"" + rest), |front| + 5 + |x|;
    assert doc[|front| + 5..to] == x && doc[to] == '"';
    AttributeBounds(doc, " id=\"", |front|, to);
  }

  lemma NoBlankInTag()
    ensures ' ' !in Angle("dc:title") && '"' !in Angle("/dc:title") && '<' in Angle("/dc:title")
  {
    NamesAreClean(0);
    TitleTags();
  }

  lemma ClosedTitle(x: string, rest: string)
    requires '"' !in x && IsText(x)
    ensures var doc := TitleDocument(" id=\"" + x + "\"", rest);
      && Locate(doc, ID_ATTRIBUTE) == Some(Range(15, 15 + |x|)) && doc[15..15 + |x|] == x
      && doc[15 + |x|..] == "\"" + (Angle("/dc:title") + rest)
  {
    hide Locate;
    NoBlankInTag();
    IdIsLocated(Angle("dc:title"), x, Angle("/dc:title") + rest);
    assert TitleDocument(" id=\"" + x + "\"", rest)
        == Angle("dc:title") + (" id=\"" + (x + ("\"" + (Angle("/dc:title") + rest))));
  }

  /** A title with a quoted attribute is no fixed point: the identifier is written into it, the next
      announcement writes the title again, and so on. */
  lemma QuotedIdInTitle(b: string, rest: string, id: string)
    requires '"' !in b && IsText(rest) && IsText(id) && id != XmlEscape.Escape(b, false)
    ensures var song := Titled(" id=\"" + b + "\"");
      !IsSettled(song, DidlFor(song, Some(TitleDocument("x", rest)), id))
  {
    hide XmlEscape.Escape, TitleDocument, Get, Edit, Edits, IsSettled, DidlFor, Damages, Name;
    var title, doc := " id=\"" + b + "\"", TitleDocument("x", rest);
    var song, x := Titled(title), XmlEscape.Escape(b, false);
    EscapedTitle(b, "\"");
    EscapeAddsNoQuote(b);
    EscapedIsText(Some(b));
    TitleHoldsTexts("x", rest);
    TitleIsEdited("x", rest, title);
    NotEmpty("x", rest);
    ClosedTitle(x, rest);
    TitleIsDamaged(x, rest);
    var written := " id=\"" + x + "\"";
    assert Values(song)[0] == Some(written);
    assert Edit(doc, Values(song), 0) == TitleDocument(written, rest);
    assert Damages(TitleDocument(written, rest), Range(15, 15 + |x|), 0, Values(song)[0].value);
    FixedPointIff(song, doc, id);
  }

  lemma TitleIsDamaged(x: string, rest: string)
    requires '"' !in x && IsText(x)
    ensures var title := " id=\"" + x + "\"";
      |TitleDocument(title, rest)| >= 15 + |x| && Damages(TitleDocument(title, rest), Range(15, 15 + |x|), 0, title)
  {
    hide Get, TitleDocument, Name, StrStr;
    var title := " id=\"" + x + "\"";
    TitleIsLocated(title, rest);
    ClosedTitle(x, rest);
    OccursInQuoted(Angle("/dc:title"), rest);
    TitleTags();
  }

  lemma NotEmpty(title: string, rest: string)
    ensures TitleDocument(title, rest) != ""
  {
  }

  lemma OccursInQuoted(tag: string, rest: string)
    ensures Contains("\"" + (tag + rest), tag)
  {
    FrontOccurs(tag, rest);
    OccursInBack("\"", tag + rest, tag, 0);
    AnyOccurrence("\"" + (tag + rest), tag, 0, 1);
  }

  lemma OpenTitle(x: string, behind: string)
    requires '"' !in x && IsText(x)
    ensures var rest := "\"" + behind;
      var doc := TitleDocument(" id=\"" + x, rest);
      var to := 15 + |x| + |Angle("/dc:title")|;
      && Locate(doc, ID_ATTRIBUTE) == Some(Range(15, to)) && doc[15..to] == x + Angle("/dc:title") && doc[to..] == rest
  {
    hide Locate;
    NoBlankInTag();
    var inner := x + Angle("/dc:title");
    IdIsLocated(Angle("dc:title"), inner, behind);
    assert TitleDocument(" id=\"" + x, "\"" + behind) == Angle("dc:title") + (" id=\"" + (inner + ("\"" + behind)));
  }

  /** Without the closing quote the identifier is written over the end tag up to the next quote of
      the document: the announced document has no title any more, and stays that way. */
  lemma OpenIdInTitle(b: string, behind: string, id: string)
    requires '"' !in b && IsText(behind) && IsText(id)
    ensures var song := Titled(" id=\"" + b);
      var announced := DidlFor(song, Some(TitleDocument("x", "\"" + behind)), id);
      Get(announced, Field(0)) == None && IsSettled(song, announced)
  {
    hide XmlEscape.Escape, TitleDocument, Get, Edit, Edits, IsSettled, Name, Put;
    var title, rest := " id=\"" + b, "\"" + behind;
    var song, x := Titled(title), XmlEscape.Escape(b, false);
    var written := " id=\"" + x;
    var to := 15 + |x| + |Angle("/dc:title")|;
    var edited := TitleDocument(written, rest);
    assert b + "" == b && title + "" == title && written + "" == written;
    EscapedTitle(b, "");
    EscapeAddsNoQuote(b);
    EscapedIsText(Some(b));
    EscapedIsText(Some(title));
    TitleHoldsTexts("x", rest);
    TitleIsEdited("x", rest, title);
    OpenTitle(x, behind);
    TitleIsLocated(written, rest);
    NotInText(rest, "/dc:title");
    TitleTags();
    NotEmpty("x", rest);
    IdChanges(edited, 15, to, id, 0);
    FixedPointIff(song, TitleDocument("x", rest), id);
    OnlyTitleKnown(song, title);
  }

  lemma OnlyTitleKnown(song: SongMetaData, title: string)
    requires song == Titled(title)
    ensures forall k: nat | 0 < k < 5 :: Values(song)[k].None?
  {
  }
}
