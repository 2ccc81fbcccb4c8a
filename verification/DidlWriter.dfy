/** The entry point of src/song-meta-data.c: escaping, editing in buffers, and the identifiers
    that mark a changed document. */
module DidlWriter {
  import opened Wrappers
  import opened ReplaceRange
  import opened MarkupEditing
  import opened MarkupTokens
  import opened SongMetaData
  import XmlEscape

  // ---------------------------------------------------------------- identifiers

  function HexDigit(d: nat): char
    requires d < 16
  {
    "0123456789abcdef"[d]
  }

  function PowerOfSixteen(k: nat): nat {
    if k == 0 then 1 else 16 * PowerOfSixteen(k - 1)
  }

  /** A number on a given count of hexadecimal digits. */
  function Hex(n: nat, digits: nat): string {
    if digits == 0 then [] else Hex(n / 16, digits - 1) + [HexDigit(n % 16)]
  }

  /** gmr- and eight hexadecimal digits. */
  function UniqueId(n: uint32): string {
    "gmr-" + Hex(n, 8)
  }

  function HexDigitValue(c: char): int {
    if '0' <= c <= '9' then c as int - '0' as int else 10 + (c as int - 'a' as int)
  }

  function HexValue(s: string): int {
    if s == [] then 0 else 16 * HexValue(s[..|s| - 1]) + HexDigitValue(s[|s| - 1])
  }

  predicate IsHexDigit(c: char) {
    '0' <= c <= '9' || 'a' <= c <= 'f'
  }

  lemma {:induction false} HexReadsBack(n: nat, digits: nat)
    requires n < PowerOfSixteen(digits)
    ensures |Hex(n, digits)| == digits && HexValue(Hex(n, digits)) == n
    ensures forall c <- Hex(n, digits) :: IsHexDigit(c)
  {
    if digits > 0 {
      HexReadsBack(n / 16, digits - 1);
      assert Hex(n, digits)[..digits - 1] == Hex(n / 16, digits - 1);
      assert HexDigitValue(HexDigit(n % 16)) == n % 16;
    }
  }

  /** The identifier is "gmr-" and eight lower-case digits that give the counter in base sixteen. */
  lemma UniqueIdReadsBack(n: uint32)
    ensures |UniqueId(n)| == 12 && UniqueId(n)[..4] == "gmr-" && HexValue(UniqueId(n)[4..]) == n
    ensures forall c <- UniqueId(n)[4..] :: IsHexDigit(c)
  {
    assert PowerOfSixteen(4) == 0x1_0000;
    assert PowerOfSixteen(8) == 16 * 16 * 16 * 16 * PowerOfSixteen(4);
    HexReadsBack(n, 8);
    assert UniqueId(n)[4..] == Hex(n, 8);
  }

  lemma UniqueIdInjective(m: uint32, n: uint32)
    ensures UniqueId(m) == UniqueId(n) <==> m == n
  {
    hide UniqueId;
    UniqueIdReadsBack(m);
    UniqueIdReadsBack(n);
  }

  /** The counter after some announcements: it starts at 42 and is incremented by each. */
  function CounterAfter(calls: nat): uint32 {
    if calls == 0 then 42 else (CounterAfter(calls - 1) + 1) % 0x1_0000_0000
  }

  lemma NextRemainder(a: nat)
    ensures (a % 0x1_0000_0000 + 1) % 0x1_0000_0000 == (a + 1) % 0x1_0000_0000
  {
    SameRemainder(a % 0x1_0000_0000 + 1, a + 1);
  }

  lemma {:induction false} CounterIs(calls: nat)
    ensures CounterAfter(calls) == (42 + calls) % 0x1_0000_0000
  {
    if calls > 0 {
      CounterIs(calls - 1);
      NextRemainder(42 + calls - 1);
    }
  }

  lemma SameRemainder(a: nat, b: nat)
    requires a <= b
    ensures a % 0x1_0000_0000 == b % 0x1_0000_0000 <==> (b - a) % 0x1_0000_0000 == 0
  {
    var q, r, q', r' := a / 0x1_0000_0000, a % 0x1_0000_0000, b / 0x1_0000_0000, b % 0x1_0000_0000;
    assert b - a == 0x1_0000_0000 * (q' - q) + (r' - r);
  }

  /** Two announcements use the same identifier exactly if a multiple of 2^32 lies between them. */
  lemma IdsRepeatIff(i: nat, j: nat)
    requires i <= j
    ensures UniqueId(CounterAfter(i)) == UniqueId(CounterAfter(j)) <==> (j - i) % 0x1_0000_0000 == 0
  {
    hide UniqueId, CounterAfter;
    CounterIs(i);
    CounterIs(j);
    SameRemainder(42 + i, 42 + j);
    UniqueIdInjective(CounterAfter(i), CounterAfter(j));
  }

  lemma {:induction false} HexIsClean(n: nat, digits: nat)
    ensures Clean(Hex(n, digits)) && NoNul(Hex(n, digits)) && '"' !in Hex(n, digits)
  {
    if digits > 0 {
      HexIsClean(n / 16, digits - 1);
      DigitIsClean(n % 16);
    }
  }

  lemma DigitIsClean(d: nat)
    requires d < 16
    ensures HexDigit(d) != '<' && HexDigit(d) != '>' && HexDigit(d) != '\0' && HexDigit(d) != '"'
  {
  }

  lemma UniqueIdIsClean(n: uint32)
    ensures Clean(UniqueId(n)) && NoNul(UniqueId(n)) && '"' !in UniqueId(n)
  {
    HexIsClean(n, 8);
  }

  // ---------------------------------------------------------------- C strings

  /** The characters of a C string. */
  predicate NoNul(s: string) {
    '\0' !in s
  }

  predicate KnownNoNul(value: Option<string>) {
    value.Some? ==> NoNul(value.value)
  }

  predicate IsCSong(song: SongMetaData) {
    KnownNoNul(song.title) && KnownNoNul(song.artist) && KnownNoNul(song.album)
    && KnownNoNul(song.genre) && KnownNoNul(song.composer)
  }

  lemma {:induction false} EscapeNoNul(s: string)
    requires NoNul(s)
    ensures NoNul(XmlEscape.Escape(s, false))
  {
    if s != [] {
      EscapeNoNul(s[1..]);
    }
  }

  ghost predicate TokensNoNul(ts: seq<Token>) {
    forall t <- ts :: NoNul(Spell(t))
  }

  lemma {:induction false} FlattenNoNul(ts: seq<Token>)
    requires TokensNoNul(ts)
    ensures NoNul(Flatten(ts))
  {
    if ts != [] {
      FlattenNoNul(ts[1..]);
    }
  }

  lemma TagNoNul(body: string)
    requires NoNul(body)
    ensures NoNul(Spell(Tag(body)))
  {
  }

  lemma NamesNoNul(k: nat)
    requires k < 5
    ensures NoNul(Name(k)) && NoNul(['/'] + Name(k))
  {
  }

  lemma LineNoNul(k: nat, value: Option<string>)
    requires k < 5 && KnownNoNul(value)
    ensures TokensNoNul(Line(k, value))
  {
    hide Name;
    NamesNoNul(k);
    TagNoNul(Name(k));
    TagNoNul(['/'] + Name(k));
  }

  lemma {:induction false} LinesNoNul(vs: seq<Option<string>>, from: nat)
    requires |vs| == 5 && from <= 5 && forall v <- vs :: KnownNoNul(v)
    ensures TokensNoNul(Lines(vs, from, 5))
    decreases 5 - from
  {
    hide Line, KnownNoNul, NoNul;
    if from < 5 {
      LineNoNul(from, vs[from]);
      LinesNoNul(vs, from + 1);
    }
  }

  lemma AttributeNoNul(name: string, value: string)
    requires NoNul(name) && NoNul(value)
    ensures NoNul(Attribute(name, value))
  {
  }

  lemma NamespacesNoNul()
    ensures NoNul(METADATA + "DIDL-Lite/") && NoNul(METADATA + "upnp/")
    ensures NoNul("http://purl.org/" + "dc/elements/1.1/")
  {
    assert NoNul("urn:schemas-upnp-org:") && NoNul("metadata-1-0/");
  }

  lemma PartsNoNul()
    ensures NoNul("DIDL-Lite") && NoNul("xmlns") && NoNul("xmlns:dc") && NoNul("xmlns:upnp")
    ensures NoNul("item") && NoNul("id")
  {
  }

  lemma HeaderNoNul()
    ensures NoNul(DidlHeader())
  {
    hide Attribute;
    PartsNoNul();
    NamespacesNoNul();
    AttributeNoNul("xmlns", METADATA + "DIDL-Lite/");
    AttributeNoNul("xmlns:dc", "http://purl.org/" + "dc/elements/1.1/");
    AttributeNoNul("xmlns:upnp", METADATA + "upnp/");
  }

  lemma OpeningNoNul(id: string)
    requires NoNul(id)
    ensures TokensNoNul(Opening(id))
  {
    hide Attribute, DidlHeader;
    PartsNoNul();
    HeaderNoNul();
    AttributeNoNul("id", id);
    TagNoNul(DidlHeader());
    TagNoNul("item" + Attribute("id", id));
  }

  lemma ClosingNoNul()
    ensures TokensNoNul(Closing())
  {
  }

  lemma GenerateNoNul(vs: seq<Option<string>>, id: string)
    requires |vs| == 5 && NoNul(id) && forall v <- vs :: KnownNoNul(v)
    ensures NoNul(Generate(vs, id))
  {
    hide Opening, Lines, Closing, Flatten, NoNul, Spell;
    OpeningNoNul(id);
    LinesNoNul(vs, 0);
    ClosingNoNul();
    FlattenNoNul(Opening(id) + Lines(vs, 0, 5) + Closing());
  }

  // ---------------------------------------------------------------- the conversion

  method EscapeIfKnown(value: Option<string>) returns (r: Option<string>)
    requires KnownNoNul(value)
    ensures r == Escaped(value) && KnownNoNul(r)
  {
    if value.None? {
      return None;
    }
    var out := XmlEscape.XmlEscape(value.value, false);
    EscapeNoNul(value.value);
    r := Some(out[..out.Length - 1]);
  }

  /** The static counter behind the identifiers, and the conversion that draws from it. */
  class Writer {
    var xmlId: uint32

    constructor ()
      ensures xmlId == 42
    {
      xmlId := 42;
    }

    method ToDidl(song: SongMetaData, original: Option<string>) returns (didl: array<char>)
      requires IsCSong(song) && KnownNoNul(original)
      modifies this
      ensures fresh(didl) && IsCString(didl)
      ensures Text(didl) == DidlFor(song, original, UniqueId(old(xmlId)))
      ensures xmlId == (old(xmlId) + 1) % 0x1_0000_0000
    {
      hide Generate, EditOriginal, UniqueId, Escaped;
      var uniqueId := UniqueId(xmlId);
      UniqueIdIsClean(xmlId);
      xmlId := (xmlId + 1) % 0x1_0000_0000;
      var title := EscapeIfKnown(song.title);
      var artist := EscapeIfKnown(song.artist);
      var album := EscapeIfKnown(song.album);
      var genre := EscapeIfKnown(song.genre);
      var composer := EscapeIfKnown(song.composer);
      ghost var vs := Values(song);
      if original.None? || original.value == "" {
        GenerateNoNul(vs, uniqueId);
        didl := NewCString(Generate([title, artist, album, genre, composer], uniqueId));
      } else {
        didl := EditOriginalIn(original.value, title, artist, album, genre, composer, uniqueId, vs);
      }
    }
  }

  method EditOriginalIn(original: string, title: Option<string>, artist: Option<string>, album: Option<string>,
                        genre: Option<string>, composer: Option<string>, uniqueId: string,
                        ghost vs: seq<Option<string>>)
    returns (didl: array<char>)
    requires vs == [title, artist, album, genre, composer] && (forall v <- vs :: KnownNoNul(v))
    requires NoNul(original) && NoNul(uniqueId)
    ensures fresh(didl) && IsCString(didl) && Text(didl) == EditOriginal(vs, original, uniqueId)
  {
    hide Edit, Edits, Put, Field;
    var edits := 0;
    didl := NewCString(original);
    didl, edits := EditField(didl, 0, title, edits, vs, original);
    didl, edits := EditField(didl, 1, artist, edits, vs, original);
    didl, edits := EditField(didl, 2, album, edits, vs, original);
    didl, edits := EditField(didl, 3, genre, edits, vs, original);
    didl, edits := EditField(didl, 4, composer, edits, vs, original);
    AllEdited(Text(didl), vs);
    if edits > 0 {
      didl, edits := ReplaceRange.ReplaceRange(didl, ID_ATTRIBUTE, Some(uniqueId), edits);
    }
  }

  lemma AllEdited(doc: string, vs: seq<Option<string>>)
    requires |vs| == 5
    ensures Edit(doc, vs, 5) == doc && Edits(doc, vs, 5) == 0
  {
  }

  /** One of the five edits; what is still to be done leads to the same document and count. */
  method EditField(input: array<char>, k: nat, value: Option<string>, edits: nat,
                   ghost vs: seq<Option<string>>, ghost original: string)
    returns (result: array<char>, count: nat)
    requires k < 5 && |vs| == 5 && vs[k] == value && IsCString(input) && KnownNoNul(value)
    requires Edit(Text(input), vs, k) == Edit(original, vs, 0)
    requires edits + Edits(Text(input), vs, k) == Edits(original, vs, 0)
    modifies input
    ensures result == input || fresh(result)
    ensures IsCString(result)
    ensures Edit(Text(result), vs, k + 1) == Edit(original, vs, 0)
    ensures count + Edits(Text(result), vs, k + 1) == Edits(original, vs, 0)
  {
    hide Put, Name;
    result, count := ReplaceRange.ReplaceRange(input, Field(k), value, edits);
  }
}
