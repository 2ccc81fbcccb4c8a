/** The LastChange event document (src/variable-container.c, UPnPLastChangeBuilder): a list of
    variable elements, its XML text, and the reader a subscribed controller uses on that text. */
module LastChangeDocument {
  import opened Wrappers
  import XmlEscape

  /** One element below InstanceID. `channel` tells whether channel="Master" is attached. */
  datatype Element = Element(name: string, value: string, channel: bool)

  type Doc = seq<Element>

  predicate HasChannel(name: string) {
    name == "Volume" || name == "VolumeDB" || name == "Mute" || name == "Loudness"
  }

  function MakeElement(name: string, value: string): Element {
    Element(name, value, HasChannel(name))
  }

  // ---------------------------------------------------------------- printing

  function AttributeChar(c: char): string {
    if c == '<' then "&lt;"
    else if c == '>' then "&gt;"
    else if c == '&' then "&amp;"
    else if c == '"' then "&quot;"
    else if c == '\'' then "&apos;"
    else [c]
  }

  function AttributeText(s: string): string {
    if s == [] then [] else AttributeChar(s[0]) + AttributeText(s[1..])
  }

  const VAL_OPEN := " val=\""
  const PLAIN_END := "\"/>"
  const CHANNEL_END := "\" channel=\"Master\"/>"
  const PROLOG := "<?xml version=\"1.0\"?>\n"
  const FOOTER := "</InstanceID></Event>"

  function ElementEnd(channel: bool): string {
    if channel then CHANNEL_END else PLAIN_END
  }

  function PrintElement(e: Element): string {
    ['<'] + e.name + VAL_OPEN + AttributeText(e.value) + ElementEnd(e.channel)
  }

  function PrintElements(d: Doc): string {
    if d == [] then FOOTER else PrintElement(d[0]) + PrintElements(d[1..])
  }

  function Header(ns: string): string {
    PROLOG + "<Event xmlns=\"" + ns + "\"><InstanceID val=\"0\">"
  }

  function Print(ns: string, d: Doc): string {
    Header(ns) + PrintElements(d)
  }

  // ---------------------------------------------------------------- reading

  /** Position of the first `c`, or the length if there is none. */
  function Until(s: string, c: char): (k: nat)
    ensures k <= |s|
    ensures c !in s[..k]
    ensures k < |s| ==> s[k] == c
  {
    if s == [] || s[0] == c then 0 else
      var k := Until(s[1..], c) + 1;
      assert s[..k] == [s[0]] + s[1..][..k - 1];
      k
  }

  /** The three parts of an element at the front of `s`, each with the characters it takes. */
  function ReadName(s: string): (r: Option<(string, nat)>)
    ensures r.Some? ==> 0 < r.value.1 <= |s|
  {
    var k := Until(s, ' ');
    if s == [] || s[0] != '<' || k == 0 then None else Some((s[1..k], k))
  }

  function ReadValue(s: string): (r: Option<(string, nat)>)
    ensures r.Some? ==> r.value.1 <= |s|
  {
    if !(VAL_OPEN <= s) then None else
      var q := |VAL_OPEN| + Until(s[|VAL_OPEN|..], '"');
      Some((XmlEscape.Decode(s[|VAL_OPEN|..q]), q))
  }

  function ReadEnd(s: string): (r: Option<(bool, nat)>)
    ensures r.Some? ==> r.value.1 <= |s|
  {
    if CHANNEL_END <= s then Some((true, |CHANNEL_END|))
    else if PLAIN_END <= s then Some((false, |PLAIN_END|))
    else None
  }

  /** The element at the front of `s` and how many characters it takes. */
  function ReadElement(s: string): (r: Option<(Element, nat)>)
    ensures r.Some? ==> 0 < r.value.1 <= |s|
  {
    var name := ReadName(s);
    if name == None then None else
      var k := name.value.1;
      var value := ReadValue(s[k..]);
      if value == None then None else
        var q := k + value.value.1;
        var end := ReadEnd(s[q..]);
        if end == None then None else
          Some((Element(name.value.0, value.value.0, end.value.0), q + end.value.1))
  }

  function ReadElements(s: string): Option<Doc>
    decreases |s|
  {
    if s == FOOTER then Some([]) else
      match ReadElement(s)
      case None => None
      case Some((e, n)) =>
        match ReadElements(s[n..])
        case None => None
        case Some(d) => Some([e] + d)
  }

  function Read(ns: string, s: string): Option<Doc> {
    if Header(ns) <= s then ReadElements(s[|Header(ns)|..]) else None
  }

  // ---------------------------------------------------------------- round trip

  /** What the reader relies on: a blank ends the element name. XML names contain none. */
  predicate IsName(name: string) {
    ' ' !in name
  }

  ghost predicate HasNames(d: Doc) {
    forall e :: e in d ==> IsName(e.name)
  }

  lemma {:induction false} UntilConcat(a: string, c: char, b: string)
    requires c !in a
    ensures Until(a + [c] + b, c) == |a|
  {
    var s := a + [c] + b;
    if a == [] {
      assert s[0] == c;
    } else {
      assert s[1..] == a[1..] + [c] + b;
      UntilConcat(a[1..], c, b);
      assert s[0] == a[0];
    }
  }

  lemma {:induction false} DecodeAttributeText(s: string)
    ensures XmlEscape.Decode(AttributeText(s)) == s
    ensures '"' !in AttributeText(s)
  {
    if s != [] {
      hide XmlEscape.Decode, XmlEscape.Entity, AttributeChar;
      DecodeAttributeText(s[1..]);
      AttributeCharDecodes(s[0], AttributeText(s[1..]));
      XmlEscape.DecodeFront(AttributeChar(s[0]), s[0], AttributeText(s[1..]));
    } else {
      assert XmlEscape.Decode([]) == [];
    }
  }

  lemma AttributeCharDecodes(c: char, tail: string)
    ensures var head := AttributeChar(c);
      && '"' !in head
      && ((head == [c] && c != '&') || (head != [] && head[0] == '&' && XmlEscape.Entity(head + tail) == (c, |head|)))
  {
  }

  lemma ReadPrintName(name: string, rest: string)
    requires IsName(name)
    ensures ReadName(['<'] + name + [' '] + rest) == Some((name, |name| + 1))
  {
    var front := ['<'] + name;
    UntilConcat(front, ' ', rest);
    assert (front + [' '] + rest)[1..|front|] == name;
  }

  lemma ReadPrintValue(value: string, rest: string)
    ensures ReadValue(VAL_OPEN + AttributeText(value) + ['"'] + rest)
         == Some((value, |VAL_OPEN| + |AttributeText(value)|))
  {
    hide AttributeText, XmlEscape.Decode, Until;
    var text := AttributeText(value);
    var s := VAL_OPEN + text + ['"'] + rest;
    DecodeAttributeText(value);
    UntilConcat(text, '"', rest);
    assert s[|VAL_OPEN|..] == text + ['"'] + rest;
    assert s[|VAL_OPEN|..|VAL_OPEN| + |text|] == text;
  }

  lemma ReadPrintEnd(channel: bool, rest: string)
    ensures ReadEnd(ElementEnd(channel) + rest) == Some((channel, |ElementEnd(channel)|))
  {
    var s := ElementEnd(channel) + rest;
    assert s[1] == ElementEnd(channel)[1];
  }

  lemma Regroup(a: string, v: string, text: string, end: string, rest: string)
    requires v != [] && end != []
    ensures var s := a + v + text + end + rest;
      && s == a + [v[0]] + (v[1..] + text + end + rest)
      && s[|a|..] == v + text + [end[0]] + (end[1..] + rest)
      && s[|a| + |v| + |text|..] == end + rest
  {
  }

  lemma ReadPrintElement(e: Element, rest: string)
    requires IsName(e.name)
    ensures ReadElement(PrintElement(e) + rest) == Some((e, |PrintElement(e)|))
  {
    hide ReadName, ReadValue, ReadEnd, AttributeText;
    var name, text, end := ['<'] + e.name, AttributeText(e.value), ElementEnd(e.channel);
    Regroup(name, VAL_OPEN, text, end, rest);
    ReadPrintName(e.name, VAL_OPEN[1..] + text + end + rest);
    ReadPrintValue(e.value, end[1..] + rest);
    ReadPrintEnd(e.channel, rest);
  }

  lemma {:induction false} ReadPrintElements(d: Doc)
    requires HasNames(d)
    ensures ReadElements(PrintElements(d)) == Some(d)
  {
    hide PrintElement, ReadElement;
    if d != [] {
      var head, tail := PrintElement(d[0]), PrintElements(d[1..]);
      ReadPrintElements(d[1..]);
      ReadPrintElement(d[0], tail);
      FooterIsShortest(d[1..]);
      assert (head + tail)[|head|..] == tail;
      assert d == [d[0]] + d[1..];
    }
  }

  lemma {:induction false} FooterIsShortest(d: Doc)
    ensures |PrintElements(d)| >= |FOOTER|
  {
    if d != [] {
      FooterIsShortest(d[1..]);
    }
  }

  /** Reading the printed document gives back the list of elements. */
  lemma ReadPrint(ns: string, d: Doc)
    requires HasNames(d)
    ensures Read(ns, Print(ns, d)) == Some(d)
  {
    ReadPrintElements(d);
    assert Print(ns, d)[|Header(ns)|..] == PrintElements(d);
  }

  lemma PrintInjective(ns: string, d1: Doc, d2: Doc)
    requires HasNames(d1) && HasNames(d2)
    ensures Print(ns, d1) == Print(ns, d2) <==> d1 == d2
  {
    ReadPrint(ns, d1);
    ReadPrint(ns, d2);
  }

  // ---------------------------------------------------------------- the text itself

  /** The element of a variable as it is printed: the four variables of the volume carry the channel,
      no other does. */
  lemma ElementText(name: string, value: string)
    ensures PrintElement(MakeElement(name, value))
         == "<" + name + " val=\"" + AttributeText(value)
            + if name in {"Volume", "VolumeDB", "Mute", "Loudness"} then "\" channel=\"Master\"/>" else "\"/>"
  {
  }

  /** The elements one after the other. */
  function Elements(d: Doc): string {
    if d == [] then "" else PrintElement(d[0]) + Elements(d[1..])
  }

  lemma {:induction false} ElementsAndFooter(d: Doc)
    ensures PrintElements(d) == Elements(d) + "</InstanceID></Event>"
  {
    hide PrintElement;
    if d == [] {
      assert Elements(d) + "</InstanceID></Event>" == "</InstanceID></Event>";
    } else {
      ElementsAndFooter(d[1..]);
    }
  }

  /** They stand in the one instance of an event of the namespace. */
  lemma DocumentText(ns: string, d: Doc)
    ensures Print(ns, d)
         == "<?xml version=\"1.0\"?>\n" + "<Event xmlns=\"" + ns + "\"><InstanceID val=\"0\">"
            + Elements(d) + "</InstanceID></Event>"
  {
    hide PrintElements, Elements;
    ElementsAndFooter(d);
  }

  /** An attribute's text goes character by character; the five predefined entities of XML stand for
      the five characters they are defined for. */
  lemma {:induction false} AttributeTextConcat(s: string, t: string)
    ensures AttributeText(s + t) == AttributeText(s) + AttributeText(t)
  {
    hide AttributeChar;
    if s == [] {
      assert s + t == t;
    } else {
      assert (s + t)[1..] == s[1..] + t;
      AttributeTextConcat(s[1..], t);
      assert AttributeChar(s[0]) + (AttributeText(s[1..]) + AttributeText(t))
          == AttributeChar(s[0]) + AttributeText(s[1..]) + AttributeText(t);
    }
  }

  lemma AttributeTextOfOne(c: char)
    ensures AttributeText([c]) ==
      match c
      case '<' => "&lt;"
      case '>' => "&gt;"
      case '&' => "&amp;"
      case '"' => "&quot;"
      case '\'' => "&apos;"
      case _ => [c]
  {
    assert [c][1..] == [] && AttributeText([]) == [];
  }

  // ---------------------------------------------------------------- on the wire

  /** The event value: the document text escaped once more to fit inside XML. */
  function Wire(text: string): string {
    XmlEscape.Escape(text, false)
  }

  function Receive(ns: string, wire: string): Option<Doc> {
    Read(ns, XmlEscape.Decode(wire))
  }

  lemma ReceiveWire(ns: string, text: string)
    ensures Receive(ns, Wire(text)) == Read(ns, text)
  {
    XmlEscape.DecodeEscape(text);
  }
}
