/** Escaping of text for XML (src/xmlescape.c): a measuring pass, then a writing pass
    over the same characters, and the decoder a receiving controller applies. */
module XmlEscape {

  function EscapeChar(c: char, attribute: bool): string {
    if c == '<' then "&lt;"
    else if attribute && c == '"' then "%22"
    else if c == '>' then "&gt;"
    else if c == '&' then "&amp;"
    else [c]
  }

  function Escape(s: string, attribute: bool): string {
    if s == [] then [] else EscapeChar(s[0], attribute) + Escape(s[1..], attribute)
  }

  /** Without a target only the length is computed. */
  method MeasurePass(str: string, attribute: bool) returns (length: nat)
    ensures length == |Escape(str, attribute)|
  {
    var len, i := 0, 0;
    while i < |str|
      invariant 0 <= i <= |str|
      invariant len + |Escape(str[i..], attribute)| == |Escape(str, attribute)|
    {
      if str[i] == '<' {
        len := len + 4;
      } else if attribute && str[i] == '"' {
        len := len + 3;
      } else if str[i] == '>' {
        len := len + 4;
      } else if str[i] == '&' {
        len := len + 5;
      } else {
        len := len + 1;
      }
      i := i + 1;
    }
    length := len;
  }

  method CopyPiece(piece: string, target: array<char>, len: nat)
    requires len + |piece| <= target.Length
    modifies target
    ensures forall k :: 0 <= k < target.Length ==>
      target[k] == if len <= k < len + |piece| then piece[k - len] else old(target[k])
  {
    forall k | 0 <= k < |piece| {
      target[len + k] := piece[k];
    }
  }

  lemma TakePiece(full: string, len: nat, str: string, i: nat, attribute: bool)
    requires i < |str| && len <= |full| && full[len..] == Escape(str[i..], attribute)
    ensures var piece := EscapeChar(str[i], attribute);
      && len + |piece| <= |full|
      && full[len..len + |piece|] == piece
      && full[len + |piece|..] == Escape(str[i + 1..], attribute)
  {
    var piece := EscapeChar(str[i], attribute);
    assert str[i..][1..] == str[i + 1..];
    assert full[len..] == piece + Escape(str[i + 1..], attribute);
    assert full[len..][..|piece|] == piece;
    assert full[len..][|piece|..] == full[len + |piece|..];
  }

  lemma EscapedAll(str: string, attribute: bool, full: string, len: nat)
    requires len <= |full| && full[len..] == Escape(str[|str|..], attribute)
    ensures len == |full|
  {
    assert str[|str|..] == [];
  }

  /** With a target the escaped text and its terminator are written, nothing beyond. */
  method WritePass(str: string, target: array<char>, attribute: bool) returns (length: nat)
    requires |Escape(str, attribute)| < target.Length
    modifies target
    ensures length == |Escape(str, attribute)|
    ensures target[..length] == Escape(str, attribute) && target[length] == '\0'
    ensures forall k :: length < k < target.Length ==> target[k] == old(target[k])
  {
    hide Escape;
    var len, i := 0, 0;
    ghost var full := Escape(str, attribute);
    assert str[0..] == str && full[0..] == full;
    while i < |str|
      invariant 0 <= i <= |str| && 0 <= len <= |full| && full[len..] == Escape(str[i..], attribute)
      invariant forall k :: 0 <= k < len ==> target[k] == full[k]
      invariant forall k :: |full| <= k < target.Length ==> target[k] == old(target[k])
    {
      var piece := EscapeChar(str[i], attribute);
      TakePiece(full, len, str, i, attribute);
      CopyPiece(piece, target, len);
      len := len + |piece|;
      i := i + 1;
    }
    EscapedAll(str, attribute, full, len);
    target[len] := '\0';
    length := len;
  }

  /** The buffer is allocated from the measuring pass and exactly filled by the writing pass. */
  method XmlEscape(str: string, attribute: bool) returns (out: array<char>)
    ensures fresh(out) && out.Length == |Escape(str, attribute)| + 1
    ensures out[..] == Escape(str, attribute) + ['\0']
  {
    var len := MeasurePass(str, attribute);
    out := new char[len + 1];
    len := WritePass(str, out, attribute);
    assert out[..] == out[..len] + [out[len]];
  }

  // ---------------------------------------------------------------- decoding

  /** The character and the length of the predefined entity (section 4.6 of XML 1.0) at the
      front of `s`; an ampersand that starts none of them stands for itself. */
  function Entity(s: string): (char, nat)
    requires s != [] && s[0] == '&'
    ensures 0 < Entity(s).1 <= |s|
  {
    if |s| >= 4 && s[1] == 'l' && s[2] == 't' && s[3] == ';' then ('<', 4)
    else if |s| >= 4 && s[1] == 'g' && s[2] == 't' && s[3] == ';' then ('>', 4)
    else if |s| >= 5 && s[1] == 'a' && s[2] == 'm' && s[3] == 'p' && s[4] == ';' then ('&', 5)
    else if |s| >= 6 && s[1] == 'q' && s[2] == 'u' && s[3] == 'o' && s[4] == 't' && s[5] == ';' then ('"', 6)
    else if |s| >= 6 && s[1] == 'a' && s[2] == 'p' && s[3] == 'o' && s[4] == 's' && s[5] == ';' then ('\'', 6)
    else ('&', 1)
  }

  /** What an XML reader makes of character data. */
  function Decode(s: string): string {
    if s == [] then []
    else if s[0] == '&' then var (c, n) := Entity(s); [c] + Decode(s[n..])
    else [s[0]] + Decode(s[1..])
  }

  lemma DecodeFront(head: string, c: char, tail: string)
    requires (head == [c] && c != '&') || (head != [] && head[0] == '&' && Entity(head + tail) == (c, |head|))
    ensures Decode(head + tail) == [c] + Decode(tail)
  {
    assert (head + tail)[|head|..] == tail && (head + tail)[0] == head[0];
  }

  lemma {:induction false} DecodeEscape(s: string)
    ensures Decode(Escape(s, false)) == s
  {
    if s != [] {
      DecodeEscape(s[1..]);
      DecodeFront(EscapeChar(s[0], false), s[0], Escape(s[1..], false));
    }
  }

  lemma EscapeInjective(s: string, t: string)
    ensures Escape(s, false) == Escape(t, false) <==> s == t
  {
    DecodeEscape(s);
    DecodeEscape(t);
  }

  predicate StartsEntity(s: string) {
    "&lt;" <= s || "&gt;" <= s || "&amp;" <= s
  }

  /** Section 2.4 of XML 1.0: character data has no '<' and uses '&' only to start a reference. */
  ghost predicate IsCharacterData(s: string) {
    forall i :: 0 <= i < |s| ==> s[i] != '<' && s[i] != '>' && (s[i] == '&' ==> StartsEntity(s[i..]))
  }

  lemma {:induction false} EscapedIsCharacterData(s: string, attribute: bool)
    ensures IsCharacterData(Escape(s, attribute))
  {
    if s != [] {
      var head, tail := EscapeChar(s[0], attribute), Escape(s[1..], attribute);
      EscapedIsCharacterData(s[1..], attribute);
      var e := head + tail;
      forall i | 0 <= i < |e|
        ensures e[i] != '<' && e[i] != '>' && (e[i] == '&' ==> StartsEntity(e[i..]))
      {
        if i < |head| {
          assert e[i] == head[i];
          assert e[0..] == e;
        } else {
          assert e[i..] == tail[i - |head|..];
          assert e[i] == tail[i - |head|];
        }
      }
    }
  }

  // ---------------------------------------------------------------- attribute mode

  /** Escaping goes character by character. */
  lemma {:induction false} EscapeConcat(s: string, t: string, attribute: bool)
    ensures Escape(s + t, attribute) == Escape(s, attribute) + Escape(t, attribute)
  {
    if s == [] {
      assert s + t == t;
    } else {
      assert (s + t)[1..] == s[1..] + t;
      EscapeConcat(s[1..], t, attribute);
      assert EscapeChar(s[0], attribute) + (Escape(s[1..], attribute) + Escape(t, attribute))
          == EscapeChar(s[0], attribute) + Escape(s[1..], attribute) + Escape(t, attribute);
    }
  }

  /** Together with EscapeConcat these are all texts: three characters have an entity, in attribute
      mode a quote becomes %22, everything else stays as it is. */
  lemma EscapeOfOne(c: char, attribute: bool)
    ensures Escape("<", attribute) == "&lt;" && Escape(">", attribute) == "&gt;" && Escape("&", attribute) == "&amp;"
    ensures Escape("\"", true) == "%22" && Escape("\"", false) == "\""
    ensures c !in "<>&\"" ==> Escape([c], attribute) == [c]
  {
    Single('<', attribute);
    Single('>', attribute);
    Single('&', attribute);
    Single('"', true);
    Single('"', false);
    Single(c, attribute);
    if c in "<>&\"" {
    } else {
      assert "<>&\""[0] == '<' && "<>&\""[1] == '>' && "<>&\""[2] == '&' && "<>&\""[3] == '"';
    }
  }

  lemma Single(c: char, attribute: bool)
    ensures Escape([c], attribute) == EscapeChar(c, attribute)
  {
    assert [c][1..] == [] && Escape([], attribute) == [];
  }

  /** In attribute mode a quote is written as the three characters %22. */
  function PercentQuotes(s: string): string {
    if s == [] then [] else (if s[0] == '"' then "%22" else [s[0]]) + PercentQuotes(s[1..])
  }

  lemma {:induction false} AttributeModeFactors(s: string)
    ensures Escape(s, true) == Escape(PercentQuotes(s), false)
  {
    if s != [] {
      AttributeModeFactors(s[1..]);
      var head := if s[0] == '"' then "%22" else [s[0]];
      EscapeConcat(head, PercentQuotes(s[1..]), false);
      if s[0] == '"' {
        EscapeConcat("%", "22", false);
        EscapeConcat("2", "2", false);
        assert "%" + "22" == "%22" && "2" + "2" == "22";
        assert Escape("%22", false) == "%22";
      } else {
        assert Escape(head, false) == EscapeChar(s[0], false) + Escape([], false);
      }
    }
  }

  /** Attribute mode is not injective: exactly the strings that agree once quotes are
      written %22 collide. */
  lemma AttributeModeCollisions(s: string, t: string)
    ensures Escape(s, true) == Escape(t, true) <==> PercentQuotes(s) == PercentQuotes(t)
  {
    AttributeModeFactors(s);
    AttributeModeFactors(t);
    EscapeInjective(PercentQuotes(s), PercentQuotes(t));
  }

  lemma AttributeModeNotInjective()
    ensures Escape("\"", true) == Escape("%22", true)
  {
    AttributeModeFactors("\"");
    AttributeModeFactors("%22");
    assert PercentQuotes("\"") == "%22";
    assert PercentQuotes("22") == ['2'] + PercentQuotes("2");
    assert PercentQuotes("%22") == "%" + PercentQuotes("22");
  }
}
