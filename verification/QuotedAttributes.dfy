/** Finding an attribute of a tag by its text: the words of the tag before it, each after a blank, are
    passed over, and the value ends at the next quote. */
module QuotedAttributes {
  import opened Wrappers
  import opened StringSearch
  import opened ReplaceRange

  // ---------------------------------------------------------------- the value

  lemma QuoteOccurs(s: string, i: nat)
    requires i < |s|
    ensures OccursAt(s, "\"", i) <==> s[i] == '"'
  {
    OccursAsSlice(s, "\"", i);
    assert s[i..i + 1] == [s[i]];
  }

  /** Once its beginning is found, the attribute is the text up to the next quote. */
  lemma AttributeBounds(doc: string, start: string, at: nat, to: nat)
    requires StrStr(doc, start, 0) == Some(at) && at + |start| <= to < |doc|
    requires '"' !in doc[at + |start|..to] && doc[to] == '"'
    ensures Locate(doc, Markers(start, "\"")) == Some(Range(at + |start|, to))
    ensures Get(doc, Markers(start, "\"")) == Some(doc[at + |start|..to])
  {
    hide StrStr, OccursAt;
    var from := at + |start|;
    QuoteOccurs(doc, to);
    forall k | from <= k < to
      ensures !OccursAt(doc, "\"", k)
    {
      assert doc[k] == doc[from..to][k - from];
      QuoteOccurs(doc, k);
    }
    FirstIsFound(doc, "\"", from, to);
  }

  // ---------------------------------------------------------------- the words before it

  lemma {:induction false} Passed(f: string, rest: string, t: string, from: nat)
    requires from <= |f| && forall k :: from <= k < |f| ==> !OccursAt(f + rest, t, k)
    ensures StrStr(f + rest, t, from) == Shift(StrStr(rest, t, 0), |f|)
    decreases |f| - from
  {
    hide OccursAt;
    if from == |f| {
      SearchFromBack(f, rest, t);
    } else {
      Passed(f, rest, t, from + 1);
    }
  }

  lemma OccursWithChar(s: string, t: string, i: nat, m: nat)
    requires OccursAt(s, t, i) && m < |t|
    ensures i + m < |s| && s[i + m] == t[m]
  {
    OccursAsSlice(s, t, i);
    assert s[i..i + |t|][m] == t[m];
  }

  /** A text without a blank. */
  lemma TextPassed(f: string, rest: string, t: string)
    requires ' ' !in f && t != [] && t[0] == ' '
    ensures StrStr(f + rest, t, 0) == Shift(StrStr(rest, t, 0), |f|)
  {
    hide StrStr, OccursAt;
    forall k: nat | k < |f|
      ensures !OccursAt(f + rest, t, k)
    {
      if OccursAt(f + rest, t, k) {
        OccursWithChar(f + rest, t, k, 0);
      }
    }
    Passed(f, rest, t, 0);
  }

  /** A word after a blank that differs from the beginning of the one looked for. */
  lemma WordPassed(w: string, rest: string, t: string, m: nat)
    requires w != [] && ' ' !in w[1..] && t != [] && t[0] == ' '
    requires m < |w| && m < |t| && w[m] != t[m]
    ensures StrStr(w + rest, t, 0) == Shift(StrStr(rest, t, 0), |w|)
  {
    hide StrStr, OccursAt;
    assert forall k :: 0 < k < |w| ==> w[k] == w[1..][k - 1] && w[k] != ' ';
    forall k: nat | k < |w|
      ensures !OccursAt(w + rest, t, k)
    {
      if OccursAt(w + rest, t, k) {
        if k == 0 {
          OccursWithChar(w + rest, t, 0, m);
        } else {
          OccursWithChar(w + rest, t, k, 0);
        }
      }
    }
    Passed(w, rest, t, 0);
  }
}
