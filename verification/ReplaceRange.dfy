/** replace_range of src/song-meta-data.c: the text between a start and an end marker is
    replaced, in place when the lengths agree and in a new allocation otherwise. */
module ReplaceRange {
  import opened Wrappers
  import opened StringSearch

  datatype Markers = Markers(start: string, end: string)

  /** The stretch [from, to) between the first start marker and the next end marker. */
  datatype Range = Range(from: nat, to: nat)

  function Locate(doc: string, m: Markers): (r: Option<Range>)
    ensures r.Some? ==> |m.start| <= r.value.from <= r.value.to <= |doc| && r.value.to + |m.end| <= |doc|
  {
    match StrStr(doc, m.start, 0)
    case None => None
    case Some(i) =>
      match StrStr(doc, m.end, i + |m.start|)
      case None => None
      case Some(j) => Some(Range(i + |m.start|, j))
  }

  function Get(doc: string, m: Markers): Option<string> {
    match Locate(doc, m)
    case None => None
    case Some(r) => Some(doc[r.from..r.to])
  }

  function Put(doc: string, m: Markers, content: string): string {
    match Locate(doc, m)
    case None => doc
    case Some(r) => doc[..r.from] + content + doc[r.to..]
  }

  // ---------------------------------------------------------------- the buffers

  /** A character buffer exactly filled by a terminated string. */
  ghost predicate IsCString(a: array<char>)
    reads a
  {
    a.Length > 0 && a[a.Length - 1] == '\0' && '\0' !in a[..a.Length - 1]
  }

  ghost function Text(a: array<char>): string
    requires a.Length > 0
    reads a
  {
    a[..a.Length - 1]
  }

  /** A new buffer holding the given text; the allocation is exactly filled. */
  method NewCString(s: string) returns (a: array<char>)
    requires '\0' !in s
    ensures fresh(a) && a.Length == |s| + 1 && IsCString(a) && Text(a) == s
  {
    a := new char[|s| + 1];
    forall k | 0 <= k < |s| {
      a[k] := s[k];
    }
    a[|s|] := '\0';
    assert a[..a.Length - 1] == s;
  }

  method ReplaceRange(input: array<char>, m: Markers, content: Option<string>, editCount: nat)
    returns (result: array<char>, newCount: nat)
    requires IsCString(input) && (content.Some? ==> '\0' !in content.value)
    modifies input
    ensures result == input || fresh(result)
    ensures IsCString(result)
    ensures Text(result) == if content == None then old(Text(input)) else Put(old(Text(input)), m, content.value)
    ensures newCount == editCount + if Text(result) == old(Text(input)) then 0 else 1
    ensures result == input <==> |Text(result)| == |old(Text(input))|
  {
    result, newCount := input, editCount;
    if content == None {
      return;
    }
    var doc := input[..input.Length - 1];
    var start := StrStr(doc, m.start, 0);
    if start == None {
      return;
    }
    var end := StrStr(doc, m.end, start.value + |m.start|);
    if end == None {
      return;
    }
    result, newCount := EditRange(input, start.value + |m.start|, end.value, content.value, editCount);
  }

  /** Replaces the stretch and counts an edit if that changes anything. */
  method EditRange(input: array<char>, from: nat, to: nat, content: string, editCount: nat)
    returns (result: array<char>, newCount: nat)
    requires IsCString(input) && from <= to < input.Length && '\0' !in content
    modifies input
    ensures result == input || fresh(result)
    ensures IsCString(result)
    ensures Text(result) == old(Text(input))[..from] + content + old(Text(input))[to..]
    ensures newCount == editCount + if Text(result) == old(Text(input)) then 0 else 1
    ensures result == input <==> |Text(result)| == |old(Text(input))|
  {
    var doc := input[..input.Length - 1];
    assert doc == doc[..from] + doc[from..to] + doc[to..];
    if to - from != |content| {
      result := Splice(doc, from, to, content);
      newCount := editCount + 1;
    } else if doc[from..to] != content {
      Overwrite(input, from, content);
      result, newCount := input, editCount + 1;
      assert Text(input)[from..to] == content;
    } else {
      result, newCount := input, editCount;
    }
  }

  /** The reallocating branch: front, new content and rest fill the new buffer exactly. */
  method Splice(doc: string, from: nat, to: nat, content: string) returns (result: array<char>)
    requires from <= to <= |doc| && '\0' !in doc && '\0' !in content
    ensures fresh(result) && result.Length == |doc| + |content| - (to - from) + 1
    ensures IsCString(result) && Text(result) == doc[..from] + content + doc[to..]
  {
    result := NewCString(doc[..from] + content + doc[to..]);
  }

  /** The in-place branch. */
  method Overwrite(input: array<char>, offset: nat, content: string)
    requires IsCString(input) && offset + |content| < input.Length && '\0' !in content
    modifies input
    ensures IsCString(input)
    ensures Text(input) == old(Text(input))[..offset] + content + old(Text(input))[offset + |content|..]
  {
    forall k | 0 <= k < |content| {
      input[offset + k] := content[k];
    }
    assert Text(input) == old(Text(input))[..offset] + content + old(Text(input))[offset + |content|..];
  }

  // ---------------------------------------------------------------- lens laws

  /** An end marker that cannot overlap itself. All markers the source uses are of this kind. */
  predicate NoSelfOverlap(t: string) {
    t != [] && t[0] !in t[1..]
  }

  /** An end marker cannot straddle the seam before another end marker. */
  lemma NoStraddle(p: string, c: string, q: string, t: string, k: nat)
    requires NoSelfOverlap(t) && t <= q && |p| <= k < |p| + |c| && OccursAt(p + c + q, t, k)
    ensures OccursAt(c, t, k - |p|)
  {
    var s := p + c + q;
    assert forall d :: 0 <= d < |t| ==> s[k + d] == t[d];
    assert forall d :: 0 < d < |t| ==> t[d] == t[1..][d - 1] != t[0];
    assert s[|p| + |c|] == q[0] == t[0];
    OccursInPart(p, c, q, t, k - |p|);
  }

  /** In c followed by t, the first t is the appended one exactly if c has none inside. */
  lemma FirstEnd(p: string, c: string, q: string, t: string)
    requires NoSelfOverlap(t) && t <= q
    ensures var s := p + c + q;
      StrStr(s, t, |p|).Some? && StrStr(s, t, |p|).value <= |p| + |c|
      && (StrStr(s, t, |p|).value == |p| + |c| <==> !Contains(c, t))
  {
    var s := p + c + q;
    OccursInBack(p + c, q, t, 0);
    AnyOccurrence(s, t, |p|, |p| + |c|);
    StrStrFirst(s, t, |p|);
    StrStrFirst(c, t, 0);
    var k := StrStr(s, t, |p|).value;
    if k < |p| + |c| {
      NoStraddle(p, c, q, t, k);
    }
    if Contains(c, t) {
      OccursInPart(p, c, q, t, StrStr(c, t, 0).value);
    }
  }

  lemma LocateSpliced(p: string, c: string, q: string, m: Markers, i: nat)
    requires NoSelfOverlap(m.end) && m.end <= q
    requires |p| == i + |m.start| && StrStr(p + c + q, m.start, 0) == Some(i)
    ensures var r := Locate(p + c + q, m);
      && r.Some? && r.value.from == |p| && r.value.to <= |p| + |c|
      && (r.value.to == |p| + |c| <==> !Contains(c, m.end))
  {
    FirstEnd(p, c, q, m.end);
  }

  /** The start marker of a written document is found where it was, the end marker is kept. */
  lemma StartAfterPut(doc: string, m: Markers, c: string, from: nat, to: nat)
    requires Locate(doc, m) == Some(Range(from, to))
    ensures m.end <= doc[to..] && StrStr(doc[..from] + c + doc[to..], m.start, 0) == Some(from - |m.start|)
  {
    hide StrStr;
    StrStrFirst(doc, m.end, from);
    var p := doc[..from];
    assert doc == p + doc[from..] && p + c + doc[to..] == p + (c + doc[to..]);
    CommonFront(p, doc[from..], c + doc[to..], m.start, 0);
  }

  lemma LocateAfterPut(doc: string, m: Markers, c: string)
    requires NoSelfOverlap(m.end) && Locate(doc, m).Some?
    ensures var r, r' := Locate(doc, m).value, Locate(Put(doc, m, c), m);
      && r'.Some? && r'.value.from == r.from && r'.value.to <= r.from + |c|
      && (r'.value.to == r.from + |c| <==> !Contains(c, m.end))
  {
    var r := Locate(doc, m).value;
    StartAfterPut(doc, m, c, r.from, r.to);
    LocateSpliced(doc[..r.from], c, doc[r.to..], m, r.from - |m.start|);
  }

  /** Put-get: what was written reads back exactly if it does not contain the end marker. */
  lemma PutGet(doc: string, m: Markers, c: string)
    requires NoSelfOverlap(m.end) && Locate(doc, m).Some?
    ensures Get(Put(doc, m, c), m) == Some(c) <==> !Contains(c, m.end)
  {
    LocateAfterPut(doc, m, c);
    var r, r' := Locate(doc, m).value, Locate(Put(doc, m, c), m).value;
    assert |Put(doc, m, c)[r'.from..r'.to]| == r'.to - r.from;
    assert Put(doc, m, c)[r.from..r.from + |c|] == c;
  }

  /** Put-put: a second write replaces the first without trace under the same condition. */
  lemma PutPut(doc: string, m: Markers, c: string, d: string)
    requires NoSelfOverlap(m.end) && Locate(doc, m).Some?
    ensures Put(Put(doc, m, c), m, d) == Put(doc, m, d) <==> !Contains(c, m.end)
  {
    LocateAfterPut(doc, m, c);
    var r, r' := Locate(doc, m).value, Locate(Put(doc, m, c), m).value;
    var doc' := Put(doc, m, c);
    assert |Put(doc', m, d)| == r.from + |d| + |doc'| - r'.to;
    assert |Put(doc, m, d)| == r.from + |d| + |doc| - r.to;
    if r'.to == r.from + |c| {
      assert doc'[..r.from] == doc[..r.from] && doc'[r'.to..] == doc[r.to..];
    }
  }

  /** Get-put: writing back what was read changes nothing. */
  lemma GetPut(doc: string, m: Markers)
    ensures Get(doc, m).Some? ==> Put(doc, m, Get(doc, m).value) == doc
    ensures Get(doc, m).None? ==> forall c :: Put(doc, m, c) == doc
  {
    match Locate(doc, m)
    case None =>
    case Some(r) => assert doc == doc[..r.from] + doc[r.from..r.to] + doc[r.to..];
  }

  /** A write changes the text exactly if it changes the content. */
  lemma PutChanges(doc: string, m: Markers, c: string)
    ensures Put(doc, m, c) == doc <==> Get(doc, m).None? || Get(doc, m) == Some(c)
  {
    GetPut(doc, m);
    match Locate(doc, m)
    case None =>
    case Some(r) =>
      if Put(doc, m, c) == doc {
        assert |c| == r.to - r.from;
        assert Put(doc, m, c)[r.from..r.from + |c|] == c;
      }
  }
}
