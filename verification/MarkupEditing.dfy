/** Editing the text of one element leaves the other elements alone: occurrences of tags across
    the seams of an edit. */
module MarkupEditing {
  import opened Wrappers
  import opened StringSearch
  import opened ReplaceRange

  /** A tag is its body between angle brackets. */
  function Angle(body: string): string {
    ['<'] + body + ['>']
  }

  predicate Clean(s: string) {
    '<' !in s && '>' !in s
  }

  function Element(name: string): Markers {
    Markers(Angle(name), Angle(['/'] + name))
  }

  predicate IsText(s: string) {
    '<' !in s
  }

  // ---------------------------------------------------------------- tags do not overlap

  lemma TagChars(s: string, body: string, i: nat)
    requires Clean(body) && OccursAt(s, Angle(body), i)
    ensures s[i] == '<' && s[i + |body| + 1] == '>'
    ensures forall k :: i < k <= i + |body| ==> s[k] == body[k - i - 1] && s[k] in body
  {
    var t := Angle(body);
    assert forall d :: 0 <= d < |t| ==> s[i + d] == s[i..i + |t|][d] == t[d];
    forall k | i < k <= i + |body|
      ensures s[k] == body[k - i - 1] && s[k] in body
    {
      assert s[i + (k - i)] == t[k - i] == body[k - i - 1];
    }
  }

  lemma TagsAreApart(s: string, b1: string, i: nat, b2: string, j: nat)
    requires Clean(b1) && Clean(b2) && OccursAt(s, Angle(b1), i) && OccursAt(s, Angle(b2), j)
    ensures i == j ==> b1 == b2
    ensures i < j ==> i + |Angle(b1)| <= j
  {
    TagChars(s, b1, i);
    TagChars(s, b2, j);
    if i == j {
      assert |b1| == |b2|;
      assert b1 == s[i + 1..i + 1 + |b1|] == b2;
    }
  }

  /** A character that can only be the last one of the tag. */
  predicate EndsBefore(p: string, body: string) {
    p == [] || (p[|p| - 1] != '<' && p[|p| - 1] !in body)
  }

  lemma TagKeepsClear(p: string, x: string, q: string, body: string, i: nat)
    requires Clean(body) && IsText(x) && EndsBefore(p, body) && OccursAt(p + x + q, Angle(body), i)
    ensures i + |Angle(body)| <= |p| || |p| + |x| <= i
  {
    var s := p + x + q;
    TagChars(s, body, i);
    assert forall k :: |p| <= k < |p| + |x| ==> s[k] == x[k - |p|] && s[k] in x;
    assert p != [] ==> s[|p| - 1] == p[|p| - 1];
  }

  /** With plain text x in the middle, a tag occurs only within p or within q. */
  lemma OccursAroundText(p: string, x: string, q: string, body: string, i: nat)
    requires Clean(body) && IsText(x) && EndsBefore(p, body)
    ensures OccursAt(p + x + q, Angle(body), i) <==>
      OccursAt(p, Angle(body), i) || (i >= |p| + |x| && OccursAt(q, Angle(body), i - |p| - |x|))
  {
    var s, t := p + x + q, Angle(body);
    if OccursAt(s, t, i) {
      TagKeepsClear(p, x, q, body, i);
    }
    if i + |t| <= |p| {
      OccursInFront(p, x + q, t, i);
      assert s == p + (x + q);
    } else if i >= |p| + |x| {
      OccursInBack(p + x, q, t, i - |p| - |x|);
    }
  }

  lemma SearchOverText(p: string, x: string, q: string, body: string, from: nat)
    requires Clean(body) && IsText(x) && EndsBefore(p, body) && |p| <= from <= |p| + |x|
    ensures StrStr(p + x + q, Angle(body), from) == Shift(StrStr(q, Angle(body), 0), |p| + |x|)
    decreases |p| + |x| - from
  {
    if from == |p| + |x| {
      SearchBehind(p + x, q, Angle(body), 0);
    } else {
      OccursAroundText(p, x, q, body, from);
      SearchOverText(p, x, q, body, from + 1);
    }
  }

  /** Searching a tag from within p: first in p, then in q. */
  lemma SearchAroundText(p: string, x: string, q: string, body: string, from: nat)
    requires Clean(body) && IsText(x) && EndsBefore(p, body) && from <= |p|
    ensures StrStr(p + x + q, Angle(body), from)
         == if StrStr(p, Angle(body), from).Some? then StrStr(p, Angle(body), from)
            else Shift(StrStr(q, Angle(body), 0), |p| + |x|)
    decreases |p| - from
  {
    if from == |p| {
      SearchOverText(p, x, q, body, from);
    } else {
      OccursAroundText(p, x, q, body, from);
      SearchAroundText(p, x, q, body, from + 1);
    }
  }

  // ---------------------------------------------------------------- the other elements

  /** What follows position a of p up to the next end tag, in p followed by text x and by q. */
  function ReadAround(p: string, x: string, q: string, end: string, a: nat): Option<string>
    requires a <= |p|
  {
    match StrStr(p, end, a)
    case Some(close) => Some(p[a..close])
    case None =>
      match StrStr(q, end, 0)
      case Some(later) => Some(p[a..] + x + q[..later])
      case None => None
  }

  /** What an element reads as in p followed by text x followed by q, told from p and q alone. */
  function GetAround(p: string, x: string, q: string, m: Markers): Option<string> {
    match StrStr(p, m.start, 0)
    case None => Get(q, m)
    case Some(i) => ReadAround(p, x, q, m.end, i + |m.start|)
  }

  lemma SliceFront(p: string, x: string, q: string, i: nat, j: nat)
    requires i <= j <= |p|
    ensures (p + x + q)[i..j] == p[i..j]
  {
  }

  lemma SliceAcross(p: string, x: string, q: string, i: nat, j: nat)
    requires i <= |p| && j <= |q|
    ensures (p + x + q)[i..|p| + |x| + j] == p[i..] + x + q[..j]
  {
  }

  /** Where the tags of an element that opens within p are found in the whole text. */
  lemma TagsInFront(p: string, x: string, q: string, name: string, i: nat, a: nat)
    requires Clean(name) && IsText(x) && EndsBefore(p, name) && EndsBefore(p, ['/'] + name)
    requires StrStr(p, Angle(name), 0) == Some(i) && a == i + |Angle(name)|
    ensures a <= |p| && StrStr(p + x + q, Angle(name), 0) == Some(i)
    ensures StrStr(p + x + q, Angle(['/'] + name), a)
         == if StrStr(p, Angle(['/'] + name), a).Some? then StrStr(p, Angle(['/'] + name), a)
            else Shift(StrStr(q, Angle(['/'] + name), 0), |p| + |x|)
  {
    SearchAroundText(p, x, q, name, 0);
    SearchAroundText(p, x, q, ['/'] + name, a);
  }

  /** Reading an element from the places where its tags are found. */
  lemma LocateIs(s: string, m: Markers, i: nat, a: nat, close: nat)
    requires a == i + |m.start| && StrStr(s, m.start, 0) == Some(i) && StrStr(s, m.end, a) == Some(close)
    ensures a <= close <= |s| && Locate(s, m) == Some(Range(a, close)) && Get(s, m) == Some(s[a..close])
  {
    hide StrStr;
  }

  lemma LocateIsNot(s: string, m: Markers)
    requires StrStr(s, m.start, 0).None?
    ensures Locate(s, m) == None && Get(s, m) == None
  {
    hide StrStr;
  }

  lemma GetIs(s: string, m: Markers, i: nat, a: nat, close: nat, content: string)
    requires a == i + |m.start| && StrStr(s, m.start, 0) == Some(i) && StrStr(s, m.end, a) == Some(close)
    requires a <= close <= |s| && s[a..close] == content
    ensures Locate(s, m) == Some(Range(a, close)) && Get(s, m) == Some(content)
  {
    hide StrStr, Get, Locate;
    LocateIs(s, m, i, a, close);
  }

  lemma GetIsNot(s: string, m: Markers, i: nat, a: nat)
    requires a == i + |m.start| && StrStr(s, m.start, 0) == Some(i) && StrStr(s, m.end, a).None?
    ensures Locate(s, m) == None && Get(s, m) == None
  {
    hide StrStr;
  }

  lemma CloseInFront(p: string, x: string, q: string, m: Markers, i: nat, a: nat, close: nat)
    requires a == i + |m.start| <= close <= |p| && StrStr(p + x + q, m.start, 0) == Some(i)
    requires StrStr(p + x + q, m.end, a) == Some(close)
    ensures Get(p + x + q, m) == Some(p[a..close])
  {
    hide StrStr, Get, Locate;
    SliceFront(p, x, q, a, close);
    GetIs(p + x + q, m, i, a, close, p[a..close]);
  }

  lemma CloseBehind(p: string, x: string, q: string, m: Markers, i: nat, a: nat, later: nat)
    requires a == i + |m.start| <= |p| && later <= |q| && StrStr(p + x + q, m.start, 0) == Some(i)
    requires StrStr(p + x + q, m.end, a) == Some(|p| + |x| + later)
    ensures Get(p + x + q, m) == Some(p[a..] + x + q[..later])
  {
    hide StrStr, Get, Locate;
    SliceAcross(p, x, q, a, later);
    GetIs(p + x + q, m, i, a, |p| + |x| + later, p[a..] + x + q[..later]);
  }

  lemma GetInFront(p: string, x: string, q: string, m: Markers, i: nat, a: nat)
    requires a == i + |m.start| <= |p| && StrStr(p + x + q, m.start, 0) == Some(i)
    requires StrStr(p + x + q, m.end, a) == if StrStr(p, m.end, a).Some? then StrStr(p, m.end, a)
                                            else Shift(StrStr(q, m.end, 0), |p| + |x|)
    ensures Get(p + x + q, m) == ReadAround(p, x, q, m.end, a)
  {
    hide StrStr, Get, Locate;
    match StrStr(p, m.end, a)
    case Some(close) => CloseInFront(p, x, q, m, i, a, close);
    case None =>
      match StrStr(q, m.end, 0)
      case Some(later) => CloseBehind(p, x, q, m, i, a, later);
      case None => GetIsNot(p + x + q, m, i, a);
  }

  lemma GetBehind(p: string, q: string, m: Markers, i: nat, a: nat)
    requires StrStr(q, m.start, 0) == Some(i) && StrStr(p + q, m.start, 0) == Some(|p| + i)
    requires a == i + |m.start| <= |q|
    ensures Get(p + q, m) == Get(q, m)
  {
    hide StrStr, Get, Locate;
    SearchBehind(p, q, m.end, a);
    match StrStr(q, m.end, a)
    case Some(close) =>
      SliceBehind(p, q, a, close);
      GetIs(q, m, i, a, close, q[a..close]);
      GetIs(p + q, m, |p| + i, |p| + a, |p| + close, q[a..close]);
    case None =>
      GetIsNot(q, m, i, a);
      GetIsNot(p + q, m, |p| + i, |p| + a);
  }

  lemma SliceBehind(p: string, q: string, i: nat, j: nat)
    requires i <= j <= |q|
    ensures (p + q)[|p| + i..|p| + j] == q[i..j]
  {
  }

  lemma GetInBack(p: string, x: string, q: string, name: string)
    requires Clean(name) && IsText(x) && EndsBefore(p, name)
    requires StrStr(p, Element(name).start, 0).None?
    ensures Get(p + x + q, Element(name)) == Get(q, Element(name))
  {
    SearchAroundText(p, x, q, name, 0);
    var open := StrStr(q, Element(name).start, 0);
    if open.Some? {
      assert |p + x| + open.value == |p| + |x| + open.value;
      GetBehind(p + x, q, Element(name), open.value, open.value + |Element(name).start|);
    }
  }

  lemma GetAroundText(p: string, x: string, q: string, name: string)
    requires Clean(name) && IsText(x) && EndsBefore(p, name) && EndsBefore(p, ['/'] + name)
    ensures Get(p + x + q, Element(name)) == GetAround(p, x, q, Element(name))
  {
    hide StrStr, Get, Locate, ReadAround;
    if StrStr(p, Element(name).start, 0).Some? {
      var m := Element(name);
      var i := StrStr(p, m.start, 0).value;
      var a := i + |m.start|;
      TagsInFront(p, x, q, name, i, a);
      GetInFront(p, x, q, m, i, a);
    } else {
      GetInBack(p, x, q, name);
    }
  }

  lemma BracketInside(p: string, a: nat, at: nat, x: string, y: string)
    requires a <= at < |p| && p[at] == '<'
    ensures !IsText(p[a..] + x + y)
  {
    assert (p[a..] + x + y)[at - a] == '<';
  }

  /** An element that opens before a tag of another name does not span that tag with plain text. */
  lemma OpensApart(p: string, name: string, other: string, tagAt: nat)
    requires Clean(name) && Clean(other) && name != other
    requires OccursAt(p, Angle(name), tagAt) && tagAt + |Angle(name)| == |p|
    ensures var open := StrStr(p, Angle(other), 0);
      open.Some? ==> open.value + |Angle(other)| <= tagAt
  {
    var open := StrStr(p, Angle(other), 0);
    StrStrFirst(p, Angle(other), 0);
    if open.Some? {
      TagsAreApart(p, other, open.value, name, tagAt);
      TagsAreApart(p, name, tagAt, other, open.value);
    }
  }

  /** An element holding plain text does not reach over a bracket behind its opening tag. */
  lemma AroundKeeps(p: string, x: string, c: string, q: string, n: Markers, tagAt: nat)
    requires tagAt < |p| && p[tagAt] == '<'
    requires StrStr(p, n.start, 0).Some? ==> StrStr(p, n.start, 0).value + |n.start| <= tagAt
    requires GetAround(p, x, q, n).Some? ==> IsText(GetAround(p, x, q, n).value)
    ensures GetAround(p, c, q, n) == GetAround(p, x, q, n)
  {
    hide StrStr, Get, Locate;
    var open, later := StrStr(p, n.start, 0), StrStr(q, n.end, 0);
    if open.Some? && later.Some? {
      BracketInside(p, open.value + |n.start|, tagAt, x, q[..later.value]);
    }
  }

  lemma OccursInPrefix(s: string, t: string, i: nat, n: nat)
    requires OccursAt(s, t, i) && i + |t| <= n <= |s|
    ensures OccursAt(s[..n], t, i)
  {
    OccursAsSlice(s, t, i);
    OccursAsSlice(s[..n], t, i);
  }

  /** The parts of a document around the text of an element. */
  lemma PartsAround(doc: string, m: Markers, from: nat, to: nat)
    requires Locate(doc, m) == Some(Range(from, to))
    ensures doc == doc[..from] + doc[from..to] + doc[to..]
    ensures |m.start| <= from && OccursAt(doc[..from], m.start, from - |m.start|)
  {
    StrStrFirst(doc, m.start, 0);
    OccursInPrefix(doc, m.start, from - |m.start|, from);
  }

  /** Replacing the text of one element does not change what another one reads as. */
  lemma PutKeepsOther(doc: string, name: string, other: string, c: string)
    requires Clean(name) && Clean(other) && name != other && IsText(c)
    requires Get(doc, Element(name)).Some? && IsText(Get(doc, Element(name)).value)
    requires Get(doc, Element(other)).Some? ==> IsText(Get(doc, Element(other)).value)
    ensures Get(Put(doc, Element(name), c), Element(other)) == Get(doc, Element(other))
  {
    hide StrStr, GetAround;
    var m := Element(name);
    var r := Locate(doc, m).value;
    var p, x, q := doc[..r.from], doc[r.from..r.to], doc[r.to..];
    var tagAt := r.from - |m.start|;
    PartsAround(doc, m, r.from, r.to);
    TagChars(p, name, tagAt);
    GetAroundText(p, x, q, other);
    GetAroundText(p, c, q, other);
    OpensApart(p, name, other, tagAt);
    AroundKeeps(p, x, c, q, Element(other), tagAt);
  }
}
