/** Replacing a quoted value when nothing is known about the text between the quotes: it may hold
    tags, so that elements open or close within it. */
module MarkupSeams {
  import opened Wrappers
  import opened StringSearch
  import opened ReplaceRange
  import opened MarkupEditing

  function ShiftRange(r: Option<Range>, n: nat): Option<Range> {
    if r.Some? then Some(Range(r.value.from + n, r.value.to + n)) else None
  }

  lemma SliceInFront(p: string, z: string, i: nat, j: nat)
    requires i <= j <= |p|
    ensures (p + z)[i..j] == p[i..j]
  {
  }

  lemma SliceOver(p: string, z: string, i: nat, j: nat)
    requires i <= |p| && j <= |z|
    ensures (p + z)[i..|p| + j] == p[i..] + z[..j]
  {
  }

  /** An element that opens and closes in the front part. */
  lemma ReadsInFront(p: string, z: string, m: Markers, i: nat, a: nat, close: nat)
    requires StrStr(p, m.start, 0) == Some(i) && a == i + |m.start| && StrStr(p, m.end, a) == Some(close)
    ensures Locate(p + z, m) == Some(Range(a, close)) && Get(p + z, m) == Some(p[a..close])
  {
    hide StrStr, Get, Locate;
    SearchInFront(p, z, m.start, 0);
    SearchInFront(p, z, m.end, a);
    SliceInFront(p, z, a, close);
    GetIs(p + z, m, i, a, close, p[a..close]);
  }

  /** An element that opens in the front part and does not close there. */
  lemma ReadsAcross(p: string, z: string, m: Markers, i: nat, a: nat)
    requires Seam(p, z, m.end) && StrStr(p, m.start, 0) == Some(i) && a == i + |m.start| && StrStr(p, m.end, a).None?
    ensures match StrStr(z, m.end, 0)
      case None => Locate(p + z, m) == None && Get(p + z, m) == None
      case Some(c) => Locate(p + z, m) == Some(Range(a, |p| + c)) && Get(p + z, m) == Some(p[a..] + z[..c])
  {
    hide StrStr, Get, Locate;
    SearchInFront(p, z, m.start, 0);
    SearchPastSeam(p, z, m.end, a);
    match StrStr(z, m.end, 0)
    case None => GetIsNot(p + z, m, i, a);
    case Some(c) =>
      SliceOver(p, z, a, c);
      GetIs(p + z, m, i, a, |p| + c, p[a..] + z[..c]);
  }

  /** An element that does not open in the front part. */
  lemma ReadsBehind(p: string, z: string, m: Markers)
    requires Seam(p, z, m.start) && StrStr(p, m.start, 0).None?
    ensures Locate(p + z, m) == ShiftRange(Locate(z, m), |p|) && Get(p + z, m) == Get(z, m)
  {
    hide StrStr, Get, Locate;
    SearchPastSeam(p, z, m.start, 0);
    match StrStr(z, m.start, 0)
    case None =>
      LocateIsNot(z, m);
      LocateIsNot(p + z, m);
    case Some(i) => ReadsFurther(p, z, m, i, i + |m.start|);
  }

  lemma ReadsFurther(p: string, z: string, m: Markers, i: nat, a: nat)
    requires StrStr(z, m.start, 0) == Some(i) && StrStr(p + z, m.start, 0) == Some(|p| + i) && a == i + |m.start|
    ensures Locate(p + z, m) == ShiftRange(Locate(z, m), |p|) && Get(p + z, m) == Get(z, m)
  {
    hide StrStr, Get, Locate;
    SearchBehind(p, z, m.end, a);
    match StrStr(z, m.end, a)
    case None =>
      GetIsNot(z, m, i, a);
      GetIsNot(p + z, m, |p| + i, |p| + a);
    case Some(close) =>
      LocateIs(z, m, i, a, close);
      SliceBehind(p, z, a, close);
      GetIs(p + z, m, |p| + i, |p| + a, |p| + close, z[a..close]);
  }

  // ---------------------------------------------------------------- a quoted value

  /** p ends in a quote, the next one starts q. */
  predicate Quoted(p: string, x: string, q: string) {
    p != [] && p[|p| - 1] == '"' && q != [] && q[0] == '"' && '"' !in x
  }

  /** The content of the element reaches up to this position. */
  predicate Inside(doc: string, at: nat, m: Markers) {
    match Locate(doc, m)
    case None => false
    case Some(f) => f.from <= at <= f.to
  }

  /** The element opens within this stretch. */
  predicate Swallowed(doc: string, from: nat, to: nat, m: Markers) {
    match Locate(doc, m)
    case None => false
    case Some(f) => from < f.from <= to
  }

  /** What happens to an element when the quoted value x becomes the plain text id. If the element
      reaches up to the value, it takes in the new one, up to an end tag behind the quote; without
      one it is no longer found. If it opens within the value, another one behind the quote is
      found in its place, if there is one. Otherwise it reads as before. */
  ghost predicate QuotedEffect(p: string, x: string, q: string, id: string, m: Markers) {
    var doc, r := p + (x + q), p + (id + q);
    && (Inside(doc, |p|, m) && Contains(q, m.end) ==>
          Get(doc, m).Some? && Get(r, m).Some? && (Get(r, m) == Get(doc, m) <==> x == id))
    && (Inside(doc, |p|, m) && !Contains(q, m.end) ==> Get(r, m) == None)
    && (Swallowed(doc, |p|, |p| + |x|, m) ==> Get(r, m) == Get(q, m))
    && (!Inside(doc, |p|, m) && !Swallowed(doc, |p|, |p| + |x|, m) ==> Get(r, m) == Get(doc, m))
  }

  lemma TagHasNoQuote(p: string, x: string, q: string, body: string)
    requires Quoted(p, x, q) && '"' !in body
    ensures forall z :: Seam(p, z, Angle(body)) && Seam(z, q, Angle(body))
  {
  }

  lemma NotInText(id: string, body: string)
    requires IsText(id)
    ensures StrStr(id, Angle(body), 0) == None
  {
    StrStrFirst(id, Angle(body), 0);
    TagBegins(id, body);
  }

  lemma TagBegins(c: string, body: string)
    ensures forall i :: OccursAt(c, Angle(body), i) ==> 0 <= i < |c| && c[i] == '<'
  {
    forall i | OccursAt(c, Angle(body), i)
      ensures 0 <= i < |c| && c[i] == '<'
    {
      assert c[i..][0] == Angle(body)[0];
    }
  }

  /** Reading across the value up to an end tag behind the quote tells the value. */
  lemma QuoteTells(x: string, q: string, id: string, c: nat, later: nat)
    requires q != [] && q[0] == '"' && '"' !in x && c <= |x| + |q| && 0 < later <= |q| && (c > |x| ==> c == |x| + later)
    requires x == id ==> c == |x| + later
    ensures (x + q)[..c] == (id + q)[..|id| + later] <==> x == id
  {
    var left, right := (x + q)[..c], (id + q)[..|id| + later];
    assert forall d :: 0 <= d < c && d < |x| ==> left[d] == x[d];
    if left == right {
      assert c == |left| == |id| + later;
      assert right[|id|] == q[0];
      assert c > |x|;
      assert left[..|x|] == x && right[..|x|] == id;
    }
  }

  /** The first end tag behind p, in the old and in the new text. */
  lemma EndsBehind(p: string, x: string, q: string, id: string, t: string)
    requires Quoted(p, x, q) && Seam(x, q, t) && Seam(id, q, t) && StrStr(id, t, 0).None? && t != [] && t[0] == '<'
    ensures StrStr(id + q, t, 0) == Shift(StrStr(q, t, 0), |id|)
    ensures StrStr(q, t, 0).Some? ==> StrStr(q, t, 0).value > 0
    ensures StrStr(q, t, 0).Some? ==> StrStr(x + q, t, 0).Some?
    ensures var c := StrStr(x + q, t, 0);
      c.Some? ==> c.value <= |x| || (StrStr(q, t, 0).Some? && c.value == |x| + StrStr(q, t, 0).value)
  {
    SearchPastSeam(id, q, t, 0);
    StrStrFirst(q, t, 0);
    if StrStr(x, t, 0).Some? {
      SearchInFront(x, q, t, 0);
    } else {
      SearchPastSeam(x, q, t, 0);
    }
  }

  lemma TextAcross(a: string, left: string, right: string)
    ensures a + left == a + right <==> left == right
  {
    if a + left == a + right {
      assert (a + left)[|a|..] == left && (a + right)[|a|..] == right;
    }
  }

  /** The element opens in front of the value and does not close there. */
  lemma EffectAcross(p: string, x: string, q: string, id: string, name: string, i: nat, a: nat)
    requires Quoted(p, x, q) && IsText(id) && '"' !in ['/'] + name
    requires StrStr(p, Angle(name), 0) == Some(i) && a == i + |Angle(name)| && StrStr(p, Angle(['/'] + name), a).None?
    ensures QuotedEffect(p, x, q, id, Element(name))
  {
    hide StrStr, Get, Locate, IsText;
    var m := Element(name);
    TagHasNoQuote(p, x, q, ['/'] + name);
    NotInText(id, ['/'] + name);
    EndsBehind(p, x, q, id, m.end);
    ReadsAcross(p, x + q, m, i, a);
    ReadsAcross(p, id + q, m, i, a);
    var c, later := StrStr(x + q, m.end, 0), StrStr(q, m.end, 0);
    if later.Some? {
      QuoteTells(x, q, id, c.value, later.value);
      TextAcross(p[a..], (x + q)[..c.value], (id + q)[..|id| + later.value]);
    }
  }

  /** The element does not open in front of the value. */
  lemma EffectBehind(p: string, x: string, q: string, id: string, name: string)
    requires Quoted(p, x, q) && IsText(id) && '"' !in name && StrStr(p, Angle(name), 0).None?
    ensures QuotedEffect(p, x, q, id, Element(name))
  {
    hide StrStr, Get, IsText;
    var m := Element(name);
    TagHasNoQuote(p, x, q, name);
    NotInText(id, name);
    ReadsBehind(p, x + q, m);
    ReadsBehind(p, id + q, m);
    ReadsBehind(id, q, m);
    OpensWithin(x, q, m);
  }

  lemma NeverCloses(q: string, m: Markers)
    requires StrStr(q, m.end, 0).None?
    ensures Get(q, m) == None
  {
    StrStrFirst(q, m.end, 0);
    match StrStr(q, m.start, 0)
    case None =>
    case Some(i) => StrStrFirst(q, m.end, i + |m.start|);
  }

  /** What follows the opening quote: the element opens in x, or is that of q. */
  lemma OpensWithin(x: string, q: string, m: Markers)
    requires Seam(x, q, m.start) && Seam(x, q, m.end)
    ensures match Locate(x + q, m)
      case Some(f) => f.from > |x| ==> Get(x + q, m) == Get(q, m)
      case None => Get(q, m) == None && Get(x + q, m) == None
  {
    hide StrStr;
    if StrStr(x, m.start, 0).None? {
      ReadsBehind(x, q, m);
    } else {
      SearchInFront(x, q, m.start, 0);
      var a := StrStr(x, m.start, 0).value + |m.start|;
      if StrStr(x, m.end, a).None? {
        SearchPastSeam(x, q, m.end, a);
        if StrStr(q, m.end, 0).None? {
          NeverCloses(q, m);
        }
      } else {
        SearchInFront(x, q, m.end, a);
      }
    }
  }

  lemma EffectIsKnown(p: string, x: string, q: string, id: string, name: string)
    requires Quoted(p, x, q) && IsText(id) && '"' !in name && '"' !in ['/'] + name
    ensures QuotedEffect(p, x, q, id, Element(name))
  {
    hide StrStr, Get;
    var m := Element(name);
    if StrStr(p, m.start, 0).None? {
      EffectBehind(p, x, q, id, name);
    } else {
      var i := StrStr(p, m.start, 0).value;
      var a := i + |m.start|;
      if StrStr(p, m.end, a).None? {
        EffectAcross(p, x, q, id, name, i, a);
      } else {
        ReadsInFront(p, x + q, m, i, a, StrStr(p, m.end, a).value);
        ReadsInFront(p, id + q, m, i, a, StrStr(p, m.end, a).value);
      }
    }
  }
}
