/** strstr, and what replacing a stretch of text does to the occurrences of a search string. */
module StringSearch {
  import opened Wrappers

  predicate StartsWith(s: string, t: string) {
    t <= s
  }

  predicate OccursAt(s: string, t: string, i: int) {
    0 <= i <= |s| && StartsWith(s[i..], t)
  }

  lemma OccursAsSlice(s: string, t: string, i: int)
    ensures OccursAt(s, t, i) <==> 0 <= i && i + |t| <= |s| && s[i..i + |t|] == t
  {
    if 0 <= i && i + |t| <= |s| {
      assert s[i..][..|t|] == s[i..i + |t|];
    }
  }

  /** The first occurrence at or after `from`. */
  function StrStr(s: string, t: string, from: nat): (r: Option<nat>)
    requires from <= |s|
    ensures r.Some? ==> from <= r.value <= |s| - |t|
    decreases |s| - from
  {
    if OccursAt(s, t, from) then Some(from)
    else if from == |s| then None
    else StrStr(s, t, from + 1)
  }

  predicate Contains(s: string, t: string) {
    StrStr(s, t, 0).Some?
  }

  /** strstr finds an occurrence with none before it, or there is none at all. */
  lemma {:induction false} StrStrFirst(s: string, t: string, from: nat)
    requires from <= |s|
    ensures var r := StrStr(s, t, from);
      && (r.Some? ==> OccursAt(s, t, r.value) && forall k :: from <= k < r.value ==> !OccursAt(s, t, k))
      && (r.None? ==> forall k :: from <= k ==> !OccursAt(s, t, k))
    decreases |s| - from
  {
    if !OccursAt(s, t, from) && from < |s| {
      StrStrFirst(s, t, from + 1);
    }
  }

  /** The least occurrence from a point is what strstr finds. */
  lemma FirstIsFound(s: string, t: string, from: nat, i: nat)
    requires from <= i && OccursAt(s, t, i) && forall k :: from <= k < i ==> !OccursAt(s, t, k)
    ensures from <= |s| && StrStr(s, t, from) == Some(i)
  {
    StrStrFirst(s, t, from);
  }

  lemma AnyOccurrence(s: string, t: string, from: nat, i: nat)
    requires from <= i && OccursAt(s, t, i)
    ensures from <= |s| && StrStr(s, t, from).Some? && StrStr(s, t, from).value <= i
  {
    StrStrFirst(s, t, from);
  }

  lemma OccursInPart(p: string, s: string, q: string, t: string, i: nat)
    requires i + |t| <= |s|
    ensures OccursAt(p + s + q, t, |p| + i) <==> OccursAt(s, t, i)
  {
    OccursAsSlice(p + s + q, t, |p| + i);
    OccursAsSlice(s, t, i);
    assert (p + s + q)[|p| + i..|p| + i + |t|] == s[i..i + |t|];
  }

  lemma OccursInFront(p: string, q: string, t: string, i: nat)
    requires i + |t| <= |p|
    ensures OccursAt(p + q, t, i) <==> OccursAt(p, t, i)
  {
    OccursInPart([], p, q, t, i);
    assert [] + p + q == p + q;
  }

  lemma OccursInBack(p: string, q: string, t: string, i: nat)
    ensures OccursAt(p + q, t, |p| + i) <==> OccursAt(q, t, i)
  {
    if i <= |q| {
      assert (p + q)[|p| + i..] == q[i..];
    }
  }

  lemma FrontOccurs(t: string, q: string)
    ensures OccursAt(t + q, t, 0)
  {
    assert (t + q)[0..] == t + q;
  }

  lemma FoundInFront(t: string, q: string)
    ensures StrStr(t + q, t, 0) == Some(0)
  {
    FrontOccurs(t, q);
  }

  /** A first occurrence within a common beginning is the first one in both texts. */
  lemma CommonFront(p: string, q: string, q': string, t: string, from: nat)
    requires from <= |p| && StrStr(p + q, t, from).Some? && StrStr(p + q, t, from).value + |t| <= |p|
    ensures StrStr(p + q', t, from) == StrStr(p + q, t, from)
  {
    var i := StrStr(p + q, t, from).value;
    StrStrFirst(p + q, t, from);
    forall k: nat | k <= i
      ensures OccursAt(p + q', t, k) <==> OccursAt(p + q, t, k)
    {
      OccursInFront(p, q, t, k);
      OccursInFront(p, q', t, k);
    }
    FirstIsFound(p + q', t, from, i);
  }

  function Shift(r: Option<nat>, n: nat): Option<nat> {
    if r.Some? then Some(r.value + n) else None
  }

  lemma SearchBehind(p: string, q: string, t: string, from: nat)
    requires from <= |q|
    ensures StrStr(p + q, t, |p| + from) == Shift(StrStr(q, t, from), |p|)
    decreases |q| - from
  {
    OccursInBack(p, q, t, from);
    if from < |q| {
      SearchBehind(p, q, t, from + 1);
    }
  }

  lemma SearchFromBack(p: string, q: string, t: string)
    ensures StrStr(p + q, t, |p|) == Shift(StrStr(q, t, 0), |p|)
  {
    hide StrStr;
    SearchBehind(p, q, t, 0);
    assert |p| + 0 == |p|;
  }

  // ---------------------------------------------------------------- seams

  /** A character that t does not contain stands next to the seam between p and s. */
  predicate Seam(p: string, s: string, t: string) {
    (p != [] && p[|p| - 1] !in t) || (s != [] && s[0] !in t)
  }

  /** No occurrence reaches over a seam. */
  lemma NoReachOver(p: string, s: string, t: string, i: nat)
    requires Seam(p, s, t) && OccursAt(p + s, t, i) && i < |p|
    ensures i + |t| <= |p|
  {
    OccursAsSlice(p + s, t, i);
    assert forall d :: 0 <= d < |t| ==> (p + s)[i + d] == (p + s)[i..i + |t|][d] == t[d];
    assert p[|p| - 1] == (p + s)[|p| - 1] && (s != [] ==> s[0] == (p + s)[|p|]);
  }

  /** What is found in the front part is found first. */
  lemma SearchInFront(p: string, s: string, t: string, from: nat)
    requires from <= |p| && StrStr(p, t, from).Some?
    ensures StrStr(p + s, t, from) == StrStr(p, t, from)
  {
    hide StrStr;
    assert p + [] == p;
    CommonFront(p, [], s, t, from);
  }

  /** What is not found in the front part is found behind the seam. */
  lemma SearchPastSeam(p: string, s: string, t: string, from: nat)
    requires Seam(p, s, t) && from <= |p| && StrStr(p, t, from).None?
    ensures StrStr(p + s, t, from) == Shift(StrStr(s, t, 0), |p|)
    decreases |p| - from
  {
    if from == |p| {
      SearchBehind(p, s, t, 0);
    } else {
      if OccursAt(p + s, t, from) {
        NoReachOver(p, s, t, from);
        OccursInFront(p, s, t, from);
      }
      SearchPastSeam(p, s, t, from + 1);
    }
  }
}
