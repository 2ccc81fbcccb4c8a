/** Text put together from tags and plain text: where a tag is found in it, and what an element
    of it reads as. */
module MarkupTokens {
  import opened Wrappers
  import opened StringSearch
  import opened ReplaceRange
  import opened MarkupEditing

  datatype Token = Plain(text: string) | Tag(body: string)

  predicate WellFormed(t: Token) {
    match t
    case Plain(text) => IsText(text)
    case Tag(body) => Clean(body)
  }

  ghost predicate AllWellFormed(ts: seq<Token>) {
    forall t <- ts :: WellFormed(t)
  }

  function Spell(t: Token): string {
    match t
    case Plain(text) => text
    case Tag(body) => Angle(body)
  }

  function Flatten(ts: seq<Token>): string {
    if ts == [] then [] else Spell(ts[0]) + Flatten(ts[1..])
  }

  lemma {:induction false} FlattenConcat(s: seq<Token>, t: seq<Token>)
    ensures Flatten(s + t) == Flatten(s) + Flatten(t)
  {
    if s == [] {
      assert s + t == t;
    } else {
      assert (s + t)[1..] == s[1..] + t;
      FlattenConcat(s[1..], t);
      assert Spell(s[0]) + (Flatten(s[1..]) + Flatten(t)) == Spell(s[0]) + Flatten(s[1..]) + Flatten(t);
    }
  }

  /** Another tag in front is passed over as a whole. */
  lemma SearchOverTag(front: string, q: string, body: string, from: nat)
    requires Clean(front) && Clean(body) && front != body && from <= |Angle(front)|
    ensures StrStr(Angle(front) + q, Angle(body), from) == Shift(StrStr(q, Angle(body), 0), |Angle(front)|)
    decreases |Angle(front)| - from
  {
    if from == |Angle(front)| {
      SearchBehind(Angle(front), q, Angle(body), 0);
    } else {
      var s := Angle(front) + q;
      assert OccursAt(s, Angle(front), 0);
      if OccursAt(s, Angle(body), from) {
        TagsAreApart(s, front, 0, body, from);
      }
      SearchOverTag(front, q, body, from + 1);
    }
  }

  /** Where the first token that is the tag begins. */
  function FindTag(ts: seq<Token>, body: string): Option<nat> {
    if ts == [] then None
    else if ts[0] == Tag(body) then Some(0)
    else Shift(FindTag(ts[1..], body), |Spell(ts[0])|)
  }

  lemma NotInEmpty(body: string)
    ensures StrStr([], Angle(body), 0) == None
  {
  }

  lemma {:induction false} SearchTokens(ts: seq<Token>, body: string)
    requires AllWellFormed(ts) && Clean(body)
    ensures StrStr(Flatten(ts), Angle(body), 0) == FindTag(ts, body)
  {
    hide Clean, IsText, OccursAt;
    if ts == [] {
      NotInEmpty(body);
    } else {
      var q := Flatten(ts[1..]);
      assert WellFormed(ts[0]);
      SearchTokens(ts[1..], body);
      match ts[0]
      case Plain(x) =>
        SearchOverText([], x, q, body, 0);
        assert [] + x + q == x + q;
      case Tag(front) =>
        if front == body {
          FoundInFront(Angle(body), q);
        } else {
          SearchOverTag(front, q, body, 0);
        }
    }
  }

  lemma {:induction false} FindBehind(pre: seq<Token>, body: string, rest: seq<Token>)
    requires Tag(body) !in pre
    ensures FindTag(pre + [Tag(body)] + rest, body) == Some(|Flatten(pre)|)
  {
    if pre == [] {
      assert [] + [Tag(body)] + rest == [Tag(body)] + rest;
    } else {
      hide Spell;
      FindBehind(pre[1..], body, rest);
      TailOfThree(pre, [Tag(body)], rest);
    }
  }

  lemma TailOfThree<T>(a: seq<T>, b: seq<T>, c: seq<T>)
    requires a != []
    ensures (a + b + c)[0] == a[0] && (a + b + c)[1..] == a[1..] + b + c
  {
  }

  function ElementTokens(name: string, value: string): seq<Token> {
    [Tag(name), Plain(value), Tag(['/'] + name)]
  }

  lemma FlattenElement(pre: seq<Token>, name: string, value: string, post: seq<Token>)
    ensures Flatten(pre + ElementTokens(name, value) + post)
         == (Flatten(pre) + Angle(name)) + value + (Angle(['/'] + name) + Flatten(post))
  {
    var e := ElementTokens(name, value);
    FlattenConcat(pre + e, post);
    FlattenConcat(pre, e);
    FlattenThree(e[0], e[1], e[2]);
    assert e == [e[0], e[1], e[2]];
    Regroup(Flatten(pre), Angle(name), value, Angle(['/'] + name), Flatten(post));
  }

  lemma FlattenOne(t: Token)
    ensures Flatten([t]) == Spell(t)
  {
    assert [t][1..] == [] && Flatten([]) == [];
  }

  lemma FlattenThree(a: Token, b: Token, c: Token)
    ensures Flatten([a, b, c]) == Spell(a) + Spell(b) + Spell(c)
  {
    FlattenConcat([a, b], [c]);
    FlattenConcat([a], [b]);
    assert [a, b, c] == [a, b] + [c] && [a, b] == [a] + [b];
    assert forall t :: Flatten([t]) == Spell(t) + Flatten([][..]) == Spell(t);
  }

  lemma Regroup(p: string, a: string, b: string, c: string, q: string)
    ensures p + (a + b + c) + q == (p + a) + b + (c + q)
  {
  }

  lemma FoundBehind(pre: seq<Token>, name: string, value: string, post: seq<Token>)
    requires AllWellFormed(pre) && AllWellFormed(post) && Clean(name) && IsText(value) && Tag(name) !in pre
    ensures StrStr(Flatten(pre + ElementTokens(name, value) + post), Angle(name), 0) == Some(|Flatten(pre)|)
  {
    hide StrStr, OccursAt;
    var ts := pre + ElementTokens(name, value) + post;
    SearchTokens(ts, name);
    assert ts == pre + [Tag(name)] + (ElementTokens(name, value)[1..] + post);
    FindBehind(pre, name, ElementTokens(name, value)[1..] + post);
  }

  /** An element written once reads back as its text, whatever stands around it. */
  lemma GetElement(pre: seq<Token>, name: string, value: string, post: seq<Token>)
    requires AllWellFormed(pre) && AllWellFormed(post) && Clean(name) && IsText(value) && Tag(name) !in pre
    ensures Get(Flatten(pre + ElementTokens(name, value) + post), Element(name)) == Some(value)
  {
    hide Get, Locate, StrStr, OccursAt;
    FoundBehind(pre, name, value, post);
    FlattenElement(pre, name, value, post);
    ReadElement(Flatten(pre), name, value, Flatten(post));
  }

  lemma ReadElement(front: string, name: string, value: string, rest: string)
    requires Clean(name) && IsText(value)
    requires StrStr((front + Angle(name)) + value + (Angle(['/'] + name) + rest), Angle(name), 0) == Some(|front|)
    ensures Get((front + Angle(name)) + value + (Angle(['/'] + name) + rest), Element(name)) == Some(value)
  {
    hide Get, Locate, StrStr;
    var p, q := front + Angle(name), Angle(['/'] + name) + rest;
    SearchOverText(p, value, q, ['/'] + name, |p|);
    FoundInFront(Angle(['/'] + name), rest);
    assert (p + value + q)[|p|..|p| + |value|] == value;
    GetIs(p + value + q, Element(name), |front|, |p|, |p| + |value|, value);
  }
}
