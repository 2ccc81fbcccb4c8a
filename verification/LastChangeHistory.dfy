/** Conservation: every effective change ends up in exactly one document, in order, and an
    outermost transaction sends at most one event. */
module LastChangeHistory {
  import opened LastChangeDocument
  import opened LastChangeEngine

  /** What one step has to report: an effective change of an evented variable. */
  function Effect(e: Engine, op: Op): Doc
    requires Valid(e) && CanStep(e, op)
  {
    match op
    case Change(v, value) =>
      if e.values[v] != value && v !in e.ignored then [ElementFor(e, v, value)] else []
    case _ => []
  }

  ghost function Effects(e: Engine, ops: seq<Op>): Doc
    requires Valid(e) && CanRun(e, ops)
    decreases |ops|
  {
    if ops == [] then [] else Effect(e, ops[0]) + Effects(Step(e, ops[0]), ops[1..])
  }

  /** The documents completed by a step: none or one. */
  function Completed(e: Engine, op: Op): seq<Doc>
    requires Valid(e) && CanStep(e, op)
  {
    var d := e.pending + Effect(e, op);
    if Step(e, op).open == 0 && d != [] then [d] else []
  }

  ghost function AllCompleted(e: Engine, ops: seq<Op>): seq<Doc>
    requires Valid(e) && CanRun(e, ops)
    decreases |ops|
  {
    if ops == [] then [] else Completed(e, ops[0]) + AllCompleted(Step(e, ops[0]), ops[1..])
  }

  function Concat(docs: seq<Doc>): Doc {
    if docs == [] then [] else docs[0] + Concat(docs[1..])
  }

  /** Of the completed documents those are sent that differ from the one before. */
  function Sent(ns: string, previous: string, docs: seq<Doc>): seq<string>
    decreases |docs|
  {
    if docs == [] then [] else
      var text := Print(ns, docs[0]);
      (if text == previous then [] else [Wire(text)]) + Sent(ns, text, docs[1..])
  }

  lemma StepHistory(e: Engine, op: Op)
    requires Valid(e) && CanStep(e, op)
    ensures var r := Step(e, op);
      && e.pending + Effect(e, op) == Concat(Completed(e, op)) + r.pending
      && r.wire == e.wire + Sent(e.ns, e.values[e.lastChange], Completed(e, op))
      && r.values[e.lastChange] == if Completed(e, op) == [] then e.values[e.lastChange]
                                   else Print(e.ns, Completed(e, op)[0])
  {
    var c := Completed(e, op);
    assert e.pending + [] == e.pending && [] + e.pending == e.pending && e.wire + [] == e.wire;
    if c != [] {
      assert Step(e, op) == Notify(e.(open := 0, pending := c[0],
        values := if op.Change? then e.values[op.v := op.value] else e.values));
      SingletonHistory(e.ns, e.values[e.lastChange], c[0]);
    }
  }

  lemma SingletonHistory(ns: string, previous: string, d: Doc)
    ensures Concat([d]) == d
    ensures Sent(ns, previous, [d]) == if Print(ns, d) == previous then [] else [Wire(Print(ns, d))]
  {
    assert [d][1..] == [];
    assert d + [] == d;
    assert Sent(ns, Print(ns, d), []) == [];
  }

  lemma ConcatAppend(a: seq<Doc>, b: seq<Doc>)
    requires |a| <= 1
    ensures Concat(a + b) == Concat(a) + Concat(b)
  {
    if a == [] {
      assert a + b == b;
    } else {
      assert (a + b)[1..] == b && a[1..] == [];
    }
  }

  lemma SentAppend(ns: string, previous: string, a: seq<Doc>, b: seq<Doc>)
    requires |a| <= 1
    ensures Sent(ns, previous, a + b)
         == Sent(ns, previous, a) + Sent(ns, if a == [] then previous else Print(ns, a[0]), b)
  {
    if a == [] {
      assert a + b == b;
    } else {
      assert (a + b)[1..] == b && a[1..] == [];
      assert Sent(ns, Print(ns, a[0]), []) == [];
    }
  }

  /** None of the changes is lost, doubled or reordered, whatever the nesting. */
  lemma {:induction false} Conservation(e: Engine, ops: seq<Op>)
    requires Valid(e) && CanRun(e, ops)
    ensures e.pending + Effects(e, ops) == Concat(AllCompleted(e, ops)) + Run(e, ops).pending
    decreases |ops|
  {
    if ops == [] {
      assert e.pending + [] == [] + e.pending;
    } else {
      var next := Step(e, ops[0]);
      StepHistory(e, ops[0]);
      Conservation(next, ops[1..]);
      ConcatAppend(Completed(e, ops[0]), AllCompleted(next, ops[1..]));
      Regroup(e.pending, Effect(e, ops[0]), Effects(next, ops[1..]), Concat(Completed(e, ops[0])), next.pending,
              Concat(AllCompleted(next, ops[1..])), Run(e, ops).pending);
    }
  }

  lemma Regroup(p: Doc, x: Doc, xs: Doc, c: Doc, q: Doc, cs: Doc, r: Doc)
    requires p + x == c + q && q + xs == cs + r
    ensures p + (x + xs) == (c + cs) + r
  {
    assert p + (x + xs) == (p + x) + xs;
    assert (c + q) + xs == c + (q + xs);
    assert c + (cs + r) == (c + cs) + r;
  }

  /** The events of a run are its completed documents, immediate repeats dropped. */
  lemma {:induction false} EventsAreCompletedDocs(e: Engine, ops: seq<Op>)
    requires Valid(e) && CanRun(e, ops)
    ensures Run(e, ops).wire == e.wire + Sent(e.ns, e.values[e.lastChange], AllCompleted(e, ops))
    decreases |ops|
  {
    if ops != [] {
      var next := Step(e, ops[0]);
      StepHistory(e, ops[0]);
      EventsAreCompletedDocs(next, ops[1..]);
      var first, rest := Completed(e, ops[0]), AllCompleted(next, ops[1..]);
      SentAppend(e.ns, e.values[e.lastChange], first, rest);
      Associate(e.wire, Sent(e.ns, e.values[e.lastChange], first), Sent(e.ns, next.values[e.lastChange], rest));
    }
  }

  lemma Associate<T>(a: seq<T>, b: seq<T>, c: seq<T>)
    ensures a + b + c == a + (b + c)
  {
  }

  // ---------------------------------------------------------------- one transaction

  ghost predicate StaysOpen(e: Engine, ops: seq<Op>)
    requires Valid(e) && CanRun(e, ops)
    decreases |ops|
  {
    e.open >= 1 && (ops == [] || StaysOpen(Step(e, ops[0]), ops[1..]))
  }

  lemma OpenStep(e: Engine, op: Op)
    requires Valid(e) && CanStep(e, op) && e.open >= 1 && Step(e, op).open >= 1
    ensures var r := Step(e, op);
      && r.wire == e.wire && r.values[e.lastChange] == e.values[e.lastChange]
      && r.pending == e.pending + Effect(e, op)
  {
    hide Print;
  }

  lemma {:induction false} OpenCollects(e: Engine, ops: seq<Op>)
    requires Valid(e) && CanRun(e, ops) && StaysOpen(e, ops)
    ensures var r := Run(e, ops);
      && r.wire == e.wire && r.values[e.lastChange] == e.values[e.lastChange]
      && r.pending == e.pending + Effects(e, ops) && r.open >= 1
    decreases |ops|
  {
    hide Step, Effect;
    if ops == [] {
      assert e.pending + [] == e.pending;
    } else {
      OpenStep(e, ops[0]);
      OpenCollects(Step(e, ops[0]), ops[1..]);
      Associate(e.pending, Effect(e, ops[0]), Effects(Step(e, ops[0]), ops[1..]));
    }
  }

  /** A transaction inside from quiet and closed after `body` sends one event listing exactly
      its effective changes, or nothing if there are none or they repeat the last document. */
  lemma OneEventPerTransaction(e: Engine, body: seq<Op>)
    requires Valid(e) && e.open == 0
    requires CanRun(Step(e, Start), body) && StaysOpen(Step(e, Start), body)
    requires Run(Step(e, Start), body).open == 1
    ensures var inside := Step(e, Start);
      var changes := Effects(inside, body);
      var r := Step(Run(inside, body), Finish);
      && r.open == 0 && r.pending == []
      && r.wire == e.wire + if changes == [] || Print(e.ns, changes) == e.values[e.lastChange] then []
                            else [Wire(Print(e.ns, changes))]
  {
    var inside := Step(e, Start);
    OpenCollects(inside, body);
    assert [] + Effects(inside, body) == Effects(inside, body);
  }
}
