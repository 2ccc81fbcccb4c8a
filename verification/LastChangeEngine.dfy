/** The eventing engine of src/variable-container.c as a function of its state: a variable store,
    the document under construction, nested transactions, and the events sent so far. */
module LastChangeEngine {
  import opened Wrappers
  import opened LastChangeDocument

  /** `lastChange` is the index of the LastChange variable, whose value is the text of the last
      document; `wire` is every event handed to the UPnP stack, as sent. */
  datatype Engine = Engine(
    ns: string,
    names: seq<string>,
    values: seq<string>,
    lastChange: nat,
    ignored: set<nat>,
    open: nat,
    pending: Doc,
    wire: seq<string>)

  datatype Op = Change(v: nat, value: string) | Start | Finish | Ignore(v: nat)

  ghost predicate Distinct(names: seq<string>) {
    forall i, j :: 0 <= i < j < |names| ==> names[i] != names[j]
  }

  ghost predicate Valid(e: Engine) {
    && |e.values| == |e.names|
    && e.lastChange < |e.names| && e.lastChange in e.ignored
    && Distinct(e.names)
    && (forall n :: n in e.names ==> IsName(n))
    && HasNames(e.pending)
    && (e.open == 0 ==> e.pending == [])
  }

  // ---------------------------------------------------------------- operations

  function AllVariables(n: nat): (r: set<nat>)
    ensures forall i: nat :: i in r <==> i < n
  {
    if n == 0 then {} else AllVariables(n - 1) + {n - 1}
  }

  function ElementFor(e: Engine, v: nat, value: string): Element
    requires v < |e.names|
  {
    MakeElement(e.names[v], value)
  }

  /** Sends the pending document unless a transaction is open, there is none, or it repeats
      the previous one. */
  function Notify(e: Engine): Engine
    requires e.lastChange < |e.values|
  {
    if e.open != 0 || e.pending == [] then e else
      var text := Print(e.ns, e.pending);
      var flushed := e.(pending := []);
      if text == e.values[e.lastChange] then flushed else
        flushed.(values := e.values[e.lastChange := text], wire := e.wire + [Wire(text)])
  }

  function SetValue(e: Engine, v: nat, value: string): (r: Engine)
    requires Valid(e) && v < |e.names|
    ensures Valid(r)
  {
    if e.values[v] == value then e else
      var stored := e.(values := e.values[v := value]);
      if v in e.ignored then stored
      else Notify(stored.(pending := e.pending + [ElementFor(e, v, value)]))
  }

  predicate CanStep(e: Engine, op: Op) {
    match op
    case Change(v, _) => v < |e.names| && v != e.lastChange
    case Finish => e.open >= 1
    case Start => true
    case Ignore(v) => v < |e.names|
  }

  function Step(e: Engine, op: Op): (r: Engine)
    requires Valid(e) && CanStep(e, op)
    ensures Valid(r)
    ensures r.names == e.names && r.ns == e.ns && r.lastChange == e.lastChange
    ensures e.ignored <= r.ignored && e.wire <= r.wire
  {
    match op
    case Change(v, value) => SetValue(e, v, value)
    case Start => e.(open := e.open + 1)
    case Finish => Notify(e.(open := e.open - 1))
    case Ignore(v) => e.(ignored := e.ignored + {v})
  }

  ghost predicate CanRun(e: Engine, ops: seq<Op>)
    requires Valid(e)
    decreases |ops|
  {
    ops == [] || (CanStep(e, ops[0]) && CanRun(Step(e, ops[0]), ops[1..]))
  }

  ghost function Run(e: Engine, ops: seq<Op>): (r: Engine)
    requires Valid(e) && CanRun(e, ops)
    ensures Valid(r)
    ensures r.names == e.names && r.ns == e.ns && r.lastChange == e.lastChange
    ensures e.ignored <= r.ignored && e.wire <= r.wire
    decreases |ops|
  {
    if ops == [] then e else Run(Step(e, ops[0]), ops[1..])
  }

  lemma RunFirst(e: Engine, op: Op, rest: seq<Op>)
    requires Valid(e) && CanStep(e, op) && CanRun(Step(e, op), rest)
    ensures CanRun(e, [op] + rest) && Run(e, [op] + rest) == Run(Step(e, op), rest)
  {
    assert ([op] + rest)[1..] == rest;
  }

  lemma {:induction false} RunConcat(e: Engine, a: seq<Op>, b: seq<Op>)
    requires Valid(e) && CanRun(e, a) && CanRun(Run(e, a), b)
    ensures CanRun(e, a + b) && Run(e, a + b) == Run(Run(e, a), b)
    decreases |a|
  {
    if a == [] {
      assert a + b == b;
    } else {
      assert (a + b)[1..] == a[1..] + b;
      RunConcat(Step(e, a[0]), a[1..], b);
    }
  }

  lemma RunFour(e: Engine, a: Op, b: Op, c: Op, d: Op)
    requires Valid(e) && CanStep(e, a) && CanStep(Step(e, a), b) && CanStep(Step(Step(e, a), b), c)
    requires CanStep(Step(Step(Step(e, a), b), c), d)
    ensures CanRun(e, [a, b, c, d]) && Run(e, [a, b, c, d]) == Step(Step(Step(Step(e, a), b), c), d)
  {
    hide Step, CanStep;
    var e1 := Step(e, a);
    var e2 := Step(e1, b);
    var e3 := Step(e2, c);
    RunFirst(e3, d, []);
    RunFirst(e2, c, [d] + []);
    RunFirst(e1, b, [c] + ([d] + []));
    RunFirst(e, a, [b] + ([c] + ([d] + [])));
    OneByOne(a, b, c, d);
  }

  lemma OneByOne<T>(a: T, b: T, c: T, d: T)
    ensures [a] + ([b] + ([c] + ([d] + []))) == [a, b, c, d]
  {
  }

  // ---------------------------------------------------------------- construction

  /** The document of every variable the collector is born with, LastChange excepted. */
  function InitialDoc(names: seq<string>, values: seq<string>, lastChange: nat): Doc
    requires |names| == |values|
  {
    if names == [] then [] else
      var k := |names| - 1;
      InitialDoc(names[..k], values[..k], lastChange)
      + if k == lastChange then [] else [MakeElement(names[k], values[k])]
  }

  ghost predicate ValidTable(names: seq<string>, values: seq<string>, lastChange: nat) {
    |names| == |values| && lastChange < |names| && Distinct(names) && (forall n :: n in names ==> IsName(n))
  }

  lemma {:induction false} InitialDocNames(names: seq<string>, values: seq<string>, lastChange: nat)
    requires |names| == |values| && forall n :: n in names ==> IsName(n)
    ensures HasNames(InitialDoc(names, values, lastChange))
    decreases |names|
  {
    if names != [] {
      InitialDocNames(names[..|names| - 1], values[..|names| - 1], lastChange);
    }
  }

  lemma NoInitialDoc(names: seq<string>, values: seq<string>, lastChange: nat)
    requires |names| == |values|
    ensures InitialDoc(names[..0], values[..0], lastChange) == []
  {
  }

  lemma InitialDocStep(names: seq<string>, values: seq<string>, lastChange: nat, i: nat)
    requires |names| == |values| && i < |names|
    ensures InitialDoc(names[..i + 1], values[..i + 1], lastChange)
         == InitialDoc(names[..i], values[..i], lastChange)
          + if i == lastChange then [] else [MakeElement(names[i], values[i])]
  {
    assert names[..i + 1][..i] == names[..i] && values[..i + 1][..i] == values[..i];
  }

  function Unannounced(ns: string, names: seq<string>, values: seq<string>, lastChange: nat): Engine
    requires |names| == |values|
  {
    Engine(ns, names, values, lastChange, {lastChange}, 0, InitialDoc(names, values, lastChange), [])
  }

  function Build(ns: string, names: seq<string>, values: seq<string>, lastChange: nat): (r: Engine)
    requires ValidTable(names, values, lastChange)
    ensures Valid(r) && r.names == names && r.ns == ns && r.lastChange == lastChange && r.ignored == {lastChange}
  {
    InitialDocNames(names, values, lastChange);
    Notify(Unannounced(ns, names, values, lastChange))
  }

  // ---------------------------------------------------------------- the controller's side

  /** A controller applies the elements in order, so the last write of a name wins. */
  function Apply(m: map<string, string>, d: Doc): map<string, string> {
    if d == [] then m else
      var last := d[|d| - 1];
      Apply(m, d[..|d| - 1])[last.name := last.value]
  }

  function Observe(ns: string, m: map<string, string>, wire: seq<string>): map<string, string> {
    if wire == [] then m else
      var before := Observe(ns, m, wire[..|wire| - 1]);
      match Receive(ns, wire[|wire| - 1])
      case None => before
      case Some(d) => Apply(before, d)
  }

  function At(m: map<string, string>, name: string): Option<string> {
    if name in m then Some(m[name]) else None
  }

  /** The value the last element of that name gives, if any. */
  function LastValue(d: Doc, name: string): Option<string> {
    if d == [] then None
    else if d[|d| - 1].name == name then Some(d[|d| - 1].value)
    else LastValue(d[..|d| - 1], name)
  }

  lemma {:induction false} ApplyAt(m: map<string, string>, d: Doc, name: string)
    ensures At(Apply(m, d), name) == if LastValue(d, name).Some? then LastValue(d, name) else At(m, name)
  {
    if d != [] {
      ApplyAt(m, d[..|d| - 1], name);
    }
  }

  lemma {:induction false} LastValueConcat(c: Doc, d: Doc, name: string)
    ensures LastValue(c + d, name) == if LastValue(d, name).Some? then LastValue(d, name) else LastValue(c, name)
  {
    if d == [] {
      assert c + d == c;
    } else {
      assert (c + d)[..|c + d| - 1] == c + d[..|d| - 1];
      LastValueConcat(c, d[..|d| - 1], name);
    }
  }

  lemma {:induction false} ObserveConcat(ns: string, m: map<string, string>, w1: seq<string>, w2: seq<string>)
    ensures Observe(ns, m, w1 + w2) == Observe(ns, Observe(ns, m, w1), w2)
  {
    if w2 == [] {
      assert w1 + w2 == w1;
    } else {
      assert (w1 + w2)[..|w1 + w2| - 1] == w1 + w2[..|w2| - 1];
      ObserveConcat(ns, m, w1, w2[..|w2| - 1]);
    }
  }

  lemma ObserveOne(ns: string, m: map<string, string>, d: Doc)
    requires HasNames(d)
    ensures Observe(ns, m, [Wire(Print(ns, d))]) == Apply(m, d)
  {
    ReceiveWire(ns, Print(ns, d));
    ReadPrint(ns, d);
    assert Observe(ns, m, []) == m;
  }

  /** The document the LastChange variable records, empty if it holds none. */
  function LastDoc(e: Engine): Doc
    requires e.lastChange < |e.values|
  {
    match Read(e.ns, e.values[e.lastChange])
    case None => []
    case Some(d) => d
  }

  // ---------------------------------------------------------------- flushing

  lemma NotifyEffect(e: Engine)
    requires Valid(e.(open := 1)) && e.open == 0 && e.pending != []
    ensures Valid(Notify(e))
    ensures LastDoc(Notify(e)) == e.pending
    ensures Notify(e).wire == e.wire + if Print(e.ns, e.pending) == e.values[e.lastChange] then []
                                       else [Wire(Print(e.ns, e.pending))]
  {
    ReadPrint(e.ns, e.pending);
  }
}
