/** A controller that replays the events agrees with the store, although repeated documents are
    suppressed and transactions coalesce changes. */
module LastChangeReplay {
  import opened Wrappers
  import opened LastChangeDocument
  import opened LastChangeEngine

  /** `seen` is what a controller holds after all events so far. On the variables in `tracked` it
      is the store but for the pending document, and hearing the last document once more would
      tell it nothing new. */
  ghost predicate InStep(e: Engine, seen: map<string, string>, tracked: set<nat>)
    requires Valid(e)
  {
    && tracked !! e.ignored
    && forall i :: i in tracked ==>
      && i < |e.names|
      && At(Apply(seen, e.pending), e.names[i]) == Some(e.values[i])
      && (LastValue(LastDoc(e), e.names[i]) == None || LastValue(LastDoc(e), e.names[i]) == At(seen, e.names[i]))
  }

  function NewEvents(before: Engine, after: Engine): seq<string>
    requires before.wire <= after.wire
  {
    after.wire[|before.wire|..]
  }

  lemma NotifyKeepsInStep(e: Engine, seen: map<string, string>, tracked: set<nat>)
    requires Valid(e.(open := 1)) && InStep(e.(open := 1), seen, tracked)
    ensures var r := Notify(e); Valid(r) && e.wire <= r.wire && InStep(r, Observe(e.ns, seen, NewEvents(e, r)), tracked)
  {
    hide Print, Read, Wire;
    var r := Notify(e);
    if e.open == 0 && e.pending != [] {
      NotifyEffect(e);
      var after := Observe(e.ns, seen, NewEvents(e, r));
      if r.wire != e.wire {
        assert NewEvents(e, r) == [Wire(Print(e.ns, e.pending))];
        ObserveOne(e.ns, seen, e.pending);
      } else {
        ReadPrint(e.ns, e.pending);
      }
      forall i | i in tracked
        ensures At(Apply(after, []), e.names[i]) == Some(r.values[i])
        ensures LastValue(e.pending, e.names[i]) == None || LastValue(e.pending, e.names[i]) == At(after, e.names[i])
      {
        ApplyAt(seen, e.pending, e.names[i]);
      }
    }
  }

  /** Queuing a change keeps the observer one pending document away from the store. */
  lemma QueueKeepsInStep(e: Engine, v: nat, value: string, seen: map<string, string>, tracked: set<nat>)
    requires Valid(e) && v < |e.names| && v !in e.ignored && InStep(e, seen, tracked)
    ensures var pending := e.pending + [ElementFor(e, v, value)];
      var queued := e.(values := e.values[v := value], pending := pending, open := 1);
      Valid(queued) && InStep(queued, seen, tracked)
  {
    var element := ElementFor(e, v, value);
    var pending := e.pending + [element];
    var queued := e.(values := e.values[v := value], pending := pending, open := 1);
    assert pending[..|pending| - 1] == e.pending;
    assert Apply(seen, pending) == Apply(seen, e.pending)[e.names[v] := value];
    assert LastDoc(queued) == LastDoc(e);
  }

  lemma StepKeepsInStep(e: Engine, op: Op, seen: map<string, string>, tracked: set<nat>)
    requires Valid(e) && CanStep(e, op) && InStep(e, seen, tracked)
    requires tracked !! Step(e, op).ignored
    ensures InStep(Step(e, op), Observe(e.ns, seen, NewEvents(e, Step(e, op))), tracked)
  {
    match op
    case Change(v, value) =>
      if e.values[v] != value && v !in e.ignored {
        QueueKeepsInStep(e, v, value, seen, tracked);
        var pending := e.pending + [ElementFor(e, v, value)];
        NotifyKeepsInStep(e.(values := e.values[v := value], pending := pending), seen, tracked);
      }
    case Finish => NotifyKeepsInStep(e.(open := e.open - 1), seen, tracked);
    case _ =>
  }

  lemma {:induction false} RunKeepsInStep(e: Engine, ops: seq<Op>, seen: map<string, string>, tracked: set<nat>)
    requires Valid(e) && CanRun(e, ops) && InStep(e, seen, tracked)
    requires tracked !! Run(e, ops).ignored
    ensures InStep(Run(e, ops), Observe(e.ns, seen, NewEvents(e, Run(e, ops))), tracked)
    decreases |ops|
  {
    hide Step, Print, Apply, Read, LastValue;
    if ops != [] {
      var next := Step(e, ops[0]);
      var seen' := Observe(e.ns, seen, NewEvents(e, next));
      StepKeepsInStep(e, ops[0], seen, tracked);
      RunKeepsInStep(next, ops[1..], seen', tracked);
      ObserveConcat(e.ns, seen, NewEvents(e, next), NewEvents(next, Run(e, ops)));
      assert NewEvents(e, Run(e, ops)) == NewEvents(e, next) + NewEvents(next, Run(e, ops));
    }
  }

  /** Agreement as a controller can observe it: all documents are out. */
  ghost predicate Agrees(e: Engine, seen: map<string, string>, tracked: set<nat>)
    requires Valid(e)
  {
    forall i :: i in tracked ==> i < |e.names| && At(seen, e.names[i]) == Some(e.values[i])
  }

  lemma RunAgreement(e: Engine, ops: seq<Op>, start: map<string, string>, tracked: set<nat>)
    requires Valid(e) && CanRun(e, ops) && tracked !! Run(e, ops).ignored
    requires InStep(e, Observe(e.ns, start, e.wire), tracked)
    ensures Run(e, ops).open == 0 ==> Agrees(Run(e, ops), Observe(e.ns, start, Run(e, ops).wire), tracked)
  {
    hide Step, Notify, Print, Read, LastValue;
    var r := Run(e, ops);
    RunKeepsInStep(e, ops, Observe(e.ns, start, e.wire), tracked);
    ObserveConcat(e.ns, start, e.wire, NewEvents(e, r));
    assert r.wire == e.wire + NewEvents(e, r);
  }

  // ---------------------------------------------------------------- from the first event on

  lemma LastOfOwn(own: Doc, name: string)
    requires |own| <= 1
    ensures LastValue(own, name) == if own != [] && own[0].name == name then Some(own[0].value) else None
  {
  }

  lemma {:induction false} InitialDocListsAll(names: seq<string>, values: seq<string>, lastChange: nat, i: nat)
    requires |names| == |values| && Distinct(names) && i < |names|
    ensures LastValue(InitialDoc(names, values, lastChange), names[i]) == if i == lastChange then None
                                                                          else Some(values[i])
    decreases |names|
  {
    hide LastValue;
    var k := |names| - 1;
    var front := InitialDoc(names[..k], values[..k], lastChange);
    var d := InitialDoc(names, values, lastChange);
    var own := if k == lastChange then [] else [MakeElement(names[k], values[k])];
    assert d == front + own;
    LastValueConcat(front, own, names[i]);
    LastOfOwn(own, names[i]);
    if i < k {
      assert names[..k][i] == names[i];
      InitialDocListsAll(names[..k], values[..k], lastChange, i);
    } else {
      InitialDocAbsent(names[..k], values[..k], lastChange, names[k]);
    }
  }

  lemma {:induction false} InitialDocAbsent(names: seq<string>, values: seq<string>, lastChange: nat, name: string)
    requires |names| == |values| && name !in names
    ensures LastValue(InitialDoc(names, values, lastChange), name) == None
    ensures forall e :: e in InitialDoc(names, values, lastChange) ==> e.name in names
    decreases |names|
  {
    if names != [] {
      var k := |names| - 1;
      InitialDocAbsent(names[..k], values[..k], lastChange, name);
      LastValueConcat(InitialDoc(names[..k], values[..k], lastChange),
                      if k == lastChange then [] else [MakeElement(names[k], values[k])], name);
    }
  }

  /** The initial value of LastChange is not yet the document about to be announced. */
  predicate Announces(ns: string, names: seq<string>, values: seq<string>, lastChange: nat)
    requires |names| == |values| && lastChange < |names|
  {
    values[lastChange] != Print(ns, InitialDoc(names, values, lastChange))
  }

  /** The values LastChange is declared with begin "<Event"; no such text is a printed document. */
  lemma DeclaredValueAnnounces(ns: string, names: seq<string>, values: seq<string>, lastChange: nat)
    requires |names| == |values| && lastChange < |names|
    requires |values[lastChange]| > 1 && values[lastChange][1] != '?'
    ensures Announces(ns, names, values, lastChange)
  {
    hide PrintElements;
    assert Print(ns, InitialDoc(names, values, lastChange))[1] == PROLOG[1];
  }

  /** The first document, if it lists anything, is out and recorded. */
  lemma FirstDocument(ns: string, names: seq<string>, values: seq<string>, lastChange: nat, d: Doc)
    requires ValidTable(names, values, lastChange) && Announces(ns, names, values, lastChange)
    requires d == InitialDoc(names, values, lastChange) != []
    ensures var e := Build(ns, names, values, lastChange);
      && e.pending == [] && LastDoc(e) == d && e.values == values[lastChange := e.values[lastChange]]
      && Observe(ns, map[], e.wire) == Apply(map[], d)
  {
    hide Print, InitialDoc, Wire, Read, Observe, LastDoc, Apply;
    var e := Unannounced(ns, names, values, lastChange);
    InitialDocNames(names, values, lastChange);
    NotifyEffect(e);
    ObserveOne(ns, map[], d);
    assert [] + [Wire(Print(ns, d))] == [Wire(Print(ns, d))];
  }

  lemma BuildInStep(ns: string, names: seq<string>, values: seq<string>, lastChange: nat)
    requires ValidTable(names, values, lastChange) && Announces(ns, names, values, lastChange)
    ensures var e := Build(ns, names, values, lastChange);
      InStep(e, Observe(ns, map[], e.wire), AllVariables(|names|) - {lastChange})
  {
    hide Print, InitialDoc, Wire, Read, Observe, LastDoc, Build, Announces;
    var d := InitialDoc(names, values, lastChange);
    var tracked := AllVariables(|names|) - {lastChange};
    if d != [] {
      FirstDocument(ns, names, values, lastChange, d);
    }
    forall i | i in tracked
      ensures LastValue(d, names[i]) == Some(values[i])
      ensures At(Apply(map[], d), names[i]) == Some(values[i])
    {
      InitialDocListsAll(names, values, lastChange, i);
      ApplyAt(map[], d, names[i]);
    }
  }

  /** Whatever the run, once no transaction is open the replayed events and the store agree on
      every variable that is not excluded from eventing. */
  lemma ReplayAgreement(ns: string, names: seq<string>, values: seq<string>, lastChange: nat, ops: seq<Op>)
    requires ValidTable(names, values, lastChange) && Announces(ns, names, values, lastChange)
    requires CanRun(Build(ns, names, values, lastChange), ops)
    ensures var r := Run(Build(ns, names, values, lastChange), ops);
      r.open == 0 ==> Agrees(r, Observe(ns, map[], r.wire), AllVariables(|names|) - r.ignored)
  {
    BuildInStep(ns, names, values, lastChange);
    var e := Build(ns, names, values, lastChange);
    RunAgreement(e, ops, map[], AllVariables(|names|) - Run(e, ops).ignored);
  }

  /** If LastChange already held that very document, nothing is announced and a controller
      without a snapshot stays ignorant of every variable. */
  lemma SilentBuild(ns: string, names: seq<string>, values: seq<string>, lastChange: nat)
    requires ValidTable(names, values, lastChange)
    ensures var e := Build(ns, names, values, lastChange);
      (e.wire == [] <==> !Announces(ns, names, values, lastChange) || |names| == 1)
      && |e.wire| <= 1
  {
    var d := InitialDoc(names, values, lastChange);
    if |names| > 1 {
      InitialDocListsAll(names, values, lastChange, if lastChange == 0 then 1 else 0);
    } else {
      assert InitialDoc(names[..0], values[..0], lastChange) == [];
    }
  }
}
