/** Controllers that subscribe later: the initial snapshot of handle_subscription_request
    (src/upnp_device.c) followed by the events sent from then on. */
module LateSubscriber {
  import opened Wrappers
  import opened LastChangeDocument
  import opened LastChangeEngine
  import opened LastChangeReplay

  predicate InSnapshot(name: string) {
    name != "LastChange" && !("A_ARG_TYPE_" <= name)
  }

  function SnapshotDoc(names: seq<string>, values: seq<string>): Doc
    requires |names| == |values|
  {
    if names == [] then [] else
      var k := |names| - 1;
      SnapshotDoc(names[..k], values[..k]) + if InSnapshot(names[k]) then [MakeElement(names[k], values[k])] else []
  }

  /** The initial event of a subscription, as sent. */
  function Snapshot(e: Engine): string
    requires |e.names| == |e.values|
  {
    Wire(Print(e.ns, SnapshotDoc(e.names, e.values)))
  }

  /** What a controller holds that joined at `joined` and has since heard every event. */
  function Joined(joined: Engine, now: Engine): map<string, string>
    requires |joined.names| == |joined.values| && joined.wire <= now.wire
  {
    Observe(joined.ns, map[], [Snapshot(joined)] + NewEvents(joined, now))
  }

  /** The variables a controller can rely on: in the snapshot and evented. */
  function Reported(e: Engine): set<nat>
    requires Valid(e)
  {
    set i | i in AllVariables(|e.names|) && InSnapshot(e.names[i]) && i !in e.ignored
  }

  lemma {:induction false} SnapshotDocNames(names: seq<string>, values: seq<string>)
    requires |names| == |values| && forall n :: n in names ==> IsName(n)
    ensures HasNames(SnapshotDoc(names, values))
    decreases |names|
  {
    if names != [] {
      SnapshotDocNames(names[..|names| - 1], values[..|names| - 1]);
    }
  }

  lemma {:induction false} SnapshotDocLists(names: seq<string>, values: seq<string>, i: nat)
    requires |names| == |values| && Distinct(names) && i < |names| && InSnapshot(names[i])
    ensures LastValue(SnapshotDoc(names, values), names[i]) == Some(values[i])
    decreases |names|
  {
    var k := |names| - 1;
    var own := if InSnapshot(names[k]) then [MakeElement(names[k], values[k])] else [];
    LastValueConcat(SnapshotDoc(names[..k], values[..k]), own, names[i]);
    if i < k {
      SnapshotDocLists(names[..k], values[..k], i);
    }
  }

  /** The snapshot lists a name exactly if it is a variable's, is not LastChange, and does not begin like
      the variables that only give arguments their types. */
  lemma {:induction false} SnapshotListsIff(names: seq<string>, values: seq<string>, n: string)
    requires |names| == |values|
    ensures LastValue(SnapshotDoc(names, values), n).Some? <==>
      n in names && n != "LastChange" && !(|n| >= 11 && n[..11] == "A_ARG_TYPE_")
    decreases |names|
  {
    if names != [] {
      var k := |names| - 1;
      SnapshotListsIff(names[..k], values[..k], n);
      InSnapshotIff(n);
      hide InSnapshot;
      assert names == names[..k] + [names[k]];
      var own := if InSnapshot(names[k]) then [MakeElement(names[k], values[k])] else [];
      LastValueConcat(SnapshotDoc(names[..k], values[..k]), own, n);
    }
  }

  lemma InSnapshotIff(n: string)
    ensures InSnapshot(n) <==> n != "LastChange" && !(|n| >= 11 && n[..11] == "A_ARG_TYPE_")
  {
  }

  lemma SnapshotHolds(e: Engine)
    requires Valid(e)
    ensures forall i :: i in Reported(e) ==> At(Observe(e.ns, map[], [Snapshot(e)]), e.names[i]) == Some(e.values[i])
  {
    var d := SnapshotDoc(e.names, e.values);
    SnapshotDocNames(e.names, e.values);
    ObserveOne(e.ns, map[], d);
    forall i | i in Reported(e)
      ensures At(Apply(map[], d), e.names[i]) == Some(e.values[i])
    {
      SnapshotDocLists(e.names, e.values, i);
      ApplyAt(map[], d, e.names[i]);
    }
  }

  // ---------------------------------------------------------------- what every run keeps

  /** The last document and the pending one never contradict the store. */
  ghost predicate Faithful(e: Engine)
    requires Valid(e)
  {
    forall i :: 0 <= i < |e.names| && i !in e.ignored ==>
      LastValue(LastDoc(e) + e.pending, e.names[i]) == None
      || LastValue(LastDoc(e) + e.pending, e.names[i]) == Some(e.values[i])
  }

  /** LastChange holds the text of a document. */
  ghost predicate Recorded(e: Engine)
    requires Valid(e)
  {
    e.values[e.lastChange] == Print(e.ns, LastDoc(e))
  }

  lemma NotifyKeepsFaithful(e: Engine)
    requires Valid(e.(open := 1)) && Faithful(e.(open := 1)) && Recorded(e.(open := 1))
    ensures Valid(Notify(e)) && Faithful(Notify(e)) && Recorded(Notify(e))
  {
    if e.open == 0 && e.pending != [] {
      NotifyEffect(e);
      forall i | 0 <= i < |e.names| && i !in e.ignored
        ensures LastValue(e.pending + [], e.names[i]) == None
             || LastValue(e.pending + [], e.names[i]) == Some(e.values[i])
      {
        assert e.pending + [] == e.pending;
        LastValueConcat(LastDoc(e), e.pending, e.names[i]);
      }
    } else {
      assert Notify(e) == e;
    }
  }

  lemma QueueKeepsFaithful(e: Engine, v: nat, value: string)
    requires Valid(e) && Faithful(e) && v < |e.names| && v !in e.ignored
    ensures var pending := e.pending + [ElementFor(e, v, value)];
      var queued := e.(values := e.values[v := value], pending := pending, open := 1);
      Valid(queued) && Faithful(queued)
  {
    var element := ElementFor(e, v, value);
    var queued := e.(values := e.values[v := value], pending := e.pending + [element], open := 1);
    assert LastDoc(queued) == LastDoc(e);
    forall i | 0 <= i < |e.names| && i !in e.ignored
      ensures LastValue(LastDoc(e) + queued.pending, e.names[i]) == None
           || LastValue(LastDoc(e) + queued.pending, e.names[i]) == Some(queued.values[i])
    {
      assert LastDoc(e) + queued.pending == LastDoc(e) + e.pending + [element];
      LastValueConcat(LastDoc(e) + e.pending, [element], e.names[i]);
      assert LastValue([element], e.names[i]) == if i == v then Some(value) else None;
    }
  }

  lemma StepKeepsFaithful(e: Engine, op: Op)
    requires Valid(e) && CanStep(e, op) && Faithful(e) && Recorded(e)
    ensures Faithful(Step(e, op)) && Recorded(Step(e, op))
  {
    match op
    case Change(v, value) =>
      if e.values[v] != value && v !in e.ignored {
        QueueKeepsFaithful(e, v, value);
        NotifyKeepsFaithful(e.(values := e.values[v := value], pending := e.pending + [ElementFor(e, v, value)]));
      }
    case Finish => NotifyKeepsFaithful(e.(open := e.open - 1));
    case _ =>
  }

  lemma {:induction false} RunKeepsFaithful(e: Engine, ops: seq<Op>)
    requires Valid(e) && CanRun(e, ops) && Faithful(e) && Recorded(e)
    ensures Faithful(Run(e, ops)) && Recorded(Run(e, ops))
    decreases |ops|
  {
    if ops != [] {
      StepKeepsFaithful(e, ops[0]);
      RunKeepsFaithful(Step(e, ops[0]), ops[1..]);
    }
  }

  lemma BuildFaithful(ns: string, names: seq<string>, values: seq<string>, lastChange: nat)
    requires ValidTable(names, values, lastChange) && |names| > 1
    ensures var e := Build(ns, names, values, lastChange); Faithful(e) && Recorded(e)
  {
    var d := InitialDoc(names, values, lastChange);
    var e := Build(ns, names, values, lastChange);
    InitialDocNames(names, values, lastChange);
    InitialDocListsAll(names, values, lastChange, if lastChange == 0 then 1 else 0);
    assert d != [];
    NotifyEffect(Engine(ns, names, values, lastChange, {lastChange}, 0, d, []));
    assert LastDoc(e) + e.pending == d;
    forall i | 0 <= i < |names| && i !in e.ignored
      ensures LastValue(d, names[i]) == Some(e.values[i])
    {
      InitialDocListsAll(names, values, lastChange, i);
    }
  }

  // ---------------------------------------------------------------- joining between transactions

  lemma JoinInStep(e: Engine, tracked: set<nat>)
    requires Valid(e) && Faithful(e) && e.pending == [] && tracked <= Reported(e)
    ensures InStep(e, Observe(e.ns, map[], [Snapshot(e)]), tracked)
  {
    SnapshotHolds(e);
    assert LastDoc(e) + e.pending == LastDoc(e);
  }

  lemma JoinedAgrees(joined: Engine, ops: seq<Op>)
    requires Valid(joined) && CanRun(joined, ops) && Run(joined, ops).open == 0
    requires InStep(joined, Observe(joined.ns, map[], [Snapshot(joined)]), Reported(Run(joined, ops)))
    ensures Agrees(Run(joined, ops), Joined(joined, Run(joined, ops)), Reported(Run(joined, ops)))
  {
    var now := Run(joined, ops);
    RunKeepsInStep(joined, ops, Observe(joined.ns, map[], [Snapshot(joined)]), Reported(now));
    ObserveConcat(joined.ns, map[], [Snapshot(joined)], NewEvents(joined, now));
  }

  /** Joining whenever no transaction is open is safe at every later quiet moment, even when
      later documents are suppressed as repeats of one sent before the controller joined. */
  lemma LateSubscriberAgrees(ns: string, names: seq<string>, values: seq<string>, lastChange: nat,
                             before: seq<Op>, after: seq<Op>)
    requires ValidTable(names, values, lastChange) && |names| > 1
    requires CanRun(Build(ns, names, values, lastChange), before)
    requires Run(Build(ns, names, values, lastChange), before).open == 0
    requires CanRun(Run(Build(ns, names, values, lastChange), before), after)
    ensures var joined := Run(Build(ns, names, values, lastChange), before);
      var now := Run(joined, after);
      now.open == 0 ==> Agrees(now, Joined(joined, now), Reported(now))
  {
    var e := Build(ns, names, values, lastChange);
    var joined := Run(e, before);
    var now := Run(joined, after);
    BuildFaithful(ns, names, values, lastChange);
    RunKeepsFaithful(e, before);
    if now.open == 0 {
      JoinInStep(joined, Reported(now));
      JoinedAgrees(joined, after);
    }
  }
}
