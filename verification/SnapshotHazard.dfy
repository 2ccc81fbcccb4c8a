/** Joining while a transaction is open: exactly when such a controller can be left stale. */
module SnapshotHazard {
  import opened Wrappers
  import opened LastChangeDocument
  import opened LastChangeEngine
  import opened LastChangeReplay
  import opened LateSubscriber

  function IndexOf(names: seq<string>, name: string): (r: nat)
    ensures r <= |names| && (r < |names| ==> names[r] == name)
    ensures forall k :: 0 <= k < r ==> names[k] != name
  {
    if names == [] || names[0] == name then 0 else 1 + IndexOf(names[1..], name)
  }

  lemma IndexOfDistinct(names: seq<string>, i: nat)
    requires Distinct(names) && i < |names|
    ensures IndexOf(names, names[i]) == i
  {
    var r := IndexOf(names, names[i]);
  }

  /** The store after writing the elements of `d` one by one. */
  function Written(e: Engine, d: Doc): Engine
    requires Valid(e)
    ensures Valid(Written(e, d).(open := 1)) && Written(e, d).names == e.names
  {
    if d == [] then e else
      var w := Written(e, d[..|d| - 1]);
      var v := IndexOf(e.names, d[|d| - 1].name);
      if v < |e.names| then w.(values := w.values[v := d[|d| - 1].value]) else w
  }

  /** Can the elements of `d` come up again, in order, as effective changes from here? */
  predicate CanRecur(e: Engine, d: Doc)
    requires Valid(e)
  {
    d == [] ||
    var front, last := d[..|d| - 1], d[|d| - 1];
    var v := IndexOf(e.names, last.name);
    && CanRecur(e, front)
    && v < |e.names| && v !in e.ignored
    && last == ElementFor(e, v, last.value)
    && Written(e, front).values[v] != last.value
  }

  lemma {:induction false} WrittenValue(e: Engine, d: Doc, i: nat)
    requires Valid(e) && i < |e.names|
    ensures var last := LastValue(d, e.names[i]);
      Written(e, d).values[i] == if last.Some? then last.value else e.values[i]
  {
    if d != [] {
      WrittenValue(e, d[..|d| - 1], i);
      IndexOfDistinct(e.names, i);
    }
  }

  /** What is pending is the beginning of the last document, the rest of that document can come
      up again, and doing so leaves some reported variable with another value than now. */
  predicate Hazard(e: Engine)
    requires Valid(e)
  {
    && e.pending <= LastDoc(e)
    && var rest := LastDoc(e)[|e.pending|..];
      && CanRecur(e, rest)
      && exists i :: i in Reported(e) && Written(e, rest).values[i] != e.values[i]
  }

  ghost predicate StaysStale(joined: Engine, ops: seq<Op>)
    requires Valid(joined)
  {
    && CanRun(joined, ops)
    && var now := Run(joined, ops);
       now.open == 0 && !Agrees(now, Joined(joined, now), Reported(now))
  }

  // ---------------------------------------------------------------- a hazard can strike

  function ChangesOf(e: Engine, d: Doc): seq<Op>
    requires Valid(e) && CanRecur(e, d)
  {
    if d == [] then [] else
      ChangesOf(e, d[..|d| - 1]) + [Change(IndexOf(e.names, d[|d| - 1].name), d[|d| - 1].value)]
  }

  lemma AppendLast(p: Doc, d: Doc)
    requires d != []
    ensures p + d == p + d[..|d| - 1] + [d[|d| - 1]]
  {
  }

  lemma {:induction false} Recur(e: Engine, d: Doc)
    requires Valid(e) && CanRecur(e, d) && e.open > 0
    ensures CanRun(e, ChangesOf(e, d))
    ensures Run(e, ChangesOf(e, d)) == Written(e, d).(pending := e.pending + d)
  {
    hide Print;
    if d == [] {
      assert e.pending + d == e.pending;
    } else {
      var front, last := d[..|d| - 1], d[|d| - 1];
      var v := IndexOf(e.names, last.name);
      Recur(e, front);
      var mid := Run(e, ChangesOf(e, front));
      WrittenFrame(e, front);
      assert CanRun(mid, [Change(v, last.value)]);
      assert [Change(v, last.value)][1..] == [];
      RunConcat(e, ChangesOf(e, front), [Change(v, last.value)]);
      AppendLast(e.pending, d);
    }
  }

  lemma {:induction false} WrittenFrame(e: Engine, d: Doc)
    requires Valid(e)
    ensures Written(e, d).(values := e.values) == e
    ensures CanRecur(e, d) ==> Written(e, d).values[e.lastChange] == e.values[e.lastChange]
  {
    if d != [] {
      WrittenFrame(e, d[..|d| - 1]);
    }
  }

  function Finishes(n: nat): seq<Op> {
    if n == 0 then [] else [Finish] + Finishes(n - 1)
  }

  lemma {:induction false} FinishAll(e: Engine)
    requires Valid(e) && e.open > 0
    ensures CanRun(e, Finishes(e.open)) && Run(e, Finishes(e.open)) == Notify(e.(open := 0))
    decreases e.open
  {
    var n := e.open;
    assert Finishes(n)[1..] == Finishes(n - 1);
    if n > 1 {
      FinishAll(e.(open := n - 1));
    } else {
      assert Finishes(0) == [];
    }
  }

  /** Writing the rest of the last document and closing all transactions sends nothing. */
  lemma RepeatIsDropped(e: Engine, rest: Doc) returns (ops: seq<Op>)
    requires Valid(e) && Recorded(e) && e.open > 0
    requires e.pending + rest == LastDoc(e) && CanRecur(e, rest)
    ensures CanRun(e, ops) && Run(e, ops) == Written(e, rest).(open := 0, pending := [])
  {
    Recur(e, rest);
    WrittenFrame(e, rest);
    var full := Run(e, ChangesOf(e, rest));
    FinishAll(full);
    ops := ChangesOf(e, rest) + Finishes(full.open);
    RunConcat(e, ChangesOf(e, rest), Finishes(full.open));
  }

  lemma HazardIsOpen(e: Engine, rest: Doc, i: nat)
    requires Valid(e) && Faithful(e) && i in Reported(e)
    requires e.pending + rest == LastDoc(e) && Written(e, rest).values[i] != e.values[i]
    ensures e.open > 0
  {
    WrittenValue(e, rest, i);
    assert [] + rest == rest && LastDoc(e) + [] == LastDoc(e);
  }

  /** With no event since the join and a reported variable moved, the controller is stale. */
  lemma SilentMoveIsStale(e: Engine, ops: seq<Op>, i: nat)
    requires Valid(e) && CanRun(e, ops) && i in Reported(e)
    requires var now := Run(e, ops);
      now.open == 0 && now.wire == e.wire && now.ignored == e.ignored && now.values[i] != e.values[i]
    ensures StaysStale(e, ops)
  {
    var now := Run(e, ops);
    assert [Snapshot(e)] + NewEvents(e, now) == [Snapshot(e)];
    SnapshotHolds(e);
    assert i in Reported(now);
  }

  lemma Completes(front: Doc, d: Doc)
    requires front <= d
    ensures front + d[|front|..] == d
  {
  }

  lemma HazardStrikes(e: Engine)
    requires Valid(e) && Faithful(e) && Recorded(e) && Hazard(e)
    ensures exists ops :: StaysStale(e, ops)
  {
    var rest := LastDoc(e)[|e.pending|..];
    var i :| i in Reported(e) && Written(e, rest).values[i] != e.values[i];
    Completes(e.pending, LastDoc(e));
    HazardIsOpen(e, rest, i);
    var ops := RepeatIsDropped(e, rest);
    WrittenFrame(e, rest);
    SilentMoveIsStale(e, ops, i);
  }

  // ---------------------------------------------------------------- without one, joining is safe

  /** Since the join nothing was sent or dropped; `q` is what has been queued since. */
  ghost predicate Waiting(joined: Engine, now: Engine, q: Doc)
    requires Valid(joined) && Valid(now)
  {
    && now.ns == joined.ns && now.names == joined.names && now.lastChange == joined.lastChange
    && joined.ignored <= now.ignored && now.wire == joined.wire
    && now.values[now.lastChange] == joined.values[joined.lastChange]
    && now.pending == joined.pending + q
    && CanRecur(joined, q)
    && forall i :: 0 <= i < |now.names| && i !in now.ignored ==> now.values[i] == Written(joined, q).values[i]
  }

  /** The first document sent or dropped after the join brings the controller in step. */
  lemma FlushAfterJoin(joined: Engine, now: Engine, q: Doc, tracked: set<nat>)
    requires Valid(joined) && Faithful(joined) && Recorded(joined) && !Hazard(joined)
    requires Valid(now.(open := 1)) && Waiting(joined, now.(open := 1), q)
    requires now.open == 0 && now.pending != []
    requires tracked <= Reported(now.(open := 1))
    ensures var r := Notify(now);
      && Valid(r) && joined.wire <= r.wire
      && InStep(r, Observe(joined.ns, Observe(joined.ns, map[], [Snapshot(joined)]), NewEvents(joined, r)), tracked)
  {
    hide Print, Read, Written;
    var snap := Observe(joined.ns, map[], [Snapshot(joined)]);
    var r := Notify(now);
    SnapshotHolds(joined);
    NotifyEffect(now);
    var sent := r.wire != now.wire;
    var seen := if sent then Apply(snap, now.pending) else snap;
    if sent {
      assert NewEvents(joined, r) == [Wire(Print(now.ns, now.pending))];
      ObserveOne(joined.ns, snap, now.pending);
    } else {
      assert NewEvents(joined, r) == [];
      ReadPrint(now.ns, now.pending);
      assert LastDoc(joined) == now.pending;
      assert LastDoc(joined)[|joined.pending|..] == q;
    }
    forall i | i in tracked
      ensures At(Apply(seen, []), now.names[i]) == Some(r.values[i])
      ensures LastValue(now.pending, now.names[i]) == None
           || LastValue(now.pending, now.names[i]) == At(seen, now.names[i])
    {
      var n := now.names[i];
      assert i in Reported(joined);
      WrittenValue(joined, q, i);
      LastValueConcat(joined.pending, q, n);
      LastValueConcat(LastDoc(joined), joined.pending, n);
      ApplyAt(snap, now.pending, n);
    }
  }

  lemma QueueWhileWaiting(joined: Engine, now: Engine, q: Doc, v: nat, value: string)
    requires Valid(joined) && Valid(now) && Waiting(joined, now, q)
    requires v < |now.names| && v !in now.ignored && now.values[v] != value
    ensures var element := ElementFor(now, v, value);
      var queued := now.(values := now.values[v := value], pending := now.pending + [element], open := 1);
      Valid(queued) && Waiting(joined, queued, q + [element])
  {
    var element := ElementFor(now, v, value);
    var queued := now.(values := now.values[v := value], pending := now.pending + [element], open := 1);
    IndexOfDistinct(joined.names, v);
    assert (q + [element])[..|q|] == q;
    assert queued.pending == joined.pending + (q + [element]);
  }

  lemma {:induction false} RunWhileWaiting(joined: Engine, now: Engine, q: Doc, ops: seq<Op>)
    requires Valid(joined) && Faithful(joined) && Recorded(joined) && !Hazard(joined)
    requires Valid(now) && Waiting(joined, now, q) && CanRun(now, ops) && Run(now, ops).open == 0
    ensures Agrees(Run(now, ops), Joined(joined, Run(now, ops)), Reported(Run(now, ops)))
    decreases |ops|
  {
    hide Print, Read;
    var end := Run(now, ops);
    if ops == [] {
      assert q == [];
      SnapshotHolds(joined);
      assert [Snapshot(joined)] + NewEvents(joined, end) == [Snapshot(joined)];
    } else {
      var next := Step(now, ops[0]);
      match ops[0]
      case Change(v, value) =>
        if now.values[v] != value && v !in now.ignored {
          QueueWhileWaiting(joined, now, q, v, value);
          var element := ElementFor(now, v, value);
          var queued := now.(values := now.values[v := value], pending := now.pending + [element]);
          ContinueAfter(joined, queued, q + [element], ops);
        } else {
          RunWhileWaiting(joined, next, q, ops[1..]);
        }
      case Finish => ContinueAfter(joined, now.(open := now.open - 1), q, ops);
      case _ => RunWhileWaiting(joined, next, q, ops[1..]);
    }
  }

  lemma EventsCompose(joined: Engine, next: Engine, end: Engine)
    requires |joined.names| == |joined.values| && joined.wire <= next.wire <= end.wire
    ensures joined.wire <= end.wire
    ensures Joined(joined, end)
         == Observe(joined.ns,
                    Observe(joined.ns, Observe(joined.ns, map[], [Snapshot(joined)]), NewEvents(joined, next)),
                    NewEvents(next, end))
  {
    hide Observe;
    var snap := Observe(joined.ns, map[], [Snapshot(joined)]);
    ObserveConcat(joined.ns, snap, NewEvents(joined, next), NewEvents(next, end));
    assert NewEvents(joined, end) == NewEvents(joined, next) + NewEvents(next, end);
    ObserveConcat(joined.ns, map[], [Snapshot(joined)], NewEvents(joined, end));
  }

  lemma RunAfterFlush(joined: Engine, next: Engine, seen: map<string, string>, ops: seq<Op>)
    requires Valid(joined) && Valid(next) && joined.wire <= next.wire && joined.ns == next.ns
    requires seen == Observe(joined.ns, Observe(joined.ns, map[], [Snapshot(joined)]), NewEvents(joined, next))
    requires CanRun(next, ops) && Run(next, ops).open == 0 && InStep(next, seen, Reported(Run(next, ops)))
    ensures var end := Run(next, ops);
      joined.wire <= end.wire && Agrees(end, Joined(joined, end), Reported(end))
  {
    RunKeepsInStep(next, ops, seen, Reported(Run(next, ops)));
    EventsCompose(joined, next, Run(next, ops));
  }

  lemma ContinueAfter(joined: Engine, ready: Engine, q: Doc, ops: seq<Op>)
    requires Valid(joined) && Faithful(joined) && Recorded(joined) && !Hazard(joined)
    requires Valid(ready.(open := 1)) && Waiting(joined, ready.(open := 1), q)
    requires ops != [] && Valid(Notify(ready)) && CanRun(Notify(ready), ops[1..])
    requires Run(Notify(ready), ops[1..]).open == 0
    ensures var end := Run(Notify(ready), ops[1..]);
      joined.wire <= end.wire && Agrees(end, Joined(joined, end), Reported(end))
    decreases |ops|, 0
  {
    hide Print, Read;
    if ready.open == 0 && ready.pending != [] {
      var next := Notify(ready);
      FlushAfterJoin(joined, ready, q, Reported(Run(next, ops[1..])));
      var seen := Observe(joined.ns, Observe(joined.ns, map[], [Snapshot(joined)]), NewEvents(joined, next));
      RunAfterFlush(joined, next, seen, ops[1..]);
    } else {
      RunWhileWaiting(joined, Notify(ready), q, ops[1..]);
    }
  }

  /** A controller can be left stale exactly if it joins in a hazard. */
  lemma StaleIffHazard(e: Engine)
    requires Valid(e) && Faithful(e) && Recorded(e)
    ensures (exists ops :: StaysStale(e, ops)) <==> Hazard(e)
  {
    if Hazard(e) {
      HazardStrikes(e);
    } else {
      forall ops | CanRun(e, ops) && Run(e, ops).open == 0
        ensures !StaysStale(e, ops)
      {
        assert e.pending == e.pending + [];
        RunWhileWaiting(e, e, [], ops);
      }
    }
  }

  /** Hazards are real: from every quiet state, each reported variable can be driven into one by
      changing it there and back in one transaction and joining within the next. */
  lemma HazardReachable(e: Engine, v: nat, other: string)
    requires Valid(e) && Faithful(e) && Recorded(e) && e.open == 0
    requires v in Reported(e) && other != e.values[v]
    ensures var ops := [Start, Change(v, other), Change(v, e.values[v]), Finish, Start, Change(v, other)];
      && CanRun(e, ops) && Hazard(Run(e, ops))
      && exists later :: StaysStale(Run(e, ops), later)
  {
    var first, second := [Start, Change(v, other), Change(v, e.values[v]), Finish], [Start, Change(v, other)];
    var ops := [Start, Change(v, other), Change(v, e.values[v]), Finish, Start, Change(v, other)];
    ThereAndBack(e, v, other);
    var mid := Run(e, first);
    ThereAgain(mid, v, other, e.values[v]);
    FourAndTwo(first[0], first[1], first[2], first[3], second[0], second[1]);
    RunConcat(e, first, second);
    RunKeepsFaithful(e, ops);
    StaleIffHazard(Run(e, ops));
  }

  lemma FourAndTwo<T>(a: T, b: T, c: T, d: T, e: T, f: T)
    ensures [a, b, c, d] + [e, f] == [a, b, c, d, e, f]
  {
  }

  lemma ThereAndBack(e: Engine, v: nat, other: string)
    requires Valid(e) && e.open == 0 && v in Reported(e) && other != e.values[v]
    ensures var ops := [Start, Change(v, other), Change(v, e.values[v]), Finish];
      && CanRun(e, ops)
      && var r := Run(e, ops);
        r.open == 0 && r.ignored == e.ignored && r.values[v] == e.values[v]
        && LastDoc(r) == [ElementFor(e, v, other), ElementFor(e, v, e.values[v])]
  {
    hide Print, Read, LastDoc;
    var there, back := ElementFor(e, v, other), ElementFor(e, v, e.values[v]);
    var e1 := Step(e, Start);
    var e2 := Step(e1, Change(v, other));
    assert e.values[v := other][v := e.values[v]] == e.values;
    assert [] + [there] + [back] == [there, back];
    var e3 := e1.(pending := [there, back]);
    NotifyEffect(e3.(open := 0));
    var r := Step(e3, Finish);
    assert e3 == Step(e2, Change(v, e.values[v]));
    RunFour(e, Start, Change(v, other), Change(v, e.values[v]), Finish);
  }

  lemma StartAndChange(e: Engine, v: nat, other: string)
    requires Valid(e) && e.open == 0 && v in Reported(e) && e.values[v] != other
    ensures var ops := [Start, Change(v, other)];
      && CanRun(e, ops)
      && Run(e, ops) == e.(open := 1, values := e.values[v := other], pending := [ElementFor(e, v, other)])
  {
    hide Print;
    assert [] + [ElementFor(e, v, other)] == [ElementFor(e, v, other)];
    RunFirst(Step(e, Start), Change(v, other), []);
    RunFirst(e, Start, [Change(v, other)] + []);
    assert [Start, Change(v, other)] == [Start] + ([Change(v, other)] + []);
  }

  lemma HalfWritten(e: Engine, v: nat, other: string, back: string)
    requires Valid(e) && v in Reported(e) && e.values[v] == other != back
    requires e.pending == [ElementFor(e, v, other)] && LastDoc(e) == [ElementFor(e, v, other), ElementFor(e, v, back)]
    ensures Hazard(e)
  {
    hide LastDoc;
    var rest := LastDoc(e)[|e.pending|..];
    assert LastDoc(e)[..1] == e.pending && rest == [ElementFor(e, v, back)] && rest[..0] == [];
    IndexOfDistinct(e.names, v);
    assert CanRecur(e, rest[..0]) && CanRecur(e, rest);
    assert v in Reported(e) && Written(e, rest).values[v] != e.values[v];
  }

  lemma ThereAgain(e: Engine, v: nat, other: string, back: string)
    requires Valid(e) && e.open == 0 && v in Reported(e) && e.values[v] == back && other != back
    requires LastDoc(e) == [ElementFor(e, v, other), ElementFor(e, v, back)]
    ensures CanRun(e, [Start, Change(v, other)]) && Hazard(Run(e, [Start, Change(v, other)]))
  {
    hide Read, Run, CanRun, Hazard;
    StartAndChange(e, v, other);
    HalfWritten(Run(e, [Start, Change(v, other)]), v, other, back);
  }
}
