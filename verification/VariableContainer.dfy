/** The objects of src/variable-container.c: the variable store with its listeners, the document
    builder, and the collector that listens to the store and writes LastChange back into it.
    Every method is specified by the state functions of LastChangeEngine. */
module VariableContainer {
  import opened Wrappers
  import opened LastChangeDocument
  import opened VariableMeta
  import opened IgnoreMask
  import E = LastChangeEngine
  import XmlEscape

  // ---------------------------------------------------------------- listeners

  /** A registered callback: the collector, or a listener that does not write the store. */
  datatype Listener = Collecting(collector: LastChangeCollector) | Passive(id: nat)

  datatype Delivery = Delivery(listener: nat, v: nat, oldValue: string, newValue: string)

  /** What the passive listeners of a list are told about one change. */
  ghost function Tell(listeners: seq<Listener>, v: nat, oldValue: string, newValue: string): seq<Delivery> {
    if listeners == [] then [] else
      var l := listeners[|listeners| - 1];
      Tell(listeners[..|listeners| - 1], v, oldValue, newValue)
      + if l.Passive? then [Delivery(l.id, v, oldValue, newValue)] else []
  }

  /** The calls made by one change up to listener `it`, in order: the listeners before the
      collector, then, if LastChange moved, all listeners for that nested change, then the rest. */
  ghost function CallsUpTo(listeners: seq<Listener>, position: nat, it: nat,
                           before: E.Engine, v: nat, after: E.Engine): seq<Delivery>
    requires v < |before.values| == |after.values| && before.lastChange < |before.values| && position <= |listeners|
    requires it <= |listeners|
  {
    var lc := before.lastChange;
    var was, now := before.values[v], after.values[v];
    if was == now then []
    else if it <= position then Tell(listeners[..it], v, was, now)
    else
      Tell(listeners[..position], v, was, now)
      + (if v == lc then [] else LastChangeCalls(listeners, before, after))
      + Tell(listeners[position..it], v, was, now)
  }

  ghost function Calls(listeners: seq<Listener>, position: nat,
                       before: E.Engine, v: nat, after: E.Engine): seq<Delivery>
    requires v < |before.values| == |after.values| && before.lastChange < |before.values| && position <= |listeners|
  {
    CallsUpTo(listeners, position, |listeners|, before, v, after)
  }

  lemma CallsStep(listeners: seq<Listener>, position: nat, it: nat,
                  before: E.Engine, v: nat, stored: E.Engine, after: E.Engine)
    requires v < |before.values| == |stored.values| == |after.values| && position <= |listeners| && it < |listeners|
    requires before.lastChange == stored.lastChange < |before.values| && before.values[v] != after.values[v]
    requires listeners[it].Collecting? <==> it == position
    requires v == before.lastChange ==> after == stored
    requires v != before.lastChange ==> stored.values[before.lastChange] == before.values[before.lastChange]
    ensures CallsUpTo(listeners, position, it + 1, before, v, after)
         == CallsUpTo(listeners, position, it, before, v, after)
          + if it == position then LastChangeCalls(listeners, stored, after)
            else [Delivery(listeners[it].id, v, before.values[v], after.values[v])]
  {
    if it < position {
      assert listeners[..it + 1][..it] == listeners[..it];
    } else {
      assert listeners[position..it + 1][..it - position] == listeners[position..it];
      assert Tell(listeners[position..position], v, before.values[v], after.values[v]) == [];
    }
  }

  /** For LastChange itself, and before a collector listens, the calls are simply all listeners. */
  lemma CallsOfLastChange(listeners: seq<Listener>, position: nat, before: E.Engine, v: nat, after: E.Engine)
    requires before.lastChange < |before.values| == |after.values| && position <= |listeners| && v < |before.values|
    requires v == before.lastChange || position == |listeners|
    ensures Calls(listeners, position, before, v, after)
         == if before.values[v] == after.values[v] then [] else Tell(listeners, v, before.values[v], after.values[v])
  {
    hide LastChangeCalls, Tell;
    var a, b := listeners[..position], listeners[position..];
    TellConcat(a, b, v, before.values[v], after.values[v]);
    assert a + b == listeners && listeners[..|listeners|] == listeners && listeners[position..|listeners|] == b;
  }

  lemma {:induction false} TellConcat(a: seq<Listener>, b: seq<Listener>, v: nat, oldValue: string, newValue: string)
    ensures Tell(a + b, v, oldValue, newValue) == Tell(a, v, oldValue, newValue) + Tell(b, v, oldValue, newValue)
  {
    if b == [] {
      assert a + b == a;
    } else {
      assert (a + b)[..|a + b| - 1] == a + b[..|b| - 1];
      TellConcat(a, b[..|b| - 1], v, oldValue, newValue);
    }
  }

  /** The collector's answer to a change already stored. */
  ghost function Respond(e: E.Engine, v: nat): E.Engine
    requires E.Valid(e) && v < |e.names|
  {
    if v in e.ignored then e else E.Notify(e.(pending := e.pending + [E.ElementFor(e, v, e.values[v])]))
  }

  lemma SetValueResponds(before: E.Engine, v: nat, text: string)
    requires E.Valid(before) && v < |before.names| && before.values[v] != text
    ensures var stored, target := before.(values := before.values[v := text]), E.SetValue(before, v, text);
      && E.Valid(stored) && target == Respond(stored, v)
      && target.values[v] == text && |target.values| == |before.values|
      && (v != before.lastChange ==> stored.values[before.lastChange] == before.values[before.lastChange])
      && (v == before.lastChange ==> target == stored)
      && target.lastChange == before.lastChange
  {
  }

  /** The event text becomes LastChange and goes out, unless LastChange already holds it. */
  ghost function Published(e: E.Engine, text: string): E.Engine
    requires e.lastChange < |e.values|
  {
    if text == e.values[e.lastChange] then e
    else e.(values := e.values[e.lastChange := text], wire := e.wire + [Wire(text)])
  }

  ghost function LastChangeCalls(listeners: seq<Listener>, before: E.Engine, after: E.Engine): seq<Delivery>
    requires before.lastChange < |before.values| == |after.values|
  {
    var lc := before.lastChange;
    if before.values[lc] == after.values[lc] then [] else Tell(listeners, lc, before.values[lc], after.values[lc])
  }

  /** A change from `before` by way of `stored` to `target`, seen from one listener list. */
  datatype Wave = Wave(listeners: seq<Listener>, position: nat, v: nat,
                       before: E.Engine, stored: E.Engine, target: E.Engine)

  ghost predicate IsWave(w: Wave) {
    && w.v < |w.before.values| == |w.stored.values| == |w.target.values| && w.position <= |w.listeners|
    && w.before.lastChange == w.stored.lastChange < |w.before.values| && w.before.values[w.v] != w.target.values[w.v]
    && (if w.v == w.before.lastChange then w.target == w.stored
        else w.stored.values[w.before.lastChange] == w.before.values[w.before.lastChange])
  }

  /** All listeners before `it` have been called. */
  ghost predicate Told(w: Wave, it: nat, told: seq<Delivery>, view: E.Engine, delivered: seq<Delivery>)
    requires IsWave(w)
  {
    && it <= |w.listeners|
    && view == (if it <= w.position then w.stored else w.target)
    && delivered == told + CallsUpTo(w.listeners, w.position, it, w.before, w.v, w.target)
  }

  lemma Advance(w: Wave, it: nat, told: seq<Delivery>, delivered: seq<Delivery>, nextDelivered: seq<Delivery>)
    requires IsWave(w) && it < |w.listeners| && (w.listeners[it].Collecting? <==> it == w.position)
    requires delivered == told + CallsUpTo(w.listeners, w.position, it, w.before, w.v, w.target)
    requires nextDelivered == delivered +
      if it == w.position then LastChangeCalls(w.listeners, w.stored, w.target)
      else [Delivery(w.listeners[it].id, w.v, w.before.values[w.v], w.target.values[w.v])]
    ensures nextDelivered == told + CallsUpTo(w.listeners, w.position, it + 1, w.before, w.v, w.target)
  {
    hide CallsUpTo, LastChangeCalls;
    CallsStep(w.listeners, w.position, it, w.before, w.v, w.stored, w.target);
  }

  function Passives(listeners: seq<Listener>): nat {
    if listeners == [] then 0
    else Passives(listeners[..|listeners| - 1]) + if listeners[|listeners| - 1].Passive? then 1 else 0
  }

  lemma {:induction false} TellOnce(listeners: seq<Listener>, v: nat, oldValue: string, newValue: string)
    ensures |Tell(listeners, v, oldValue, newValue)| == Passives(listeners)
    ensures forall c :: c in Tell(listeners, v, oldValue, newValue) ==>
      c.v == v && c.oldValue == oldValue && c.newValue == newValue
  {
    if listeners != [] {
      TellOnce(listeners[..|listeners| - 1], v, oldValue, newValue);
    }
  }

  lemma {:induction false} PassivesConcat(a: seq<Listener>, b: seq<Listener>)
    ensures Passives(a + b) == Passives(a) + Passives(b)
  {
    if b == [] {
      assert a + b == a;
    } else {
      assert (a + b)[..|a + b| - 1] == a + b[..|b| - 1];
      PassivesConcat(a, b[..|b| - 1]);
    }
  }

  /** Re-entrancy is one level deep: every listener hears of the change once and of at most one
      nested change, which is always LastChange. */
  lemma CallsAreShallow(listeners: seq<Listener>, position: nat, before: E.Engine, v: nat, text: string)
    requires E.Valid(before) && v < |before.names| && v != before.lastChange && position <= |listeners|
    requires before.values[v] != text
    ensures var after := E.SetValue(before, v, text);
      var calls := Calls(listeners, position, before, v, after);
      var nested := position < |listeners| && after.values[before.lastChange] != before.values[before.lastChange];
      && |calls| == Passives(listeners) * (if nested then 2 else 1)
      && (forall c :: c in calls ==> c.v == v || (nested && c.v == before.lastChange))
      && (nested <==> position < |listeners| && after.wire != before.wire)
  {
    var after, lc := E.SetValue(before, v, text), before.lastChange;
    var a, b := listeners[..position], listeners[position..];
    assert a + b == listeners && listeners[..|listeners|] == listeners && listeners[position..|listeners|] == b;
    PassivesConcat(a, b);
    TellOnce(listeners, v, before.values[v], after.values[v]);
    TellOnce(a, v, before.values[v], after.values[v]);
    TellOnce(b, v, before.values[v], after.values[v]);
    TellOnce(listeners, lc, before.values[lc], after.values[lc]);
  }

  // ---------------------------------------------------------------- builder

  class LastChangeBuilder {
    const ns: string
    var doc: Option<Doc>

    ghost predicate Valid()
      reads this
    {
      doc.Some? ==> doc.value != []
    }

    ghost function Pending(): Doc
      reads this
    {
      if doc.Some? then doc.value else []
    }

    constructor (ns: string)
      ensures Valid() && Pending() == [] && this.ns == ns
    {
      this.ns := ns;
      doc := None;
    }

    method Add(name: string, value: string)
      modifies this
      ensures Valid() && Pending() == old(Pending()) + [MakeElement(name, value)]
    {
      if doc == None {
        doc := Some([]);
      }
      doc := Some(doc.value + [MakeElement(name, value)]);
    }

    method ToXml() returns (xml: Option<string>)
      requires Valid()
      modifies this
      ensures Valid() && Pending() == []
      ensures xml == if old(Pending()) == [] then None else Some(Print(ns, old(Pending())))
    {
      if doc == None {
        return None;
      }
      xml := Some(Print(ns, doc.value));
      doc := None;
    }
  }

  /** The UPnP stack as one service sees it: the event values it was asked to send. */
  class UpnpDevice {
    var notified: seq<string>

    constructor ()
      ensures notified == []
    {
      notified := [];
    }

    method Notify(value: string)
      modifies this
      ensures notified == old(notified) + [value]
    {
      notified := notified + [value];
    }
  }

  // ---------------------------------------------------------------- store

  /** A NULL value counts as the empty string. */
  function Text(value: Option<string>): string {
    if value.Some? then value.value else ""
  }

  class VariableContainer {
    const vars: seq<VarMeta>
    const values: array<string>
    var callbacks: seq<Listener>
    ghost var collector: LastChangeCollector?
    ghost var position: nat
    ghost var delivered: seq<Delivery>

    ghost function Names(): (r: seq<string>)
      ensures |r| == |vars| && forall i :: 0 <= i < |vars| ==> r[i] == vars[i].name
    {
      seq(|vars|, i requires 0 <= i < |vars| => vars[i].name)
    }

    /** The store itself: distinct element names, and at most one collecting listener. */
    ghost predicate Core()
      reads this
    {
      && values.Length == |vars| > 0
      && E.Distinct(Names()) && (forall n :: n in Names() ==> IsName(n))
      && (if collector == null then position == |callbacks|
          else position < |callbacks| && callbacks[position] == Collecting(collector))
      && (forall i :: 0 <= i < |callbacks| && callbacks[i].Collecting? ==> collector != null && i == position)
    }

    ghost function Parts(): set<object>
      reads this
    {
      if collector == null then {this, values}
      else {this, values, collector, collector.container, collector.container.values,
            collector.builder, collector.device}
    }

    ghost predicate Valid()
      reads this, Parts()
    {
      && Core()
      && (collector != null ==> collector.container == this && collector.Wf() && E.Valid(collector.Abs()))
    }

    /** The engine state. Before a collector is installed nothing is evented, that is, every
        variable counts as ignored. */
    ghost function View(): (r: E.Engine)
      requires Valid()
      reads this, Parts()
      ensures E.Valid(r) && r.names == Names() && r.values == values[..]
    {
      if collector != null then collector.Abs()
      else E.Engine("", Names(), values[..], 0, E.AllVariables(|vars|), 1, [], [])
    }

    constructor (rows: seq<VarMeta>)
      requires rows != [] && IdsAreIndices(rows)
      requires forall i, j :: 0 <= i < j < |rows| ==> rows[i].name != rows[j].name
      requires forall r :: r in rows ==> IsName(r.name)
      ensures Valid() && collector == null && callbacks == [] && fresh(values)
      ensures |vars| == |rows| && forall i :: 0 <= i < |rows| ==> vars[i].id == i && vars[i] in rows
      ensures forall i :: 0 <= i < |rows| ==> values[i] == vars[i].defaultValue
    {
      var sorted := CreateSortedMeta(rows);
      SortedMetaIsIndexed(rows);
      vars := sorted;
      values := new string[|sorted|];
      callbacks := [];
      collector := null;
      position := 0;
      delivered := [];
      new;
      var i := 0;
      while i < |vars|
        modifies values
        invariant 0 <= i <= |vars|
        invariant forall k :: 0 <= k < i ==> values[k] == vars[k].defaultValue
      {
        assert vars[i].id == i;
        values[i] := vars[i].defaultValue;
        i := i + 1;
      }
      forall i, j | 0 <= i < j < |vars|
        ensures vars[i].name != vars[j].name
      {
        assert vars[i] in rows && vars[j] in rows;
        var k :| 0 <= k < |rows| && rows[k] == vars[i];
        var l :| 0 <= l < |rows| && rows[l] == vars[j];
      }
    }

    method Get(v: int) returns (value: Option<string>, name: Option<string>)
      requires Core()
      ensures 0 <= v < |vars| ==> value == Some(values[v]) && name == Some(vars[v].name)
      ensures !(0 <= v < |vars|) ==> value == None && name == None
    {
      if v < 0 || v >= |vars| {
        return None, None;
      }
      return Some(values[v]), Some(vars[v].name);
    }

    /** Stores a value and, if it differs, calls every listener. The collector may answer by
        writing LastChange, which calls every listener once more and goes no deeper. */
    method Change(v: nat, value: Option<string>) returns (changed: bool)
      requires Valid() && v < |vars|
      modifies values, `delivered, if collector == null then {} else {collector.builder, collector.device}
      ensures Valid()
      ensures changed <==> old(values[v]) != Text(value)
      ensures View() == E.SetValue(old(View()), v, Text(value))
      ensures delivered == old(delivered) + Calls(callbacks, position, old(View()), v, View())
      decreases if collector == null || v == collector.lastChange then 2 else 8
    {
      hide E.Notify;
      var text := Text(value);
      if text == values[v] {
        return false;
      }
      ghost var before := View();
      ghost var w := Wave(callbacks, position, v, before, before.(values := before.values[v := text]),
                          E.SetValue(before, v, text));
      SetValueResponds(before, v, text);
      var oldValue := values[v];
      values[v] := text;
      assert values[..] == w.stored.values;
      CallListeners(v, oldValue, text, delivered, w);
      return true;
    }

    method CallListeners(v: nat, oldValue: string, text: string, ghost told: seq<Delivery>, ghost w: Wave)
      requires Reached(0, v, oldValue, text, told, w)
      modifies values, `delivered, if collector == null then {} else {collector.builder, collector.device}
      ensures Reached(|callbacks|, v, oldValue, text, told, w)
      decreases if collector == null || v == collector.lastChange then 1 else 7, 2
    {
      hide Reached;
      var listeners := callbacks;
      for it := 0 to |listeners|
        invariant callbacks == listeners && Reached(it, v, oldValue, text, told, w)
      {
        InvokeNext(it, v, oldValue, text, told, w);
      }
    }

    /** The listeners before `it` have been called for wave `w`. */
    ghost predicate Reached(it: nat, v: nat, oldValue: string, text: string, told: seq<Delivery>, w: Wave)
      reads this, Parts()
    {
      && Valid() && IsWave(w) && Told(w, it, told, View(), delivered)
      && w.listeners == callbacks && w.position == position && w.v == v < |vars| == values.Length
      && E.Valid(w.stored) && v < |w.stored.names| && w.target == Respond(w.stored, v)
      && oldValue == w.before.values[v] && text == values[v] == w.target.values[v]
    }

    method InvokeNext(it: nat, v: nat, oldValue: string, text: string, ghost told: seq<Delivery>, ghost w: Wave)
      requires Reached(it, v, oldValue, text, told, w) && it < |callbacks|
      modifies values, `delivered, if collector == null then {} else {collector.builder, collector.device}
      ensures Reached(it + 1, v, oldValue, text, told, w)
      decreases if collector == null || v == collector.lastChange then 1 else 7, 1
    {
      ghost var toldSoFar := delivered;
      Invoke(callbacks[it], v, oldValue, text);
      Advance(w, it, told, toldSoFar, delivered);
    }

    /** The call through a listener's function pointer. */
    method Invoke(listener: Listener, v: nat, oldValue: string, newValue: string)
      requires Valid() && v < |vars| && newValue == values[v]
      requires listener.Collecting? ==> listener.collector == collector
      modifies values, `delivered, if collector == null then {} else {collector.builder, collector.device}
      ensures Valid()
      ensures listener.Passive? ==>
        View() == old(View()) && delivered == old(delivered) + [Delivery(listener.id, v, oldValue, newValue)]
      ensures listener.Collecting? ==>
        && View() == Respond(old(View()), v)
        && delivered == old(delivered) + LastChangeCalls(callbacks, old(View()), View())
      decreases if collector == null || v == collector.lastChange then 1 else 7, 0
    {
      match listener
      case Collecting(c) => c.Callback(v, vars[v].name, newValue);
      case Passive(id) => delivered := delivered + [Delivery(id, v, oldValue, newValue)];
    }

    method Register(listener: Listener)
      requires Core() && (listener.Collecting? ==> collector == null)
      modifies `callbacks, `collector, `position
      ensures Core() && callbacks == [listener] + old(callbacks)
      ensures collector == if listener.Collecting? then listener.collector else old(collector)
    {
      callbacks := [listener] + callbacks;
      if listener.Collecting? {
        collector, position := listener.collector, 0;
      } else {
        position := position + 1;
      }
    }
  }

  class LastChangeCollector {
    const container: VariableContainer
    const ns: string
    const device: UpnpDevice
    const builder: LastChangeBuilder
    var lastChange: nat
    var notEventable: uint32
    var openTransactions: nat

    ghost predicate Wf()
      reads this, container, container.values, builder, device
    {
      && container.Core() && builder.Valid() && builder.ns == ns
      && |container.vars| < 32 && lastChange < |container.vars| && lastChange in Bits(notEventable)
      && (container.collector == null || container.collector == this)
    }

    ghost function Abs(): E.Engine
      requires Wf()
      reads this, container, container.values, builder, device
    {
      E.Engine(ns, container.Names(), container.values[..], lastChange, Bits(notEventable), openTransactions,
               builder.Pending(), device.notified)
    }

    /** Builds the initial document of all variables, sends it, and starts listening. */
    constructor (container: VariableContainer, ns: string, device: UpnpDevice)
      requires container.Valid() && container.collector == null && |container.vars| < 32
      requires exists i :: 0 <= i < |container.vars| && container.vars[i].name == "LastChange"
      requires device.notified == []
      modifies container`callbacks, container`collector, container`position, container`delivered
      modifies container.values, device
      ensures Wf() && this.container == container && this.device == device && this.ns == ns && fresh(builder)
      ensures container.Valid() && container.collector == this
      ensures container.callbacks == [Collecting(this)] + old(container.callbacks)
      ensures container.vars[lastChange].name == "LastChange"
      ensures E.ValidTable(container.Names(), old(container.values[..]), lastChange)
      ensures Abs() == E.Build(ns, container.Names(), old(container.values[..]), lastChange)
    {
      this.container := container;
      this.ns := ns;
      this.device := device;
      notEventable := 0;
      openTransactions := 0;
      builder := new LastChangeBuilder(ns);
      lastChange := 0;
      new;
      hide E.Notify, E.Unannounced, E.InitialDoc, Bits, Calls, CallsUpTo, LastChangeCalls;
      ghost var lc: nat :| lc < |container.vars| && container.vars[lc].name == "LastChange";
      CollectInitial(lc);
      Notify();
      container.Register(Collecting(this));
    }

    /** Adds every variable but LastChange to the builder and excludes that one from eventing. */
    method CollectInitial(ghost lc: nat)
      requires container.Valid() && container.collector == null && |container.vars| < 32
      requires lc < |container.vars| && container.vars[lc].name == "LastChange"
      requires builder.Valid() && builder.ns == ns && builder.Pending() == []
      requires notEventable == 0 && openTransactions == 0 && device.notified == []
      modifies builder, `lastChange, `notEventable
      ensures Wf() && lastChange == lc
      ensures Abs() == E.Unannounced(ns, container.Names(), container.values[..], lc)
      ensures HasNames(builder.Pending())
    {
      hide E.InitialDoc, Bits, Calls;
      ghost var names, values := container.Names(), container.values[..];
      var i := 0;
      E.NoInitialDoc(names, values, lc);
      while i < |container.vars|
        modifies builder, `lastChange
        invariant 0 <= i <= |names|
        invariant builder.Valid() && builder.Pending() == E.InitialDoc(names[..i], values[..i], lc)
        invariant lc < i ==> lastChange == lc
      {
        var value, name := container.Get(i);
        E.InitialDocStep(names, values, lc, i);
        if name.value == "LastChange" {
          lastChange := i;
        } else {
          builder.Add(name.value, value.value);
        }
        i := i + 1;
      }
      assert names[..|names|] == names && values[..|names|] == values;
      NoBits();
      AddIgnore(lastChange);
      E.InitialDocNames(names, values, lc);
    }

    method AddIgnore(v: nat)
      requires v < 32
      modifies `notEventable
      ensures Bits(notEventable) == old(Bits(notEventable)) + {v}
    {
      WordBound();
      OrBitFits(notEventable, v, 32);
      OrBitAddsIndex(notEventable, v);
      notEventable := OrBit(notEventable, v);
    }

    method Start()
      requires container.Valid() && container.collector == this
      modifies `openTransactions
      ensures container.Valid() && Abs() == E.Step(old(Abs()), E.Start)
    {
      openTransactions := openTransactions + 1;
    }

    method Finish()
      requires container.Valid() && container.collector == this && openTransactions >= 1
      modifies `openTransactions, container.values, container`delivered, builder, device
      ensures container.Valid() && Abs() == E.Step(old(Abs()), E.Finish)
    {
      openTransactions := openTransactions - 1;
      Notify();
    }

    /** Sends the pending document when no transaction is open, unless LastChange already holds it. */
    method Notify()
      requires Wf() && E.Valid(Abs().(open := 1))
      modifies container.values, container`delivered, builder, device
      ensures Wf() && E.Valid(Abs()) && Abs() == E.Notify(old(Abs()))
      ensures container.delivered == old(container.delivered) + LastChangeCalls(container.callbacks, old(Abs()), Abs())
      decreases 5
    {
      if openTransactions != 0 {
        return;
      }
      var xml := builder.ToXml();
      if xml == None {
        return;
      }
      Publish(xml.value);
    }

    /** Writes LastChange and, if that changed it, sends the event. */
    method Publish(text: string)
      requires Wf() && E.Valid(Abs())
      modifies container.values, container`delivered, builder, device
      ensures Wf() && E.Valid(Abs())
      ensures Abs() == Published(old(Abs()), text)
      ensures container.delivered == old(container.delivered) + LastChangeCalls(container.callbacks, old(Abs()), Abs())
      decreases 4
    {
      ghost var before := container.View();
      var changed := container.Change(lastChange, Some(text));
      CallsOfLastChange(container.callbacks, container.position, before, lastChange, container.View());
      if changed {
        var escaped := XmlEscape.XmlEscape(text, false);
        device.Notify(escaped[..escaped.Length - 1]);
        assert escaped[..escaped.Length - 1] == Wire(text);
      }
    }

    method Callback(v: nat, name: string, newValue: string)
      requires container.Valid() && container.collector == this && v < |container.vars|
      requires name == container.vars[v].name && newValue == container.values[v]
      modifies container.values, container`delivered, builder, device
      ensures container.Valid() && Abs() == Respond(old(Abs()), v)
      ensures container.delivered == old(container.delivered) + LastChangeCalls(container.callbacks, old(Abs()), Abs())
      decreases if v == lastChange then 0 else 6
    {
      if HasBit(notEventable, v) {
        return;
      }
      builder.Add(name, newValue);
      Notify();
    }
  }
}
