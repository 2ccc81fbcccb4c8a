/** The initial event of a subscription (handle_subscription_request of src/upnp_device.c). */
module UpnpDevice {
  import opened Wrappers
  import opened LastChangeDocument
  import opened LateSubscriber
  import XmlEscape
  import VariableContainer

  lemma SnapshotDocStep(names: seq<string>, values: seq<string>, i: nat)
    requires |names| == |values| && i < |names|
    ensures SnapshotDoc(names[..i + 1], values[..i + 1])
         == SnapshotDoc(names[..i], values[..i])
          + if InSnapshot(names[i]) then [MakeElement(names[i], values[i])] else []
  {
    assert names[..i + 1][..i] == names[..i] && values[..i + 1][..i] == values[..i];
  }

  /** Lists all variables but LastChange and the argument types, escaped for sending. */
  method HandleSubscriptionRequest(container: VariableContainer.VariableContainer, ns: string)
    returns (event: Option<string>)
    requires container.Core()
    ensures var d := SnapshotDoc(container.Names(), container.values[..]);
      event == if d == [] then None else Some(Wire(Print(ns, d)))
  {
    ghost var names, values := container.Names(), container.values[..];
    var builder := new VariableContainer.LastChangeBuilder(ns);
    var i := 0;
    while i < |container.vars|
      modifies builder
      invariant 0 <= i <= |names|
      invariant builder.Valid() && builder.Pending() == SnapshotDoc(names[..i], values[..i])
    {
      var value, name := container.Get(i);
      SnapshotDocStep(names, values, i);
      if name.value != "LastChange" && !("A_ARG_TYPE_" <= name.value) {
        builder.Add(name.value, value.value);
      }
      i := i + 1;
    }
    assert names[..|names|] == names && values[..|names|] == values;
    var xml := builder.ToXml();
    if xml == None {
      return None;
    }
    var escaped := XmlEscape.XmlEscape(xml.value, false);
    assert escaped[..escaped.Length - 1] == Wire(xml.value);
    return Some(escaped[..escaped.Length - 1]);
  }
}
