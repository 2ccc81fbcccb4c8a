/** Gapless playback: the output's queue of one URI and the transport's NextAVTransportURI. */
module TransportQueue {
  import opened Wrappers
  import opened TransportSteps
  import opened TransportInvariants

  /** The output's next URI is the announced one. */
  predicate QueueAgrees(t: Transport) {
    t.output.nextUri == NonEmpty(t.vars[NextUri])
  }

  /** The output takes a URI from its queue while no play has given it a callback yet, so that
      the transport does not hear of it. */
  predicate TakesInSilence(t: Transport, ev: Event) {
    (ev.EndOfStream? || ev.AboutToFinish?) && t.output.nextUri.Some? && !t.output.hasCallback
  }

  /** From agreement a step leads to agreement exactly if it does not take a URI in silence. */
  lemma StepAgreesIff(t: Transport, ev: Event)
    requires QueueAgrees(t)
    ensures QueueAgrees(Step(t, ev)) <==> !TakesInSilence(t, ev)
  {
    hide Store, Writes, StateName, ActionsIn;
    StepLeaves(t, ev, NextUri);
  }

  /** No step of the run takes a URI in silence. */
  predicate NeverInSilence(t: Transport, evs: seq<Event>)
    decreases |evs|
  {
    evs == [] || (!TakesInSilence(t, evs[0]) && NeverInSilence(Step(t, evs[0]), evs[1..]))
  }

  predicate AlwaysAgrees(t: Transport, evs: seq<Event>)
    decreases |evs|
  {
    QueueAgrees(t) && (evs == [] || AlwaysAgrees(Step(t, evs[0]), evs[1..]))
  }

  /** The queues agree in every state of a run exactly if the run takes no URI in silence. */
  lemma {:induction false} AlwaysAgreesIff(t: Transport, evs: seq<Event>)
    requires QueueAgrees(t)
    ensures AlwaysAgrees(t, evs) <==> NeverInSilence(t, evs)
    decreases |evs|
  {
    hide Step, QueueAgrees, TakesInSilence;
    if evs != [] {
      StepAgreesIff(t, evs[0]);
      if QueueAgrees(Step(t, evs[0])) {
        AlwaysAgreesIff(Step(t, evs[0]), evs[1..]);
      }
    }
  }

  /** Output events come only after a play, as a real output produces them. */
  predicate OutputAfterPlay(t: Transport, evs: seq<Event>)
    decreases |evs|
  {
    evs == []
    || (((evs[0].EndOfStream? || evs[0].AboutToFinish?) ==> t.output.hasCallback)
        && OutputAfterPlay(Step(t, evs[0]), evs[1..]))
  }

  lemma {:induction false} AfterPlayNeverInSilence(t: Transport, evs: seq<Event>)
    requires OutputAfterPlay(t, evs)
    ensures NeverInSilence(t, evs)
    decreases |evs|
  {
    hide Step;
    if evs != [] {
      AfterPlayNeverInSilence(Step(t, evs[0]), evs[1..]);
    }
  }

  lemma AgreesFromBoot(evs: seq<Event>)
    requires OutputAfterPlay(Boot(), evs)
    ensures AlwaysAgrees(Boot(), evs)
  {
    AfterPlayNeverInSilence(Boot(), evs);
    AlwaysAgreesIff(Boot(), evs);
  }

  /** A stream that starts from the queue becomes the transport's and the current track's URI, the
      output plays it, and the queue is empty on both sides. */
  lemma NextStreamTakesOver(t: Transport, ev: Event)
    requires QueueAgrees(t) && StartsNextStream(t, ev)
    ensures var r := Step(t, ev);
      && r.output.uri == t.output.nextUri == Some(r.vars[AvUri]) && r.vars[CurUri] == r.vars[AvUri]
      && r.vars[AvMeta] == r.vars[CurMeta] == t.vars[NextMeta]
      && r.vars[NextUri] == "" && r.vars[NextMeta] == "" && r.output.nextUri.None?
  {
    hide Store, Writes;
    StepLeaves(t, ev, AvUri);
    StepLeaves(t, ev, CurUri);
    StepLeaves(t, ev, AvMeta);
    StepLeaves(t, ev, CurMeta);
    StepLeaves(t, ev, NextUri);
    StepLeaves(t, ev, NextMeta);
  }

  // ---------------------------------------------------------------- each queued URI is played at most once

  /** Every non-empty URI ever queued, the positions of those that started playing, and which
      one waits now. */
  datatype Ledger = Ledger(queued: seq<string>, started: seq<nat>, waiting: Option<nat>)

  function Record(g: Ledger, t: Transport, ev: Event): Ledger {
    match ev
    case SetNextUri(uri, _) =>
      if uri == "" then g.(waiting := None)
      else Ledger(g.queued + [uri], g.started, Some(|g.queued|))
    case EndOfStream => if t.output.nextUri.Some? then Take(g) else g
    case AboutToFinish => if t.output.nextUri.Some? then Take(g) else g
    case _ => g
  }

  function Take(g: Ledger): Ledger {
    if g.waiting.None? then g else g.(started := g.started + [g.waiting.value], waiting := None)
  }

  function RecordAll(g: Ledger, t: Transport, evs: seq<Event>): Ledger
    decreases |evs|
  {
    if evs == [] then g else RecordAll(Record(g, t, evs[0]), Step(t, evs[0]), evs[1..])
  }

  /** The starts are in queueing order without repetition, each of a URI really queued, and what
      waits was queued after all of them and is what the output holds. */
  ghost predicate Balanced(g: Ledger, t: Transport) {
    && (forall i, j :: 0 <= i < j < |g.started| ==> g.started[i] < g.started[j])
    && (forall i :: 0 <= i < |g.started| ==> g.started[i] < |g.queued|)
    && (g.waiting.Some? ==>
          g.waiting.value < |g.queued| && forall i :: 0 <= i < |g.started| ==> g.started[i] < g.waiting.value)
    && t.output.nextUri == if g.waiting.Some? then Some(g.queued[g.waiting.value]) else None
  }

  lemma RecordKeepsBalance(g: Ledger, t: Transport, ev: Event)
    requires Balanced(g, t)
    ensures Balanced(Record(g, t, ev), Step(t, ev))
  {
    hide Store, Writes;
  }

  /** In every run each queued URI starts at most once, in queueing order. */
  lemma {:induction false} StartsAtMostOnce(g: Ledger, t: Transport, evs: seq<Event>)
    requires Balanced(g, t)
    ensures Balanced(RecordAll(g, t, evs), Run(t, evs))
    decreases |evs|
  {
    hide Balanced, Step, Record;
    if evs != [] {
      RecordKeepsBalance(g, t, evs[0]);
      StartsAtMostOnce(Record(g, t, evs[0]), Step(t, evs[0]), evs[1..]);
    }
  }
}
