/** The document for stream meta data is edited before the lock is taken (src/upnp_transport.c,
    update_meta_from_stream). What that means for a URI that comes in between. */
module StreamMetaRace {
  import opened Wrappers
  import opened SongMetaData
  import opened TransportSteps
  import opened TransportInvariants
  import DidlWriter
  import UpnpTime

  // ---------------------------------------------------------------- where the meta data comes from

  /** The meta data an event gives to the transport's URI. */
  function MetaTaken(t: Transport, ev: Event): Option<string> {
    match ev
    case SetUri(_, meta) => Some(meta)
    case MetaUpdate(didl) => Some(didl)
    case _ =>
      if StartsNextStream(t, ev) then Some(t.vars[NextMeta])
      else if EndsPlayback(t, ev) then Some("")
      else None
  }

  /** The last meta data that a run gives to it. */
  function LastTaken(t: Transport, evs: seq<Event>): Option<string>
    decreases |evs|
  {
    if evs == [] then None else
      var later := LastTaken(Step(t, evs[0]), evs[1..]);
      if later.Some? then later else MetaTaken(t, evs[0])
  }

  lemma StepTakes(t: Transport, ev: Event)
    ensures Step(t, ev).vars[AvMeta] == OrElse(MetaTaken(t, ev), t.vars[AvMeta])
  {
    hide Store, Writes;
    StepLeaves(t, ev, AvMeta);
  }

  lemma {:induction false} RunTakes(t: Transport, evs: seq<Event>)
    ensures Run(t, evs).vars[AvMeta] == OrElse(LastTaken(t, evs), t.vars[AvMeta])
    decreases |evs|
  {
    hide Step, MetaTaken;
    if evs != [] {
      StepTakes(t, evs[0]);
      RunTakes(Step(t, evs[0]), evs[1..]);
    }
  }

  // ---------------------------------------------------------------- an update made later

  /** The same transport with other meta data. */
  function WithMeta(t: Transport, av: string, cur: string): Transport {
    t.(vars := t.vars[AvMeta := av][CurMeta := cur])
  }

  predicate IsMeta(v: Var) {
    v == AvMeta || v == CurMeta
  }

  /** The meta data influences nothing but the meta data. */
  lemma StepApart(t: Transport, r: Transport, ev: Event)
    requires r == WithMeta(t, r.vars[AvMeta], r.vars[CurMeta])
    ensures var a, b := Step(t, ev), Step(r, ev); b == WithMeta(a, b.vars[AvMeta], b.vars[CurMeta])
  {
    hide Store, Writes, After, UpnpTime.CDiv, WantsStreamMeta, DidlWriter.UniqueId;
    var a, b := Step(t, ev), Step(r, ev);
    VariablesApart(t, r, ev);
    assert b.vars == WithMeta(a, b.vars[AvMeta], b.vars[CurMeta]).vars;
  }

  lemma VariablesApart(t: Transport, r: Transport, ev: Event)
    requires r == WithMeta(t, r.vars[AvMeta], r.vars[CurMeta])
    ensures forall v: Var | !IsMeta(v) :: Step(r, ev).vars[v] == Step(t, ev).vars[v]
  {
    hide Step, After;
    forall v: Var | !IsMeta(v)
      ensures Step(r, ev).vars[v] == Step(t, ev).vars[v]
    {
      StepLeaves(t, ev, v);
      StepLeaves(r, ev, v);
      LeavesApart(t, r, ev, v);
    }
  }

  lemma EnteringApart(t: Transport, r: Transport, s: State, v: Var)
    requires r == WithMeta(t, r.vars[AvMeta], r.vars[CurMeta]) && !IsMeta(v)
    ensures Entered(r.vars, s, v) == Entered(t.vars, s, v)
  {
    hide StateName, ActionsIn;
  }

  lemma PlayingApart(t: Transport, r: Transport, ok: bool, v: Var)
    requires r == WithMeta(t, r.vars[AvMeta], r.vars[CurMeta]) && !IsMeta(v)
    ensures AfterPlay(r, ok, v) == AfterPlay(t, ok, v)
  {
    hide Entered, TrackCount, ZeroTime;
    EnteringApart(t, r, Playing, v);
  }

  lemma EndingApart(t: Transport, r: Transport, v: Var)
    requires r == WithMeta(t, r.vars[AvMeta], r.vars[CurMeta]) && !IsMeta(v)
    ensures AfterEnd(r.vars, v) == AfterEnd(t.vars, v) && AfterNextStream(r.vars, v) == AfterNextStream(t.vars, v)
  {
    hide StateName, ActionsIn, TrackCount;
  }

  lemma LeavesApart(t: Transport, r: Transport, ev: Event, v: Var)
    requires r == WithMeta(t, r.vars[AvMeta], r.vars[CurMeta]) && !IsMeta(v)
    ensures After(r, ev, v) == After(t, ev, v)
  {
    hide AfterPlay, AfterEnd, AfterNextStream, Entered;
    hide UpnpTime.Print, UpnpTime.CDiv, TrackCount, IsRelTime;
    EndingApart(t, r, v);
    EnteringApart(t, r, PausedPlayback, v);
    EnteringApart(t, r, Stopped, v);
    if ev.Play? {
      PlayingApart(t, r, ev.ok, v);
    }
  }

  lemma {:induction false} RunApart(t: Transport, r: Transport, evs: seq<Event>)
    requires r == WithMeta(t, r.vars[AvMeta], r.vars[CurMeta])
    ensures var a, b := Run(t, evs), Run(r, evs); b == WithMeta(a, b.vars[AvMeta], b.vars[CurMeta])
    decreases |evs|
  {
    hide Step, WithMeta;
    if evs != [] {
      StepApart(t, r, evs[0]);
      RunApart(Step(t, evs[0]), Step(r, evs[0]), evs[1..]);
    }
  }

  lemma UpdateIs(t: Transport, didl: string)
    ensures Step(t, MetaUpdate(didl)) == WithMeta(t, didl, didl)
  {
    hide Store;
    StoreTwo(t.vars, Write(AvMeta, didl), Write(CurMeta, didl));
  }

  /** Putting a document in place after other events instead of before them changes the meta data only. */
  lemma UpdateLater(t: Transport, didl: string, evs: seq<Event>)
    ensures Step(Run(t, evs), MetaUpdate(didl)) == WithMeta(Run(Step(t, MetaUpdate(didl)), evs), didl, didl)
  {
    hide Step, Run;
    UpdateIs(t, didl);
    UpdateIs(Run(t, evs), didl);
    RunApart(t, WithMeta(t, didl, didl), evs);
  }

  lemma {:induction false} NothingTaken(t: Transport, evs: seq<Event>)
    requires t.vars[CurMeta] == t.vars[AvMeta] && LastTaken(t, evs) == None
    ensures Run(t, evs).vars[CurMeta] == Run(t, evs).vars[AvMeta] == t.vars[AvMeta]
    decreases |evs|
  {
    hide Step, MetaTaken;
    if evs != [] {
      StepTakes(t, evs[0]);
      KeepsCurrent(t, evs[0]);
      NothingTaken(Step(t, evs[0]), evs[1..]);
    }
  }

  lemma KeepsCurrent(t: Transport, ev: Event)
    requires t.vars[CurMeta] == t.vars[AvMeta] && MetaTaken(t, ev) == None
    ensures Step(t, ev).vars[CurMeta] == t.vars[AvMeta]
  {
    hide Store, Writes;
    StepLeaves(t, ev, CurMeta);
  }

  /** When it does not matter that the document is put in place late: the URI is announced with the
      same meta data exactly if no meta data was taken in between or the last taken is that
      document; and if none was taken the whole transport is the same. */
  lemma UpdateLaterIff(t: Transport, didl: string, evs: seq<Event>)
    ensures var updated := Step(t, MetaUpdate(didl));
      var early, late := Run(updated, evs), Step(Run(t, evs), MetaUpdate(didl));
      && late.vars[AvUri] == early.vars[AvUri] && late.vars[AvMeta] == didl
      && (late.vars[AvMeta] == early.vars[AvMeta] <==> OrElse(LastTaken(updated, evs), didl) == didl)
      && (late == early <==> early.vars[AvMeta] == early.vars[CurMeta] == didl)
      && (LastTaken(updated, evs) == None ==> late == early)
  {
    hide Step, Run, LastTaken;
    var updated := Step(t, MetaUpdate(didl));
    var early, late := Run(updated, evs), Step(Run(t, evs), MetaUpdate(didl));
    UpdateIs(t, didl);
    UpdateLater(t, didl, evs);
    RunTakes(updated, evs);
    assert early == WithMeta(early, early.vars[AvMeta], early.vars[CurMeta]);
    if LastTaken(updated, evs) == None {
      NothingTaken(updated, evs);
    }
  }

  lemma SetUriLeaves(t: Transport, uri: string, meta: string)
    ensures var r := Step(t, SetUri(uri, meta));
      && r.vars[AvUri] == uri && r.vars[AvMeta] == meta
      && r.vars[CurMeta] == if t.state == Playing then meta else t.vars[CurMeta]
  {
    hide Store, Writes;
    StepLeaves(t, SetUri(uri, meta), AvUri);
    StepLeaves(t, SetUri(uri, meta), AvMeta);
    StepLeaves(t, SetUri(uri, meta), CurMeta);
  }

  /** So a URI that is set between the reading and the writing is left with meta data edited from
      that of the URI before it; only a controller that sent just that document would not mind. */
  lemma UriInBetween(t: Transport, tags: SongMetaData, uri: string, meta: string)
    ensures var collected, didl := Step(t, Tags(tags)), StreamDidl(t, tags);
      var late := Step(Step(collected, SetUri(uri, meta)), MetaUpdate(didl));
      && late.vars[AvUri] == uri && late.vars[AvMeta] == didl
      && (late == Step(Step(collected, MetaUpdate(didl)), SetUri(uri, meta)) <==> meta == didl)
  {
    hide Step, StreamDidl, LastTaken;
    var collected, didl := Step(t, Tags(tags)), StreamDidl(t, tags);
    var updated, ev := Step(collected, MetaUpdate(didl)), SetUri(uri, meta);
    RunOne(collected, ev);
    RunOne(updated, ev);
    UpdateLaterIff(collected, didl, [ev]);
    UpdateIs(collected, didl);
    SetUriLeaves(updated, uri, meta);
  }

  lemma RunOne(t: Transport, ev: Event)
    ensures Run(t, [ev]) == Step(t, ev)
  {
    hide Step;
    assert [ev][1..] == [];
  }
}
