/** The race of StreamMetaRace among threads: tags come while an action is setting another URI. */
module DraftThreads {
  import opened Wrappers
  import E = LastChangeEngine
  import I = TransportInvariants
  import L = ServiceLocking
  import M = StreamMetaRace
  import R = LastChangeReplay
  import S = SongMetaData
  import StreamMetaData
  import ReplaceRange
  import T = TransportSteps
  import opened TransportEventing
  import opened TransportThreads
  import opened TransportActions

  predicate NoUpdate(evs: seq<T.Event>) {
    forall ev <- evs :: !ev.MetaUpdate?
  }

  lemma {:induction false} DraftIsKept(c: Conf, turns: seq<Turn>)
    requires Good(c) && CanTake(c, turns) && c.draft.Some? && NoUpdate(Events(turns))
    ensures Take(c, turns).draft == c.draft
    decreases |turns|
  {
    hide Good, T.Step, Locks, L.Next, L.Enabled;
    if turns != [] {
      TurnKeepsGood(c, turns[0]);
      assert Events(turns) == EventOf(turns[0]) + Events(turns[1..]);
      DraftIsKept(Turned(c, turns[0]), turns[1..]);
    }
  }

  /** The meta data given to the URI since the store was read: by the events begun since then, or
      by the rest of a section that was under way. */
  function Since(c: Conf, began: Conf, turns: seq<Turn>): Option<string> {
    var taken := M.LastTaken(began.t, Events(turns));
    if taken.Some? then taken else I.LastWrite(c.todo, T.AvMeta)
  }

  /** Whatever happens between the reading and the writing, under any schedule: the document is the
      one edited from what was read, and what it replaces is the meta data given to the URI since,
      or if there is none what was read. */
  lemma WhatAnUpdateReplaces(c: Conf, tags: S.SongMetaData, turns: seq<Turn>)
    requires Good(c) && CanTurn(c, Outside(T.Tags(tags))) && T.Reports(c.t.output, tags)
    requires var began := Turned(c, Outside(T.Tags(tags)));
      Good(began) && CanTake(began, turns) && NoUpdate(Events(turns))
    ensures var began := Turned(c, Outside(T.Tags(tags)));
      var now, read := Take(began, turns), c.shown[T.AvMeta];
      && now.draft == Some(T.Draft(c.t, tags, read))
      && now.t.vars[T.AvMeta] == I.OrElse(Since(c, began, turns), read)
  {
    hide CanTake, Take, Events, T.Step, T.Store, T.Reports, M.LastTaken, I.LastWrite;
    var began := Turned(c, Outside(T.Tags(tags)));
    DraftIsKept(began, turns);
    EventsHappen(began, turns);
    M.RunTakes(began.t, Events(turns));
    I.StoreValue(c.shown, c.todo, T.AvMeta);
    TagsWriteNothing(c.t, tags);
  }

  lemma TagsWriteNothing(t: T.Transport, tags: S.SongMetaData)
    ensures T.Step(t, T.Tags(tags)).vars == t.vars
  {
    I.StoreNone(t.vars);
  }

  // ---------------------------------------------------------------- it happens

  lemma OutsideStep(c: Conf, ev: T.Event) returns (turns: seq<Turn>)
    requires Good(c) && CanTurn(c, Outside(ev))
    ensures CanTake(c, turns) && Events(turns) == [ev]
    ensures Take(c, turns) == c.(t := T.Step(c.t, ev), draft := DraftAfter(c, ev))
  {
    hide Good, CanTake, Take, Events, T.Step, Locks;
    var next := Turned(c, Outside(ev));
    TurnKeepsGood(c, Outside(ev));
    Nothing(next);
    turns := More(c, Outside(ev), []);
  }

  /** Two threads come, and the tags are read. */
  lemma TagsAreRead(c: Conf, tags: S.SongMetaData) returns (turns: seq<Turn>, drafted: Conf)
    requires Good(c) && L.Quiet(c.s) && c.draft == None && T.Reports(c.t.output, tags)
    ensures CanTake(c, turns) && drafted == Take(c, turns) && Good(drafted) && Events(turns) == [T.Tags(tags)]
    ensures drafted.draft == Some(T.StreamDidl(c.t, tags)) && drafted.s.holder == None
    ensures drafted.s.threads == c.s.threads + [L.Thread(false, L.Idle), L.Thread(false, L.Idle)]
  {
    hide Good, CanTake, Take, Events, T.Step, T.Reports;
    var coming := TwoComers(c);
    var come := Take(c, coming);
    NothingDue(come);
    var reading := OutsideStep(come, T.Tags(tags));
    drafted := Take(come, reading);
    TakeConcat(c, coming, reading);
    EventsConcat(coming, reading);
    turns := coming + reading;
  }

  /** A URI is set, and then the document is put in place. */
  lemma DraftComesLate(c: Conf, i: nat, j: nat, uri: string, meta: string, didl: string) returns (turns: seq<Turn>)
    requires Good(c) && L.Quiet(c.s) && c.draft == Some(didl)
    requires i < |c.s.threads| && j < |c.s.threads| && c.s.threads[i].pc == c.s.threads[j].pc == L.Idle
    ensures CanTake(c, turns) && L.Quiet(Take(c, turns).s)
    ensures Events(turns) == [T.SetUri(uri, meta), T.MetaUpdate(didl)]
  {
    hide Good, CanTake, Take, Events, T.Step;
    var setting := ActionCanBeDone(c, i, T.SetUri(uri, meta));
    var replaced := Take(c, setting);
    var writing := EventCanBeHandled(replaced, j, T.MetaUpdate(didl));
    TakeConcat(c, setting, writing);
    EventsConcat(setting, writing);
    turns := setting + writing;
  }

  /** From rest, when tags would be reported: a schedule to rest again in which an action sets a URI
      between the reading and the writing. */
  lemma UriComesBetween(c: Conf, tags: S.SongMetaData, uri: string, meta: string) returns (turns: seq<Turn>)
    requires Good(c) && L.Quiet(c.s) && c.draft == None && T.Reports(c.t.output, tags)
    ensures CanTake(c, turns) && L.Quiet(Take(c, turns).s)
    ensures Events(turns) == [T.Tags(tags), T.SetUri(uri, meta), T.MetaUpdate(T.StreamDidl(c.t, tags))]
  {
    hide Good, CanTake, Take, Events, T.Step, T.Reports, T.StreamDidl;
    var n := |c.s.threads|;
    var reading, drafted := TagsAreRead(c, tags);
    var rest := DraftComesLate(drafted, n, n + 1, uri, meta, T.StreamDidl(c.t, tags));
    TakeConcat(c, reading, rest);
    EventsConcat(reading, rest);
    turns := reading + rest;
  }

  function TitleOnly(title: string): S.SongMetaData {
    S.SongMetaData(Some(title), None, None, None, None)
  }

  lemma TitleIsReported(t: T.Transport, uri: string, title: string)
    requires title != ""
    ensures var given := T.Step(t, T.SetUri(uri, ""));
      && T.Reports(given.output, TitleOnly(title))
      && ReplaceRange.Get(T.StreamDidl(given, TitleOnly(title)), S.Field(0)) == S.Escaped(Some(title))
  {
    hide T.Store, T.Writes, T.StreamDidl, T.Streamed, ReplaceRange.Get, S.Field, S.Escaped;
    StreamMetaData.ComposerStays(t, uri, title);
    StreamMetaData.StreamedLeaves(T.Step(t, T.SetUri(uri, "")), TitleOnly(title), T.AvMeta);
  }

  /** A service that has just started sets a URI. */
  lemma FirstUri(c: Conf, uri: string) returns (turns: seq<Turn>, r: Conf)
    requires Good(c) && L.Quiet(c.s) && c.draft == None
    ensures CanTake(c, turns) && r == Take(c, turns) && Good(r) && L.Quiet(r.s) && r.draft == None
    ensures Events(turns) == [T.SetUri(uri, "")] && r.t == T.Step(c.t, T.SetUri(uri, ""))
  {
    hide Good, CanTake, Take, Events, T.Step;
    var coming := Spawned(c);
    var come := Take(c, coming);
    var setting := ActionCanBeDone(come, |c.s.threads|, T.SetUri(uri, ""));
    r := Take(come, setting);
    TakeConcat(c, coming, setting);
    EventsConcat(coming, setting);
    turns := coming + setting;
  }

  lemma {:induction false} RunConcat(t: T.Transport, a: seq<T.Event>, b: seq<T.Event>)
    ensures T.Run(t, a + b) == T.Run(T.Run(t, a), b)
    decreases |a|
  {
    hide T.Step;
    if a == [] {
      assert a + b == b;
    } else {
      assert (a + b)[1..] == a[1..] + b;
      RunConcat(T.Step(t, a[0]), a[1..], b);
    }
  }

  lemma RunThree(t: T.Transport, a: T.Event, b: T.Event, z: T.Event)
    ensures T.Run(t, [a, b, z]) == T.Step(T.Step(T.Step(t, a), b), z)
  {
    hide T.Step;
    M.RunOne(t, a);
    M.RunOne(T.Step(t, a), b);
    M.RunOne(T.Step(T.Step(t, a), b), z);
    RunConcat(t, [a], [b] + [z]);
    RunConcat(T.Step(t, a), [b], [z]);
    assert [a, b, z] == [a] + ([b] + [z]);
  }

  /** From the start of the service: a schedule after which all is quiet and every controller that
      heard all events knows the next URI with the title of the stream before it. */
  lemma OldTitleForNewUri(ns: string, names: seq<string>, values: seq<string>,
                          uri: string, title: string, next: string, meta: string)
    returns (turns: seq<Turn>, didl: string)
    requires TransportTable(names, values) && R.Announces(ns, names, values, LAST_CHANGE) && title != ""
    ensures ReplaceRange.Get(didl, S.Field(0)) == S.Escaped(Some(title))
    ensures CanTake(BootConf(ns, names, values), turns)
    ensures var c := Take(BootConf(ns, names, values), turns);
      var seen := E.Observe(ns, map[], c.s.engine.wire);
      && L.Quiet(c.s)
      && E.At(seen, VarName(T.AvUri)) == Some(next) && E.At(seen, VarName(T.AvMeta)) == Some(didl)
  {
    hide Good, CanTake, Take, Events, T.Step, T.Run, T.Boot, T.Reports, T.StreamDidl, ReplaceRange.Get, S.Field,
         S.Escaped, TransportTable, R.Announces, E.Observe, E.At, VarName, SeesCoherent, TitleOnly;
    var boot, tags := BootConf(ns, names, values), TitleOnly(title);
    BootIsQuiet(ns, names, values);
    var first, c := FirstUri(boot, uri);
    TitleIsReported(boot.t, uri, title);
    didl := T.StreamDidl(c.t, tags);
    var second := UriComesBetween(c, tags, next, meta);
    turns := first + second;
    TakeConcat(boot, first, second);
    EventsHappen(c, second);
    RunThree(c.t, T.Tags(tags), T.SetUri(next, meta), T.MetaUpdate(didl));
    M.UriInBetween(c.t, tags, next, meta);
    EventsHappen(boot, turns);
    ControllerSeesThreads(ns, names, values, turns);
  }
}
