/** The state variables as src/upnp_transport.c declares them, in the order of their numbers. */
module DeclaredVariables {
  import D = LastChangeDocument
  import E = LastChangeEngine
  import H = LateSubscriber
  import R = LastChangeReplay
  import T = TransportSteps
  import opened TransportEventing

  const NAMESPACE := "urn:schemas-upnp-org:metadata-1-0/AVT/"

  const FIRST_EVENT := "<Event xmlns=\"" + NAMESPACE + "\"/>"

  const NAMES: seq<string> := [
    "TransportStatus", "NextAVTransportURI", "NextAVTransportURIMetaData", "CurrentTrackMetaData",
    "RelativeCounterPosition", "A_ARG_TYPE_InstanceID", "A_ARG_TYPE_SeekTarget", "PlaybackStorageMedium",
    "RelativeTimePosition", "PossibleRecordStorageMedia", "CurrentPlayMode", "TransportPlaySpeed",
    "PossiblePlaybackStorageMedia", "AbsoluteTimePosition", "CurrentTrack", "CurrentTrackURI",
    "CurrentTransportActions", "NumberOfTracks", "AVTransportURI", "AbsoluteCounterPosition",
    "CurrentRecordQualityMode", "CurrentMediaDuration", "A_ARG_TYPE_SeekMode", "AVTransportURIMetaData",
    "RecordStorageMedium", "RecordMediumWriteStatus", "LastChange", "CurrentTrackDuration", "TransportState",
    "PossibleRecordQualityModes"
  ]

  const DEFAULTS: seq<string> := [
    "OK", "", "", "", "2147483647", "0", "", "UNKNOWN", "0:00:00", "NOT_IMPLEMENTED", "NORMAL", "1",
    "NETWORK,UNKNOWN", "NOT_IMPLEMENTED", "0", "", "PLAY", "0", "", "2147483647", "NOT_IMPLEMENTED", "",
    "TRACK_NR", "", "NOT_IMPLEMENTED", "NOT_IMPLEMENTED",
    FIRST_EVENT, "0:00:00", "STOPPED", "NOT_IMPLEMENTED"
  ]

  /** The number of a name, told by its length and a letter or two. */
  function NumberOf(n: string): nat {
    match |n|
    case 10 => 26
    case 12 => 14
    case 14 => if n[0] == 'N' then 17 else if n[0] == 'A' then 18 else 28
    case 15 => if n[7] == 'r' then 0 else if n[7] == 'P' then 10 else 15
    case 18 => if n[0] == 'N' then 1 else 11
    case 19 => if n[0] == 'A' then 22 else 24
    case 20 =>
      if n[0] == 'R' then 8
      else if n[0] == 'A' then 13
      else if n[7] == 'M' then 21
      else if n[12] == 'M' then 3
      else 27
    case 21 => if n[11] == 'I' then 5 else if n[11] == 'S' then 6 else 7
    case 22 => 23
    case 23 => if n[2] == 'l' then 4 else if n[2] == 'r' then 16 else if n[2] == 's' then 19 else 25
    case 24 => 20
    case 26 => if n[14] == 't' then 2 else if n[14] == 'S' then 9 else 29
    case 28 => 12
    case _ => 0
  }

  lemma NumbersAreTold(i: nat)
    requires i < |NAMES|
    ensures NumberOf(NAMES[i]) == i
  {
  }

  lemma NamesAreDistinct()
    ensures E.Distinct(NAMES)
  {
    forall i, j | 0 <= i < j < |NAMES|
      ensures NAMES[i] != NAMES[j]
    {
      NumbersAreTold(i);
      NumbersAreTold(j);
    }
  }

  lemma NoBlankInFirst(i: nat)
    requires i < 6
    ensures D.IsName(NAMES[i])
  {
  }

  lemma NoBlankInSecond(i: nat)
    requires 6 <= i < 12
    ensures D.IsName(NAMES[i])
  {
  }

  lemma NoBlankInThird(i: nat)
    requires 12 <= i < 20
    ensures D.IsName(NAMES[i])
  {
  }

  lemma NoBlankInFourth(i: nat)
    requires 20 <= i < |NAMES|
    ensures D.IsName(NAMES[i])
  {
  }

  lemma NamesHaveNoBlank(i: nat)
    requires i < |NAMES|
    ensures D.IsName(NAMES[i])
  {
    hide D.IsName;
    if i < 6 {
      NoBlankInFirst(i);
    } else if i < 12 {
      NoBlankInSecond(i);
    } else if i < 20 {
      NoBlankInThird(i);
    } else {
      NoBlankInFourth(i);
    }
  }

  lemma VariablesAreThere(v: T.Var)
    ensures |NAMES| == |DEFAULTS| == VARIABLES
    ensures NAMES[VarIndex(v)] == VarName(v) && DEFAULTS[VarIndex(v)] == T.InitialValue(v)
  {
  }

  /** The declared table is what the service starts from: every variable of the transport has its
      number, its name and its initial value there, and the first document is really sent. */
  lemma TableIsDeclared()
    ensures TransportTable(NAMES, DEFAULTS) && R.Announces(NAMESPACE, NAMES, DEFAULTS, LAST_CHANGE)
  {
    hide VarIndex, VarName, T.InitialValue, D.IsName, E.InitialDoc;
    NamesAreDistinct();
    VariablesAreThere(T.AvUri);
    forall n | n in NAMES
      ensures D.IsName(n)
    {
      var i: nat :| i < |NAMES| && NAMES[i] == n;
      NamesHaveNoBlank(i);
    }
    forall v: T.Var
      ensures NAMES[VarIndex(v)] == VarName(v) && DEFAULTS[VarIndex(v)] == T.InitialValue(v)
    {
      VariablesAreThere(v);
    }
    LastChangeIsDeclared();
    R.DeclaredValueAnnounces(NAMESPACE, NAMES, DEFAULTS, LAST_CHANGE);
  }

  /** Only the names of argument types have an underscore there. */
  lemma SecondLetters(i: nat)
    requires i < |NAMES|
    ensures |NAMES[i]| > 1 && (NAMES[i][1] == '_' <==> i in {5, 6, 22})
  {
  }

  lemma ArgumentTypes()
    ensures "A_ARG_TYPE_" <= NAMES[5] && "A_ARG_TYPE_" <= NAMES[6] && "A_ARG_TYPE_" <= NAMES[22]
    ensures NAMES[26] == "LastChange"
  {
  }

  /** The snapshot of the declared table leaves out LastChange and the three argument types. */
  lemma FourAreLeftOut(i: nat)
    requires i < |NAMES|
    ensures H.InSnapshot(NAMES[i]) <==> i !in {5, 6, 22, 26}
  {
    hide NAMES, NumberOf;
    FourNames();
    NumbersAreTold(i);
    NumbersAreTold(26);
    SecondLetters(i);
    ArgumentTypes();
    assert "A_ARG_TYPE_"[1] == '_';
  }

  /** What the service takes out of eventing are its times and counters. */
  lemma TimesAndCountersAreUnevented()
    ensures var names := ["RelativeTimePosition", "AbsoluteTimePosition", "RelativeCounterPosition",
                          "AbsoluteCounterPosition"];
      |Unevented()| == 4 && forall k: nat | k < 4 ::
        Unevented()[k].Ignore? && Unevented()[k].v < |NAMES| && NAMES[Unevented()[k].v] == names[k]
  {
    FourNames();
    hide NAMES;
  }

  lemma FourNames()
    ensures |NAMES| == 30
    ensures NAMES[8] == "RelativeTimePosition" && NAMES[13] == "AbsoluteTimePosition"
    ensures NAMES[4] == "RelativeCounterPosition" && NAMES[19] == "AbsoluteCounterPosition"
  {
  }

  lemma LastChangeIsDeclared()
    ensures |DEFAULTS[LAST_CHANGE]| > 1 && DEFAULTS[LAST_CHANGE][1] == 'E'
  {
  }
}
