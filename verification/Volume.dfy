/** The volume of src/upnp_control.c: levels 0..100 on a scale of two slopes in decibel, over
    exact real numbers. */
module Volume {
  import opened Wrappers
  import opened UpnpTime

  /** The conversion of a floating point number to int. */
  function Truncate(x: real): int {
    if x >= 0.0 then x.Floor else -((-x).Floor)
  }

  function Clamp(level: int): (r: int)
    ensures 0 <= r <= 100
  {
    if level < 0 then 0 else if level > 100 then 100 else level
  }

  const MIN_DB := -60.0
  const MID_DB := -20.0
  const MAX_DB := 0.0
  const MID_POINT := 50

  function LevelToDecibel(level: int): real {
    var v := Clamp(level);
    if v < 100 / 2 then MIN_DB + (MID_DB - MIN_DB) / (MID_POINT as real) * (v as real)
    else MID_DB + (MAX_DB - MID_DB) / ((100 - MID_POINT) as real) * ((v - MID_POINT) as real)
  }

  function DecibelToLevel(decibel: real): int {
    if decibel < MIN_DB then 0
    else if decibel > MAX_DB then 100
    else if decibel < MID_DB then Truncate((decibel - MIN_DB) * (MID_POINT as real) / (MID_DB - MIN_DB))
    else Truncate((decibel - MID_DB) * ((100 - MID_POINT) as real) / (MAX_DB - MID_DB) + (MID_POINT as real))
  }

  // ---------------------------------------------------------------- the two conversions

  /** Slopes written out: 0.8 dB a step below the middle, 0.4 dB above. */
  lemma Slopes(level: int, decibel: real)
    ensures LevelToDecibel(level) == if Clamp(level) < 50 then -60.0 + 0.8 * (Clamp(level) as real)
                                     else -20.0 + 0.4 * ((Clamp(level) - 50) as real)
    ensures DecibelToLevel(decibel) == if decibel < -60.0 then 0
                                       else if decibel > 0.0 then 100
                                       else if decibel < -20.0 then (1.25 * (decibel + 60.0)).Floor
                                       else 50 + (2.5 * (decibel + 20.0)).Floor
  {
    if -20.0 <= decibel <= 0.0 {
      assert (2.5 * (decibel + 20.0) + 50.0).Floor == (2.5 * (decibel + 20.0)).Floor + 50;
    }
  }

  lemma LevelInRange(decibel: real)
    ensures 0 <= DecibelToLevel(decibel) <= 100
  {
    Slopes(0, decibel);
  }

  /** A louder input never gives a lower level, over all real numbers. */
  lemma LevelIsMonotone(a: real, b: real)
    requires a <= b
    ensures DecibelToLevel(a) <= DecibelToLevel(b)
  {
    Slopes(0, a);
    Slopes(0, b);
  }

  lemma DecibelIsStrictlyMonotone(a: int, b: int)
    ensures LevelToDecibel(a) < LevelToDecibel(b) <==> Clamp(a) < Clamp(b)
  {
    Slopes(a, 0.0);
    Slopes(b, 0.0);
  }

  /** A level survives the way to decibel and back; one outside the range comes back clamped. */
  lemma LevelRoundTrip(level: int)
    ensures DecibelToLevel(LevelToDecibel(level)) == Clamp(level)
  {
    hide LevelToDecibel, DecibelToLevel;
    var v := Clamp(level);
    Slopes(level, LevelToDecibel(level));
    if v < 50 {
      assert 1.25 * (LevelToDecibel(level) + 60.0) == v as real;
    } else {
      assert 2.5 * (LevelToDecibel(level) + 20.0) == (v - 50) as real;
    }
  }

  function Quantise(decibel: real): real {
    LevelToDecibel(DecibelToLevel(decibel))
  }

  lemma QuantiseIdempotent(decibel: real)
    ensures Quantise(Quantise(decibel)) == Quantise(decibel)
  {
    LevelInRange(decibel);
    LevelRoundTrip(DecibelToLevel(decibel));
  }

  /** Quantising rounds down by less than one step of the half the input is in. */
  lemma QuantiseRoundsDown(decibel: real)
    requires -60.0 <= decibel <= 0.0
    ensures Quantise(decibel) <= decibel < Quantise(decibel) + if decibel < -20.0 then 0.8 else 0.4
  {
    hide LevelToDecibel, DecibelToLevel;
    LevelInRange(decibel);
    Slopes(DecibelToLevel(decibel), decibel);
  }

  // ---------------------------------------------------------------- the variables

  function Atoi(s: string): int {
    match ScanInt(s, |s| + 1)
    case None => 0
    case Some((n, _)) => n
  }

  /** atoi skips white space, takes a sign, and reads the digits up to the first other character. */
  lemma AtoiReads(blanks: string, sign: string, n: nat, rest: string)
    requires AllBlank(blanks) && sign in {"", "+", "-"} && (rest == [] || !('0' <= rest[0] <= '9'))
    ensures var value: int := n;
      Atoi(blanks + (sign + (Digits(n) + rest))) == if sign == "-" then -value else value
  {
    hide ScanInt, Digits;
    var s := blanks + (sign + (Digits(n) + rest));
    ScanSigned(blanks, sign, n, rest, |s| + 1);
  }

  /** Printed numbers read back. */
  lemma AtoiDecimal(n: int)
    ensures Atoi(Decimal(n)) == n
  {
    hide Atoi, Digits;
    if n < 0 {
      AtoiReads("", "-", -n, "");
      assert "" + ("-" + (Digits(-n) + "")) == Decimal(n);
    } else {
      AtoiReads("", "", n, "");
      assert "" + ("" + (Digits(n) + "")) == Decimal(n);
    }
  }

  /** VolumeDB of a level, in 1/256 dB. */
  function ReportedDecibel(level: int): int {
    Truncate(256.0 * LevelToDecibel(level))
  }

  /** It is the decibel value times 256 with its fraction cut off. */
  lemma ReportedIs(level: int)
    ensures 256.0 * LevelToDecibel(level) <= ReportedDecibel(level) as real < 256.0 * LevelToDecibel(level) + 1.0
  {
    hide LevelToDecibel;
    Slopes(level, 0.0);
  }

  lemma ReportedRange(level: int)
    ensures -15360 <= ReportedDecibel(level) <= 0
  {
    Slopes(level, 0.0);
  }

  /** Volume, VolumeDB and Mute, the volume the output plays at, and what it was last told of mute. */
  datatype Control = Control(volume: string, volumeDb: string, mute: string,
                             outputDb: real, outputMuted: Option<bool>)

  datatype Event = SetVolume(text: string) | SetVolumeDb(raw: real) | SetMute(value: string)

  function Flag(b: bool): string {
    if b then "1" else "0"
  }

  function Muted(c: Control, b: bool): Control {
    c.(mute := Flag(b), outputMuted := Some(b))
  }

  function Step(c: Control, ev: Event): Control {
    match ev
    case SetVolume(text) =>
      var level := Clamp(Atoi(text));
      Muted(c.(volume := text, volumeDb := Decimal(ReportedDecibel(level)), outputDb := LevelToDecibel(level)),
            level == 0)
    case SetVolumeDb(raw) => Quantised(c, raw).(outputDb := Quantise(raw))
    case SetMute(value) => Muted(c, Atoi(value) != 0)
  }

  /** The two volume variables after change_volume_decibel. */
  function Quantised(c: Control, raw: real): Control {
    var level := DecibelToLevel(raw);
    c.(volume := Decimal(level), volumeDb := Decimal(ReportedDecibel(level)))
  }

  function Run(c: Control, evs: seq<Event>): Control
    decreases |evs|
  {
    if evs == [] then c else Run(Step(c, evs[0]), evs[1..])
  }

  /** The variables as declared, beside an output that plays at some volume. */
  function Declared(outputDb: real): Control {
    Control("0", "0", "0", outputDb, None)
  }

  /** The service has started: the variables take over the output's volume, which is left as it is. */
  function Start(outputDb: real): Control {
    Quantised(Declared(outputDb), outputDb)
  }

  // ---------------------------------------------------------------- coherence

  /** VolumeDB is the decibel value of Volume, whose text may be any number. */
  predicate VolumesAgree(c: Control) {
    c.volumeDb == Decimal(ReportedDecibel(Clamp(Atoi(c.volume))))
  }

  /** The output plays at the volume that is announced. */
  predicate OutputAgrees(c: Control) {
    c.outputDb == LevelToDecibel(Clamp(Atoi(c.volume)))
  }

  lemma StepAgrees(c: Control, ev: Event)
    ensures VolumesAgree(c) || !ev.SetMute? ==> VolumesAgree(Step(c, ev))
    ensures OutputAgrees(Step(c, ev)) <==> OutputAgrees(c) || !ev.SetMute?
  {
    hide LevelToDecibel, DecibelToLevel, Truncate, Decimal, Atoi;
    match ev
    case SetVolumeDb(raw) =>
      LevelInRange(raw);
      AtoiDecimal(DecibelToLevel(raw));
    case _ =>
  }

  /** At the start the two variables agree, and the output with them exactly if it happens to play
      at one of the hundred and one volumes of the scale. */
  lemma StartAgrees(outputDb: real)
    ensures VolumesAgree(Start(outputDb))
    ensures OutputAgrees(Start(outputDb)) <==> Quantise(outputDb) == outputDb
  {
    hide LevelToDecibel, DecibelToLevel, Truncate, Decimal, Atoi;
    LevelInRange(outputDb);
    AtoiDecimal(DecibelToLevel(outputDb));
  }

  /** The declared values do not agree, level 0 being declared with the decibel value of level 100;
      that is over before anything is announced. */
  lemma StartReplacesDeclared(outputDb: real)
    ensures !VolumesAgree(Declared(outputDb)) && VolumesAgree(Start(outputDb))
    ensures Declared(outputDb).volumeDb == Decimal(ReportedDecibel(100))
  {
    StartAgrees(outputDb);
    AtoiDecimal(0);
    assert Digits(0) == "0";
    Slopes(0, 0.0);
    Slopes(100, 0.0);
    assert Decimal(-15360)[0] == '-';
  }

  lemma {:induction false} RunAgrees(c: Control, evs: seq<Event>)
    requires VolumesAgree(c)
    ensures VolumesAgree(Run(c, evs))
    ensures OutputAgrees(Run(c, evs)) <==> OutputAgrees(c) || exists ev <- evs :: !ev.SetMute?
    decreases |evs|
  {
    hide Step, VolumesAgree, OutputAgrees;
    if evs != [] {
      StepAgrees(c, evs[0]);
      RunAgrees(Step(c, evs[0]), evs[1..]);
      assert evs == [evs[0]] + evs[1..];
    }
  }

  /** In every run the two volume variables agree from the start on, and the output plays at the
      announced volume exactly if its initial one was on the scale or a volume has been set. */
  lemma AlwaysCoherent(outputDb: real, evs: seq<Event>)
    ensures var c := Run(Start(outputDb), evs);
      && VolumesAgree(c)
      && (OutputAgrees(c) <==> Quantise(outputDb) == outputDb || exists ev <- evs :: !ev.SetMute?)
  {
    StartAgrees(outputDb);
    RunAgrees(Start(outputDb), evs);
  }

  /** An output that starts at -10.1 dB is announced at -10.4 dB. */
  lemma StartsBetweenSteps()
    ensures Start(-10.1).volume == Decimal(74) && LevelToDecibel(74) == -10.4 && !OutputAgrees(Start(-10.1))
  {
    hide LevelToDecibel, DecibelToLevel, Truncate, Decimal, Atoi, OutputAgrees;
    Slopes(74, -10.1);
    StartAgrees(-10.1);
  }

  // ---------------------------------------------------------------- what the actions ask for

  /** SetVolume: the volume is the text asked for, the output plays at the decibel value of its number,
      VolumeDB gives that value in 1/256 dB, and the output is muted exactly at level zero. */
  lemma VolumeIsSet(c: Control, text: string)
    ensures var r, n := Step(c, SetVolume(text)), Atoi(text);
      && r.volume == text
      && r.outputDb == (if n <= 0 then -60.0
                        else if n < 50 then -60.0 + 0.8 * (n as real)
                        else if n < 100 then -20.0 + 0.4 * ((n - 50) as real)
                        else 0.0)
      && 256.0 * r.outputDb <= Atoi(r.volumeDb) as real < 256.0 * r.outputDb + 1.0
      && r.outputMuted == Some(n <= 0) && r.mute == (if n <= 0 then "1" else "0")
  {
    hide Atoi, Decimal, LevelToDecibel, ReportedDecibel;
    Slopes(Atoi(text), 0.0);
    SameClamped(Atoi(text));
    ReportedIs(Clamp(Atoi(text)));
    AtoiDecimal(ReportedDecibel(Clamp(Atoi(text))));
  }

  lemma SameClamped(level: int)
    ensures LevelToDecibel(Clamp(level)) == LevelToDecibel(level)
  {
  }

  /** SetVolumeDB: within the scale the output plays at most as loud as asked for and less than one
      step below, outside at its end; the volume is the level of that, and mute stays as it is. */
  lemma DecibelIsSet(c: Control, raw: real)
    ensures var r := Step(c, SetVolumeDb(raw));
      && (raw < -60.0 ==> r.outputDb == -60.0) && (raw > 0.0 ==> r.outputDb == 0.0)
      && (-60.0 <= raw <= 0.0 ==> r.outputDb <= raw < r.outputDb + if raw < -20.0 then 0.8 else 0.4)
      && 0 <= Atoi(r.volume) <= 100 && r.outputDb == Step(c, SetVolume(r.volume)).outputDb
      && r.volumeDb == Step(c, SetVolume(r.volume)).volumeDb
      && r.mute == c.mute && r.outputMuted == c.outputMuted
  {
    hide Atoi, Decimal, LevelToDecibel, ReportedDecibel, DecibelToLevel;
    LevelInRange(raw);
    AtoiDecimal(DecibelToLevel(raw));
    if -60.0 <= raw <= 0.0 {
      QuantiseRoundsDown(raw);
    } else {
      Slopes(0, raw);
      Slopes(100, raw);
    }
  }

  /** SetMute: any number but zero mutes, and nothing else changes. */
  lemma MuteIsSet(c: Control, value: string)
    ensures var r := Step(c, SetMute(value));
      && r.mute == (if Atoi(value) != 0 then "1" else "0") && r.outputMuted == Some(Atoi(value) != 0)
      && r.volume == c.volume && r.volumeDb == c.volumeDb && r.outputDb == c.outputDb
    ensures Step(c, SetMute("1")).mute == "1" && Step(c, SetMute("1")).outputMuted == Some(true)
    ensures Step(c, SetMute("0")).mute == "0" && Step(c, SetMute("0")).outputMuted == Some(false)
  {
    hide Atoi;
    AtoiDecimal(0);
    AtoiDecimal(1);
    DigitsAreDecimal(0, 0);
    DigitsAreDecimal(0, 1);
  }

  /** Mute is what the output was last told; before it is told anything, it is off. */
  predicate MuteAgrees(c: Control) {
    match c.outputMuted
    case None => c.mute == "0"
    case Some(muted) => c.mute == if muted then "1" else "0"
  }

  lemma {:induction false} MuteAlwaysAgrees(c: Control, evs: seq<Event>)
    requires MuteAgrees(c)
    ensures MuteAgrees(Run(c, evs))
    decreases |evs|
  {
    hide Atoi, Decimal, LevelToDecibel, ReportedDecibel, DecibelToLevel;
    if evs != [] {
      MuteAlwaysAgrees(Step(c, evs[0]), evs[1..]);
    }
  }

  lemma MuteAgreesFromStart(outputDb: real, evs: seq<Event>)
    ensures MuteAgrees(Run(Start(outputDb), evs))
  {
    hide Decimal, ReportedDecibel, DecibelToLevel;
    MuteAlwaysAgrees(Start(outputDb), evs);
  }

  /** SetVolumeDB takes whole decibels while VolumeDB reports 1/256 dB: setting VolumeDB to what it
      reports keeps the volume exactly at the two ends of the scale. */
  lemma ReportedValueSetsIff(level: int)
    ensures DecibelToLevel(ReportedDecibel(level) as real) == Clamp(level) <==> Clamp(level) == 0 || Clamp(level) == 100
  {
    hide LevelToDecibel, DecibelToLevel;
    Slopes(level, ReportedDecibel(level) as real);
  }

  // ---------------------------------------------------------------- the service

  class RenderingControl {
    var volume: string
    var volumeDb: string
    var mute: string
    var outputDb: real
    var outputMuted: Option<bool>

    ghost function View(): Control
      reads this
    {
      Control(volume, volumeDb, mute, outputDb, outputMuted)
    }

    constructor (outputDecibel: real)
      ensures View() == Declared(outputDecibel)
    {
      volume, volumeDb, mute, outputDb, outputMuted := "0", "0", "0", outputDecibel, None;
    }

    /** Sets the initial volume from what the output reports. */
    method Init()
      modifies this`volume, this`volumeDb
      ensures View() == Quantised(old(View()), outputDb)
    {
      var _ := ChangeVolumeDecibel(outputDb);
    }

    method ChangeVolumeDecibel(rawDecibel: real) returns (decibel: real)
      modifies this`volume, this`volumeDb
      ensures decibel == Quantise(rawDecibel)
      ensures volume == Decimal(DecibelToLevel(rawDecibel))
      ensures volumeDb == Decimal(ReportedDecibel(DecibelToLevel(rawDecibel)))
    {
      var volumeLevel := DecibelToLevel(rawDecibel);
      decibel := LevelToDecibel(volumeLevel);
      volume := Decimal(volumeLevel);
      volumeDb := Decimal(Truncate(256.0 * decibel));
    }

    method SetVolumeDb(rawDecibel: real)
      modifies this
      ensures View() == Step(old(View()), Event.SetVolumeDb(rawDecibel))
    {
      var decibel := ChangeVolumeDecibel(rawDecibel);
      outputDb := decibel;
    }

    method SetMuteToggle(doMute: bool)
      modifies this`mute, this`outputMuted
      ensures View() == Muted(old(View()), doMute)
    {
      mute := if doMute then "1" else "0";
      outputMuted := Some(doMute);
    }

    method SetMute(value: string)
      modifies this
      ensures View() == Step(old(View()), Event.SetMute(value))
    {
      var doMute := Atoi(value);
      SetMuteToggle(doMute != 0);
      mute := if doMute != 0 then "1" else "0";
    }

    method SetVolume(text: string)
      modifies this
      ensures View() == Step(old(View()), Event.SetVolume(text))
    {
      var volumeLevel := Atoi(text);
      if volumeLevel < 0 {
        volumeLevel := 0;
      }
      if volumeLevel > 100 {
        volumeLevel := 100;
      }
      var decibel := LevelToDecibel(volumeLevel);
      volume, volumeDb := text, Decimal(Truncate(256.0 * decibel));
      outputDb := decibel;
      SetMuteToggle(volumeLevel == 0);
    }
  }
}
