/** Track times of src/upnp_transport.c: nanoseconds printed as H:MM:SS and read back by sscanf. */
module UpnpTime {
  import opened Wrappers

  // ---------------------------------------------------------------- C arithmetic

  /** C's division truncates toward zero. */
  function CDiv(a: int, b: int): int
    requires b > 0
  {
    if a >= 0 then a / b else -((-a) / b)
  }

  predicate IsInt32(n: int) {
    -0x8000_0000 <= n < 0x8000_0000
  }

  // ---------------------------------------------------------------- decimal numbers

  predicate IsDigit(c: char) {
    '0' <= c <= '9'
  }

  function Digit(d: nat): char
    requires d < 10
  {
    '0' + d as char
  }

  function Digits(n: nat): string {
    if n < 10 then [Digit(n)] else Digits(n / 10) + [Digit(n % 10)]
  }

  function DigitsValue(s: string): int {
    if s == [] then 0 else DigitsValue(s[..|s| - 1]) * 10 + (s[|s| - 1] as int - '0' as int)
  }

  ghost predicate AllDigits(s: string) {
    forall c <- s :: IsDigit(c)
  }

  lemma {:induction false} DigitsReadBack(n: nat)
    ensures AllDigits(Digits(n)) && Digits(n) != [] && DigitsValue(Digits(n)) == n
  {
    if n < 10 {
      assert Digits(n)[..0] == [];
    } else {
      DigitsReadBack(n / 10);
      assert Digits(n)[..|Digits(n)| - 1] == Digits(n / 10);
    }
  }

  /** Decimal digits: of the ten numbers below ten, and of a number with one digit more. */
  lemma DigitsAreDecimal(n: nat, d: nat)
    requires d < 10
    ensures Digits(d) == ["0123456789"[d]]
    ensures n > 0 ==> Digits(10 * n + d) == Digits(n) + ["0123456789"[d]]
  {
    assert forall k: nat | k < 10 :: Digit(k) == "0123456789"[k];
  }

  // ---------------------------------------------------------------- printing

  /** %d */
  function Decimal(n: int): string {
    if n < 0 then "-" + Digits(-n) else Digits(n)
  }

  /** %02d */
  function TwoDigits(n: int): string {
    if 0 <= n < 10 then "0" + Digits(n) else Decimal(n)
  }

  function Clock(hour: int, minute: int, second: int): string {
    Decimal(hour) + ":" + TwoDigits(minute) + ":" + TwoDigits(second)
  }

  const SECOND := 1_000_000_000

  /** What is printed depends on the whole seconds only. */
  function Print(t: int): string {
    var seconds := CDiv(t, SECOND);
    var minutes := seconds - CDiv(seconds, 3600) * 3600;
    Clock(CDiv(seconds, 3600), CDiv(minutes, 60), minutes - CDiv(minutes, 60) * 60)
  }

  /** The quotient is returned, the remainder left behind; it has the sign of the dividend. */
  method DivideLeaveRemainder(val: int, divisor: int) returns (result: int, rest: int)
    requires divisor > 0
    ensures val == result * divisor + rest && -divisor < rest < divisor
    ensures (val >= 0 ==> rest >= 0) && (val <= 0 ==> rest <= 0)
    ensures result == CDiv(val, divisor) && rest == val - result * divisor
  {
    result := CDiv(val, divisor);
    rest := val - result * divisor;
  }

  /** Dividing off hours, minutes and seconds one after the other. */
  lemma Nested(t: nat)
    ensures var seconds := t / SECOND;
      var h := t / (3600 * SECOND);
      var rest := t - h * (3600 * SECOND);
      var m := rest / (60 * SECOND);
      var last := rest - m * (60 * SECOND);
      && h == seconds / 3600 && m == seconds % 3600 / 60 && last / SECOND == seconds % 60
  {
    var seconds, nanos := t / SECOND, t % SECOND;
    var h, inHour := seconds / 3600, seconds % 3600;
    assert t == h * (3600 * SECOND) + (inHour * SECOND + nanos);
    var m, inMinute := inHour / 60, inHour % 60;
    assert inHour * SECOND + nanos == m * (60 * SECOND) + (inMinute * SECOND + nanos);
  }

  lemma Mirrored(a: int, b: int)
    requires b > 0
    ensures CDiv(-a, b) == -CDiv(a, b)
  {
  }

  /** The three divisions one after the other give hour, minute and second of the whole seconds. */
  predicate DivideInTurn(t: int) {
    var hour := CDiv(t, 3600 * SECOND);
    var rest := t - hour * (3600 * SECOND);
    var minute := CDiv(rest, 60 * SECOND);
    var rest' := rest - minute * (60 * SECOND);
    var seconds := CDiv(t, SECOND);
    var inHour := seconds - CDiv(seconds, 3600) * 3600;
    && hour == CDiv(seconds, 3600) && minute == CDiv(inHour, 60)
    && CDiv(rest', SECOND) == inHour - CDiv(inHour, 60) * 60
  }

  lemma DivideUp(t: nat)
    ensures DivideInTurn(t)
  {
    Nested(t);
    assert t % (3600 * SECOND) == t - t / (3600 * SECOND) * (3600 * SECOND) >= 0;
  }

  lemma DivideDown(t: int)
    requires DivideInTurn(-t)
    ensures DivideInTurn(t)
  {
    hide CDiv;
    var hour := CDiv(-t, 3600 * SECOND);
    var rest := -t - hour * (3600 * SECOND);
    var minute := CDiv(rest, 60 * SECOND);
    var rest' := rest - minute * (60 * SECOND);
    var seconds := CDiv(-t, SECOND);
    var inHour := seconds - CDiv(seconds, 3600) * 3600;
    Mirrored(-t, 3600 * SECOND);
    Mirrored(rest, 60 * SECOND);
    Mirrored(rest', SECOND);
    Mirrored(-t, SECOND);
    Mirrored(seconds, 3600);
    Mirrored(inHour, 60);
    assert CDiv(t, 3600 * SECOND) == -hour && CDiv(t, SECOND) == -seconds;
    assert t + hour * (3600 * SECOND) == -rest && -seconds + CDiv(seconds, 3600) * 3600 == -inHour;
  }

  method PrintUpnpTime(t: int) returns (result: string)
    ensures result == Print(t)
  {
    hide Clock, CDiv;
    var hour, minute, second, rest;
    hour, rest := DivideLeaveRemainder(t, 3600 * SECOND);
    minute, rest := DivideLeaveRemainder(rest, 60 * SECOND);
    second, rest := DivideLeaveRemainder(rest, SECOND);
    if t >= 0 {
      DivideUp(t);
    } else {
      DivideUp(-t);
      DivideDown(t);
    }
    result := Clock(hour, minute, second);
  }

  // ---------------------------------------------------------------- reading

  predicate IsSpace(c: char) {
    c == ' ' || ('\t' <= c <= '\r')
  }

  function SkipSpace(s: string): (r: string)
    ensures |r| <= |s|
  {
    if s != [] && IsSpace(s[0]) then SkipSpace(s[1..]) else s
  }

  /** How many of the first `width` characters are digits in a row. */
  function DigitRun(s: string, width: nat): (k: nat)
    ensures k <= |s| && k <= width
  {
    if width == 0 || s == [] || !IsDigit(s[0]) then 0 else 1 + DigitRun(s[1..], width - 1)
  }

  function ScanNat(text: string, width: nat): Option<(int, string)> {
    var k := DigitRun(text, width);
    if k == 0 then None else Some((DigitsValue(text[..k]), text[k..]))
  }

  function Negated(r: Option<(int, string)>): Option<(int, string)> {
    if r.None? then None else Some((-r.value.0, r.value.1))
  }

  /** sscanf's %d: blanks, an optional sign that counts toward the width, digits. */
  function ScanInt(s: string, width: nat): Option<(int, string)>
    requires width > 0
  {
    var text := SkipSpace(s);
    if text != [] && text[0] == '-' then Negated(ScanNat(text[1..], width - 1))
    else if text != [] && text[0] == '+' then ScanNat(text[1..], width - 1)
    else ScanNat(text, width)
  }

  predicate StartsWithColon(s: string) {
    s != [] && s[0] == ':'
  }

  /** Hour, minute and second as the conversions %d:%02d:%02d assign them; a conversion that is
      not reached leaves its zero. The unlimited %d can take the whole rest of the text. */
  function ScanClock(s: string): (int, int, int) {
    match ScanInt(s, |s| + 1)
    case None => (0, 0, 0)
    case Some((hour, r)) =>
      if !StartsWithColon(r) then (hour, 0, 0) else
        match ScanInt(r[1..], 2)
        case None => (hour, 0, 0)
        case Some((minute, r')) =>
          if !StartsWithColon(r') then (hour, minute, 0) else
            match ScanInt(r'[1..], 2)
            case None => (hour, minute, 0)
            case Some((second, _)) => (hour, minute, second)
  }

  /** No conversion and no intermediate result of hour * 3600 + minute * 60 + second leaves int. */
  predicate FitsInt(s: string) {
    var (hour, minute, second) := ScanClock(s);
    IsInt32(hour) && IsInt32(minute) && IsInt32(second)
    && IsInt32(hour * 3600) && IsInt32(minute * 60) && IsInt32(hour * 3600 + minute * 60)
    && IsInt32(hour * 3600 + minute * 60 + second)
  }

  function Parse(s: string): int {
    var (hour, minute, second) := ScanClock(s);
    SECOND * (hour * 3600 + minute * 60 + second)
  }

  // ---------------------------------------------------------------- round trip

  lemma {:induction false} RunOver(d: string, rest: string, width: nat)
    requires AllDigits(d) && |d| <= width && (|d| == width || rest == [] || !IsDigit(rest[0]))
    ensures DigitRun(d + rest, width) == |d|
  {
    if d == [] {
      assert d + rest == rest;
    } else {
      assert (d + rest)[1..] == d[1..] + rest;
      RunOver(d[1..], rest, width - 1);
    }
  }

  lemma ScanDigits(d: string, rest: string, width: nat)
    requires d != [] && AllDigits(d) && |d| <= width && (|d| == width || rest == [] || !IsDigit(rest[0]))
    ensures ScanInt(d + rest, width) == Some((DigitsValue(d), rest))
  {
    hide ScanNat, DigitsValue;
    assert IsDigit((d + rest)[0]);
    ScanNatReads(d, rest, width);
  }

  /** The white space of C: blank, and the characters 9 to 13. */
  predicate AllBlank(s: string) {
    forall c <- s :: c as int == 32 || 9 <= c as int <= 13
  }

  lemma {:induction false} BlanksAreSkipped(blanks: string, text: string)
    requires AllBlank(blanks) && text != [] && !IsSpace(text[0])
    ensures SkipSpace(blanks + text) == text
  {
    if blanks == [] {
      assert blanks + text == text;
    } else {
      assert blanks[0] in blanks && forall c <- blanks[1..] :: c in blanks;
      assert (blanks + text)[1..] == blanks[1..] + text;
      BlanksAreSkipped(blanks[1..], text);
    }
  }

  lemma ScanNatReads(d: string, rest: string, width: nat)
    requires d != [] && AllDigits(d) && |d| <= width && (|d| == width || rest == [] || !IsDigit(rest[0]))
    ensures ScanNat(d + rest, width) == Some((DigitsValue(d), rest))
  {
    hide DigitRun, DigitsValue;
    RunOver(d, rest, width);
    assert (d + rest)[..|d|] == d && (d + rest)[|d|..] == rest;
  }

  /** White space, an optional sign, digits up to the first other character. */
  lemma ScanSigned(blanks: string, sign: string, n: nat, rest: string, width: nat)
    requires AllBlank(blanks) && sign in {"", "+", "-"} && (rest == [] || !('0' <= rest[0] <= '9'))
    requires |Digits(n)| + 1 <= width
    ensures var value: int := n;
      ScanInt(blanks + (sign + (Digits(n) + rest)), width) == Some((if sign == "-" then -value else value, rest))
  {
    hide ScanNat, DigitsValue, SkipSpace, Digits;
    var text := sign + (Digits(n) + rest);
    DigitsReadBack(n);
    assert IsDigit(Digits(n)[0]);
    BlanksAreSkipped(blanks, text);
    if sign == "" {
      assert text == Digits(n) + rest;
      ScanNatReads(Digits(n), rest, width);
    } else {
      assert text[1..] == Digits(n) + rest && text[0] == sign[0];
      ScanNatReads(Digits(n), rest, width - 1);
    }
  }

  lemma TwoDigitsReadBack(n: nat)
    requires n < 60
    ensures |TwoDigits(n)| == 2 && AllDigits(TwoDigits(n)) && DigitsValue(TwoDigits(n)) == n
  {
    if n < 10 {
      assert TwoDigits(n) == ['0', Digit(n)];
      assert ['0', Digit(n)][..1] == ['0'] && ['0'][..0] == [];
    } else {
      DigitsReadBack(n);
      assert Digits(n) == Digits(n / 10) + [Digit(n % 10)];
    }
  }

  lemma ScanPrinted(hour: nat, minute: nat, second: nat)
    requires minute < 60 && second < 60
    ensures ScanClock(Clock(hour, minute, second)) == (hour, minute, second)
  {
    hide ScanInt, Digits, TwoDigits, DigitsValue, AllDigits, IsDigit;
    var h, m, s := Digits(hour), TwoDigits(minute), TwoDigits(second);
    var tail := ":" + s;
    var text := h + (":" + (m + tail));
    DigitsReadBack(hour);
    TwoDigitsReadBack(minute);
    TwoDigitsReadBack(second);
    ColonIsNoDigit();
    assert Clock(hour, minute, second) == text;
    ScanDigits(h, ":" + (m + tail), |text| + 1);
    assert (":" + (m + tail))[1..] == m + tail;
    ScanDigits(m, tail, 2);
    assert tail[1..] == s + [];
    ScanDigits(s, [], 2);
  }

  lemma ColonIsNoDigit()
    ensures !IsDigit(':')
  {
  }

  /** Hours, minutes and seconds are printed as such, the last two on two digits. */
  lemma PrintedClock(hour: nat, minute: nat, second: nat, nanos: nat)
    requires minute < 60 && second < 60 && nanos < 1_000_000_000
    ensures Print((3600 * hour + 60 * minute + second) * 1_000_000_000 + nanos)
         == Digits(hour) + ":" + ["0123456789"[minute / 10], "0123456789"[minute % 10]]
            + ":" + ["0123456789"[second / 10], "0123456789"[second % 10]]
  {
    hide Print, TwoDigits, Digits;
    var seconds := 3600 * hour + 60 * minute + second;
    WholeSeconds(seconds, nanos);
    PrintOfSeconds(seconds * SECOND + nanos, hour, minute, second);
    TwoDigitsAre(minute);
    TwoDigitsAre(second);
  }

  lemma WholeSeconds(seconds: nat, nanos: nat)
    requires nanos < SECOND
    ensures (seconds * SECOND + nanos) / SECOND == seconds
  {
  }

  lemma PrintOfSeconds(t: nat, hour: nat, minute: nat, second: nat)
    requires minute < 60 && second < 60 && t / SECOND == 3600 * hour + 60 * minute + second
    ensures Print(t) == Clock(hour, minute, second)
  {
    hide Clock;
    var seconds := 3600 * hour + 60 * minute + second;
    assert seconds / 3600 == hour;
    var inHour := seconds - hour * 3600;
    assert inHour == 60 * minute + second && inHour / 60 == minute;
  }

  lemma TwoDigitsAre(n: nat)
    requires n < 60
    ensures TwoDigits(n) == ["0123456789"[n / 10], "0123456789"[n % 10]]
  {
    DigitsAreDecimal(0, n / 10);
    DigitsAreDecimal(n / 10, n % 10);
    assert 10 * (n / 10) + n % 10 == n;
    if n < 10 {
      assert "0" + ["0123456789"[n]] == ["0123456789"[0], "0123456789"[n]];
    }
  }

  /** Parsing a printed time gives it back rounded down to the second, and nothing overflows
      below 2^31 seconds. */
  lemma ParsePrint(t: nat)
    ensures Parse(Print(t)) == t / SECOND * SECOND
    ensures t / SECOND < 0x8000_0000 ==> FitsInt(Print(t))
  {
    hide Clock, ScanClock;
    var seconds := t / SECOND;
    ScanPrinted(seconds / 3600, seconds % 3600 / 60, seconds % 60);
    assert seconds == seconds / 3600 * 3600 + seconds % 3600 / 60 * 60 + seconds % 60;
  }

  /** Printing a parsed canonical time gives the string back. */
  lemma PrintParse(hour: nat, minute: nat, second: nat)
    requires minute < 60 && second < 60
    ensures Print(Parse(Clock(hour, minute, second))) == Clock(hour, minute, second)
  {
    hide Clock, ScanClock;
    ScanPrinted(hour, minute, second);
    var seconds := hour * 3600 + minute * 60 + second;
    assert SECOND * seconds / SECOND == seconds;
    assert seconds / 3600 == hour && seconds % 3600 / 60 == minute;
  }

  /** Two times print alike exactly if they agree in whole seconds. */
  lemma PrintSameIff(t: nat, u: nat)
    ensures Print(t) == Print(u) <==> t / SECOND == u / SECOND
  {
    hide Print, Parse;
    ParsePrint(t);
    ParsePrint(u);
    if t / SECOND == u / SECOND {
      PrintBySeconds(t, u);
    }
  }

  lemma PrintBySeconds(t: nat, u: nat)
    requires t / SECOND == u / SECOND
    ensures Print(t) == Print(u)
  {
  }
}
