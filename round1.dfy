/** The Round 1 quiz page (client/src/pages/Round1.tsx): a 30-minute
    countdown ticked once a second, shown as MM:SS. */
module Round1 {
  import opened Wrappers

  /** The initial `timeLeft`: 30 minutes, in seconds. */
  const QuizSeconds := 30 * 60

  predicate IsDigit(c: char)
  {
    '0' <= c <= '9'
  }

  predicate AllDigits(s: string)
  {
    forall i :: 0 <= i < |s| ==> IsDigit(s[i])
  }

  function DigitChar(d: nat): (c: char)
    requires d < 10
    ensures IsDigit(c)
  {
    ('0' as int + d) as char
  }

  function DigitValue(c: char): (d: nat)
    requires IsDigit(c)
    ensures d < 10
  {
    c as int - '0' as int
  }

  /** `n.toString()` for a whole number: its decimal digits, no leading zero. */
  function Decimal(n: nat): (s: string)
    ensures |s| >= 1 && AllDigits(s)
    ensures n < 10 ==> |s| == 1
    ensures 10 <= n < 100 ==> |s| == 2
    ensures n >= 10 ==> s[0] != '0'
  {
    if n < 10 then [DigitChar(n)] else Decimal(n / 10) + [DigitChar(n % 10)]
  }

  /** `s.padStart(2, '0')`: zeros in front until the string is 2 long. */
  function PadStart2(s: string): (r: string)
    ensures |r| == if |s| < 2 then 2 else |s|
    ensures |r| >= |s| && r[|r| - |s|..] == s
    ensures forall i :: 0 <= i < |r| - |s| ==> r[i] == '0'
  {
    if |s| >= 2 then s else if |s| == 1 then ['0'] + s else ['0', '0']
  }

  /** `formatTime`: whole minutes and the remaining seconds, each padded to
      two digits, joined by a colon. */
  function FormatTime(seconds: nat): (r: string)
    ensures |r| >= 5 && r[|r| - 3] == ':'
  {
    Clock(seconds / 60, seconds % 60)
  }

  /** The two padded fields joined by a colon. */
  function Clock(mins: nat, secs: nat): (r: string)
    ensures |r| >= 5
    ensures secs < 100 ==> r[|r| - 3] == ':'
  {
    PadStart2(Decimal(mins)) + [':'] + PadStart2(Decimal(secs))
  }

  /** The number a digit string denotes (leading zeros allowed). */
  function DigitsValue(s: string): nat
    requires AllDigits(s)
  {
    if s == [] then 0 else DigitsValue(s[..|s| - 1]) * 10 + DigitValue(s[|s| - 1])
  }

  /** The index of the first ':' in `t`, or `|t|` when there is none. */
  function ColonIndex(t: string): (i: nat)
    ensures i <= |t|
    ensures i < |t| ==> t[i] == ':'
  {
    if t == [] then 0 else if t[0] == ':' then 0 else 1 + ColonIndex(t[1..])
  }

  /** Reads an "M...M:SS" display back as a number of seconds. */
  function ParseClock(t: string): Option<nat>
  {
    var i := ColonIndex(t);
    if i == |t| then None else ParseFields(t[..i], t[i + 1..])
  }

  /** Minutes and seconds fields, each a non-empty digit string. */
  function ParseFields(mm: string, ss: string): Option<nat>
  {
    if mm != [] && ss != [] && AllDigits(mm) && AllDigits(ss) then
      Some(DigitsValue(mm) * 60 + DigitsValue(ss))
    else None
  }

  lemma {:induction false} DecimalValue(n: nat)
    ensures DigitsValue(Decimal(n)) == n
  {
    if n >= 10 {
      DecimalValue(n / 10);
      var s := Decimal(n);
      assert s[..|s| - 1] == Decimal(n / 10);
    }
  }

  /** A leading zero does not change a digit string's value. */
  lemma {:induction false} LeadingZeroValue(s: string)
    requires AllDigits(s)
    ensures AllDigits(['0'] + s)
    ensures DigitsValue(['0'] + s) == DigitsValue(s)
  {
    if s != [] {
      var t := ['0'] + s;
      assert t[..|t| - 1] == ['0'] + s[..|s| - 1];
      LeadingZeroValue(s[..|s| - 1]);
    }
  }

  lemma {:induction false} PaddedValue(n: nat)
    ensures AllDigits(PadStart2(Decimal(n)))
    ensures DigitsValue(PadStart2(Decimal(n))) == n
  {
    var s := Decimal(n);
    DecimalValue(n);
    if |s| < 2 {
      LeadingZeroValue(s);
    }
  }

  /** In digits followed by a colon, the first colon is the one after the digits. */
  lemma {:induction false} ColonAfterDigits(mm: string, rest: string)
    requires AllDigits(mm)
    ensures ColonIndex(mm + [':'] + rest) == |mm|
  {
    if mm != [] {
      assert (mm + [':'] + rest)[1..] == mm[1..] + [':'] + rest;
      ColonAfterDigits(mm[1..], rest);
    }
  }

  lemma {:induction false} ParseClockFields(mm: string, ss: string)
    requires mm != [] && ss != [] && AllDigits(mm) && AllDigits(ss)
    ensures ParseClock(mm + [':'] + ss) == ParseFields(mm, ss)
  {
    var t := mm + [':'] + ss;
    ColonAfterDigits(mm, ss);
    assert t[..|mm|] == mm;
    assert t[|mm| + 1..] == ss;
  }

  lemma {:induction false} FieldsValue(mm: string, ss: string)
    requires mm != [] && ss != [] && AllDigits(mm) && AllDigits(ss)
    ensures ParseFields(mm, ss) == Some(DigitsValue(mm) * 60 + DigitsValue(ss))
  {
  }

  /** Two digit fields joined by a colon read back as minutes and seconds. */
  lemma {:induction false} ParseJoined(mm: string, ss: string, mins: nat, secs: nat)
    requires mm != [] && ss != [] && AllDigits(mm) && AllDigits(ss)
    requires DigitsValue(mm) == mins && DigitsValue(ss) == secs
    ensures ParseClock(mm + [':'] + ss) == Some(mins * 60 + secs)
  {
    ParseClockFields(mm, ss);
    FieldsValue(mm, ss);
  }

  lemma {:induction false} ClockRoundTrip(mins: nat, secs: nat)
    ensures ParseClock(Clock(mins, secs)) == Some(mins * 60 + secs)
  {
    PaddedValue(mins);
    PaddedValue(secs);
    ParseJoined(PadStart2(Decimal(mins)), PadStart2(Decimal(secs)), mins, secs);
  }

  /** The display determines the time: parsing `formatTime(s)` gives back `s`
      for every whole number of seconds, also past 99 minutes. */
  lemma {:induction false} FormatTimeRoundTrip(seconds: nat)
    ensures ParseClock(FormatTime(seconds)) == Some(seconds)
  {
    var mins, secs := seconds / 60, seconds % 60;
    calc {
      ParseClock(FormatTime(seconds));
      { ParseBack(FormatTime(seconds), mins, secs); }
      Some(mins * 60 + secs);
      Some(seconds);
    }
  }

  /** Any string equal to a clock display parses back to its seconds. */
  lemma {:induction false} ParseBack(t: string, mins: nat, secs: nat)
    requires t == Clock(mins, secs)
    ensures ParseClock(t) == Some(mins * 60 + secs)
  {
    ClockRoundTrip(mins, secs);
  }

  /** Below 100 minutes the display is exactly five characters, MM:SS. */
  lemma {:induction false} FormatTimeWidth(seconds: nat)
    requires seconds < 6000
    ensures |FormatTime(seconds)| == 5
  {
    assert seconds / 60 < 100;
  }

  /** The starting time shows as "30:00". */
  lemma {:induction false} FormatTimeStart()
    ensures FormatTime(QuizSeconds) == "30:00"
  {
    ThirtyPadded();
    ZeroPadded();
    FormatAsFields(QuizSeconds, 30, 0, ['3', '0'], ['0', '0']);
  }

  /** `formatTime` of `mins * 60 + secs` joins the padded fields of both. */
  lemma {:induction false} FormatAsFields(seconds: nat, mins: nat, secs: nat, mm: string, ss: string)
    requires seconds == mins * 60 + secs && secs < 60
    requires PadStart2(Decimal(mins)) == mm && PadStart2(Decimal(secs)) == ss
    requires |mm| == 2 && |ss| == 2
    ensures FormatTime(seconds) == [mm[0], mm[1], ':', ss[0], ss[1]]
  {
    FormatAsClock(seconds, mins, secs);
    JoinFields(mm, ss);
  }

  /** Two two-character fields joined by a colon, character by character. */
  lemma {:induction false} JoinFields(mm: string, ss: string)
    requires |mm| == 2 && |ss| == 2
    ensures mm + [':'] + ss == [mm[0], mm[1], ':', ss[0], ss[1]]
  {
  }

  lemma {:induction false} ThirtyPadded()
    ensures PadStart2(Decimal(30)) == ['3', '0']
  {
    assert Decimal(3) == ['3'];
  }

  /** `formatTime` splits a time into its minutes and the seconds below 60. */
  lemma {:induction false} FormatAsClock(seconds: nat, mins: nat, secs: nat)
    requires seconds == mins * 60 + secs && secs < 60
    ensures FormatTime(seconds) == Clock(mins, secs)
  {
    assert seconds / 60 == mins && seconds % 60 == secs;
  }

  lemma {:induction false} ZeroPadded()
    ensures PadStart2(Decimal(0)) == ['0', '0']
  {
    assert Decimal(0) == ['0'];
  }

  /** Time up shows as "00:00". */
  lemma {:induction false} FormatTimeZero()
    ensures FormatTime(0) == "00:00"
  {
    ZeroPadded();
    FormatAsFields(0, 0, 0, ['0', '0'], ['0', '0']);
  }

  /** The interval's updater: one second less, never below zero. */
  function NextTime(t: int): (r: int)
    ensures r >= 0
    ensures t >= 0 ==> r <= t
    ensures t > 0 ==> r < t
  {
    if t > 0 then t - 1 else 0
  }

  /** The time left after `n` ticks from `t`. */
  function AfterTicks(t: int, n: nat): int
    decreases n
  {
    if n == 0 then t else AfterTicks(NextTime(t), n - 1)
  }

  /** `n` ticks take `n` seconds off, stopping at zero. */
  lemma {:induction false} AfterTicksClosedForm(t: nat, n: nat)
    ensures AfterTicks(t, n) == if n <= t then t - n else 0
  {
    if n > 0 {
      AfterTicksClosedForm(NextTime(t), n - 1);
    }
  }

  class Countdown {
    var timeLeft: int

    ghost predicate Valid()
      reads this
    {
      0 <= timeLeft <= QuizSeconds
    }

    constructor ()
      ensures Valid() && timeLeft == QuizSeconds
    {
      timeLeft := QuizSeconds;
    }

    /** One interval tick. */
    method Tick()
      requires Valid()
      modifies this
      ensures Valid()
      ensures timeLeft == NextTime(old(timeLeft))
    {
      timeLeft := if timeLeft > 0 then timeLeft - 1 else 0;
    }

    /** The timer text; every reachable time shows as MM:SS. */
    function Display(): (s: string)
      reads this
      requires Valid()
      ensures |s| == 5
      ensures ParseClock(s) == Some(timeLeft)
    {
      FormatTimeWidth(timeLeft);
      FormatTimeRoundTrip(timeLeft);
      FormatTime(timeLeft)
    }
  }
}
