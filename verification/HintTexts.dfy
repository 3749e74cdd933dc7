/** The wait hints error messages carry, as they are typed, with every number and unit written out. */
module HintTexts {
  import opened Prelude
  import opened Text
  import opened Search
  import opened RateHint
  import opened RateHintProofs

  /** A wait of so many seconds, but no more than a day. */
  function UpToADay(seconds: real): real
  {
    if seconds <= 86400.0 then seconds else 86400.0
  }

  lemma ClampIs(seconds: real)
    requires seconds >= 0.0
    ensures Clamped(seconds) == UpToADay(seconds)
  {
  }

  // ---- Numbers ----

  function Tenths(places: nat): real
  {
    if places == 0 then 1.0 else Tenths(places - 1) / 10.0
  }

  /** A whole number moved so many places behind the point. */
  function Shifted(n: int, places: nat): real
  {
    n as real * Tenths(places)
  }

  function Zeros(n: nat): string
  {
    seq(n, _ => '0')
  }

  /** A decimal number: a whole part, and after the point so many zeros and a number. */
  datatype Numeral = Whole(n: nat) | Decimals(n: nat, zeros: nat, digits: nat)

  function Typed(num: Numeral): string
  {
    match num
    case Whole(n) => ToDecimal(n)
    case Decimals(n, zeros, digits) => ToDecimal(n) + "." + (Zeros(zeros) + ToDecimal(digits))
  }

  function Value(num: Numeral): real
  {
    match num
    case Whole(n) => n as real
    case Decimals(n, zeros, digits) => n as real + Shifted(digits, zeros + |ToDecimal(digits)|)
  }

  predicate IsDigits(s: string)
  {
    forall i :: 0 <= i < |s| ==> '0' <= s[i] <= '9'
  }

  lemma ShiftByOne(d: real, rest: real, tens: real, tenths: real)
    requires tens * tenths == 1.0
    ensures (d * tens + rest) * (tenths / 10.0) == (d + rest * tenths) / 10.0
  {
    assert d * tens * tenths == d * (tens * tenths);
    assert (d * tens + rest) * tenths == d * tens * tenths + rest * tenths;
  }

  lemma FractionStep(d: int, rest: int, places: nat)
    ensures (d as real + Shifted(rest, places)) / 10.0 == Shifted(InFront(d, places, rest), places + 1)
  {
    TensAndTenths(places);
    ShiftByOne(d as real, rest as real, Tens(places) as real, Tenths(places));
    assert (d * Tens(places)) as real == d as real * Tens(places) as real;
  }

  lemma {:induction false} FractionOfDigits(s: string)
    requires IsDigits(s)
    ensures Fraction(s) == Shifted(Decimal(s), |s|)
    decreases |s|
  {
    if s != "" {
      FractionOfDigits(s[1..]);
      DecimalOfFirst(s);
      FractionStep(s[0] as int - '0' as int, Decimal(s[1..]), |s| - 1);
    }
  }

  /** A digit in front of so many places. */
  function InFront(d: int, places: nat, rest: int): int
  {
    d * Tens(places) + rest
  }

  function Tens(places: nat): nat
  {
    if places == 0 then 1 else 10 * Tens(places - 1)
  }

  lemma TensAndTenths(places: nat)
    ensures Tens(places) as real * Tenths(places) == 1.0
  {
    if places > 0 {
      TensAndTenths(places - 1);
      assert Tens(places) as real == 10.0 * Tens(places - 1) as real;
    }
  }

  lemma OneMorePlace(d: int, places: nat, rest: int, last: int)
    ensures 10 * InFront(d, places, rest) + last == InFront(d, places + 1, 10 * rest + last)
  {
  }

  lemma {:induction false} DecimalOfFirst(s: string)
    requires IsDigits(s) && s != ""
    ensures Decimal(s) == InFront(s[0] as int - '0' as int, |s| - 1, Decimal(s[1..]))
    decreases |s|
  {
    if |s| == 1 {
      assert s[..0] == "" && s[1..] == "";
    } else {
      var front, last := s[..|s| - 1], s[|s| - 1] as int - '0' as int;
      DecimalOfFirst(front);
      assert s[1..][..|s| - 2] == front[1..];
      assert Decimal(s[1..]) == 10 * Decimal(front[1..]) + last;
      OneMorePlace(s[0] as int - '0' as int, |s| - 2, Decimal(front[1..]), last);
    }
  }

  lemma ZeroInFront(s: string)
    requires IsDigits(s)
    ensures IsDigits("0" + s) && Decimal("0" + s) == Decimal(s)
  {
    var all := "0" + s;
    assert IsDigits(all);
    DecimalOfFirst(all);
    assert all[1..] == s && all[0] as int - '0' as int == 0;
  }

  lemma {:induction false} LeadingZeros(zeros: nat, s: string)
    requires IsDigits(s)
    ensures IsDigits(Zeros(zeros) + s) && Decimal(Zeros(zeros) + s) == Decimal(s)
  {
    if zeros == 0 {
      assert Zeros(0) + s == s;
    } else {
      LeadingZeros(zeros - 1, s);
      ZeroInFront(Zeros(zeros - 1) + s);
      assert Zeros(zeros) + s == "0" + (Zeros(zeros - 1) + s);
    }
  }

  lemma WholeIs(n: nat)
    ensures Number(ToDecimal(n)) && NumberValue(ToDecimal(n)) == n as real && All(NumberChar, ToDecimal(n))
  {
    var whole := ToDecimal(n);
    DecimalOfPrinted(n);
    RunIs(Digit, whole, |whole|);
    assert whole[..|whole|] == whole;
  }

  /** Digits, a point and digits: the point is found, and the value is the sum of both sides. */
  lemma PointedIs(whole: string, frac: string)
    requires whole != "" && IsDigits(whole) && IsDigits(frac)
    ensures var text := whole + "." + frac;
            && Number(text) && All(NumberChar, text)
            && NumberValue(text) == Decimal(whole) as real + Fraction(frac)
  {
    var text := whole + "." + frac;
    assert text[|whole|] == '.';
    assert forall i :: 0 <= i < |whole| ==> text[i] == whole[i];
    assert forall i :: |whole| < i < |text| ==> text[i] == frac[i - |whole| - 1];
    RunIs(Digit, text, |whole|);
    assert text[..|whole|] == whole && text[|whole| + 1..] == frac;
  }

  lemma ZerosAndDigits(zeros: nat, digits: nat)
    ensures var frac := Zeros(zeros) + ToDecimal(digits);
            IsDigits(frac) && Fraction(frac) == Shifted(digits, zeros + |ToDecimal(digits)|)
  {
    DecimalOfPrinted(digits);
    LeadingZeros(zeros, ToDecimal(digits));
    FractionOfDigits(Zeros(zeros) + ToDecimal(digits));
  }

  lemma DecimalsAre(n: nat, whole: string, frac: string, value: real)
    requires whole == ToDecimal(n) && IsDigits(frac) && Fraction(frac) == value
    ensures Number(whole + "." + frac) && All(NumberChar, whole + "." + frac)
    ensures NumberValue(whole + "." + frac) == n as real + value
  {
    DecimalOfPrinted(n);
    PointedIs(whole, frac);
  }

  lemma NumberIs(num: Numeral)
    ensures Number(Typed(num)) && NumberValue(Typed(num)) == Value(num) && All(NumberChar, Typed(num))
  {
    match num
    case Whole(n) => WholeIs(n);
    case Decimals(n, zeros, digits) =>
      ZerosAndDigits(zeros, digits);
      DecimalsAre(n, ToDecimal(n), Zeros(zeros) + ToDecimal(digits), Shifted(digits, zeros + |ToDecimal(digits)|));
  }

  predicate NoMoreNumber(rest: string)
  {
    rest != "" ==> !('0' <= rest[0] <= '9') && rest[0] != '.'
  }

  /** A number is read back as typed, whatever follows it that is not more of one. */
  lemma NumeralIsRead(num: Numeral, rest: string)
    requires NoMoreNumber(rest) && Value(num) < F64_LIMIT as real
    ensures ParseNumber(Typed(num) + rest) == Some(Value(num))
  {
    NumberIs(num);
    RunOf(NumberChar, Typed(num), rest);
  }

  // ---- Durations ----

  /** How many seconds a unit stands for. */
  function UnitSeconds(unit: string): Option<real>
  {
    if unit in ["ms", "msec", "millisecond", "milliseconds"] then Some(0.001)
    else if unit in ["s", "sec", "secs", "second", "seconds"] then Some(1.0)
    else if unit in ["m", "min", "mins", "minute", "minutes"] then Some(60.0)
    else if unit in ["h", "hr", "hour", "hours"] then Some(3600.0)
    else None
  }

  /** A number, spaces or none, and a unit. */
  datatype Span = Span(number: Numeral, spaces: nat, unit: string)

  predicate IsSpan(p: Span)
  {
    UnitSeconds(p.unit).Some? && Value(p.number) < F64_LIMIT as real
  }

  function TypedSpan(p: Span): string
  {
    Typed(p.number) + Spaces(p.spaces) + p.unit
  }

  function TypedSpans(spans: seq<Span>): string
  {
    if spans == [] then "" else TypedSpan(spans[0]) + TypedSpans(spans[1..])
  }

  predicate AreSpans(spans: seq<Span>)
  {
    spans != [] && forall i :: 0 <= i < |spans| ==> IsSpan(spans[i])
  }

  function Times(n: real, seconds: real): real
  {
    n * seconds
  }

  function SpanSeconds(p: Span): real
  {
    if UnitSeconds(p.unit).Some? then Times(Value(p.number), UnitSeconds(p.unit).value) else 0.0
  }

  function Seconds(spans: seq<Span>): real
  {
    if spans == [] then 0.0 else SpanSeconds(spans[0]) + Seconds(spans[1..])
  }

  /** Text that goes on with neither a letter nor a number. */
  predicate EndsSpans(rest: string)
  {
    NoMoreNumber(rest) && (rest != "" ==> !('a' <= rest[0] <= 'z') && !('A' <= rest[0] <= 'Z'))
  }

  /** The table knows a unit of those, by its letters and its seconds. */
  ghost predicate Knows(units: map<string, Unit>, unit: string, seconds: real)
  {
    unit in units && unit != "" && All(Alphabetic, unit) && forall n :: InSeconds(n, units[unit]) == n * seconds
  }

  lemma KnowsMilliseconds(unit: string)
    requires unit in ["ms", "msec", "millisecond", "milliseconds"]
    ensures Knows(UNITS, unit, 0.001)
  {
    assert UNITS[unit] == Millisecond;
  }

  lemma KnowsSeconds(unit: string)
    requires unit in ["s", "sec", "secs", "second", "seconds"]
    ensures Knows(UNITS, unit, 1.0)
  {
    assert UNITS[unit] == Second;
  }

  lemma KnowsMinutes(unit: string)
    requires unit in ["m", "min", "mins", "minute", "minutes"]
    ensures Knows(UNITS, unit, 60.0)
  {
    assert UNITS[unit] == Minute;
  }

  lemma KnowsHours(unit: string)
    requires unit in ["h", "hr", "hour", "hours"]
    ensures Knows(UNITS, unit, 3600.0)
  {
    assert UNITS[unit] == Hour;
  }

  lemma UnitIsKnown(unit: string, seconds: real)
    requires UnitSeconds(unit) == Some(seconds)
    ensures Knows(UNITS, unit, seconds)
  {
    if unit in ["ms", "msec", "millisecond", "milliseconds"] {
      KnowsMilliseconds(unit);
    } else if unit in ["s", "sec", "secs", "second", "seconds"] {
      KnowsSeconds(unit);
    } else if unit in ["m", "min", "mins", "minute", "minutes"] {
      KnowsMinutes(unit);
    } else {
      KnowsHours(unit);
    }
  }

  function PartOf(p: Span): Part
  {
    Part(Typed(p.number), p.spaces, p.unit)
  }

  function PartsOf(spans: seq<Span>): seq<Part>
  {
    seq(|spans|, i requires 0 <= i < |spans| => PartOf(spans[i]))
  }

  lemma PartIsProper(units: map<string, Unit>, part: Part, n: real, seconds: real)
    requires Number(part.number) && NumberValue(part.number) == n && All(NumberChar, part.number)
    requires n < F64_LIMIT as real && Knows(units, part.unit, seconds)
    ensures Proper(units, part) && SecondsOf(units, part) == Times(n, seconds)
  {
  }

  lemma SpanIsProper(units: map<string, Unit>, p: Span, n: real, seconds: real)
    requires n == Value(p.number) < F64_LIMIT as real && Knows(units, p.unit, seconds)
    ensures Proper(units, PartOf(p)) && SecondsOf(units, PartOf(p)) == Times(n, seconds)
  {
    NumberIs(p.number);
    PartIsProper(units, PartOf(p), n, seconds);
  }

  ghost predicate AllKnown(units: map<string, Unit>, spans: seq<Span>)
  {
    forall i :: 0 <= i < |spans| ==>
      IsSpan(spans[i]) && Knows(units, spans[i].unit, UnitSeconds(spans[i].unit).value)
  }

  lemma SpanLength(units: map<string, Unit>, p: Span)
    requires IsSpan(p) && Knows(units, p.unit, UnitSeconds(p.unit).value)
    ensures Proper(units, PartOf(p)) && SecondsOf(units, PartOf(p)) == SpanSeconds(p)
  {
    SpanIsProper(units, p, Value(p.number), UnitSeconds(p.unit).value);
  }

  lemma AllProper(units: map<string, Unit>, spans: seq<Span>)
    requires AllKnown(units, spans)
    ensures forall i :: 0 <= i < |spans| ==> Proper(units, PartsOf(spans)[i])
  {
    forall i | 0 <= i < |spans| ensures Proper(units, PartsOf(spans)[i]) {
      SpanLength(units, spans[i]);
    }
  }

  lemma {:induction false} TextsAre(spans: seq<Span>)
    ensures Concat(Texts(PartsOf(spans))) == TypedSpans(spans)
  {
    if spans != [] {
      TextsAre(spans[1..]);
      assert Texts(PartsOf(spans)) == [TypedSpan(spans[0])] + Texts(PartsOf(spans[1..]));
    }
  }

  lemma {:induction false} SumIs(spans: seq<Span>, lengths: seq<real>)
    requires |lengths| == |spans| && forall i :: 0 <= i < |spans| ==> lengths[i] == SpanSeconds(spans[i])
    ensures Sum(lengths) == Seconds(spans)
  {
    if spans != [] {
      SumIs(spans[1..], lengths[1..]);
    }
  }

  lemma SpansAre(units: map<string, Unit>, spans: seq<Span>)
    requires AllKnown(units, spans)
    ensures forall i :: 0 <= i < |spans| ==> Proper(units, PartsOf(spans)[i])
    ensures Sum(Lengths(units, PartsOf(spans))) == Seconds(spans)
  {
    AllProper(units, spans);
    forall i | 0 <= i < |spans| ensures Lengths(units, PartsOf(spans))[i] == SpanSeconds(spans[i]) {
      SpanLength(units, spans[i]);
    }
    SumIs(spans, Lengths(units, PartsOf(spans)));
  }

  lemma UnitsAreKnown(spans: seq<Span>)
    requires forall i :: 0 <= i < |spans| ==> IsSpan(spans[i])
    ensures AllKnown(UNITS, spans)
  {
    forall i | 0 <= i < |spans| ensures Knows(UNITS, spans[i].unit, UnitSeconds(spans[i].unit).value) {
      UnitIsKnown(spans[i].unit, UnitSeconds(spans[i].unit).value);
    }
  }

  lemma {:induction false} SecondsArePositive(spans: seq<Span>)
    ensures Seconds(spans) >= 0.0
  {
    if spans != [] {
      SecondsArePositive(spans[1..]);
      ValueIsPositive(spans[0].number);
    }
  }

  lemma ValueIsPositive(num: Numeral)
    ensures Value(num) >= 0.0
  {
    if num.Decimals? {
      TensAndTenths(num.zeros + |ToDecimal(num.digits)|);
    }
  }

  lemma NothingToRead(rest: string)
    requires EndsSpans(rest)
    ensures Stops(Stepper(UNITS), rest)
  {
    assert Run(NumberChar, rest) == 0;
    assert rest[..0] == "";
  }

  /** Numbers with units, typed one after the other, are read as the seconds they add up to, up to a day. */
  lemma SpansAreRead(spans: seq<Span>, rest: string)
    requires AreSpans(spans) && EndsSpans(rest)
    ensures Duration(TypedSpans(spans) + rest) == Some(UpToADay(Seconds(spans)))
  {
    UnitsAreKnown(spans);
    SpansAre(UNITS, spans);
    TextsAre(spans);
    NothingToRead(rest);
    DurationOfPrinted(UNITS, PartsOf(spans), rest);
    SecondsArePositive(spans);
  }

  lemma OnlyTheseUnits(unit: string)
    requires unit in UNITS
    ensures UnitSeconds(unit).Some?
  {
  }

  lemma NoStep(units: map<string, Unit>, number: string, spaces: nat, letters: string, rest: string)
    requires All(NumberChar, number) && letters != "" && All(Alphabetic, letters) && StartsOther(rest)
    requires letters !in units
    ensures DurationStep(units, number + (Spaces(spaces) + (letters + rest))) == None
  {
    EndsOf(number, spaces, letters, rest);
  }

  /** A to Z and a to z. */
  predicate Letters(text: string)
  {
    forall i :: 0 <= i < |text| ==> 65 <= text[i] as int <= 90 || 97 <= text[i] as int <= 122
  }

  /** A number whose letters are no unit is no duration. */
  lemma OtherUnitsAreNotRead(num: Numeral, spaces: nat, letters: string, rest: string)
    requires UnitSeconds(letters).None? && letters != "" && Letters(letters) && EndsSpans(rest)
    ensures Duration(Typed(num) + (Spaces(spaces) + (letters + rest))) == None
  {
    NumberIs(num);
    assert letters !in UNITS by {
      if letters in UNITS {
        OnlyTheseUnits(letters);
      }
    }
    NoStep(UNITS, Typed(num), spaces, letters, rest);
  }

  // ---- Messages ----

  /** `name` stands first at `at` in the message. */
  predicate StandsFirst(m: string, name: string, at: nat)
  {
    OccursAt(m, name, at) && forall i :: 0 <= i < at ==> !OccursAt(m, name, i)
  }

  predicate Separates(seps: string)
  {
    forall i :: 0 <= i < |seps| ==> seps[i] in ['"', '\\', '\'', ':', '=', ' ']
  }

  /** The message is so far, then the name, then what follows. */
  predicate Cut(m: string, before: string, name: string, after: string)
  {
    m == before + name + after && StandsFirst(m, name, |before|)
  }

  lemma CutIsFound(m: string, before: string, name: string, after: string)
    requires Cut(m, before, name, after)
    ensures Find(m, name, 0) == Some(|before|) && m[|before| + |name|..] == after
  {
    FindIs(m, name, 0, |before|);
  }

  lemma {:induction false} AbsentIsNotFound(m: string, name: string, from: nat)
    requires !Contains(m, name) && from <= |m|
    ensures Find(m, name, from) == None
    decreases |m| - from
  {
    if from < |m| {
      AbsentIsNotFound(m, name, from + 1);
    }
  }

  lemma SeparatorsAreSkipped(seps: string, text: string)
    requires Separates(seps) && text != "" && '0' <= text[0] <= '9'
    ensures SkipSeparators(seps + text) == text
  {
    assert All(Separator, seps);
    RunOf(Separator, seps, text);
  }

  lemma TypedStarts(num: Numeral, rest: string)
    ensures var text := Typed(num) + rest; text != "" && '0' <= text[0] <= '9'
  {
    assert Digit(ToDecimal(num.n)[0]);
  }

  /** Milliseconds in the header's own words, whatever else the message says, are what is waited, up to a day. */
  lemma MillisecondsAreRead(who: string, status: string, ms: nat, body: string)
    requires !Contains(Lower(who), "retry-after-ms") && !Contains(Lower(status), "retry-after-ms") && ms < F64_LIMIT
    ensures RetryHint(who + " returned " + status + " (" + "retry-after-ms" + (": " + ToDecimal(ms) + "): " + body))
            == Some(if ms <= 86_400_000 then ms as real / 1000.0 else 86400.0)
  {
    RetryHintSurvives(who, status, ms, body);
    assert ErrorText(who, status, ms, body)
           == who + " returned " + status + " (" + "retry-after-ms" + (": " + ToDecimal(ms) + "): " + body);
  }

  lemma NoMilliseconds(msg: string)
    requires !Contains(Lower(msg), "retry-after-ms")
    ensures RetryHint(msg) == WeakerHint(Lower(msg))
  {
    AbsentIsNotFound(Lower(msg), KEY_MS, 0);
  }

  lemma FirstIsReadable(m: string, before: string, after: string, seconds: real)
    requires Find(m, KEY, 0) == Some(|before|) && m[|before| + |KEY|..] == after
    requires (after == "" || after[0] != '-') && ParseNumber(SkipSeparators(after)) == Some(seconds)
    ensures WeakerHint(m) == Some(Clamped(seconds))
  {
    assert ReadRetryAfter(after) == Some(Clamped(seconds));
    assert FirstRead(ReadRetryAfter, m, KEY, 0) == Some(Clamped(seconds));
  }

  lemma SecondsFromText(m: string, before: string, seps: string, text: string, seconds: real)
    requires Cut(m, before, "retry-after", seps + text) && Separates(seps)
    requires text != "" && '0' <= text[0] <= '9' && ParseNumber(text) == Some(seconds) && seconds >= 0.0
    ensures WeakerHint(m) == Some(UpToADay(seconds))
  {
    CutIsFound(m, before, KEY, seps + text);
    SeparatorsAreSkipped(seps, text);
    ClampIs(seconds);
    assert (seps + text)[0] == if seps == "" then text[0] else seps[0];
    FirstIsReadable(m, before, seps + text, seconds);
  }

  /** Without a header in milliseconds, seconds after the first `retry-after` are what is waited, up to a day. */
  lemma SecondsAreRead(msg: string, before: string, seps: string, num: Numeral, rest: string)
    requires Cut(Lower(msg), before, "retry-after", seps + (Typed(num) + rest)) && Separates(seps) && NoMoreNumber(rest)
    requires !Contains(Lower(msg), "retry-after-ms") && Value(num) < F64_LIMIT as real
    ensures RetryHint(msg) == Some(UpToADay(Value(num)))
  {
    NoMilliseconds(msg);
    TypedStarts(num, rest);
    NumeralIsRead(num, rest);
    ValueIsPositive(num);
    SecondsFromText(Lower(msg), before, seps, Typed(num) + rest, Value(num));
  }

  lemma LongerIsAbsent(m: string, name: string, more: string)
    requires !Contains(m, name)
    ensures !Contains(m, name + more)
  {
    forall i | OccursAt(m, name + more, i) ensures OccursAt(m, name, i) {
      assert m[i..i + |name|] == m[i..i + |name + more|][..|name|];
    }
  }

  lemma NoRetryAfter(msg: string)
    requires !Contains(Lower(msg), "retry-after")
    ensures !Contains(Lower(msg), "retry-after-ms") && RetryHint(msg) == WeakerHint(Lower(msg))
    ensures RetryAfter(Lower(msg)) == None
  {
    LongerIsAbsent(Lower(msg), "retry-after", "-ms");
    assert "retry-after" + "-ms" == "retry-after-ms";
    NoMilliseconds(msg);
    AbsentIsNotFound(Lower(msg), KEY, 0);
  }

  lemma SpansStart(spans: seq<Span>, rest: string)
    requires AreSpans(spans)
    ensures var text := TypedSpans(spans) + rest; text != "" && '0' <= text[0] <= '9'
  {
    var number := Typed(spans[0].number);
    TypedStarts(spans[0].number, "");
    assert number + "" == number;
    assert TypedSpan(spans[0])[0] == number[0];
    assert TypedSpans(spans)[0] == TypedSpan(spans[0])[0];
  }

  /** Without a `retry-after`, what follows the first "try again in" is what is waited, up to a day. */
  lemma ProseIsRead(msg: string, before: string, blanks: string, spans: seq<Span>, rest: string)
    requires Cut(Lower(msg), before, "try again in", blanks + (TypedSpans(spans) + rest)) && All(Whitespace, blanks)
    requires !Contains(Lower(msg), "retry-after") && AreSpans(spans) && EndsSpans(rest)
    ensures RetryHint(msg) == Some(UpToADay(Seconds(spans)))
  {
    NoRetryAfter(msg);
    CutIsFound(Lower(msg), before, PROSE, blanks + (TypedSpans(spans) + rest));
    SpansStart(spans, rest);
    RunOf(Whitespace, blanks, TypedSpans(spans) + rest);
    SpansAreRead(spans, rest);
  }

  /** Where in a message a reset header stands and what it says. */
  datatype Reset = Reset(before: string, seps: string, spans: seq<Span>, rest: string)

  predicate Says(m: string, name: string, reset: Option<Reset>)
    requires name != ""
  {
    if reset.None? then forall i :: 0 <= i <= |m| ==> !OccursAt(m, name, i)
    else
      var r := reset.value;
      && Cut(m, r.before, name, r.seps + (TypedSpans(r.spans) + r.rest))
      && Separates(r.seps) && AreSpans(r.spans) && EndsSpans(r.rest)
  }

  function Wait(reset: Option<Reset>): Option<real>
  {
    if reset.None? then None else Some(UpToADay(Seconds(reset.value.spans)))
  }

  lemma ResetIsRead(m: string, name: string, reset: Option<Reset>)
    requires name != "" && Says(m, name, reset)
    ensures DurationAfter(m, name) == Wait(reset)
  {
    if reset.None? {
      AbsentIsNotFound(m, name, 0);
    } else {
      var r := reset.value;
      CutIsFound(m, r.before, name, r.seps + (TypedSpans(r.spans) + r.rest));
      SpansStart(r.spans, r.rest);
      SeparatorsAreSkipped(r.seps, TypedSpans(r.spans) + r.rest);
      SpansAreRead(r.spans, r.rest);
    }
  }

  lemma OnlyResets(m: string)
    requires RetryAfter(m) == None && !Contains(m, "try again in")
    ensures WeakerHint(m) == Longest(DurationAfter(m, "x-ratelimit-reset-requests"),
                                     DurationAfter(m, "x-ratelimit-reset-tokens"))
  {
    AbsentIsNotFound(m, PROSE, 0);
  }

  lemma LongerOf(a: Option<real>, b: Option<real>)
    ensures Longest(a, b) ==
            if a.None? then b else if b.None? then a else if a.value >= b.value then a else b
  {
  }

  /** With neither, the longer of the two reset headers is what is waited, or the one there is, or nothing. */
  lemma ResetsAreRead(msg: string, requests: Option<Reset>, tokens: Option<Reset>, a: Option<real>, b: Option<real>)
    requires !Contains(Lower(msg), "retry-after") && !Contains(Lower(msg), "try again in")
    requires Says(Lower(msg), "x-ratelimit-reset-requests", requests) && a == Wait(requests)
    requires Says(Lower(msg), "x-ratelimit-reset-tokens", tokens) && b == Wait(tokens)
    ensures RetryHint(msg) ==
            if a.None? then b else if b.None? then a else if a.value >= b.value then a else b
  {
    var m := Lower(msg);
    ResetIsRead(m, "x-ratelimit-reset-requests", requests);
    ResetIsRead(m, "x-ratelimit-reset-tokens", tokens);
    assert RetryHint(msg) == Longest(a, b) by {
      NoRetryAfter(msg);
      OnlyResets(m);
    }
    LongerOf(a, b);
  }

  lemma NoHeaderIn(s: string)
    requires forall i :: 0 <= i <= |s| - 14 ==> s[i] != 'r'
    ensures !Contains(s, "retry-after-ms")
  {
    forall i ensures !OccursAt(s, "retry-after-ms", i) {
      if 0 <= i <= |s| - 14 {
        assert s[i..i + 14][0] == s[i];
      }
    }
  }

  lemma PrintedNumber(n: nat)
    requires n == 2000
    ensures ToDecimal(n) == "2000"
  {
    assert ToDecimal(n / 10) == ToDecimal(n / 100) + "0" && ToDecimal(n / 100) == "2" + "0";
  }

  lemma NoHeaderInThese(who: string, status: string)
    requires who == "api.openai.com" && status == "429 Too Many Requests"
    ensures !Contains(Lower(who), "retry-after-ms") && !Contains(Lower(status), "retry-after-ms")
  {
    NoHeaderIn(Lower(who));
    NoHeaderIn(Lower(status));
  }

  /** A message as it comes. */
  lemma TwoSeconds(who: string, status: string, n: nat)
    requires who == "api.openai.com" && status == "429 Too Many Requests" && n == 2000
    ensures RetryHint(who + " returned " + status + " (" + "retry-after-ms" + (": " + "2000" + "): " + "{}"))
            == Some(2.0)
  {
    PrintedNumber(n);
    NoHeaderInThese(who, status);
    MillisecondsAreRead(who, status, n, "{}");
  }

  lemma SixMinutesTyped(six: Span, none: Span)
    requires six == Span(Whole(6), 0, "m") && none == Span(Whole(0), 0, "s")
    ensures TypedSpan(six) == "6m" && TypedSpan(none) == "0s"
  {
  }

  lemma SixMinutesLast(six: Span, none: Span, spans: seq<Span>)
    requires six == Span(Whole(6), 0, "m") && none == Span(Whole(0), 0, "s") && spans == [six, none]
    ensures TypedSpans(spans) + "" == "6m0s" && Seconds(spans) == 360.0
  {
    var last := [none];
    SixMinutesTyped(six, none);
    assert last[1..] == [] && TypedSpans(last) == "0s" && Seconds(last) == 0.0;
    assert spans[1..] == last;
  }

  /** A duration as it comes. */
  lemma SixMinutes(text: string)
    requires text == "6m0s"
    ensures Duration(text) == Some(360.0)
  {
    var spans: seq<Span> :| spans == [Span(Whole(6), 0, "m"), Span(Whole(0), 0, "s")];
    SixMinutesLast(spans[0], spans[1], spans);
    SpansAreRead(spans, "");
  }
}
