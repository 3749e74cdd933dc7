/**
  Reading a server's wait hint back out of an error message. Numbers are exact reals here; the one trait
  of 64-bit floats kept is that a number too large for them is not finite and is not a number at all.
 */
module RateHint {
  import opened Prelude
  import opened Search
  import opened Text

  // ---- Text ----

  function LowerChar(c: char): char
  {
    if 'A' <= c <= 'Z' then (c as int + 32) as char else c
  }

  /** ASCII lower-casing, character by character. */
  function Lower(s: string): (r: string)
    ensures |r| == |s|
    ensures forall i :: 0 <= i < |s| ==> r[i] == LowerChar(s[i])
    ensures forall i :: 0 <= i < |s| ==>
              r[i] as int == if 65 <= s[i] as int <= 90 then s[i] as int + 32 else s[i] as int
  {
    seq(|s|, i requires 0 <= i < |s| => LowerChar(s[i]))
  }

  predicate Digit(c: char) { '0' <= c <= '9' }

  predicate NumberChar(c: char) { Digit(c) || c == '.' }

  predicate Alphabetic(c: char) { 'a' <= c <= 'z' || 'A' <= c <= 'Z' }

  predicate Space(c: char) { c == ' ' }

  predicate Separator(c: char) { c in {'"', '\\', '\'', ':', '=', ' '} }

  // ---- Numbers ----

  function Decimal(digits: string): nat
    requires forall i :: 0 <= i < |digits| ==> Digit(digits[i])
  {
    if digits == [] then 0
    else
      assert Digit(digits[|digits| - 1]);
      10 * Decimal(digits[..|digits| - 1]) + (digits[|digits| - 1] as int - '0' as int)
  }

  /** The digits after a point. */
  function Fraction(digits: string): real
    requires forall i :: 0 <= i < |digits| ==> Digit(digits[i])
  {
    if digits == [] then 0.0
    else ((digits[0] as int - '0' as int) as real + Fraction(digits[1..])) / 10.0
  }

  /** The point of a number's text, or its length when it has none. */
  function Point(run: string): nat
  {
    Run(Digit, run)
  }

  /** Digits with at most one point, and at least one digit. */
  predicate Number(run: string)
  {
    var p := Point(run);
    && |run| >= 1 && run != "."
    && (p < |run| ==> run[p] == '.' && forall i :: p < i < |run| ==> Digit(run[i]))
  }

  function NumberValue(run: string): real
    requires Number(run)
  {
    var p := Point(run);
    Decimal(run[..p]) as real + (if p < |run| then Fraction(run[p + 1..]) else 0.0)
  }

  /** The least value that rounds to infinity in a 64-bit float. */
  const F64_LIMIT: int :=
    0xFFFFFFFFFFFFFC00000000000000000000000000000000000000000000000000000000000000000000000000000000000000000000000000000000000000000000000000000000000000000000000000000000000000000000000000000000000000000000000000000000000000000000000000000000000000000000000000

  function ParseNumber(s: string): Option<real>
  {
    var run := s[..Run(NumberChar, s)];
    if Number(run) && NumberValue(run) < F64_LIMIT as real then Some(NumberValue(run)) else None
  }

  function ToDecimal(n: nat): (s: string)
    ensures |s| >= 1 && forall i :: 0 <= i < |s| ==> Digit(s[i])
  {
    var digit := [('0' as int + n % 10) as char];
    if n < 10 then digit else ToDecimal(n / 10) + digit
  }

  lemma {:induction false} DecimalOfPrinted(n: nat)
    ensures Decimal(ToDecimal(n)) == n
  {
    var s := ToDecimal(n);
    if n >= 10 {
      DecimalOfPrinted(n / 10);
      assert s[..|s| - 1] == ToDecimal(n / 10);
    } else {
      assert s[..|s| - 1] == "";
    }
  }

  /** A printed whole number is read back, whatever follows it, if that is not more of a number. */
  lemma ParsePrinted(n: nat, rest: string)
    requires n < F64_LIMIT && (rest != "" ==> !NumberChar(rest[0]))
    ensures ParseNumber(ToDecimal(n) + rest) == Some(n as real)
  {
    var digits := ToDecimal(n);
    RunIs(NumberChar, digits + rest, |digits|);
    assert (digits + rest)[..|digits|] == digits;
    RunIs(Digit, digits, |digits|);
    assert digits[..|digits|] == digits;
    DecimalOfPrinted(n);
  }

  // ---- Hints ----

  const KEY_MS := "retry-after-ms"
  const KEY := "retry-after"
  const PROSE := "try again in"
  const RESETS: seq<string> := ["x-ratelimit-reset-requests", "x-ratelimit-reset-tokens"]
  const DAY: real := 86400.0

  /** Seconds, kept within a day. */
  function Clamped(s: real): real
  {
    if s < 0.0 then 0.0 else if s > DAY then DAY else s
  }

  function SkipSeparators(s: string): string
  {
    s[Run(Separator, s)..]
  }

  function ValueAfter(m: string, key: string): Option<string>
  {
    match Find(m, key, 0)
    case Some(i) => Some(SkipSeparators(m[i + |key|..]))
    case None => None
  }

  datatype Unit = Millisecond | Second | Minute | Hour

  function InSeconds(n: real, unit: Unit): real
  {
    match unit
    case Millisecond => n * 0.001
    case Second => n
    case Minute => n * 60.0
    case Hour => n * 3600.0
  }

  /** The unit spellings understood. */
  const UNITS: map<string, Unit> :=
    map["ms" := Millisecond, "msec" := Millisecond, "milliseconds" := Millisecond, "millisecond" := Millisecond,
        "s" := Second, "sec" := Second, "secs" := Second, "second" := Second, "seconds" := Second,
        "m" := Minute, "min" := Minute, "mins" := Minute, "minute" := Minute, "minutes" := Minute,
        "h" := Hour, "hr" := Hour, "hour" := Hour, "hours" := Hour]

  /** How far the number, then the spaces, then the unit at the front of `s` reach. */
  function NumberEnd(s: string): (n: nat)
    ensures n <= |s|
  {
    Run(NumberChar, s)
  }

  function SpacesEnd(s: string): (n: nat)
    ensures NumberEnd(s) <= n <= |s|
  {
    NumberEnd(s) + Run(Space, s[NumberEnd(s)..])
  }

  function UnitEnd(s: string): (n: nat)
    ensures SpacesEnd(s) <= n <= |s|
  {
    SpacesEnd(s) + Run(Alphabetic, s[SpacesEnd(s)..])
  }

  /** One number with its unit at the front of `s`: the seconds it stands for and the text it takes. */
  function DurationStep(units: map<string, Unit>, s: string): (r: Option<(real, nat)>)
    ensures r.Some? ==> 0 < r.value.1 <= |s|
  {
    match ParseNumber(s)
    case None => None
    case Some(n) =>
      var unit := s[SpacesEnd(s)..UnitEnd(s)];
      if unit in units then Some((InSeconds(n, units[unit]), UnitEnd(s))) else None
  }

  /** A way to read one number with its unit that takes some of the text whenever it succeeds. */
  ghost predicate Advances(step: string -> Option<(real, nat)>)
  {
    forall s :: step(s).Some? ==> 0 < step(s).value.1 <= |s|
  }

  function Stepper(units: map<string, Unit>): (step: string -> Option<(real, nat)>)
    ensures Advances(step)
  {
    s => DurationStep(units, s)
  }

  /** The sum of the leading numbers with units, if there is at least one. */
  function DurationFrom(step: string -> Option<(real, nat)>, s: string, total: real, any: bool): Option<real>
    requires Advances(step)
    decreases |s|
  {
    match step(s)
    case None => if any then Some(Clamped(total)) else None
    case Some((seconds, used)) => DurationFrom(step, s[used..], total + seconds, true)
  }

  method ParseDuration(step: string -> Option<(real, nat)>, text: string) returns (r: Option<real>)
    requires Advances(step)
    ensures r == DurationFrom(step, text, 0.0, false)
  {
    var s, total, any := text, 0.0, false;
    while true
      invariant DurationFrom(step, s, total, any) == DurationFrom(step, text, 0.0, false)
      decreases |s|
    {
      var read := step(s);
      if read.None? {
        break;
      }
      total := total + read.value.0;
      any := true;
      s := s[read.value.1..];
    }
    r := if any then Some(Clamped(total)) else None;
  }

  function Duration(text: string): Option<real>
  {
    DurationFrom(Stepper(UNITS), text, 0.0, false)
  }

  /** The wait after a `retry-after`, unless that is the start of a longer name. */
  function ReadRetryAfter(rest: string): Option<real>
  {
    if rest != "" && rest[0] == '-' then None
    else
      match ParseNumber(SkipSeparators(rest))
      case Some(s) => Some(Clamped(s))
      case None => None
  }

  function RetryAfter(m: string): Option<real>
  {
    FirstRead(ReadRetryAfter, m, KEY, 0)
  }

  function DurationAfter(m: string, key: string): Option<real>
  {
    match ValueAfter(m, key)
    case Some(text) => Duration(text)
    case None => None
  }

  function Longest(a: Option<real>, b: Option<real>): Option<real>
  {
    if a.None? then b else if b.None? then a else if a.value > b.value then a else b
  }

  function ProseHint(m: string): Option<real>
  {
    match Find(m, PROSE, 0)
    case Some(i) =>
      var text := m[i + |PROSE|..];
      Duration(text[Run(Whitespace, text)..])
    case None => None
  }

  /** What is left to go by without a millisecond header. */
  function WeakerHint(m: string): Option<real>
  {
    if RetryAfter(m).Some? then RetryAfter(m)
    else if ProseHint(m).Some? then ProseHint(m)
    else Longest(DurationAfter(m, RESETS[0]), DurationAfter(m, RESETS[1]))
  }

  /** The millisecond hint `read` finds in a message, or else what `weaker` makes of it. */
  function HintOr(read: string -> Option<real>, weaker: string -> Option<real>, msg: string): Option<real>
  {
    var m := Lower(msg);
    match ValueAfter(m, KEY_MS)
    case None => weaker(m)
    case Some(text) =>
      match read(text)
      case Some(ms) => Some(Clamped(ms / 1000.0))
      case None => weaker(m)
  }

  /** The wait a message asks for, in order of precision. */
  function RetryHint(msg: string): Option<real>
  {
    HintOr(ParseNumber, WeakerHint, msg)
  }
}
