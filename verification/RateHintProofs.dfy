/** Hints survive the error text they are written into, and durations the way they are printed. */
module RateHintProofs {
  import opened Prelude
  import opened Text
  import opened RateHint

  // ---- The hint an error message carries ----

  /** The error text of a refused request that came with a hint of `ms` milliseconds: who answered and how,
      the hint, the body. */
  function ErrorText(who: string, status: string, ms: nat, body: string): string
  {
    Opening(who, status) + KEY_MS + Closing(ms, body)
  }

  function Opening(who: string, status: string): string
  {
    who + " returned " + status + " ("
  }

  function Closing(ms: nat, body: string): string
  {
    ": " + ToDecimal(ms) + "): " + body
  }

  lemma LowerAppend(a: string, b: string)
    ensures Lower(a + b) == Lower(a) + Lower(b)
  {
  }

  lemma LowerIs(s: string)
    requires forall i :: 0 <= i < |s| ==> LowerChar(s[i]) == s[i]
    ensures Lower(s) == s
  {
  }

  lemma LowerOpening(who: string, status: string)
    ensures Lower(Opening(who, status)) == Opening(Lower(who), Lower(status))
  {
    LowerIs(" returned ");
    LowerIs(" (");
    LowerAppend(who, " returned ");
    LowerAppend(who + " returned ", status);
    LowerAppend(who + " returned " + status, " (");
  }

  lemma LowerClosing(ms: nat, body: string)
    ensures Lower(Closing(ms, body)) == Closing(ms, Lower(body))
  {
    var digits := ToDecimal(ms);
    LowerIs(": ");
    LowerIs("): ");
    LowerIs(digits);
    LowerAppend(": ", digits);
    LowerAppend(": " + digits, "): ");
    LowerAppend(": " + digits + "): ", body);
  }

  lemma LowerOfText(who: string, status: string, ms: nat, body: string)
    ensures Lower(ErrorText(who, status, ms, body)) == ErrorText(Lower(who), Lower(status), ms, Lower(body))
  {
    LowerIs(KEY_MS);
    LowerOpening(who, status);
    LowerClosing(ms, body);
    LowerAppend(Opening(who, status), KEY_MS);
    LowerAppend(Opening(who, status) + KEY_MS, Closing(ms, body));
  }

  /** An occurrence of the key covers no space and no parenthesis. */
  lemma OccurrenceIsSolid(m: string, j: nat)
    requires OccursAt(m, KEY_MS, j)
    ensures forall p :: j <= p < j + |KEY_MS| ==> m[p] != ' ' && m[p] != '('
  {
    forall p | j <= p < j + |KEY_MS| ensures m[p] == KEY_MS[p - j] {
      assert m[p] == m[j..j + |KEY_MS|][p - j];
    }
  }

  lemma SliceOfSlice(s: string, from: nat, to: nat, a: nat, b: nat)
    requires from <= to <= |s| && a <= b <= to - from
    ensures s[from..to][a..b] == s[from + a..from + b]
  {
    forall k | 0 <= k < b - a ensures s[from..to][a..b][k] == s[from + a..from + b][k] {
      assert s[from..to][a + k] == s[from + a + k];
    }
  }

  lemma OccursInside(m: string, key: string, from: nat, to: nat, j: nat)
    requires from <= j && j + |key| <= to <= |m|
    ensures OccursAt(m[from..to], key, j - from) == OccursAt(m, key, j)
  {
    SliceOfSlice(m, from, to, j - from, j - from + |key|);
  }

  /** A piece of a text without the key has no occurrence of it inside. */
  lemma NoKeyInside(m: string, key: string, from: nat, to: nat)
    requires from <= to <= |m| && !Contains(m[from..to], key)
    ensures forall j :: from <= j && j + |key| <= to ==> !OccursAt(m, key, j)
  {
    forall j | from <= j && j + |key| <= to ensures !OccursAt(m, key, j) {
      OccursInside(m, key, from, to, j);
    }
  }

  /** The key first occurs where the text writes it. */
  lemma FirstKeyIsOurs(who: string, status: string, closing: string)
    requires !Contains(who, KEY_MS) && !Contains(status, KEY_MS)
    ensures Find(Opening(who, status) + KEY_MS + closing, KEY_MS, 0) == Some(|Opening(who, status)|)
  {
    var opening := Opening(who, status);
    var m := opening + KEY_MS + closing;
    var w, e := |who|, |who| + 10 + |status|;
    assert m[|opening|..|opening| + |KEY_MS|] == KEY_MS;
    assert OccursAt(m, KEY_MS, |opening|);
    assert m[0..w] == who && m[w + 10..e] == status;
    NoKeyInside(m, KEY_MS, 0, w);
    NoKeyInside(m, KEY_MS, w + 10, e);
    assert m[w] == ' ' && m[w + 9] == ' ' && m[e] == ' ' && m[e + 1] == '(';
    forall j: nat | OccursAt(m, KEY_MS, j) ensures j >= |opening| {
      OccurrenceIsSolid(m, j);
    }
    FindIs(m, KEY_MS, 0, |opening|);
  }

  /** The text the key is followed by, past the separators. */
  function Printed(ms: nat, body: string): string
  {
    ToDecimal(ms) + ("): " + body)
  }

  lemma NumberAfterKey(ms: nat, body: string)
    ensures SkipSeparators(Closing(ms, body)) == Printed(ms, body)
  {
    var closing := Closing(ms, body);
    assert closing == ": " + Printed(ms, body);
    RunIs(Separator, closing, 2);
  }

  lemma ValueOfText(who: string, status: string, ms: nat, body: string)
    requires !Contains(who, KEY_MS) && !Contains(status, KEY_MS)
    ensures ValueAfter(ErrorText(who, status, ms, body), KEY_MS) == Some(Printed(ms, body))
  {
    var opening, closing := Opening(who, status), Closing(ms, body);
    FirstKeyIsOurs(who, status, closing);
    assert (opening + KEY_MS + closing)[|opening| + |KEY_MS|..] == closing;
    NumberAfterKey(ms, body);
  }

  lemma ValueOfLowered(who: string, status: string, ms: nat, body: string)
    requires !Contains(Lower(who), KEY_MS) && !Contains(Lower(status), KEY_MS)
    ensures ValueAfter(Lower(ErrorText(who, status, ms, body)), KEY_MS) == Some(Printed(ms, Lower(body)))
  {
    LowerOfText(who, status, ms, body);
    ValueOfText(Lower(who), Lower(status), ms, Lower(body));
  }

  lemma HintOfValue(read: string -> Option<real>, weaker: string -> Option<real>, msg: string, text: string, ms: real)
    requires ValueAfter(Lower(msg), KEY_MS) == Some(text) && read(text) == Some(ms)
    ensures HintOr(read, weaker, msg) == Some(Clamped(ms / 1000.0))
  {
  }

  /** A reader that reads the number as it was printed. */
  lemma HintSurvivesReading(read: string -> Option<real>, weaker: string -> Option<real>,
                            who: string, status: string, ms: nat, body: string)
    requires !Contains(Lower(who), KEY_MS) && !Contains(Lower(status), KEY_MS)
    requires read(Printed(ms, Lower(body))) == Some(ms as real)
    ensures HintOr(read, weaker, ErrorText(who, status, ms, body)) == Some(Clamped(ms as real / 1000.0))
  {
    ValueOfLowered(who, status, ms, body);
    HintOfValue(read, weaker, ErrorText(who, status, ms, body), Printed(ms, Lower(body)), ms as real);
  }

  /** For every host and status text that do not themselves name the header, and every body whatsoever, the
      hint read back is the one written, kept within a day; what weaker hints the body holds does not matter. */
  lemma HintSurvives(weaker: string -> Option<real>, who: string, status: string, ms: nat, body: string)
    requires !Contains(Lower(who), KEY_MS) && !Contains(Lower(status), KEY_MS) && ms < F64_LIMIT
    ensures HintOr(ParseNumber, weaker, ErrorText(who, status, ms, body))
            == Some(if ms <= 86_400_000 then ms as real / 1000.0 else 86400.0)
  {
    ParsePrinted(ms, "): " + Lower(body));
    HintSurvivesReading(ParseNumber, weaker, who, status, ms, body);
  }

  lemma RetryHintSurvives(who: string, status: string, ms: nat, body: string)
    requires !Contains(Lower(who), KEY_MS) && !Contains(Lower(status), KEY_MS) && ms < F64_LIMIT
    ensures RetryHint(ErrorText(who, status, ms, body))
            == Some(if ms <= 86_400_000 then ms as real / 1000.0 else 86400.0)
  {
    HintSurvives(WeakerHint, who, status, ms, body);
  }

  // ---- Durations ----

  /** A number, spaces, a unit. */
  datatype Part = Part(number: string, spaces: nat, unit: string)

  predicate Proper(units: map<string, Unit>, p: Part)
  {
    && All(NumberChar, p.number) && Number(p.number) && NumberValue(p.number) < F64_LIMIT as real
    && p.unit in units && All(Alphabetic, p.unit) && p.unit != ""
  }

  function Spaces(n: nat): string
  {
    seq(n, _ => ' ')
  }

  function PrintPart(p: Part): string
  {
    p.number + Spaces(p.spaces) + p.unit
  }

  function SecondsOf(units: map<string, Unit>, p: Part): real
    requires Proper(units, p)
  {
    InSeconds(NumberValue(p.number), units[p.unit])
  }

  function Texts(parts: seq<Part>): seq<string>
  {
    seq(|parts|, i requires 0 <= i < |parts| => PrintPart(parts[i]))
  }

  function Lengths(units: map<string, Unit>, parts: seq<Part>): seq<real>
    requires forall i :: 0 <= i < |parts| ==> Proper(units, parts[i])
  {
    seq(|parts|, i requires 0 <= i < |parts| => SecondsOf(units, parts[i]))
  }

  function Sum(xs: seq<real>): real
  {
    if xs == [] then 0.0 else xs[0] + Sum(xs[1..])
  }

  /** Text that does not go on with a unit's letters. */
  predicate StartsOther(s: string)
  {
    s != "" ==> !Alphabetic(s[0])
  }

  /** Text at which a duration stops: not more of a unit, and no further number with a unit. */
  predicate Stops(step: string -> Option<(real, nat)>, rest: string)
  {
    StartsOther(rest) && step(rest).None?
  }

  lemma NumberEndOf(number: string, tail: string)
    requires All(NumberChar, number) && (tail != "" ==> !NumberChar(tail[0]))
    ensures NumberEnd(number + tail) == |number|
  {
    RunOf(NumberChar, number, tail);
  }

  lemma SpacesEndOf(s: string, n: nat, spaces: nat, tail: string)
    requires NumberEnd(s) == n && s[n..] == Spaces(spaces) + tail && (tail != "" ==> !Space(tail[0]))
    ensures SpacesEnd(s) == n + spaces
  {
    RunOf(Space, Spaces(spaces), tail);
  }

  lemma UnitEndOf(s: string, n: nat, unit: string, tail: string)
    requires SpacesEnd(s) == n && s[n..] == unit + tail && All(Alphabetic, unit) && StartsOther(tail)
    ensures UnitEnd(s) == n + |unit| && s[n..UnitEnd(s)] == unit
  {
    RunOf(Alphabetic, unit, tail);
    assert s[n..n + |unit|] == s[n..][..|unit|];
  }

  lemma EndsOf(number: string, spaces: nat, unit: string, rest: string)
    requires All(NumberChar, number) && All(Alphabetic, unit) && unit != "" && StartsOther(rest)
    ensures var s := number + (Spaces(spaces) + (unit + rest));
            && NumberEnd(s) == |number| && SpacesEnd(s) == |number| + spaces
            && UnitEnd(s) == |number| + spaces + |unit|
            && s[SpacesEnd(s)..UnitEnd(s)] == unit
  {
    var afterSpaces := unit + rest;
    var afterNumber := Spaces(spaces) + afterSpaces;
    var s := number + afterNumber;
    var n := |number|;
    assert afterSpaces[0] == unit[0] && afterNumber[0] == (if spaces > 0 then ' ' else unit[0]);
    NumberEndOf(number, afterNumber);
    assert s[n..] == afterNumber;
    SpacesEndOf(s, n, spaces, afterSpaces);
    assert s[n + spaces..] == afterSpaces;
    UnitEndOf(s, n + spaces, unit, rest);
  }

  lemma EndsOfPart(units: map<string, Unit>, p: Part, rest: string)
    requires Proper(units, p) && StartsOther(rest)
    ensures var s := PrintPart(p) + rest;
            && ParseNumber(s) == Some(NumberValue(p.number))
            && UnitEnd(s) == |PrintPart(p)|
            && s[SpacesEnd(s)..UnitEnd(s)] == p.unit
  {
    var s := p.number + (Spaces(p.spaces) + (p.unit + rest));
    assert PrintPart(p) + rest == s;
    EndsOf(p.number, p.spaces, p.unit, rest);
    assert s[..NumberEnd(s)] == p.number;
  }

  lemma StepOfPart(units: map<string, Unit>, p: Part, rest: string)
    requires Proper(units, p) && StartsOther(rest)
    ensures DurationStep(units, PrintPart(p) + rest)
            == Some((SecondsOf(units, p), |PrintPart(p)|))
  {
    EndsOfPart(units, p, rest);
  }

  /** `step` takes `text` off the front of what comes before `after`, and makes `seconds` of it. */
  predicate TakesBefore(step: string -> Option<(real, nat)>, text: string, seconds: real, after: string)
  {
    step(text + after) == Some((seconds, |text|))
  }

  /** It does so whatever comes after. */
  ghost predicate Takes(step: string -> Option<(real, nat)>, text: string, seconds: real)
  {
    && text != "" && StartsOther(text)
    && forall after :: StartsOther(after) ==> TakesBefore(step, text, seconds, after)
  }

  lemma DurationAdvances(step: string -> Option<(real, nat)>, text: string, rest: string, total: real, any: bool,
                         seconds: real)
    requires Advances(step) && step(text + rest) == Some((seconds, |text|))
    ensures DurationFrom(step, text + rest, total, any) == DurationFrom(step, rest, total + seconds, true)
  {
    assert (text + rest)[|text|..] == rest;
  }

  lemma ConcatStartsOther(texts: seq<string>, rest: string)
    requires StartsOther(rest) && (texts != [] ==> texts[0] != "" && StartsOther(texts[0]))
    ensures StartsOther(Concat(texts) + rest)
  {
    if texts != [] {
      assert (Concat(texts) + rest)[0] == texts[0][0];
    } else {
      assert Concat(texts) + rest == rest;
    }
  }

  ghost predicate AllTaken(step: string -> Option<(real, nat)>, texts: seq<string>, seconds: seq<real>)
    requires |texts| == |seconds|
  {
    texts == [] || (Takes(step, texts[0], seconds[0]) && AllTaken(step, texts[1..], seconds[1..]))
  }

  lemma FirstIsTaken(step: string -> Option<(real, nat)>, texts: seq<string>, seconds: seq<real>, rest: string)
    requires |texts| == |seconds| > 0 && AllTaken(step, texts, seconds) && StartsOther(rest)
    ensures var tail := Concat(texts[1..]) + rest;
            Concat(texts) + rest == texts[0] + tail && step(texts[0] + tail) == Some((seconds[0], |texts[0]|))
  {
    ConcatStartsOther(texts[1..], rest);
    assert TakesBefore(step, texts[0], seconds[0], Concat(texts[1..]) + rest);
    assert Concat(texts) + rest == texts[0] + (Concat(texts[1..]) + rest);
  }

  /** Texts taken one after the other add up, to where the reading stops. */
  lemma {:induction false} DurationSums(
    step: string -> Option<(real, nat)>, texts: seq<string>, seconds: seq<real>, rest: string, total: real, any: bool)
    requires Advances(step) && |texts| == |seconds| && Stops(step, rest) && AllTaken(step, texts, seconds)
    ensures DurationFrom(step, Concat(texts) + rest, total, any)
            == if any || texts != [] then Some(Clamped(total + Sum(seconds))) else None
    decreases |texts|
  {
    if texts == [] {
      assert Concat(texts) + rest == rest;
    } else {
      FirstIsTaken(step, texts, seconds, rest);
      DurationAdvances(step, texts[0], Concat(texts[1..]) + rest, total, any, seconds[0]);
      DurationSums(step, texts[1..], seconds[1..], rest, total + seconds[0], true);
    }
  }

  lemma PartIsTaken(units: map<string, Unit>, p: Part)
    requires Proper(units, p)
    ensures Takes(Stepper(units), PrintPart(p), SecondsOf(units, p))
  {
    assert PrintPart(p)[0] == p.number[0];
    forall after | StartsOther(after)
      ensures Stepper(units)(PrintPart(p) + after) == Some((SecondsOf(units, p), |PrintPart(p)|))
    {
      StepOfPart(units, p, after);
    }
  }

  lemma {:induction false} TakenInTurn(step: string -> Option<(real, nat)>, texts: seq<string>, seconds: seq<real>)
    requires |texts| == |seconds| && forall i :: 0 <= i < |texts| ==> Takes(step, texts[i], seconds[i])
    ensures AllTaken(step, texts, seconds)
    decreases |texts|
  {
    if texts != [] {
      assert Takes(step, texts[0], seconds[0]);
      TakenInTurn(step, texts[1..], seconds[1..]);
    }
  }

  lemma PartsAreTaken(units: map<string, Unit>, parts: seq<Part>)
    requires forall i :: 0 <= i < |parts| ==> Proper(units, parts[i])
    ensures AllTaken(Stepper(units), Texts(parts), Lengths(units, parts))
  {
    var step, texts, seconds := Stepper(units), Texts(parts), Lengths(units, parts);
    forall i | 0 <= i < |texts| ensures Takes(step, texts[i], seconds[i]) {
      PartIsTaken(units, parts[i]);
    }
    TakenInTurn(step, texts, seconds);
  }

  lemma DurationOfTexts(step: string -> Option<(real, nat)>, texts: seq<string>, seconds: seq<real>, rest: string)
    requires Advances(step) && |texts| == |seconds| > 0 && Stops(step, rest) && AllTaken(step, texts, seconds)
    ensures DurationFrom(step, Concat(texts) + rest, 0.0, false) == Some(Clamped(Sum(seconds)))
  {
    DurationSums(step, texts, seconds, rest, 0.0, false);
  }

  /** Numbers with units, printed one after the other in any spelling of the table, add up to the duration
      read back, whatever text stops it. */
  lemma DurationOfPrinted(units: map<string, Unit>, parts: seq<Part>, rest: string)
    requires (forall i :: 0 <= i < |parts| ==> Proper(units, parts[i])) && parts != [] && Stops(Stepper(units), rest)
    ensures DurationFrom(Stepper(units), Concat(Texts(parts)) + rest, 0.0, false)
            == Some(var total := Sum(Lengths(units, parts));
                    if total < 0.0 then 0.0 else if total <= 86400.0 then total else 86400.0)
  {
    PartsAreTaken(units, parts);
    DurationOfTexts(Stepper(units), Texts(parts), Lengths(units, parts), rest);
  }
}
