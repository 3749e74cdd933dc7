/** Splitting a shell line into segments at `;`, `|`, `||` and `&&`, outside quotes. */
module ShellSegments {
  import opened Prelude
  import opened Text
  import opened ShellWords

  /** How long a separator begins at `i`; none is 0 long. A doubled `;` or `|` is one separator, and a single
      `&` is not one. */
  function Separator(s: string, i: nat): (n: nat)
    requires i <= |s|
    ensures n <= 2 && i + n <= |s|
  {
    if i == |s| then 0
    else
      var doubled := i + 1 < |s| && s[i + 1] == s[i];
      if s[i] == ';' || s[i] == '|' then (if doubled then 2 else 1)
      else if s[i] == '&' && doubled then 2
      else 0
  }

  function QuoteAfter(quote: Option<char>, c: char): Option<char>
  {
    match quote
    case Some(q) => if c == q then None else quote
    case None => if Quote(c) then Some(c) else None
  }

  /** The first separator outside quotes at or after `i`, or the end. */
  function Cut(s: string, i: nat, quote: Option<char>): (at: nat)
    requires i <= |s|
    ensures i <= at <= |s| && (at < |s| ==> Separator(s, at) > 0)
    decreases |s| - i
  {
    if i == |s| || (quote.None? && Separator(s, i) > 0) then i else Cut(s, i + 1, QuoteAfter(quote, s[i]))
  }

  /** A segment and the separator after it, empty after the last one. */
  datatype Part = Part(text: string, separator: string)

  function First(line: string, from: nat): Part
    requires from <= |line|
  {
    var at := Cut(line, from, None);
    Part(line[from..at], line[at..at + Separator(line, at)])
  }

  function Next(line: string, from: nat): (next: nat)
    requires from <= |line|
    ensures from <= next <= |line| && (Cut(line, from, None) < |line| ==> from < next)
  {
    var at := Cut(line, from, None);
    at + Separator(line, at)
  }

  function Split(line: string, from: nat): (parts: seq<Part>)
    requires from <= |line|
    ensures parts != []
    decreases |line| - from
  {
    if Cut(line, from, None) == |line| then [Part(line[from..], "")]
    else [First(line, from)] + Split(line, Next(line, from))
  }

  lemma SplitStep(line: string, from: nat, first: Part, next: nat)
    requires from <= |line| && Cut(line, from, None) < |line| && first == First(line, from) && next == Next(line, from)
    ensures Split(line, from) == [first] + Split(line, next)
  {
  }

  lemma SplitEnd(line: string, from: nat)
    requires from <= |line| && Cut(line, from, None) == |line|
    ensures Split(line, from) == [Part(line[from..], "")]
  {
  }

  function Texts(parts: seq<Part>): seq<string>
  {
    seq(|parts|, i requires 0 <= i < |parts| => parts[i].text)
  }

  function Segments(line: string): seq<string>
  {
    Texts(Split(line, 0))
  }

  lemma TextsOfFirst(part: Part, rest: seq<Part>)
    ensures Texts([part] + rest) == [part.text] + Texts(rest)
  {
    assert |Texts([part] + rest)| == 1 + |rest|;
  }

  // ---- The source's loop ----

  /** The segments from `start` on, `i` characters into the line. */
  function From(line: string, start: nat, i: nat, quote: Option<char>): seq<string>
    requires start <= i <= |line|
    decreases |line| - i
  {
    if i == |line| then [line[start..]]
    else if quote.None? && Separator(line, i) > 0 then
      var next := i + Separator(line, i);
      [line[start..i]] + From(line, next, next, None)
    else From(line, start, i + 1, QuoteAfter(quote, line[i]))
  }

  lemma TextsAtCut(line: string, start: nat, at: nat, next: nat)
    requires start <= |line| && at == Cut(line, start, None) < |line| && next == Next(line, start)
    ensures Texts(Split(line, start)) == [line[start..at]] + Texts(Split(line, next))
  {
    SplitStep(line, start, First(line, start), next);
    TextsOfFirst(First(line, start), Split(line, next));
  }

  lemma TextsAtEnd(line: string, start: nat)
    requires start <= |line| && Cut(line, start, None) == |line|
    ensures Texts(Split(line, start)) == [line[start..]]
  {
    SplitEnd(line, start);
    TextsOfFirst(Part(line[start..], ""), []);
  }

  lemma {:induction false} FromIsSplit(line: string, start: nat, i: nat, quote: Option<char>)
    requires start <= i <= |line| && Cut(line, start, None) == Cut(line, i, quote)
    ensures From(line, start, i, quote) == Texts(Split(line, start))
    decreases |line| - i
  {
    if i == |line| {
      TextsAtEnd(line, start);
    } else if quote.None? && Separator(line, i) > 0 {
      var next := i + Separator(line, i);
      FromIsSplit(line, next, next, None);
      TextsAtCut(line, start, i, next);
    } else {
      FromIsSplit(line, start, i + 1, QuoteAfter(quote, line[i]));
    }
  }

  /** The source's single pass. */
  method SplitInLoop(line: string) returns (out: seq<string>)
    ensures out == Segments(line)
  {
    out := [];
    var start, quote: Option<char> := 0, None;
    var i := 0;
    while i < |line|
      invariant 0 <= start <= i <= |line|
      invariant out + From(line, start, i, quote) == From(line, 0, 0, None)
      decreases |line| - i
    {
      var c := line[i];
      if quote.Some? {
        if c == quote.value {
          quote := None;
        }
      } else if Quote(c) {
        quote := Some(c);
      } else if c == ';' || c == '|' || (c == '&' && i + 1 < |line| && line[i + 1] == '&') {
        out := out + [line[start..i]];
        i := i + if i + 1 < |line| && line[i + 1] == line[i] then 2 else 1;
        start := i;
        continue;
      }
      i := i + 1;
    }
    out := out + [line[start..]];
    FromIsSplit(line, 0, 0, None);
  }

  // ---- Exactly one way to split ----

  function Render(parts: seq<Part>): string
  {
    if parts == [] then "" else parts[0].text + parts[0].separator + Render(parts[1..])
  }

  /** No separator outside quotes. */
  predicate Quiet(s: string)
  {
    Cut(s, 0, None) == |s|
  }

  function QuoteFrom(s: string, i: nat, quote: Option<char>): Option<char>
    requires i <= |s|
    decreases |s| - i
  {
    if i == |s| then quote else QuoteFrom(s, i + 1, QuoteAfter(quote, s[i]))
  }

  /** Every quote opened is closed. */
  predicate Closed(s: string)
  {
    QuoteFrom(s, 0, None) == None
  }

  /** What may stand before a separator: only `&&` is at risk from an `&` before it. */
  predicate Ends(text: string, sep: string)
  {
    Quiet(text) && Closed(text) && (text != "" && sep == "&&" ==> text[|text| - 1] != '&')
  }

  /** What a separator may be, given the text after it: as long as it can be. */
  predicate Separates(sep: string, after: string)
  {
    sep != "" && Separator(sep + after, 0) == |sep|
  }

  predicate WellCut(parts: seq<Part>)
  {
    && parts != []
    && (if |parts| == 1 then parts[0].separator == "" && Quiet(parts[0].text)
        else
          && Ends(parts[0].text, parts[0].separator)
          && Separates(parts[0].separator, Render(parts[1..]))
          && WellCut(parts[1..]))
  }

  lemma RenderFirst(part: Part, rest: seq<Part>)
    ensures Render([part] + rest) == part.text + part.separator + Render(rest)
  {
    assert ([part] + rest)[1..] == rest;
  }

  lemma ThreeCuts(s: string, a: nat, b: nat, c: nat)
    requires a <= b <= c <= |s|
    ensures s[a..b] + s[b..c] + s[c..] == s[a..]
  {
  }

  lemma FirstRejoins(line: string, from: nat)
    requires from <= |line|
    ensures First(line, from).text + First(line, from).separator + line[Next(line, from)..] == line[from..]
  {
    ThreeCuts(line, from, Cut(line, from, None), Next(line, from));
  }

  lemma {:induction false} SplitLosesNothing(line: string, from: nat)
    requires from <= |line|
    ensures Render(Split(line, from)) == line[from..]
    decreases |line| - from
  {
    if Cut(line, from, None) == |line| {
      RenderFirst(Part(line[from..], ""), []);
    } else {
      var first, next := First(line, from), Next(line, from);
      SplitLosesNothing(line, next);
      RenderFirst(first, Split(line, next));
      FirstRejoins(line, from);
    }
  }

  /** Reading only a slice finds no separator that was not there. */
  lemma {:induction false} CutOfSlice(s: string, from: nat, end: nat, i: nat, quote: Option<char>)
    requires from <= i <= end <= |s| && Cut(s, i, quote) >= end
    ensures Cut(s[from..end], i - from, quote) == end - from
    decreases end - i
  {
    if i < end {
      SeparatorOfSlice(s, from, end, i);
      assert s[from..end][i - from] == s[i];
      CutOfSlice(s, from, end, i + 1, QuoteAfter(quote, s[i]));
    }
  }

  lemma SeparatorOfSlice(s: string, from: nat, end: nat, i: nat)
    requires from <= i < end <= |s|
    ensures Separator(s, i) == 0 ==> Separator(s[from..end], i - from) == 0
  {
    var piece := s[from..end];
    assert piece[i - from] == s[i];
    if i + 1 < end {
      assert piece[i + 1 - from] == s[i + 1];
    }
  }

  /** Up to a cut the quotes are closed, and the character before `&&` is not another `&`. */
  lemma {:induction false} BeforeCut(s: string, from: nat, i: nat, quote: Option<char>)
    requires from <= i <= |s| && Cut(s, i, quote) < |s| && (quote.Some? ==> Quote(quote.value))
    ensures var at := Cut(s, i, quote);
            && QuoteFrom(s[from..at], i - from, quote) == None
            && (at > i && s[at] == '&' ==> s[at - 1] != '&')
    decreases |s| - i
  {
    var at := Cut(s, i, quote);
    if i < at {
      BeforeCut(s, from, i + 1, QuoteAfter(quote, s[i]));
      assert s[from..at][i - from] == s[i];
    }
  }

  lemma FirstIsWellCut(line: string, from: nat)
    requires from <= |line| && Cut(line, from, None) < |line|
    ensures Ends(First(line, from).text, First(line, from).separator)
    ensures Separates(First(line, from).separator, line[Next(line, from)..])
  {
    var at, next := Cut(line, from, None), Next(line, from);
    CutOfSlice(line, from, at, from, None);
    BeforeCut(line, from, from, None);
    assert at > from ==> line[from..at][at - from - 1] == line[at - 1];
    assert line[at..next][0] == line[at];
    CutAt(line, at, next);
    SeparatorOfTail(line, at);
  }

  lemma SeparatorOfTail(s: string, i: nat)
    requires i <= |s|
    ensures Separator(s[i..], 0) == Separator(s, i)
  {
  }

  lemma WellCutFirst(part: Part, rest: seq<Part>)
    requires rest != [] && Ends(part.text, part.separator) && Separates(part.separator, Render(rest)) && WellCut(rest)
    ensures WellCut([part] + rest)
  {
    assert ([part] + rest)[1..] == rest;
  }

  lemma LastIsQuiet(line: string, from: nat)
    requires from <= |line| && Cut(line, from, None) == |line|
    ensures Quiet(line[from..])
  {
    CutOfSlice(line, from, |line|, from, None);
    assert line[from..|line|] == line[from..];
  }

  lemma {:induction false} SplitIsWellCut(line: string, from: nat)
    requires from <= |line|
    ensures WellCut(Split(line, from))
    decreases |line| - from
  {
    if Cut(line, from, None) == |line| {
      LastIsQuiet(line, from);
    } else {
      var first, next := First(line, from), Next(line, from);
      FirstIsWellCut(line, from);
      SplitLosesNothing(line, next);
      SplitIsWellCut(line, next);
      WellCutFirst(first, Split(line, next));
    }
  }

  // A line's tail splits as it would alone.

  ghost predicate Tail(line: string, k: nat, b: string)
  {
    |line| == k + |b| && forall j :: 0 <= j < |b| ==> line[k + j] == b[j]
  }

  lemma {:induction false} CutShifts(line: string, k: nat, b: string, i: nat, quote: Option<char>)
    requires Tail(line, k, b) && i <= |b|
    ensures Cut(line, k + i, quote) == k + Cut(b, i, quote)
    decreases |b| - i
  {
    SeparatorShifts(line, k, b, i);
    if i < |b| {
      CutShifts(line, k, b, i + 1, QuoteAfter(quote, b[i]));
    }
  }

  lemma SeparatorShifts(line: string, k: nat, b: string, i: nat)
    requires Tail(line, k, b) && i <= |b|
    ensures Separator(line, k + i) == Separator(b, i)
  {
    if i + 1 < |b| {
      assert line[k + (i + 1)] == b[i + 1];
    }
  }

  lemma SliceShifts(line: string, k: nat, b: string, i: nat, j: nat)
    requires Tail(line, k, b) && i <= j <= |b|
    ensures line[k + i..k + j] == b[i..j] && line[k + i..] == b[i..]
  {
    forall n | 0 <= n < |b| - i ensures line[k + i..][n] == b[i..][n] {
      assert line[k + (i + n)] == b[i + n];
    }
    CutAt(line, k + i, k + j);
    CutAt(b, i, j);
  }

  lemma FirstShifts(line: string, k: nat, b: string, i: nat)
    requires Tail(line, k, b) && i <= |b|
    ensures First(line, k + i) == First(b, i) && Next(line, k + i) == k + Next(b, i)
  {
    var at := Cut(b, i, None);
    CutShifts(line, k, b, i, None);
    SliceShifts(line, k, b, i, at);
    SeparatorShifts(line, k, b, at);
    SliceShifts(line, k, b, at, at + Separator(b, at));
  }

  lemma {:induction false} SplitShifts(line: string, k: nat, b: string, i: nat)
    requires Tail(line, k, b) && i <= |b|
    ensures Split(line, k + i) == Split(b, i)
    decreases |b| - i
  {
    CutShifts(line, k, b, i, None);
    if Cut(b, i, None) == |b| {
      SliceShifts(line, k, b, i, i);
      SplitEnd(line, k + i);
      SplitEnd(b, i);
    } else {
      var first, next := First(b, i), Next(b, i);
      FirstShifts(line, k, b, i);
      SplitShifts(line, k, b, next);
      SplitStep(line, k + i, first, k + next);
      SplitStep(b, i, first, next);
    }
  }

  /** Quiet, closed text is passed over up to the separator after it. */
  lemma {:induction false} CutAfter(text: string, tail: string, i: nat, quote: Option<char>)
    requires i <= |text| && Cut(text, i, quote) == |text| && QuoteFrom(text, i, quote) == None
    requires Separator(tail, 0) > 0 && (text != "" && tail[0] == '&' ==> text[|text| - 1] != '&')
    ensures Cut(text + tail, i, quote) == |text|
    decreases |text| - i
  {
    if i == |text| {
      SeparatorShifts(text + tail, |text|, tail, 0);
    } else {
      SeparatorBefore(text, tail, i);
      assert (text + tail)[i] == text[i];
      CutAfter(text, tail, i + 1, QuoteAfter(quote, text[i]));
    }
  }

  lemma SeparatorBefore(text: string, tail: string, i: nat)
    requires i < |text| && (tail != "" && tail[0] == '&' ==> text[|text| - 1] != '&')
    ensures Separator(text, i) == 0 ==> Separator(text + tail, i) == 0
  {
    var all := text + tail;
    assert all[i] == text[i];
    if i + 1 < |text| {
      assert all[i + 1] == text[i + 1];
    } else if tail != "" {
      assert all[i + 1] == tail[0];
    }
  }

  lemma CutOfJoined(text: string, sep: string, rest: string)
    requires Ends(text, sep) && Separates(sep, rest)
    ensures var line := text + sep + rest; Cut(line, 0, None) == |text| && Separator(line, |text|) == |sep|
  {
    var tail := sep + rest;
    assert text + sep + rest == text + tail;
    assert tail[0] == sep[0];
    CutAfter(text, tail, 0, None);
    SeparatorShifts(text + tail, |text|, tail, 0);
  }

  lemma SlicesOfJoined(text: string, sep: string, rest: string)
    ensures var line := text + sep + rest; line[0..|text|] == text && line[|text|..|text| + |sep|] == sep
  {
  }

  lemma FirstOf(text: string, sep: string, rest: string)
    requires Ends(text, sep) && Separates(sep, rest)
    ensures var line := text + sep + rest;
            && Cut(line, 0, None) < |line| && First(line, 0) == Part(text, sep) && Next(line, 0) == |text + sep|
  {
    CutOfJoined(text, sep, rest);
    SlicesOfJoined(text, sep, rest);
  }

  lemma SplitOfFirst(text: string, sep: string, rest: string)
    requires Ends(text, sep) && Separates(sep, rest)
    ensures Split(text + sep + rest, 0) == [Part(text, sep)] + Split(rest, 0)
  {
    var line, k := text + sep + rest, |text + sep|;
    FirstOf(text, sep, rest);
    SplitStep(line, 0, Part(text, sep), k);
    SplitShifts(line, k, rest, 0);
  }

  lemma {:induction false} WellCutIsSplit(parts: seq<Part>)
    requires WellCut(parts)
    ensures Split(Render(parts), 0) == parts
    decreases |parts|
  {
    var part, rest := parts[0], parts[1..];
    assert parts == [part] + rest;
    RenderFirst(part, rest);
    if |parts| == 1 {
      assert Render(parts) == part.text && part.text[0..] == part.text;
    } else {
      WellCutIsSplit(rest);
      SplitOfFirst(part.text, part.separator, Render(rest));
    }
  }

  /** Splitting is the one way to cut a line into quiet, quote-closed texts and longest separators. */
  lemma SplitExactly(line: string, parts: seq<Part>)
    ensures parts == Split(line, 0) <==> WellCut(parts) && Render(parts) == line
  {
    SplitLosesNothing(line, 0);
    assert line[0..] == line;
    SplitIsWellCut(line, 0);
    if WellCut(parts) {
      WellCutIsSplit(parts);
    }
  }

  // ---- From commands to a line and back ----

  const SEPARATORS: seq<string> := [";", ";;", "|", "||", "&&"]

  /** A piece that is no separator when typed: a lone `&`, as in `2>&1`, is none. */
  predicate Plain(p: Piece)
  {
    Legal(p) && (p.Bare? ==> p.c != ';' && p.c != '|')
  }

  /** Plain pieces with no two bare `&`s side by side. */
  predicate PlainWord(w: Spelling)
  {
    && (forall j :: 0 <= j < |w| ==> Plain(w[j]))
    && (forall j :: 0 <= j < |w| - 1 ==> w[j] != Bare('&') || w[j + 1] != Bare('&'))
  }

  predicate AllPlain(tokens: seq<Token>)
  {
    forall i :: 0 <= i < |tokens| ==> PlainWord(tokens[i].word)
  }

  /** A simple command as it may be typed, or none at all: blanks, words, and the separator before the next. */
  datatype Command = Command(lead: string, tokens: seq<Token>, separator: string)

  function Typed(c: Command): string
  {
    c.lead + Write(c.tokens)
  }

  predicate Typable(c: Command)
  {
    All(Whitespace, c.lead) && Sentence(c.tokens) && AllPlain(c.tokens)
  }

  predicate Script(commands: seq<Command>)
  {
    && commands != []
    && (forall i :: 0 <= i < |commands| ==> Typable(commands[i]))
    && (forall i :: 0 <= i < |commands| - 1 ==> commands[i].separator in SEPARATORS)
    && commands[|commands| - 1].separator == ""
  }

  function Parts(commands: seq<Command>): seq<Part>
  {
    seq(|commands|, i requires 0 <= i < |commands| => Part(Typed(commands[i]), commands[i].separator))
  }

  /** No `&` of the text runs into the separator after it, and with nothing typed between them two separators
      do not run into one. */
  predicate Joins(part: Part, next: Part)
  {
    && !(part.text != "" && part.text[|part.text| - 1] == '&' && part.separator == "&&")
    && !(next.text == "" && |part.separator| == 1 && part.separator <= next.separator)
  }

  predicate AllJoin(parts: seq<Part>)
  {
    forall i :: 0 <= i < |parts| - 1 ==> Joins(parts[i], parts[i + 1])
  }

  /** Text that holds no separator outside quotes and closes its quotes. */
  predicate Inert(s: string)
  {
    Quiet(s) && Closed(s)
  }

  /** No `&&` where the two meet. */
  predicate Apart(a: string, b: string)
  {
    a != "" && b != "" && b[0] == '&' ==> a[|a| - 1] != '&'
  }

  lemma {:induction false} InertAppend(a: string, b: string, i: nat, quote: Option<char>)
    requires i <= |a| && Cut(a, i, quote) == |a| && QuoteFrom(a, i, quote) == None && Inert(b) && Apart(a, b)
    ensures Cut(a + b, i, quote) == |a + b| && QuoteFrom(a + b, i, quote) == None
    decreases |a| - i
  {
    if i == |a| {
      CutShifts(a + b, |a|, b, 0, None);
      QuoteShifts(a + b, |a|, b, 0, None);
    } else {
      SeparatorBefore(a, b, i);
      assert (a + b)[i] == a[i];
      InertAppend(a, b, i + 1, QuoteAfter(quote, a[i]));
    }
  }

  lemma {:induction false} QuoteShifts(line: string, k: nat, b: string, i: nat, quote: Option<char>)
    requires Tail(line, k, b) && i <= |b|
    ensures QuoteFrom(line, k + i, quote) == QuoteFrom(b, i, quote)
    decreases |b| - i
  {
    if i < |b| {
      QuoteShifts(line, k, b, i + 1, QuoteAfter(quote, b[i]));
    }
  }

  lemma InertBoth(a: string, b: string)
    requires Inert(a) && Inert(b) && Apart(a, b)
    ensures Inert(a + b)
  {
    InertAppend(a, b, 0, None);
  }

  lemma {:induction false} InertInQuotes(q: char, run: string, i: nat)
    requires Quote(q) && q !in run && i <= |run|
    ensures var s := [q] + run + [q]; Cut(s, i + 1, Some(q)) == |s| && QuoteFrom(s, i + 1, Some(q)) == None
    decreases |run| - i
  {
    var s := [q] + run + [q];
    if i == |run| {
      assert s[i + 1] == q && |s| == i + 2;
    } else {
      assert s[i + 1] == run[i] && run[i] in run;
      InertInQuotes(q, run, i + 1);
    }
  }

  lemma InertChar(c: char)
    requires c != ';' && c != '|' && !Quote(c)
    ensures Inert([c])
  {
    assert Cut([c], 1, None) == 1 && QuoteFrom([c], 1, None) == None;
  }

  /** A piece is inert, and has an `&` at its end only if it is a bare one. */
  lemma InertPiece(p: Piece)
    requires Plain(p)
    ensures var s := Spell(p); Inert(s) && s != "" && (s[0] == '&' || s[|s| - 1] == '&' ==> p == Bare('&'))
  {
    match p
    case Bare(c) => InertChar(c);
    case Quoted(q, run) =>
      InertInQuotes(q, run, 0);
      assert Spell(p)[0] == q && Spell(p)[|run| + 1] == q;
  }

  lemma {:induction false} InertWord(w: Spelling)
    requires PlainWord(w)
    ensures var s := SpellWord(w); Inert(s) && (s != "" && s[0] == '&' ==> w != [] && w[0] == Bare('&'))
  {
    if w != [] {
      var rest := w[1..];
      InertPiece(w[0]);
      assert forall j :: 0 <= j < |rest| ==> rest[j] == w[j + 1];
      InertWord(rest);
      InertBoth(Spell(w[0]), SpellWord(rest));
    }
  }

  lemma {:induction false} InertGap(gap: string)
    requires All(Whitespace, gap)
    ensures Inert(gap) && (gap != "" ==> gap[0] != '&' && gap[|gap| - 1] != '&')
  {
    if gap != "" {
      assert Whitespace(gap[0]) && Whitespace(gap[|gap| - 1]);
      InertChar(gap[0]);
      InertGap(gap[1..]);
      InertBoth([gap[0]], gap[1..]);
      assert gap == [gap[0]] + gap[1..];
    }
  }

  lemma InertSpaced(word: string, gap: string, rest: string)
    requires Inert(word) && All(Whitespace, gap) && Inert(rest) && (rest != "" ==> gap != "")
    ensures Inert(word + gap + rest)
  {
    InertGap(gap);
    InertBoth(word, gap);
    if gap != "" {
      assert (word + gap)[|word + gap| - 1] == gap[|gap| - 1];
    }
    InertBoth(word + gap, rest);
  }

  lemma {:induction false} InertTokens(tokens: seq<Token>)
    requires Sentence(tokens) && AllPlain(tokens)
    ensures Inert(Write(tokens))
  {
    if tokens != [] {
      var rest := tokens[1..];
      assert forall i :: 0 <= i < |rest| ==> rest[i] == tokens[i + 1];
      InertWord(tokens[0].word);
      InertTokens(rest);
      InertSpaced(SpellWord(tokens[0].word), tokens[0].gap, Write(rest));
    }
  }

  lemma TypedIsInert(c: Command)
    requires Typable(c)
    ensures Inert(Typed(c))
  {
    InertGap(c.lead);
    InertTokens(c.tokens);
    InertBoth(c.lead, Write(c.tokens));
  }

  /** Inert texts with a separator after each but the last. */
  predicate Separated(parts: seq<Part>)
  {
    && parts != []
    && (forall i :: 0 <= i < |parts| ==> Inert(parts[i].text))
    && (forall i :: 0 <= i < |parts| - 1 ==> parts[i].separator in SEPARATORS)
    && parts[|parts| - 1].separator == ""
  }

  lemma SeparatedTail(parts: seq<Part>)
    requires Separated(parts) && |parts| > 1
    ensures Separated(parts[1..])
    ensures AllJoin(parts) <==> Joins(parts[0], parts[1]) && AllJoin(parts[1..])
  {
    var rest := parts[1..];
    assert forall i :: 0 <= i < |rest| ==> rest[i] == parts[i + 1];
    if Joins(parts[0], parts[1]) && AllJoin(rest) {
      forall i | 0 <= i < |parts| - 1 ensures Joins(parts[i], parts[i + 1]) {
        assert i > 0 ==> rest[i - 1] == parts[i] && rest[i] == parts[i + 1];
      }
    }
    if AllJoin(parts) {
      forall i | 0 <= i < |rest| - 1 ensures Joins(rest[i], rest[i + 1]) {
        assert Joins(parts[i + 1], parts[i + 2]);
      }
    }
  }

  /** What a line starts with. */
  lemma RenderStarts(next: Part, rest: seq<Part>)
    requires Inert(next.text) && (next.separator == "" ==> rest == [])
    ensures var after := Render([next] + rest);
            if next.text != "" then after != "" && after[0] == next.text[0] && after[0] != ';' && after[0] != '|'
            else next.separator <= after && (next.separator == "" ==> after == "")
  {
    RenderFirst(next, rest);
    if next.text != "" {
      assert Separator(next.text, 0) == 0;
    }
  }

  lemma SeparatesExactlyWhen(sep: string, after: string)
    requires sep in SEPARATORS
    ensures Separates(sep, after) <==> !(|sep| == 1 && after != "" && after[0] == sep[0])
  {
    assert (sep + after)[0] == sep[0];
    if |sep| == 1 && after != "" {
      assert (sep + after)[1] == after[0];
    }
  }

  lemma JoinsExactlyWhen(part: Part, next: Part, rest: seq<Part>)
    requires Inert(part.text) && Inert(next.text) && part.separator in SEPARATORS
    requires next.separator in SEPARATORS || (next.separator == "" && rest == [])
    ensures Joins(part, next) <==> Ends(part.text, part.separator) && Separates(part.separator, Render([next] + rest))
  {
    RenderStarts(next, rest);
    SeparatesExactlyWhen(part.separator, Render([next] + rest));
  }

  lemma {:induction false} WellCutExactlyWhen(parts: seq<Part>)
    requires Separated(parts)
    ensures WellCut(parts) <==> AllJoin(parts)
    decreases |parts|
  {
    if |parts| > 1 {
      SeparatedTail(parts);
      WellCutExactlyWhen(parts[1..]);
      assert parts[1..] == [parts[1]] + parts[2..];
      JoinsExactlyWhen(parts[0], parts[1], parts[2..]);
    }
  }

  /** However its commands are spelled and spaced, a line splits back into them, separators and all, if and only
      if no `&` runs into a `&&` after it and no two separators run into one. */
  lemma ScriptSplitsBackExactlyWhen(commands: seq<Command>)
    requires Script(commands)
    ensures Split(Render(Parts(commands)), 0) == Parts(commands) <==> AllJoin(Parts(commands))
  {
    var parts := Parts(commands);
    forall i | 0 <= i < |commands| ensures Inert(parts[i].text) {
      TypedIsInert(commands[i]);
    }
    WellCutExactlyWhen(parts);
    SplitExactly(Render(parts), parts);
  }

  /** A line typed from any commands, in any spelling and spacing, splits back into their words. */
  lemma ScriptRoundTrip(commands: seq<Command>)
    requires Script(commands) && AllJoin(Parts(commands))
    ensures var segments := Segments(Render(Parts(commands)));
            && |segments| == |commands|
            && forall i :: 0 <= i < |commands| ==> Words(segments[i]) == Meant(commands[i].tokens)
  {
    ScriptSplitsBackExactlyWhen(commands);
    forall i | 0 <= i < |commands| ensures Words(Typed(commands[i])) == Meant(commands[i].tokens) {
      WordsOfWritten(commands[i].lead, commands[i].tokens);
    }
  }

  /** A `&` typed right before `&&` is taken for its first half, and the command after gets the last. */
  lemma AmpersandRunsIntoSeparator()
    ensures Segments("a&&&b") == ["a", "&b"]
  {
    var parts := [Part("a", "&&"), Part("&b", "")];
    InertChar('a');
    InertChar('&');
    InertChar('b');
    InertBoth("&", "b");
    assert "&" + "b" == "&b";
    WellCutExactlyWhen(parts);
    assert Render(parts) == "a&&&b";
    SplitExactly("a&&&b", parts);
  }
}
