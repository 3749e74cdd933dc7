/**
  Taking heredoc bodies out of a shell command: the command is a run of items, each one shell line or one
  shell line with the body it opens, and every command is such a run in exactly one way.
 */
module Heredocs {
  import opened Prelude
  import opened Text

  // ---- Lines ----

  /** The length of the first line, with its line break. */
  function LineLength(s: string): (n: nat)
    ensures n <= |s| && (s != "" ==> n > 0)
  {
    if s == "" then 0 else if s[0] == '\n' then 1 else 1 + LineLength(s[1..])
  }

  /** The lines of `s`, each with its line break. */
  function Lines(s: string): seq<string>
    decreases |s|
  {
    if s == "" then [] else [s[..LineLength(s)]] + Lines(s[LineLength(s)..])
  }

  predicate Line(s: string)
  {
    s != "" && '\n' !in s[..|s| - 1]
  }

  predicate Ended(s: string)
  {
    s != "" && s[|s| - 1] == '\n'
  }

  /** Lines, of which only the last may lack its line break. */
  predicate Proper(lines: seq<string>)
  {
    && (forall i :: 0 <= i < |lines| ==> Line(lines[i]))
    && (forall i :: 0 <= i < |lines| - 1 ==> Ended(lines[i]))
  }

  lemma {:induction false} FirstLine(s: string)
    requires s != ""
    ensures Line(s[..LineLength(s)]) && (LineLength(s) < |s| ==> Ended(s[..LineLength(s)]))
  {
    var n := LineLength(s);
    if s[0] == '\n' {
      assert s[..1][..0] == "";
    } else if |s| > 1 {
      FirstLine(s[1..]);
      assert s[..n] == [s[0]] + s[1..][..n - 1];
      assert s[..n][..n - 1] == [s[0]] + s[1..][..n - 1][..n - 2];
    } else {
      assert s[1..] == "" && s[..1][..0] == "";
    }
  }

  lemma {:induction false} LineLengthOf(line: string, rest: string)
    requires Line(line) && (rest != "" ==> Ended(line))
    ensures LineLength(line + rest) == |line|
    decreases |line|
  {
    var s := line + rest;
    if |line| == 1 {
      assert s[1..] == rest;
    } else {
      assert line[0] in line[..|line| - 1];
      assert s[1..] == line[1..] + rest;
      assert line[1..][..|line| - 2] == line[..|line| - 1][1..];
      LineLengthOf(line[1..], rest);
    }
  }

  lemma ProperCons(first: string, rest: seq<string>)
    requires Line(first) && Proper(rest) && (rest != [] ==> Ended(first))
    ensures Proper([first] + rest)
  {
  }

  lemma ConcatCons<T>(first: seq<T>, rest: seq<seq<T>>)
    ensures Concat([first] + rest) == first + Concat(rest)
  {
    assert ([first] + rest)[1..] == rest;
  }

  lemma {:induction false} LinesAreProper(s: string)
    ensures Proper(Lines(s)) && Concat(Lines(s)) == s
    decreases |s|
  {
    if s != "" {
      var n := LineLength(s);
      var first, rest := s[..n], s[n..];
      FirstLine(s);
      LinesAreProper(rest);
      ProperCons(first, Lines(rest));
      ConcatCons(first, Lines(rest));
      assert s == first + rest;
    }
  }

  lemma ProperTail(lines: seq<string>)
    requires Proper(lines) && lines != []
    ensures Proper(lines[1..]) && Line(lines[0]) && (|lines| > 1 ==> Ended(lines[0]))
  {
    assert forall i :: 0 <= i < |lines| - 1 ==> lines[1..][i] == lines[i + 1];
  }

  lemma {:induction false} LinesOfConcat(lines: seq<string>)
    requires Proper(lines)
    ensures Lines(Concat(lines)) == lines
    decreases |lines|
  {
    if lines != [] {
      ProperTail(lines);
      var rest := Concat(lines[1..]);
      assert |lines| == 1 ==> rest == "";
      LineLengthOf(lines[0], rest);
      LinesOfConcat(lines[1..]);
      assert (lines[0] + rest)[..|lines[0]|] == lines[0] && (lines[0] + rest)[|lines[0]|..] == rest;
      assert lines == [lines[0]] + lines[1..];
    }
  }

  // ---- The delimiter ----

  predicate Stops(c: char)
  {
    Whitespace(c) || c in ";&|)>"
  }

  predicate Goes(c: char)
  {
    !Stops(c)
  }

  function DropQuotesAtEnd(s: string): string
  {
    if s != "" && Quote(s[|s| - 1]) then DropQuotesAtEnd(s[..|s| - 1]) else s
  }

  function Unquoted(s: string): string
  {
    DropQuotesAtEnd(s[Run(Quote, s)..])
  }

  /** The word `text` starts with, out of its quotes. */
  function LeadingWord(text: string): string
  {
    Unquoted(text[..Run(Goes, text)])
  }

  function Undashed(rest: string): string
  {
    if StartsWith(rest, "-") then rest[1..] else rest
  }

  function DelimiterAfter(rest: string): Option<string>
  {
    if StartsWith(rest, "<") then None
    else
      var word := LeadingWord(TrimStart(Undashed(rest)));
      if word == "" then None else Some(word)
  }

  /** The delimiter of the heredoc a line opens, if it opens one. */
  function Delimiter(line: string): Option<string>
  {
    match Find(line, "<<", 0)
    case None => None
    case Some(at) => DelimiterAfter(line[at + 2..])
  }

  predicate Closes(line: string, delimiter: string)
  {
    Trim(line) == delimiter
  }

  /** A line closes a body exactly if it is the delimiter with nothing but blanks around it. */
  lemma ClosingLineIs(line: string, delimiter: string)
    requires delimiter != "" && Tight(delimiter)
    ensures Closes(line, delimiter) <==>
            exists before, after {:trigger before + delimiter + after} ::
              All(Whitespace, before) && All(Whitespace, after) && line == before + delimiter + after
  {
    if Closes(line, delimiter) {
      var before, after := TrimLeaves(line);
      assert line == before + delimiter + after;
    }
    if before, after :| All(Whitespace, before) && All(Whitespace, after) && line == before + delimiter + after {
      TrimOf(before, delimiter, after);
    }
  }

  // How a heredoc is opened in writing.

  /** No `<<` in the text, nor one made with a `<` after it. */
  ghost predicate OpensNothing(before: string)
  {
    !Contains(before + "<", "<<")
  }

  lemma FirstOpener(before: string, rest: string)
    requires OpensNothing(before)
    ensures Find(before + "<<" + rest, "<<", 0) == Some(|before|) && (before + "<<" + rest)[|before| + 2..] == rest
  {
    var line := before + "<<" + rest;
    assert line[|before|..|before| + 2] == "<<";
    forall i | 0 <= i < |before| ensures !OccursAt(line, "<<", i) {
      assert !OccursAt(before + "<", "<<", i);
      assert line[i..i + 2] == (before + "<")[i..i + 2];
    }
    FindIs(line, "<<", 0, |before|);
  }

  lemma DelimiterAt(before: string, rest: string)
    requires OpensNothing(before)
    ensures Delimiter(before + "<<" + rest) == DelimiterAfter(rest)
  {
    FirstOpener(before, rest);
  }

  /** A here-string opens nothing. */
  lemma HereStringOpensNothing(before: string, after: string)
    requires OpensNothing(before)
    ensures Delimiter(before + "<<" + ("<" + after)) == None
  {
    DelimiterAt(before, "<" + after);
  }

  /** A delimiter word as it may be written: bare, or in quotes of either kind. */
  predicate Quotes(q: string)
  {
    q == "" || q == "'" || q == "\""
  }

  /** A blank, `;`, `&`, `|`, `)` or `>`. */
  predicate EndsWord(c: char)
  {
    Whitespace(c) || c == ';' || c == '&' || c == '|' || c == ')' || c == '>'
  }

  predicate Word(word: string)
  {
    word != "" && forall i :: 0 <= i < |word| ==> !EndsWord(word[i]) && word[i] != '\'' && word[i] != '"'
  }

  lemma UnquotedWord(q: string, word: string)
    requires Quotes(q) && Word(word)
    ensures Unquoted(q + word + q) == word
  {
    var s := q + word + q;
    RunIs(Quote, s, |q|);
    assert s[|q|..] == word + q;
    assert DropQuotesAtEnd(word) == word;
    if q == "" {
      assert word + q == word;
    } else {
      var quoted := word + q;
      assert |quoted| == |word| + 1 && quoted[|word|] == q[0] && quoted[..|word|] == word;
    }
  }

  lemma WordIsTaken(q: string, word: string, after: string)
    requires Quotes(q) && Word(word) && (after != "" ==> EndsWord(after[0]))
    ensures LeadingWord(q + word + q + after) == word
  {
    var spelled := q + word + q;
    assert All(Goes, spelled);
    RunOf(Goes, spelled, after);
    UnquotedWord(q, word);
  }

  lemma BlanksAreTrimmed(blanks: string, text: string)
    requires All(Whitespace, blanks) && text != "" && !Whitespace(text[0])
    ensures TrimStart(blanks + text) == text
  {
    RunOf(Whitespace, blanks, text);
  }

  lemma Dashed(dash: bool, text: string)
    requires text != "" && (!dash ==> text[0] != '-' && text[0] != '<')
    ensures var rest := (if dash then "-" else "") + text; Undashed(rest) == text && !StartsWith(rest, "<")
  {
    var rest := (if dash then "-" else "") + text;
    assert rest[0] == (if dash then '-' else text[0]);
  }

  lemma DelimiterAfterText(rest: string, blanks: string, text: string, word: string)
    requires Undashed(rest) == blanks + text && !StartsWith(rest, "<")
    requires All(Whitespace, blanks) && text != "" && !Whitespace(text[0]) && LeadingWord(text) == word != ""
    ensures DelimiterAfter(rest) == Some(word)
  {
    BlanksAreTrimmed(blanks, text);
  }

  /** What follows `<<`: a dash or none, blanks, and the word as it is written. */
  function Written(dash: bool, blanks: string, spelled: string, after: string): string
  {
    (if dash then "-" else "") + (blanks + (spelled + after))
  }

  lemma DelimiterAfterWritten(dash: bool, blanks: string, q: string, word: string, after: string)
    requires All(Whitespace, blanks) && Quotes(q) && Word(word)
    requires after != "" ==> EndsWord(after[0])
    requires !dash && blanks == "" && q == "" ==> word[0] != '-' && word[0] != '<'
    ensures DelimiterAfter(Written(dash, blanks, q + word + q, after)) == Some(word)
  {
    var text := q + word + q + after;
    assert text[0] == (if q == "" then word[0] else q[0]) && Goes(word[0]);
    WordIsTaken(q, word, after);
    var spaced := blanks + text;
    assert spaced[0] == (if blanks == "" then text[0] else blanks[0]);
    Dashed(dash, spaced);
    DelimiterAfterText((if dash then "-" else "") + spaced, blanks, text, word);
  }

  /** A heredoc's delimiter is read back however it is written: with or without a dash, blanks and quotes,
      after anything that opens nothing and before anything that ends a word. */
  lemma DelimiterOfWritten(before: string, dash: bool, blanks: string, q: string, word: string, after: string)
    requires OpensNothing(before) && All(Whitespace, blanks) && Quotes(q) && Word(word)
    requires after != "" ==> EndsWord(after[0])
    requires !dash && blanks == "" && q == "" ==> word[0] != '-' && word[0] != '<'
    ensures Delimiter(before + "<<" + Written(dash, blanks, q + word + q, after)) == Some(word)
  {
    DelimiterAfterWritten(dash, blanks, q, word, after);
    DelimiterAt(before, Written(dash, blanks, q + word + q, after));
  }

  /** Which lines open a body, with what delimiter, and which lines close one. */
  datatype Rules = Rules(opens: string -> Option<string>, closes: (string, string) -> bool)

  const BASH := Rules(Delimiter, Closes)

  // ---- Items ----

  datatype Item =
    | Plain(line: string)
    | Heredoc(line: string, body: seq<string>, close: Option<string>)

  function LinesOf(item: Item): seq<string>
  {
    match item
    case Plain(line) => [line]
    case Heredoc(line, body, close) => [line] + body + (if close.Some? then [close.value] else [])
  }

  function AllLines(items: seq<Item>): seq<string>
  {
    if items == [] then [] else LinesOf(items[0]) + AllLines(items[1..])
  }

  /** A plain line opens nothing; a heredoc's line opens its body, which ends at the first line that closes it,
      and only the last body may never be closed. */
  predicate WellFormed(r: Rules, item: Item, last: bool)
  {
    match item
    case Plain(line) => r.opens(line).None?
    case Heredoc(line, body, close) =>
      && r.opens(line).Some?
      && (forall i :: 0 <= i < |body| ==> !r.closes(body[i], r.opens(line).value))
      && (close.Some? ==> r.closes(close.value, r.opens(line).value))
      && (close.None? ==> last)
  }

  predicate AllWellFormed(r: Rules, items: seq<Item>)
  {
    forall i :: 0 <= i < |items| ==> WellFormed(r, items[i], i == |items| - 1)
  }

  /** The index of the line that closes a body read from line `k`, or the end. */
  function BodyEnd(r: Rules, lines: seq<string>, k: nat, delimiter: string): (n: nat)
    requires k <= |lines|
    ensures k <= n <= |lines|
    decreases |lines| - k
  {
    if k == |lines| || r.closes(lines[k], delimiter) then k else BodyEnd(r, lines, k + 1, delimiter)
  }

  /** The item that begins at line `k`. */
  function ItemAt(r: Rules, lines: seq<string>, k: nat): Item
    requires k < |lines|
  {
    match r.opens(lines[k])
    case None => Plain(lines[k])
    case Some(d) =>
      var n := BodyEnd(r, lines, k + 1, d);
      Heredoc(lines[k], lines[k + 1..n], if n < |lines| then Some(lines[n]) else None)
  }

  /** The line after the item that begins at line `k`. */
  function NextAt(r: Rules, lines: seq<string>, k: nat): (next: nat)
    requires k < |lines|
    ensures k < next <= |lines|
  {
    match r.opens(lines[k])
    case None => k + 1
    case Some(d) =>
      var n := BodyEnd(r, lines, k + 1, d);
      if n < |lines| then n + 1 else n
  }

  function ItemsFrom(r: Rules, lines: seq<string>, k: nat): seq<Item>
    requires k <= |lines|
    decreases |lines| - k
  {
    if k == |lines| then [] else [ItemAt(r, lines, k)] + ItemsFrom(r, lines, NextAt(r, lines, k))
  }

  function Parse(r: Rules, lines: seq<string>): seq<Item>
  {
    ItemsFrom(r, lines, 0)
  }

  // ---- Nothing is lost ----

  lemma {:induction false} BodyEndIs(r: Rules, lines: seq<string>, k: nat, delimiter: string)
    requires k <= |lines|
    ensures var n := BodyEnd(r, lines, k, delimiter);
            && (forall j :: k <= j < n ==> !r.closes(lines[j], delimiter))
            && (n < |lines| ==> r.closes(lines[n], delimiter))
    decreases |lines| - k
  {
    if k < |lines| && !r.closes(lines[k], delimiter) {
      BodyEndIs(r, lines, k + 1, delimiter);
    }
  }

  lemma BodyLines(lines: seq<string>, k: nat, n: nat)
    requires k < n <= |lines|
    ensures [lines[k]] + lines[k + 1..n] == lines[k..n]
    ensures n < |lines| ==> lines[k..n] + [lines[n]] == lines[k..n + 1]
  {
  }

  lemma ItemAtLines(r: Rules, lines: seq<string>, k: nat)
    requires k < |lines|
    ensures LinesOf(ItemAt(r, lines, k)) == lines[k..NextAt(r, lines, k)]
    ensures WellFormed(r, ItemAt(r, lines, k), NextAt(r, lines, k) == |lines|)
  {
    if r.opens(lines[k]).Some? {
      var d := r.opens(lines[k]).value;
      var n := BodyEnd(r, lines, k + 1, d);
      BodyEndIs(r, lines, k + 1, d);
      BodyLines(lines, k, n);
      assert n == |lines| ==> lines[k..n] + [] == lines[k..n];
    } else {
      BodyLines(lines, k, k + 1);
    }
  }

  lemma AllLinesCons(first: Item, rest: seq<Item>)
    ensures AllLines([first] + rest) == LinesOf(first) + AllLines(rest)
  {
    assert ([first] + rest)[1..] == rest;
  }

  lemma AllWellFormedCons(r: Rules, first: Item, rest: seq<Item>)
    requires WellFormed(r, first, rest == []) && AllWellFormed(r, rest)
    ensures AllWellFormed(r, [first] + rest)
  {
    var all := [first] + rest;
    forall i | 0 <= i < |all| ensures WellFormed(r, all[i], i == |all| - 1) {
      if i > 0 {
        assert all[i] == rest[i - 1];
      }
    }
  }

  /** The first item, the line after it, and what they leave. */
  lemma ItemsStep(r: Rules, lines: seq<string>, k: nat) returns (item: Item, next: nat)
    requires k < |lines|
    ensures k < next <= |lines| && item.line == lines[k] && next == NextAt(r, lines, k) && item == ItemAt(r, lines, k)
    ensures LinesOf(item) == lines[k..next] && WellFormed(r, item, next == |lines|)
    ensures ItemsFrom(r, lines, k) == [item] + ItemsFrom(r, lines, next)
  {
    item, next := ItemAt(r, lines, k), NextAt(r, lines, k);
    ItemAtLines(r, lines, k);
  }

  lemma ItemsAreEmpty(r: Rules, lines: seq<string>, k: nat)
    requires k <= |lines|
    ensures ItemsFrom(r, lines, k) == [] <==> k == |lines|
  {
  }

  lemma {:induction false} ParseLosesNothing(r: Rules, lines: seq<string>, k: nat)
    requires k <= |lines|
    ensures AllLines(ItemsFrom(r, lines, k)) == lines[k..] && AllWellFormed(r, ItemsFrom(r, lines, k))
    decreases |lines| - k
  {
    if k < |lines| {
      var item, next := ItemsStep(r, lines, k);
      var rest := ItemsFrom(r, lines, next);
      ParseLosesNothing(r, lines, next);
      ItemsAreEmpty(r, lines, next);
      AllLinesCons(item, rest);
      AllWellFormedCons(r, item, rest);
      CutAt(lines, k, next);
    }
  }

  // ---- There is no other way ----

  lemma {:induction false} BodyEndOf(r: Rules, lines: seq<string>, k: nat, n: nat, delimiter: string)
    requires k <= n <= |lines| && (n < |lines| ==> r.closes(lines[n], delimiter))
    requires forall j :: k <= j < n ==> !r.closes(lines[j], delimiter)
    ensures BodyEnd(r, lines, k, delimiter) == n
    decreases n - k
  {
    if k < n {
      BodyEndOf(r, lines, k + 1, n, delimiter);
    }
  }

  /** The lines of `item` stand at `k`. */
  predicate StandsAt(lines: seq<string>, k: nat, item: Item)
  {
    k + |LinesOf(item)| <= |lines| && lines[k..k + |LinesOf(item)|] == LinesOf(item)
  }

  lemma LinesAt(lines: seq<string>, k: nat, item: Item, j: nat)
    requires StandsAt(lines, k, item) && j < |LinesOf(item)|
    ensures lines[k + j] == LinesOf(item)[j]
  {
    assert lines[k..k + |LinesOf(item)|][j] == lines[k + j];
  }

  lemma HeredocAt(r: Rules, lines: seq<string>, k: nat, item: Item)
    requires item.Heredoc? && StandsAt(lines, k, item) && WellFormed(r, item, k + |LinesOf(item)| == |lines|)
    ensures k < |lines| && ItemAt(r, lines, k) == item && NextAt(r, lines, k) == k + |LinesOf(item)|
  {
    var m := |item.body|;
    LinesAt(lines, k, item, 0);
    forall j | 0 <= j < m ensures lines[k + 1 + j] == item.body[j] {
      LinesAt(lines, k, item, 1 + j);
    }
    if item.close.Some? {
      LinesAt(lines, k, item, 1 + m);
    }
    var d := r.opens(item.line).value;
    forall j | k + 1 <= j < k + 1 + m ensures !r.closes(lines[j], d) {
      assert lines[k + 1 + (j - k - 1)] == item.body[j - k - 1];
    }
    BodyEndOf(r, lines, k + 1, k + 1 + m, d);
    assert lines[k + 1..k + 1 + m] == item.body;
  }

  lemma ItemStands(r: Rules, lines: seq<string>, k: nat, item: Item)
    requires StandsAt(lines, k, item) && WellFormed(r, item, k + |LinesOf(item)| == |lines|)
    ensures k < |lines| && ItemAt(r, lines, k) == item && NextAt(r, lines, k) == k + |LinesOf(item)|
  {
    if item.Heredoc? {
      HeredocAt(r, lines, k, item);
    } else {
      LinesAt(lines, k, item, 0);
    }
  }

  lemma FirstStands(lines: seq<string>, k: nat, items: seq<Item>)
    requires k <= |lines| && items != [] && lines[k..] == AllLines(items)
    ensures var n := |LinesOf(items[0])|;
            && StandsAt(lines, k, items[0]) && lines[k + n..] == AllLines(items[1..])
            && (|items| == 1 <==> k + n == |lines|)
  {
    var n := |LinesOf(items[0])|;
    assert lines[k..][..n] == LinesOf(items[0]) && lines[k..][n..] == AllLines(items[1..]);
    CutAt(lines, k, k + n);
    DropDrop(lines, k, n);
    if |items| > 1 {
      assert AllLines(items[1..]) != [];
    }
  }

  lemma WellFormedTail(r: Rules, items: seq<Item>)
    requires items != [] && AllWellFormed(r, items)
    ensures WellFormed(r, items[0], |items| == 1) && AllWellFormed(r, items[1..])
  {
    var rest := items[1..];
    forall i | 0 <= i < |rest| ensures WellFormed(r, rest[i], i == |rest| - 1) {
      assert rest[i] == items[i + 1];
    }
  }

  lemma ItemsCons(r: Rules, lines: seq<string>, k: nat, item: Item, next: nat)
    requires k < |lines| && item == ItemAt(r, lines, k) && next == NextAt(r, lines, k)
    ensures ItemsFrom(r, lines, k) == [item] + ItemsFrom(r, lines, next)
  {
  }

  lemma {:induction false} ItemsOf(r: Rules, lines: seq<string>, k: nat, items: seq<Item>)
    requires k <= |lines| && AllWellFormed(r, items) && lines[k..] == AllLines(items)
    ensures ItemsFrom(r, lines, k) == items
    decreases |items|
  {
    if items != [] {
      FirstStands(lines, k, items);
      WellFormedTail(r, items);
      ItemStands(r, lines, k, items[0]);
      var next := k + |LinesOf(items[0])|;
      ItemsOf(r, lines, next, items[1..]);
      ItemsCons(r, lines, k, items[0], next);
      assert items == [items[0]] + items[1..];
    }
  }

  /** Every command is a run of well-formed items in exactly one way, and nothing of it is lost. */
  lemma ItemsExactly(r: Rules, command: string, items: seq<Item>)
    ensures items == Parse(r, Lines(command))
            <==> AllWellFormed(r, items) && Proper(AllLines(items)) && Concat(AllLines(items)) == command
  {
    var lines := Lines(command);
    assert lines[0..] == lines;
    LinesAreProper(command);
    ParseLosesNothing(r, lines, 0);
    if AllWellFormed(r, items) && Proper(AllLines(items)) && Concat(AllLines(items)) == command {
      LinesOfConcat(AllLines(items));
      ItemsOf(r, lines, 0, items);
    }
  }

  // ---- The source's loop ----

  function Openers(items: seq<Item>): seq<string>
  {
    if items == [] then [] else [items[0].line] + Openers(items[1..])
  }

  /** What is left of the command with its bodies and delimiter lines gone. */
  function Shell(items: seq<Item>): string
  {
    var text := Concat(Openers(items));
    if Ended(text) then text else text + "\n"
  }

  /** Each body, with the number of the remaining line that opened it. */
  function Bodies(items: seq<Item>, from: nat): seq<(nat, string)>
    decreases items
  {
    if items == [] then []
    else (if items[0].Heredoc? then [(from, Concat(items[0].body))] else []) + Bodies(items[1..], from + 1)
  }

  /** Where line `k` begins. */
  function Offset(lines: seq<string>, k: nat): nat
    requires k <= |lines|
  {
    if k == 0 then 0 else Offset(lines, k - 1) + |lines[k - 1]|
  }

  lemma {:induction false} OffsetIsLength(lines: seq<string>, k: nat)
    requires k <= |lines|
    ensures Offset(lines, k) == |Concat(lines[..k])|
  {
    if k > 0 {
      OffsetIsLength(lines, k - 1);
      assert lines[..k] == lines[..k - 1] + [lines[k - 1]];
      ConcatSnoc(lines[..k - 1], lines[k - 1]);
    }
  }

  lemma ConcatTo<T>(xs: seq<seq<T>>, a: nat, b: nat)
    requires a <= b <= |xs|
    ensures Concat(xs[..b]) == Concat(xs[..a]) + Concat(xs[a..b])
  {
    assert xs[..b] == xs[..a] + xs[a..b];
    ConcatAppend(xs[..a], xs[a..b]);
  }

  lemma Middle<T>(whole: seq<T>, front: seq<T>, x: seq<T>, y: seq<T>, z: seq<T>)
    requires front == x + y && whole == front + z
    ensures |x| <= |front| <= |whole| && whole[|x|..|front|] == y
  {
  }

  /** A run of lines is a slice of the text. */
  lemma Slice(lines: seq<string>, a: nat, b: nat)
    requires a <= b <= |lines|
    ensures Offset(lines, a) <= Offset(lines, b) <= |Concat(lines)|
    ensures Concat(lines)[Offset(lines, a)..Offset(lines, b)] == Concat(lines[a..b])
  {
    OffsetIsLength(lines, a);
    OffsetIsLength(lines, b);
    ConcatTo(lines, a, b);
    ConcatTo(lines, b, |lines|);
    assert lines[..|lines|] == lines;
    Middle(Concat(lines), Concat(lines[..b]), Concat(lines[..a]), Concat(lines[a..b]), Concat(lines[b..]));
  }

  /** Reads up to and over the closing line, from the line numbered `k`; the body ends before it. */
  method ReadBody(r: Rules, lines: seq<string>, k: nat, at: nat, delimiter: string)
    returns (next: nat, offset: nat, end: nat)
    requires k <= |lines| && at == Offset(lines, k)
    ensures var n := BodyEnd(r, lines, k, delimiter);
            && next == (if n < |lines| then n + 1 else n) && offset == Offset(lines, next)
            && at <= end <= |Concat(lines)| && Concat(lines)[at..end] == Concat(lines[k..n])
  {
    next, offset, end := k, at, at;
    while next < |lines|
      invariant k <= next <= |lines| && offset == end == Offset(lines, next)
      invariant BodyEnd(r, lines, k, delimiter) == BodyEnd(r, lines, next, delimiter)
    {
      var line := lines[next];
      next, offset := next + 1, offset + |line|;
      if r.closes(line, delimiter) {
        Slice(lines, k, next - 1);
        return;
      }
      end := offset;
    }
    Slice(lines, k, next);
  }

  function BodyOf(item: Item): Option<string>
  {
    if item.Heredoc? then Some(Concat(item.body)) else None
  }

  datatype Gathered = Gathered(shell: string, bodies: seq<(nat, string)>, lines: nat)

  function AddBody(g: Gathered, line: string, body: Option<string>): Gathered
  {
    Gathered(g.shell + line, if body.Some? then g.bodies + [(g.lines, body.value)] else g.bodies, g.lines + 1)
  }

  function Add(g: Gathered, item: Item): Gathered
  {
    AddBody(g, item.line, BodyOf(item))
  }

  function Gather(g: Gathered, items: seq<Item>): Gathered
    decreases items
  {
    if items == [] then g else Gather(Add(g, items[0]), items[1..])
  }

  lemma GatherCons(g: Gathered, item: Item, rest: seq<Item>)
    ensures Gather(g, [item] + rest) == Gather(Add(g, item), rest)
  {
    assert ([item] + rest)[1..] == rest;
  }

  /** What is gathered from line `k` on, after `g`. */
  function GatherFrom(r: Rules, lines: seq<string>, k: nat, g: Gathered): Gathered
    requires k <= |lines|
    decreases |lines| - k
  {
    if k == |lines| then g
    else GatherFrom(r, lines, NextAt(r, lines, k), AddBody(g, lines[k], BodyOf(ItemAt(r, lines, k))))
  }

  lemma {:induction false} GatherFromIs(r: Rules, lines: seq<string>, k: nat, g: Gathered)
    requires k <= |lines|
    ensures GatherFrom(r, lines, k, g) == Gather(g, ItemsFrom(r, lines, k))
    decreases |lines| - k
  {
    if k < |lines| {
      var item, next := ItemsStep(r, lines, k);
      GatherCons(g, item, ItemsFrom(r, lines, next));
      GatherFromIs(r, lines, next, Add(g, item));
    }
  }

  lemma {:induction false} GatherIs(g: Gathered, items: seq<Item>)
    ensures Gather(g, items).shell == g.shell + Concat(Openers(items))
    ensures Gather(g, items).bodies == g.bodies + Bodies(items, g.lines)
    decreases items
  {
    if items != [] {
      GatherIs(Add(g, items[0]), items[1..]);
      ConcatCons(items[0].line, Openers(items[1..]));
    }
  }

  /** Reads one shell line and the body it opens, if it opens one. */
  method ReadItem(r: Rules, command: string, lines: seq<string>, k: nat, at: nat, ghost g: Gathered)
    returns (next: nat, offset: nat, body: Option<string>)
    requires k < |lines| && at == Offset(lines, k) && Concat(lines) == command
    ensures k < next <= |lines| && offset == Offset(lines, next)
    ensures GatherFrom(r, lines, k, g) == GatherFrom(r, lines, next, AddBody(g, lines[k], body))
  {
    next, offset, body := k + 1, at + |lines[k]|, None;
    var delimiter := r.opens(lines[k]);
    if delimiter.Some? {
      var start, end := offset, 0;
      next, offset, end := ReadBody(r, lines, next, offset, delimiter.value);
      body := Some(command[start..end]);
    }
  }

  lemma GatherEnds(r: Rules, lines: seq<string>, g: Gathered)
    ensures GatherFrom(r, lines, |lines|, g) == g
  {
  }

  method GatherInLoop(r: Rules, command: string, lines: seq<string>, ghost all: Gathered)
    returns (shell: string, bodies: seq<(nat, string)>)
    requires Concat(lines) == command && GatherFrom(r, lines, 0, Gathered("", [], 0)) == all
    ensures shell == all.shell && bodies == all.bodies
  {
    shell, bodies := "", [];
    var k, offset, shellLines := 0, 0, 0;
    ghost var g := Gathered("", [], 0);
    while k < |lines|
      invariant k <= |lines| && offset == Offset(lines, k)
      invariant g == Gathered(shell, bodies, shellLines) && GatherFrom(r, lines, k, g) == all
      decreases |lines| - k
    {
      var line, next, body := lines[k], 0, None;
      next, offset, body := ReadItem(r, command, lines, k, offset, g);
      g := AddBody(g, line, body);
      k := next;
      shell := shell + line;
      if body.Some? {
        bodies := bodies + [(shellLines, body.value)];
      }
      shellLines := shellLines + 1;
    }
    GatherEnds(r, lines, g);
  }

  lemma GatheredIs(items: seq<Item>)
    ensures var g := Gather(Gathered("", [], 0), items); g.shell == Concat(Openers(items)) && g.bodies == Bodies(items, 0)
  {
    GatherIs(Gathered("", [], 0), items);
    assert "" + Concat(Openers(items)) == Concat(Openers(items));
    assert [] + Bodies(items, 0) == Bodies(items, 0);
  }

  method SplitHeredocs(r: Rules, command: string) returns (shell: string, bodies: seq<(nat, string)>)
    ensures shell == Shell(Parse(r, Lines(command)))
    ensures bodies == Bodies(Parse(r, Lines(command)), 0)
  {
    var lines := Lines(command);
    LinesAreProper(command);
    shell, bodies := GatherInLoop(r, command, lines, GatherFrom(r, lines, 0, Gathered("", [], 0)));
    GatherFromIs(r, lines, 0, Gathered("", [], 0));
    GatheredIs(Parse(r, lines));
    if !Ended(shell) {
      shell := shell + "\n";
    }
  }
}
