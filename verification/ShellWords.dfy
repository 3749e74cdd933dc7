/** Splitting a shell segment into words, aware of quotes and of nothing else: no escapes, no expansion. */
module ShellWords {
  import opened Prelude
  import opened Text

  // ---- Words ----

  /** Between two characters: words done, the word being read, the open quote, and whether the word being read
      has had a quote, which makes it a word even when empty. */
  datatype Scan = Scan(words: seq<string>, cur: string, quote: Option<char>, any: bool)

  function Between(words: seq<string>): Scan
  {
    Scan(words, "", None, false)
  }

  const START := Between([])

  function Pushed(st: Scan): Scan
  {
    if st.any || st.cur != "" then st.(words := st.words + [st.cur], cur := "") else st
  }

  function Next(st: Scan, c: char): Scan
  {
    match st.quote
    case Some(q) => if c == q then st.(quote := None) else st.(cur := st.cur + [c])
    case None =>
      if Quote(c) then st.(quote := Some(c), any := true)
      else if Whitespace(c) then Pushed(st).(any := false)
      else st.(cur := st.cur + [c])
  }

  function ScanAll(st: Scan, text: string): Scan
    decreases text
  {
    if text == "" then st else ScanAll(Next(st, text[0]), text[1..])
  }

  function Finish(st: Scan): seq<string>
  {
    Pushed(st).words
  }

  function Words(segment: string): seq<string>
  {
    Finish(ScanAll(START, segment))
  }

  method WordsInLoop(segment: string) returns (words: seq<string>)
    ensures words == Words(segment)
  {
    words := [];
    var cur, quote: Option<char>, any := "", None, false;
    for i := 0 to |segment|
      invariant ScanAll(Scan(words, cur, quote, any), segment[i..]) == ScanAll(START, segment)
    {
      var c := segment[i];
      assert segment[i..][0] == c && segment[i..][1..] == segment[i + 1..];
      if quote.Some? {
        if c == quote.value {
          quote := None;
        } else {
          cur := cur + [c];
        }
      } else if Quote(c) {
        quote := Some(c);
        any := true;
      } else if Whitespace(c) {
        if any || cur != "" {
          words := words + [cur];
          cur := "";
        }
        any := false;
      } else {
        cur := cur + [c];
      }
    }
    if any || cur != "" {
      words := words + [cur];
    }
  }

  // ---- How a word may be spelled ----

  /** A character on its own, or a run in quotes of either kind that does not hold that quote. */
  datatype Piece = Bare(c: char) | Quoted(q: char, run: string)

  predicate Legal(p: Piece)
  {
    match p
    case Bare(c) => c != '\'' && c != '"' && !Whitespace(c)
    case Quoted(q, run) => (q == '\'' || q == '"') && q !in run
  }

  function Spell(p: Piece): string
  {
    match p
    case Bare(c) => [c]
    case Quoted(q, run) => [q] + run + [q]
  }

  function Meaning(p: Piece): string
  {
    match p
    case Bare(c) => [c]
    case Quoted(_, run) => run
  }

  /** A word is at least one piece. */
  type Spelling = seq<Piece>

  predicate AllLegal(w: Spelling)
  {
    forall i :: 0 <= i < |w| ==> Legal(w[i])
  }

  predicate Proper(w: Spelling)
  {
    w != [] && AllLegal(w)
  }

  function SpellWord(w: Spelling): string
  {
    if w == [] then "" else Spell(w[0]) + SpellWord(w[1..])
  }

  function WordOf(w: Spelling): string
  {
    if w == [] then "" else Meaning(w[0]) + WordOf(w[1..])
  }

  /** A word and the blanks after it. */
  datatype Token = Token(word: Spelling, gap: string)

  /** Only the last word may have no blank after it. */
  predicate Sentence(tokens: seq<Token>)
  {
    && (forall i :: 0 <= i < |tokens| ==> Proper(tokens[i].word) && All(Whitespace, tokens[i].gap))
    && (forall i :: 0 <= i < |tokens| - 1 ==> tokens[i].gap != "")
  }

  function Write(tokens: seq<Token>): string
  {
    if tokens == [] then "" else SpellWord(tokens[0].word) + tokens[0].gap + Write(tokens[1..])
  }

  function Meant(tokens: seq<Token>): seq<string>
  {
    if tokens == [] then [] else [WordOf(tokens[0].word)] + Meant(tokens[1..])
  }

  lemma {:induction false} ScanAppend(st: Scan, a: string, b: string)
    ensures ScanAll(st, a + b) == ScanAll(ScanAll(st, a), b)
    decreases a
  {
    if a == "" {
      assert a + b == b;
    } else {
      assert (a + b)[1..] == a[1..] + b;
      ScanAppend(Next(st, a[0]), a[1..], b);
    }
  }

  lemma {:induction false} ScanQuoted(st: Scan, run: string)
    requires st.quote.Some? && st.quote.value !in run
    ensures ScanAll(st, run) == st.(cur := st.cur + run)
    decreases run
  {
    if run == "" {
      assert st.cur + run == st.cur;
    } else {
      ScanQuoted(Next(st, run[0]), run[1..]);
      assert st.cur + run == st.cur + [run[0]] + run[1..];
    }
  }

  lemma ScanPiece(st: Scan, p: Piece)
    requires st.quote.None? && Legal(p)
    ensures ScanAll(st, Spell(p)) == st.(cur := st.cur + Meaning(p), any := st.any || p.Quoted?)
  {
    match p
    case Bare(c) =>
      assert [c][1..] == "";
    case Quoted(q, run) =>
      var inside := st.(quote := Some(q), any := true);
      assert Spell(p) == [q] + (run + [q]) && ([q] + (run + [q]))[1..] == run + [q];
      ScanAppend(inside, run, [q]);
      ScanQuoted(inside, run);
      assert [q][1..] == "";
  }

  /** Reading `w` from `st`: the word grows, and is a word if it was one or `w` has a piece. */
  predicate Grown(st: Scan, after: Scan, w: Spelling)
  {
    && after.words == st.words && after.quote.None? && after.cur == st.cur + WordOf(w)
    && (after.any || after.cur != "" <==> st.any || st.cur != "" || w != [])
  }

  lemma GrowsBy(st: Scan, middle: Scan, after: Scan, p: Piece, rest: Spelling)
    requires middle == st.(cur := st.cur + Meaning(p), any := st.any || p.Quoted?) && Grown(middle, after, rest)
    ensures Grown(st, after, [p] + rest)
  {
    assert ([p] + rest)[1..] == rest;
    assert st.cur + (Meaning(p) + WordOf(rest)) == st.cur + Meaning(p) + WordOf(rest);
  }

  lemma {:induction false} ScanWord(st: Scan, w: Spelling)
    requires st.quote.None? && AllLegal(w)
    ensures Grown(st, ScanAll(st, SpellWord(w)), w)
    decreases |w|
  {
    if w == [] {
      assert st.cur + "" == st.cur;
    } else {
      var middle := ScanAll(st, Spell(w[0]));
      ScanAppend(st, Spell(w[0]), SpellWord(w[1..]));
      ScanPiece(st, w[0]);
      ScanWord(middle, w[1..]);
      GrowsBy(st, middle, ScanAll(middle, SpellWord(w[1..])), w[0], w[1..]);
      assert w == [w[0]] + w[1..];
    }
  }

  lemma {:induction false} ScanBlanks(words: seq<string>, gap: string)
    requires All(Whitespace, gap)
    ensures ScanAll(Between(words), gap) == Between(words)
    decreases gap
  {
    if gap != "" {
      assert Whitespace(gap[0]) && !Quote(gap[0]);
      ScanBlanks(words, gap[1..]);
    }
  }

  /** A word read from between words is pushed at the end of the segment, and by any gap after it. */
  lemma ScanToken(words: seq<string>, t: Token)
    requires Proper(t.word) && All(Whitespace, t.gap)
    ensures var after := ScanAll(Between(words), SpellWord(t.word) + t.gap);
            && Pushed(after).words == words + [WordOf(t.word)]
            && (t.gap != "" ==> after == Between(words + [WordOf(t.word)]))
  {
    ScanAppend(Between(words), SpellWord(t.word), t.gap);
    ScanWord(Between(words), t.word);
    var read := ScanAll(Between(words), SpellWord(t.word));
    assert "" + WordOf(t.word) == WordOf(t.word);
    if t.gap != "" {
      assert Whitespace(t.gap[0]) && !Quote(t.gap[0]);
      ScanBlanks(words + [WordOf(t.word)], t.gap[1..]);
    }
  }

  /** Reading a word with a gap after it leaves the rest to be read from between words. */
  lemma ScanPast(words: seq<string>, t: Token, rest: string)
    requires Proper(t.word) && All(Whitespace, t.gap) && t.gap != ""
    ensures ScanAll(Between(words), SpellWord(t.word) + t.gap + rest) == ScanAll(Between(words + [WordOf(t.word)]), rest)
  {
    ScanToken(words, t);
    ScanAppend(Between(words), SpellWord(t.word) + t.gap, rest);
  }

  lemma ReadToken(words: seq<string>, tokens: seq<Token>)
    requires tokens != [] && Proper(tokens[0].word) && All(Whitespace, tokens[0].gap) && tokens[0].gap != ""
    ensures ScanAll(Between(words), Write(tokens))
            == ScanAll(Between(words + [WordOf(tokens[0].word)]), Write(tokens[1..]))
  {
    ScanPast(words, tokens[0], Write(tokens[1..]));
  }

  lemma MeantStep(words: seq<string>, tokens: seq<Token>)
    requires tokens != []
    ensures words + Meant(tokens) == words + [WordOf(tokens[0].word)] + Meant(tokens[1..])
  {
  }

  lemma LastToken(words: seq<string>, tokens: seq<Token>)
    requires Sentence(tokens) && |tokens| == 1
    ensures Finish(ScanAll(Between(words), Write(tokens))) == words + Meant(tokens)
  {
    ScanToken(words, tokens[0]);
    OneToken(tokens);
  }

  lemma {:induction false} ScanSentence(words: seq<string>, tokens: seq<Token>)
    requires Sentence(tokens)
    ensures Finish(ScanAll(Between(words), Write(tokens))) == words + Meant(tokens)
    decreases |tokens|
  {
    if tokens == [] {
      assert words + [] == words;
    } else if |tokens| == 1 {
      LastToken(words, tokens);
    } else {
      SentenceTail(tokens);
      ReadToken(words, tokens);
      MeantStep(words, tokens);
      ScanSentence(words + [WordOf(tokens[0].word)], tokens[1..]);
    }
  }

  lemma OneToken(tokens: seq<Token>)
    requires |tokens| == 1
    ensures Write(tokens) == SpellWord(tokens[0].word) + tokens[0].gap
    ensures Meant(tokens) == [WordOf(tokens[0].word)]
  {
    assert Write(tokens[1..]) == "";
  }

  lemma SentenceTail(tokens: seq<Token>)
    requires |tokens| > 1 && Sentence(tokens)
    ensures Sentence(tokens[1..]) && tokens[0].gap != ""
  {
    var rest := tokens[1..];
    assert forall i :: 0 <= i < |rest| ==> rest[i] == tokens[i + 1];
  }

  /** However its words are spelled and spaced, a segment reads back as those words. */
  lemma WordsOfWritten(lead: string, tokens: seq<Token>)
    requires All(Whitespace, lead) && Sentence(tokens)
    ensures Words(lead + Write(tokens)) == Meant(tokens)
  {
    ScanAppend(START, lead, Write(tokens));
    ScanBlanks([], lead);
    ScanSentence([], tokens);
  }

  // ---- One printer for all words ----

  function QuoteChar(c: char): Piece
  {
    if c == '\'' then Quoted('"', [c]) else Quoted('\'', [c])
  }

  function QuoteChars(w: string): Spelling
  {
    if w == "" then [] else [QuoteChar(w[0])] + QuoteChars(w[1..])
  }

  /** Every character in the quotes it is not; the empty word as an empty pair. */
  function QuoteWord(w: string): Spelling
  {
    if w == "" then [Quoted('\'', "")] else QuoteChars(w)
  }

  function Tokens(words: seq<string>): seq<Token>
  {
    seq(|words|, i requires 0 <= i < |words| => Token(QuoteWord(words[i]), if i < |words| - 1 then " " else ""))
  }

  function Print(words: seq<string>): string
  {
    Write(Tokens(words))
  }

  lemma WordOfCons(p: Piece, rest: Spelling)
    ensures WordOf([p] + rest) == Meaning(p) + WordOf(rest)
  {
    assert ([p] + rest)[1..] == rest;
  }

  lemma {:induction false} QuotedCharsMean(w: string)
    ensures WordOf(QuoteChars(w)) == w
    ensures |QuoteChars(w)| == |w| && AllLegal(QuoteChars(w))
  {
    if w != "" {
      QuotedCharsMean(w[1..]);
      WordOfCons(QuoteChar(w[0]), QuoteChars(w[1..]));
      assert w == [w[0]] + w[1..];
    }
  }

  lemma QuotedMeans(w: string)
    ensures WordOf(QuoteWord(w)) == w && Proper(QuoteWord(w))
  {
    QuotedCharsMean(w);
    if w == "" {
      WordOfCons(Quoted('\'', ""), []);
      assert [Quoted('\'', "")] + [] == [Quoted('\'', "")];
    }
  }

  lemma {:induction false} TokensMean(words: seq<string>)
    ensures Meant(Tokens(words)) == words
  {
    if words != [] {
      assert Tokens(words)[1..] == Tokens(words[1..]);
      TokensMean(words[1..]);
      QuotedMeans(words[0]);
      assert words == [words[0]] + words[1..];
    }
  }

  /** Every list of words, over any characters at all, survives being printed and split again. */
  lemma WordsRoundTrip(words: seq<string>)
    ensures Words(Print(words)) == words
  {
    forall i | 0 <= i < |words| ensures Proper(Tokens(words)[i].word) && All(Whitespace, Tokens(words)[i].gap) {
      QuotedMeans(words[i]);
    }
    WordsOfWritten("", Tokens(words));
    assert "" + Print(words) == Print(words);
    TokensMean(words);
  }
}
