/** Which tools a transcript has loaded and in what order, said of its messages as they are. */
module LoadOrder {
  import opened Prelude
  import opened Deferred

  // ---- Names in a text ----

  /** Letters, digits, the underscore and the hyphen of ASCII. */
  predicate InName(c: char)
  {
    var n := c as int;
    48 <= n <= 57 || 65 <= n <= 90 || 97 <= n <= 122 || n == 95 || n == 45
  }

  function NameLength(text: string): (n: nat)
    ensures n <= |text| && (forall i :: 0 <= i < n ==> InName(text[i])) && (n < |text| ==> !InName(text[n]))
  {
    if text == "" || !InName(text[0]) then 0 else 1 + NameLength(text[1..])
  }

  /** The names that stand whole in a text, from left to right. */
  function Tokens(text: string): seq<string>
    decreases |text|
  {
    if text == "" then []
    else if !InName(text[0]) then Tokens(text[1..])
    else [text[..NameLength(text)]] + Tokens(text[NameLength(text)..])
  }

  lemma NameCharIs(c: char)
    ensures NameChar(c) <==> InName(c)
  {
  }

  lemma {:induction false} PiecesFrom(text: string)
    ensures var n := NameLength(text);
            Pieces(text) == [text[..n]] + if n == |text| then [] else Pieces(text[n + 1..])
    decreases |text|
  {
    if text != "" {
      NameCharIs(text[0]);
      if InName(text[0]) {
        var n := NameLength(text);
        PiecesFrom(text[1..]);
        assert [text[0]] + text[1..][..n - 1] == text[..n];
        if n < |text| {
          assert text[1..][n..] == text[n + 1..];
        }
      } else {
        assert text[..0] == "" && text[0 + 1..] == text[1..];
      }
    }
  }

  lemma NonEmptyCons(first: string, rest: seq<string>)
    ensures NonEmpty([first] + rest) == (if first == "" then [] else [first]) + NonEmpty(rest)
  {
    assert ([first] + rest)[1..] == rest;
  }

  lemma TokensAfterName(text: string, n: nat)
    requires n < |text| && !InName(text[n])
    ensures Tokens(text[n..]) == Tokens(text[n + 1..])
  {
    assert text[n..][1..] == text[n + 1..];
  }

  lemma TokensStart(text: string, n: nat)
    requires n == NameLength(text)
    ensures Tokens(text) == (if n == 0 then [] else [text[..n]]) + (if n == |text| then [] else Tokens(text[n + 1..]))
  {
    if n == |text| {
      assert text[n..] == "";
    } else {
      TokensAfterName(text, n);
      assert text[0..] == text;
    }
  }

  lemma NameTokensStart(text: string, n: nat)
    requires n == NameLength(text)
    ensures NameTokens(text)
            == (if n == 0 then [] else [text[..n]]) + (if n == |text| then [] else NameTokens(text[n + 1..]))
  {
    PiecesFrom(text);
    NonEmptyCons(text[..n], if n == |text| then [] else Pieces(text[n + 1..]));
  }

  /** The tokens of a text are its whole names, from left to right. */
  lemma {:induction false} TokensAre(text: string)
    ensures NameTokens(text) == Tokens(text)
    decreases |text|
  {
    var n := NameLength(text);
    NameTokensStart(text, n);
    TokensStart(text, n);
    if n < |text| {
      TokensAre(text[n + 1..]);
    }
  }

  // ---- What the messages say ----

  /** The blocks of the messages in one role, in order. */
  function Said(messages: seq<Message>, role: Role): seq<Block>
  {
    if messages == [] then []
    else (if messages[0].role == role then messages[0].content else []) + Said(messages[1..], role)
  }

  lemma {:induction false} SaidIs(messages: seq<Message>, role: Role)
    ensures Blocks(messages, role) == Said(messages, role)
  {
    if messages != [] {
      SaidIs(messages[1..], role);
      BlocksAppend([messages[0]], messages[1..], role);
      BlocksSnoc([], messages[0], role);
      assert [] + [messages[0]] == [messages[0]] && messages == [messages[0]] + messages[1..];
      assert [] + Own(messages[0], role) == Own(messages[0], role);
    }
  }

  /** The assistant called `tool_search` under this id. */
  predicate Searched(messages: seq<Message>, id: string)
  {
    exists m, b :: 0 <= m < |messages| && messages[m].role == Assistant && 0 <= b < |messages[m].content|
                   && messages[m].content[b] == ToolUse(id, "tool_search")
  }

  lemma {:induction false} SaidSomewhere(messages: seq<Message>, role: Role, block: Block)
    ensures block in Said(messages, role) <==>
            exists m, b :: 0 <= m < |messages| && messages[m].role == role && 0 <= b < |messages[m].content|
                           && messages[m].content[b] == block
  {
    if messages != [] {
      var rest := messages[1..];
      SaidSomewhere(rest, role, block);
      if m, b :| 0 <= m < |rest| && rest[m].role == role && 0 <= b < |rest[m].content| && rest[m].content[b] == block {
        assert messages[m + 1].content[b] == block;
      }
      if m, b :| 0 <= m < |messages| && messages[m].role == role && 0 <= b < |messages[m].content|
                 && messages[m].content[b] == block {
        if m > 0 {
          assert rest[m - 1].content[b] == block;
        }
      }
    }
  }

  lemma SearchIdsAre(messages: seq<Message>, id: string)
    ensures id in SearchIds(Blocks(messages, Assistant)) <==> Searched(messages, id)
  {
    SaidIs(messages, Assistant);
    SaidSomewhere(messages, Assistant, ToolUse(id, "tool_search"));
    assert id in SearchIds(Blocks(messages, Assistant)) <==> ToolUse(id, "tool_search") in Blocks(messages, Assistant);
  }

  /** The names in the results of its searches that did not fail, in order. */
  function NamesFound(messages: seq<Message>, blocks: seq<Block>): seq<string>
  {
    if blocks == [] then []
    else
      var b := blocks[0];
      (if b.ToolResult? && !b.isError && Searched(messages, b.id) then Tokens(b.content) else [])
      + NamesFound(messages, blocks[1..])
  }

  function AllTokens(results: seq<Found>): seq<string>
  {
    if results == [] then [] else results[0].tokens + AllTokens(results[1..])
  }

  lemma {:induction false} AllTokensAppend(a: seq<Found>, b: seq<Found>)
    ensures AllTokens(a + b) == AllTokens(a) + AllTokens(b)
  {
    if a == [] {
      assert a + b == b;
    } else {
      AllTokensAppend(a[1..], b);
      assert (a + b)[1..] == a[1..] + b && (a + b)[0] == a[0];
      Regroup(a[0].tokens, AllTokens(a[1..]), AllTokens(b));
    }
  }

  lemma OneResult(block: Block, ids: set<string>)
    ensures AllTokens(Results([block], ids)) == if Answers(block, ids) then NameTokens(block.content) else []
  {
    assert [block][..0] == [] && Results([block][..0], ids) == [];
    if Answers(block, ids) {
      var one := [Found(block.id, NameTokens(block.content))];
      assert Results([block], ids) == one && one[1..] == [];
      assert one[0].tokens + [] == one[0].tokens;
    }
  }

  lemma {:induction false} ResultsSay(messages: seq<Message>, blocks: seq<Block>, ids: set<string>)
    requires ids == SearchIds(Blocks(messages, Assistant))
    ensures AllTokens(Results(blocks, ids)) == NamesFound(messages, blocks)
  {
    if blocks != [] {
      var first, rest := blocks[0], blocks[1..];
      ResultsSay(messages, rest, ids);
      ResultsAppend([first], rest, ids);
      assert blocks == [first] + rest;
      AllTokensAppend(Results([first], ids), Results(rest, ids));
      OneResult(first, ids);
      if first.ToolResult? {
        SearchIdsAre(messages, first.id);
        TokensAre(first.content);
      }
    }
  }

  // ---- Each name once, where it is first named ----

  /** The known names among the tokens that are not seen yet, each once, where it first stands. */
  function FirstNamed(known: set<string>, seen: set<string>, tokens: seq<string>): seq<string>
    decreases tokens
  {
    if tokens == [] then []
    else
      var t := tokens[0];
      if t in known && t !in seen then [t] + FirstNamed(known, seen + {t}, tokens[1..])
      else FirstNamed(known, seen, tokens[1..])
  }

  function SeenAfter(known: set<string>, seen: set<string>, tokens: seq<string>): set<string>
  {
    seen + (set t | t in tokens && t in known)
  }

  lemma {:induction false} FirstNamedAppend(known: set<string>, seen: set<string>, a: seq<string>, b: seq<string>)
    ensures FirstNamed(known, seen, a + b)
            == FirstNamed(known, seen, a) + FirstNamed(known, SeenAfter(known, seen, a), b)
    decreases |a|
  {
    if a == [] {
      assert a + b == b && SeenAfter(known, seen, a) == seen;
    } else {
      var t, rest := a[0], a[1..];
      assert (a + b)[1..] == rest + b;
      var next := if t in known && t !in seen then seen + {t} else seen;
      FirstNamedAppend(known, next, rest, b);
      assert SeenAfter(known, next, rest) == SeenAfter(known, seen, a) by {
        assert a == [t] + rest;
      }
    }
  }

  lemma FirstNamedOne(known: set<string>, seen: set<string>, t: string)
    ensures FirstNamed(known, seen, [t]) == if t in known && t !in seen then [t] else []
  {
    assert [t][1..] == [];
    assert FirstNamed(known, seen + {t}, []) == [] && [t] + [] == [t];
  }

  lemma {:induction false} TakenInOrder(index: Index, seen: set<string>, tokens: seq<string>)
    requires Named(index)
    ensures var taking := Take(index, seen, tokens);
            && NamesOf(taking.defs) == FirstNamed(index.Keys, seen, tokens)
            && taking.seen == SeenAfter(index.Keys, seen, tokens)
  {
    if tokens == [] {
      assert NamesOf([]) == [] && SeenAfter(index.Keys, seen, tokens) == seen;
    } else {
      var front, t := tokens[..|tokens| - 1], tokens[|tokens| - 1];
      var before := Take(index, seen, front);
      TakenInOrder(index, seen, front);
      assert tokens == front + [t];
      FirstNamedAppend(index.Keys, seen, front, [t]);
      FirstNamedOne(index.Keys, before.seen, t);
      if t in index && t !in before.seen {
        NamesSnoc(before.defs, index[t]);
      } else {
        assert NamesOf(before.defs) + [] == NamesOf(before.defs);
      }
    }
  }

  lemma AllDefsSnoc(loads: seq<Load>, last: Load)
    ensures AllDefs(loads + [last]) == AllDefs(loads) + last.defs
  {
    assert (loads + [last])[..|loads|] == loads;
  }

  lemma OneMoreResult(index: Index, st: Loaded, found: Found, before: seq<string>)
    requires Named(index) && NamesOf(AllDefs(st.byResult)) == FirstNamed(index.Keys, {}, before)
    requires st.seen == SeenAfter(index.Keys, {}, before)
    ensures var next := LoadOne(index, st, found);
            && NamesOf(AllDefs(next.byResult)) == FirstNamed(index.Keys, {}, before + found.tokens)
            && next.seen == SeenAfter(index.Keys, {}, before + found.tokens)
  {
    var taking := Take(index, st.seen, found.tokens);
    TakenInOrder(index, st.seen, found.tokens);
    FirstNamedAppend(index.Keys, {}, before, found.tokens);
    NamesAppend(AllDefs(st.byResult), taking.defs);
    AllDefsSnoc(st.byResult, Load(found.id, taking.defs));
    if taking.defs == [] {
      assert AllDefs(st.byResult) + taking.defs == AllDefs(st.byResult);
    }
  }

  lemma {:induction false} LoadedByResults(index: Index, results: seq<Found>)
    requires Named(index)
    ensures var st := LoadAll(index, results);
            && NamesOf(AllDefs(st.byResult)) == FirstNamed(index.Keys, {}, AllTokens(results))
            && st.seen == SeenAfter(index.Keys, {}, AllTokens(results))
  {
    if results != [] {
      var front, last := results[..|results| - 1], results[|results| - 1];
      LoadedByResults(index, front);
      OneMoreResult(index, LoadAll(index, front), last, AllTokens(front));
      AllTokensAppend(front, [last]);
      assert [last][1..] == [] && AllTokens([last]) == last.tokens + [];
      assert last.tokens + [] == last.tokens;
      assert results == front + [last];
    }
  }

  /** A transcript's loaded tools, in order: the deferred names that stand whole in the results of `tool_search`
      calls that did not fail, each once, where it is first named. */
  lemma LoadedInOrder(deferred: seq<ToolDef>, messages: seq<Message>, known: set<string>)
    requires forall n :: n in known <==> n in NamesOf(deferred)
    ensures NamesOf(AllDefs(Loads(deferred, messages)))
            == FirstNamed(known, {}, NamesFound(messages, Said(messages, User)))
  {
    ByNameIs(deferred);
    var index := ByName(deferred);
    assert index.Keys == known;
    LoadedByResults(index, ResultsIn(messages));
    SaidIs(messages, User);
    ResultsSay(messages, Said(messages, User), SearchIds(Blocks(messages, Assistant)));
  }

  // ---- Which result loads which ----

  /** A load as its call's id and the names it adds. */
  function Labels(loads: seq<Load>): seq<(string, seq<string>)>
  {
    seq(|loads|, i requires 0 <= i < |loads| => (loads[i].id, NamesOf(loads[i].defs)))
  }

  function Entry(id: string, names: seq<string>): seq<(string, seq<string>)>
  {
    if names == [] then [] else [(id, names)]
  }

  /** Block by block: a search's result that did not fail loads the known names it is the first to hold, under the
      id of its call; and one that adds none loads nothing. */
  function LoadsIn(known: set<string>, seen: set<string>, messages: seq<Message>, blocks: seq<Block>)
    : seq<(string, seq<string>)>
    decreases blocks
  {
    if blocks == [] then []
    else
      var b, rest := blocks[0], blocks[1..];
      if b.ToolResult? && !b.isError && Searched(messages, b.id) then
        Entry(b.id, FirstNamed(known, seen, Tokens(b.content)))
        + LoadsIn(known, SeenAfter(known, seen, Tokens(b.content)), messages, rest)
      else LoadsIn(known, seen, messages, rest)
  }

  function LoadsOf(known: set<string>, seen: set<string>, results: seq<Found>): seq<(string, seq<string>)>
    decreases results
  {
    if results == [] then []
    else
      Entry(results[0].id, FirstNamed(known, seen, results[0].tokens))
      + LoadsOf(known, SeenAfter(known, seen, results[0].tokens), results[1..])
  }

  lemma LoadsOfCons(known: set<string>, seen: set<string>, first: Found, rest: seq<Found>)
    ensures LoadsOf(known, seen, [first] + rest)
            == Entry(first.id, FirstNamed(known, seen, first.tokens))
               + LoadsOf(known, SeenAfter(known, seen, first.tokens), rest)
  {
    assert ([first] + rest)[1..] == rest;
  }

  lemma {:induction false} LoadsOfSnoc(known: set<string>, seen: set<string>, results: seq<Found>, last: Found)
    ensures LoadsOf(known, seen, results + [last])
            == LoadsOf(known, seen, results)
               + Entry(last.id, FirstNamed(known, SeenAfter(known, seen, AllTokens(results)), last.tokens))
    decreases results
  {
    if results == [] {
      assert results + [last] == [last] + [] && SeenAfter(known, seen, AllTokens(results)) == seen;
      LoadsOfCons(known, seen, last, []);
    } else {
      var first, rest := results[0], results[1..];
      var next := SeenAfter(known, seen, first.tokens);
      LoadsOfSnoc(known, next, rest, last);
      LoadsOfCons(known, seen, first, rest + [last]);
      assert results + [last] == [first] + (rest + [last]);
      assert SeenAfter(known, next, AllTokens(rest)) == SeenAfter(known, seen, AllTokens(results));
    }
  }

  lemma LabelsSnoc(loads: seq<Load>, last: Load)
    ensures Labels(loads + [last]) == Labels(loads) + [(last.id, NamesOf(last.defs))]
  {
  }

  lemma OneMoreLabel(index: Index, st: Loaded, found: Found)
    requires Named(index)
    ensures Labels(LoadOne(index, st, found).byResult)
            == Labels(st.byResult) + Entry(found.id, FirstNamed(index.Keys, st.seen, found.tokens))
  {
    var defs := Take(index, st.seen, found.tokens).defs;
    TakenInOrder(index, st.seen, found.tokens);
    LabelsSnoc(st.byResult, Load(found.id, defs));
    assert defs == [] <==> NamesOf(defs) == [];
    assert Labels(st.byResult) + [] == Labels(st.byResult);
  }

  lemma {:induction false} LabelsByResults(index: Index, results: seq<Found>)
    requires Named(index)
    ensures Labels(LoadAll(index, results).byResult) == LoadsOf(index.Keys, {}, results)
  {
    if results != [] {
      var front, last := results[..|results| - 1], results[|results| - 1];
      LabelsByResults(index, front);
      LoadedByResults(index, front);
      OneMoreLabel(index, LoadAll(index, front), last);
      LoadsOfSnoc(index.Keys, {}, front, last);
      assert results == front + [last];
    }
  }

  lemma {:induction false} LoadsOfBlocks(known: set<string>, seen: set<string>, messages: seq<Message>,
                                         blocks: seq<Block>, ids: set<string>)
    requires ids == SearchIds(Blocks(messages, Assistant))
    ensures LoadsOf(known, seen, Results(blocks, ids)) == LoadsIn(known, seen, messages, blocks)
    decreases blocks
  {
    if blocks != [] {
      var first, rest := blocks[0], blocks[1..];
      ResultsAppend([first], rest, ids);
      assert blocks == [first] + rest && [first][..0] == [] && Results([first][..0], ids) == [];
      if first.ToolResult? {
        SearchIdsAre(messages, first.id);
        TokensAre(first.content);
      }
      if Answers(first, ids) {
        LoadsOfBlocks(known, SeenAfter(known, seen, NameTokens(first.content)), messages, rest, ids);
        LoadsOfCons(known, seen, Found(first.id, NameTokens(first.content)), Results(rest, ids));
      } else {
        LoadsOfBlocks(known, seen, messages, rest, ids);
        assert [] + Results(rest, ids) == Results(rest, ids);
      }
    }
  }

  /** Each load is under the id of the call whose result first holds its names. */
  lemma LoadedUnder(deferred: seq<ToolDef>, messages: seq<Message>, known: set<string>)
    requires forall n :: n in known <==> n in NamesOf(deferred)
    ensures Labels(Loads(deferred, messages)) == LoadsIn(known, {}, messages, Said(messages, User))
  {
    ByNameIs(deferred);
    var index := ByName(deferred);
    assert index.Keys == known;
    LabelsByResults(index, ResultsIn(messages));
    SaidIs(messages, User);
    LoadsOfBlocks(known, {}, messages, Said(messages, User), SearchIds(Blocks(messages, Assistant)));
  }

  // ---- The tool list ----

  /** The definitions whose names the tools do not have, in order. */
  function NewTo(tools: seq<ToolDef>, defs: seq<ToolDef>): seq<ToolDef>
  {
    if defs == [] then []
    else
      var last := defs[|defs| - 1];
      NewTo(tools, defs[..|defs| - 1]) + (if last.name in NamesOf(tools) then [] else [last])
  }

  lemma {:induction false} NewNames(tools: seq<ToolDef>, defs: seq<ToolDef>, name: string)
    ensures name in NamesOf(NewTo(tools, defs)) ==> name in NamesOf(defs)
  {
    if defs != [] {
      var front, last := defs[..|defs| - 1], defs[|defs| - 1];
      NewNames(tools, front, name);
      NamesSnoc(front, last);
      NamesSnoc(NewTo(tools, front), last);
      assert NewTo(tools, front) + [] == NewTo(tools, front);
      assert defs == front + [last];
    }
  }

  /** With no name twice among them, the loaded tools follow the request's own, in order, but for those whose names
      it has already. */
  lemma {:induction false} ToolListIs(tools: seq<ToolDef>, defs: seq<ToolDef>)
    requires Distinct(NamesOf(defs))
    ensures AddTools(tools, defs) == tools + NewTo(tools, defs)
  {
    if defs == [] {
      assert tools + [] == tools;
    } else {
      var front, last := defs[..|defs| - 1], defs[|defs| - 1];
      NamesSnoc(front, last);
      assert defs == front + [last];
      assert Distinct(NamesOf(front)) by {
        assert forall i :: 0 <= i < |front| ==> NamesOf(front)[i] == NamesOf(defs)[i];
      }
      ToolListIs(tools, front);
      NewNames(tools, front, last.name);
      NotAmong(front, last);
      NamesAppend(tools, NewTo(tools, front));
      assert tools + NewTo(tools, front) + [last] == tools + (NewTo(tools, front) + [last]);
      assert NewTo(tools, front) + [] == NewTo(tools, front);
    }
  }

  lemma NotAmong(front: seq<ToolDef>, last: ToolDef)
    requires Distinct(NamesOf(front + [last]))
    ensures last.name !in NamesOf(front)
  {
    var all := NamesOf(front + [last]);
    assert all[|front|] == last.name;
    assert forall i :: 0 <= i < |front| ==> NamesOf(front)[i] == all[i];
  }
}
