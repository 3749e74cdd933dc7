/** Which deferred tools a transcript has loaded: those a successful `tool_search` result names. */
module Deferred {
  import opened Prelude
  import opened Text

  const TOOL_SEARCH := "tool_search"

  datatype ToolDef = ToolDef(name: string, definition: string)

  datatype Role = System | User | Assistant

  datatype Block =
    | ToolUse(id: string, name: string)
    | ToolResult(id: string, content: string, isError: bool)
    | OtherBlock

  datatype Message = Message(role: Role, content: seq<Block>)

  datatype Load = Load(id: string, defs: seq<ToolDef>)

  // ---- Names in a text ----

  predicate NameChar(c: char)
  {
    'a' <= c <= 'z' || 'A' <= c <= 'Z' || '0' <= c <= '9' || c == '_' || c == '-'
  }

  /** The text split at every character no name holds, empty pieces and all. */
  function Pieces(text: string): (pieces: seq<string>)
    ensures pieces != []
  {
    if text == "" then [""]
    else
      var rest := Pieces(text[1..]);
      if NameChar(text[0]) then [[text[0]] + rest[0]] + rest[1..] else [""] + rest
  }

  function NonEmpty(pieces: seq<string>): seq<string>
  {
    if pieces == [] then [] else (if pieces[0] == "" then [] else [pieces[0]]) + NonEmpty(pieces[1..])
  }

  function NameTokens(text: string): seq<string>
  {
    NonEmpty(Pieces(text))
  }

  /** `token` stands at `i` as a whole name: no name character on either side. */
  predicate WholeAt(text: string, token: string, i: int)
  {
    && token != "" && All(NameChar, token) && OccursAt(text, token, i)
    && (i > 0 ==> !NameChar(text[i - 1]))
    && (i + |token| < |text| ==> !NameChar(text[i + |token|]))
  }

  ghost predicate Names(text: string, token: string)
  {
    exists i :: WholeAt(text, token, i)
  }

  lemma {:induction false} NonEmptyHas(pieces: seq<string>, token: string)
    ensures token in NonEmpty(pieces) <==> token != "" && token in pieces
  {
    if pieces != [] {
      NonEmptyHas(pieces[1..], token);
      assert pieces == [pieces[0]] + pieces[1..];
    }
  }

  /** The first piece is the text's leading run of name characters. */
  lemma {:induction false} FirstPiece(text: string)
    ensures Pieces(text)[0] == text[..Run(NameChar, text)]
  {
    if text != "" && NameChar(text[0]) {
      FirstPiece(text[1..]);
      var n := Run(NameChar, text);
      assert text[..n] == [text[0]] + text[1..][..n - 1];
    }
  }

  lemma WholeShifts(text: string, token: string, i: int)
    requires text != "" && i > 0
    ensures WholeAt(text, token, i) <==> WholeAt(text[1..], token, i - 1) && (i == 1 ==> !NameChar(text[0]))
  {
    if i + |token| <= |text| {
      assert text[i..i + |token|] == text[1..][i - 1..i - 1 + |token|];
    }
  }

  lemma WholeAtStart(text: string, token: string)
    ensures WholeAt(text, token, 0) <==> token != "" && token == text[..Run(NameChar, text)]
  {
    if WholeAt(text, token, 0) {
      assert text[0..|token|] == text[..|token|];
      assert forall k :: 0 <= k < |token| ==> text[k] == token[k];
      RunIs(NameChar, text, |token|);
    }
    var n := Run(NameChar, text);
    assert text[0..n] == text[..n];
  }

  lemma PieceAt(text: string, token: string) returns (i: int)
    requires token != "" && token in Pieces(text)
    ensures WholeAt(text, token, i)
    decreases text
  {
    FirstPiece(text);
    WholeAtStart(text, token);
    if token == Pieces(text)[0] {
      i := 0;
    } else {
      var rest := Pieces(text[1..]);
      if NameChar(text[0]) {
        assert Pieces(text)[1..] == rest[1..];
        i := LaterPieceAt(text[1..], token);
      } else {
        i := PieceAt(text[1..], token);
      }
      i := i + 1;
      WholeShifts(text, token, i);
    }
  }

  /** A piece after the first does not start where the text does. */
  lemma LaterPieceAt(text: string, token: string) returns (i: int)
    requires token != "" && token in Pieces(text)[1..]
    ensures WholeAt(text, token, i) && i > 0
    decreases text
  {
    var rest := Pieces(text[1..]);
    if NameChar(text[0]) {
      i := LaterPieceAt(text[1..], token);
    } else {
      i := PieceAt(text[1..], token);
    }
    i := i + 1;
    WholeShifts(text, token, i);
  }

  lemma {:induction false} WholeIsPiece(text: string, token: string, i: int)
    requires WholeAt(text, token, i)
    ensures if i == 0 then token == Pieces(text)[0] else token in Pieces(text)[1..]
    decreases text
  {
    FirstPiece(text);
    WholeAtStart(text, token);
    if i > 0 {
      WholeShifts(text, token, i);
      WholeIsPiece(text[1..], token, i - 1);
    }
  }

  /** The tokens of a text are exactly the whole names that stand in it. */
  lemma TokensAreWholeNames(text: string, token: string)
    ensures token in NameTokens(text) <==> Names(text, token)
  {
    NonEmptyHas(Pieces(text), token);
    if token != "" && token in Pieces(text) {
      var i := PieceAt(text, token);
    }
    if i :| WholeAt(text, token, i) {
      WholeIsPiece(text, token, i);
    }
  }

  // ---- Loading ----

  type Index = map<string, ToolDef>

  /** The deferred tools by name; the last of a name wins. */
  function ByName(deferred: seq<ToolDef>): Index
  {
    if deferred == [] then map[]
    else
      var last := deferred[|deferred| - 1];
      ByName(deferred[..|deferred| - 1])[last.name := last]
  }

  predicate Named(index: Index)
  {
    forall n :: n in index ==> index[n].name == n
  }

  function NamesOf(defs: seq<ToolDef>): seq<string>
  {
    seq(|defs|, i requires 0 <= i < |defs| => defs[i].name)
  }

  lemma NamesSnoc(a: seq<ToolDef>, last: ToolDef)
    ensures NamesOf(a + [last]) == NamesOf(a) + [last.name]
  {
  }

  lemma NamesAppend(a: seq<ToolDef>, b: seq<ToolDef>)
    ensures NamesOf(a + b) == NamesOf(a) + NamesOf(b)
  {
  }

  lemma {:induction false} ByNameIs(deferred: seq<ToolDef>)
    ensures Named(ByName(deferred))
    ensures forall n :: n in ByName(deferred) <==> n in NamesOf(deferred)
  {
    if deferred != [] {
      var k := |deferred| - 1;
      ByNameIs(deferred[..k]);
      NamesSnoc(deferred[..k], deferred[k]);
      assert deferred == deferred[..k] + [deferred[k]];
    }
  }

  /** Of several deferred tools with one name, the index holds the last. */
  lemma {:induction false} LastOfANameWins(deferred: seq<ToolDef>, i: nat)
    requires i < |deferred| && forall j :: i < j < |deferred| ==> deferred[j].name != deferred[i].name
    ensures deferred[i].name in ByName(deferred) && ByName(deferred)[deferred[i].name] == deferred[i]
    decreases |deferred|
  {
    var k := |deferred| - 1;
    if i < k {
      LastOfANameWins(deferred[..k], i);
    }
  }

  /** A search result, as the names it holds. */
  datatype Found = Found(id: string, tokens: seq<string>)

  datatype Taking = Taking(seen: set<string>, defs: seq<ToolDef>)

  function TakeOne(index: Index, taking: Taking, token: string): Taking
    requires Named(index)
  {
    if token in index && token !in taking.seen then Taking(taking.seen + {token}, taking.defs + [index[token]])
    else taking
  }

  /** The tools a result adds to those seen, in the order it names them. */
  function Take(index: Index, seen: set<string>, tokens: seq<string>): Taking
    requires Named(index)
  {
    if tokens == [] then Taking(seen, [])
    else TakeOne(index, Take(index, seen, tokens[..|tokens| - 1]), tokens[|tokens| - 1])
  }

  datatype Loaded = Loaded(seen: set<string>, byResult: seq<Load>)

  const NOTHING := Loaded({}, [])

  function LoadOne(index: Index, st: Loaded, found: Found): Loaded
    requires Named(index)
  {
    var taking := Take(index, st.seen, found.tokens);
    Loaded(taking.seen, if taking.defs == [] then st.byResult else st.byResult + [Load(found.id, taking.defs)])
  }

  function LoadAll(index: Index, results: seq<Found>): Loaded
    requires Named(index)
  {
    if results == [] then NOTHING
    else LoadOne(index, LoadAll(index, results[..|results| - 1]), results[|results| - 1])
  }

  /** The blocks of the messages in one role, in order. */
  function Own(m: Message, role: Role): seq<Block>
  {
    if m.role == role then m.content else []
  }

  function Blocks(messages: seq<Message>, role: Role): seq<Block>
  {
    if messages == [] then []
    else Blocks(messages[..|messages| - 1], role) + Own(messages[|messages| - 1], role)
  }

  predicate Searches(b: Block)
  {
    b.ToolUse? && b.name == TOOL_SEARCH
  }

  function SearchIds(blocks: seq<Block>): set<string>
  {
    set b | b in blocks && Searches(b) :: b.id
  }

  predicate Answers(b: Block, ids: set<string>)
  {
    b.ToolResult? && !b.isError && b.id in ids
  }

  function Results(blocks: seq<Block>, ids: set<string>): seq<Found>
  {
    if blocks == [] then []
    else
      var last := blocks[|blocks| - 1];
      Results(blocks[..|blocks| - 1], ids)
      + (if Answers(last, ids) then [Found(last.id, NameTokens(last.content))] else [])
  }

  function ResultsIn(messages: seq<Message>): seq<Found>
  {
    Results(Blocks(messages, User), SearchIds(Blocks(messages, Assistant)))
  }

  function Loads(deferred: seq<ToolDef>, messages: seq<Message>): seq<Load>
  {
    ByNameIs(deferred);
    LoadAll(ByName(deferred), ResultsIn(messages)).byResult
  }

  // ---- What is loaded, and when ----

  /** `defs` are the index's tools with the names in `names`, each once. */
  ghost predicate AreExactly(index: Index, defs: seq<ToolDef>, names: set<string>)
  {
    && Distinct(NamesOf(defs))
    && (forall n :: n in NamesOf(defs) <==> n in names)
    && forall i :: 0 <= i < |defs| ==> defs[i].name in index && index[defs[i].name] == defs[i]
  }

  function Known(index: Index, tokens: seq<string>): set<string>
  {
    set n | n in tokens && n in index
  }

  lemma AddOne(index: Index, defs: seq<ToolDef>, names: set<string>, n: string)
    requires Named(index) && AreExactly(index, defs, names) && n in index && n !in names
    ensures AreExactly(index, defs + [index[n]], names + {n})
  {
    NamesSnoc(defs, index[n]);
  }

  lemma {:induction false} TakeIs(index: Index, seen: set<string>, tokens: seq<string>)
    requires Named(index)
    ensures var t := Take(index, seen, tokens);
            t.seen == seen + Known(index, tokens) && AreExactly(index, t.defs, Known(index, tokens) - seen)
  {
    if tokens != [] {
      var k := |tokens| - 1;
      var before, token := Take(index, seen, tokens[..k]), tokens[k];
      TakeIs(index, seen, tokens[..k]);
      assert tokens == tokens[..k] + [token];
      var names := Known(index, tokens[..k]) - seen;
      if token in index && token !in before.seen {
        AddOne(index, before.defs, names, token);
        assert Known(index, tokens) - seen == names + {token};
      } else {
        assert Known(index, tokens) - seen == names;
      }
    }
  }

  /** Every name some result holds. */
  function KnownIn(index: Index, results: seq<Found>): set<string>
  {
    if results == [] then {} else KnownIn(index, results[..|results| - 1]) + Known(index, results[|results| - 1].tokens)
  }

  function AllDefs(loads: seq<Load>): seq<ToolDef>
  {
    if loads == [] then [] else AllDefs(loads[..|loads| - 1]) + loads[|loads| - 1].defs
  }

  lemma AddAll(index: Index, a: seq<ToolDef>, b: seq<ToolDef>, names: set<string>, more: set<string>)
    requires AreExactly(index, a, names) && AreExactly(index, b, more - names)
    ensures AreExactly(index, a + b, names + more)
  {
    NamesAppend(a, b);
    var all, na, nb := NamesOf(a + b), NamesOf(a), NamesOf(b);
    forall i, j | 0 <= i < j < |all| ensures all[i] != all[j] {
      if i < |na| <= j {
        assert all[i] == na[i] && all[j] == nb[j - |na|];
        assert na[i] in names && nb[j - |na|] in more - names;
      }
    }
  }

  /** What a transcript's results load: exactly the deferred tools they name, each once. */
  lemma {:induction false} LoadAllIs(index: Index, results: seq<Found>)
    requires Named(index)
    ensures var st := LoadAll(index, results);
            st.seen == KnownIn(index, results) && AreExactly(index, AllDefs(st.byResult), KnownIn(index, results))
  {
    if results != [] {
      var k := |results| - 1;
      var before := LoadAll(index, results[..k]);
      var taking := Take(index, before.seen, results[k].tokens);
      LoadAllIs(index, results[..k]);
      TakeIs(index, before.seen, results[k].tokens);
      AddAll(index, AllDefs(before.byResult), taking.defs, before.seen, Known(index, results[k].tokens));
      var loads := LoadAll(index, results).byResult;
      if taking.defs == [] {
        assert AllDefs(before.byResult) + taking.defs == AllDefs(before.byResult);
      } else {
        assert loads[..|loads| - 1] == before.byResult;
      }
    }
  }

  /** A result loads exactly the deferred tools that it names and no earlier result does; naming none, it
      loads nothing. */
  lemma ResultLoads(index: Index, before: seq<Found>, found: Found) returns (defs: seq<ToolDef>)
    requires Named(index)
    ensures AreExactly(index, defs, Known(index, found.tokens) - KnownIn(index, before))
    ensures LoadAll(index, before + [found]).byResult
            == LoadAll(index, before).byResult + if defs == [] then [] else [Load(found.id, defs)]
  {
    var st := LoadAll(index, before);
    LoadAllIs(index, before);
    TakeIs(index, st.seen, found.tokens);
    assert (before + [found])[..|before|] == before;
    assert Known(index, found.tokens) - KnownIn(index, before) == Known(index, found.tokens) - st.seen;
    defs := Take(index, st.seen, found.tokens).defs;
  }

  lemma {:induction false} LoadsGrow(index: Index, results: seq<Found>, more: seq<Found>)
    requires Named(index)
    ensures LoadAll(index, results).byResult <= LoadAll(index, results + more).byResult
    decreases |more|
  {
    if more == [] {
      assert results + more == results;
    } else {
      var k := |more| - 1;
      LoadsGrow(index, results, more[..k]);
      assert (results + more)[..|results| + k] == results + more[..k];
    }
  }

  // ---- Transcripts that grow ----

  predicate Called(blocks: seq<Block>, id: string)
  {
    exists i :: 0 <= i < |blocks| && blocks[i].ToolUse? && blocks[i].id == id
  }

  /** No two calls share an id. */
  predicate UniqueCalls(blocks: seq<Block>)
  {
    forall i, j :: 0 <= i < j < |blocks| && blocks[i].ToolUse? && blocks[j].ToolUse? ==> blocks[i].id != blocks[j].id
  }

  /** Every result comes after its call. */
  predicate ResultsFollow(messages: seq<Message>)
  {
    messages == [] ||
    var front, last := messages[..|messages| - 1], messages[|messages| - 1];
    ResultsFollow(front) && (last.role == User ==> Answerable(last.content, front))
  }

  predicate Answerable(blocks: seq<Block>, earlier: seq<Message>)
  {
    forall i :: 0 <= i < |blocks| && blocks[i].ToolResult? ==> Called(Blocks(earlier, Assistant), blocks[i].id)
  }

  predicate WellFormed(messages: seq<Message>)
  {
    UniqueCalls(Blocks(messages, Assistant)) && ResultsFollow(messages)
  }

  lemma BlocksSnoc(front: seq<Message>, last: Message, role: Role)
    ensures Blocks(front + [last], role) == Blocks(front, role) + Own(last, role)
  {
    assert (front + [last])[..|front|] == front;
  }

  lemma Regroup<T>(a: seq<T>, b: seq<T>, c: seq<T>)
    ensures a + b + c == a + (b + c)
  {
  }

  lemma {:induction false} BlocksAppend(a: seq<Message>, b: seq<Message>, role: Role)
    ensures Blocks(a + b, role) == Blocks(a, role) + Blocks(b, role)
    decreases |b|
  {
    if b == [] {
      assert a + b == a;
    } else {
      var front, last := b[..|b| - 1], b[|b| - 1];
      BlocksAppend(a, front, role);
      Regroup(a, front, [last]);
      BlocksSnoc(a + front, last, role);
      BlocksSnoc(front, last, role);
      Regroup(Blocks(a, role), Blocks(front, role), Own(last, role));
      assert b == front + [last];
    }
  }

  lemma {:induction false} ResultsAppend(a: seq<Block>, b: seq<Block>, ids: set<string>)
    ensures Results(a + b, ids) == Results(a, ids) + Results(b, ids)
    decreases |b|
  {
    if b == [] {
      assert a + b == a;
    } else {
      var k := |b| - 1;
      assert (a + b)[..|a| + k] == a + b[..k];
      ResultsAppend(a, b[..k], ids);
    }
  }

  /** The results that count depend only on which of their own ids were searched for. */
  lemma {:induction false} ResultsAgree(blocks: seq<Block>, a: set<string>, b: set<string>)
    requires forall i :: 0 <= i < |blocks| && blocks[i].ToolResult? ==> (blocks[i].id in a <==> blocks[i].id in b)
    ensures Results(blocks, a) == Results(blocks, b)
  {
    if blocks != [] {
      ResultsAgree(blocks[..|blocks| - 1], a, b);
    }
  }

  lemma {:induction false} FollowFromTheStart(messages: seq<Message>, more: seq<Message>)
    requires ResultsFollow(messages + more)
    ensures ResultsFollow(messages)
    decreases |more|
  {
    if more == [] {
      assert messages + more == messages;
    } else {
      var k := |more| - 1;
      assert (messages + more)[..|messages| + k] == messages + more[..k];
      FollowFromTheStart(messages, more[..k]);
    }
  }

  lemma AnswerableWith(blocks: seq<Block>, content: seq<Block>, front: seq<Message>, last: Message)
    requires Answerable(blocks, front) && Answerable(content, front)
    ensures Answerable(blocks + content, front + [last])
  {
    CallsStay(front, last);
  }

  lemma {:induction false} ResultsWereCalled(messages: seq<Message>)
    requires ResultsFollow(messages)
    ensures Answerable(Blocks(messages, User), messages)
  {
    if messages != [] {
      var front, last := messages[..|messages| - 1], messages[|messages| - 1];
      ResultsWereCalled(front);
      AnswerableWith(Blocks(front, User), if last.role == User then last.content else [], front, last);
      assert messages == front + [last];
    }
  }

  lemma CallsStay(front: seq<Message>, last: Message)
    ensures forall id :: Called(Blocks(front, Assistant), id) ==> Called(Blocks(front + [last], Assistant), id)
  {
    assert (front + [last])[..|front|] == front;
    var a, b := Blocks(front, Assistant), Blocks(front + [last], Assistant);
    assert a <= b;
    forall id | Called(a, id) ensures Called(b, id) {
      var i :| 0 <= i < |a| && a[i].ToolUse? && a[i].id == id;
      assert b[i] == a[i];
    }
  }

  /** An id called before is not searched for anew. */
  lemma SearchedAlready(before: seq<Block>, after: seq<Block>, id: string)
    requires UniqueCalls(before + after) && Called(before, id)
    ensures id in SearchIds(before + after) <==> id in SearchIds(before)
  {
    var all := before + after;
    var i :| 0 <= i < |before| && before[i].ToolUse? && before[i].id == id;
    assert all[i] == before[i];
    if id in SearchIds(all) {
      var b :| b in all && Searches(b) && b.id == id;
      var j :| 0 <= j < |all| && all[j] == b;
      assert j == i;
      assert before[i] in before;
    }
    if id in SearchIds(before) {
      var b :| b in before && Searches(b) && b.id == id;
      assert b in all;
    }
  }

  /** The results a transcript holds stay the first results of every transcript that extends it. */
  lemma ResultsStay(messages: seq<Message>, more: seq<Message>)
    requires WellFormed(messages + more)
    ensures ResultsIn(messages) <= ResultsIn(messages + more)
  {
    var all := messages + more;
    BlocksAppend(messages, more, Assistant);
    BlocksAppend(messages, more, User);
    var calls, later := Blocks(messages, Assistant), Blocks(more, Assistant);
    var blocks := Blocks(messages, User);
    FollowFromTheStart(messages, more);
    ResultsWereCalled(messages);
    var ids := SearchIds(Blocks(all, Assistant));
    forall i | 0 <= i < |blocks| && blocks[i].ToolResult?
      ensures blocks[i].id in ids <==> blocks[i].id in SearchIds(calls)
    {
      SearchedAlready(calls, later, blocks[i].id);
    }
    ResultsAgree(blocks, ids, SearchIds(calls));
    ResultsAppend(blocks, Blocks(more, User), ids);
  }

  /** Extending a transcript only extends its loads. */
  lemma LoadsStay(deferred: seq<ToolDef>, messages: seq<Message>, more: seq<Message>)
    requires WellFormed(messages + more)
    ensures Loads(deferred, messages) <= Loads(deferred, messages + more)
  {
    ByNameIs(deferred);
    ResultsStay(messages, more);
    var results, all := ResultsIn(messages), ResultsIn(messages + more);
    assert all == results + all[|results|..];
    LoadsGrow(ByName(deferred), results, all[|results|..]);
  }

  // ---- Loaded exactly when named ----

  ghost predicate NamedIn(blocks: seq<Block>, ids: set<string>, name: string)
  {
    exists i :: 0 <= i < |blocks| && Answers(blocks[i], ids) && Names(blocks[i].content, name)
  }

  lemma NamedInSnoc(blocks: seq<Block>, last: Block, ids: set<string>, name: string)
    ensures NamedIn(blocks + [last], ids, name)
            <==> NamedIn(blocks, ids, name) || (Answers(last, ids) && Names(last.content, name))
  {
    var all := blocks + [last];
    assert all[|blocks|] == last;
    if i :| 0 <= i < |blocks| && Answers(blocks[i], ids) && Names(blocks[i].content, name) {
      assert all[i] == blocks[i];
    }
    if i :| 0 <= i < |all| && Answers(all[i], ids) && Names(all[i].content, name) && i < |blocks| {
      assert blocks[i] == all[i];
    }
  }

  lemma KnownInSnoc(index: Index, blocks: seq<Block>, last: Block, ids: set<string>)
    ensures KnownIn(index, Results(blocks + [last], ids))
            == KnownIn(index, Results(blocks, ids))
               + if Answers(last, ids) then Known(index, NameTokens(last.content)) else {}
  {
    assert (blocks + [last])[..|blocks|] == blocks;
    var front := Results(blocks, ids);
    if Answers(last, ids) {
      var found := Found(last.id, NameTokens(last.content));
      assert (front + [found])[..|front|] == front;
    } else {
      assert front + [] == front;
    }
  }

  lemma {:induction false} KnownInResults(index: Index, blocks: seq<Block>, ids: set<string>, name: string)
    ensures name in KnownIn(index, Results(blocks, ids)) <==> name in index && NamedIn(blocks, ids, name)
  {
    if blocks != [] {
      var front, last := blocks[..|blocks| - 1], blocks[|blocks| - 1];
      assert blocks == front + [last];
      KnownInResults(index, front, ids, name);
      NamedInSnoc(front, last, ids, name);
      KnownInSnoc(index, front, last, ids);
      if Answers(last, ids) {
        TokensAreWholeNames(last.content, name);
      }
    }
  }

  /** A tool is loaded if and only if it is deferred and some successful search result names it whole; no tool
      is loaded twice. */
  lemma LoadedExactlyWhenNamed(deferred: seq<ToolDef>, messages: seq<Message>, name: string)
    ensures var loaded := NamesOf(AllDefs(Loads(deferred, messages)));
            && Distinct(loaded)
            && (name in loaded <==> name in NamesOf(deferred)
                                    && NamedIn(Blocks(messages, User), SearchIds(Blocks(messages, Assistant)), name))
  {
    ByNameIs(deferred);
    LoadAllIs(ByName(deferred), ResultsIn(messages));
    KnownInResults(ByName(deferred), Blocks(messages, User), SearchIds(Blocks(messages, Assistant)), name);
  }

  // ---- The tool list sent ----

  function AddTool(tools: seq<ToolDef>, def: ToolDef): seq<ToolDef>
  {
    if def.name in NamesOf(tools) then tools else tools + [def]
  }

  function AddTools(tools: seq<ToolDef>, defs: seq<ToolDef>): seq<ToolDef>
  {
    if defs == [] then tools else AddTool(AddTools(tools, defs[..|defs| - 1]), defs[|defs| - 1])
  }

  function WithLoaded(tools: seq<ToolDef>, loads: seq<Load>): seq<ToolDef>
  {
    AddTools(tools, AllDefs(loads))
  }

  lemma {:induction false} AddToolsIs(tools: seq<ToolDef>, defs: seq<ToolDef>)
    ensures var all := AddTools(tools, defs);
            && tools <= all
            && (forall i, j :: 0 <= i < j < |all| && |tools| <= j ==> all[i].name != all[j].name)
            && (forall n :: n in NamesOf(all) <==> n in NamesOf(tools) || n in NamesOf(defs))
  {
    if defs != [] {
      var k := |defs| - 1;
      var before := AddTools(tools, defs[..k]);
      AddToolsIs(tools, defs[..k]);
      NamesSnoc(defs[..k], defs[k]);
      assert defs == defs[..k] + [defs[k]];
      if defs[k].name !in NamesOf(before) {
        NamesSnoc(before, defs[k]);
        forall i | 0 <= i < |before| ensures before[i].name != defs[k].name {
          assert NamesOf(before)[i] == before[i].name;
        }
      }
    }
  }

  lemma {:induction false} AddToolsGrows(tools: seq<ToolDef>, defs: seq<ToolDef>, more: seq<ToolDef>)
    ensures AddTools(tools, defs) <= AddTools(tools, defs + more)
    decreases |more|
  {
    if more == [] {
      assert defs + more == defs;
    } else {
      var k := |more| - 1;
      AddToolsGrows(tools, defs, more[..k]);
      assert (defs + more)[..|defs| + k] == defs + more[..k];
    }
  }

  lemma {:induction false} AllDefsGrow(loads: seq<Load>, more: seq<Load>)
    ensures AllDefs(loads) <= AllDefs(loads + more)
    decreases |more|
  {
    if more == [] {
      assert loads + more == loads;
    } else {
      var k := |more| - 1;
      AllDefsGrow(loads, more[..k]);
      assert (loads + more)[..|loads| + k] == loads + more[..k];
    }
  }

  lemma WithLoadedGrows(tools: seq<ToolDef>, loads: seq<Load>, all: seq<Load>)
    requires loads <= all
    ensures WithLoaded(tools, loads) <= WithLoaded(tools, all)
  {
    AllDefsGrow(loads, all[|loads|..]);
    assert all == loads + all[|loads|..];
    var few, defs := AllDefs(loads), AllDefs(all);
    AddToolsGrows(tools, few, defs[|few|..]);
    assert defs == few + defs[|few|..];
  }

  /** Extending a transcript only extends the tool list: the request's own tools first, then the loaded ones in
      the order loaded, none under a name already there. */
  lemma ToolListStays(tools: seq<ToolDef>, deferred: seq<ToolDef>, messages: seq<Message>, more: seq<Message>)
    requires WellFormed(messages + more)
    ensures WithLoaded(tools, Loads(deferred, messages)) <= WithLoaded(tools, Loads(deferred, messages + more))
    ensures var all := WithLoaded(tools, Loads(deferred, messages + more));
            tools <= all && forall i, j :: 0 <= i < j < |all| && |tools| <= j ==> all[i].name != all[j].name
  {
    LoadsStay(deferred, messages, more);
    WithLoadedGrows(tools, Loads(deferred, messages), Loads(deferred, messages + more));
    AddToolsIs(tools, AllDefs(Loads(deferred, messages + more)));
  }

  // ---- The source's loops ----

  lemma SearchIdsAppend(a: seq<Block>, b: seq<Block>)
    ensures SearchIds(a + b) == SearchIds(a) + SearchIds(b)
  {
  }

  method AddSearchIds(content: seq<Block>, start: set<string>) returns (ids: set<string>)
    ensures ids == start + SearchIds(content)
  {
    ids := start;
    for j := 0 to |content|
      invariant ids == start + SearchIds(content[..j])
    {
      assert content[..j + 1] == content[..j] + [content[j]];
      SearchIdsAppend(content[..j], [content[j]]);
      if content[j].ToolUse? && content[j].name == TOOL_SEARCH {
        ids := ids + {content[j].id};
      }
    }
    assert content[..|content|] == content;
  }

  method CollectSearchIds(messages: seq<Message>) returns (ids: set<string>)
    ensures ids == SearchIds(Blocks(messages, Assistant))
  {
    ids := {};
    for i := 0 to |messages|
      invariant ids == SearchIds(Blocks(messages[..i], Assistant))
    {
      BlocksSnoc(messages[..i], messages[i], Assistant);
      SearchIdsAppend(Blocks(messages[..i], Assistant), Own(messages[i], Assistant));
      assert messages[..i + 1] == messages[..i] + [messages[i]];
      if messages[i].role == Assistant {
        ids := AddSearchIds(messages[i].content, ids);
      }
    }
    assert messages[..|messages|] == messages;
  }

  method TakeNew(index: Index, start: set<string>, tokens: seq<string>) returns (defs: seq<ToolDef>, seen: set<string>)
    requires Named(index)
    ensures Taking(seen, defs) == Take(index, start, tokens)
  {
    defs, seen := [], start;
    for i := 0 to |tokens|
      invariant Taking(seen, defs) == Take(index, start, tokens[..i])
    {
      assert tokens[..i + 1][..i] == tokens[..i];
      if tokens[i] in index && index[tokens[i]].name !in seen {
        seen := seen + {index[tokens[i]].name};
        defs := defs + [index[tokens[i]]];
      }
    }
    assert tokens[..|tokens|] == tokens;
  }

  lemma LoadStep(index: Index, blocks: seq<Block>, b: Block, ids: set<string>)
    requires Named(index)
    ensures var before, after := LoadAll(index, Results(blocks, ids)), LoadAll(index, Results(blocks + [b], ids));
            after == if Answers(b, ids) then LoadOne(index, before, Found(b.id, NameTokens(b.content))) else before
  {
    assert (blocks + [b])[..|blocks|] == blocks;
    var front := Results(blocks, ids);
    if Answers(b, ids) {
      assert (front + [Found(b.id, NameTokens(b.content))])[..|front|] == front;
    } else {
      assert front + [] == front;
    }
  }

  method LoadBlocks(index: Index, ids: set<string>, content: seq<Block>, st: Loaded, ghost before: seq<Block>)
    returns (next: Loaded)
    requires Named(index) && st == LoadAll(index, Results(before, ids))
    ensures next == LoadAll(index, Results(before + content, ids))
  {
    next := st;
    assert before + content[..0] == before;
    for j := 0 to |content|
      invariant next == LoadAll(index, Results(before + content[..j], ids))
    {
      var b := content[j];
      assert before + content[..j + 1] == (before + content[..j]) + [b];
      LoadStep(index, before + content[..j], b, ids);
      if !b.ToolResult? || b.isError || b.id !in ids {
        continue;
      }
      var defs, seen := TakeNew(index, next.seen, NameTokens(b.content));
      next := Loaded(seen, if defs == [] then next.byResult else next.byResult + [Load(b.id, defs)]);
    }
    assert content[..|content|] == content;
  }

  lemma {:induction false} NoResults(blocks: seq<Block>)
    ensures Results(blocks, {}) == []
  {
    if blocks != [] {
      NoResults(blocks[..|blocks| - 1]);
    }
  }

  lemma {:induction false} TakeFromNothing(tokens: seq<string>)
    ensures Take(map[], {}, tokens) == Taking({}, [])
  {
    if tokens != [] {
      TakeFromNothing(tokens[..|tokens| - 1]);
    }
  }

  lemma {:induction false} NothingDeferred(results: seq<Found>)
    ensures LoadAll(map[], results) == NOTHING
  {
    if results != [] {
      NothingDeferred(results[..|results| - 1]);
      TakeFromNothing(results[|results| - 1].tokens);
    }
  }

  method LoadMessages(index: Index, ids: set<string>, messages: seq<Message>) returns (st: Loaded)
    requires Named(index)
    ensures st == LoadAll(index, Results(Blocks(messages, User), ids))
  {
    st := NOTHING;
    for i := 0 to |messages|
      invariant st == LoadAll(index, Results(Blocks(messages[..i], User), ids))
    {
      assert messages[..i + 1][..i] == messages[..i];
      if messages[i].role == User {
        st := LoadBlocks(index, ids, messages[i].content, st, Blocks(messages[..i], User));
      } else {
        assert Blocks(messages[..i], User) + [] == Blocks(messages[..i], User);
      }
    }
    assert messages[..|messages|] == messages;
  }

  method LoadsInLoops(deferred: seq<ToolDef>, messages: seq<Message>) returns (byResult: seq<Load>)
    ensures byResult == Loads(deferred, messages)
  {
    if deferred == [] {
      NothingDeferred(ResultsIn(messages));
      return [];
    }
    var ids := CollectSearchIds(messages);
    if ids == {} {
      NoResults(Blocks(messages, User));
      return [];
    }
    ByNameIs(deferred);
    var st := LoadMessages(ByName(deferred), ids, messages);
    byResult := st.byResult;
  }

  method WithLoadedInLoop(tools: seq<ToolDef>, loads: seq<Load>) returns (all: seq<ToolDef>)
    ensures all == WithLoaded(tools, loads)
  {
    all := tools;
    if loads == [] {
      return;
    }
    var defs := AllDefs(loads);
    for i := 0 to |defs|
      invariant all == AddTools(tools, defs[..i])
    {
      assert defs[..i + 1][..i] == defs[..i];
      if defs[i].name !in NamesOf(all) {
        all := all + [defs[i]];
      }
    }
    assert defs[..|defs|] == defs;
  }
}
