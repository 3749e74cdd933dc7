/** The tail of an abandoned branch that a branch summary is written from. */
module BranchWindow {
  import opened Prelude
  import opened Text

  const U32_MAX := 0xFFFF_FFFF

  type U32 = n: int | 0 <= n <= U32_MAX

  const SUMMARY_MARKER := "[Earlier conversation compacted to save context]"

  const BRANCH_SUMMARY_MARKER := "[Explored a different branch before returning here]"

  datatype Block = TextBlock(text: string) | OtherBlock

  /** A message, with what its content costs at the model family's rates. */
  datatype Message = Message(content: seq<Block>, tokens: U32)

  predicate NestedSummary(m: Message)
  {
    && m.content != [] && m.content[0].TextBlock?
    && (StartsWith(m.content[0].text, SUMMARY_MARKER) || StartsWith(m.content[0].text, BRANCH_SUMMARY_MARKER))
  }

  function Saturated(n: nat): U32
  {
    Min(n, U32_MAX)
  }

  /** Nine tenths of the budget, as the source computes it. */
  function NinetyPercent(budget: U32): U32
  {
    Saturated(budget * 9) / 10
  }

  /** What the messages from `i` on cost. */
  function Cost(messages: seq<Message>, i: nat): nat
    requires i <= |messages|
    decreases |messages| - i
  {
    if i == |messages| then 0 else messages[i].tokens + Cost(messages, i + 1)
  }

  predicate Fits(messages: seq<Message>, i: nat, budget: U32)
    requires i <= |messages|
  {
    Saturated(Cost(messages, i)) <= budget
  }

  /** The longest tail that fits, or the last message alone. */
  predicate Longest(messages: seq<Message>, i: nat, budget: U32)
    requires i < |messages|
  {
    && (i == |messages| - 1 || Fits(messages, i, budget))
    && (i == 0 || (!Fits(messages, i - 1, budget)))
  }

  /** A message that opens as summaries do. */
  predicate Recaps(m: Message)
  {
    && m.content != [] && m.content[0].TextBlock?
    && (|| "[Earlier conversation compacted to save context]" <= m.content[0].text
        || "[Explored a different branch before returning here]" <= m.content[0].text)
  }

  lemma SummaryRecaps(m: Message)
    ensures NestedSummary(m) <==> Recaps(m)
  {
  }

  /** A nested summary just before a tail that leaves it room. */
  predicate Stretches(messages: seq<Message>, i: nat, budget: U32)
    requires i < |messages|
  {
    i > 0 && Recaps(messages[i - 1]) && Saturated(Cost(messages, i)) < NinetyPercent(budget)
  }

  /** Where the window starts: at the longest tail, or at the summary just before it. */
  ghost predicate Window(messages: seq<Message>, start: nat, budget: U32)
  {
    if messages == [] then start == 0
    else
      exists i: nat :: i < |messages| && Longest(messages, i, budget)
                       && start == if Stretches(messages, i, budget) then i - 1 else i
  }

  method Windowed(messages: seq<Message>, budget: U32) returns (start: nat)
    ensures start <= |messages| && Window(messages, start, budget)
  {
    var acc: U32 := 0;
    start := |messages|;
    var i := |messages|;
    while i > 0
      invariant start == i <= |messages| && acc == Saturated(Cost(messages, i))
      invariant i < |messages| - 1 ==> Fits(messages, i, budget)
    {
      i := i - 1;
      var m := messages[i];
      var more: U32 := Saturated(acc + m.tokens);
      assert more == Saturated(Cost(messages, i));
      if start != |messages| && more > budget {
        assert Longest(messages, i + 1, budget);
        SummaryRecaps(m);
        if NestedSummary(m) && acc < NinetyPercent(budget) {
          start := i;
        }
        return;
      }
      acc := more;
      start := i;
    }
    assert messages != [] ==> Longest(messages, 0, budget);
  }

  // ---- What a window is ----

  lemma {:induction false} CostFalls(messages: seq<Message>, i: nat, j: nat)
    requires i <= j <= |messages|
    ensures Cost(messages, j) <= Cost(messages, i)
    decreases j - i
  {
    if i < j {
      CostFalls(messages, i + 1, j);
    }
  }

  lemma LongestIsUnique(messages: seq<Message>, i: nat, j: nat, budget: U32)
    requires i < |messages| && j < |messages| && Longest(messages, i, budget) && Longest(messages, j, budget)
    ensures i == j
  {
    if i < j {
      CostFalls(messages, i, j - 1);
    } else if j < i {
      CostFalls(messages, j, i - 1);
    }
  }

  /** There is one window for each budget. */
  lemma WindowIsUnique(messages: seq<Message>, a: nat, b: nat, budget: U32)
    requires Window(messages, a, budget) && Window(messages, b, budget)
    ensures a == b
  {
    if messages != [] {
      var i: nat :| i < |messages| && Longest(messages, i, budget)
                    && a == if Stretches(messages, i, budget) then i - 1 else i;
      var j: nat :| j < |messages| && Longest(messages, j, budget)
                    && b == if Stretches(messages, j, budget) then j - 1 else j;
      LongestIsUnique(messages, i, j, budget);
    }
  }

  /** A nested summary that overran the budget, kept because what follows it is under nine tenths. */
  predicate StoppedOnSummary(messages: seq<Message>, start: nat, budget: U32)
  {
    && start + 1 < |messages| && Recaps(messages[start])
    && Cost(messages, start) > budget && Cost(messages, start + 1) < NinetyPercent(budget)
  }

  /** Short of the largest budget, a window is a non-empty tail that is one message, or fits, or is a nested
      summary before a tail under nine tenths; and unless it stopped on such a summary, one message more would
      overrun. */
  lemma WindowShape(messages: seq<Message>, start: nat, budget: U32)
    requires messages != [] && budget < 4_294_967_295 && Window(messages, start, budget)
    ensures start < |messages|
    ensures start == |messages| - 1 || Cost(messages, start) <= budget || StoppedOnSummary(messages, start, budget)
    ensures StoppedOnSummary(messages, start, budget) || start == 0 || Cost(messages, start - 1) > budget
  {
    var i: nat :| i < |messages| && Longest(messages, i, budget)
                  && start == if Stretches(messages, i, budget) then i - 1 else i;
  }

  /** At the largest budget nothing overruns, and the whole branch is kept. */
  lemma LargestBudgetKeepsAll(messages: seq<Message>, start: nat)
    requires Window(messages, start, 4_294_967_295)
    ensures start == 0
  {
    if messages != [] {
      var i: nat :| i < |messages| && Longest(messages, i, U32_MAX)
                    && start == if Stretches(messages, i, U32_MAX) then i - 1 else i;
    }
  }

  // ---- Nine tenths ----

  /** The threshold in numbers: nine tenths rounded down, until nine budgets no longer fit in 32 bits. */
  lemma NinetyIs(budget: U32)
    ensures NinetyPercent(budget) == if budget <= 477_218_588 then budget * 9 / 10 else 429_496_729
  {
  }

  /** The source's threshold agrees with nine tenths of the budget on every tail. */
  ghost predicate ExactlyNinety(budget: U32)
  {
    forall acc: U32 :: acc < NinetyPercent(budget) <==> acc * 10 < budget * 9
  }

  /** It does so exactly for budgets that are multiples of ten and do not saturate. */
  lemma NinetyIsExactWhen(budget: U32)
    ensures ExactlyNinety(budget) <==> budget % 10 == 0 && budget * 9 <= 4_294_967_295
  {
    var nine := Saturated(budget * 9);
    var ninety := NinetyPercent(budget);
    assert nine == ninety * 10 + nine % 10;
    if budget % 10 == 0 && budget * 9 <= U32_MAX {
      MultipleOfTen(budget);
      assert ninety * 10 == budget * 9;
    } else {
      NotTenfold(budget);
      assert ninety * 10 < budget * 9;
      assert !(ninety < NinetyPercent(budget)) && ninety * 10 < budget * 9;
    }
  }

  lemma MultipleOfTen(n: nat)
    requires n % 10 == 0
    ensures (n * 9) % 10 == 0
  {
    assert n * 9 == 10 * (n / 10 * 9);
  }

  /** A multiple of nine is a multiple of ten only if its ninth is. */
  lemma NotTenfold(n: nat)
    requires n % 10 != 0 || n * 9 > U32_MAX
    ensures n * 9 <= U32_MAX ==> (n * 9) % 10 != 0
  {
    assert (n * 9) % 10 == (n % 10 * 9) % 10 by {
      assert n * 9 == 10 * (n / 10 * 9) + n % 10 * 9;
    }
  }

  /** A nested summary is dropped although the tail, at 9 of 11, is under nine tenths. */
  lemma UnderNinetyYetDropped()
    ensures var nested, plain := Message([TextBlock(SUMMARY_MARKER)], 10), Message([], 9);
            9 * 10 < 11 * 9 && Recaps(nested) && Window([nested, plain], 1, 11) && !Window([nested, plain], 0, 11)
  {
    var nested, plain := Message([TextBlock(SUMMARY_MARKER)], 10), Message([], 9);
    var messages := [nested, plain];
    assert Cost(messages, 2) == 0 && Cost(messages, 1) == 9 && Cost(messages, 0) == 19;
    assert Longest(messages, 1, 11) && !Stretches(messages, 1, 11);
    assert Window(messages, 1, 11);
    if Window(messages, 0, 11) {
      WindowIsUnique(messages, 0, 1, 11);
    }
  }
}
