/** A whole row's price, by each of the three ways there are, in what the row says and the table lists. */
module PriceRows {
  import opened Prelude
  import opened Pricing
  import opened PricingProofs
  import opened PriceFormula

  // ---- What refuses a row before it is priced ----

  predicate TierIn(row: Row, names: seq<string>)
  {
    row.serviceTier.Some? && row.serviceTier.value in names
  }

  /** The class a row was served in, by its tier and speed. */
  function ClassOf(row: Row): Option<Class>
  {
    var plain := row.speed.None? || row.speed.value == "standard";
    var fast := row.speed.Some? && row.speed.value == "fast";
    var standard := row.serviceTier.None? || TierIn(row, ["default", "standard", "on_demand", "auto", "asap"]);
    var priority := TierIn(row, ["priority", "fast"]);
    if standard && plain then Some(Standard)
    else if (standard && fast) || (priority && (plain || fast)) then Some(Fast)
    else if TierIn(row, ["ultrafast"]) && plain then Some(Ultrafast)
    else if TierIn(row, ["flex"]) && plain then Some(Flex)
    else None
  }

  predicate InUs(row: Row)
  {
    row.geo.Some? && row.geo.value == "us"
  }

  predicate PlaceKnown(row: Row)
  {
    row.geo.None? || row.geo.value in ["global", "not_available", "us"]
  }

  predicate ModelKnown(tb: Table, row: Row)
  {
    row.priceModel.Some? && row.priceModel.value in tb.pricing
  }

  predicate IsCandidate(tb: Table, row: Row)
  {
    ModelKnown(tb, row) && row.provider.Some? && row.provider.value in tb.pricing[row.priceModel.value].cost
  }

  predicate From(row: Row, providers: seq<string>)
  {
    row.provider.Some? && row.provider.value in providers
  }

  predicate VariantServed(row: Row)
  {
    || row.variant.None?
    || (row.variant.value == "regional" && From(row, ["bedrock", "openrouter"]))
    || (row.variant.value == "global" && From(row, ["openrouter"]))
  }

  /** The reason of the first check from `i` on that holds. */
  function FirstOf(checks: seq<(bool, Unpriced)>, i: nat): Option<Unpriced>
    requires i <= |checks|
    decreases |checks| - i
  {
    if i == |checks| then None else if checks[i].0 then Some(checks[i].1) else FirstOf(checks, i + 1)
  }

  /** Every check made before a way to price is chosen, in order. */
  function Checks(tb: Table, row: Row): seq<(bool, Unpriced)>
  {
    [(row.priceModel.None?, NoPriceModel),
     (!ModelKnown(tb, row), UnknownModel),
     (row.provider.None? || row.provider.value !in tb.providers, UnknownProvider),
     (!IsCandidate(tb, row), NotACandidate),
     (!VariantServed(row), UnknownVariant),
     (!CountsAgree(row.usage), InconsistentTokens),
     (ClassOf(row).None?, UnknownClass),
     (From(row, ["anthropic", "bedrock"]) && row.serviceTier.Some? && row.serviceTier.value != "standard", UnknownClass),
     (!PlaceKnown(row), UnknownGeo)]
  }

  lemma ClassIs(row: Row)
    ensures ServedClass(row) == match ClassOf(row) case Some(c) => Ok(c) case None => Err(UnknownClass)
    ensures ClassOf(row) != Some(OffPeak)
  {
  }

  lemma PlaceIs(row: Row)
    ensures Geo(row) == if PlaceKnown(row) then Ok(InUs(row)) else Err(UnknownGeo)
  {
  }

  lemma VariantIs(row: Row)
    ensures VariantAllowed(row) <==> VariantServed(row)
  {
  }

  lemma FirstOfNine(checks: seq<(bool, Unpriced)>)
    requires |checks| == 9
    ensures FirstOf(checks, 0) ==
            if checks[0].0 then Some(checks[0].1) else if checks[1].0 then Some(checks[1].1)
            else if checks[2].0 then Some(checks[2].1) else if checks[3].0 then Some(checks[3].1)
            else if checks[4].0 then Some(checks[4].1) else if checks[5].0 then Some(checks[5].1)
            else if checks[6].0 then Some(checks[6].1) else if checks[7].0 then Some(checks[7].1)
            else if checks[8].0 then Some(checks[8].1) else None
  {
    var last := FirstOf(checks, 8);
    assert last == if checks[8].0 then Some(checks[8].1) else FirstOf(checks, 9);
    var late := FirstOf(checks, 5);
    assert FirstOf(checks, 6) == if checks[6].0 then Some(checks[6].1) else FirstOf(checks, 7);
    assert FirstOf(checks, 3) == if checks[3].0 then Some(checks[3].1) else FirstOf(checks, 4);
    assert FirstOf(checks, 1) == if checks[1].0 then Some(checks[1].1) else FirstOf(checks, 2);
  }

  /** A row that no check refuses is priced in the way its candidate names, from its own counts. */
  lemma CostChecks(tb: Table, row: Row, calendar: Res<bool>)
    requires Complete(tb) && row.uses.Ok?
    ensures match FirstOf(Checks(tb, row), 0)
            case Some(e) => Cost(tb, row, calendar) == Err(e)
            case None =>
              && IsCandidate(tb, row) && CountsAgree(row.usage) && ClassOf(row).Some? && PlaceKnown(row)
              && var p := tb.pricing[row.priceModel.value];
                 Cost(tb, row, calendar)
                 == CostBy(tb, p.cost[row.provider.value], p.customer, row, row.uses.value, TokensOf(row.usage),
                           ClassOf(row).value, InUs(row), calendar)
  {
    FirstOfNine(Checks(tb, row));
    NormalizedIs(row.usage);
    ClassIs(row);
    PlaceIs(row);
    VariantIs(row);
  }

  // ---- The dearest endpoint ----

  predicate Serves(e: Endpoint, cls: Class, host: Option<string>)
  {
    e.cls == cls && (host.None? || e.host == host.value)
  }

  predicate OverEndpoint(e: Endpoint, u: Usage)
  {
    e.long.Some? &&
    var prompt := Uncached(u) + u.cacheRead + u.cacheWrite;
    prompt > e.long.value.1.threshold || (prompt == e.long.value.1.threshold && e.long.value.1.inclusive)
  }

  /** What one endpoint asks: its long rates for a prompt over its threshold, web searches the only tool, the fee on
      everything. */
  function EndpointFormula(e: Endpoint, u: Usage, uses: seq<ToolUse>, fee: real): Res<Side>
  {
    var r := if OverEndpoint(e, u) then e.long.value.0 else e.standard;
    if u.cacheWrite1h > 0 && r.cacheWrite1h.None? then Err(NoRate)
    else
      match ChargeFormula(u, r, fee, uses, if e.webSearch.Some? then map["web_search" := e.webSearch.value] else map[],
                          fee)
      case Err(error) => Err(error)
      case Ok(usd) => Ok(Side(usd, Standard, OverEndpoint(e, u)))
  }

  lemma QuoteIs(e: Endpoint, u: Usage, uses: seq<ToolUse>, cls: Class, host: Option<string>, fee: real)
    requires CountsAgree(u)
    ensures Quote(e, Query(cls, host, TokensOf(u), uses, fee)) == EndpointFormula(e, u, uses, fee)
  {
    var card := EndpointCard(e);
    SideIs(card, u, uses, Standard, false, fee, Ok(false));
    assert OverThreshold(card, u) <==> OverEndpoint(e, u);
    assert ListedRates(card, u, Standard, false) == Some(if OverEndpoint(e, u) then e.long.value.0 else e.standard);
  }

  predicate Refuses(answer: Option<Res<Side>>)
  {
    answer.Some? && answer.value.Err?
  }

  predicate Under(answer: Option<Res<Side>>, usd: real)
  {
    answer.Some? && answer.value.Ok? ==> answer.value.value.usd < usd
  }

  predicate NotOver(answer: Option<Res<Side>>, usd: real)
  {
    answer.Some? && answer.value.Ok? ==> answer.value.value.usd <= usd
  }

  predicate NoneRefuses(answers: seq<Option<Res<Side>>>, n: nat)
    requires n <= |answers|
  {
    forall j :: 0 <= j < n ==> !Refuses(answers[j])
  }

  /** Answer `k` is the first of the greatest among the first `n`. */
  predicate IsLeader(answers: seq<Option<Res<Side>>>, n: nat, k: nat)
    requires n <= |answers|
  {
    && k < n && answers[k].Some? && answers[k].value.Ok?
    && (forall j :: 0 <= j < k ==> Under(answers[j], answers[k].value.value.usd))
    && (forall j :: k < j < n ==> NotOver(answers[j], answers[k].value.value.usd))
  }

  predicate NoneAnswers(answers: seq<Option<Res<Side>>>, n: nat)
    requires n <= |answers|
  {
    forall j :: 0 <= j < n ==> answers[j].None?
  }

  /** `r` is what the answers come to: the first refusal; or, there being no answer, an unknown host; or the first
      of the greatest. */
  ghost predicate IsDearest(answers: seq<Option<Res<Side>>>, r: Res<Side>)
  {
    || (exists k: nat :: k < |answers| && Refuses(answers[k]) && NoneRefuses(answers, k)
                         && r == Err(answers[k].value.error))
    || (NoneAnswers(answers, |answers|) && r == Err(UnknownHost))
    || (NoneRefuses(answers, |answers|)
        && exists k: nat :: IsLeader(answers, |answers|, k) && r == answers[k].value)
  }

  /** Who leads the first `n`, if any answers. */
  predicate Led(answers: seq<Option<Res<Side>>>, n: nat, lead: Option<nat>)
    requires n <= |answers|
  {
    NoneRefuses(answers, n) && if lead.None? then NoneAnswers(answers, n) else IsLeader(answers, n, lead.value)
  }

  function SideAt(answers: seq<Option<Res<Side>>>, n: nat, lead: Option<nat>): Option<Side>
    requires n <= |answers| && Led(answers, n, lead)
  {
    if lead.None? then None else Some(answers[lead.value].value.value)
  }

  lemma NoneMore(answers: seq<Option<Res<Side>>>, n: nat, lead: Option<nat>)
    requires n < |answers| && Led(answers, n, lead) && answers[n].None?
    ensures Led(answers, n + 1, lead)
  {
  }

  lemma LedBy(answers: seq<Option<Res<Side>>>, n: nat, lead: Option<nat>) returns (next: Option<nat>)
    requires n < |answers| && Led(answers, n, lead) && answers[n].Some? && answers[n].value.Ok?
    ensures Led(answers, n + 1, next)
    ensures var s, best := answers[n].value.value, SideAt(answers, n, lead);
            SideAt(answers, n + 1, next) == if best.None? || s.usd > best.value.usd then Some(s) else best
  {
    if lead.None? || answers[n].value.value.usd > answers[lead.value].value.value.usd {
      next := Some(n);
    } else {
      next := lead;
    }
  }

  lemma {:induction false} BestIsDearest(answers: seq<Option<Res<Side>>>, n: nat, lead: Option<nat>)
    requires n <= |answers| && Led(answers, n, lead)
    ensures IsDearest(answers, BestFrom(answers, n, SideAt(answers, n, lead)))
    decreases |answers| - n
  {
    if n == |answers| {
      if lead.Some? {
        assert IsLeader(answers, |answers|, lead.value);
      }
    } else if answers[n].None? {
      NoneMore(answers, n, lead);
      BestIsDearest(answers, n + 1, lead);
    } else if answers[n].value.Ok? {
      var next := LedBy(answers, n, lead);
      BestIsDearest(answers, n + 1, next);
    } else {
      assert Refuses(answers[n]) && NoneRefuses(answers, n);
    }
  }

  function Answers(es: seq<Endpoint>, u: Usage, uses: seq<ToolUse>, cls: Class, host: Option<string>, fee: real)
    : seq<Option<Res<Side>>>
  {
    seq(|es|, i requires 0 <= i < |es| =>
      if Serves(es[i], cls, host) then Some(EndpointFormula(es[i], u, uses, fee)) else None)
  }

  lemma DearestIs(es: seq<Endpoint>, u: Usage, uses: seq<ToolUse>, cls: Class, host: Option<string>, fee: real)
    requires CountsAgree(u)
    ensures IsDearest(Answers(es, u, uses, cls, host, fee), Dearest(es, Query(cls, host, TokensOf(u), uses, fee)))
  {
    var q, answers := Query(cls, host, TokensOf(u), uses, fee), Answers(es, u, uses, cls, host, fee);
    forall i | 0 <= i < |es| ensures Quotes(es, q)[i] == answers[i] {
      QuoteIs(es[i], u, uses, cls, host, fee);
    }
    assert Quotes(es, q) == answers;
    BestIsDearest(answers, 0, None);
  }

  // ---- The three ways ----

  /** How often a tool was called, over all that is said of it. */
  function Calls(uses: seq<ToolUse>, kind: string): nat
  {
    if uses == [] then 0
    else
      var last := uses[|uses| - 1];
      Calls(uses[..|uses| - 1], kind) + (if last.kind == kind then last.count else 0)
  }

  lemma {:induction false} CallsFromFront(first: ToolUse, rest: seq<ToolUse>, kind: string)
    ensures Calls([first] + rest, kind) == (if first.kind == kind then first.count else 0) + Calls(rest, kind)
    decreases |rest|
  {
    var all := [first] + rest;
    if rest == [] {
      assert all[..0] == [] && all[|all| - 1] == first;
    } else {
      var front := rest[..|rest| - 1];
      assert all[..|all| - 1] == [first] + front;
      CallsFromFront(first, front, kind);
    }
  }

  lemma {:induction false} CallsAre(uses: seq<ToolUse>, kind: string)
    ensures CountOf(uses, kind) == Calls(uses, kind)
  {
    if uses != [] {
      CallsAre(uses[1..], kind);
      CallsFromFront(uses[0], uses[1..], kind);
      assert uses == [uses[0]] + uses[1..];
    }
  }

  /** Dollars reported upstream count as they are, with the credit fee on them for the aggregator. */
  function Whole(tb: Table, row: Row, usd: real): real
  {
    if From(row, ["openrouter"]) then usd * tb.creditFee else usd
  }

  function ReportedFormula(tb: Table, row: Row, cls: Class): Res<Side>
    requires row.upstreamCost.Some?
  {
    match row.upstreamCost.value
    case Unreadable => Err(BadReportedCost)
    case Readable(usd) =>
      if Small(Whole(tb, row, usd)) then Ok(Side(Whole(tb, row, usd), cls, false)) else Err(Overflow)
  }

  /** The cost of a row that no check refuses, by the way its candidate names. */
  ghost predicate IsCost(tb: Table, row: Row, calendar: Res<bool>, r: Res<Side>)
    requires Complete(tb) && row.uses.Ok? && IsCandidate(tb, row) && ClassOf(row).Some?
  {
    var p := tb.pricing[row.priceModel.value];
    var way, u, uses, cls := p.cost[row.provider.value], row.usage, row.uses.value, ClassOf(row).value;
    if way.UnverifiedCost? then r == Err(Unverified)
    else if row.upstreamCost.Some? then r == ReportedFormula(tb, row, cls)
    else
      match way
      case Aggregator(name) =>
        if Calls(uses, "tool_calls") > Calls(uses, "web_search") then r == Err(NoToolFee)
        else if InUs(row) then r == Err(UnknownGeo)
        else exists best :: IsDearest(Answers(tb.openrouter[name], u, uses, cls, row.servedBy, tb.creditFee), best)
                            && r == (match best case Err(e) => Err(e) case Ok(s) => Ok(Side(s.usd, cls, s.long)))
      case ListCard => r == SideFormula(tb.cards[p.customer], u, uses, cls, InUs(row), 1.0, calendar)
      case OwnCard(name) => r == SideFormula(tb.cards[name], u, uses, cls, InUs(row), 1.0, calendar)
  }

  lemma WholeIs(tb: Table, row: Row, usd: real)
    ensures WithCreditFee(tb, row, usd) == Whole(tb, row, usd)
  {
  }

  lemma ReportedIs(tb: Table, row: Row, cost: CostName, customer: string, uses: seq<ToolUse>, t: Tokens, cls: Class,
                   us: bool, calendar: Res<bool>)
    requires t.gw <= t.uncached && row.upstreamCost.Some? && !cost.UnverifiedCost?
    requires cost.Aggregator? ==> cost.name in tb.openrouter
    requires cost.ListCard? ==> customer in tb.cards
    requires cost.OwnCard? ==> cost.name in tb.cards
    ensures CostBy(tb, cost, customer, row, uses, t, cls, us, calendar) == ReportedFormula(tb, row, cls)
  {
    if row.upstreamCost.value.Readable? {
      WholeIs(tb, row, row.upstreamCost.value.usd);
      SmallIsFits(Whole(tb, row, row.upstreamCost.value.usd));
    }
  }

  lemma CostIs(tb: Table, row: Row, calendar: Res<bool>)
    requires Complete(tb) && row.uses.Ok?
    ensures match FirstOf(Checks(tb, row), 0)
            case Some(e) => Cost(tb, row, calendar) == Err(e)
            case None =>
              IsCandidate(tb, row) && ClassOf(row).Some? && IsCost(tb, row, calendar, Cost(tb, row, calendar))
  {
    CostChecks(tb, row, calendar);
    if FirstOf(Checks(tb, row), 0).None? {
      ClassIs(row);
      var p := tb.pricing[row.priceModel.value];
      var way, u, uses, cls := p.cost[row.provider.value], row.usage, row.uses.value, ClassOf(row).value;
      if !way.UnverifiedCost? {
        if row.upstreamCost.Some? {
          ReportedIs(tb, row, way, p.customer, uses, TokensOf(u), cls, InUs(row), calendar);
        } else {
          match way
          case Aggregator(name) =>
            CallsAre(uses, "tool_calls");
            CallsAre(uses, "web_search");
            DearestIs(tb.openrouter[name], u, uses, cls, row.servedBy, tb.creditFee);
          case ListCard => SideIs(tb.cards[p.customer], u, uses, cls, InUs(row), 1.0, calendar);
          case OwnCard(name) => SideIs(tb.cards[name], u, uses, cls, InUs(row), 1.0, calendar);
        }
      }
    }
  }

  /** Half-up to whole micro-dollars: the whole number nearest a millionth, the upper of two. */
  predicate IsNearest(usd: real, micros: int)
  {
    micros as real - 0.5 <= usd * 1_000_000.0 < micros as real + 0.5
  }

  /** A row's price: its tool list's refusal; nothing, for a cache hit; the first check that fails; or its cost,
      rounded half-up to a whole micro-dollar. */
  lemma PriceIs(tb: Table, row: Row, calendar: Res<bool>)
    requires Complete(tb)
    ensures var price := Price(tb, row, calendar);
            if row.uses.Err? then price == Err(row.uses.error)
            else if row.cacheHit then price == Ok(Priced(0, Standard, false))
            else
              match FirstOf(Checks(tb, row), 0)
              case Some(e) => price == Err(e)
              case None =>
                && IsCandidate(tb, row) && ClassOf(row).Some?
                && exists cost ::
                     && IsCost(tb, row, calendar, cost)
                     && match cost
                        case Err(e) => price == Err(e)
                        case Ok(side) =>
                          && price.Ok? && IsNearest(side.usd, price.value.micros)
                          && price.value.cls == side.cls && price.value.long == side.long
  {
    if row.uses.Ok? && !row.cacheHit {
      CostIs(tb, row, calendar);
      var cost := Cost(tb, row, calendar);
      if cost.Ok? {
        CostFits(tb, row, calendar);
        FitsMeansMicros(cost.value.usd);
      }
    }
  }
}
