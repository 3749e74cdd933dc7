/**
  The reference pricer, in exact arithmetic: one usage row in, dollars out, rounded once to micro-dollars.
  Anything the rate card cannot price exactly is refused with a reason. The off-peak calendar is the
  caller's: `calendar` is what it answers for the card and the time of the row.
 */
module Pricing {
  import opened Prelude

  datatype Unpriced =
    | NoPriceModel | UnknownModel | UnknownProvider | NotACandidate | UnknownVariant | Unverified
    | InconsistentTokens | UnknownClass | UnknownGeo | UnknownCalendar | UnknownTool | UnknownHost
    | NoRate | NoToolFee | BadReportedCost | Overflow

  type Res<T> = Result<T, Unpriced>

  // ---- Tokens ----

  datatype Usage = Usage(
    openAiWire: bool, input: nat, output: nat, cacheRead: nat, cacheWrite: nat, cacheWrite1h: nat, gatewayWrite: nat)

  /** Every prompt token in exactly one of `uncached`, `read`, `w5`, `w1`; `gw` of the uncached ones were written to
      the cache by the gateway. */
  datatype Tokens = Tokens(uncached: nat, gw: nat, read: nat, w5: nat, w1: nat, out: nat)

  function Prompt(t: Tokens): nat { t.uncached + t.read + t.w5 + t.w1 }

  function Normalize(u: Usage): (r: Res<Tokens>)
    ensures r.Ok? <==>
              && u.cacheWrite1h <= u.cacheWrite
              && (u.openAiWire ==> u.cacheRead + u.cacheWrite <= u.input)
              && u.gatewayWrite <= u.input - (if u.openAiWire then u.cacheRead + u.cacheWrite else 0)
    ensures r.Ok? ==>
              && Prompt(r.value) == u.input + (if u.openAiWire then 0 else u.cacheRead + u.cacheWrite)
              && r.value.gw == u.gatewayWrite <= r.value.uncached && r.value.read == u.cacheRead
              && r.value.w1 == u.cacheWrite1h && r.value.w5 + r.value.w1 == u.cacheWrite && r.value.out == u.output
    ensures r.Err? ==> r.error == InconsistentTokens
  {
    if u.cacheWrite1h > u.cacheWrite then Err(InconsistentTokens)
    else
      var uncached := if u.openAiWire then u.input - u.cacheRead - u.cacheWrite else u.input;
      if uncached < 0 then Err(InconsistentTokens)
      else if u.gatewayWrite > uncached then Err(InconsistentTokens)
      else Ok(Tokens(uncached, u.gatewayWrite, u.cacheRead, u.cacheWrite - u.cacheWrite1h, u.cacheWrite1h, u.output))
  }

  // ---- Rate cards ----

  datatype Class = Standard | OffPeak | Fast | Ultrafast | Flex

  datatype Rates = Rates(input: real, cacheRead: real, cacheWrite: real, cacheWrite1h: Option<real>, output: real)

  datatype LongContext = LongContext(threshold: nat, inclusive: bool)

  datatype Tier = Tier(cls: Class, long: bool)

  /** Rates in dollars per million tokens, by class and context length; fees in dollars per tool call. */
  datatype Card = Card(
    tiers: map<Tier, Rates>, longContext: Option<LongContext>, offPeak: Option<Rates>,
    geoUs: Option<real>, tools: map<string, real>)

  datatype ToolUse = ToolUse(kind: string, count: nat)

  /** What one side of a row comes to, and the class and tier it was priced in. */
  datatype Side = Side(usd: real, cls: Class, long: bool)

  predicate IsLong(card: Card, t: Tokens)
  {
    match card.longContext
    case None => false
    case Some(lc) => if lc.inclusive then Prompt(t) >= lc.threshold else Prompt(t) > lc.threshold
  }

  /** The class a row is priced in: standard hours may turn out to be off-peak. */
  function PricedClass(card: Card, t: Tokens, cls: Class, calendar: Res<bool>): Res<Class>
  {
    if cls == Standard && card.offPeak.Some? && !IsLong(card, t) then
      match calendar
      case Err(e) => Err(e)
      case Ok(offPeak) => Ok(if offPeak then OffPeak else Standard)
    else Ok(cls)
  }

  function RatesFor(card: Card, cls: Class, long: bool): Res<Rates>
  {
    if cls == OffPeak then (match card.offPeak case Some(r) => Ok(r) case None => Err(NoRate))
    else if Tier(cls, long) in card.tiers then Ok(card.tiers[Tier(cls, long)])
    else Err(NoRate)
  }

  function Multiplier(card: Card, geoUs: bool, fee: real): Res<real>
  {
    if !geoUs then Ok(fee)
    else match card.geoUs
      case None => Err(UnknownGeo)
      case Some(g) => Ok(g * fee)
  }

  const U128: int := 0x1_0000_0000_0000_0000_0000_0000_0000_0000
  const U64: int := 0x1_0000_0000_0000_0000
  const PER: real := 1.0 / 1_000_000.0

  /** An attodollar numerator times two multipliers in basis points stays under 128 bits. */
  predicate Fits(usd: real)
  {
    usd * 100_000_000_000_000_000_000_000_000.0 < U128 as real
  }

  /** One amount on its way into the total: checked before the multiplier, billed after it. */
  datatype Entry = Nothing | NoFee | Entry(checked: real, billed: real)

  function TokenEntry(count: int, rate: real, m: real): Entry
  {
    Entry(count as real * rate * PER, count as real * rate * PER * m)
  }

  /** The five token categories. The gateway's own cache writes bill as five-minute writes. */
  function TokenEntries(r: Rates, m: real, t: Tokens): seq<Entry>
    requires t.gw <= t.uncached
  {
    [TokenEntry(t.uncached - t.gw, r.input, m),
     TokenEntry(t.read, r.cacheRead, m),
     TokenEntry(t.w5 + t.gw, r.cacheWrite, m),
     TokenEntry(t.w1, if r.cacheWrite1h.Some? then r.cacheWrite1h.value else 0.0, m),
     TokenEntry(t.out, r.output, m)]
  }

  /** A tool's calls at its fee; residency multiplies tokens only. */
  function ToolEntry(use: ToolUse, fees: map<string, real>, fee: real): Entry
  {
    if use.count == 0 || use.kind == "tool_calls" then Nothing
    else if use.kind !in fees then NoFee
    else Entry(use.count as real * fees[use.kind], use.count as real * fees[use.kind] * fee)
  }

  function ToolEntries(uses: seq<ToolUse>, fees: map<string, real>, fee: real): seq<Entry>
  {
    seq(|uses|, i requires 0 <= i < |uses| => ToolEntry(uses[i], fees, fee))
  }

  /** The total from entry `i` on, stopping at the first entry that cannot be billed. */
  function Bill(entries: seq<Entry>, i: nat, usd: real): Res<real>
    requires i <= |entries|
    decreases |entries| - i
  {
    if i == |entries| then Ok(usd)
    else
      match entries[i]
      case Nothing => Bill(entries, i + 1, usd)
      case NoFee => Err(NoToolFee)
      case Entry(checked, billed) => if Fits(checked) then Bill(entries, i + 1, usd + billed) else Err(Overflow)
  }

  /** Dollars for tokens and tools at given rates, and the last bound on their sum. */
  function Charge(r: Rates, m: real, fees: map<string, real>, fee: real, t: Tokens, uses: seq<ToolUse>): Res<real>
    requires t.gw <= t.uncached
  {
    match Bill(TokenEntries(r, m, t) + ToolEntries(uses, fees, fee), 0, 0.0)
    case Err(e) => Err(e)
    case Ok(usd) => if Fits(usd) then Ok(usd) else Err(Overflow)
  }

  /** One side of a row: pick the rates, then charge. */
  function SideOf(card: Card, t: Tokens, uses: seq<ToolUse>, cls: Class, geoUs: bool, fee: real, calendar: Res<bool>)
    : Res<Side>
    requires t.gw <= t.uncached
  {
    var long := IsLong(card, t);
    match PricedClass(card, t, cls, calendar)
    case Err(e) => Err(e)
    case Ok(priced) =>
      match RatesFor(card, priced, long)
      case Err(e) => Err(e)
      case Ok(rates) =>
        match Multiplier(card, geoUs, fee)
        case Err(e) => Err(e)
        case Ok(m) =>
          if t.w1 > 0 && rates.cacheWrite1h.None? then Err(NoRate)
          else
            match Charge(rates, m, card.tools, fee, t, uses)
            case Err(e) => Err(e)
            case Ok(usd) => Ok(Side(usd, priced, long))
  }

  /** The two accumulating loops of a side: tokens, then tools. */
  method ChargeInLoops(r: Rates, m: real, fees: map<string, real>, fee: real, t: Tokens, uses: seq<ToolUse>)
    returns (result: Res<real>)
    requires t.gw <= t.uncached
    ensures result == Charge(r, m, fees, fee, t, uses)
  {
    var parts := TokenEntries(r, m, t);
    var tools := ToolEntries(uses, fees, fee);
    ghost var all := parts + tools;
    var usd := 0.0;
    for i := 0 to |parts|
      invariant Bill(all, i, usd) == Bill(all, 0, 0.0)
    {
      assert all[i] == parts[i];
      if !Fits(parts[i].checked) {
        return Err(Overflow);
      }
      usd := usd + parts[i].billed;
    }
    for i := 0 to |uses|
      invariant Bill(all, |parts| + i, usd) == Bill(all, 0, 0.0)
    {
      assert all[|parts| + i] == tools[i];
      if tools[i].Nothing? {
        continue;
      }
      if tools[i].NoFee? {
        return Err(NoToolFee);
      }
      if !Fits(tools[i].checked) {
        return Err(Overflow);
      }
      usd := usd + tools[i].billed;
    }
    result := if Fits(usd) then Ok(usd) else Err(Overflow);
  }

  /** Half-up to whole micro-dollars. */
  function Rounded(usd: real): int
  {
    (usd * 1_000_000.0 + 0.5).Floor
  }

  function Micros(usd: real): Res<int>
  {
    if Rounded(usd) >= U64 then Err(Overflow) else Ok(Rounded(usd))
  }

  // ---- The dearest endpoint ----

  /** An aggregator endpoint; hosts are compared in lower case. */
  datatype Endpoint = Endpoint(
    cls: Class, host: string, standard: Rates, long: Option<(Rates, LongContext)>, webSearch: Option<real>)

  function EndpointCard(e: Endpoint): Card
  {
    Card((map[Tier(Standard, false) := e.standard])
         + (if e.long.Some? then map[Tier(Standard, true) := e.long.value.0] else map[]),
         if e.long.Some? then Some(e.long.value.1) else None,
         None, None,
         if e.webSearch.Some? then map["web_search" := e.webSearch.value] else map[])
  }

  /** What the endpoints of a row are asked: its class and host, and its tokens and tools at the fee. */
  datatype Query = Query(cls: Class, host: Option<string>, tokens: Tokens, uses: seq<ToolUse>, fee: real)

  predicate Matches(e: Endpoint, q: Query)
  {
    e.cls == q.cls && (q.host.Some? ==> e.host == q.host.value)
  }

  function Quote(e: Endpoint, q: Query): Res<Side>
    requires q.tokens.gw <= q.tokens.uncached
  {
    SideOf(EndpointCard(e), q.tokens, q.uses, Standard, false, q.fee, Ok(false))
  }

  /** What each endpoint answers: nothing, if it does not serve the row. */
  function Quotes(es: seq<Endpoint>, q: Query): seq<Option<Res<Side>>>
    requires q.tokens.gw <= q.tokens.uncached
  {
    seq(|es|, i requires 0 <= i < |es| => if Matches(es[i], q) then Some(Quote(es[i], q)) else None)
  }

  /** The best of the quotes from `i` on against the best before; the first refusal stops it. */
  function BestFrom(quotes: seq<Option<Res<Side>>>, i: nat, best: Option<Side>): Res<Side>
    requires i <= |quotes|
    decreases |quotes| - i
  {
    if i == |quotes| then (match best case Some(s) => Ok(s) case None => Err(UnknownHost))
    else
      match quotes[i]
      case None => BestFrom(quotes, i + 1, best)
      case Some(Err(e)) => Err(e)
      case Some(Ok(s)) => BestFrom(quotes, i + 1, if best.None? || s.usd > best.value.usd then Some(s) else best)
  }

  function Dearest(es: seq<Endpoint>, q: Query): Res<Side>
    requires q.tokens.gw <= q.tokens.uncached
  {
    BestFrom(Quotes(es, q), 0, None)
  }

  method DearestInLoop(es: seq<Endpoint>, q: Query) returns (r: Res<Side>)
    requires q.tokens.gw <= q.tokens.uncached
    ensures r == Dearest(es, q)
  {
    var best: Option<Side> := None;
    ghost var quotes := Quotes(es, q);
    for i := 0 to |es|
      invariant BestFrom(quotes, i, best) == BestFrom(quotes, 0, None)
    {
      if !Matches(es[i], q) {
        assert quotes[i] == None;
        continue;
      }
      var got := Quote(es[i], q);
      assert quotes[i] == Some(got);
      if got.Err? {
        return Err(got.error);
      }
      if best.None? || got.value.usd > best.value.usd {
        best := Some(got.value);
      }
    }
    r := if best.Some? then Ok(best.value) else Err(UnknownHost);
  }

  // ---- A whole row ----

  datatype CostName = UnverifiedCost | Aggregator(name: string) | ListCard | OwnCard(name: string)

  datatype ModelPricing = ModelPricing(customer: string, cost: map<string, CostName>)

  datatype Table = Table(
    cards: map<string, Card>, openrouter: map<string, seq<Endpoint>>, pricing: map<string, ModelPricing>,
    providers: set<string>, creditFee: real)

  /** Every card and endpoint list a model names is there. */
  predicate Complete(tb: Table)
  {
    forall m, p :: m in tb.pricing && p in tb.pricing[m].cost ==>
      match tb.pricing[m].cost[p]
      case UnverifiedCost => true
      case Aggregator(name) => name in tb.openrouter
      case ListCard => tb.pricing[m].customer in tb.cards
      case OwnCard(name) => name in tb.cards
  }

  datatype Reported = Readable(usd: real) | Unreadable

  datatype Row = Row(
    uses: Res<seq<ToolUse>>, cacheHit: bool, priceModel: Option<string>, provider: Option<string>,
    variant: Option<string>, usage: Usage, serviceTier: Option<string>, speed: Option<string>,
    geo: Option<string>, upstreamCost: Option<Reported>, servedBy: Option<string>)

  function TierClass(tier: Option<string>): Res<Class>
  {
    match tier
    case None => Ok(Standard)
    case Some(t) =>
      if t in {"default", "standard", "on_demand", "auto", "asap"} then Ok(Standard)
      else if t in {"priority", "fast"} then Ok(Fast)
      else if t == "ultrafast" then Ok(Ultrafast)
      else if t == "flex" then Ok(Flex)
      else Err(UnknownClass)
  }

  function ServedClass(row: Row): Res<Class>
  {
    match TierClass(row.serviceTier)
    case Err(e) => Err(e)
    case Ok(tier) =>
      if row.speed in {None, Some("standard")} then Ok(tier)
      else if row.speed == Some("fast") && tier in {Standard, Fast} then Ok(Fast)
      else Err(UnknownClass)
  }

  function Geo(row: Row): Res<bool>
  {
    if row.geo in {None, Some("global"), Some("not_available")} then Ok(false)
    else if row.geo == Some("us") then Ok(true)
    else Err(UnknownGeo)
  }

  predicate VariantAllowed(row: Row)
  {
    || row.variant.None?
    || (row.provider == Some("bedrock") && row.variant == Some("regional"))
    || (row.provider == Some("openrouter") && row.variant in {Some("regional"), Some("global")})
  }

  function CountOf(uses: seq<ToolUse>, kind: string): nat
  {
    if uses == [] then 0
    else (if uses[0].kind == kind then uses[0].count else 0) + CountOf(uses[1..], kind)
  }

  function WithCreditFee(tb: Table, row: Row, usd: real): real
  {
    usd * (if row.provider == Some("openrouter") then tb.creditFee else 1.0)
  }

  /** The exact dollars of a candidate, by whichever of the three ways applies. */
  function CostBy(tb: Table, cost: CostName, customer: string, row: Row, uses: seq<ToolUse>, t: Tokens, cls: Class,
                  geoUs: bool, calendar: Res<bool>): Res<Side>
    requires t.gw <= t.uncached
    requires cost.Aggregator? ==> cost.name in tb.openrouter
    requires cost.ListCard? ==> customer in tb.cards
    requires cost.OwnCard? ==> cost.name in tb.cards
  {
    if cost.UnverifiedCost? then Err(Unverified)
    else if row.upstreamCost.Some? then
      if row.upstreamCost.value.Unreadable? then Err(BadReportedCost)
      else
        var usd := WithCreditFee(tb, row, row.upstreamCost.value.usd);
        if Fits(usd) then Ok(Side(usd, cls, false)) else Err(Overflow)
    else if cost.Aggregator? then
      if CountOf(uses, "tool_calls") > CountOf(uses, "web_search") then Err(NoToolFee)
      else if geoUs then Err(UnknownGeo)
      else
        match Dearest(tb.openrouter[cost.name], Query(cls, row.servedBy, t, uses, tb.creditFee))
        case Err(e) => Err(e)
        case Ok(best) => Ok(Side(best.usd, cls, best.long))
    else
      SideOf(if cost.ListCard? then tb.cards[customer] else tb.cards[cost.name], t, uses, cls, geoUs, 1.0, calendar)
  }

  /** The side a row that is not a cache hit is priced at, before rounding. */
  function Cost(tb: Table, row: Row, calendar: Res<bool>): Res<Side>
    requires Complete(tb) && row.uses.Ok?
  {
    if row.priceModel.None? then Err(NoPriceModel)
    else if row.priceModel.value !in tb.pricing then Err(UnknownModel)
    else
      var p := tb.pricing[row.priceModel.value];
      if row.provider.None? || row.provider.value !in tb.providers then Err(UnknownProvider)
      else if row.provider.value !in p.cost then Err(NotACandidate)
      else if !VariantAllowed(row) then Err(UnknownVariant)
      else
        match Normalize(row.usage)
        case Err(e) => Err(e)
        case Ok(t) =>
          match ServedClass(row)
          case Err(e) => Err(e)
          case Ok(cls) =>
            if row.provider.value in {"anthropic", "bedrock"} && row.serviceTier !in {None, Some("standard")} then
              Err(UnknownClass)
            else
              match Geo(row)
              case Err(e) => Err(e)
              case Ok(geoUs) =>
                CostBy(tb, p.cost[row.provider.value], p.customer, row, row.uses.value, t, cls, geoUs, calendar)
  }

  datatype Priced = Priced(micros: int, cls: Class, long: bool)

  /** A row's cost in micro-dollars, which is also its price. */
  function Price(tb: Table, row: Row, calendar: Res<bool>): Res<Priced>
    requires Complete(tb)
  {
    if row.uses.Err? then Err(row.uses.error)
    else if row.cacheHit then Ok(Priced(0, Standard, false))
    else
      match Cost(tb, row, calendar)
      case Err(e) => Err(e)
      case Ok(side) =>
        match Micros(side.usd)
        case Err(e) => Err(e)
        case Ok(micros) => Ok(Priced(micros, side.cls, side.long))
  }
}
