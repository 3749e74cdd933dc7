/** What the pricer's arithmetic promises: sums, rounding, bounds, and the dearest endpoint. */
module PricingProofs {
  import opened Prelude
  import opened Pricing

  // ---- What a bill adds up to ----

  function Amount(e: Entry): real
  {
    if e.Entry? then e.billed else 0.0
  }

  function Billed(entries: seq<Entry>): real
  {
    if entries == [] then 0.0 else Amount(entries[0]) + Billed(entries[1..])
  }

  lemma {:induction false} BilledAppend(a: seq<Entry>, b: seq<Entry>)
    ensures Billed(a + b) == Billed(a) + Billed(b)
  {
    if a == [] {
      assert a + b == b;
    } else {
      assert (a + b)[1..] == a[1..] + b;
      BilledAppend(a[1..], b);
    }
  }

  lemma {:induction false} BillIsSum(entries: seq<Entry>, i: nat, usd: real)
    requires i <= |entries| && Bill(entries, i, usd).Ok?
    ensures Bill(entries, i, usd).value == usd + Billed(entries[i..])
    decreases |entries| - i
  {
    if i < |entries| {
      assert entries[i..][1..] == entries[i + 1..];
      BillIsSum(entries, i + 1, usd + Amount(entries[i]));
    }
  }

  lemma ChargeIsSum(r: Rates, m: real, fees: map<string, real>, fee: real, t: Tokens, uses: seq<ToolUse>)
    requires t.gw <= t.uncached && Charge(r, m, fees, fee, t, uses).Ok?
    ensures Charge(r, m, fees, fee, t, uses).value
            == Billed(TokenEntries(r, m, t)) + Billed(ToolEntries(uses, fees, fee))
  {
    var tokens, tools := TokenEntries(r, m, t), ToolEntries(uses, fees, fee);
    BillIsSum(tokens + tools, 0, 0.0);
    assert (tokens + tools)[0..] == tokens + tools;
    BilledAppend(tokens, tools);
  }

  // ---- Tokens add up ----

  function Plus(a: Tokens, b: Tokens): Tokens
  {
    Tokens(a.uncached + b.uncached, a.gw + b.gw, a.read + b.read, a.w5 + b.w5, a.w1 + b.w1, a.out + b.out)
  }

  const NO_TOKENS := Tokens(0, 0, 0, 0, 0, 0)

  function CategoryUsd(count: int, rate: real, m: real): real
  {
    count as real * rate * PER * m
  }

  lemma CategoryAdds(a: int, b: int, rate: real, m: real)
    ensures CategoryUsd(a + b, rate, m) == CategoryUsd(a, rate, m) + CategoryUsd(b, rate, m)
  {
    var x, y := a as real, b as real;
    assert (a + b) as real == x + y;
    assert (x + y) * rate == x * rate + y * rate;
    assert (x * rate + y * rate) * PER * m == x * rate * PER * m + y * rate * PER * m;
  }

  lemma TokensBilled(r: Rates, m: real, t: Tokens)
    requires t.gw <= t.uncached
    ensures Billed(TokenEntries(r, m, t))
            == CategoryUsd(t.uncached - t.gw, r.input, m) + CategoryUsd(t.read, r.cacheRead, m)
               + CategoryUsd(t.w5 + t.gw, r.cacheWrite, m)
               + CategoryUsd(t.w1, if r.cacheWrite1h.Some? then r.cacheWrite1h.value else 0.0, m)
               + CategoryUsd(t.out, r.output, m)
  {
    var e := TokenEntries(r, m, t);
    assert e[1..][1..] == e[2..] && e[2..][1..] == e[3..] && e[3..][1..] == e[4..] && e[4..][1..] == [];
    assert Billed(e[4..]) == e[4].billed;
    assert Billed(e[3..]) == e[3].billed + Billed(e[4..]);
    assert Billed(e[2..]) == e[2].billed + Billed(e[3..]);
    assert Billed(e[1..]) == e[1].billed + Billed(e[2..]);
  }

  lemma TokensAdd(r: Rates, m: real, a: Tokens, b: Tokens)
    requires a.gw <= a.uncached && b.gw <= b.uncached
    ensures Billed(TokenEntries(r, m, Plus(a, b)))
            == Billed(TokenEntries(r, m, a)) + Billed(TokenEntries(r, m, b))
  {
    TokensBilled(r, m, a);
    TokensBilled(r, m, b);
    TokensBilled(r, m, Plus(a, b));
    CategoryAdds(a.uncached - a.gw, b.uncached - b.gw, r.input, m);
    CategoryAdds(a.read, b.read, r.cacheRead, m);
    CategoryAdds(a.w5 + a.gw, b.w5 + b.gw, r.cacheWrite, m);
    CategoryAdds(a.w1, b.w1, if r.cacheWrite1h.Some? then r.cacheWrite1h.value else 0.0, m);
    CategoryAdds(a.out, b.out, r.output, m);
  }

  // ---- Tool counts add up ----

  function FeeOf(fees: map<string, real>, kind: string): real
  {
    if kind in fees && kind != "tool_calls" then fees[kind] else 0.0
  }

  function CallsUsd(count: int, fees: map<string, real>, fee: real, kind: string): real
  {
    count as real * FeeOf(fees, kind) * fee
  }

  /** The tool charge by kind rather than by use. */
  function ByKind(kinds: seq<string>, uses: seq<ToolUse>, fees: map<string, real>, fee: real): real
  {
    if kinds == [] then 0.0
    else CallsUsd(CountOf(uses, kinds[0]), fees, fee, kinds[0]) + ByKind(kinds[1..], uses, fees, fee)
  }

  lemma {:induction false} UseElsewhere(
    kinds: seq<string>, u: ToolUse, uses: seq<ToolUse>, fees: map<string, real>, fee: real)
    requires u.kind !in kinds
    ensures ByKind(kinds, [u] + uses, fees, fee) == ByKind(kinds, uses, fees, fee)
  {
    if kinds != [] {
      assert ([u] + uses)[1..] == uses;
      UseElsewhere(kinds[1..], u, uses, fees, fee);
    }
  }

  lemma CallsAdd(a: int, b: int, fees: map<string, real>, fee: real, kind: string)
    ensures CallsUsd(a + b, fees, fee, kind) == CallsUsd(a, fees, fee, kind) + CallsUsd(b, fees, fee, kind)
  {
    var x, y, f := a as real, b as real, FeeOf(fees, kind);
    assert (a + b) as real == x + y;
    assert (x + y) * f == x * f + y * f;
    assert (x * f + y * f) * fee == x * f * fee + y * f * fee;
  }

  lemma {:induction false} UseByKind(
    kinds: seq<string>, u: ToolUse, uses: seq<ToolUse>, fees: map<string, real>, fee: real)
    requires Distinct(kinds) && u.kind in kinds
    ensures ByKind(kinds, [u] + uses, fees, fee)
            == CallsUsd(u.count, fees, fee, u.kind) + ByKind(kinds, uses, fees, fee)
  {
    assert ([u] + uses)[1..] == uses;
    if kinds[0] == u.kind {
      CallsAdd(u.count, CountOf(uses, u.kind), fees, fee, u.kind);
      UseElsewhere(kinds[1..], u, uses, fees, fee);
    } else {
      UseByKind(kinds[1..], u, uses, fees, fee);
    }
  }

  lemma {:induction false} NoUseByKind(kinds: seq<string>, fees: map<string, real>, fee: real)
    ensures ByKind(kinds, [], fees, fee) == 0.0
  {
    if kinds != [] {
      NoUseByKind(kinds[1..], fees, fee);
    }
  }

  lemma EntryIsCalls(u: ToolUse, fees: map<string, real>, fee: real)
    ensures Amount(ToolEntry(u, fees, fee)) == CallsUsd(u.count, fees, fee, u.kind)
  {
  }

  lemma ToolsFirst(uses: seq<ToolUse>, fees: map<string, real>, fee: real)
    requires uses != []
    ensures Billed(ToolEntries(uses, fees, fee))
            == CallsUsd(uses[0].count, fees, fee, uses[0].kind) + Billed(ToolEntries(uses[1..], fees, fee))
  {
    assert ToolEntries(uses, fees, fee)[1..] == ToolEntries(uses[1..], fees, fee);
    EntryIsCalls(uses[0], fees, fee);
  }

  /** The charge of the uses depends only on how often each kind was used. */
  lemma {:induction false} ToolsByKind(kinds: seq<string>, uses: seq<ToolUse>, fees: map<string, real>, fee: real)
    requires Distinct(kinds) && forall i :: 0 <= i < |uses| ==> uses[i].kind in kinds
    ensures Billed(ToolEntries(uses, fees, fee)) == ByKind(kinds, uses, fees, fee)
  {
    if uses == [] {
      NoUseByKind(kinds, fees, fee);
    } else {
      ToolsFirst(uses, fees, fee);
      ToolsByKind(kinds, uses[1..], fees, fee);
      UseByKind(kinds, uses[0], uses[1..], fees, fee);
      assert uses == [uses[0]] + uses[1..];
    }
  }

  lemma {:induction false} SameCountsSameCharge(
    kinds: seq<string>, a: seq<ToolUse>, b: seq<ToolUse>, fees: map<string, real>, fee: real)
    requires forall k :: k in kinds ==> CountOf(a, k) == CountOf(b, k)
    ensures ByKind(kinds, a, fees, fee) == ByKind(kinds, b, fees, fee)
  {
    if kinds != [] {
      SameCountsSameCharge(kinds[1..], a, b, fees, fee);
    }
  }

  // ---- Rows ----

  datatype Metered = Metered(tokens: Tokens, uses: seq<ToolUse>)

  function TotalTokens(rows: seq<Metered>): Tokens
  {
    if rows == [] then NO_TOKENS else Plus(rows[0].tokens, TotalTokens(rows[1..]))
  }

  function AllUses(rows: seq<Metered>): seq<ToolUse>
  {
    if rows == [] then [] else rows[0].uses + AllUses(rows[1..])
  }

  predicate Sane(rows: seq<Metered>, kinds: seq<string>)
  {
    forall i :: 0 <= i < |rows| ==>
      rows[i].tokens.gw <= rows[i].tokens.uncached
      && forall j :: 0 <= j < |rows[i].uses| ==> rows[i].uses[j].kind in kinds
  }

  /** A row's dollars at given rates, before any bound. */
  function RowUsd(r: Rates, m: real, fees: map<string, real>, fee: real, row: Metered): real
    requires row.tokens.gw <= row.tokens.uncached
  {
    Billed(TokenEntries(r, m, row.tokens)) + Billed(ToolEntries(row.uses, fees, fee))
  }

  function RowsUsd(r: Rates, m: real, fees: map<string, real>, fee: real, rows: seq<Metered>, kinds: seq<string>): real
    requires Sane(rows, kinds)
  {
    if rows == [] then 0.0
    else
      assert rows[0].tokens.gw <= rows[0].tokens.uncached;
      RowUsd(r, m, fees, fee, rows[0]) + RowsUsd(r, m, fees, fee, rows[1..], kinds)
  }

  lemma ToolEntriesAppend(a: seq<ToolUse>, b: seq<ToolUse>, fees: map<string, real>, fee: real)
    ensures ToolEntries(a + b, fees, fee) == ToolEntries(a, fees, fee) + ToolEntries(b, fees, fee)
  {
  }

  lemma NoTokensNoCharge(r: Rates, m: real)
    ensures Billed(TokenEntries(r, m, NO_TOKENS)) == 0.0
  {
    TokensBilled(r, m, NO_TOKENS);
  }

  lemma {:induction false} RowsAddUp(
    r: Rates, m: real, fees: map<string, real>, fee: real, rows: seq<Metered>, kinds: seq<string>)
    requires Sane(rows, kinds)
    ensures TotalTokens(rows).gw <= TotalTokens(rows).uncached
    ensures forall j :: 0 <= j < |AllUses(rows)| ==> AllUses(rows)[j].kind in kinds
    ensures RowsUsd(r, m, fees, fee, rows, kinds)
            == RowUsd(r, m, fees, fee, Metered(TotalTokens(rows), AllUses(rows)))
  {
    if rows == [] {
      NoTokensNoCharge(r, m);
    } else {
      assert rows[0].tokens.gw <= rows[0].tokens.uncached;
      RowsAddUp(r, m, fees, fee, rows[1..], kinds);
      TokensAdd(r, m, rows[0].tokens, TotalTokens(rows[1..]));
      ToolEntriesAppend(rows[0].uses, AllUses(rows[1..]), fees, fee);
      BilledAppend(ToolEntries(rows[0].uses, fees, fee), ToolEntries(AllUses(rows[1..]), fees, fee));
    }
  }

  /** `total` has the tokens of all the rows together, and each tool as often as they do. */
  predicate IsTotal(total: Metered, rows: seq<Metered>, kinds: seq<string>)
  {
    && total.tokens == TotalTokens(rows)
    && (forall j :: 0 <= j < |total.uses| ==> total.uses[j].kind in kinds)
    && (forall k :: k in kinds ==> CountOf(total.uses, k) == CountOf(AllUses(rows), k))
  }

  /** At the same rates and multiplier, the dollars of the totals are the sum of the rows' dollars, exactly. */
  lemma TotalIsSum(
    r: Rates, m: real, fees: map<string, real>, fee: real, total: Metered, rows: seq<Metered>, kinds: seq<string>)
    requires Distinct(kinds) && Sane(rows, kinds) && IsTotal(total, rows, kinds)
    ensures total.tokens.gw <= total.tokens.uncached
    ensures RowUsd(r, m, fees, fee, total) == RowsUsd(r, m, fees, fee, rows, kinds)
  {
    RowsAddUp(r, m, fees, fee, rows, kinds);
    ToolsByKind(kinds, total.uses, fees, fee);
    ToolsByKind(kinds, AllUses(rows), fees, fee);
    SameCountsSameCharge(kinds, total.uses, AllUses(rows), fees, fee);
  }

  /** A priced side is the dollars of its row at the card's rates for the class and tier it reports. */
  lemma SideIsRowUsd(card: Card, row: Metered, cls: Class, geoUs: bool, fee: real, calendar: Res<bool>)
    requires row.tokens.gw <= row.tokens.uncached
    requires SideOf(card, row.tokens, row.uses, cls, geoUs, fee, calendar).Ok?
    ensures var s := SideOf(card, row.tokens, row.uses, cls, geoUs, fee, calendar).value;
            && RatesFor(card, s.cls, s.long).Ok? && Multiplier(card, geoUs, fee).Ok?
            && s.usd == RowUsd(RatesFor(card, s.cls, s.long).value, Multiplier(card, geoUs, fee).value,
                               card.tools, fee, row)
            && Fits(s.usd)
  {
    var s := SideOf(card, row.tokens, row.uses, cls, geoUs, fee, calendar).value;
    ChargeIsSum(RatesFor(card, s.cls, s.long).value, Multiplier(card, geoUs, fee).value, card.tools, fee,
                row.tokens, row.uses);
  }

  function SumUsd(sides: seq<Side>): real
  {
    if sides == [] then 0.0 else sides[0].usd + SumUsd(sides[1..])
  }

  /** Rows priced one by one on a card, all in class `priced` and context tier `long`. */
  ghost predicate PricedAlike(card: Card, rows: seq<Metered>, cls: Class, geoUs: bool, fee: real, calendars: seq<Res<bool>>,
                              priced: Class, long: bool, sides: seq<Side>)
  {
    && |rows| == |sides| == |calendars|
    && forall i :: 0 <= i < |rows| ==>
         && rows[i].tokens.gw <= rows[i].tokens.uncached
         && SideOf(card, rows[i].tokens, rows[i].uses, cls, geoUs, fee, calendars[i]) == Ok(sides[i])
         && sides[i].cls == priced && sides[i].long == long
  }

  lemma {:induction false} SidesAreRowsUsd(
    card: Card, rows: seq<Metered>, cls: Class, geoUs: bool, fee: real, calendars: seq<Res<bool>>,
    priced: Class, long: bool, sides: seq<Side>, kinds: seq<string>, r: Rates, m: real)
    requires PricedAlike(card, rows, cls, geoUs, fee, calendars, priced, long, sides) && Sane(rows, kinds)
    requires RatesFor(card, priced, long) == Ok(r) && Multiplier(card, geoUs, fee) == Ok(m)
    ensures SumUsd(sides) == RowsUsd(r, m, card.tools, fee, rows, kinds)
  {
    if rows != [] {
      SideIsRowUsd(card, rows[0], cls, geoUs, fee, calendars[0]);
      SidesAreRowsUsd(card, rows[1..], cls, geoUs, fee, calendars[1..], priced, long, sides[1..], kinds, r, m);
    }
  }

  // ---- Rounding ----

  function SumRounded(sides: seq<Side>): int
  {
    if sides == [] then 0 else Rounded(sides[0].usd) + SumRounded(sides[1..])
  }

  lemma {:induction false} RoundedSumsStayNear(sides: seq<Side>)
    ensures var s, n := SumUsd(sides) * 1_000_000.0, |sides| as real;
            && 2.0 * s - n <= 2.0 * SumRounded(sides) as real <= 2.0 * s + n
            && (sides != [] ==> 2.0 * s - n < 2.0 * SumRounded(sides) as real)
  {
    if sides != [] {
      RoundedSumsStayNear(sides[1..]);
    }
  }

  /** Rounding once and rounding row by row differ by at most half a micro-dollar per row. */
  lemma RoundingDrift(sides: seq<Side>)
    ensures -|sides| <= 2 * (Rounded(SumUsd(sides)) - SumRounded(sides)) <= |sides|
  {
    RoundedSumsStayNear(sides);
    var r := Rounded(SumUsd(sides));
    assert 2.0 * SumUsd(sides) * 1_000_000.0 - 1.0 < 2.0 * r as real <= 2.0 * SumUsd(sides) * 1_000_000.0 + 1.0;
    assert (2 * (r - SumRounded(sides))) as real == 2.0 * r as real - 2.0 * SumRounded(sides) as real;
  }

  function HalfMicros(n: nat): seq<Side>
  {
    seq(n, _ => Side(0.000_000_5, Standard, false))
  }

  /** The bound is reached, for every number of rows: half a micro-dollar in each. */
  lemma {:induction false} DriftIsReached(n: nat)
    ensures SumUsd(HalfMicros(n)) == n as real * 0.000_000_5 && SumRounded(HalfMicros(n)) == n
    ensures SumRounded(HalfMicros(n)) - Rounded(SumUsd(HalfMicros(n))) == n / 2
  {
    if n > 0 {
      assert HalfMicros(n)[1..] == HalfMicros(n - 1);
      DriftIsReached(n - 1);
    }
  }

  // ---- Bounds ----

  /** An endpoint that serves the row and can be priced. */
  predicate Priced(quote: Option<Res<Side>>)
  {
    quote.Some? && quote.value.Ok?
  }

  /** Dollars under the 128-bit bound round to micro-dollars under 64 bits. */
  lemma FitsMeansMicros(usd: real)
    requires Fits(usd)
    ensures Micros(usd) == Ok(Rounded(usd))
  {
    assert usd * 1_000_000.0 * 100_000_000_000_000_000_000.0 == usd * 100_000_000_000_000_000_000_000_000.0;
    assert usd * 1_000_000.0 < 3_402_823_669_209_384_635.0;
  }

  lemma SideFits(card: Card, t: Tokens, uses: seq<ToolUse>, cls: Class, geoUs: bool, fee: real, calendar: Res<bool>)
    requires t.gw <= t.uncached && SideOf(card, t, uses, cls, geoUs, fee, calendar).Ok?
    ensures Fits(SideOf(card, t, uses, cls, geoUs, fee, calendar).value.usd)
  {
    SideIsRowUsd(card, Metered(t, uses), cls, geoUs, fee, calendar);
  }

  lemma {:induction false} BestFits(quotes: seq<Option<Res<Side>>>, i: nat, best: Option<Side>)
    requires i <= |quotes| && (best.Some? ==> Fits(best.value.usd))
    requires forall j :: i <= j < |quotes| && Priced(quotes[j]) ==> Fits(quotes[j].value.value.usd)
    ensures BestFrom(quotes, i, best).Ok? ==> Fits(BestFrom(quotes, i, best).value.usd)
    decreases |quotes| - i
  {
    if i < |quotes| {
      if quotes[i].None? {
        BestFits(quotes, i + 1, best);
      } else if quotes[i].value.Ok? {
        assert Priced(quotes[i]);
        var s := quotes[i].value.value;
        BestFits(quotes, i + 1, if best.None? || s.usd > best.value.usd then Some(s) else best);
      }
    }
  }

  lemma DearestFits(es: seq<Endpoint>, q: Query)
    requires q.tokens.gw <= q.tokens.uncached
    ensures Dearest(es, q).Ok? ==> Fits(Dearest(es, q).value.usd)
  {
    var quotes := Quotes(es, q);
    forall j | 0 <= j < |quotes| && Priced(quotes[j]) ensures Fits(quotes[j].value.value.usd) {
      SideFits(EndpointCard(es[j]), q.tokens, q.uses, Standard, false, q.fee, Ok(false));
    }
    BestFits(quotes, 0, None);
  }

  lemma CostByFits(tb: Table, cost: CostName, customer: string, row: Row, uses: seq<ToolUse>, t: Tokens, cls: Class,
                   geoUs: bool, calendar: Res<bool>)
    requires t.gw <= t.uncached
    requires cost.Aggregator? ==> cost.name in tb.openrouter
    requires cost.ListCard? ==> customer in tb.cards
    requires cost.OwnCard? ==> cost.name in tb.cards
    requires CostBy(tb, cost, customer, row, uses, t, cls, geoUs, calendar).Ok?
    ensures Fits(CostBy(tb, cost, customer, row, uses, t, cls, geoUs, calendar).value.usd)
  {
    if row.upstreamCost.None? {
      if cost.Aggregator? {
        DearestFits(tb.openrouter[cost.name], Query(cls, row.servedBy, t, uses, tb.creditFee));
      } else {
        SideFits(if cost.ListCard? then tb.cards[customer] else tb.cards[cost.name], t, uses, cls, geoUs, 1.0, calendar);
      }
    }
  }

  /** On every pricing path, a row whose dollars pass their bounds is never refused in rounding. */
  lemma RoundingNeverRefuses(tb: Table, row: Row, calendar: Res<bool>)
    requires Complete(tb) && row.uses.Ok? && !row.cacheHit
    ensures Price(tb, row, calendar).Ok? <==> Cost(tb, row, calendar).Ok?
    ensures Cost(tb, row, calendar).Ok? ==>
              Price(tb, row, calendar).value.micros == Rounded(Cost(tb, row, calendar).value.usd)
    ensures Cost(tb, row, calendar).Err? ==> Price(tb, row, calendar).error == Cost(tb, row, calendar).error
  {
    if Cost(tb, row, calendar).Ok? {
      CostFits(tb, row, calendar);
      FitsMeansMicros(Cost(tb, row, calendar).value.usd);
    }
  }

  lemma CostFits(tb: Table, row: Row, calendar: Res<bool>)
    requires Complete(tb) && row.uses.Ok? && Cost(tb, row, calendar).Ok?
    ensures Fits(Cost(tb, row, calendar).value.usd)
  {
    var p := tb.pricing[row.priceModel.value];
    CostByFits(tb, p.cost[row.provider.value], p.customer, row, row.uses.value, Normalize(row.usage).value,
               ServedClass(row).value, Geo(row).value, calendar);
  }

  // ---- The dearest endpoint ----

  /** No quote before `n` is a refusal or above `usd`. */
  predicate AllAtMost(quotes: seq<Option<Res<Side>>>, n: nat, usd: real)
    requires n <= |quotes|
  {
    forall i :: 0 <= i < n && quotes[i].Some? ==> quotes[i].value.Ok? && quotes[i].value.value.usd <= usd
  }

  /** `s` is among the quotes before `n`, and none of them is greater. */
  ghost predicate Best(quotes: seq<Option<Res<Side>>>, n: nat, s: Side)
    requires n <= |quotes|
  {
    AllAtMost(quotes, n, s.usd) && exists i :: 0 <= i < n && quotes[i] == Some(Ok(s))
  }

  ghost predicate BestSoFar(quotes: seq<Option<Res<Side>>>, n: nat, best: Option<Side>)
    requires n <= |quotes|
  {
    if best.Some? then Best(quotes, n, best.value) else forall j :: 0 <= j < n ==> quotes[j].None?
  }

  /** A settled cost is the greatest quote; a refusal is one of the quotes', or there are none. */
  ghost predicate Settles(quotes: seq<Option<Res<Side>>>, r: Res<Side>)
  {
    if r.Ok? then Best(quotes, |quotes|, r.value)
    else
      || (r.error == UnknownHost && forall j :: 0 <= j < |quotes| ==> quotes[j].None?)
      || exists j :: 0 <= j < |quotes| && quotes[j] == Some(Err(r.error))
  }

  lemma {:induction false} BestIsGreatest(quotes: seq<Option<Res<Side>>>, i: nat, best: Option<Side>)
    requires i <= |quotes| && BestSoFar(quotes, i, best)
    ensures Settles(quotes, BestFrom(quotes, i, best))
    decreases |quotes| - i
  {
    if i < |quotes| {
      if quotes[i].None? {
        BestIsGreatest(quotes, i + 1, best);
      } else if quotes[i].value.Ok? {
        var s := quotes[i].value.value;
        assert quotes[i] == Some(Ok(s));
        BestIsGreatest(quotes, i + 1, if best.None? || s.usd > best.value.usd then Some(s) else best);
      } else {
        assert quotes[i] == Some(Err(quotes[i].value.error));
      }
    }
  }

  /** The cost of an aggregator row is the greatest quote among the endpoints that serve it; it is refused
      exactly when none does or one that does cannot be priced. */
  lemma DearestIsGreatest(es: seq<Endpoint>, q: Query)
    requires q.tokens.gw <= q.tokens.uncached
    ensures Settles(Quotes(es, q), Dearest(es, q))
    ensures Dearest(es, q).Ok? <==>
              && (exists i :: 0 <= i < |es| && Matches(es[i], q))
              && (forall i :: 0 <= i < |es| && Matches(es[i], q) ==> Quote(es[i], q).Ok?)
  {
    var quotes := Quotes(es, q);
    BestIsGreatest(quotes, 0, None);
    assert forall i :: 0 <= i < |es| ==> (quotes[i].Some? <==> Matches(es[i], q));
    assert forall i :: 0 <= i < |es| && Matches(es[i], q) ==> quotes[i] == Some(Quote(es[i], q));
  }

  lemma SameQuotes(es: seq<Endpoint>, fs: seq<Endpoint>, q: Query, i: nat) returns (j: nat)
    requires q.tokens.gw <= q.tokens.uncached && multiset(es) == multiset(fs) && i < |es|
    ensures j < |fs| && fs[j] == es[i] && Quotes(fs, q)[j] == Quotes(es, q)[i]
  {
    assert es[i] in multiset(fs);
    j :| 0 <= j < |fs| && fs[j] == es[i];
  }

  lemma BestOfReordered(es: seq<Endpoint>, fs: seq<Endpoint>, q: Query, s: Side)
    requires q.tokens.gw <= q.tokens.uncached && multiset(es) == multiset(fs) && Best(Quotes(es, q), |es|, s)
    ensures Best(Quotes(fs, q), |fs|, s)
  {
    var i :| 0 <= i < |es| && Quotes(es, q)[i] == Some(Ok(s));
    var j := SameQuotes(es, fs, q, i);
    forall k | 0 <= k < |fs| && Quotes(fs, q)[k].Some?
      ensures Quotes(fs, q)[k].value.Ok? && Quotes(fs, q)[k].value.value.usd <= s.usd
    {
      var l := SameQuotes(fs, es, q, k);
    }
  }

  /** The dollars do not depend on the order the endpoints are listed in, nor does whether there are any. */
  lemma OrderDoesNotMatter(es: seq<Endpoint>, fs: seq<Endpoint>, q: Query)
    requires q.tokens.gw <= q.tokens.uncached && multiset(es) == multiset(fs)
    ensures Dearest(es, q).Ok? <==> Dearest(fs, q).Ok?
    ensures Dearest(es, q).Ok? ==> Dearest(es, q).value.usd == Dearest(fs, q).value.usd
  {
    BestIsGreatest(Quotes(es, q), 0, None);
    BestIsGreatest(Quotes(fs, q), 0, None);
    if Dearest(es, q).Ok? {
      BestOfReordered(es, fs, q, Dearest(es, q).value);
    }
    if Dearest(fs, q).Ok? {
      BestOfReordered(fs, es, q, Dearest(fs, q).value);
    }
  }

  // ---- The reported tier does depend on order ----

  lemma {:induction false} LeaderStays(quotes: seq<Option<Res<Side>>>, i: nat, s: Side)
    requires i <= |quotes| && AllAtMost(quotes, |quotes|, s.usd)
    ensures BestFrom(quotes, i, Some(s)) == Ok(s)
    decreases |quotes| - i
  {
    if i < |quotes| {
      LeaderStays(quotes, i + 1, s);
    }
  }

  function ToFront(es: seq<Endpoint>, i: nat): seq<Endpoint>
    requires i < |es|
  {
    [es[i]] + es[..i] + es[i + 1..]
  }

  /** Whichever of the dearest endpoints is listed first is the one reported. */
  lemma FirstOfEqualsIsReported(es: seq<Endpoint>, q: Query, i: nat, s: Side)
    requires q.tokens.gw <= q.tokens.uncached && i < |es|
    requires Quotes(es, q)[i] == Some(Ok(s)) && Best(Quotes(es, q), |es|, s)
    ensures multiset(ToFront(es, i)) == multiset(es)
    ensures Dearest(ToFront(es, i), q) == Ok(s)
  {
    var fs := ToFront(es, i);
    assert es == es[..i] + [es[i]] + es[i + 1..];
    BestOfReordered(es, fs, q, s);
    assert fs[0] == es[i];
    assert Quotes(fs, q)[0] == Some(Ok(s));
    LeaderStays(Quotes(fs, q), 1, s);
  }

  /** All the dearest endpoints are priced in the same context tier. */
  ghost predicate TierAgrees(es: seq<Endpoint>, q: Query)
    requires q.tokens.gw <= q.tokens.uncached
  {
    forall i, j :: 0 <= i < |es| && 0 <= j < |es| && Dear(es, q, i) && Dear(es, q, j) ==>
      Quotes(es, q)[i].value.value.long == Quotes(es, q)[j].value.value.long
  }

  ghost predicate Dear(es: seq<Endpoint>, q: Query, i: nat)
    requires q.tokens.gw <= q.tokens.uncached && i < |es|
  {
    Priced(Quotes(es, q)[i]) && AllAtMost(Quotes(es, q), |es|, Quotes(es, q)[i].value.value.usd)
  }

  ghost predicate TierIsOrderFree(es: seq<Endpoint>, q: Query)
    requires q.tokens.gw <= q.tokens.uncached
  {
    forall fs :: multiset(fs) == multiset(es) && Dearest(fs, q).Ok? && Dearest(es, q).Ok? ==>
      Dearest(fs, q).value.long == Dearest(es, q).value.long
  }

  lemma ReportedIsDear(es: seq<Endpoint>, fs: seq<Endpoint>, q: Query) returns (i: nat)
    requires q.tokens.gw <= q.tokens.uncached && multiset(fs) == multiset(es) && Dearest(fs, q).Ok?
    ensures i < |es| && Dear(es, q, i) && Quotes(es, q)[i] == Some(Ok(Dearest(fs, q).value))
  {
    BestIsGreatest(Quotes(fs, q), 0, None);
    BestOfReordered(fs, es, q, Dearest(fs, q).value);
    i :| 0 <= i < |es| && Quotes(es, q)[i] == Some(Ok(Dearest(fs, q).value));
  }

  /** The reported context tier is independent of the listing order if and only if the dearest endpoints agree
      on it. */
  lemma TierDependsOnTies(es: seq<Endpoint>, q: Query)
    requires q.tokens.gw <= q.tokens.uncached
    ensures TierIsOrderFree(es, q) <==> TierAgrees(es, q)
  {
    if TierAgrees(es, q) {
      forall fs | multiset(fs) == multiset(es) && Dearest(fs, q).Ok? && Dearest(es, q).Ok?
        ensures Dearest(fs, q).value.long == Dearest(es, q).value.long
      {
        var i := ReportedIsDear(es, fs, q);
        var j := ReportedIsDear(es, es, q);
      }
    }
    if TierIsOrderFree(es, q) {
      forall i, j | 0 <= i < |es| && 0 <= j < |es| && Dear(es, q, i) && Dear(es, q, j)
        ensures Quotes(es, q)[i].value.value.long == Quotes(es, q)[j].value.value.long
      {
        FirstOfEqualsIsReported(es, q, i, Quotes(es, q)[i].value.value);
        FirstOfEqualsIsReported(es, q, j, Quotes(es, q)[j].value.value);
        OrderDoesNotMatter(es, ToFront(es, i), q);
      }
    }
  }

  /** A bill whose remaining entries are all nothing. */
  lemma {:induction false} NothingMore(entries: seq<Entry>, i: nat, usd: real)
    requires i <= |entries| && forall j :: i <= j < |entries| ==> entries[j] == Entry(0.0, 0.0)
    ensures Bill(entries, i, usd) == Ok(usd)
    decreases |entries| - i
  {
    if i < |entries| {
      NothingMore(entries, i + 1, usd + 0.0);
    }
  }

  /** `n` prompt tokens, none of them cached. */
  function Fresh(n: nat): Tokens
  {
    Tokens(n, 0, 0, 0, 0, 0)
  }

  /** Such a prompt costs its input rate, and nothing else. */
  lemma FreshCharge(r: Rates, fees: map<string, real>, n: nat, usd: real)
    requires usd == n as real * r.input * PER && Fits(usd)
    ensures Charge(r, 1.0, fees, 1.0, Fresh(n), []) == Ok(usd)
  {
    var entries := TokenEntries(r, 1.0, Fresh(n)) + ToolEntries([], fees, 1.0);
    assert |entries| == 5 && entries[0] == Entry(usd, usd);
    assert forall j :: 1 <= j < |entries| ==> entries[j] == Entry(0.0, 0.0);
    NothingMore(entries, 1, 0.0 + usd);
  }

  lemma FreshSide(card: Card, n: nat, long: bool, r: Rates, usd: real)
    requires card.offPeak.None? && IsLong(card, Fresh(n)) == long && RatesFor(card, Standard, long) == Ok(r)
    requires usd == n as real * r.input * PER && Fits(usd)
    ensures SideOf(card, Fresh(n), [], Standard, false, 1.0, Ok(false)) == Ok(Side(usd, Standard, long))
  {
    FreshCharge(r, card.tools, n, usd);
  }

  const ONE_DOLLAR := Rates(1.0, 1.0, 1.0, None, 1.0)
  const LONG_ABOVE := LongContext(200_000, false)
  const FLAT := Endpoint(Standard, "a", ONE_DOLLAR, None, None)
  const TIERED := Endpoint(Standard, "b", ONE_DOLLAR, Some((ONE_DOLLAR, LONG_ABOVE)), None)
  const LONG_ROW := Query(Standard, None, Fresh(300_000), [], 1.0)

  lemma LongRowQuote(e: Endpoint, long: bool)
    requires e.standard == ONE_DOLLAR && (e.long.Some? ==> e.long.value == (ONE_DOLLAR, LONG_ABOVE)) && long == e.long.Some?
    ensures Quote(e, LONG_ROW) == Ok(Side(0.3, Standard, long))
  {
    var card := EndpointCard(e);
    assert RatesFor(card, Standard, long) == Ok(ONE_DOLLAR);
    FreshSide(card, 300_000, long, ONE_DOLLAR, 0.3);
  }

  /** Of two endpoints at one price the one listed first is reported. */
  lemma EarlierOfTwo(e: Endpoint, f: Endpoint, q: Query, x: Side, y: Side)
    requires q.tokens.gw <= q.tokens.uncached && Matches(e, q) && Matches(f, q) && x.usd == y.usd
    requires Quote(e, q) == Ok(x) && Quote(f, q) == Ok(y)
    ensures Dearest([e, f], q) == Ok(x)
  {
    var quotes := Quotes([e, f], q);
    assert quotes == [Some(Ok(x)), Some(Ok(y))];
    LeaderStays(quotes, 1, x);
  }

  /** The dependence is real: two endpoints at one price, one of them with a long tier at the same rates, and a
      prompt above its threshold. */
  lemma TierCanDependOnOrder()
    ensures Dearest([FLAT, TIERED], LONG_ROW) == Ok(Side(0.3, Standard, false))
    ensures Dearest([TIERED, FLAT], LONG_ROW) == Ok(Side(0.3, Standard, true))
  {
    var flat, tiered := Side(0.3, Standard, false), Side(0.3, Standard, true);
    LongRowQuote(FLAT, false);
    LongRowQuote(TIERED, true);
    EarlierOfTwo(FLAT, TIERED, LONG_ROW, flat, tiered);
    EarlierOfTwo(TIERED, FLAT, LONG_ROW, tiered, flat);
  }
}
