/** Pricing a provider's totals against the sum of the rows that make them up. */
module Reconciliation {
  import opened Prelude
  import opened Pricing
  import opened PricingProofs

  // ---- A total is refused for nothing its rows were not ----

  lemma {:induction false} RefusedFor(entries: seq<Entry>, i: nat, usd: real)
    requires i <= |entries| && Bill(entries, i, usd).Err?
    ensures Bill(entries, i, usd).error == Overflow || exists j :: i <= j < |entries| && entries[j].NoFee?
    decreases |entries| - i
  {
    if entries[i].Nothing? {
      RefusedFor(entries, i + 1, usd);
    } else if entries[i].Entry? && Fits(entries[i].checked) {
      RefusedFor(entries, i + 1, usd + entries[i].billed);
    }
  }

  lemma {:induction false} BilledHasFees(entries: seq<Entry>, i: nat, usd: real)
    requires i <= |entries| && Bill(entries, i, usd).Ok?
    ensures forall j :: i <= j < |entries| ==> !entries[j].NoFee?
    decreases |entries| - i
  {
    if i < |entries| {
      BilledHasFees(entries, i + 1, usd + Amount(entries[i]));
    }
  }

  /** Every tool of a charge that succeeds, and is called at all, has a fee. */
  predicate HasFee(u: ToolUse, fees: map<string, real>)
  {
    u.count == 0 || u.kind == "tool_calls" || u.kind in fees
  }

  lemma ChargedHasFees(r: Rates, m: real, fees: map<string, real>, fee: real, t: Tokens, uses: seq<ToolUse>)
    requires t.gw <= t.uncached && Charge(r, m, fees, fee, t, uses).Ok?
    ensures forall j :: 0 <= j < |uses| ==> HasFee(uses[j], fees)
  {
    var tokens, tools := TokenEntries(r, m, t), ToolEntries(uses, fees, fee);
    BilledHasFees(tokens + tools, 0, 0.0);
    forall j | 0 <= j < |uses| ensures HasFee(uses[j], fees) {
      assert (tokens + tools)[|tokens| + j] == tools[j];
    }
  }

  lemma ChargeOverflows(r: Rates, m: real, fees: map<string, real>, fee: real, t: Tokens, uses: seq<ToolUse>)
    requires t.gw <= t.uncached && forall j :: 0 <= j < |uses| ==> HasFee(uses[j], fees)
    ensures Charge(r, m, fees, fee, t, uses).Err? ==> Charge(r, m, fees, fee, t, uses).error == Overflow
  {
    var tokens, tools := TokenEntries(r, m, t), ToolEntries(uses, fees, fee);
    var entries := tokens + tools;
    forall j | 0 <= j < |entries| ensures !entries[j].NoFee? {
      if j >= |tokens| {
        assert entries[j] == tools[j - |tokens|] && HasFee(uses[j - |tokens|], fees);
      }
    }
    if Bill(entries, 0, 0.0).Err? {
      RefusedFor(entries, 0, 0.0);
    }
  }

  lemma {:induction false} CountedIsUsed(uses: seq<ToolUse>, kind: string)
    requires CountOf(uses, kind) > 0
    ensures exists j :: 0 <= j < |uses| && uses[j].kind == kind && uses[j].count > 0
  {
    if uses[0].kind != kind || uses[0].count == 0 {
      CountedIsUsed(uses[1..], kind);
      var j :| 0 <= j < |uses[1..]| && uses[1..][j].kind == kind && uses[1..][j].count > 0;
      assert uses[j + 1] == uses[1..][j];
    }
  }

  lemma {:induction false} UsedIsCounted(uses: seq<ToolUse>, j: nat)
    requires j < |uses|
    ensures CountOf(uses, uses[j].kind) >= uses[j].count
  {
    if j > 0 {
      UsedIsCounted(uses[1..], j - 1);
    }
  }

  lemma {:induction false} UsedInARow(rows: seq<Metered>, j: nat) returns (i: nat, k: nat)
    requires j < |AllUses(rows)|
    ensures i < |rows| && k < |rows[i].uses| && rows[i].uses[k] == AllUses(rows)[j]
  {
    if j < |rows[0].uses| {
      i, k := 0, j;
    } else {
      i, k := UsedInARow(rows[1..], j - |rows[0].uses|);
      i := i + 1;
    }
  }

  ghost predicate RowsHaveFees(rows: seq<Metered>, fees: map<string, real>)
  {
    forall i, k :: 0 <= i < |rows| && 0 <= k < |rows[i].uses| ==> HasFee(rows[i].uses[k], fees)
  }

  lemma TotalHasFees(total: Metered, rows: seq<Metered>, kinds: seq<string>, fees: map<string, real>)
    requires IsTotal(total, rows, kinds) && RowsHaveFees(rows, fees)
    ensures forall j :: 0 <= j < |total.uses| ==> HasFee(total.uses[j], fees)
  {
    forall j | 0 <= j < |total.uses| ensures HasFee(total.uses[j], fees) {
      var u := total.uses[j];
      if u.count > 0 {
        UsedIsCounted(total.uses, j);
        CountedIsUsed(AllUses(rows), u.kind);
        var k :| 0 <= k < |AllUses(rows)| && AllUses(rows)[k].kind == u.kind && AllUses(rows)[k].count > 0;
        var i, l := UsedInARow(rows, k);
        assert HasFee(rows[i].uses[l], fees);
      }
    }
  }

  lemma {:induction false} OneHourInARow(rows: seq<Metered>) returns (i: nat)
    requires TotalTokens(rows).w1 > 0
    ensures i < |rows| && rows[i].tokens.w1 > 0
  {
    if rows[0].tokens.w1 > 0 {
      i := 0;
    } else {
      i := OneHourInARow(rows[1..]);
      i := i + 1;
    }
  }

  // ---- The sum law ----

  /** What a priced row had to have. */
  lemma SideHad(card: Card, row: Metered, cls: Class, geoUs: bool, fee: real, calendar: Res<bool>, s: Side)
    requires row.tokens.gw <= row.tokens.uncached
    requires SideOf(card, row.tokens, row.uses, cls, geoUs, fee, calendar) == Ok(s)
    ensures RatesFor(card, s.cls, s.long).Ok? && Multiplier(card, geoUs, fee).Ok?
    ensures row.tokens.w1 > 0 ==> RatesFor(card, s.cls, s.long).value.cacheWrite1h.Some?
    ensures forall k :: 0 <= k < |row.uses| ==> HasFee(row.uses[k], card.tools)
  {
    ChargedHasFees(RatesFor(card, s.cls, s.long).value, Multiplier(card, geoUs, fee).value, card.tools, fee,
                   row.tokens, row.uses);
  }

  /** Rows priced one by one, and their total. */
  ghost predicate Reconciles(card: Card, rows: seq<Metered>, cls: Class, geoUs: bool, fee: real,
                             calendars: seq<Res<bool>>, priced: Class, long: bool, sides: seq<Side>,
                             kinds: seq<string>, total: Metered)
  {
    && rows != [] && PricedAlike(card, rows, cls, geoUs, fee, calendars, priced, long, sides)
    && Distinct(kinds) && Sane(rows, kinds) && IsTotal(total, rows, kinds)
  }

  lemma TotalIsSane(rows: seq<Metered>, kinds: seq<string>, total: Metered)
    requires Sane(rows, kinds) && IsTotal(total, rows, kinds)
    ensures total.tokens.gw <= total.tokens.uncached
  {
    RowsAddUp(Rates(0.0, 0.0, 0.0, None, 0.0), 0.0, map[], 0.0, rows, kinds);
  }

  lemma RowsHad(card: Card, rows: seq<Metered>, cls: Class, geoUs: bool, fee: real, calendars: seq<Res<bool>>,
                priced: Class, long: bool, sides: seq<Side>)
    requires rows != [] && PricedAlike(card, rows, cls, geoUs, fee, calendars, priced, long, sides)
    ensures RatesFor(card, priced, long).Ok? && Multiplier(card, geoUs, fee).Ok? && RowsHaveFees(rows, card.tools)
    ensures TotalTokens(rows).w1 > 0 ==> RatesFor(card, priced, long).value.cacheWrite1h.Some?
  {
    forall i | 0 <= i < |rows|
      ensures RatesFor(card, priced, long).Ok? && Multiplier(card, geoUs, fee).Ok?
      ensures rows[i].tokens.w1 > 0 ==> RatesFor(card, priced, long).value.cacheWrite1h.Some?
      ensures forall k :: 0 <= k < |rows[i].uses| ==> HasFee(rows[i].uses[k], card.tools)
    {
      SideHad(card, rows[i], cls, geoUs, fee, calendars[i], sides[i]);
    }
    assert 0 < |rows|;
    if TotalTokens(rows).w1 > 0 {
      var i := OneHourInARow(rows);
    }
  }

  /** A side is the charge at the rates and multiplier it is priced with. */
  lemma SideIsCharge(card: Card, row: Metered, cls: Class, geoUs: bool, fee: real, calendar: Res<bool>,
                     priced: Class, long: bool, r: Rates, m: real)
    requires row.tokens.gw <= row.tokens.uncached
    requires IsLong(card, row.tokens) == long && PricedClass(card, row.tokens, cls, calendar) == Ok(priced)
    requires RatesFor(card, priced, long) == Ok(r) && Multiplier(card, geoUs, fee) == Ok(m)
    requires row.tokens.w1 > 0 ==> r.cacheWrite1h.Some?
    ensures var c := Charge(r, m, card.tools, fee, row.tokens, row.uses);
            SideOf(card, row.tokens, row.uses, cls, geoUs, fee, calendar)
            == if c.Ok? then Ok(Side(c.value, priced, long)) else Err(c.error)
  {
  }

  lemma TotalCharge(r: Rates, m: real, fees: map<string, real>, fee: real, total: Metered, rows: seq<Metered>,
                    kinds: seq<string>)
    requires Distinct(kinds) && Sane(rows, kinds) && IsTotal(total, rows, kinds) && RowsHaveFees(rows, fees)
    ensures total.tokens.gw <= total.tokens.uncached
    ensures var c := Charge(r, m, fees, fee, total.tokens, total.uses);
            c == Ok(RowsUsd(r, m, fees, fee, rows, kinds)) || c == Err(Overflow)
  {
    TotalIsSane(rows, kinds, total);
    TotalHasFees(total, rows, kinds, fees);
    ChargeOverflows(r, m, fees, fee, total.tokens, total.uses);
    if Charge(r, m, fees, fee, total.tokens, total.uses).Ok? {
      ChargeIsSum(r, m, fees, fee, total.tokens, total.uses);
      TotalIsSum(r, m, fees, fee, total, rows, kinds);
    }
  }

  /** Rows that all fell in one class and tier, with totals that fall in it too: the totals cost exactly the sum
      of the rows, unless that is too much to bill at all. */
  lemma SummedUsageCostsTheSum(
    card: Card, rows: seq<Metered>, cls: Class, geoUs: bool, fee: real, calendars: seq<Res<bool>>,
    priced: Class, long: bool, sides: seq<Side>, kinds: seq<string>, total: Metered, calendar: Res<bool>)
    requires Reconciles(card, rows, cls, geoUs, fee, calendars, priced, long, sides, kinds, total)
    requires IsLong(card, total.tokens) == long && PricedClass(card, total.tokens, cls, calendar) == Ok(priced)
    ensures total.tokens.gw <= total.tokens.uncached
    ensures var s := SideOf(card, total.tokens, total.uses, cls, geoUs, fee, calendar);
            s == Ok(Side(SumUsd(sides), priced, long)) || s == Err(Overflow)
  {
    RowsHad(card, rows, cls, geoUs, fee, calendars, priced, long, sides);
    var r, m := RatesFor(card, priced, long).value, Multiplier(card, geoUs, fee).value;
    TotalCharge(r, m, card.tools, fee, total, rows, kinds);
    SidesAreRowsUsd(card, rows, cls, geoUs, fee, calendars, priced, long, sides, kinds, r, m);
    SideIsCharge(card, total, cls, geoUs, fee, calendar, priced, long, r, m);
  }

  /** The dollars of the totals at the rates of the rows are the sum of the rows. */
  lemma TotalsAtRowRates(
    card: Card, rows: seq<Metered>, cls: Class, geoUs: bool, fee: real, calendars: seq<Res<bool>>,
    priced: Class, long: bool, sides: seq<Side>, kinds: seq<string>, total: Metered)
    requires Reconciles(card, rows, cls, geoUs, fee, calendars, priced, long, sides, kinds, total)
    ensures total.tokens.gw <= total.tokens.uncached
    ensures RatesFor(card, priced, long).Ok? && Multiplier(card, geoUs, fee).Ok?
    ensures RowUsd(RatesFor(card, priced, long).value, Multiplier(card, geoUs, fee).value, card.tools, fee, total)
            == SumUsd(sides)
  {
    RowsHad(card, rows, cls, geoUs, fee, calendars, priced, long, sides);
    var r, m := RatesFor(card, priced, long).value, Multiplier(card, geoUs, fee).value;
    TotalIsSum(r, m, card.tools, fee, total, rows, kinds);
    SidesAreRowsUsd(card, rows, cls, geoUs, fee, calendars, priced, long, sides, kinds, r, m);
  }

  /** The rates the totals fall under, by their tokens and the calendar. */
  function RatesOfTotal(card: Card, total: Metered, cls: Class, calendar: Res<bool>): Res<Rates>
  {
    match PricedClass(card, total.tokens, cls, calendar)
    case Err(e) => Err(e)
    case Ok(c) => RatesFor(card, c, IsLong(card, total.tokens))
  }

  /** Whatever class and tier the totals fall in: they cost the sum of the rows if and only if their tokens come
      to the same at its rates as at the rows'. */
  lemma SumLawExactly(
    card: Card, rows: seq<Metered>, cls: Class, geoUs: bool, fee: real, calendars: seq<Res<bool>>,
    priced: Class, long: bool, sides: seq<Side>, kinds: seq<string>, total: Metered, calendar: Res<bool>, s: Side)
    requires Reconciles(card, rows, cls, geoUs, fee, calendars, priced, long, sides, kinds, total)
    requires total.tokens.gw <= total.tokens.uncached
    requires SideOf(card, total.tokens, total.uses, cls, geoUs, fee, calendar) == Ok(s)
    ensures RatesFor(card, priced, long).Ok? && RatesOfTotal(card, total, cls, calendar).Ok?
    ensures Multiplier(card, geoUs, fee).Ok?
    ensures var m := Multiplier(card, geoUs, fee).value;
            s.usd == SumUsd(sides) <==>
            Billed(TokenEntries(RatesOfTotal(card, total, cls, calendar).value, m, total.tokens))
            == Billed(TokenEntries(RatesFor(card, priced, long).value, m, total.tokens))
  {
    TotalsAtRowRates(card, rows, cls, geoUs, fee, calendars, priced, long, sides, kinds, total);
    SideIsRowUsd(card, total, cls, geoUs, fee, calendar);
  }

  // ---- Totals at higher rates ----

  /** The five rates, and the tokens each is charged on. */
  function Prices(r: Rates): seq<real>
  {
    [r.input, r.cacheRead, r.cacheWrite, if r.cacheWrite1h.Some? then r.cacheWrite1h.value else 0.0, r.output]
  }

  function Counts(t: Tokens): seq<int>
  {
    [t.uncached - t.gw, t.read, t.w5 + t.gw, t.w1, t.out]
  }

  predicate NoRateLower(low: Rates, high: Rates)
  {
    forall i :: 0 <= i < 5 ==> Prices(low)[i] <= Prices(high)[i]
  }

  predicate SomeRateHigher(low: Rates, high: Rates, t: Tokens)
  {
    exists i :: 0 <= i < 5 && Prices(low)[i] < Prices(high)[i] && Counts(t)[i] > 0
  }

  lemma Scaled(x: real, y: real, k: real)
    requires k > 0.0
    ensures x <= y ==> x * k <= y * k
    ensures x < y ==> x * k < y * k
  {
  }

  lemma EntryGrows(count: int, low: real, high: real, m: real)
    requires count >= 0 && low <= high && m > 0.0
    ensures Amount(TokenEntry(count, low, m)) <= Amount(TokenEntry(count, high, m))
    ensures count > 0 && low < high ==> Amount(TokenEntry(count, low, m)) < Amount(TokenEntry(count, high, m))
  {
    if count > 0 {
      Scaled(low, high, count as real);
    }
    Scaled(count as real * low * PER, count as real * high * PER, m);
  }

  lemma BilledOfFive(a: Entry, b: Entry, c: Entry, d: Entry, e: Entry)
    ensures Billed([a, b, c, d, e]) == Amount(a) + Amount(b) + Amount(c) + Amount(d) + Amount(e)
  {
    assert [e][1..] == [] && Billed([e]) == Amount(e);
    assert [d, e][1..] == [e] && Billed([d, e]) == Amount(d) + Billed([e]);
    assert [c, d, e][1..] == [d, e] && Billed([c, d, e]) == Amount(c) + Billed([d, e]);
    assert [b, c, d, e][1..] == [c, d, e] && Billed([b, c, d, e]) == Amount(b) + Billed([c, d, e]);
    assert [a, b, c, d, e][1..] == [b, c, d, e];
  }

  lemma BilledIs(r: Rates, m: real, t: Tokens)
    requires t.gw <= t.uncached
    ensures var p, n := Prices(r), Counts(t);
            Billed(TokenEntries(r, m, t)) ==
            Amount(TokenEntry(n[0], p[0], m)) + Amount(TokenEntry(n[1], p[1], m)) + Amount(TokenEntry(n[2], p[2], m))
            + Amount(TokenEntry(n[3], p[3], m)) + Amount(TokenEntry(n[4], p[4], m))
  {
    var p, n := Prices(r), Counts(t);
    BilledOfFive(TokenEntry(n[0], p[0], m), TokenEntry(n[1], p[1], m), TokenEntry(n[2], p[2], m),
                 TokenEntry(n[3], p[3], m), TokenEntry(n[4], p[4], m));
  }

  lemma BilledGrows(low: Rates, high: Rates, m: real, t: Tokens)
    requires t.gw <= t.uncached && m > 0.0 && NoRateLower(low, high) && SomeRateHigher(low, high, t)
    ensures Billed(TokenEntries(low, m, t)) < Billed(TokenEntries(high, m, t))
  {
    BilledIs(low, m, t);
    BilledIs(high, m, t);
    var p, q, n := Prices(low), Prices(high), Counts(t);
    forall i | 0 <= i < 5
      ensures Amount(TokenEntry(n[i], p[i], m)) <= Amount(TokenEntry(n[i], q[i], m))
      ensures n[i] > 0 && p[i] < q[i] ==> Amount(TokenEntry(n[i], p[i], m)) < Amount(TokenEntry(n[i], q[i], m))
    {
      EntryGrows(n[i], p[i], q[i], m);
    }
  }

  /** Totals that cross into rates none of which is lower, and one of which is higher for tokens there are, cost
      strictly more than the rows. */
  lemma CrossingCostsMore(
    card: Card, rows: seq<Metered>, cls: Class, geoUs: bool, fee: real, calendars: seq<Res<bool>>,
    priced: Class, long: bool, sides: seq<Side>, kinds: seq<string>, total: Metered, calendar: Res<bool>, s: Side,
    low: Rates, high: Rates, m: real)
    requires Reconciles(card, rows, cls, geoUs, fee, calendars, priced, long, sides, kinds, total)
    requires total.tokens.gw <= total.tokens.uncached
    requires SideOf(card, total.tokens, total.uses, cls, geoUs, fee, calendar) == Ok(s)
    requires RatesFor(card, priced, long) == Ok(low) && RatesOfTotal(card, total, cls, calendar) == Ok(high)
    requires Multiplier(card, geoUs, fee) == Ok(m) && m > 0.0
    requires NoRateLower(low, high) && SomeRateHigher(low, high, total.tokens)
    ensures s.usd > SumUsd(sides)
  {
    TotalsAtRowRates(card, rows, cls, geoUs, fee, calendars, priced, long, sides, kinds, total);
    SideIsRowUsd(card, total, cls, geoUs, fee, calendar);
    BilledGrows(low, high, m, total.tokens);
  }

  /** The claim the totals are held to: at most one micro-dollar per row, and in fact half of one. */
  lemma ReconciledWithinOnePerRow(
    card: Card, rows: seq<Metered>, cls: Class, geoUs: bool, fee: real, calendars: seq<Res<bool>>,
    priced: Class, long: bool, sides: seq<Side>, kinds: seq<string>, total: Metered, calendar: Res<bool>, s: Side)
    requires Reconciles(card, rows, cls, geoUs, fee, calendars, priced, long, sides, kinds, total)
    requires IsLong(card, total.tokens) == long && PricedClass(card, total.tokens, cls, calendar) == Ok(priced)
    requires total.tokens.gw <= total.tokens.uncached
    requires SideOf(card, total.tokens, total.uses, cls, geoUs, fee, calendar) == Ok(s)
    ensures -|rows| <= 2 * (Rounded(s.usd) - SumRounded(sides)) <= |rows|
    ensures Micros(s.usd) == Ok(Rounded(s.usd))
    ensures forall i :: 0 <= i < |sides| ==> Micros(sides[i].usd) == Ok(Rounded(sides[i].usd))
  {
    SummedUsageCostsTheSum(card, rows, cls, geoUs, fee, calendars, priced, long, sides, kinds, total, calendar);
    RoundingDrift(sides);
    SideIsRowUsd(card, total, cls, geoUs, fee, calendar);
    FitsMeansMicros(s.usd);
    forall i | 0 <= i < |sides| ensures Micros(sides[i].usd) == Ok(Rounded(sides[i].usd)) {
      SideIsRowUsd(card, rows[i], cls, geoUs, fee, calendars[i]);
      FitsMeansMicros(sides[i].usd);
    }
  }

  // ---- Totals that cross the threshold ----

  const TWO_DOLLARS := Rates(2.0, 2.0, 2.0, None, 2.0)
  const LONGER_IS_DEARER :=
    Card(map[Tier(Standard, false) := ONE_DOLLAR, Tier(Standard, true) := TWO_DOLLARS], Some(LONG_ABOVE),
         None, None, map[])

  const SHORT := Side(0.15, Standard, false)
  const TOTAL := Side(0.6, Standard, true)

  /** A prompt of `n` tokens on that card. */
  function PriceOf(n: nat): Res<Side>
  {
    SideOf(LONGER_IS_DEARER, Fresh(n), [], Standard, false, 1.0, Ok(false))
  }

  lemma ShortRow()
    ensures PriceOf(150_000) == Ok(SHORT)
  {
    FreshSide(LONGER_IS_DEARER, 150_000, false, ONE_DOLLAR, 0.15);
  }

  lemma LongTotal()
    ensures PriceOf(300_000) == Ok(TOTAL)
  {
    FreshSide(LONGER_IS_DEARER, 300_000, true, TWO_DOLLARS, 0.6);
  }

  lemma CrossingDrift()
    ensures SumUsd([SHORT, SHORT]) == 0.3 && Rounded(TOTAL.usd) - SumRounded([SHORT, SHORT]) == 300_000
  {
    assert [SHORT, SHORT][1..] == [SHORT] && [SHORT][1..] == [];
    assert SumUsd([SHORT]) == 0.15 && Rounded(0.15) == 150_000 && SumRounded([SHORT]) == 150_000;
  }

  /** Two rows of 150,000 tokens come to thirty cents; their total, above the threshold of 200,000, to sixty. */
  lemma TotalsCanCrossTheThreshold(rows: Res<Side>, total: Res<Side>)
    requires rows == PriceOf(150_000) && total == PriceOf(150_000 + 150_000)
    ensures rows.Ok? && total.Ok? && total.value.usd != SumUsd([rows.value, rows.value])
    ensures Rounded(total.value.usd) - SumRounded([rows.value, rows.value]) == 300_000
  {
    assert rows == Ok(SHORT) by {
      ShortRow();
    }
    assert total == Ok(TOTAL) by {
      LongTotal();
    }
    CrossingDrift();
  }
}
