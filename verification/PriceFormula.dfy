/**
  A row's price as one formula in what the row says and what the table lists: which checks refuse it, in what
  order, and otherwise the dollars, with every number written out.
 */
module PriceFormula {
  import opened Prelude
  import opened Pricing
  import opened PricingProofs
  import opened Reconciliation

  // ---- The formula ----

  /** Input tokens that were neither read from the cache nor written to it by the provider. */
  function Uncached(u: Usage): int
  {
    if u.openAiWire then u.input - u.cacheRead - u.cacheWrite else u.input
  }

  predicate CountsAgree(u: Usage)
  {
    u.cacheWrite1h <= u.cacheWrite && 0 <= u.gatewayWrite <= Uncached(u)
  }

  /** The prompt is over the card's threshold, or at it if that counts. */
  predicate OverThreshold(card: Card, u: Usage)
  {
    card.longContext.Some? &&
    var prompt := Uncached(u) + u.cacheRead + u.cacheWrite;
    prompt > card.longContext.value.threshold
    || (prompt == card.longContext.value.threshold && card.longContext.value.inclusive)
  }

  /** The five token amounts, in dollars times a million: uncached input, cache reads, five-minute cache writes,
      the gateway's own among them, one-hour cache writes, output. */
  function Amounts(u: Usage, r: Rates): seq<real>
  {
    [(Uncached(u) - u.gatewayWrite) as real * r.input,
     u.cacheRead as real * r.cacheRead,
     (u.cacheWrite - u.cacheWrite1h + u.gatewayWrite) as real * r.cacheWrite,
     u.cacheWrite1h as real * (if r.cacheWrite1h.Some? then r.cacheWrite1h.value else 0.0),
     u.output as real * r.output]
  }

  function TokenDollars(u: Usage, r: Rates): real
  {
    var a := Amounts(u, r);
    (a[0] + a[1] + a[2] + a[3] + a[4]) / 1_000_000.0
  }

  /** Every tool's calls at its fee, but for calls in general. */
  function ToolDollars(uses: seq<ToolUse>, fees: map<string, real>): real
  {
    if uses == [] then 0.0
    else
      var last := uses[|uses| - 1];
      ToolDollars(uses[..|uses| - 1], fees)
      + (if last.kind != "tool_calls" && last.kind in fees then last.count as real * fees[last.kind] else 0.0)
  }

  /** Dollars that a hundred million of a millionth of a millionth of a millionth fit 128 bits. */
  predicate Small(usd: real)
  {
    usd * 100_000_000_000_000_000_000_000_000.0 < 340_282_366_920_938_463_463_374_607_431_768_211_456.0
  }

  // ---- Tokens and tools ----

  function TokensOf(u: Usage): Tokens
    requires CountsAgree(u)
  {
    Tokens(Uncached(u), u.gatewayWrite, u.cacheRead, u.cacheWrite - u.cacheWrite1h, u.cacheWrite1h, u.output)
  }

  lemma NormalizedIs(u: Usage)
    ensures Normalize(u) == if CountsAgree(u) then Ok(TokensOf(u)) else Err(InconsistentTokens)
  {
  }

  lemma FiveTimes(a: real, b: real, c: real, d: real, e: real, k: real)
    ensures a * k + b * k + c * k + d * k + e * k == (a + b + c + d + e) * k
  {
  }

  lemma PerMillion(x: real, m: real)
    ensures x * PER * m == x * (m / 1_000_000.0)
  {
  }

  /** The entries billed are those amounts. */
  lemma EntriesAre(u: Usage, r: Rates, m: real, i: nat)
    requires CountsAgree(u) && i < 5
    ensures var a := Amounts(u, r)[i];
            TokenEntries(r, m, TokensOf(u))[i] == Entry(a * PER, a * PER * m)
  {
    var t := TokensOf(u);
    assert t.uncached - t.gw == Uncached(u) - u.gatewayWrite;
    assert t.w5 + t.gw == u.cacheWrite - u.cacheWrite1h + u.gatewayWrite;
  }

  lemma TokenSum(u: Usage, r: Rates, m: real)
    requires CountsAgree(u)
    ensures Billed(TokenEntries(r, m, TokensOf(u))) == TokenDollars(u, r) * m
  {
    var es, a := TokenEntries(r, m, TokensOf(u)), Amounts(u, r);
    var k := m / 1_000_000.0;
    forall i | 0 <= i < 5 ensures Amount(es[i]) == a[i] * k {
      EntriesAre(u, r, m, i);
      PerMillion(a[i], m);
    }
    assert es == [es[0], es[1], es[2], es[3], es[4]];
    BilledOfFive(es[0], es[1], es[2], es[3], es[4]);
    FiveTimes(a[0], a[1], a[2], a[3], a[4], k);
    PerMillion(a[0] + a[1] + a[2] + a[3] + a[4], m);
  }

  lemma {:induction false} ToolSum(uses: seq<ToolUse>, fees: map<string, real>, fee: real)
    ensures Billed(ToolEntries(uses, fees, fee)) == ToolDollars(uses, fees) * fee
  {
    if uses != [] {
      var front, last := uses[..|uses| - 1], uses[|uses| - 1];
      ToolSum(front, fees, fee);
      assert ToolEntries(uses, fees, fee) == ToolEntries(front, fees, fee) + [ToolEntry(last, fees, fee)];
      BilledAppend(ToolEntries(front, fees, fee), [ToolEntry(last, fees, fee)]);
      OneBilled(ToolEntry(last, fees, fee));
    }
  }

  lemma OneBilled(e: Entry)
    ensures Billed([e]) == Amount(e)
  {
    assert [e][1..] == [];
  }

  // ---- What refuses a charge ----

  /** One of the five token amounts is too large. */
  predicate TokensTooMany(u: Usage, r: Rates)
  {
    exists i :: 0 <= i < 5 && !Small(Amounts(u, r)[i] / 1_000_000.0)
  }

  /** The first tool called that has no fee, or comes to too much. */
  function ToolRefusal(uses: seq<ToolUse>, fees: map<string, real>, i: nat): Option<Unpriced>
    requires i <= |uses|
    decreases |uses| - i
  {
    if i == |uses| then None
    else
      var use := uses[i];
      if use.count > 0 && use.kind != "tool_calls" && use.kind !in fees then Some(NoToolFee)
      else if use.count > 0 && use.kind != "tool_calls" && !Small(use.count as real * fees[use.kind]) then
        Some(Overflow)
      else ToolRefusal(uses, fees, i + 1)
  }

  lemma {:induction false} BillOfTools(all: seq<Entry>, uses: seq<ToolUse>, fees: map<string, real>, fee: real, i: nat,
                                       usd: real)
    requires i <= |uses| && |all| == 5 + |uses| && all[5..] == ToolEntries(uses, fees, fee)
    ensures var bill := Bill(all, 5 + i, usd);
            match ToolRefusal(uses, fees, i) case Some(e) => bill == Err(e) case None => bill.Ok?
    decreases |uses| - i
  {
    if i < |uses| {
      assert all[5 + i] == all[5..][i] == ToolEntry(uses[i], fees, fee);
      var more := if all[5 + i].Entry? then usd + all[5 + i].billed else usd;
      BillOfTools(all, uses, fees, fee, i + 1, more);
    }
  }

  lemma OneMore(all: seq<Entry>, i: nat, usd: real)
    requires i < |all| && all[i].Entry?
    ensures Bill(all, i, usd) == if Fits(all[i].checked) then Bill(all, i + 1, usd + all[i].billed) else Err(Overflow)
  {
  }

  lemma SmallIsFits(usd: real)
    ensures Small(usd) <==> Fits(usd)
  {
  }

  lemma PartIsSmall(u: Usage, r: Rates, m: real, i: nat)
    requires CountsAgree(u) && i < 5
    ensures var e := TokenEntries(r, m, TokensOf(u))[i];
            e.Entry? && (Fits(e.checked) <==> Small(Amounts(u, r)[i] / 1_000_000.0))
  {
    var a := Amounts(u, r)[i];
    EntriesAre(u, r, m, i);
    assert a * PER == a / 1_000_000.0;
    SmallIsFits(a / 1_000_000.0);
  }

  lemma PartsAreSmall(u: Usage, r: Rates, m: real)
    requires CountsAgree(u)
    ensures var es := TokenEntries(r, m, TokensOf(u));
            && (forall i :: 0 <= i < 5 ==> es[i].Entry?)
            && (TokensTooMany(u, r) <==> exists i :: 0 <= i < 5 && !Fits(es[i].checked))
  {
    var es := TokenEntries(r, m, TokensOf(u));
    forall i | 0 <= i < 5
      ensures es[i].Entry? && (Fits(es[i].checked) <==> Small(Amounts(u, r)[i] / 1_000_000.0))
    {
      PartIsSmall(u, r, m, i);
    }
  }

  lemma FiveMore(all: seq<Entry>)
    requires |all| >= 5 && forall i :: 0 <= i < 5 ==> all[i].Entry?
    ensures if exists i :: 0 <= i < 5 && !Fits(all[i].checked) then Bill(all, 0, 0.0) == Err(Overflow)
            else exists usd :: Bill(all, 0, 0.0) == Bill(all, 5, usd)
  {
    OneMore(all, 0, 0.0);
    var a := 0.0 + all[0].billed;
    OneMore(all, 1, a);
    var b := a + all[1].billed;
    OneMore(all, 2, b);
    var c := b + all[2].billed;
    OneMore(all, 3, c);
    var d := c + all[3].billed;
    OneMore(all, 4, d);
  }

  /** Tokens times the multiplier, tools times the fee. */
  function Dollars(u: Usage, r: Rates, m: real, uses: seq<ToolUse>, fees: map<string, real>, fee: real): real
  {
    TokenDollars(u, r) * m + ToolDollars(uses, fees) * fee
  }

  /** The whole charge at given rates, multiplier and fee. */
  function ChargeFormula(u: Usage, r: Rates, m: real, uses: seq<ToolUse>, fees: map<string, real>, fee: real): Res<real>
  {
    var usd := Dollars(u, r, m, uses, fees, fee);
    if TokensTooMany(u, r) then Err(Overflow)
    else if ToolRefusal(uses, fees, 0).Some? then Err(ToolRefusal(uses, fees, 0).value)
    else if Small(usd) then Ok(usd) else Err(Overflow)
  }

  lemma BillIs(u: Usage, r: Rates, m: real, uses: seq<ToolUse>, fees: map<string, real>, fee: real)
    requires CountsAgree(u)
    ensures var bill := Bill(TokenEntries(r, m, TokensOf(u)) + ToolEntries(uses, fees, fee), 0, 0.0);
            if TokensTooMany(u, r) then bill == Err(Overflow)
            else if ToolRefusal(uses, fees, 0).Some? then bill == Err(ToolRefusal(uses, fees, 0).value)
            else bill.Ok?
  {
    var tokens, tools := TokenEntries(r, m, TokensOf(u)), ToolEntries(uses, fees, fee);
    var all := tokens + tools;
    PartsAreSmall(u, r, m);
    assert forall i :: 0 <= i < 5 ==> all[i] == tokens[i];
    assert all[5..] == tools;
    FiveMore(all);
    if !TokensTooMany(u, r) {
      var usd :| Bill(all, 0, 0.0) == Bill(all, 5, usd);
      BillOfTools(all, uses, fees, fee, 0, usd);
    }
  }

  lemma BillOfBoth(tokens: seq<Entry>, tools: seq<Entry>, x: real, y: real)
    requires x == Billed(tokens) && y == Billed(tools)
    ensures Bill(tokens + tools, 0, 0.0).Ok? ==> Bill(tokens + tools, 0, 0.0).value == x + y
  {
    if Bill(tokens + tools, 0, 0.0).Ok? {
      BillIsSum(tokens + tools, 0, 0.0);
      assert (tokens + tools)[0..] == tokens + tools;
      BilledAppend(tokens, tools);
    }
  }

  lemma BillAddsUp(u: Usage, r: Rates, m: real, uses: seq<ToolUse>, fees: map<string, real>, fee: real)
    requires CountsAgree(u)
    ensures var bill := Bill(TokenEntries(r, m, TokensOf(u)) + ToolEntries(uses, fees, fee), 0, 0.0);
            bill.Ok? ==> bill.value == Dollars(u, r, m, uses, fees, fee)
  {
    TokenSum(u, r, m);
    ToolSum(uses, fees, fee);
    BillOfBoth(TokenEntries(r, m, TokensOf(u)), ToolEntries(uses, fees, fee),
               TokenDollars(u, r) * m, ToolDollars(uses, fees) * fee);
  }

  lemma ChargeIs(u: Usage, r: Rates, m: real, uses: seq<ToolUse>, fees: map<string, real>, fee: real)
    requires CountsAgree(u)
    ensures Charge(r, m, fees, fee, TokensOf(u), uses) == ChargeFormula(u, r, m, uses, fees, fee)
  {
    BillIs(u, r, m, uses, fees, fee);
    BillAddsUp(u, r, m, uses, fees, fee);
    SmallIsFits(Dollars(u, r, m, uses, fees, fee));
  }

  // ---- One side ----

  /** Standard-hours rows of a card with off-peak rates ask the calendar, unless the prompt is long. */
  predicate AsksCalendar(card: Card, u: Usage, cls: Class)
  {
    cls == Standard && card.offPeak.Some? && !OverThreshold(card, u)
  }

  function ListedRates(card: Card, u: Usage, cls: Class, offPeak: bool): Option<Rates>
  {
    if offPeak then card.offPeak
    else if Tier(cls, OverThreshold(card, u)) in card.tiers then Some(card.tiers[Tier(cls, OverThreshold(card, u))])
    else None
  }

  /** The multiplier on tokens: the card's own for rows served in the United States, and the fee. */
  function Factor(card: Card, us: bool, fee: real): real
    requires us ==> card.geoUs.Some?
  {
    if us then card.geoUs.value * fee else fee
  }

  /** A side in what the row and the card say: the first reason to refuse it, or its dollars, with the card's
      multiplier for rows served in the United States on tokens only and the fee on everything. */
  function SideFormula(card: Card, u: Usage, uses: seq<ToolUse>, cls: Class, us: bool, fee: real, calendar: Res<bool>)
    : Res<Side>
  {
    var asks := AsksCalendar(card, u, cls);
    if asks && calendar.Err? then Err(calendar.error)
    else
      var offPeak := asks && calendar.value;
      var rates := ListedRates(card, u, cls, offPeak);
      if rates.None? then Err(NoRate)
      else if us && card.geoUs.None? then Err(UnknownGeo)
      else if u.cacheWrite1h > 0 && rates.value.cacheWrite1h.None? then Err(NoRate)
      else
        match ChargeFormula(u, rates.value, Factor(card, us, fee), uses, card.tools, fee)
        case Err(e) => Err(e)
        case Ok(usd) => Ok(Side(usd, if offPeak then OffPeak else cls, OverThreshold(card, u)))
  }

  lemma LongIs(card: Card, u: Usage)
    requires CountsAgree(u)
    ensures IsLong(card, TokensOf(u)) <==> OverThreshold(card, u)
  {
  }

  /** Which rates and multiplier a side is charged at, or why there are none. */
  lemma SidePicks(card: Card, u: Usage, cls: Class, us: bool, fee: real, calendar: Res<bool>)
    requires CountsAgree(u) && cls != OffPeak
    ensures IsLong(card, TokensOf(u)) <==> OverThreshold(card, u)
    ensures AsksCalendar(card, u, cls) && calendar.Err? ==>
              PricedClass(card, TokensOf(u), cls, calendar) == Err(calendar.error)
    ensures !(AsksCalendar(card, u, cls) && calendar.Err?) ==>
              var offPeak := AsksCalendar(card, u, cls) && calendar.value;
              var priced := if offPeak then OffPeak else cls;
              && PricedClass(card, TokensOf(u), cls, calendar) == Ok(priced)
              && match ListedRates(card, u, cls, offPeak)
                 case Some(r) => RatesFor(card, priced, OverThreshold(card, u)) == Ok(r)
                 case None => RatesFor(card, priced, OverThreshold(card, u)) == Err(NoRate)
    ensures us && card.geoUs.None? ==> Multiplier(card, us, fee) == Err(UnknownGeo)
    ensures !(us && card.geoUs.None?) ==>
              Multiplier(card, us, fee).Ok? && Multiplier(card, us, fee).value == Factor(card, us, fee)
  {
    LongIs(card, u);
  }

  lemma SideIs(card: Card, u: Usage, uses: seq<ToolUse>, cls: Class, us: bool, fee: real, calendar: Res<bool>)
    requires CountsAgree(u) && cls != OffPeak
    ensures SideOf(card, TokensOf(u), uses, cls, us, fee, calendar)
            == SideFormula(card, u, uses, cls, us, fee, calendar)
  {
    SidePicks(card, u, cls, us, fee, calendar);
    var asks := AsksCalendar(card, u, cls);
    if !(asks && calendar.Err?) {
      var offPeak := asks && calendar.value;
      var rates := ListedRates(card, u, cls, offPeak);
      if rates.Some? && !(us && card.geoUs.None?) && !(u.cacheWrite1h > 0 && rates.value.cacheWrite1h.None?) {
        var m := Factor(card, us, fee);
        assert Multiplier(card, us, fee) == Ok(m);
        SideIsCharge(card, Metered(TokensOf(u), uses), cls, us, fee, calendar, if offPeak then OffPeak else cls,
                     OverThreshold(card, u), rates.value, m);
        ChargeIs(u, rates.value, m, uses, card.tools, fee);
        assert SideFormula(card, u, uses, cls, us, fee, calendar)
               == match ChargeFormula(u, rates.value, m, uses, card.tools, fee)
                  case Err(e) => Err(e)
                  case Ok(usd) => Ok(Side(usd, if offPeak then OffPeak else cls, OverThreshold(card, u)));
      }
    }
  }
}
