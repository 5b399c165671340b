/** Transaction costs (`fees.py`): dated rates, one leg's charges, and what splitting an order into fills costs. */
module Fees {
  import opened Symbology
  import opened Providers
  import opened Orders
  import opened Wrappers

  /** One period's rates, as fractions of turnover; the brokerage is flat. */
  datatype Rates = Rates(
    sttSell: real, exchange: real, sebi: real, stampBuy: real, gst: real, brokerageFlat: real)

  datatype Period = Period(start: Date, end: Date, rates: Rates)

  predicate Covers(p: Period, on: Date)
  {
    !DateLess(on, p.start) && !DateLess(p.end, on)
  }

  /** A period covers its first day, its last, and every day between. */
  lemma {:induction false} PeriodsCoverTheirEnds(p: Period, on: Date)
    requires !DateLess(p.end, p.start)
    ensures Covers(p, on) <==> on == p.start || on == p.end || (DateLess(p.start, on) && DateLess(on, p.end))
  {
    hide ValidDate;
  }

  /** The first period that covers a date; None raises. */
  function RatesOn(table: seq<Period>, on: Date): (r: Maybe<Rates>)
    ensures r.None? <==> forall i :: 0 <= i < |table| ==> !Covers(table[i], on)
    ensures r.Some? ==> exists i ::
      0 <= i < |table| && Covers(table[i], on) && r.value == table[i].rates
      && forall j :: 0 <= j < i ==> !Covers(table[j], on)
  {
    if table == [] then None
    else if Covers(table[0], on) then Some(table[0].rates)
    else
      var rest := RatesOn(table[1..], on);
      assert forall i :: 0 < i < |table| ==> table[i] == table[1..][i - 1];
      assert rest.Some? ==> exists i ::
        0 < i < |table| && Covers(table[i], on) && rest.value == table[i].rates
        && forall j :: 0 <= j < i ==> !Covers(table[j], on) by
      {
        if rest.Some? {
          var i :| 0 <= i < |table[1..]| && Covers(table[1..][i], on) && rest.value == table[1..][i].rates
            && forall j :: 0 <= j < i ==> !Covers(table[1..][j], on);
          assert Covers(table[i + 1], on) && rest.value == table[i + 1].rates;
        }
      }
      rest
  }

  datatype CostBreakdown = CostBreakdown(
    stt: real, brokerage: real, exchange: real, sebi: real, stamp: real, gst: real)
  {
    function Total(): real
    {
      stt + brokerage + exchange + sebi + stamp + gst
    }
  }

  /** `leg_cost`, of a turnover: sales pay the transaction tax, purchases the stamp, services the GST. */
  function CostOf(r: Rates, side: Side, turnover: real): CostBreakdown
  {
    var exchange := turnover * r.exchange;
    CostBreakdown(
      if side.SELL? then turnover * r.sttSell else 0.0,
      r.brokerageFlat,
      exchange,
      turnover * r.sebi,
      if side.BUY? then turnover * r.stampBuy else 0.0,
      r.gst * (r.brokerageFlat + exchange))
  }

  /** A sale pays the transaction tax and no stamp, a purchase the stamp and no tax; only services carry GST. */
  lemma {:induction false} WhoPaysWhat(r: Rates, turnover: real)
    ensures
      var sale, purchase := CostOf(r, SELL, turnover), CostOf(r, BUY, turnover);
      && sale.stt == turnover * r.sttSell && sale.stamp == 0.0
      && purchase.stt == 0.0 && purchase.stamp == turnover * r.stampBuy
      && sale.Total() == r.brokerageFlat * (1.0 + r.gst)
           + turnover * (r.sttSell + r.exchange * (1.0 + r.gst) + r.sebi)
      && purchase.Total() == r.brokerageFlat * (1.0 + r.gst)
           + turnover * (r.stampBuy + r.exchange * (1.0 + r.gst) + r.sebi)
  {
    var service := r.brokerageFlat + turnover * r.exchange;
    assert r.gst * service == r.gst * r.brokerageFlat + turnover * (r.exchange * r.gst);
    assert r.brokerageFlat * (1.0 + r.gst) == r.brokerageFlat + r.gst * r.brokerageFlat;
    assert r.exchange * (1.0 + r.gst) == r.exchange + r.exchange * r.gst;
    assert turnover * (r.exchange + r.exchange * r.gst) == turnover * r.exchange + turnover * (r.exchange * r.gst);
  }

  function LegCost(table: seq<Period>, on: Date, side: Side, price: real, units: nat): Maybe<CostBreakdown>
  {
    match RatesOn(table, on)
    case None => None
    case Some(r) => Some(CostOf(r, side, price * units as real))
  }

  /** One fill of an order: when, how many contracts, and at what price. */
  datatype Fill = Fill(on: Date, quantity: nat, price: real)

  function UnitsOf(fill: Fill, lot: Lot): nat
  {
    fill.quantity * lot
  }

  /** `get_commission`, unrounded: a later fill of an order does not pay the flat brokerage again. */
  function Commission(table: seq<Period>, side: Side, lot: Lot, fill: Fill, filled: nat): Maybe<real>
  {
    match LegCost(table, fill.on, side, fill.price, UnitsOf(fill, lot))
    case None => None
    case Some(cost) => Some(if filled > 0 then cost.Total() - cost.brokerage else cost.Total())
  }

  function Filled(fills: seq<Fill>): nat
  {
    if fills == [] then 0 else Filled(fills[..|fills| - 1]) + fills[|fills| - 1].quantity
  }

  /** Premium times units: `qty` alone would be short by the lot. */
  function Value(fill: Fill, lot: Lot): real
  {
    fill.price * UnitsOf(fill, lot) as real
  }

  function Turnover(fills: seq<Fill>, lot: Lot): real
  {
    if fills == [] then 0.0 else Turnover(fills[..|fills| - 1], lot) + Value(fills[|fills| - 1], lot)
  }

  /** What an order's fills cost together, each knowing what was filled before it; None if one raises. */
  function Commissions(table: seq<Period>, side: Side, lot: Lot, fills: seq<Fill>): Maybe<real>
  {
    if fills == [] then Some(0.0)
    else
      var n := |fills| - 1;
      var before := Commissions(table, side, lot, fills[..n]);
      var last := Commission(table, side, lot, fills[n], Filled(fills[..n]));
      if before.None? || last.None? then None else Some(before.value + last.value)
  }

  /** One fill's whole cost. */
  function WholeCost(r: Rates, side: Side, turnover: real): real
  {
    CostOf(r, side, turnover).Total()
  }

  /** The GST on one brokerage. */
  function BrokerageTax(r: Rates): real
  {
    r.gst * r.brokerageFlat
  }

  function Surcharge(r: Rates, n: nat): real
  {
    n as real * BrokerageTax(r)
  }

  lemma Spread(a: real, b: real, rate: real)
    ensures (a + b) * rate == a * rate + b * rate
  {
  }

  /** Every charge but the brokerage and its GST is additive in turnover. */
  lemma CostsAdd(r: Rates, side: Side, a: real, b: real)
    ensures WholeCost(r, side, a + b) == WholeCost(r, side, a) + WholeCost(r, side, b) - r.brokerageFlat - BrokerageTax(r)
  {
    Spread(a, b, r.exchange);
    Spread(a, b, r.sebi);
    Spread(a, b, r.sttSell);
    Spread(a, b, r.stampBuy);
    Spread(r.brokerageFlat, a * r.exchange, r.gst);
    Spread(r.brokerageFlat, b * r.exchange, r.gst);
    Spread(r.brokerageFlat, (a + b) * r.exchange, r.gst);
    Spread(a * r.exchange, b * r.exchange, r.gst);
  }

  lemma {:induction false} SomethingFilled(fills: seq<Fill>)
    requires fills != [] && forall i :: 0 <= i < |fills| ==> fills[i].quantity > 0
    ensures Filled(fills) > 0
  {
  }

  lemma SurchargeNext(r: Rates, n: nat)
    ensures Surcharge(r, 0) == 0.0 && Surcharge(r, n + 1) == Surcharge(r, n) + BrokerageTax(r)
  {
    Spread(n as real, 1.0, BrokerageTax(r));
  }

  lemma LegCosts(table: seq<Period>, on: Date, side: Side, price: real, units: nat, r: Rates)
    requires RatesOn(table, on) == Some(r)
    ensures LegCost(table, on, side, price, units).Some?
    ensures LegCost(table, on, side, price, units).value == CostOf(r, side, price * units as real)
  {
    hide RatesOn, CostOf;
  }

  lemma OneCommission(table: seq<Period>, side: Side, lot: Lot, fill: Fill, filled: nat, r: Rates)
    requires RatesOn(table, fill.on) == Some(r)
    ensures Commission(table, side, lot, fill, filled).Some?
    ensures Commission(table, side, lot, fill, filled).value
      == WholeCost(r, side, Value(fill, lot)) - if filled > 0 then r.brokerageFlat else 0.0
  {
    hide RatesOn, CostOf, LegCost;
    LegCosts(table, fill.on, side, fill.price, UnitsOf(fill, lot), r);
    Unfold(r, side, Value(fill, lot));
    assert Value(fill, lot) == fill.price * UnitsOf(fill, lot) as real;
  }

  lemma Unfold(r: Rates, side: Side, turnover: real)
    ensures CostOf(r, side, turnover).brokerage == r.brokerageFlat
    ensures CostOf(r, side, turnover).Total() == WholeCost(r, side, turnover)
  {
  }

  /** A fill is charged on its price times every unit of its contracts, and only the first pays the brokerage. */
  lemma {:induction false} WhatFillsCost(
    table: seq<Period>, side: Side, lot: Lot, fill: Fill, filled: nat, r: Rates, units: nat)
    requires RatesOn(table, fill.on) == Some(r) && units == fill.quantity * lot
    ensures
      var cost := CostOf(r, side, fill.price * units as real).Total();
      Commission(table, side, lot, fill, filled) == Some(if filled == 0 then cost else cost - r.brokerageFlat)
  {
    hide RatesOn, CostOf, Commission, WholeCost;
    assert UnitsOf(fill, lot) == units;
    var turnover := fill.price * units as real;
    assert Value(fill, lot) == turnover;
    OneCommission(table, side, lot, fill, filled, r);
    Unfold(r, side, turnover);
    assert Commission(table, side, lot, fill, filled).value
      == WholeCost(r, side, turnover) - if filled > 0 then r.brokerageFlat else 0.0;
  }

  lemma TurnoverNext(lot: Lot, before: seq<Fill>, last: Fill)
    ensures Turnover(before + [last], lot) == Turnover(before, lot) + Value(last, lot)
  {
    hide Value;
    assert (before + [last])[..|before|] == before;
  }

  lemma CommissionsNext(table: seq<Period>, side: Side, lot: Lot, before: seq<Fill>, last: Fill)
    requires Commissions(table, side, lot, before).Some?
    requires Commission(table, side, lot, last, Filled(before)).Some?
    ensures Commissions(table, side, lot, before + [last]) == Some(
      Commissions(table, side, lot, before).value + Commission(table, side, lot, last, Filled(before)).value)
  {
    hide Commission, Filled;
    assert (before + [last])[..|before|] == before;
  }

  /**
   * The cost of splitting an order. Over any number of fills under one row of
   * rates, the commissions come to the cost of a single fill of the whole
   * turnover and, beyond it, GST on the brokerage once more for every fill
   * after the first; the brokerage itself is charged once.
   */
  lemma {:induction false} SplitOrdersCost(table: seq<Period>, side: Side, lot: Lot, fills: seq<Fill>, r: Rates)
    requires fills != []
    requires forall i :: 0 <= i < |fills| ==> fills[i].quantity > 0 && RatesOn(table, fills[i].on) == Some(r)
    ensures Commissions(table, side, lot, fills)
      == Some(WholeCost(r, side, Turnover(fills, lot)) + Surcharge(r, |fills| - 1))
  {
    hide RatesOn, WholeCost, UnitsOf, Commission, Value, Surcharge, BrokerageTax, Filled, Commissions, Turnover;
    var n := |fills| - 1;
    var before := fills[..n];
    assert fills == before + [fills[n]];
    NothingYet(table, side, lot);
    if n == 0 {
      assert before == [];
      SurchargeNext(r, 0);
    } else {
      SplitOrdersCost(table, side, lot, before, r);
      SomethingFilled(before);
      CostsAdd(r, side, Turnover(before, lot), Value(fills[n], lot));
      SurchargeNext(r, n - 1);
    }
    TurnoverNext(lot, before, fills[n]);
    OneCommission(table, side, lot, fills[n], Filled(before), r);
    CommissionsNext(table, side, lot, before, fills[n]);
  }

  lemma NothingYet(table: seq<Period>, side: Side, lot: Lot)
    ensures Filled([]) == 0 && Turnover([], lot) == 0.0 && Commissions(table, side, lot, []) == Some(0.0)
  {
  }

  /** Splitting is free exactly when there is one fill or no GST on brokerage to repeat. */
  lemma WhenSplittingIsFree(table: seq<Period>, side: Side, lot: Lot, fills: seq<Fill>, r: Rates)
    requires fills != []
    requires forall i :: 0 <= i < |fills| ==> fills[i].quantity > 0 && RatesOn(table, fills[i].on) == Some(r)
    ensures Commissions(table, side, lot, fills) == Some(WholeCost(r, side, Turnover(fills, lot))) <==>
      |fills| == 1 || BrokerageTax(r) == 0.0
  {
    hide RatesOn, WholeCost, Turnover, Commissions, BrokerageTax;
    SplitOrdersCost(table, side, lot, fills, r);
  }
}
