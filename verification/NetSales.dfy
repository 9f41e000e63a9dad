/**
 Weekly net sales: orders are selected by comparing their business date as text with the
 printed first and last day of the week before the count. A week without a positive order
 total takes its bank deposits instead.
 */
module NetSales {
  import opened Wrappers
  import opened Sequences
  import opened Money
  import opened CogsChain
  import opened BusinessDate

  /** An order; its business_date column holds the printed day. */
  datatype Order = Order(tenant: nat, location: Option<nat>, day: Date, net: Option<real>, amount: real)

  /** The seven days before a count: first and last. */
  datatype Week = Week(first: Date, last: Date) {
    predicate Valid() {
      first.Valid() && last.Valid()
    }

    /** An instant from the first day's first microsecond to the last day's last. */
    predicate Holds(at: int) {
      first.Ordinal() * DAY <= at < (last.Ordinal() + 1) * DAY
    }
  }

  predicate NotAfter(a: Date, b: Date)
    requires a.Valid() && b.Valid()
  {
    PrintSpellsTheDate(a);
    PrintSpellsTheDate(b);
    Print(a) == Print(b) || TextLess(Print(a), Print(b))
  }

  /** business_date >= first and business_date <= last, as text. */
  predicate Selected(o: Order, w: Week)
    requires o.day.Valid() && w.Valid()
  {
    NotAfter(w.first, o.day) && NotAfter(o.day, w.last)
  }

  /** The text filter selects exactly the days of the range. */
  lemma FilterSelectsTheDays(o: Order, w: Week)
    requires o.day.Valid() && w.Valid()
    ensures Selected(o, w) <==> w.first.Ordinal() <= o.day.Ordinal() <= w.last.Ordinal()
  {
    PrintPreservesOrder(w.first, o.day);
    PrintPreservesOrder(o.day, w.last);
    OrdinalsOrderDates(w.first, o.day);
    OrdinalsOrderDates(o.day, w.last);
  }

  function SaleOf(o: Order): real {
    if o.net.Some? then o.net.value else o.amount
  }

  predicate AllValid(orders: seq<Order>) {
    forall o :: o in orders ==> o.day.Valid()
  }

  function SalesIn(orders: seq<Order>, tenant: nat, location: Option<nat>, w: Week): real
    requires AllValid(orders) && w.Valid()
  {
    if orders == [] then 0.0
    else
      var o := orders[|orders| - 1];
      SalesIn(orders[..|orders| - 1], tenant, location, w)
      + if InScope(o.tenant, o.location, tenant, location) && Selected(o, w) then SaleOf(o) else 0.0
  }

  /** The weeks of counts made seven days apart, the first on day number `start`. */
  ghost predicate Consecutive(weeks: seq<Week>, start: int) {
    forall k :: 0 <= k < |weeks| ==>
      && weeks[k].Valid()
      && weeks[k].first.Ordinal() == start + 7 * k - 7
      && weeks[k].last.Ordinal() == start + 7 * k - 1
  }

  /** Every order of the covered days is in exactly one week's net sales, and no other order is in any. */
  lemma WeeksTile(weeks: seq<Week>, start: int, o: Order)
    requires Consecutive(weeks, start) && o.day.Valid()
    ensures (exists k :: 0 <= k < |weeks| && Selected(o, weeks[k]))
      <==> start - 7 <= o.day.Ordinal() < start + 7 * |weeks| - 7
    ensures forall k, l :: 0 <= k < l < |weeks| ==> !(Selected(o, weeks[k]) && Selected(o, weeks[l]))
  {
    forall k | 0 <= k < |weeks|
      ensures Selected(o, weeks[k]) <==> start + 7 * k - 7 <= o.day.Ordinal() <= start + 7 * k - 1
    {
      FilterSelectsTheDays(o, weeks[k]);
    }
    var k := (o.day.Ordinal() - (start - 7)) / 7;
    if 0 <= k < |weeks| {
      assert Selected(o, weeks[k]);
    }
  }

  function WeeklySales(orders: seq<Order>, tenant: nat, location: Option<nat>, weeks: seq<Week>): real
    requires AllValid(orders) && forall k :: 0 <= k < |weeks| ==> weeks[k].Valid()
  {
    if weeks == [] then 0.0
    else
      var n := |weeks| - 1;
      WeeklySales(orders, tenant, location, weeks[..n]) + SalesIn(orders, tenant, location, weeks[n])
  }

  lemma {:induction false} AdjacentSalesAdd(orders: seq<Order>, tenant: nat, location: Option<nat>, a: Week, b: Week)
    requires AllValid(orders) && a.Valid() && b.Valid()
    requires a.first.Ordinal() <= a.last.Ordinal() + 1 == b.first.Ordinal() <= b.last.Ordinal() + 1
    ensures SalesIn(orders, tenant, location, a) + SalesIn(orders, tenant, location, b)
         == SalesIn(orders, tenant, location, Week(a.first, b.last))
    decreases |orders|
  {
    if orders != [] {
      var o := orders[|orders| - 1];
      AdjacentSalesAdd(orders[..|orders| - 1], tenant, location, a, b);
      FilterSelectsTheDays(o, a);
      FilterSelectsTheDays(o, b);
      FilterSelectsTheDays(o, Week(a.first, b.last));
    }
  }

  lemma WeekAt(weeks: seq<Week>, start: int, k: nat)
    requires Consecutive(weeks, start) && k < |weeks|
    ensures weeks[k].Valid()
    ensures weeks[k].first.Ordinal() == start + 7 * k - 7 && weeks[k].last.Ordinal() == start + 7 * k - 1
  {
  }

  lemma OneWeek(orders: seq<Order>, tenant: nat, location: Option<nat>, w: Week)
    requires AllValid(orders) && w.Valid()
    ensures WeeklySales(orders, tenant, location, [w]) == SalesIn(orders, tenant, location, w)
  {
    assert [w][..0] == [];
  }

  lemma ConsecutivePrefix(weeks: seq<Week>, start: int, n: nat)
    requires Consecutive(weeks, start) && n <= |weeks|
    ensures Consecutive(weeks[..n], start)
  {
    forall k | 0 <= k < n
      ensures weeks[..n][k] == weeks[k]
    {
    }
  }

  lemma AppendedWeek(orders: seq<Order>, tenant: nat, location: Option<nat>, weeks: seq<Week>, start: int, n: nat)
    requires AllValid(orders) && Consecutive(weeks, start) && 0 < n < |weeks|
    ensures weeks[0].Valid() && weeks[n - 1].Valid() && weeks[n].Valid()
    ensures SalesIn(orders, tenant, location, Week(weeks[0].first, weeks[n - 1].last))
      + SalesIn(orders, tenant, location, weeks[n])
         == SalesIn(orders, tenant, location, Week(weeks[0].first, weeks[n].last))
  {
    WeekAt(weeks, start, 0);
    WeekAt(weeks, start, n - 1);
    WeekAt(weeks, start, n);
    AdjacentSalesAdd(orders, tenant, location, Week(weeks[0].first, weeks[n - 1].last), weeks[n]);
  }

  /** The weekly order totals of consecutive counts add up to the order total of the whole stretch. */
  lemma {:induction false} WeeklySalesAdd(orders: seq<Order>, tenant: nat, location: Option<nat>, weeks: seq<Week>,
                                          start: int)
    requires AllValid(orders) && Consecutive(weeks, start) && weeks != []
    ensures WeeklySales(orders, tenant, location, weeks)
         == SalesIn(orders, tenant, location, Week(weeks[0].first, weeks[|weeks| - 1].last))
    decreases |weeks|
  {
    var n := |weeks| - 1;
    if n == 0 {
      OneWeek(orders, tenant, location, weeks[0]);
      assert weeks == [weeks[0]] && Week(weeks[0].first, weeks[0].last) == weeks[0];
    } else {
      ConsecutivePrefix(weeks, start, n);
      WeeklySalesAdd(orders, tenant, location, weeks[..n], start);
      AppendedWeek(orders, tenant, location, weeks, start, n);
    }
  }

  // ---------------------------------------------------------------------------------------
  // The deposit fallback
  // ---------------------------------------------------------------------------------------

  /** A bank deposit; `at` is its instant. */
  datatype Deposit = Deposit(tenant: nat, location: Option<nat>, isRevenue: bool, at: int, amount: real)

  /** The revenue deposits of the week. */
  function DepositsIn(deposits: seq<Deposit>, tenant: nat, location: Option<nat>, w: Week): real {
    if deposits == [] then 0.0
    else
      var d := deposits[|deposits| - 1];
      DepositsIn(deposits[..|deposits| - 1], tenant, location, w)
      + if d.isRevenue && InScope(d.tenant, d.location, tenant, location) && w.Holds(d.at) then d.amount else 0.0
  }

  /** _net_sales. */
  function NetSalesOf(orders: seq<Order>, deposits: seq<Deposit>, tenant: nat, location: Option<nat>, w: Week): real
    requires AllValid(orders) && w.Valid()
  {
    if SalesIn(orders, tenant, location, w) > 0.0 then Quantize(SalesIn(orders, tenant, location, w))
    else Quantize(DepositsIn(deposits, tenant, location, w))
  }

  function WeeklyNetSales(orders: seq<Order>, deposits: seq<Deposit>, tenant: nat, location: Option<nat>,
                          weeks: seq<Week>): real
    requires AllValid(orders) && forall k :: 0 <= k < |weeks| ==> weeks[k].Valid()
  {
    if weeks == [] then 0.0
    else
      var n := |weeks| - 1;
      WeeklyNetSales(orders, deposits, tenant, location, weeks[..n])
        + NetSalesOf(orders, deposits, tenant, location, weeks[n])
  }

  /** By how much the deposits of the weeks without a positive order total exceed their orders. */
  function Fallback(orders: seq<Order>, deposits: seq<Deposit>, tenant: nat, location: Option<nat>,
                    weeks: seq<Week>): real
    requires AllValid(orders) && forall k :: 0 <= k < |weeks| ==> weeks[k].Valid()
  {
    if weeks == [] then 0.0
    else
      var n := |weeks| - 1;
      var sales := SalesIn(orders, tenant, location, weeks[n]);
      Fallback(orders, deposits, tenant, location, weeks[..n])
      + if sales > 0.0 then 0.0 else DepositsIn(deposits, tenant, location, weeks[n]) - sales
  }

  lemma AddedCents(sum: real, amount: real)
    requires IsCents(sum) && IsCents(amount)
    ensures IsCents(sum + amount) && IsCents(sum + 0.0)
  {
    CentsAdd(sum, amount);
  }

  lemma OneMoreOrder(orders: seq<Order>, n: nat, tenant: nat, location: Option<nat>, w: Week)
    requires AllValid(orders) && w.Valid() && |orders| == n + 1
    ensures var before := SalesIn(orders[..n], tenant, location, w);
      SalesIn(orders, tenant, location, w) in {before + 0.0, before + SaleOf(orders[n])}
  {
  }

  lemma {:induction false} SalesAreCents(orders: seq<Order>, tenant: nat, location: Option<nat>, w: Week)
    requires AllValid(orders) && w.Valid() && forall o :: o in orders ==> IsCents(SaleOf(o))
    ensures IsCents(SalesIn(orders, tenant, location, w))
    decreases |orders|
  {
    if orders == [] {
      CentsOf(0);
    } else {
      var n := |orders| - 1;
      SalesAreCents(orders[..n], tenant, location, w);
      OneMoreOrder(orders, n, tenant, location, w);
      AddedCents(SalesIn(orders[..n], tenant, location, w), SaleOf(orders[n]));
    }
  }

  lemma {:induction false} DepositsAreCents(deposits: seq<Deposit>, tenant: nat, location: Option<nat>, w: Week)
    requires forall d :: d in deposits ==> IsCents(d.amount)
    ensures IsCents(DepositsIn(deposits, tenant, location, w))
    decreases |deposits|
  {
    if deposits == [] {
      CentsOf(0);
    } else {
      var n := |deposits| - 1;
      DepositsAreCents(deposits[..n], tenant, location, w);
      AddedCents(DepositsIn(deposits[..n], tenant, location, w), deposits[n].amount);
    }
  }

  lemma {:induction false} NetSalesSplit(orders: seq<Order>, deposits: seq<Deposit>, tenant: nat,
                                         location: Option<nat>, weeks: seq<Week>)
    requires AllValid(orders) && forall k :: 0 <= k < |weeks| ==> weeks[k].Valid()
    requires (forall o :: o in orders ==> IsCents(SaleOf(o))) && (forall d :: d in deposits ==> IsCents(d.amount))
    ensures WeeklyNetSales(orders, deposits, tenant, location, weeks)
         == WeeklySales(orders, tenant, location, weeks) + Fallback(orders, deposits, tenant, location, weeks)
    decreases |weeks|
  {
    if weeks != [] {
      var n := |weeks| - 1;
      NetSalesSplit(orders, deposits, tenant, location, weeks[..n]);
      SalesAreCents(orders, tenant, location, weeks[n]);
      DepositsAreCents(deposits, tenant, location, weeks[n]);
      QuantizeFixesCents(SalesIn(orders, tenant, location, weeks[n]));
      QuantizeFixesCents(DepositsIn(deposits, tenant, location, weeks[n]));
    }
  }

  /** The weekly net sales of consecutive counts add up to the stretch's orders if and only if the weeks
      without a positive order total deposited, all together, what their orders came to. */
  lemma WeeklyNetSalesAddIff(orders: seq<Order>, deposits: seq<Deposit>, tenant: nat, location: Option<nat>,
                             weeks: seq<Week>, start: int)
    requires AllValid(orders) && Consecutive(weeks, start) && weeks != []
    requires (forall o :: o in orders ==> IsCents(SaleOf(o))) && (forall d :: d in deposits ==> IsCents(d.amount))
    ensures WeeklyNetSales(orders, deposits, tenant, location, weeks)
         == SalesIn(orders, tenant, location, Week(weeks[0].first, weeks[|weeks| - 1].last))
      <==> Fallback(orders, deposits, tenant, location, weeks) == 0.0
  {
    NetSalesSplit(orders, deposits, tenant, location, weeks);
    WeeklySalesAdd(orders, tenant, location, weeks, start);
  }

  /** The week has a positive order total, or deposited what its orders came to. */
  predicate Covers(orders: seq<Order>, deposits: seq<Deposit>, tenant: nat, location: Option<nat>, w: Week)
    requires AllValid(orders) && w.Valid()
  {
    SalesIn(orders, tenant, location, w) > 0.0
    || DepositsIn(deposits, tenant, location, w) == SalesIn(orders, tenant, location, w)
  }

  /** The first n weeks' net sales add up to their orders. */
  ghost predicate AddsUp(orders: seq<Order>, deposits: seq<Deposit>, tenant: nat, location: Option<nat>,
                         weeks: seq<Week>, start: int, n: nat)
    requires AllValid(orders) && Consecutive(weeks, start) && n <= |weeks|
  {
    n == 0 ||
    WeeklyNetSales(orders, deposits, tenant, location, weeks[..n])
      == SalesIn(orders, tenant, location, Week(weeks[0].first, weeks[n - 1].last))
  }

  lemma AddsUpIff(orders: seq<Order>, deposits: seq<Deposit>, tenant: nat, location: Option<nat>,
                  weeks: seq<Week>, start: int, n: nat)
    requires AllValid(orders) && Consecutive(weeks, start) && n <= |weeks|
    requires (forall o :: o in orders ==> IsCents(SaleOf(o))) && (forall d :: d in deposits ==> IsCents(d.amount))
    ensures AddsUp(orders, deposits, tenant, location, weeks, start, n)
      <==> MadeUp(orders, deposits, tenant, location, weeks, n)
  {
    if n > 0 {
      ConsecutivePrefix(weeks, start, n);
      WeeklyNetSalesAddIff(orders, deposits, tenant, location, weeks[..n], start);
    }
  }

  /** The first n weeks' deposits make up for their orders. */
  predicate MadeUp(orders: seq<Order>, deposits: seq<Deposit>, tenant: nat, location: Option<nat>, weeks: seq<Week>,
                   n: nat)
    requires AllValid(orders) && n <= |weeks| && forall k :: 0 <= k < |weeks| ==> weeks[k].Valid()
  {
    Fallback(orders, deposits, tenant, location, weeks[..n]) == 0.0
  }

  lemma MadeUpStep(orders: seq<Order>, deposits: seq<Deposit>, tenant: nat, location: Option<nat>,
                   weeks: seq<Week>, n: nat)
    requires AllValid(orders) && n < |weeks| && forall k :: 0 <= k < |weeks| ==> weeks[k].Valid()
    requires MadeUp(orders, deposits, tenant, location, weeks, n)
    ensures MadeUp(orders, deposits, tenant, location, weeks, n + 1)
      <==> Covers(orders, deposits, tenant, location, weeks[n])
  {
    assert weeks[..n + 1][..n] == weeks[..n];
  }

  lemma AlwaysMadeUpIff(orders: seq<Order>, deposits: seq<Deposit>, tenant: nat, location: Option<nat>,
                        weeks: seq<Week>)
    requires AllValid(orders) && forall k :: 0 <= k < |weeks| ==> weeks[k].Valid()
    ensures (forall k: nat :: k <= |weeks| ==> MadeUp(orders, deposits, tenant, location, weeks, k))
      <==> forall k: nat :: k < |weeks| ==> Covers(orders, deposits, tenant, location, weeks[k])
  {
    var holds := seq(|weeks| + 1, k requires 0 <= k <= |weeks| => MadeUp(orders, deposits, tenant, location, weeks, k));
    var lets := seq(|weeks|, k requires 0 <= k < |weeks| => Covers(orders, deposits, tenant, location, weeks[k]));
    assert weeks[..0] == [];
    forall k | 0 <= k < |lets| && holds[k]
      ensures holds[k + 1] <==> lets[k]
    {
      MadeUpStep(orders, deposits, tenant, location, weeks, k);
    }
    EveryPrefixIff(holds, lets);
    assert forall k :: 0 <= k <= |weeks| ==> holds[k] == MadeUp(orders, deposits, tenant, location, weeks, k);
    assert forall k :: 0 <= k < |weeks| ==> lets[k] == Covers(orders, deposits, tenant, location, weeks[k]);
  }

  /** Net sales add up over every stretch from the first week on if and only if every week without a
      positive order total deposited what its orders came to. */
  lemma EveryStretchAddsIff(orders: seq<Order>, deposits: seq<Deposit>, tenant: nat,
                            location: Option<nat>, weeks: seq<Week>, start: int)
    requires AllValid(orders) && Consecutive(weeks, start)
    requires (forall o :: o in orders ==> IsCents(SaleOf(o))) && (forall d :: d in deposits ==> IsCents(d.amount))
    ensures (forall k: nat :: k <= |weeks| ==> AddsUp(orders, deposits, tenant, location, weeks, start, k))
      <==> forall k: nat :: k < |weeks| ==> Covers(orders, deposits, tenant, location, weeks[k])
  {
    AlwaysMadeUpIff(orders, deposits, tenant, location, weeks);
    forall k: nat | k <= |weeks|
      ensures AddsUp(orders, deposits, tenant, location, weeks, start, k)
        <==> MadeUp(orders, deposits, tenant, location, weeks, k)
    {
      AddsUpIff(orders, deposits, tenant, location, weeks, start, k);
    }
  }

  // ---------------------------------------------------------------------------------------
  // What each order and deposit contributes
  // ---------------------------------------------------------------------------------------

  /** One more order adds its net amount, or its amount when it has none, exactly when it is the tenant's,
      and the location's when one is given, of a day of the week. */
  lemma OrderCounts(orders: seq<Order>, o: Order, tenant: nat, location: Option<nat>, w: Week)
    requires AllValid(orders + [o]) && AllValid(orders) && o.day.Valid() && w.Valid()
    ensures SalesIn(orders + [o], tenant, location, w) == SalesIn(orders, tenant, location, w)
      + if o.tenant == tenant && (location.None? || o.location == location)
           && w.first.Ordinal() <= o.day.Ordinal() && o.day.Ordinal() <= w.last.Ordinal()
        then (if o.net.None? then o.amount else o.net.value) else 0.0
  {
    assert (orders + [o])[..|orders|] == orders;
    FilterSelectsTheDays(o, w);
  }

  /** One more deposit adds its amount exactly when it is revenue, the tenant's, and the location's when one
      is given, between the first microsecond of the first day and the last of the last. */
  lemma DepositCounts(deposits: seq<Deposit>, d: Deposit, tenant: nat, location: Option<nat>, w: Week)
    ensures var day := 24 * 60 * 60 * 1_000_000;
      DepositsIn(deposits + [d], tenant, location, w) == DepositsIn(deposits, tenant, location, w)
      + if d.isRevenue && d.tenant == tenant && (location.None? || d.location == location)
           && w.first.Ordinal() * day <= d.at && d.at < w.last.Ordinal() * day + day then d.amount else 0.0
  {
    assert (deposits + [d])[..|deposits|] == deposits;
  }

  /** Orders decide as soon as they sum to more than nothing; otherwise the deposits do. */
  lemma NetSalesInFields(orders: seq<Order>, deposits: seq<Deposit>, tenant: nat, location: Option<nat>, w: Week)
    requires AllValid(orders) && w.Valid()
    ensures var net, sales := NetSalesOf(orders, deposits, tenant, location, w), SalesIn(orders, tenant, location, w);
      && (sales > 0.0 ==> net == Quantize(sales))
      && (sales <= 0.0 ==> net == Quantize(DepositsIn(deposits, tenant, location, w)))
  {
  }
}
