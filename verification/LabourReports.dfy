/**
 Labour reports over the synced table: grand totals, totals per position and per day, and
 scheduled against actual hours.
 */
module LabourReports {
  import opened Wrappers
  import opened Sequences
  import opened Sums
  import opened PushClient
  import opened PushSync

  /** The filter every report shares: a tenant, an inclusive date range and optionally a location. */
  datatype Query = Query(tenant: nat, start: int, end: int, location: Option<nat>)

  predicate Selects(q: Query, k: Key, r: Row) {
    k.tenant == q.tenant && q.start <= k.date <= q.end && (q.location.Some? ==> r.location == q.location)
  }

  function Selected(t: Table, q: Query): set<Key> {
    set k | k in t && Selects(q, k, t[k])
  }

  ghost function Cost(t: Table): Key -> real {
    k => if k in t then t[k].cost else 0.0
  }

  ghost function Hours(t: Table): Key -> real {
    k => if k in t then t[k].hours else 0.0
  }

  function Position(t: Table): Key -> Option<string> {
    k => if k in t then t[k].positionName else None
  }

  const DATE: Key -> int := (k: Key) => k.date

  function Positions(t: Table, q: Query): set<Option<string>> {
    set k | k in Selected(t, q) :: Position(t)(k)
  }

  function Dates(t: Table, q: Query): set<int> {
    set k | k in Selected(t, q) :: DATE(k)
  }

  /** labor_totals, for the cost or the hours column. */
  ghost function Totals(t: Table, q: Query, column: Key -> real): real {
    Sum(Selected(t, q), column)
  }

  /** One entry of labor_by_position. */
  ghost function ByPosition(t: Table, q: Query, column: Key -> real): Option<string> -> real {
    GroupSums(Selected(t, q), column, Position(t))
  }

  /** One entry of labor_daily_series. */
  ghost function ByDay(t: Table, q: Query, column: Key -> real): int -> real {
    GroupSums(Selected(t, q), column, DATE)
  }

  /** For one filter the position report, the daily series and the grand total agree, in cost and in hours. */
  lemma ReportsAgree(t: Table, q: Query, column: Key -> real)
    requires column == Cost(t) || column == Hours(t)
    ensures Sum(Positions(t, q), ByPosition(t, q, column)) == Totals(t, q, column)
    ensures Sum(Dates(t, q), ByDay(t, q, column)) == Totals(t, q, column)
  {
    SumOfGroups(Selected(t, q), column, Position(t), Positions(t, q));
    SumOfGroups(Selected(t, q), column, DATE, Dates(t, q));
  }

  /** Totals over adjacent date ranges add up to the total over the joined range. */
  lemma AdjacentRangesAdd(t: Table, q: Query, mid: int, column: Key -> real)
    requires q.start - 1 <= mid <= q.end
    ensures Totals(t, q.(end := mid), column) + Totals(t, q.(start := mid + 1), column) == Totals(t, q, column)
  {
    var a, b := Selected(t, q.(end := mid)), Selected(t, q.(start := mid + 1));
    SumUnion(a, b, column);
    assert a + b == Selected(t, q);
  }

  // ---------------------------------------------------------------------------------------
  // Scheduled against actual
  // ---------------------------------------------------------------------------------------

  datatype Shift = Shift(date: int, hours: real)

  datatype DayVariance = DayVariance(date: int, scheduled: real, actual: real, variance: real)

  function ScheduledOn(shifts: seq<Shift>, date: int): real {
    if shifts == [] then 0.0
    else
      var s := shifts[|shifts| - 1];
      ScheduledOn(shifts[..|shifts| - 1], date) + if s.date == date then s.hours else 0.0
  }

  function ScheduledTotal(shifts: seq<Shift>): real {
    if shifts == [] then 0.0 else ScheduledTotal(shifts[..|shifts| - 1]) + shifts[|shifts| - 1].hours
  }

  function ShiftDates(shifts: seq<Shift>): set<int> {
    set s | s in shifts :: s.date
  }

  function VarianceTotal(days: seq<DayVariance>): real {
    if days == [] then 0.0 else VarianceTotal(days[..|days| - 1]) + days[|days| - 1].variance
  }

  function Lookup(m: map<int, real>, date: int): real {
    if date in m then m[date] else 0.0
  }

  predicate Least(s: set<int>, m: int) {
    m in s && forall y :: y in s ==> m <= y
  }

  lemma {:induction false} SomethingIsLeast(s: set<int>, x: int)
    requires x in s
    ensures exists m :: Least(s, m)
    decreases |s|
  {
    if y :| y in s && y < x {
      SomethingIsLeast(s - {x}, y);
      var m :| Least(s - {x}, m);
      assert m <= y < x;
      assert forall z :: z in s ==> z == x || z in s - {x};
      assert Least(s, m);
    } else {
      assert Least(s, x);
    }
  }

  /** The accumulation over shifts. */
  method ScheduledByDate(shifts: seq<Shift>) returns (m: map<int, real>)
    ensures m.Keys == ShiftDates(shifts)
    ensures forall d :: Lookup(m, d) == ScheduledOn(shifts, d)
  {
    m := map[];
    var n := 0;
    while n < |shifts|
      invariant 0 <= n <= |shifts|
      invariant m.Keys == ShiftDates(shifts[..n])
      invariant forall d :: Lookup(m, d) == ScheduledOn(shifts[..n], d)
    {
      var s := shifts[n];
      assert shifts[..n + 1] == shifts[..n] + [s];
      assert shifts[..n + 1][..n] == shifts[..n];
      m := m[s.date := (if s.date in m then m[s.date] else 0.0) + s.hours];
      n := n + 1;
    }
    assert shifts[..n] == shifts;
  }

  /** The figures of one date. */
  function Compared(scheduled: map<int, real>, actual: map<int, real>, date: int): DayVariance {
    DayVariance(date, Lookup(scheduled, date), Lookup(actual, date), Lookup(actual, date) - Lookup(scheduled, date))
  }

  predicate Ascending(dates: seq<int>) {
    forall i, j :: 0 <= i < j < |dates| ==> dates[i] < dates[j]
  }

  lemma NextDate(r: seq<int>, d: int)
    requires Ascending(r) && forall i :: 0 <= i < |r| ==> r[i] < d
    ensures Ascending(r + [d]) && Members(r + [d]) == Members(r) + {d}
  {
  }

  /** sorted() of a set of dates. */
  method SortDates(dates: set<int>) returns (r: seq<int>)
    ensures Ascending(r) && Members(r) == dates
  {
    r := [];
    var left := dates;
    while left != {}
      invariant left <= dates && Members(r) == dates - left && Ascending(r)
      invariant forall i, x :: 0 <= i < |r| && x in left ==> r[i] < x
      decreases |left|
    {
      ghost var some := Pick(left);
      SomethingIsLeast(left, some);
      var d :| Least(left, d);
      NextDate(r, d);
      r, left := r + [d], left - {d};
    }
  }

  /** The comparison: every date that has a shift or actual hours, once and in order. */
  method CompareDays(scheduled: map<int, real>, actual: map<int, real>)
    returns (dates: seq<int>, days: seq<DayVariance>)
    ensures Ascending(dates) && Members(dates) == scheduled.Keys + actual.Keys
    ensures |days| == |dates| && forall i :: 0 <= i < |days| ==> days[i] == Compared(scheduled, actual, dates[i])
  {
    dates := SortDates(scheduled.Keys + actual.Keys);
    days := [];
    while |days| < |dates|
      invariant |days| <= |dates|
      invariant forall i :: 0 <= i < |days| ==> days[i] == Compared(scheduled, actual, dates[i])
      decreases |dates| - |days|
    {
      var d := dates[|days|];
      var s, a := (if d in scheduled then scheduled[d] else 0.0), (if d in actual then actual[d] else 0.0);
      days := days + [DayVariance(d, s, a, a - s)];
    }
  }

  lemma MembersOfFront(dates: seq<int>)
    requires Ascending(dates) && dates != []
    ensures var n := |dates| - 1;
      dates[n] in Members(dates) && Members(dates[..n]) == Members(dates) - {dates[n]}
  {
    var n := |dates| - 1;
    assert dates == dates[..n] + [dates[n]];
    forall i | 0 <= i < n
      ensures dates[i] < dates[n]
    {
    }
  }

  lemma {:induction false} VariancesSum(dates: seq<int>, days: seq<DayVariance>, f: int -> real)
    requires Ascending(dates) && |days| == |dates|
    requires forall i :: 0 <= i < |days| ==> days[i].variance == f(dates[i])
    ensures VarianceTotal(days) == Sum(Members(dates), f)
    decreases |dates|
  {
    if dates == [] {
      assert Members(dates) == {};
    } else {
      var n := |dates| - 1;
      VariancesSum(dates[..n], days[..n], f);
      MembersOfFront(dates);
      SumRemove(Members(dates), f, dates[n]);
    }
  }

  lemma {:induction false} SumOfDifferences(s: set<int>, f: int -> real, g: int -> real, h: int -> real)
    requires forall x :: x in s ==> h(x) == f(x) - g(x)
    ensures Sum(s, h) == Sum(s, f) - Sum(s, g)
    decreases |s|
  {
    if s != {} {
      var x := Pick(s);
      SumRemove(s, f, x);
      SumRemove(s, g, x);
      SumRemove(s, h, x);
      SumOfDifferences(s - {x}, f, g, h);
    }
  }

  const NOTHING: int -> real := (_: int) => 0.0

  /** Dates without a value contribute nothing. */
  lemma SumOverMore(s: set<int>, more: set<int>, f: int -> real)
    requires s <= more && forall x :: x in more && x !in s ==> f(x) == 0.0
    ensures Sum(more, f) == Sum(s, f)
  {
    PeelRows(more, f, s);
    forall x | x in more - s
      ensures f(x) == NOTHING(x)
    {
    }
    SumSame(more - s, f, NOTHING);
    SumOfZeros(more - s);
  }

  lemma {:induction false} SumOfZeros(s: set<int>)
    ensures Sum(s, NOTHING) == 0.0
    decreases |s|
  {
    if s != {} {
      var x := Pick(s);
      SumRemove(s, NOTHING, x);
      SumOfZeros(s - {x});
    }
  }

  lemma {:induction false} ShiftsSumByDate(shifts: seq<Shift>, dates: set<int>)
    requires ShiftDates(shifts) <= dates
    ensures Sum(dates, d => ScheduledOn(shifts, d)) == ScheduledTotal(shifts)
    decreases |shifts|
  {
    if shifts == [] {
      SumSame(dates, d => ScheduledOn(shifts, d), NOTHING);
      SumOfZeros(dates);
    } else {
      var n, last := |shifts| - 1, shifts[|shifts| - 1];
      assert last in shifts;
      assert forall s :: s in shifts[..n] ==> s in shifts;
      ShiftsSumByDate(shifts[..n], dates);
      SumRemove(dates, d => ScheduledOn(shifts, d), last.date);
      SumRemove(dates, d => ScheduledOn(shifts[..n], d), last.date);
      SumSame(dates - {last.date}, d => ScheduledOn(shifts, d), d => ScheduledOn(shifts[..n], d));
    }
  }

  /** Scheduled against actual: the dates are the union of both sides, and the variances sum to the
      actual total minus the scheduled total. */
  lemma VariancesBalance(t: Table, q: Query, shifts: seq<Shift>, scheduled: map<int, real>, actual: map<int, real>,
                         dates: seq<int>, days: seq<DayVariance>)
    requires scheduled.Keys == ShiftDates(shifts) && forall d :: Lookup(scheduled, d) == ScheduledOn(shifts, d)
    requires actual.Keys == Dates(t, q) && forall d :: d in actual ==> actual[d] == ByDay(t, q, Hours(t))(d)
    requires Ascending(dates) && Members(dates) == scheduled.Keys + actual.Keys
    requires |days| == |dates| && forall i :: 0 <= i < |days| ==> days[i] == Compared(scheduled, actual, dates[i])
    ensures VarianceTotal(days) == Totals(t, q, Hours(t)) - ScheduledTotal(shifts)
  {
    var f, g := d => Lookup(actual, d), d => ScheduledOn(shifts, d);
    VariancesSum(dates, days, d => f(d) - g(d));
    SumOfDifferences(Members(dates), f, g, d => f(d) - g(d));
    ShiftsSumByDate(shifts, Members(dates));
    SumOverMore(actual.Keys, Members(dates), f);
    SumSame(actual.Keys, f, ByDay(t, q, Hours(t)));
    ReportsAgree(t, q, Hours(t));
  }

  /** scheduled_vs_actual_daily: `actual` is the daily series of hours for the same filter. */
  method ScheduledVsActual(ghost t: Table, ghost q: Query, shifts: seq<Shift>, actual: map<int, real>)
    returns (dates: seq<int>, days: seq<DayVariance>)
    requires actual.Keys == Dates(t, q) && forall d :: d in actual ==> actual[d] == ByDay(t, q, Hours(t))(d)
    ensures Ascending(dates) && Members(dates) == ShiftDates(shifts) + Dates(t, q)
    ensures |days| == |dates|
    ensures forall i :: 0 <= i < |days| ==>
      days[i].date == dates[i] && days[i].scheduled == ScheduledOn(shifts, dates[i])
    ensures forall i :: 0 <= i < |days| ==>
      days[i].actual == if dates[i] in Dates(t, q) then ByDay(t, q, Hours(t))(dates[i]) else 0.0
    ensures forall i :: 0 <= i < |days| ==> days[i].variance == days[i].actual - days[i].scheduled
    ensures VarianceTotal(days) == Totals(t, q, Hours(t)) - ScheduledTotal(shifts)
  {
    var scheduled := ScheduledByDate(shifts);
    dates, days := CompareDays(scheduled, actual);
    VariancesBalance(t, q, shifts, scheduled, actual, dates, days);
  }

  // ---------------------------------------------------------------------------------------
  // From the API to the totals
  // ---------------------------------------------------------------------------------------

  /** What a report counts: the tenant's rows of the inclusive range, and of the location when one is given. */
  lemma SelectedInFields(t: Table, q: Query, k: Key)
    ensures k in Selected(t, q) <==>
      && k in t && k.tenant == q.tenant && q.start <= k.date && k.date <= q.end
      && (q.location.None? || t[k].location == q.location)
    ensures k in t ==> Cost(t)(k) == t[k].cost && Hours(t)(k) == t[k].hours && Position(t)(k) == t[k].positionName
  {
  }

  /** The cost and the hours of the API's rows of an inclusive date range. */
  function ApiCost(rows: seq<LabourRow>, start: int, end: int): real {
    if rows == [] then 0.0
    else
      var r := rows[|rows| - 1];
      ApiCost(rows[..|rows| - 1], start, end) + if start <= r.date <= end then r.cost else 0.0
  }

  function ApiHours(rows: seq<LabourRow>, start: int, end: int): real {
    if rows == [] then 0.0
    else
      var r := rows[|rows| - 1];
      ApiHours(rows[..|rows| - 1], start, end) + if start <= r.date <= end then r.hours else 0.0
  }

  /** Adding one row under a new key adds its value to the total exactly when the report selects it. */
  lemma TotalOfOneMore(t: Table, q: Query, k: Key, row: Row)
    requires k !in t
    ensures var u := t[k := row];
      && Totals(u, q, Cost(u)) == Totals(t, q, Cost(t)) + (if Selects(q, k, row) then row.cost else 0.0)
      && Totals(u, q, Hours(u)) == Totals(t, q, Hours(t)) + (if Selects(q, k, row) then row.hours else 0.0)
  {
    var u := t[k := row];
    var before, after := Selected(t, q), Selected(u, q);
    assert after == if Selects(q, k, row) then before + {k} else before;
    SumSame(before, Cost(t), Cost(u));
    SumSame(before, Hours(t), Hours(u));
    if Selects(q, k, row) {
      SumRemove(after, Cost(u), k);
      SumRemove(after, Hours(u), k);
      assert after - {k} == before;
    }
  }

  /** What a first upsert stores, a report of the config's tenant finds: its totals are the sums of the
      cost and of the hours of the API's rows of its range. */
  lemma {:induction false} UpsertedTotals(c: Config, rows: seq<LabourRow>, q: Query)
    requires DistinctKeys(rows, c) && q.tenant == c.tenant && (q.location.None? || q.location == c.location)
    ensures var t := Upserted(map[], c, rows);
      && Totals(t, q, Cost(t)) == ApiCost(rows, q.start, q.end)
      && Totals(t, q, Hours(t)) == ApiHours(rows, q.start, q.end)
    decreases |rows|
  {
    if rows == [] {
      assert Selected(map[], q) == {};
    } else {
      var n := |rows| - 1;
      var t, k := Upserted(map[], c, rows[..n]), KeyOf(c, rows[n]);
      UpsertedTotals(c, rows[..n], q);
      LastKeyIsNew(c, rows, n);
      TotalOfOneMore(t, q, k, RowOf(c, rows[n]));
    }
  }

  lemma LastKeyIsNew(c: Config, rows: seq<LabourRow>, n: nat)
    requires DistinctKeys(rows, c) && |rows| == n + 1
    ensures KeyOf(c, rows[n]) !in Upserted(map[], c, rows[..n])
  {
    var k := KeyOf(c, rows[n]);
    UpsertedLookup(map[], c, rows[..n], k);
    forall i | 0 <= i < n
      ensures KeyOf(c, rows[..n][i]) != k
    {
      assert rows[..n][i] == rows[i];
    }
    NotFound(rows[..n], c, k);
  }

  lemma {:induction false} NotFound(rows: seq<LabourRow>, c: Config, k: Key)
    requires forall i :: 0 <= i < |rows| ==> KeyOf(c, rows[i]) != k
    ensures Find(rows, c, k).None?
    decreases |rows|
  {
    if rows != [] {
      NotFound(rows[..|rows| - 1], c, k);
    }
  }

  lemma {:induction false} PullKeepsSums(api: seq<LabourRow>, r: Range)
    ensures ApiCost(Pull(api, Days(r)), r.first, r.last) == ApiCost(api, r.first, r.last)
    ensures ApiHours(Pull(api, Days(r)), r.first, r.last) == ApiHours(api, r.first, r.last)
    decreases |api|
  {
    if api != [] {
      var n := |api| - 1;
      PullKeepsSums(api[..n], r);
      PullStep(api, r, n);
      var pulled := Pull(api[..n], Days(r));
      assert (pulled + [api[n]])[..|pulled|] == pulled;
    }
  }

  lemma PullStep(api: seq<LabourRow>, r: Range, n: nat)
    requires |api| == n + 1
    ensures Pull(api, Days(r))
         == if r.first <= api[n].date <= r.last then Pull(api[..n], Days(r)) + [api[n]] else Pull(api[..n], Days(r))
  {
    assert api[n].date in Days(r) <==> r.Has(api[n].date);
  }

  /** End to end: after a first sync that succeeds, the labour totals of its range are the sums of the
      cost and of the hours of the API's rows on its dates. */
  lemma SyncedTotals(c: Config, api: seq<LabourRow>, r: Range, failing: Option<nat>)
    requires SyncSucceeds(c, api, r, failing)
    ensures var t, q := AfterSync(map[], c, api, r, failing), Query(c.tenant, r.first, r.last, None);
      && Totals(t, q, Cost(t)) == ApiCost(api, r.first, r.last)
      && Totals(t, q, Hours(t)) == ApiHours(api, r.first, r.last)
  {
    PullDistinctIff(api, c, Days(r));
    UpsertedTotals(c, Pull(api, Days(r)), Query(c.tenant, r.first, r.last, None));
    PullKeepsSums(api, r);
  }
}
