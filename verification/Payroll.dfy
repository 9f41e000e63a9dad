/**
 The payroll summary report by two routes: the CSV export, and the cells a vision model
 transcribes from a screenshot. Both are meant to yield the same labour costs.
 */
module Payroll {
  import opened Wrappers

  // ---------------------------------------------------------------------------------------
  // Columns
  // ---------------------------------------------------------------------------------------

  /** The grouping cell that owns column i: the nearest non-blank one at or left of it. */
  function OwnerAt(grouping: seq<string>, i: int): string
    requires i >= -1
    decreases i
  {
    if i < 0 then "" else if i < |grouping| && grouping[i] != "" then grouping[i] else OwnerAt(grouping, i - 1)
  }

  /** Forward-fills the merged grouping row; cells are stripped and in lower case. */
  method GroupOwners(grouping: seq<string>, width: nat) returns (owners: seq<string>)
    ensures |owners| == width
    ensures forall i :: 0 <= i < width ==> owners[i] == OwnerAt(grouping, i)
  {
    owners := [];
    var current := "";
    for i := 0 to width
      invariant |owners| == i && current == OwnerAt(grouping, i - 1)
      invariant forall k :: 0 <= k < i ==> owners[k] == OwnerAt(grouping, k)
    {
      if i < |grouping| && grouping[i] != "" {
        current := grouping[i];
      }
      owners := owners + [current];
    }
  }

  predicate BlankBetween(grouping: seq<string>, k: int, i: int)
    requires k >= -1
  {
    forall j :: k < j <= i && j < |grouping| ==> grouping[j] == ""
  }

  lemma {:induction false} OwnerIsNearest(grouping: seq<string>, i: int)
    requires i >= 0
    ensures OwnerAt(grouping, i) != "" ==>
      exists k :: 0 <= k <= i && k < |grouping| && grouping[k] == OwnerAt(grouping, i) && BlankBetween(grouping, k, i)
    ensures OwnerAt(grouping, i) == "" ==> BlankBetween(grouping, -1, i)
    decreases i
  {
    if i > 0 && !(i < |grouping| && grouping[i] != "") {
      OwnerIsNearest(grouping, i - 1);
    }
  }

  datatype Columns = Columns(payDate: nat, gross: nat, employerCpp: Option<nat>, employerEi: Option<nat>,
                             wcb: Option<nat>)

  /** A column with this header and, when an owner is named, under this group. */
  predicate Qualifies(headers: seq<string>, grouping: seq<string>, header: string, owner: Option<string>, i: int) {
    0 <= i < |headers| && headers[i] == header && (owner.Some? ==> OwnerAt(grouping, i) == owner.value)
  }

  /** The first column that qualifies. */
  ghost predicate IsFirst(headers: seq<string>, grouping: seq<string>, header: string, owner: Option<string>,
                          r: Option<nat>) {
    if r.None? then forall i :: !Qualifies(headers, grouping, header, owner, i)
    else
      && Qualifies(headers, grouping, header, owner, r.value)
      && forall i :: 0 <= i < r.value ==> !Qualifies(headers, grouping, header, owner, i)
  }

  method FindColumn(headers: seq<string>, grouping: seq<string>, owners: seq<string>, header: string,
                    owner: Option<string>)
    returns (r: Option<nat>)
    requires |owners| == |headers| && forall i :: 0 <= i < |owners| ==> owners[i] == OwnerAt(grouping, i)
    ensures IsFirst(headers, grouping, header, owner, r)
  {
    for i := 0 to |headers|
      invariant forall k :: 0 <= k < i ==> !Qualifies(headers, grouping, header, owner, k)
    {
      if headers[i] == header && (owner.None? || owners[i] == owner.value) {
        return Some(i);
      }
    }
    return None;
  }

  /** The summary layout, or None for another report. Employer CPP and EI are read from the employer
      group only, never from the identically named employee columns. */
  method SummaryColumns(headers: seq<string>, grouping: seq<string>) returns (r: Option<Columns>)
    ensures r.Some? <==> "total gross" in headers && "pay date" in headers
    ensures r.Some? ==>
      && IsFirst(headers, grouping, "pay date", None, Some(r.value.payDate))
      && IsFirst(headers, grouping, "total gross", None, Some(r.value.gross))
      && IsFirst(headers, grouping, "total cpp", Some("employer"), r.value.employerCpp)
      && IsFirst(headers, grouping, "total ei", Some("employer"), r.value.employerEi)
      && IsFirst(headers, grouping, "total wcb", None, r.value.wcb)
  {
    var owners := GroupOwners(grouping, |headers|);
    var gross := FindColumn(headers, grouping, owners, "total gross", None);
    var payDate := FindColumn(headers, grouping, owners, "pay date", None);
    if gross.None? || payDate.None? {
      forall i | 0 <= i < |headers|
        ensures (gross.None? ==> headers[i] != "total gross") && (payDate.None? ==> headers[i] != "pay date")
      {
        assert Qualifies(headers, grouping, headers[i], None, i);
      }
      return None;
    }
    var cpp := FindColumn(headers, grouping, owners, "total cpp", Some("employer"));
    var ei := FindColumn(headers, grouping, owners, "total ei", Some("employer"));
    var wcb := FindColumn(headers, grouping, owners, "total wcb", None);
    return Some(Columns(payDate.value, gross.value, cpp, ei, wcb));
  }

  // ---------------------------------------------------------------------------------------
  // Rows
  // ---------------------------------------------------------------------------------------

  /** A CSV cell: its text stripped and in lower case, and what it reads as an amount and as a date. */
  datatype Cell = Cell(text: string, amount: Option<real>, date: Option<int>)

  /** One labour cost: a day and an amount. */
  datatype Cost = Cost(date: int, amount: real)

  datatype PayrollError = NoRows

  predicate IsTotalLabel(s: string) {
    s == "total" || s == "totals" || s == "grand total"
  }

  /** What one report row says, whichever route reads it. */
  datatype Reading = Reading(isTotal: bool, date: Option<int>, gross: Option<real>, cpp: Option<real>, ei: Option<real>,
                             wcb: Option<real>) {
    function DateOr(fallback: Option<int>): Option<int> {
      if date.Some? then date else fallback
    }

    /** Employer-side cost on top of the gross. */
    function Burden(): real {
      OrZero(cpp) + OrZero(ei) + OrZero(wcb)
    }

    /** A row that either route considers at all. */
    predicate Counts(fallback: Option<int>) {
      !isTotal && DateOr(fallback).Some?
    }
  }

  function OrZero(v: Option<real>): real {
    if v.Some? then v.value else 0.0
  }

  function AmountIn(row: seq<Cell>, column: Option<nat>): Option<real> {
    if column.None? || column.value >= |row| then None else row[column.value].amount
  }

  /** A CSV row under the summary layout. */
  function ReadCsv(row: seq<Cell>, c: Columns): Reading {
    Reading(row != [] && IsTotalLabel(row[0].text),
            if c.payDate < |row| then row[c.payDate].date else None,
            AmountIn(row, Some(c.gross)), AmountIn(row, c.employerCpp), AmountIn(row, c.employerEi),
            AmountIn(row, c.wcb))
  }

  /** A transcribed row: a reading plus the report's own total column, if it shows one. */
  datatype VisionRow = VisionRow(reading: Reading, fullyBurdened: Option<real>)

  /** The CSV route keeps every non-zero cost and takes a missing gross as zero. */
  function CsvCosts(r: Reading, fallback: Option<int>): seq<Cost> {
    var amount := OrZero(r.gross) + r.Burden();
    if !r.Counts(fallback) || amount == 0.0 then [] else [Cost(r.DateOr(fallback).value, amount)]
  }

  /** The vision route keeps positive costs only and without a gross uses the total column. */
  function VisionCosts(v: VisionRow, fallback: Option<int>): seq<Cost> {
    var r := v.reading;
    var amount := if r.gross.Some? then r.gross.value + r.Burden() else OrZero(v.fullyBurdened);
    if !r.Counts(fallback) || amount <= 0.0 then [] else [Cost(r.DateOr(fallback).value, amount)]
  }

  function AllCsvCosts(rows: seq<Reading>, fallback: Option<int>): seq<Cost> {
    if rows == [] then [] else AllCsvCosts(rows[..|rows| - 1], fallback) + CsvCosts(rows[|rows| - 1], fallback)
  }

  function AllVisionCosts(rows: seq<VisionRow>, fallback: Option<int>): seq<Cost> {
    if rows == [] then [] else AllVisionCosts(rows[..|rows| - 1], fallback) + VisionCosts(rows[|rows| - 1], fallback)
  }

  function ReadAll(rows: seq<seq<Cell>>, c: Columns): seq<Reading> {
    seq(|rows|, i requires 0 <= i < |rows| => ReadCsv(rows[i], c))
  }

  lemma OneMoreReading(rows: seq<seq<Cell>>, c: Columns, n: nat, fallback: Option<int>)
    requires n < |rows|
    ensures AllCsvCosts(ReadAll(rows, c)[..n + 1], fallback)
         == AllCsvCosts(ReadAll(rows, c)[..n], fallback) + CsvCosts(ReadCsv(rows[n], c), fallback)
  {
    assert ReadAll(rows, c)[..n + 1][..n] == ReadAll(rows, c)[..n];
    assert ReadAll(rows, c)[n] == ReadCsv(rows[n], c);
  }

  /** The body of the row loop; None where it continues with the next row. */
  method CostOfRow(row: seq<Cell>, c: Columns, fallback: Option<int>) returns (r: Option<Cost>)
    ensures CsvCosts(ReadCsv(row, c), fallback) == if r.Some? then [r.value] else []
  {
    if row != [] && IsTotalLabel(row[0].text) {
      return None;
    }
    var payDate := if c.payDate < |row| then row[c.payDate].date else None;
    if payDate.None? {
      payDate := fallback;
    }
    if payDate.None? {
      return None;
    }
    var gross := OrZero(AmountIn(row, Some(c.gross)));
    var burden := OrZero(AmountIn(row, c.employerCpp)) + OrZero(AmountIn(row, c.employerEi))
      + OrZero(AmountIn(row, c.wcb));
    return if gross + burden == 0.0 then None else Some(Cost(payDate.value, gross + burden));
  }

  /** _parse_summary. */
  method ParseSummary(rows: seq<seq<Cell>>, c: Columns, fallback: Option<int>)
    returns (r: Result<seq<Cost>, PayrollError>)
    ensures var costs := AllCsvCosts(ReadAll(rows, c), fallback);
      r == if costs == [] then Err(NoRows) else Ok(costs)
  {
    var items: seq<Cost> := [];
    for n := 0 to |rows|
      invariant items == AllCsvCosts(ReadAll(rows, c)[..n], fallback)
    {
      OneMoreReading(rows, c, n, fallback);
      var cost := CostOfRow(rows[n], c, fallback);
      if cost.Some? {
        items := items + [cost.value];
      }
    }
    assert ReadAll(rows, c)[..|rows|] == ReadAll(rows, c);
    return if items == [] then Err(NoRows) else Ok(items);
  }

  /** The row loop of extract_pushops_image. */
  method ExtractRows(rows: seq<VisionRow>, fallback: Option<int>) returns (r: Result<seq<Cost>, PayrollError>)
    ensures var costs := AllVisionCosts(rows, fallback);
      r == if costs == [] then Err(NoRows) else Ok(costs)
  {
    var items: seq<Cost> := [];
    var n := 0;
    while n < |rows|
      invariant 0 <= n <= |rows|
      invariant items == AllVisionCosts(rows[..n], fallback)
    {
      var row := rows[n].reading;
      assert rows[..n + 1][..n] == rows[..n];
      n := n + 1;
      if row.isTotal {
        continue;
      }
      var payDate := if row.date.Some? then row.date else fallback;
      if payDate.None? {
        continue;
      }
      var amount := OrZero(rows[n - 1].fullyBurdened);
      if row.gross.Some? {
        amount := row.gross.value + OrZero(row.cpp) + OrZero(row.ei) + OrZero(row.wcb);
      }
      if amount <= 0.0 {
        continue;
      }
      items := items + [Cost(payDate.value, amount)];
    }
    assert rows[..n] == rows;
    return if items == [] then Err(NoRows) else Ok(items);
  }

  // ---------------------------------------------------------------------------------------
  // Agreement
  // ---------------------------------------------------------------------------------------

  function Readings(rows: seq<VisionRow>): seq<Reading> {
    seq(|rows|, i requires 0 <= i < |rows| => rows[i].reading)
  }

  /** A dated row, not a total, whose gross and burden come to less than zero. */
  predicate IsNegative(r: Reading, fallback: Option<int>) {
    r.Counts(fallback) && OrZero(r.gross) + r.Burden() < 0.0
  }

  lemma {:induction false} CostsByRow(rows: seq<VisionRow>, fallback: Option<int>)
    requires forall v :: v in rows && v.reading.Counts(fallback) ==> v.reading.gross.Some?
    ensures var csv, vision := AllCsvCosts(Readings(rows), fallback), AllVisionCosts(rows, fallback);
      && |vision| <= |csv|
      && (|vision| == |csv| <==> forall v :: v in rows ==> !IsNegative(v.reading, fallback))
      && (|vision| == |csv| ==> vision == csv)
    decreases |rows|
  {
    if rows != [] {
      var n := |rows| - 1;
      CostsByRow(rows[..n], fallback);
      assert Readings(rows)[..n] == Readings(rows[..n]);
      assert rows == rows[..n] + [rows[n]];
      assert forall v :: v in rows <==> v in rows[..n] || v == rows[n];
    }
  }

  /** When every counted row shows a gross, the two routes yield the same sequence of costs exactly
      when no row comes to a negative cost: the CSV route books corrections, the vision route drops them. */
  lemma RoutesWithGrossAgreeIff(rows: seq<VisionRow>, fallback: Option<int>)
    requires forall v :: v in rows && v.reading.Counts(fallback) ==> v.reading.gross.Some?
    ensures AllCsvCosts(Readings(rows), fallback) == AllVisionCosts(rows, fallback)
      <==> forall v :: v in rows ==> !IsNegative(v.reading, fallback)
  {
    CostsByRow(rows, fallback);
  }

  /** On a single row without a gross the routes agree exactly when the burden is what the report's
      total column shows, or when neither is a cost. */
  lemma RowWithoutGrossAgreesIff(v: VisionRow, fallback: Option<int>)
    requires v.reading.gross.None?
    ensures CsvCosts(v.reading, fallback) == VisionCosts(v, fallback) <==>
      || !v.reading.Counts(fallback)
      || (v.reading.Burden() == 0.0 && OrZero(v.fullyBurdened) <= 0.0)
      || (v.reading.Burden() == OrZero(v.fullyBurdened) && v.reading.Burden() > 0.0)
  {
    var d := v.reading.DateOr(fallback);
    if v.reading.Counts(fallback) {
      assert [Cost(d.value, v.reading.Burden())][0].amount == v.reading.Burden();
    }
  }

  /** A correction row: minus one hundred gross on day 7. */
  lemma NegativeRowShowsTheDifference()
    ensures var row := VisionRow(Reading(false, Some(7), Some(-100.0), None, None, None), None);
      AllCsvCosts(Readings([row]), None) == [Cost(7, -100.0)] && AllVisionCosts([row], None) == []
  {
    var row := VisionRow(Reading(false, Some(7), Some(-100.0), None, None, None), None);
    assert Readings([row]) == [row.reading];
    assert [row][..0] == [] && [row.reading][..0] == [];
  }

  /** When the routes agree on a row: not negative with a gross; without one, the burden is what the
      total column shows, or neither is a cost. */
  predicate RowAgrees(v: VisionRow, fallback: Option<int>) {
    var r := v.reading;
    || !r.Counts(fallback)
    || (r.gross.Some? && r.gross.value + r.Burden() >= 0.0)
    || (r.gross.None? && r.Burden() == 0.0 && OrZero(v.fullyBurdened) <= 0.0)
    || (r.gross.None? && r.Burden() == OrZero(v.fullyBurdened) && r.Burden() > 0.0)
  }

  lemma RowAgreesIff(v: VisionRow, fallback: Option<int>)
    ensures CsvCosts(v.reading, fallback) == VisionCosts(v, fallback) <==> RowAgrees(v, fallback)
  {
    if v.reading.gross.None? {
      RowWithoutGrossAgreesIff(v, fallback);
    }
  }

  /** The routes yield the same costs for the first n rows. */
  predicate AgreeUpTo(rows: seq<VisionRow>, fallback: Option<int>, n: nat)
    requires n <= |rows|
  {
    AllCsvCosts(Readings(rows[..n]), fallback) == AllVisionCosts(rows[..n], fallback)
  }

  lemma OneMoreRow(rows: seq<VisionRow>, fallback: Option<int>, n: nat)
    requires n < |rows| && AgreeUpTo(rows, fallback, n)
    ensures AgreeUpTo(rows, fallback, n + 1) <==> RowAgrees(rows[n], fallback)
  {
    var costs := AllVisionCosts(rows[..n], fallback);
    var csv, vision := CsvCosts(rows[n].reading, fallback), VisionCosts(rows[n], fallback);
    assert rows[..n + 1][..n] == rows[..n];
    assert Readings(rows[..n + 1])[..n] == Readings(rows[..n]);
    assert (costs + csv)[|costs|..] == csv && (costs + vision)[|costs|..] == vision;
    RowAgreesIff(rows[n], fallback);
  }

  /** For every table, with or without gross figures, the two routes yield the same costs all along,
      after each row, if and only if they agree on each row. */
  lemma {:induction false} RoutesAgreeIff(rows: seq<VisionRow>, fallback: Option<int>, n: nat)
    requires n <= |rows|
    ensures (forall k: nat :: k <= n ==> AgreeUpTo(rows, fallback, k))
      <==> forall k: nat :: k < n ==> RowAgrees(rows[k], fallback)
  {
    if n == 0 {
      assert rows[..0] == [];
    } else {
      RoutesAgreeIff(rows, fallback, n - 1);
      if AgreeUpTo(rows, fallback, n - 1) {
        OneMoreRow(rows, fallback, n - 1);
      }
    }
  }

  /** A row without a gross or a burden whose total column shows fifty. */
  lemma TotalColumnShowsTheDifference()
    ensures var row := VisionRow(Reading(false, Some(7), None, None, None, None), Some(50.0));
      AllCsvCosts(Readings([row]), None) == [] && AllVisionCosts([row], None) == [Cost(7, 50.0)]
  {
    var row := VisionRow(Reading(false, Some(7), None, None, None, None), Some(50.0));
    assert Readings([row]) == [row.reading];
    assert [row][..0] == [] && [row.reading][..0] == [];
  }

  /** Two rows that differ in opposite ways: the routes disagree on each, and still end with the same costs. */
  lemma DifferencesCanCancel()
    ensures var burdenOnly := VisionRow(Reading(false, Some(7), None, Some(5.0), None, None), None);
      var totalOnly := VisionRow(Reading(false, Some(7), None, None, None, None), Some(5.0));
      && !RowAgrees(burdenOnly, None) && !RowAgrees(totalOnly, None)
      && AllCsvCosts(Readings([burdenOnly, totalOnly]), None) == AllVisionCosts([burdenOnly, totalOnly], None)
  {
    var burdenOnly := VisionRow(Reading(false, Some(7), None, Some(5.0), None, None), None);
    var totalOnly := VisionRow(Reading(false, Some(7), None, None, None, None), Some(5.0));
    var rows, readings := [burdenOnly, totalOnly], [burdenOnly.reading, totalOnly.reading];
    assert Readings(rows) == readings;
    assert rows[..1] == [burdenOnly] && rows[..1][..0] == [];
    assert readings[..1] == [burdenOnly.reading] && readings[..1][..0] == [];
    assert AllCsvCosts(readings[..1], None) == [Cost(7, 5.0)] && AllVisionCosts(rows[..1], None) == [];
  }

  // ---------------------------------------------------------------------------------------
  // Where each figure comes from
  // ---------------------------------------------------------------------------------------

  /** A CSV row's reading takes its date and every amount from the column the layout found for it, and
      nothing from a column that is missing or beyond the row. */
  lemma ReadingInFields(row: seq<Cell>, c: Columns)
    ensures var r := ReadCsv(row, c);
      && (r.isTotal <==>
            row != [] && (row[0].text == "total" || row[0].text == "totals" || row[0].text == "grand total"))
      && r.date == (if c.payDate < |row| then row[c.payDate].date else None)
      && r.gross == (if c.gross < |row| then row[c.gross].amount else None)
      && r.cpp == (if c.employerCpp.Some? && c.employerCpp.value < |row| then row[c.employerCpp.value].amount else None)
      && r.ei == (if c.employerEi.Some? && c.employerEi.value < |row| then row[c.employerEi.value].amount else None)
      && r.wcb == (if c.wcb.Some? && c.wcb.value < |row| then row[c.wcb.value].amount else None)
  {
  }

  function Given(v: Option<real>): real {
    match v
    case None => 0.0
    case Some(x) => x
  }

  /** A row costs its gross plus employer CPP, EI and WCB, on its own date or else the fallback. Both routes
      agree on that, except that the vision route needs a gross, falls back to the total column without
      one, and drops what is not positive. */
  lemma CostInFields(v: VisionRow, fallback: Option<int>)
    ensures var r := v.reading;
      var employer := Given(r.cpp) + Given(r.ei) + Given(r.wcb);
      var date := if r.date.Some? then r.date else fallback;
      var amount := if r.gross.Some? then r.gross.value + employer else Given(v.fullyBurdened);
      && (r.isTotal || date.None? ==> CsvCosts(r, fallback) == [] && VisionCosts(v, fallback) == [])
      && (!r.isTotal && date.Some? ==>
            && CsvCosts(r, fallback)
               == (if Given(r.gross) + employer == 0.0 then [] else [Cost(date.value, Given(r.gross) + employer)])
            && VisionCosts(v, fallback) == (if amount > 0.0 then [Cost(date.value, amount)] else []))
  {
  }
}
