/**
 One week's COGS report: purchases collected from invoices or entered by hand, opening and
 ending inventory, and the rounded figures that are displayed.
 */
module CogsReport {
  import opened Wrappers
  import opened Money
  import opened CogsAmounts
  import opened CogsChain
  import NetSales

  // ---------------------------------------------------------------------------------------
  // Purchases from invoices
  // ---------------------------------------------------------------------------------------

  predicate Counted(e: ExpenseRow, c: Count, window: (int, int)) {
    Collected(e, c.tenant, c.location, window) && e.amount.Some?
  }

  /** The invoices of one expense category. */
  function SumOf(rows: seq<ExpenseRow>, c: Count, window: (int, int), category: ExpenseCategory): real {
    if rows == [] then 0.0
    else
      var e := rows[|rows| - 1];
      SumOf(rows[..|rows| - 1], c, window, category)
      + if Counted(e, c, window) && e.category == category then e.amount.value else 0.0
  }

  function DocumentsOf(rows: seq<ExpenseRow>, c: Count, window: (int, int)): set<nat> {
    set e | e in rows && Counted(e, c, window) :: e.document
  }

  /** Beverage and packaging invoices go to their own category, a positive food total is split over
      the food categories. */
  function InvoicePurchases(rows: seq<ExpenseRow>, c: Count, window: (int, int)): Amounts {
    var food := SumOf(rows, c, window, FoodCost);
    (if food > 0.0 then SplitFood(food, c.ending) else ZEROS).Plus(DirectPurchases(rows, c, window))
  }

  function DirectPurchases(rows: seq<ExpenseRow>, c: Count, window: (int, int)): Amounts {
    ZEROS.Set(Beverage, SumOf(rows, c, window, BeverageCost)).Set(Packaging, SumOf(rows, c, window, PackagingCost))
  }

  lemma OneMoreRow(rows: seq<ExpenseRow>, n: nat, c: Count, window: (int, int))
    requires n < |rows|
    ensures var e := rows[n];
      && InvoiceSum(rows[..n + 1], c.tenant, c.location, window)
         == InvoiceSum(rows[..n], c.tenant, c.location, window)
            + (if Counted(e, c, window) then e.amount.value else 0.0)
      && (forall k :: SumOf(rows[..n + 1], c, window, k) ==
            SumOf(rows[..n], c, window, k) + (if Counted(e, c, window) && e.category == k then e.amount.value else 0.0))
      && DocumentsOf(rows[..n + 1], c, window)
         == DocumentsOf(rows[..n], c, window) + (if Counted(e, c, window) then {e.document} else {})
  {
    assert rows[..n + 1] == rows[..n] + [rows[n]];
    assert rows[..n + 1][..n] == rows[..n];
  }

  /** The first loop of _invoice_purchases: one pass over the selected rows. */
  method Tally(rows: seq<ExpenseRow>, c: Count, window: (int, int))
    returns (direct: Amounts, food: real, documents: set<nat>, total: real)
    ensures direct == DirectPurchases(rows, c, window)
    ensures food == SumOf(rows, c, window, FoodCost)
    ensures documents == DocumentsOf(rows, c, window)
    ensures total == InvoiceSum(rows, c.tenant, c.location, window)
  {
    direct, food, documents, total := ZEROS, 0.0, {}, 0.0;
    var n := 0;
    while n < |rows|
      invariant 0 <= n <= |rows|
      invariant direct == DirectPurchases(rows[..n], c, window)
      invariant food == SumOf(rows[..n], c, window, FoodCost)
      invariant documents == DocumentsOf(rows[..n], c, window)
      invariant total == InvoiceSum(rows[..n], c.tenant, c.location, window)
    {
      OneMoreRow(rows, n, c, window);
      var e := rows[n];
      if Counted(e, c, window) {
        var amount := e.amount.value;
        total := total + amount;
        documents := documents + {e.document};
        match e.category
        case BeverageCost => direct := direct.Set(Beverage, direct.beverage + amount);
        case PackagingCost => direct := direct.Set(Packaging, direct.packaging + amount);
        case _ => food := food + amount;
      }
      n := n + 1;
    }
    assert rows[..n] == rows;
  }

  /** Its second loop: a positive food total is spread over the food categories. */
  method AllocateFood(direct: Amounts, food: real, ending: Amounts) returns (byCategory: Amounts)
    ensures byCategory == (if food > 0.0 then SplitFood(food, ending) else ZEROS).Plus(direct)
  {
    byCategory := direct;
    if food > 0.0 {
      var base := ending.Food();
      for i := 0 to 4
        invariant forall k ::
          byCategory.At(k) == direct.At(k) + if Rank(k) < i then SplitFood(food, ending).At(k) else 0.0
      {
        var k := CATEGORIES[i];
        var share := Share(food, ending.At(k), base, 4.0);
        byCategory := byCategory.Set(k, byCategory.At(k) + share);
      }
    }
    SameAmounts(byCategory, (if food > 0.0 then SplitFood(food, ending) else ZEROS).Plus(direct));
  }

  method CollectInvoices(rows: seq<ExpenseRow>, c: Count, window: (int, int))
    returns (byCategory: Amounts, invoices: nat, total: real)
    ensures byCategory == InvoicePurchases(rows, c, window)
    ensures invoices == |DocumentsOf(rows, c, window)|
    ensures total == Quantize(InvoiceSum(rows, c.tenant, c.location, window))
  {
    var direct, food, documents, sum := Tally(rows, c, window);
    byCategory := AllocateFood(direct, food, c.ending);
    invoices, total := |documents|, Quantize(sum);
  }

  lemma SameAmounts(a: Amounts, b: Amounts)
    requires forall k :: a.At(k) == b.At(k)
    ensures a == b
  {
    assert a.At(Protein) == b.At(Protein) && a.At(Cheesecake) == b.At(Cheesecake) && a.At(Grocery) == b.At(Grocery);
    assert a.At(Produce) == b.At(Produce) && a.At(Beverage) == b.At(Beverage) && a.At(Packaging) == b.At(Packaging);
  }

  lemma {:induction false} SumsByCategory(rows: seq<ExpenseRow>, c: Count, window: (int, int))
    ensures InvoiceSum(rows, c.tenant, c.location, window)
         == SumOf(rows, c, window, FoodCost) + SumOf(rows, c, window, BeverageCost)
           + SumOf(rows, c, window, PackagingCost)
    decreases |rows|
  {
    if rows != [] {
      SumsByCategory(rows[..|rows| - 1], c, window);
    }
  }

  /** The purchases per category add up to the invoices exactly when the food invoices do not sum to
      a negative amount: net food credits are left out of every category. */
  lemma InvoicePurchasesConserveIff(rows: seq<ExpenseRow>, c: Count, window: (int, int))
    ensures InvoicePurchases(rows, c, window).Total() == InvoiceSum(rows, c.tenant, c.location, window)
      <==> SumOf(rows, c, window, FoodCost) >= 0.0
  {
    SumsByCategory(rows, c, window);
    var food, direct := SumOf(rows, c, window, FoodCost), DirectPurchases(rows, c, window);
    assert direct.Total() == SumOf(rows, c, window, BeverageCost) + SumOf(rows, c, window, PackagingCost);
    AllocationTotal(food, c.ending, direct);
  }

  lemma AllocationTotal(food: real, ending: Amounts, direct: Amounts)
    ensures (if food > 0.0 then SplitFood(food, ending) else ZEROS).Plus(direct).Total()
         == direct.Total() + if food > 0.0 then food else 0.0
  {
    if food > 0.0 {
      SplitFoodConserves(food, ending);
      PlusTotal(SplitFood(food, ending), direct);
    } else {
      PlusTotal(ZEROS, direct);
    }
  }

  lemma {:induction false} SumsAreCents(rows: seq<ExpenseRow>, c: Count, window: (int, int), category: ExpenseCategory)
    requires forall e :: e in rows && e.amount.Some? ==> IsCents(e.amount.value)
    ensures IsCents(SumOf(rows, c, window, category))
    decreases |rows|
  {
    if rows == [] {
      CentsOf(0);
    } else {
      var e := rows[|rows| - 1];
      SumsAreCents(rows[..|rows| - 1], c, window, category);
      if Counted(e, c, window) && e.category == category {
        CentsAdd(SumOf(rows[..|rows| - 1], c, window, category), e.amount.value);
      }
    }
  }

  lemma RoundingFoodOnly(m: Amounts, total: real)
    requires IsCents(m.beverage) && IsCents(m.packaging) && m.Total() == total
    ensures Abs(m.Rounded().Total() - total) <= 0.02
  {
    RoundedIsNear(m);
    QuantizeFixesCents(m.beverage);
    QuantizeFixesCents(m.packaging);
  }

  predicate WithinTwoCents(m: Amounts, total: real) {
    Abs(m.Rounded().Total() - total) <= 0.02
  }

  ghost predicate ArePurchases(m: Amounts, rows: seq<ExpenseRow>, c: Count, window: (int, int)) {
    forall k {:trigger InvoicePurchases(rows, c, window).At(k)} :: m.At(k) == InvoicePurchases(rows, c, window).At(k)
  }

  lemma PurchasesAreThese(m: Amounts, rows: seq<ExpenseRow>, c: Count, window: (int, int))
    requires ArePurchases(m, rows, c, window)
    ensures m == InvoicePurchases(rows, c, window)
  {
    forall k: Category
      ensures m.At(k) == InvoicePurchases(rows, c, window).At(k)
    {
    }
    SameAmounts(m, InvoicePurchases(rows, c, window));
  }

  lemma DirectPurchasesArePassedOn(rows: seq<ExpenseRow>, c: Count, window: (int, int))
    ensures InvoicePurchases(rows, c, window).beverage == SumOf(rows, c, window, BeverageCost)
    ensures InvoicePurchases(rows, c, window).packaging == SumOf(rows, c, window, PackagingCost)
  {
    var m := InvoicePurchases(rows, c, window);
    assert m.beverage == 0.0 + SumOf(rows, c, window, BeverageCost);
    assert m.packaging == 0.0 + SumOf(rows, c, window, PackagingCost);
  }

  lemma PurchasesAreCentsButFood(m: Amounts, rows: seq<ExpenseRow>, c: Count, window: (int, int))
    requires ArePurchases(m, rows, c, window)
    requires forall e :: e in rows && e.amount.Some? ==> IsCents(e.amount.value)
    requires SumOf(rows, c, window, FoodCost) >= 0.0
    ensures m.Total() == InvoiceSum(rows, c.tenant, c.location, window)
    ensures IsCents(m.beverage) && IsCents(m.packaging)
  {
    PurchasesAreThese(m, rows, c, window);
    InvoicePurchasesConserveIff(rows, c, window);
    DirectPurchasesArePassedOn(rows, c, window);
    SumsAreCents(rows, c, window, BeverageCost);
    SumsAreCents(rows, c, window, PackagingCost);
  }

  lemma PurchasesWithinTwoCents(m: Amounts, rows: seq<ExpenseRow>, c: Count, window: (int, int))
    requires ArePurchases(m, rows, c, window)
    requires forall e :: e in rows && e.amount.Some? ==> IsCents(e.amount.value)
    requires SumOf(rows, c, window, FoodCost) >= 0.0
    ensures WithinTwoCents(m, InvoiceSum(rows, c.tenant, c.location, window))
  {
    PurchasesAreCentsButFood(m, rows, c, window);
    RoundingFoodOnly(m, InvoiceSum(rows, c.tenant, c.location, window));
  }

  /** After rounding, the purchases per category of cent-valued invoices are off by at most two cents
      in total: only the four food shares are rounded at all. */
  lemma InvoicePurchasesWithinTwoCents(rows: seq<ExpenseRow>, c: Count, window: (int, int))
    requires forall e :: e in rows && e.amount.Some? ==> IsCents(e.amount.value)
    requires SumOf(rows, c, window, FoodCost) >= 0.0
    ensures WithinTwoCents(InvoicePurchases(rows, c, window), InvoiceSum(rows, c.tenant, c.location, window))
  {
    PurchasesWithinTwoCents(InvoicePurchases(rows, c, window), rows, c, window);
  }

  // ---------------------------------------------------------------------------------------
  // The report
  // ---------------------------------------------------------------------------------------

  datatype Source = Manual | Invoices | Sheet

  /** A manual total wins over invoices, invoices over the sheet's own column. */
  function BasePurchases(table: seq<Count>, rows: seq<ExpenseRow>, c: Count): (Amounts, Source) {
    var window := WindowOf(table, c);
    if c.purchasesOverride.Some? then (Split(c.purchasesOverride.value, c.ending).Rounded(), Manual)
    else if Quantize(InvoiceSum(rows, c.tenant, c.location, window)) > 0.0
    then (InvoicePurchases(rows, c, window).Rounded(), Invoices)
    else (c.sheetPurchases, Sheet)
  }

  function OtherTotal(c: Count): real {
    if c.otherPurchases.Some? then c.otherPurchases.value else 0.0
  }

  function Purchases(table: seq<Count>, rows: seq<ExpenseRow>, c: Count): Amounts {
    BasePurchases(table, rows, c).0.Plus(if OtherTotal(c) != 0.0 then Split(OtherTotal(c), c.ending) else ZEROS)
  }

  /** A week's inventory and purchases per category, before rounding. */
  datatype Figures = Figures(opening: Amounts, purchases: Amounts, ending: Amounts) {
    function Cogs(): Amounts {
      opening.Plus(purchases).Minus(ending)
    }

    function LineOf(k: Category): Line {
      Line(opening.At(k), purchases.At(k), ending.At(k), Cogs().At(k))
    }

    function Totals(): Line {
      Line(opening.Total(), purchases.Total(), ending.Total(), Cogs().Total())
    }
  }

  function FiguresOf(table: seq<Count>, rows: seq<ExpenseRow>, c: Count): Figures {
    Figures(Opening(table, c), Purchases(table, rows, c), c.ending)
  }

  // The first count of a location with a food credit of a dollar and a beverage invoice of five.

  function CreditRows(c: Count): seq<ExpenseRow> {
    [ExpenseRow(c.tenant, c.location, c.week * DAY, FoodCost, Some(-1.0), 0, true),
     ExpenseRow(c.tenant, c.location, c.week * DAY, BeverageCost, Some(5.0), 1, true)]
  }

  lemma CreditSums(c: Count)
    ensures var rows, window := CreditRows(c), WindowOf([], c);
      && InvoiceSum(rows, c.tenant, c.location, window) == 4.0
      && SumOf(rows, c, window, FoodCost) == -1.0
      && SumOf(rows, c, window, BeverageCost) == 5.0 && SumOf(rows, c, window, PackagingCost) == 0.0
  {
    var rows, window := CreditRows(c), WindowOf([], c);
    assert rows[..1] == [rows[0]] && rows[..1][..0] == [];
    assert Counted(rows[0], c, window) && Counted(rows[1], c, window);
    assert InvoiceSum(rows[..1], c.tenant, c.location, window) == -1.0;
    SumOfOne(rows[0], c, window, FoodCost);
    SumOfOne(rows[0], c, window, BeverageCost);
    SumOfOne(rows[0], c, window, PackagingCost);
  }

  lemma SumOfOne(e: ExpenseRow, c: Count, window: (int, int), category: ExpenseCategory)
    ensures SumOf([e], c, window, category)
         == if Counted(e, c, window) && e.category == category then e.amount.value else 0.0
  {
    assert [e][..0] == [];
  }

  /** The credit is in the invoice total of four dollars and in no category: the report shows five
      dollars of purchases. */
  lemma FoodCreditIsDropped(c: Count)
    requires c.purchasesOverride.None? && c.otherPurchases.None?
    ensures var rows, window := CreditRows(c), WindowOf([], c);
      && InvoiceSum(rows, c.tenant, c.location, window) == 4.0
      && InvoicePurchases(rows, c, window) == ZEROS.Set(Beverage, 5.0)
      && BasePurchases([], rows, c).1 == Invoices
      && FiguresOf([], rows, c).Totals().Rounded().purchases == 5.0
  {
    var rows, window := CreditRows(c), WindowOf([], c);
    CreditSums(c);
    assert InvoicePurchases(rows, c, window) == ZEROS.Plus(ZEROS.Set(Beverage, 5.0).Set(Packaging, 0.0));
    QuantizeIsExact(4);
    QuantizeIsExact(5);
    QuantizeIsExact(0);
    assert BasePurchases([], rows, c).0 == ZEROS.Set(Beverage, 5.0);
    assert OtherTotal(c) == 0.0;
    assert Purchases([], rows, c) == ZEROS.Set(Beverage, 5.0).Plus(ZEROS) == ZEROS.Set(Beverage, 5.0);
  }

  lemma QuantizeIsExact(n: int)
    ensures Quantize(n as real) == n as real
  {
    CentsOf(100 * n);
    QuantizeFixesCents(n as real);
  }

  /** One displayed line: a category's, or the totals'. */
  datatype Line = Line(opening: real, purchases: real, ending: real, cogs: real) {
    function Rounded(): Line {
      Line(Quantize(opening), Quantize(purchases), Quantize(ending), Quantize(cogs))
    }
  }

  /** COGS as a percentage of net sales. */
  function Percent(cogs: real, netSales: real): Option<real> {
    if netSales > 0.0 then Some(Quantize(cogs / netSales * 100.0)) else None
  }

  datatype Report = Report(
    hasPriorWeek: bool,
    netSales: real,
    source: Source,
    otherPurchases: real,
    invoices: nat,
    invoiceTotal: real,
    categories: seq<Line>,
    totals: Line,
    cogsPct: Option<real>)

  /** What a report displays of a week's figures. */
  predicate Shows(lines: seq<Line>, totals: Line, f: Figures) {
    && |lines| == |CATEGORIES|
    && (forall i :: 0 <= i < |CATEGORIES| ==> lines[i] == f.LineOf(CATEGORIES[i]).Rounded())
    && totals == f.Totals().Rounded()
  }

  /** The displayed costs of the categories, added up. */
  function CogsColumn(lines: seq<Line>): real {
    if lines == [] then 0.0 else CogsColumn(lines[..|lines| - 1]) + lines[|lines| - 1].cogs
  }

  /** The displayed category costs add up to the displayed total within three cents, and the four
      displayed totals balance within two. */
  predicate Agrees(lines: seq<Line>, totals: Line) {
    && Abs(CogsColumn(lines) - totals.cogs) <= 0.03
    && Abs(totals.opening + totals.purchases - totals.ending - totals.cogs) <= 0.02
  }

  /** `week` holds the seven days before the count, as calendar dates. */
  method ComputeCogs(table: seq<Count>, rows: seq<ExpenseRow>, c: Count,
                     orders: seq<NetSales.Order>, deposits: seq<NetSales.Deposit>, week: NetSales.Week)
    returns (r: Report)
    requires NetSales.AllValid(orders) && week.Valid()
    requires week.first.Ordinal() == c.week - 7 && week.last.Ordinal() == c.week - 1
    ensures r.hasPriorWeek == Prior(table, c).Some? && r.source == BasePurchases(table, rows, c).1
    ensures r.otherPurchases == Quantize(OtherTotal(c))
    ensures r.invoices == |DocumentsOf(rows, c, WindowOf(table, c))|
    ensures r.invoiceTotal == Quantize(Quantize(InvoiceSum(rows, c.tenant, c.location, WindowOf(table, c))))
    ensures Shows(r.categories, r.totals, FiguresOf(table, rows, c)) && Agrees(r.categories, r.totals)
    ensures var net := if c.netSalesOverride.Some? then c.netSalesOverride.value
                       else NetSales.NetSalesOf(orders, deposits, c.tenant, c.location, week);
      && r.netSales == Quantize(net)
      && r.cogsPct == Percent(FiguresOf(table, rows, c).Cogs().Total(), net)
  {
    var f, source, invoices, invoiceTotal := CollectFigures(table, rows, c);
    var net := if c.netSalesOverride.Some? then c.netSalesOverride.value
               else NetSales.NetSalesOf(orders, deposits, c.tenant, c.location, week);
    var lines, totals := DisplayLines(f);
    DisplayedFiguresAgree(lines, totals.Rounded(), f);
    r := Report(Prior(table, c).Some?, Quantize(net), source, Quantize(OtherTotal(c)), invoices, Quantize(invoiceTotal),
                lines, totals.Rounded(), Percent(totals.cogs, net));
  }

  method CollectFigures(table: seq<Count>, rows: seq<ExpenseRow>, c: Count)
    returns (f: Figures, source: Source, invoices: nat, invoiceTotal: real)
    ensures f == FiguresOf(table, rows, c) && source == BasePurchases(table, rows, c).1
    ensures invoices == |DocumentsOf(rows, c, WindowOf(table, c))|
    ensures invoiceTotal == Quantize(InvoiceSum(rows, c.tenant, c.location, WindowOf(table, c)))
  {
    var prior := Prior(table, c);
    var opening := if prior.Some? then prior.value.ending else ZEROS;
    var base;
    base, source, invoices, invoiceTotal := ChoosePurchases(table, rows, c);
    var other := if c.otherPurchases.Some? then c.otherPurchases.value else 0.0;
    var purchases := AddOther(base, other, c.ending);
    f := Figures(opening, purchases, c.ending);
  }

  method ChoosePurchases(table: seq<Count>, rows: seq<ExpenseRow>, c: Count)
    returns (purchases: Amounts, source: Source, invoices: nat, invoiceTotal: real)
    ensures c.purchasesOverride.Some? ==>
      source == Manual && purchases == Split(c.purchasesOverride.value, c.ending).Rounded()
    ensures c.purchasesOverride.None? && invoiceTotal > 0.0 ==>
      source == Invoices && purchases == InvoicePurchases(rows, c, WindowOf(table, c)).Rounded()
    ensures c.purchasesOverride.None? && invoiceTotal <= 0.0 ==> source == Sheet && purchases == c.sheetPurchases
    ensures invoices == |DocumentsOf(rows, c, WindowOf(table, c))|
    ensures invoiceTotal == Quantize(InvoiceSum(rows, c.tenant, c.location, WindowOf(table, c)))
  {
    var invoicePurchases;
    invoicePurchases, invoices, invoiceTotal := CollectInvoices(rows, c, WindowOf(table, c));
    if c.purchasesOverride.Some? {
      return Split(c.purchasesOverride.value, c.ending).Rounded(), Manual, invoices, invoiceTotal;
    }
    if invoiceTotal > 0.0 {
      return invoicePurchases.Rounded(), Invoices, invoices, invoiceTotal;
    }
    return c.sheetPurchases, Sheet, invoices, invoiceTotal;
  }

  method AddOther(base: Amounts, other: real, ending: Amounts) returns (purchases: Amounts)
    ensures purchases == base.Plus(if other != 0.0 then Split(other, ending) else ZEROS)
  {
    purchases := base;
    ghost var shares := if other != 0.0 then Split(other, ending) else ZEROS;
    if other != 0.0 {
      var weights := ending.Total();
      for i := 0 to |CATEGORIES|
        invariant forall k :: purchases.At(k) == base.At(k) + if Rank(k) < i then shares.At(k) else 0.0
      {
        var k := CATEGORIES[i];
        var share := Share(other, ending.At(k), weights, 6.0);
        assert share == shares.At(k);
        purchases := purchases.Set(k, purchases.At(k) + share);
      }
    }
    SameAmounts(purchases, base.Plus(shares));
  }

  /** The display loop: a rounded line per category, and the running totals before rounding. */
  method DisplayLines(f: Figures) returns (lines: seq<Line>, totals: Line)
    ensures totals == f.Totals()
    ensures |lines| == |CATEGORIES|
    ensures forall i :: 0 <= i < |CATEGORIES| ==> lines[i] == f.LineOf(CATEGORIES[i]).Rounded()
  {
    lines, totals := [], Line(0.0, 0.0, 0.0, 0.0);
    for i := 0 to |CATEGORIES|
      invariant totals == Line(UpTo(f.opening, i), UpTo(f.purchases, i), UpTo(f.ending, i), UpTo(f.Cogs(), i))
      invariant |lines| == i
      invariant forall j :: 0 <= j < i ==> lines[j] == f.LineOf(CATEGORIES[j]).Rounded()
    {
      var k := CATEGORIES[i];
      var cost := f.opening.At(k) + f.purchases.At(k) - f.ending.At(k);
      totals := Line(totals.opening + f.opening.At(k), totals.purchases + f.purchases.At(k),
                     totals.ending + f.ending.At(k), totals.cogs + cost);
      lines := lines + [Line(f.opening.At(k), f.purchases.At(k), f.ending.At(k), cost).Rounded()];
    }
    UpToAll(f.opening);
    UpToAll(f.purchases);
    UpToAll(f.ending);
    UpToAll(f.Cogs());
  }

  /** In every report: before rounding, total COGS is total opening plus purchases minus ending; the
      displayed category figures add up to the displayed total within three cents, and the four
      displayed totals satisfy the identity within two. */
  lemma DisplayedFiguresAgree(lines: seq<Line>, totals: Line, f: Figures)
    requires Shows(lines, totals, f)
    ensures f.Totals().cogs == f.opening.Total() + f.purchases.Total() - f.ending.Total()
    ensures Agrees(lines, totals)
  {
    CostIdentity(f);
    ColumnIsTheTotal(lines, f.Cogs().Rounded(), |CATEGORIES|);
    UpToAll(f.Cogs().Rounded());
    assert lines[..|CATEGORIES|] == lines;
    ColumnFootsWithinThreeCents(f.Cogs());
    RowFootsWithinTwoCents(f.opening.Total(), f.purchases.Total(), f.ending.Total(), f.Cogs().Total());
  }

  lemma {:induction false} ColumnIsTheTotal(lines: seq<Line>, costs: Amounts, n: nat)
    requires n <= |lines| == |CATEGORIES|
    requires forall i :: 0 <= i < |CATEGORIES| ==> lines[i].cogs == costs.At(CATEGORIES[i])
    ensures CogsColumn(lines[..n]) == UpTo(costs, n)
  {
    if n > 0 {
      ColumnIsTheTotal(lines, costs, n - 1);
      assert lines[..n][..n - 1] == lines[..n - 1];
    }
  }

  /** Each displayed line is its category's opening, purchases and ending and their balance, rounded, and
      the totals are those of all categories. */
  lemma LinesInFields(lines: seq<Line>, totals: Line, f: Figures)
    requires Shows(lines, totals, f)
    ensures forall i :: 0 <= i < 6 ==>
      var k := CATEGORIES[i];
      && lines[i].opening == Quantize(f.opening.At(k)) && lines[i].purchases == Quantize(f.purchases.At(k))
      && lines[i].ending == Quantize(f.ending.At(k))
      && lines[i].cogs == Quantize(f.opening.At(k) + f.purchases.At(k) - f.ending.At(k))
    ensures totals.opening == Quantize(f.opening.Total()) && totals.purchases == Quantize(f.purchases.Total())
    ensures totals.ending == Quantize(f.ending.Total())
    ensures totals.cogs == Quantize(f.opening.Total() + f.purchases.Total() - f.ending.Total())
  {
    CostIdentity(f);
  }

  /** The totals add up all six categories. */
  lemma TotalInFields(m: Amounts)
    ensures m.Total() == m.protein + m.cheesecake + m.grocery + m.produce + m.beverage + m.packaging
    ensures m.Food() == m.protein + m.cheesecake + m.grocery + m.produce
  {
  }

  /** A week's figures: the opening is the ending of the latest earlier count, or nothing, and the ending
      is the count's own. */
  lemma FiguresInFields(table: seq<Count>, rows: seq<ExpenseRow>, c: Count)
    ensures var f, prior := FiguresOf(table, rows, c), PriorCount(table, c.tenant, c.location, c.week);
      && (prior.Some? ==> f.opening == prior.value.ending)
      && (prior.None? ==> f.opening == Amounts(0.0, 0.0, 0.0, 0.0, 0.0, 0.0))
      && f.ending == c.ending
  {
  }

  /** The week's purchases: a manual total, else the rounded invoices if their rounded sum is positive, else
      the sheet's; and whatever was bought besides is added in full. */
  lemma PurchasesInFields(table: seq<Count>, rows: seq<ExpenseRow>, c: Count)
    ensures var (base, source) := BasePurchases(table, rows, c);
      var sum := Quantize(InvoiceSum(rows, c.tenant, c.location, WindowOf(table, c)));
      && (source == Manual <==> c.purchasesOverride != None)
      && (source == Invoices <==> c.purchasesOverride == None && sum > 0.0)
      && (source == Sheet ==> base == c.sheetPurchases)
    ensures Purchases(table, rows, c).Total() == BasePurchases(table, rows, c).0.Total()
      + if c.otherPurchases == None then 0.0 else c.otherPurchases.value
  {
    var base, other := BasePurchases(table, rows, c).0, OtherTotal(c);
    SplitConserves(other, c.ending);
    PlusTotal(base, if other != 0.0 then Split(other, c.ending) else ZEROS);
  }

  /** The percentage is of the net sales, and there is one only when they are positive. */
  lemma PercentInFields(cogs: real, netSales: real)
    ensures Percent(cogs, netSales).Some? <==> netSales > 0.0
    ensures netSales > 0.0 ==> Abs(Percent(cogs, netSales).value - 100.0 * (cogs / netSales)) <= 0.005
  {
    if netSales > 0.0 {
      QuantizeIsNear(cogs / netSales * 100.0);
    }
  }

  /** One more collected expense with an amount counts for its own category and its own document, beverage
      and packaging invoices for the inventory category of that name. */
  lemma ExpenseCounts(rows: seq<ExpenseRow>, e: ExpenseRow, c: Count, window: (int, int), category: ExpenseCategory)
    ensures var counted := e.tenant == c.tenant && (c.location.None? || e.location == c.location) && window.0 <= e.at
                           && e.at <= window.1 && e.category != OtherCost && e.cogsInvoice && e.amount.Some?;
      && SumOf(rows + [e], c, window, category)
         == SumOf(rows, c, window, category) + (if counted && e.category == category then e.amount.value else 0.0)
      && DocumentsOf(rows + [e], c, window) == DocumentsOf(rows, c, window) + if counted then {e.document} else {}
  {
    OneMoreRow(rows + [e], |rows|, c, window);
    assert (rows + [e])[..|rows|] == rows && (rows + [e])[..|rows| + 1] == rows + [e];
  }

  lemma ColumnFootsWithinThreeCents(m: Amounts)
    ensures Abs(m.Rounded().Total() - Quantize(m.Total())) <= 0.03
  {
    var whole, parts := m.Total(), m.Rounded().Total();
    RoundedIsNear(m);
    QuantizeIsNear(whole);
    CentsAreDiscrete(parts, Quantize(whole), 3);
  }

  lemma RowFootsWithinTwoCents(o: real, p: real, e: real, g: real)
    requires g == o + p - e
    ensures Abs(Quantize(o) + Quantize(p) - Quantize(e) - Quantize(g)) <= 0.02
  {
    QuantizeIsNear(o);
    QuantizeIsNear(p);
    QuantizeIsNear(e);
    QuantizeIsNear(g);
  }

  lemma CostIdentity(f: Figures)
    ensures f.Cogs().Total() == f.opening.Total() + f.purchases.Total() - f.ending.Total()
  {
    PlusTotal(f.opening, f.purchases);
    MinusTotal(f.opening.Plus(f.purchases), f.ending);
  }

  /** The figures of every count of a chain. */
  ghost predicate AreFigures(weeks: seq<Figures>, table: seq<Count>, rows: seq<ExpenseRow>, chain: seq<Count>) {
    && |weeks| == |chain|
    && forall k {:trigger FiguresOf(table, rows, chain[k])} ::
         0 <= k < |chain| ==> weeks[k] == FiguresOf(table, rows, chain[k])
  }

  /** COGS of the weeks i+1..j, before rounding. */
  function SpanCogs(weeks: seq<Figures>, i: nat, j: nat): real
    requires i <= j < |weeks|
    decreases j
  {
    if i == j then 0.0 else SpanCogs(weeks, i, j - 1) + weeks[j].Cogs().Total()
  }

  function SpanPurchases(weeks: seq<Figures>, i: nat, j: nat): real
    requires i <= j < |weeks|
    decreases j
  {
    if i == j then 0.0 else SpanPurchases(weeks, i, j - 1) + weeks[j].purchases.Total()
  }

  /** Over any span the weekly costs add up to the first ending inventory plus everything purchased
      in between minus the last ending inventory: no stock is charged twice or lost between weeks. */
  lemma SpanCogsConserves(weeks: seq<Figures>, table: seq<Count>, rows: seq<ExpenseRow>, tenant: nat,
                          location: Option<nat>, chain: seq<Count>, i: nat, j: nat)
    requires IsChain(table, tenant, location, chain) && AreFigures(weeks, table, rows, chain) && i <= j < |chain|
    ensures SpanCogs(weeks, i, j) == chain[i].ending.Total() + SpanPurchases(weeks, i, j) - chain[j].ending.Total()
  {
    forall k | 0 <= k < |weeks|
      ensures weeks[k].ending == chain[k].ending && (k > 0 ==> weeks[k].opening == chain[k - 1].ending)
    {
      InventoryOfWeek(weeks, table, rows, tenant, location, chain, k);
    }
    CarriedStockTelescopes(weeks, i, j);
  }

  lemma InventoryOfWeek(weeks: seq<Figures>, table: seq<Count>, rows: seq<ExpenseRow>, tenant: nat,
                        location: Option<nat>, chain: seq<Count>, k: nat)
    requires IsChain(table, tenant, location, chain) && AreFigures(weeks, table, rows, chain) && k < |chain|
    ensures weeks[k].ending == chain[k].ending && (k > 0 ==> weeks[k].opening == chain[k - 1].ending)
  {
    assert weeks[k] == FiguresOf(table, rows, chain[k]);
    OpeningIsPreviousEnding(table, tenant, location, chain, k);
  }

  lemma {:induction false} CarriedStockTelescopes(weeks: seq<Figures>, i: nat, j: nat)
    requires i <= j < |weeks| && forall k :: 0 < k < |weeks| ==> weeks[k].opening == weeks[k - 1].ending
    ensures SpanCogs(weeks, i, j) == weeks[i].ending.Total() + SpanPurchases(weeks, i, j) - weeks[j].ending.Total()
    decreases j
  {
    if i < j {
      CarriedStockTelescopes(weeks, i, j - 1);
      CostIdentity(weeks[j]);
    }
  }
}
