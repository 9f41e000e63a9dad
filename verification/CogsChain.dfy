/**
 The chain of weekly inventory counts: each count opens at the ending of the count before
 it and collects the invoices dated between the two.
 */
module CogsChain {
  import opened Wrappers
  import opened CogsAmounts

  /** Microseconds in a day; instants are microseconds, dates are day numbers. */
  const DAY: int := 86_400_000_000

  datatype Count = Count(
    tenant: nat,
    location: Option<nat>,
    week: int,
    ending: Amounts,
    sheetPurchases: Amounts,
    purchasesOverride: Option<real>,
    netSalesOverride: Option<real>,
    otherPurchases: Option<real>)

  datatype ExpenseCategory = FoodCost | BeverageCost | PackagingCost | OtherCost

  /** An expense joined with its document; `cogsInvoice` says the document came from the COGS upload. */
  datatype ExpenseRow = ExpenseRow(
    tenant: nat,
    location: Option<nat>,
    at: int,
    category: ExpenseCategory,
    amount: Option<real>,
    document: nat,
    cogsInvoice: bool)

  /** The tenant filter and, when a location is given, the location filter. */
  predicate InScope(rowTenant: nat, rowLocation: Option<nat>, tenant: nat, location: Option<nat>) {
    rowTenant == tenant && (location.Some? ==> rowLocation == location)
  }

  predicate Earlier(c: Count, tenant: nat, location: Option<nat>, week: int) {
    InScope(c.tenant, c.location, tenant, location) && c.week < week
  }

  /** The latest count before the given week. */
  function PriorCount(table: seq<Count>, tenant: nat, location: Option<nat>, week: int): Option<Count> {
    if table == [] then None
    else
      var n := |table| - 1;
      var best := PriorCount(table[..n], tenant, location, week);
      if Earlier(table[n], tenant, location, week) && (best.None? || best.value.week < table[n].week)
      then Some(table[n]) else best
  }

  lemma {:induction false} PriorIsLatest(table: seq<Count>, tenant: nat, location: Option<nat>, week: int)
    ensures var r := PriorCount(table, tenant, location, week);
      if r.None? then
        forall c :: c in table && c.tenant == tenant && (location.Some? ==> c.location == location) ==> c.week >= week
      else
        && r.value in table && r.value.tenant == tenant && r.value.week < week
        && (location.Some? ==> r.value.location == location)
        && forall c :: c in table && c.tenant == tenant && (location.Some? ==> c.location == location) ==>
             c.week <= r.value.week || c.week >= week
    decreases |table|
  {
    if table != [] {
      PriorIsLatest(table[..|table| - 1], tenant, location, week);
    }
  }

  function Prior(table: seq<Count>, c: Count): Option<Count> {
    PriorCount(table, c.tenant, c.location, c.week)
  }

  function Opening(table: seq<Count>, c: Count): Amounts {
    if Prior(table, c).Some? then Prior(table, c).value.ending else ZEROS
  }

  /** First and last microsecond of the purchase window. */
  function PurchaseWindow(week: int, prior: Option<Count>): (int, int) {
    var start := if prior.Some? then prior.value.week * DAY + DAY else (week - 7) * DAY;
    (start, week * DAY + DAY - 1)
  }

  function WindowOf(table: seq<Count>, c: Count): (int, int) {
    PurchaseWindow(c.week, Prior(table, c))
  }

  predicate Collected(e: ExpenseRow, tenant: nat, location: Option<nat>, window: (int, int)) {
    && InScope(e.tenant, e.location, tenant, location)
    && window.0 <= e.at <= window.1
    && !e.category.OtherCost? && e.cogsInvoice
  }

  /** What the invoices of a window add up to, before any rounding. */
  function InvoiceSum(rows: seq<ExpenseRow>, tenant: nat, location: Option<nat>, window: (int, int)): real {
    if rows == [] then 0.0
    else
      var e := rows[|rows| - 1];
      InvoiceSum(rows[..|rows| - 1], tenant, location, window)
      + if Collected(e, tenant, location, window) && e.amount.Some? then e.amount.value else 0.0
  }

  /** One more expense joins the sum exactly when it is the tenant's, and the location's when one is given,
      dated in the window, of a purchase category, uploaded as an invoice of the COGS panel, and has an
      amount. */
  lemma InvoiceCounts(rows: seq<ExpenseRow>, e: ExpenseRow, tenant: nat, location: Option<nat>, window: (int, int))
    ensures InvoiceSum(rows + [e], tenant, location, window) == InvoiceSum(rows, tenant, location, window)
      + if e.tenant == tenant && (location.None? || e.location == location) && window.0 <= e.at && e.at <= window.1
           && e.category != OtherCost && e.cogsInvoice && e.amount.Some? then e.amount.value else 0.0
  {
    assert (rows + [e])[..|rows|] == rows;
  }

  /** The windows cover seven days only for a count made exactly a week after its predecessor; the
      first count of a location collects eight days. */
  lemma WindowLength(table: seq<Count>, c: Count)
    ensures var (start, end) := WindowOf(table, c);
      var day := 24 * 60 * 60 * 1_000_000;
      && (end - start + 1 == 7 * day <==> Prior(table, c).Some? && Prior(table, c).value.week == c.week - 7)
      && (Prior(table, c).None? ==> end - start + 1 == 8 * day)
      && start <= end
  {
    var prior := Prior(table, c);
    PriorIsLatest(table, c.tenant, c.location, c.week);
    if prior.Some? {
      assert WindowOf(table, c).1 - WindowOf(table, c).0 + 1 == (c.week - prior.value.week) * DAY;
    }
  }

  // ---------------------------------------------------------------------------------------
  // Chains
  // ---------------------------------------------------------------------------------------

  /** All counts of one tenant and location, in date order. */
  ghost predicate IsChain(table: seq<Count>, tenant: nat, location: Option<nat>, chain: seq<Count>) {
    && (forall i, j :: 0 <= i < j < |chain| ==> chain[i].week < chain[j].week)
    && (forall c :: c in chain ==> c in table && c.tenant == tenant && c.location == location)
    && (forall c :: c in table && InScope(c.tenant, c.location, tenant, location) ==> c in chain)
  }

  /** The prior count is the predecessor in the chain. */
  lemma PriorIsPredecessor(table: seq<Count>, tenant: nat, location: Option<nat>, chain: seq<Count>, k: nat)
    requires IsChain(table, tenant, location, chain) && k < |chain|
    ensures Prior(table, chain[k]) == if k == 0 then None else Some(chain[k - 1])
  {
    var prior := Prior(table, chain[k]);
    PriorIsLatest(table, tenant, location, chain[k].week);
    if k > 0 {
      assert Earlier(chain[k - 1], tenant, location, chain[k].week);
    }
    if prior.Some? {
      assert prior.value in chain;
      var i :| 0 <= i < |chain| && chain[i] == prior.value;
      assert i < k;
      assert i == k - 1;
    }
  }

  /** Each count opens at its predecessor's ending, the first at zero. */
  lemma OpeningIsPreviousEnding(table: seq<Count>, tenant: nat, location: Option<nat>, chain: seq<Count>, k: nat)
    requires IsChain(table, tenant, location, chain) && k < |chain|
    ensures Opening(table, chain[k]) == if k == 0 then ZEROS else chain[k - 1].ending
  {
    PriorIsPredecessor(table, tenant, location, chain, k);
  }

  /** Inventory drawn down over counts i+1..j: the sum of opening minus ending. */
  function SpanDraw(table: seq<Count>, chain: seq<Count>, i: nat, j: nat, c: Category): real
    requires i <= j < |chain|
    decreases j
  {
    if i == j then 0.0
    else SpanDraw(table, chain, i, j - 1, c) + Opening(table, chain[j]).At(c) - chain[j].ending.At(c)
  }

  /** Invoices collected by counts i+1..j, each in its own window. */
  function SpanInvoices(table: seq<Count>, rows: seq<ExpenseRow>, chain: seq<Count>, i: nat, j: nat): real
    requires i <= j < |chain|
    decreases j
  {
    if i == j then 0.0
    else
      var c := chain[j];
      SpanInvoices(table, rows, chain, i, j - 1) + InvoiceSum(rows, c.tenant, c.location, WindowOf(table, c))
  }

  lemma {:induction false} DrawTelescopes(table: seq<Count>, tenant: nat, location: Option<nat>, chain: seq<Count>,
                                          i: nat, j: nat, c: Category)
    requires IsChain(table, tenant, location, chain) && i <= j < |chain|
    ensures SpanDraw(table, chain, i, j, c) == chain[i].ending.At(c) - chain[j].ending.At(c)
    decreases j
  {
    if i < j {
      DrawTelescopes(table, tenant, location, chain, i, j - 1, c);
      OpeningIsPreviousEnding(table, tenant, location, chain, j);
    }
  }

  /** From just after count i up to the end of count j's day. */
  function SpanWindow(chain: seq<Count>, i: nat, j: nat): (int, int)
    requires i < |chain| && j < |chain|
  {
    ((chain[i].week + 1) * DAY, (chain[j].week + 1) * DAY - 1)
  }

  /** The k-th count's window takes in an instant. */
  predicate Takes(table: seq<Count>, chain: seq<Count>, k: nat, at: int)
    requires k < |chain|
  {
    WindowOf(table, chain[k]).0 <= at <= WindowOf(table, chain[k]).1
  }

  /** A window starts the microsecond after the predecessor's ends, and ends with its count's day. */
  lemma WindowStartsWhereThePreviousEnds(table: seq<Count>, tenant: nat, location: Option<nat>, chain: seq<Count>,
                                         k: nat)
    requires IsChain(table, tenant, location, chain) && k < |chain|
    ensures WindowOf(table, chain[k]).1 == (chain[k].week + 1) * DAY - 1
    ensures k > 0 ==> WindowOf(table, chain[k]).0 == WindowOf(table, chain[k - 1]).1 + 1
  {
    PriorIsPredecessor(table, tenant, location, chain, k);
  }

  /** No instant lies in two windows, the eight-day window of the first count included. */
  lemma WindowsAreDisjoint(table: seq<Count>, tenant: nat, location: Option<nat>, chain: seq<Count>,
                           k: nat, l: nat, at: int)
    requires IsChain(table, tenant, location, chain) && k < l < |chain|
    ensures !(Takes(table, chain, k, at) && Takes(table, chain, l, at))
  {
    WindowStartsWhereThePreviousEnds(table, tenant, location, chain, k);
    WindowStartsWhereThePreviousEnds(table, tenant, location, chain, l - 1);
    WindowStartsWhereThePreviousEnds(table, tenant, location, chain, l);
    assert chain[k].week <= chain[l - 1].week;
  }

  lemma WindowSpansTheWeek(table: seq<Count>, tenant: nat, location: Option<nat>, chain: seq<Count>, k: nat)
    requires IsChain(table, tenant, location, chain) && 0 < k < |chain|
    ensures WindowOf(table, chain[k]) == SpanWindow(chain, k - 1, k)
  {
    WindowStartsWhereThePreviousEnds(table, tenant, location, chain, k - 1);
    WindowStartsWhereThePreviousEnds(table, tenant, location, chain, k);
  }

  /** The windows of counts i+1..j cover the span between counts i and j, and nothing else. */
  lemma {:induction false} WindowsCover(table: seq<Count>, tenant: nat, location: Option<nat>, chain: seq<Count>,
                                        i: nat, j: nat, at: int)
    requires IsChain(table, tenant, location, chain) && i <= j < |chain|
    ensures SpanWindow(chain, i, j).0 <= at <= SpanWindow(chain, i, j).1
      <==> exists k :: i < k <= j && Takes(table, chain, k, at)
    decreases j
  {
    if i < j {
      WindowsCover(table, tenant, location, chain, i, j - 1, at);
      WindowSpansTheWeek(table, tenant, location, chain, j);
      assert chain[i].week <= chain[j - 1].week < chain[j].week;
      assert Takes(table, chain, j, at) <==> (chain[j - 1].week + 1) * DAY <= at < (chain[j].week + 1) * DAY;
    }
  }

  lemma {:induction false} SumsOfAdjacentWindowsAdd(rows: seq<ExpenseRow>, tenant: nat, location: Option<nat>, a: int,
                                                    b: int, c: int)
    requires a <= b <= c
    ensures InvoiceSum(rows, tenant, location, (a, b - 1)) + InvoiceSum(rows, tenant, location, (b, c - 1))
         == InvoiceSum(rows, tenant, location, (a, c - 1))
    decreases |rows|
  {
    if rows != [] {
      SumsOfAdjacentWindowsAdd(rows[..|rows| - 1], tenant, location, a, b, c);
    }
  }

  lemma {:induction false} EmptyWindow(rows: seq<ExpenseRow>, tenant: nat, location: Option<nat>, a: int)
    ensures InvoiceSum(rows, tenant, location, (a, a - 1)) == 0.0
    decreases |rows|
  {
    if rows != [] {
      EmptyWindow(rows[..|rows| - 1], tenant, location, a);
    }
  }

  /** The weekly invoice totals of a span add up to the total of the whole span: no invoice is
      counted twice and none is dropped. */
  lemma {:induction false} SpanInvoicesAdd(table: seq<Count>, rows: seq<ExpenseRow>, tenant: nat,
                                           location: Option<nat>, chain: seq<Count>, i: nat, j: nat)
    requires IsChain(table, tenant, location, chain) && i <= j < |chain|
    ensures SpanInvoices(table, rows, chain, i, j) == InvoiceSum(rows, tenant, location, SpanWindow(chain, i, j))
    decreases j
  {
    if i == j {
      EmptyWindow(rows, tenant, location, (chain[i].week + 1) * DAY);
    } else {
      SpanInvoicesAdd(table, rows, tenant, location, chain, i, j - 1);
      WindowSpansTheWeek(table, tenant, location, chain, j);
      assert chain[i].week <= chain[j - 1].week < chain[j].week;
      SumsOfAdjacentWindowsAdd(rows, tenant, location,
        (chain[i].week + 1) * DAY, (chain[j - 1].week + 1) * DAY, (chain[j].week + 1) * DAY);
    }
  }

  lemma SpanIsItsEnds(tenant: nat, location: Option<nat>, rows: seq<ExpenseRow>, c: Category,
                      table: seq<Count>, chain: seq<Count>, i: nat, j: nat)
    requires IsChain(table, tenant, location, chain) && i <= j < |chain|
    ensures SpanDraw(table, chain, i, j, c) == chain[i].ending.At(c) - chain[j].ending.At(c)
    ensures SpanInvoices(table, rows, chain, i, j) == InvoiceSum(rows, tenant, location, SpanWindow(chain, i, j))
  {
    DrawTelescopes(table, tenant, location, chain, i, j, c);
    SpanInvoicesAdd(table, rows, tenant, location, chain, i, j);
  }

  /** Inserting, deleting or replacing counts strictly between two counts changes neither the
      inventory drawn down between the two nor the invoices collected between them. */
  lemma SpanDependsOnItsEndsOnly(tenant: nat, location: Option<nat>, rows: seq<ExpenseRow>, c: Category,
                                 table: seq<Count>, chain: seq<Count>, i: nat, j: nat,
                                 table': seq<Count>, chain': seq<Count>, i': nat, j': nat)
    requires IsChain(table, tenant, location, chain) && i <= j < |chain|
    requires IsChain(table', tenant, location, chain') && i' <= j' < |chain'|
    requires chain[i] == chain'[i'] && chain[j] == chain'[j']
    ensures SpanDraw(table, chain, i, j, c) == SpanDraw(table', chain', i', j', c)
    ensures SpanInvoices(table, rows, chain, i, j) == SpanInvoices(table', rows, chain', i', j')
  {
    SpanIsItsEnds(tenant, location, rows, c, table, chain, i, j);
    SpanIsItsEnds(tenant, location, rows, c, table', chain', i', j');
    assert SpanWindow(chain, i, j) == SpanWindow(chain', i', j');
  }
}
