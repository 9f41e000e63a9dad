/**
 Sales-tax recovery: a bank-statement expense without tax takes the tax of the invoice or
 receipt behind it, and the monthly tax report moves by exactly that much.
 */
module HstRecovery {
  import opened Wrappers
  import opened Money
  import opened Sequences
  import opened Sums

  type Id = nat

  datatype DocType = BankStatement | Invoice | Receipt | OtherType

  datatype Document = Document(tenant: nat, kind: DocType, date: Option<int>, total: Option<real>, tax: Option<real>)

  datatype Expense = Expense(tenant: nat, location: Option<nat>, document: Option<Id>, amount: Option<real>,
                             tax: Option<real>, date: int)

  const TOLERANCE: real := 0.01

  /** Thirty-five days in microseconds. */
  const DATE_WINDOW: int := 35 * 86_400_000_000

  /** The scope of one call: a tenant and optionally a location. */
  datatype Scope = Scope(tenant: nat, location: Option<nat>)

  // ---------------------------------------------------------------------------------------
  // Matching
  // ---------------------------------------------------------------------------------------

  /** A bank-statement expense still missing its tax. */
  predicate Unfilled(e: Expense, docs: map<Id, Document>, s: Scope) {
    && e.tenant == s.tenant && e.tax.None? && e.amount.Some?
    && e.document.Some? && e.document.value in docs && docs[e.document.value].kind == BankStatement
    && (s.location.Some? ==> e.location == s.location)
  }

  /** A document whose tax may be copied: an invoice or receipt with positive tax, the same total
      within a cent, dated within the window. */
  predicate Matches(d: Document, e: Expense, s: Scope)
    requires e.amount.Some?
  {
    && d.tenant == s.tenant && (d.kind == Invoice || d.kind == Receipt)
    && d.tax.Some? && d.tax.value > 0.0
    && d.total.Some? && Abs(d.total.value - e.amount.value) <= TOLERANCE
    && d.date.Some? && e.date - DATE_WINDOW <= d.date.value <= e.date + DATE_WINDOW
  }

  function Distance(d: Document, e: Expense): real
    requires e.amount.Some? && d.total.Some?
  {
    Abs(d.total.value - e.amount.value)
  }

  /** The matching document at the least amount difference, the first in the database's order. */
  function Best(order: seq<Document>, e: Expense, s: Scope): (r: Option<Document>)
    requires e.amount.Some?
    ensures r.Some? ==> r.value in order && Matches(r.value, e, s)
    ensures r.None? ==> forall d :: d in order ==> !Matches(d, e, s)
    ensures r.Some? ==> forall d :: d in order && Matches(d, e, s) ==> Distance(r.value, e) <= Distance(d, e)
  {
    if order == [] then None
    else
      var d, best := order[|order| - 1], Best(order[..|order| - 1], e, s);
      if Matches(d, e, s) && (best.None? || Distance(d, e) < Distance(best.value, e)) then Some(d) else best
  }

  /** The tax an expense takes over, if any. */
  function Recovered(e: Expense, docs: map<Id, Document>, order: seq<Document>, s: Scope): Option<real> {
    if !Unfilled(e, docs, s) || Best(order, e, s).None? then None else Best(order, e, s).value.tax
  }

  function Filled(e: Expense, docs: map<Id, Document>, order: seq<Document>, s: Scope): Expense {
    var tax := Recovered(e, docs, order, s);
    if tax.Some? then e.(tax := tax) else e
  }

  /** Every query visits the documents of the table, in an order of its own. */
  ghost predicate Answers(orders: Id -> seq<Document>, docs: map<Id, Document>) {
    forall x :: Members(orders(x)) == docs.Values
  }

  /** The expenses once those in `done` have been considered. */
  function Progress(expenses: map<Id, Expense>, docs: map<Id, Document>, orders: Id -> seq<Document>, s: Scope,
                    done: set<Id>): map<Id, Expense> {
    map x | x in expenses :: if x in done then Filled(expenses[x], docs, orders(x), s) else expenses[x]
  }

  function FilledAmong(expenses: map<Id, Expense>, docs: map<Id, Document>, orders: Id -> seq<Document>, s: Scope,
                       done: set<Id>): set<Id> {
    set x | x in done && x in expenses && Recovered(expenses[x], docs, orders(x), s).Some?
  }

  function Propagated(expenses: map<Id, Expense>, docs: map<Id, Document>, orders: Id -> seq<Document>,
                      s: Scope): map<Id, Expense> {
    map x | x in expenses :: Filled(expenses[x], docs, orders(x), s)
  }

  function FilledIds(expenses: map<Id, Expense>, docs: map<Id, Document>, orders: Id -> seq<Document>,
                     s: Scope): set<Id> {
    set x | x in expenses && Recovered(expenses[x], docs, orders(x), s).Some?
  }

  lemma OneMore(expenses: map<Id, Expense>, docs: map<Id, Document>, orders: Id -> seq<Document>, s: Scope,
                done: set<Id>, x: Id)
    requires x in expenses && x !in done && Unfilled(expenses[x], docs, s)
    ensures var e := expenses[x];
      var before, after := Progress(expenses, docs, orders, s, done), Progress(expenses, docs, orders, s, done + {x});
      var best := Best(orders(x), e, s);
      && before[x] == e
      && after == (if best.Some? then before[x := e.(tax := best.value.tax)] else before)
  {
  }

  lemma OneMoreFilled(expenses: map<Id, Expense>, docs: map<Id, Document>, orders: Id -> seq<Document>, s: Scope,
                      done: set<Id>, x: Id)
    requires x in expenses && x !in done && Unfilled(expenses[x], docs, s)
    ensures x !in FilledAmong(expenses, docs, orders, s, done)
    ensures FilledAmong(expenses, docs, orders, s, done + {x})
         == FilledAmong(expenses, docs, orders, s, done) + if Best(orders(x), expenses[x], s).Some? then {x} else {}
  {
  }

  lemma OneMoreCounts(expenses: map<Id, Expense>, docs: map<Id, Document>, orders: Id -> seq<Document>, s: Scope,
                      done: set<Id>, x: Id)
    requires x in expenses && x !in done && Unfilled(expenses[x], docs, s)
    ensures |FilledAmong(expenses, docs, orders, s, done + {x})|
         == |FilledAmong(expenses, docs, orders, s, done)| + if Best(orders(x), expenses[x], s).Some? then 1 else 0
  {
    OneMoreFilled(expenses, docs, orders, s, done, x);
  }

  /** Considering the unfilled rows is considering them all. */
  lemma UnfilledSuffice(expenses: map<Id, Expense>, docs: map<Id, Document>, orders: Id -> seq<Document>, s: Scope,
                        done: set<Id>)
    requires forall x :: x in done <==> x in expenses && Unfilled(expenses[x], docs, s)
    ensures Progress(expenses, docs, orders, s, done) == Propagated(expenses, docs, orders, s)
    ensures FilledAmong(expenses, docs, orders, s, done) == FilledIds(expenses, docs, orders, s)
  {
  }

  class ExpenseRepository {
    var expenses: map<Id, Expense>
    var docs: map<Id, Document>

    constructor (expenses: map<Id, Expense>, docs: map<Id, Document>)
      ensures this.expenses == expenses && this.docs == docs
    {
      this.expenses, this.docs := expenses, docs;
    }

    /** `rows` is the first query's answer, and `orders(x)` the documents in the order in which the query for
        expense x visits them. */
    method PropagateHst(s: Scope, rows: seq<Id>, orders: Id -> seq<Document>) returns (updated: nat)
      requires Answers(orders, docs)
      requires forall x :: x in rows <==> x in expenses && Unfilled(expenses[x], docs, s)
      requires Distinct(rows)
      modifies this`expenses
      ensures expenses == Propagated(old(expenses), docs, orders, s)
      ensures updated == |FilledIds(old(expenses), docs, orders, s)|
    {
      ghost var begun := expenses;
      ghost var done: set<Id> := {};
      assert FilledAmong(begun, docs, orders, s, done) == {};
      updated := 0;
      var n := 0;
      while n < |rows|
        invariant 0 <= n <= |rows|
        invariant done == set i | 0 <= i < n :: rows[i]
        invariant expenses == Progress(begun, docs, orders, s, done)
        invariant updated == |FilledAmong(begun, docs, orders, s, done)|
      {
        var x := rows[n];
        assert x in rows && x !in done;
        OneMore(begun, docs, orders, s, done, x);
        OneMoreCounts(begun, docs, orders, s, done, x);
        var best := Best(orders(x), expenses[x], s);
        if best.Some? {
          expenses := expenses[x := expenses[x].(tax := best.value.tax)];
          updated := updated + 1;
        }
        done := done + {x};
        n := n + 1;
      }
      UnfilledSuffice(begun, docs, orders, s, done);
    }
  }

  // ---------------------------------------------------------------------------------------
  // What a run changes
  // ---------------------------------------------------------------------------------------

  /** The document supplies the expense's tax: an invoice or receipt of the expense's tenant with a tax
      above zero, a total within a cent and a date within 35 days. */
  predicate Supplies(d: Document, e: Expense) {
    && d.tenant == e.tenant && (d.kind == Invoice || d.kind == Receipt)
    && d.tax.Some? && d.tax.value > 0.0
    && d.total.Some? && e.amount.Some? && -0.01 <= d.total.value - e.amount.value <= 0.01
    && d.date.Some? && d.date.value - e.date <= 35 * 24 * 60 * 60 * 1_000_000
    && e.date - d.date.value <= 35 * 24 * 60 * 60 * 1_000_000
  }

  /** No supplying document of the table has a total nearer to the amount. */
  ghost predicate Nearest(d: Document, docs: map<Id, Document>, e: Expense) {
    && d in docs.Values && Supplies(d, e)
    && forall d' :: d' in docs.Values && Supplies(d', e) ==>
         Abs(d.total.value - e.amount.value) <= Abs(d'.total.value - e.amount.value)
  }

  lemma UnfilledInFields(e: Expense, docs: map<Id, Document>, s: Scope)
    ensures Unfilled(e, docs, s) <==>
      && e.tenant == s.tenant && (s.location.None? || e.location == s.location)
      && e.tax == None && e.amount != None
      && e.document.Some? && e.document.value in docs && docs[e.document.value].kind == BankStatement
    ensures e.amount.Some? && e.tenant == s.tenant ==> forall d :: Matches(d, e, s) <==> Supplies(d, e)
  {
  }

  /** A run changes nothing but the tax of the tenant's bank-statement expenses that have an amount and no
      tax, to that of a supplying document at the least amount difference; it leaves one without tax
      exactly when no document supplies it. */
  lemma FillsExactlyTheMatched(expenses: map<Id, Expense>, docs: map<Id, Document>, orders: Id -> seq<Document>,
                               s: Scope, x: Id)
    requires x in expenses && Answers(orders, docs)
    ensures var e, f := expenses[x], Propagated(expenses, docs, orders, s)[x];
      var open := e.tenant == s.tenant && (s.location.None? || e.location == s.location)
                  && e.tax.None? && e.amount.Some?
                  && e.document.Some? && e.document.value in docs && docs[e.document.value].kind == BankStatement;
      && f == e.(tax := f.tax)
      && (f != e ==> open && exists d :: Nearest(d, docs, e) && f.tax == d.tax)
      && (open ==> (f.tax.None? <==> forall d :: d in docs.Values ==> !Supplies(d, e)))
  {
    var e, order := expenses[x], orders(x);
    UnfilledInFields(e, docs, s);
    assert forall d :: d in order <==> d in Members(order);
    if Unfilled(e, docs, s) && Best(order, e, s).Some? {
      var d := Best(order, e, s).value;
      assert d in Members(order) && Nearest(d, docs, e);
    }
  }

  /** The documents of one tenant, in the order visited. */
  function OwnDocuments(order: seq<Document>, tenant: nat): seq<Document> {
    if order == [] then []
    else
      var n := |order| - 1;
      OwnDocuments(order[..n], tenant) + if order[n].tenant == tenant then [order[n]] else []
  }

  lemma {:induction false} BestIsOwn(order: seq<Document>, e: Expense, s: Scope)
    requires e.amount.Some?
    ensures Best(order, e, s) == Best(OwnDocuments(order, s.tenant), e, s)
    decreases |order|
  {
    if order != [] {
      var n := |order| - 1;
      BestIsOwn(order[..n], e, s);
      var own := OwnDocuments(order[..n], s.tenant);
      assert (own + [order[n]])[..|own|] == own;
      assert OwnDocuments(order, s.tenant) == if order[n].tenant == s.tenant then own + [order[n]] else own;
    }
  }

  /** Documents of other tenants, added, removed or changed, make no difference to a run, as long as the
      expenses' own documents stay. */
  lemma OtherTenantsDoNotMatter(expenses: map<Id, Expense>, docs: map<Id, Document>, docs': map<Id, Document>,
                                orders: Id -> seq<Document>, orders': Id -> seq<Document>, s: Scope)
    requires forall x :: OwnDocuments(orders(x), s.tenant) == OwnDocuments(orders'(x), s.tenant)
    requires forall x :: x in expenses && expenses[x].document.Some? ==>
      var d := expenses[x].document.value;
      (d in docs <==> d in docs') && (d in docs ==> docs[d].kind == docs'[d].kind)
    ensures Propagated(expenses, docs, orders, s) == Propagated(expenses, docs', orders', s)
  {
    forall x | x in expenses
      ensures Filled(expenses[x], docs, orders(x), s) == Filled(expenses[x], docs', orders'(x), s)
    {
      SameFilled(expenses[x], docs, docs', orders(x), orders'(x), s);
    }
  }

  lemma SameFilled(e: Expense, docs: map<Id, Document>, docs': map<Id, Document>, order: seq<Document>,
                   order': seq<Document>, s: Scope)
    requires OwnDocuments(order, s.tenant) == OwnDocuments(order', s.tenant)
    requires e.document.Some? ==>
      var d := e.document.value;
      (d in docs <==> d in docs') && (d in docs ==> docs[d].kind == docs'[d].kind)
    ensures Filled(e, docs, order, s) == Filled(e, docs', order', s)
  {
    if e.amount.Some? {
      BestIsOwn(order, e, s);
      BestIsOwn(order', e, s);
    }
  }

  /** A second run finds nothing to do, whatever order the database visits the documents in. */
  lemma SecondRunIsIdle(expenses: map<Id, Expense>, docs: map<Id, Document>, orders: Id -> seq<Document>,
                        again: Id -> seq<Document>, s: Scope)
    requires Answers(orders, docs) && Answers(again, docs)
    ensures var once := Propagated(expenses, docs, orders, s);
      Propagated(once, docs, again, s) == once && FilledIds(once, docs, again, s) == {}
  {
    var once := Propagated(expenses, docs, orders, s);
    forall x | x in once
      ensures Recovered(once[x], docs, again(x), s).None?
    {
      if Unfilled(once[x], docs, s) {
        assert once[x] == expenses[x];
        assert forall d :: d in again(x) ==> d in Members(orders(x));
      }
    }
  }

  // ---------------------------------------------------------------------------------------
  // The monthly report
  // ---------------------------------------------------------------------------------------

  /** The filter of hst_by_month: a location also takes in expenses without one. */
  datatype Period = Period(tenant: nat, start: int, end: int, location: Option<nat>)

  predicate Reported(e: Expense, p: Period) {
    e.tenant == p.tenant && p.start <= e.date <= p.end
    && (p.location.Some? ==> e.location == p.location || e.location.None?)
  }

  function ReportedIds(expenses: map<Id, Expense>, p: Period): set<Id> {
    set x | x in expenses && Reported(expenses[x], p)
  }

  /** What the monthly report counts and adds up. */
  lemma ReportInFields(expenses: map<Id, Expense>, p: Period, x: Id)
    requires x in expenses
    ensures var e := expenses[x];
      && (x in ReportedIds(expenses, p) <==>
            && e.tenant == p.tenant && p.start <= e.date && e.date <= p.end
            && (p.location.None? || e.location.None? || e.location == p.location))
      && TaxOf(expenses)(x) == (if e.tax.None? then 0.0 else e.tax.value)
      && AmountOf(expenses)(x) == (if e.amount.None? then 0.0 else e.amount.value)
      && MissingOf(expenses)(x) == (if e.tax.None? && e.amount.Some? then 1.0 else 0.0)
  {
  }

  /** The expenses of one month, for any calendar. */
  ghost function InMonth<M(!new)>(expenses: map<Id, Expense>, p: Period, month: int -> M, m: M): set<Id> {
    set x | x in expenses && Reported(expenses[x], p) && month(expenses[x].date) == m
  }

  /** A column of hst_by_month summed over the report's rows, one per month. */
  ghost function Total<M(!new)>(expenses: map<Id, Expense>, p: Period, month: int -> M, months: seq<M>,
                                column: Id -> real): real {
    if months == [] then 0.0
    else
      var n := |months| - 1;
      Total(expenses, p, month, months[..n], column) + Sum(InMonth(expenses, p, month, months[n]), column)
  }

  function OrZero(v: Option<real>): real {
    if v.Some? then v.value else 0.0
  }

  ghost function TaxOf(expenses: map<Id, Expense>): Id -> real {
    x => if x in expenses then OrZero(expenses[x].tax) else 0.0
  }

  ghost function AmountOf(expenses: map<Id, Expense>): Id -> real {
    x => if x in expenses then OrZero(expenses[x].amount) else 0.0
  }

  predicate IsMissing(e: Expense) {
    e.tax.None? && e.amount.Some?
  }

  /** case (tax_amount is null and amount is not null) then 1 else 0. */
  ghost function MissingOf(expenses: map<Id, Expense>): Id -> real {
    x => if x in expenses && IsMissing(expenses[x]) then 1.0 else 0.0
  }

  /** What a run copies onto an expense. */
  ghost function CopiedTo(expenses: map<Id, Expense>, docs: map<Id, Document>, orders: Id -> seq<Document>,
                          s: Scope): Id -> real {
    x => if x in expenses then OrZero(Recovered(expenses[x], docs, orders(x), s)) else 0.0
  }

  /** One row of a run: a filled one had an amount and no tax and now has the tax that was copied, any
      other is as before. */
  predicate Moved(before: map<Id, Expense>, after: map<Id, Expense>, copied: Id -> real, filled: set<Id>, x: Id) {
    x in before ==> (
      && x in after
      && (x in filled ==> IsMissing(before[x]) && after[x] == before[x].(tax := Some(copied(x))))
      && (x !in filled ==> after[x] == before[x] && copied(x) == 0.0))
  }

  /** What the reports see of a run. */
  ghost predicate Moves(before: map<Id, Expense>, after: map<Id, Expense>, copied: Id -> real, filled: set<Id>) {
    && after.Keys == before.Keys && filled <= before.Keys
    && forall x :: Moved(before, after, copied, filled, x)
  }

  /** A run moves the reports by CopiedTo and FilledIds, the rows it counts. */
  lemma RunMoves(expenses: map<Id, Expense>, docs: map<Id, Document>, orders: Id -> seq<Document>, s: Scope)
    ensures Moves(expenses, Propagated(expenses, docs, orders, s), CopiedTo(expenses, docs, orders, s),
                  FilledIds(expenses, docs, orders, s))
  {
    var after, copied, filled := Propagated(expenses, docs, orders, s), CopiedTo(expenses, docs, orders, s),
      FilledIds(expenses, docs, orders, s);
    forall x
      ensures Moved(expenses, after, copied, filled, x)
    {
      assert x in expenses && Recovered(expenses[x], docs, orders(x), s).Some? ==> Unfilled(expenses[x], docs, s);
    }
  }

  lemma {:induction false} TaxRises(before: map<Id, Expense>, after: map<Id, Expense>, copied: Id -> real,
                                    filled: set<Id>, rows: set<Id>)
    requires Moves(before, after, copied, filled) && rows <= before.Keys
    ensures Sum(rows, TaxOf(after)) == Sum(rows, TaxOf(before)) + Sum(rows, copied)
    decreases |rows|
  {
    if rows != {} {
      var x := Pick(rows);
      assert Moved(before, after, copied, filled, x);
      TaxRises(before, after, copied, filled, rows - {x});
      SumRemove(rows, TaxOf(after), x);
      SumRemove(rows, TaxOf(before), x);
      SumRemove(rows, copied, x);
    }
  }

  lemma {:induction false} MissingFalls(before: map<Id, Expense>, after: map<Id, Expense>, copied: Id -> real,
                                        filled: set<Id>, rows: set<Id>)
    requires Moves(before, after, copied, filled) && rows <= before.Keys
    ensures Sum(rows, MissingOf(after)) == Sum(rows, MissingOf(before)) - |rows * filled| as real
    decreases |rows|
  {
    if rows != {} {
      var x := Pick(rows);
      assert Moved(before, after, copied, filled, x);
      MissingFalls(before, after, copied, filled, rows - {x});
      SumRemove(rows, MissingOf(after), x);
      SumRemove(rows, MissingOf(before), x);
      CountOfRest(rows, filled, x);
    } else {
      assert rows * filled == {};
    }
  }

  lemma {:induction false} AmountStays(before: map<Id, Expense>, after: map<Id, Expense>, copied: Id -> real,
                                       filled: set<Id>, rows: set<Id>)
    requires Moves(before, after, copied, filled) && rows <= before.Keys
    ensures Sum(rows, AmountOf(after)) == Sum(rows, AmountOf(before))
    decreases |rows|
  {
    if rows != {} {
      var x := Pick(rows);
      assert Moved(before, after, copied, filled, x);
      AmountStays(before, after, copied, filled, rows - {x});
      SumRemove(rows, AmountOf(after), x);
      SumRemove(rows, AmountOf(before), x);
    }
  }

  /** Over any set of expenses the tax rises by what was copied to them, the missing count falls by the
      number of them that were filled, and the total stays. */
  lemma SumsMove(before: map<Id, Expense>, after: map<Id, Expense>, copied: Id -> real, filled: set<Id>, rows: set<Id>)
    requires Moves(before, after, copied, filled) && rows <= before.Keys
    ensures Sum(rows, TaxOf(after)) == Sum(rows, TaxOf(before)) + Sum(rows, copied)
    ensures Sum(rows, MissingOf(after)) == Sum(rows, MissingOf(before)) - |rows * filled| as real
    ensures Sum(rows, AmountOf(after)) == Sum(rows, AmountOf(before))
  {
    TaxRises(before, after, copied, filled, rows);
    MissingFalls(before, after, copied, filled, rows);
    AmountStays(before, after, copied, filled, rows);
  }

  lemma CountOfRest(rows: set<Id>, filled: set<Id>, x: Id)
    requires x in rows
    ensures |rows * filled| == |(rows - {x}) * filled| + if x in filled then 1 else 0
  {
    assert rows * filled == (rows - {x}) * filled + if x in filled then {x} else {};
  }

  lemma OnlyTaxMoves(before: map<Id, Expense>, after: map<Id, Expense>, copied: Id -> real, filled: set<Id>, x: Id)
    requires Moves(before, after, copied, filled) && x in before
    ensures after[x] == before[x].(tax := after[x].tax)
  {
    assert Moved(before, after, copied, filled, x);
  }

  lemma ReportKeepsItsRows(before: map<Id, Expense>, after: map<Id, Expense>, copied: Id -> real, filled: set<Id>,
                           p: Period)
    requires Moves(before, after, copied, filled)
    ensures ReportedIds(after, p) == ReportedIds(before, p)
  {
    forall x | x in before
      ensures Reported(after[x], p) <==> Reported(before[x], p)
    {
      OnlyTaxMoves(before, after, copied, filled, x);
    }
  }

  lemma MonthKeepsItsRows<M(!new)>(before: map<Id, Expense>, after: map<Id, Expense>, copied: Id -> real,
                                   filled: set<Id>, p: Period, month: int -> M, m: M)
    requires Moves(before, after, copied, filled)
    ensures InMonth(after, p, month, m) == InMonth(before, p, month, m)
  {
    forall x | x in before
      ensures Reported(after[x], p) <==> Reported(before[x], p)
      ensures after[x].date == before[x].date
    {
      OnlyTaxMoves(before, after, copied, filled, x);
    }
  }

  /** A run moves every month of every report, over any period and location: the reported tax rises by
      exactly what was copied to that month's expenses, the missing count falls by exactly the number of
      them that were filled, and the expenses counted and their total stay the same. */
  lemma MonthMovesByTheCopiedTax<M(!new)>(before: map<Id, Expense>, after: map<Id, Expense>, copied: Id -> real,
                                          filled: set<Id>, p: Period, month: int -> M, m: M)
    requires Moves(before, after, copied, filled)
    ensures var rows := InMonth(before, p, month, m);
      && InMonth(after, p, month, m) == rows
      && Sum(rows, TaxOf(after)) == Sum(rows, TaxOf(before)) + Sum(rows, copied)
      && Sum(rows, MissingOf(after)) == Sum(rows, MissingOf(before)) - |rows * filled| as real
      && Sum(rows, AmountOf(after)) == Sum(rows, AmountOf(before))
  {
    MonthKeepsItsRows(before, after, copied, filled, p, month, m);
    SumsMove(before, after, copied, filled, InMonth(before, p, month, m));
  }

  /** The report's rows as a whole. */
  lemma ReportMoves(before: map<Id, Expense>, after: map<Id, Expense>, copied: Id -> real, filled: set<Id>, p: Period)
    requires Moves(before, after, copied, filled)
    requires forall x :: x in filled ==> Reported(before[x], p)
    ensures var rows := ReportedIds(before, p);
      && ReportedIds(after, p) == rows
      && (forall x :: x in rows ==> x in after && after[x].date == before[x].date)
      && Sum(rows, TaxOf(after)) == Sum(rows, TaxOf(before)) + Sum(filled, copied)
      && Sum(rows, MissingOf(after)) == Sum(rows, MissingOf(before)) - |filled| as real
      && Sum(rows, AmountOf(after)) == Sum(rows, AmountOf(before))
  {
    ReportKeepsItsRows(before, after, copied, filled, p);
    DatesStay(before, after, copied, filled, p);
    SumsMove(before, after, copied, filled, ReportedIds(before, p));
    AllCopiedIsReported(before, after, copied, filled, p);
  }

  ghost function RowsOf<M(!new)>(expenses: map<Id, Expense>, p: Period, month: int -> M, months: seq<M>): set<Id> {
    set x | x in expenses && Reported(expenses[x], p) && month(expenses[x].date) in months
  }

  /** A report over distinct months adds up to the sum over its expenses. */
  lemma {:induction false} MonthsAddUp<M(!new)>(expenses: map<Id, Expense>, p: Period, month: int -> M, months: seq<M>,
                                                column: Id -> real)
    requires Distinct(months)
    ensures Total(expenses, p, month, months, column) == Sum(RowsOf(expenses, p, month, months), column)
    decreases |months|
  {
    if months == [] {
      assert RowsOf(expenses, p, month, months) == {};
    } else {
      var n := |months| - 1;
      MonthsAddUp(expenses, p, month, months[..n], column);
      var before, last := RowsOf(expenses, p, month, months[..n]), InMonth(expenses, p, month, months[n]);
      assert months == months[..n] + [months[n]];
      assert RowsOf(expenses, p, month, months) == before + last;
      SumUnion(before, last, column);
    }
  }

  /** The months of a report are those of its expenses, once each. */
  ghost predicate AreMonths<M(!new)>(expenses: map<Id, Expense>, p: Period, month: int -> M, months: seq<M>) {
    Distinct(months) && forall x :: x in ReportedIds(expenses, p) ==> month(expenses[x].date) in months
  }

  /** Summed over all months of a report that shows the filled rows, the tax rises by everything that was
      copied, the missing count falls by the number of rows filled, and the expense total stays. */
  lemma YearMovesByTheCopiedTax<M(!new)>(before: map<Id, Expense>, after: map<Id, Expense>, copied: Id -> real,
                                         filled: set<Id>, p: Period, month: int -> M, months: seq<M>)
    requires Moves(before, after, copied, filled) && AreMonths(before, p, month, months)
    requires forall x :: x in filled ==> Reported(before[x], p)
    ensures Total(after, p, month, months, TaxOf(after))
      == Total(before, p, month, months, TaxOf(before)) + Sum(filled, copied)
    ensures Total(after, p, month, months, MissingOf(after))
      == Total(before, p, month, months, MissingOf(before)) - |filled| as real
    ensures Total(after, p, month, months, AmountOf(after)) == Total(before, p, month, months, AmountOf(before))
  {
    ReportMoves(before, after, copied, filled, p);
    AllRows(before, p, month, months);
    AllRows(after, p, month, months);
    MonthsAddUp(before, p, month, months, TaxOf(before));
    MonthsAddUp(before, p, month, months, MissingOf(before));
    MonthsAddUp(before, p, month, months, AmountOf(before));
    MonthsAddUp(after, p, month, months, TaxOf(after));
    MonthsAddUp(after, p, month, months, MissingOf(after));
    MonthsAddUp(after, p, month, months, AmountOf(after));
  }

  /** The same for a run and a tenant-wide report over a period that holds all of the tenant's expenses. */
  lemma RunMovesTheReport<M(!new)>(expenses: map<Id, Expense>, docs: map<Id, Document>, orders: Id -> seq<Document>,
                                   s: Scope, p: Period, month: int -> M, months: seq<M>)
    requires p.tenant == s.tenant && p.location.None? && AreMonths(expenses, p, month, months)
    requires forall x :: x in expenses && expenses[x].tenant == s.tenant ==> p.start <= expenses[x].date <= p.end
    ensures var after, filled := Propagated(expenses, docs, orders, s), FilledIds(expenses, docs, orders, s);
      && Total(after, p, month, months, TaxOf(after))
         == Total(expenses, p, month, months, TaxOf(expenses)) + Sum(filled, CopiedTo(expenses, docs, orders, s))
      && Total(after, p, month, months, MissingOf(after))
        == Total(expenses, p, month, months, MissingOf(expenses)) - |filled| as real
      && Total(after, p, month, months, AmountOf(after)) == Total(expenses, p, month, months, AmountOf(expenses))
  {
    RunMoves(expenses, docs, orders, s);
    TenantReportCovers(expenses, docs, orders, s, p);
    YearMovesByTheCopiedTax(expenses, Propagated(expenses, docs, orders, s), CopiedTo(expenses, docs, orders, s),
                            FilledIds(expenses, docs, orders, s), p, month, months);
  }

  lemma AllRows<M(!new)>(expenses: map<Id, Expense>, p: Period, month: int -> M, months: seq<M>)
    requires AreMonths(expenses, p, month, months)
    ensures RowsOf(expenses, p, month, months) == ReportedIds(expenses, p)
  {
  }

  /** A tenant-wide report over a period that holds all of the tenant's expenses shows every row a run fills. */
  lemma TenantReportCovers(expenses: map<Id, Expense>, docs: map<Id, Document>, orders: Id -> seq<Document>, s: Scope,
                           p: Period)
    requires p.tenant == s.tenant && p.location.None?
    requires forall x :: x in expenses && expenses[x].tenant == s.tenant ==> p.start <= expenses[x].date <= p.end
    ensures forall x :: x in FilledIds(expenses, docs, orders, s) ==> Reported(expenses[x], p)
  {
  }

  lemma AllCopiedIsReported(before: map<Id, Expense>, after: map<Id, Expense>, copied: Id -> real, filled: set<Id>,
                            p: Period)
    requires Moves(before, after, copied, filled)
    requires forall x :: x in filled ==> Reported(before[x], p)
    ensures var rows := ReportedIds(before, p);
      rows * filled == filled && Sum(rows, copied) == Sum(filled, copied)
  {
    var rows := ReportedIds(before, p);
    assert filled <= rows;
    PeelRows(rows, copied, filled);
    forall x | x in rows - filled
      ensures copied(x) == 0.0
    {
      assert Moved(before, after, copied, filled, x);
    }
    NothingCopied(rows - filled, copied);
  }

  lemma DatesStay(before: map<Id, Expense>, after: map<Id, Expense>, copied: Id -> real, filled: set<Id>, p: Period)
    requires Moves(before, after, copied, filled)
    ensures forall x :: x in ReportedIds(before, p) ==> x in after && after[x].date == before[x].date
  {
    forall x | x in ReportedIds(before, p)
      ensures after[x].date == before[x].date
    {
      OnlyTaxMoves(before, after, copied, filled, x);
    }
  }

  lemma {:induction false} NothingCopied(rows: set<Id>, f: Id -> real)
    requires forall x :: x in rows ==> f(x) == 0.0
    ensures Sum(rows, f) == 0.0
    decreases |rows|
  {
    if rows != {} {
      var x := Pick(rows);
      SumRemove(rows, f, x);
      NothingCopied(rows - {x}, f);
    }
  }
}
