/**
 The inventory-count spreadsheet: section headers set the category of the priced lines below
 them, and a trailing summary table carries the purchases typed in by hand.
 */
module CogsSheet {
  import opened Wrappers
  import opened CogsAmounts

  /** A cell: its text as str(v).strip() gives it, whether it is text, the number Decimal reads from
      it, and the date it holds. */
  datatype Cell = Blank | Filled(text: string, isText: bool, number: Option<real>, date: Option<int>)

  function TextOf(c: Cell): string {
    if c.Blank? then "" else c.text
  }

  function NumberOf(c: Cell): Option<real> {
    if c.Blank? then None else c.number
  }

  /** A row padded to the eight columns A to H. */
  datatype Row = Row(a: Cell, b: Cell, c: Cell, d: Cell, e: Cell, f: Cell, g: Cell, h: Cell)

  function Upper(c: char): char {
    if 'a' <= c <= 'z' then c - 'a' + 'A' else c
  }

  function ToUpper(s: string): string {
    seq(|s|, i requires 0 <= i < |s| => Upper(s[i]))
  }

  predicate OccursAt(s: string, part: string, i: nat) {
    i + |part| <= |s| && s[i..i + |part|] == part
  }

  predicate Contains(s: string, part: string) {
    exists i :: 0 <= i <= |s| && OccursAt(s, part, i)
  }

  /** The section labels, first substring hit wins. */
  const SECTION_MAP: seq<(string, Category)> := [
    ("PROTEIN", Protein), ("CHEESECAKE", Cheesecake), ("GROCERY", Grocery),
    ("PRODUCE", Produce), ("BEVERAGE", Beverage), ("PACKAGING", Packaging)]

  function FirstSection(title: string, from: nat): Option<Category>
    requires from <= |SECTION_MAP|
    decreases |SECTION_MAP| - from
  {
    if from == |SECTION_MAP| then None
    else if Contains(title, SECTION_MAP[from].0) then Some(SECTION_MAP[from].1)
    else FirstSection(title, from + 1)
  }

  function CanonCategory(title: string): Option<Category> {
    FirstSection(ToUpper(title), 0)
  }

  /** The canonical spelling of a category, as the summary table must write it. */
  function ExactCategory(title: string): Option<Category> {
    if title == "Protein" then Some(Protein) else if title == "Cheesecake" then Some(Cheesecake)
    else if title == "Grocery" then Some(Grocery) else if title == "Produce" then Some(Produce)
    else if title == "Beverage" then Some(Beverage) else if title == "Packaging" then Some(Packaging)
    else None
  }

  // ---------------------------------------------------------------------------------------
  // What each row is, read off the sheet without running the parser
  // ---------------------------------------------------------------------------------------

  predicate StartsSummary(r: Row) {
    ToUpper(TextOf(r.a)) == "CATEGORY"
  }

  predicate IsHeader(r: Row) {
    !StartsSummary(r) && r.h.Filled? && r.h.isText && ToUpper(r.h.text) == "TOTAL"
  }

  /** A header whose label names a category; other headers leave the section as it is. */
  predicate IsMapped(r: Row) {
    IsHeader(r) && CanonCategory(TextOf(r.a)).Some?
  }

  /** Row k lies at or below the start of the summary table. */
  predicate InSummary(rows: seq<Row>, k: nat)
    requires k <= |rows|
  {
    exists j :: 0 <= j < k && StartsSummary(rows[j])
  }

  /** The nearest mapped header above row k. */
  function SectionAt(rows: seq<Row>, k: nat): Option<Category>
    requires k <= |rows|
  {
    if k == 0 then None
    else if IsMapped(rows[k - 1]) then CanonCategory(TextOf(rows[k - 1].a))
    else SectionAt(rows, k - 1)
  }

  predicate IsItem(rows: seq<Row>, k: nat)
    requires k < |rows|
  {
    && !InSummary(rows, k + 1) && !IsHeader(rows[k])
    && SectionAt(rows, k).Some? && TextOf(rows[k].a) != "" && NumberOf(rows[k].g).Some?
  }

  datatype Item = Item(category: Category, name: string, unitPrice: real, extendedTotal: real, sortOrder: nat)

  function Shortened(s: string): string {
    if |s| > 256 then s[..256] else s
  }

  function ItemAt(rows: seq<Row>, k: nat, sort: nat): Item
    requires k < |rows| && IsItem(rows, k)
  {
    Item(SectionAt(rows, k).value, Shortened(TextOf(rows[k].a)), NumberOf(rows[k].g).value,
         if NumberOf(rows[k].h).Some? then NumberOf(rows[k].h).value else 0.0, sort)
  }

  /** The items among the first k rows: one per item row, in order, numbered from zero. */
  function ItemsOf(rows: seq<Row>, k: nat): seq<Item>
    requires k <= |rows|
  {
    if k == 0 then []
    else
      var before := ItemsOf(rows, k - 1);
      if IsItem(rows, k - 1) then before + [ItemAt(rows, k - 1, |before|)] else before
  }

  /** The category whose amount row k enters, if it enters one. */
  function EnteredAt(rows: seq<Row>, k: nat): Option<Category>
    requires k < |rows|
  {
    if InSummary(rows, k) && !StartsSummary(rows[k]) && NumberOf(rows[k].e).Some? then ExactCategory(TextOf(rows[k].a))
    else None
  }

  /** The last amount entered for a category in the summary table. */
  function PurchaseOf(rows: seq<Row>, k: nat, c: Category): Option<real>
    requires k <= |rows|
  {
    if k == 0 then None
    else if EnteredAt(rows, k - 1) == Some(c) then NumberOf(rows[k - 1].e)
    else PurchaseOf(rows, k - 1, c)
  }

  function FirstDate(cells: seq<Cell>): Option<int> {
    if cells == [] then None
    else if cells[0].Filled? && cells[0].date.Some? then cells[0].date
    else FirstDate(cells[1..])
  }

  /** The first row labelled DATE that has a date beside it gives the week. */
  function WeekOf(rows: seq<Row>, k: nat): Option<int>
    requires k <= |rows|
  {
    if k == 0 then None
    else
      var r, earlier := rows[k - 1], WeekOf(rows, k - 1);
      if earlier.None? && "DATE" <= ToUpper(TextOf(r.a)) then FirstDate([r.b, r.c, r.d, r.e, r.f, r.g, r.h])
      else earlier
  }

  // ---------------------------------------------------------------------------------------
  // The parser
  // ---------------------------------------------------------------------------------------

  /** The map holds each category's last amount among the first k rows, and nothing else. */
  ghost predicate ArePurchases(purchases: map<Category, real>, rows: seq<Row>, k: nat)
    requires k <= |rows|
  {
    forall c :: if c in purchases then PurchaseOf(rows, k, c) == Some(purchases[c]) else PurchaseOf(rows, k, c).None?
  }

  lemma SummaryStep(rows: seq<Row>, k: nat)
    requires k < |rows|
    ensures InSummary(rows, k + 1) <==> InSummary(rows, k) || StartsSummary(rows[k])
  {
  }

  lemma PurchaseStep(purchases: map<Category, real>, rows: seq<Row>, k: nat)
    requires k < |rows| && ArePurchases(purchases, rows, k)
    ensures var entered := EnteredAt(rows, k);
      ArePurchases(if entered.Some? then purchases[entered.value := NumberOf(rows[k].e).value] else purchases,
                   rows, k + 1)
  {
  }

  method ParseSheet(rows: seq<Row>) returns (week: Option<int>, items: seq<Item>, purchases: map<Category, real>)
    ensures week == WeekOf(rows, |rows|)
    ensures items == ItemsOf(rows, |rows|)
    ensures ArePurchases(purchases, rows, |rows|)
  {
    var current: Option<Category> := None;
    var inSummary, sort := false, 0;
    week, items, purchases := None, [], map[];
    var n := 0;
    while n < |rows|
      invariant 0 <= n <= |rows|
      invariant week == WeekOf(rows, n)
      invariant inSummary <==> InSummary(rows, n)
      invariant !inSummary ==> current == SectionAt(rows, n)
      invariant sort == |items| && items == ItemsOf(rows, n)
      invariant ArePurchases(purchases, rows, n)
    {
      var r := rows[n];
      SummaryStep(rows, n);
      PurchaseStep(purchases, rows, n);
      n := n + 1;
      if "DATE" <= ToUpper(TextOf(r.a)) && week.None? {
        week := FirstDate([r.b, r.c, r.d, r.e, r.f, r.g, r.h]);
      }
      if ToUpper(TextOf(r.a)) == "CATEGORY" {
        inSummary := true;
        continue;
      }
      if inSummary {
        var canon := ExactCategory(TextOf(r.a));
        if canon.Some? && NumberOf(r.e).Some? {
          purchases := purchases[canon.value := NumberOf(r.e).value];
        }
        continue;
      }
      if r.h.Filled? && r.h.isText && ToUpper(r.h.text) == "TOTAL" {
        var mapped := CanonCategory(TextOf(r.a));
        if mapped.Some? {
          current := mapped;
        }
        continue;
      }
      var price := NumberOf(r.g);
      if current.Some? && TextOf(r.a) != "" && price.Some? {
        var ext := if NumberOf(r.h).Some? then NumberOf(r.h).value else 0.0;
        items := items + [Item(current.value, Shortened(TextOf(r.a)), price.value, ext, sort)];
        sort := sort + 1;
      }
    }
  }

  // ---------------------------------------------------------------------------------------
  // What the items say
  // ---------------------------------------------------------------------------------------

  /** Sort orders are exactly 0..n-1, and each item comes from its own row, carries the category of the
      nearest mapped header above that row, and no row from the summary on gives an item. */
  lemma {:induction false} ItemsFollowTheSheet(rows: seq<Row>, k: nat, i: nat) returns (row: nat)
    requires k <= |rows| && i < |ItemsOf(rows, k)|
    ensures row < k && IsItem(rows, row) && ItemsOf(rows, k)[i] == ItemAt(rows, row, i)
    ensures |ItemsOf(rows, row)| == i
    ensures forall j :: 0 <= j <= row ==> !StartsSummary(rows[j])
    ensures exists h: nat ::
      NearestAbove(rows, row, h) && CanonCategory(TextOf(rows[h].a)) == Some(ItemsOf(rows, k)[i].category)
    decreases k
  {
    if IsItem(rows, k - 1) && i == |ItemsOf(rows, k - 1)| {
      row := k - 1;
      var h := NearestHeader(rows, row);
    } else {
      row := ItemsFollowTheSheet(rows, k - 1, i);
    }
  }

  /** Row h is the last mapped header above row k. */
  predicate NearestAbove(rows: seq<Row>, k: nat, h: nat)
    requires k <= |rows|
  {
    h < k && IsMapped(rows[h]) && forall j :: h < j < k ==> !IsMapped(rows[j])
  }

  lemma {:induction false} NearestHeader(rows: seq<Row>, k: nat) returns (h: nat)
    requires k <= |rows| && SectionAt(rows, k).Some?
    ensures NearestAbove(rows, k, h) && CanonCategory(TextOf(rows[h].a)) == SectionAt(rows, k)
    decreases k
  {
    if IsMapped(rows[k - 1]) {
      h := k - 1;
    } else {
      h := NearestHeader(rows, k - 1);
    }
  }

  /** Every row that is an item gives one: nothing priced is lost. */
  lemma {:induction false} EveryItemRowCounts(rows: seq<Row>, k: nat, row: nat)
    requires row < k <= |rows| && IsItem(rows, row)
    ensures |ItemsOf(rows, row)| < |ItemsOf(rows, k)|
    ensures ItemsOf(rows, k)[|ItemsOf(rows, row)|] == ItemAt(rows, row, |ItemsOf(rows, row)|)
    decreases k
  {
    if row < k - 1 {
      EveryItemRowCounts(rows, k - 1, row);
    }
  }

  // ---------------------------------------------------------------------------------------
  // category_ending
  // ---------------------------------------------------------------------------------------

  /** The extended totals of one category among the first n items. */
  function EndingOf(items: seq<Item>, n: nat, c: Category): real
    requires n <= |items|
  {
    if n == 0 then 0.0
    else EndingOf(items, n - 1, c) + if items[n - 1].category == c then items[n - 1].extendedTotal else 0.0
  }

  function GrandTotal(items: seq<Item>, n: nat): real
    requires n <= |items|
  {
    if n == 0 then 0.0 else GrandTotal(items, n - 1) + items[n - 1].extendedTotal
  }

  /** totals[category] += amount. */
  function Credit(m: Amounts, c: Category, amount: real): Amounts {
    m.Set(c, m.At(c) + amount)
  }

  function Credited(items: seq<Item>, n: nat): Amounts
    requires n <= |items|
  {
    if n == 0 then ZEROS else Credit(Credited(items, n - 1), items[n - 1].category, items[n - 1].extendedTotal)
  }

  lemma CreditAdds(m: Amounts, c: Category, amount: real, k: Category)
    ensures Credit(m, c, amount).At(k) == m.At(k) + (if k == c then amount else 0.0)
    ensures Credit(m, c, amount).Total() == m.Total() + amount
  {
  }

  lemma {:induction false} CreditedIsTheSum(items: seq<Item>, n: nat, c: Category)
    requires n <= |items|
    ensures Credited(items, n).At(c) == EndingOf(items, n, c)
    ensures Credited(items, n).Total() == GrandTotal(items, n)
  {
    if n > 0 {
      CreditedIsTheSum(items, n - 1, c);
      CreditAdds(Credited(items, n - 1), items[n - 1].category, items[n - 1].extendedTotal, c);
    }
  }

  /** The ending inventory of every category; together they are the sum of all extended totals. */
  method CategoryEnding(items: seq<Item>) returns (totals: Amounts)
    ensures forall c :: totals.At(c) == EndingOf(items, |items|, c)
    ensures totals.Total() == GrandTotal(items, |items|)
  {
    totals := ZEROS;
    for n := 0 to |items|
      invariant totals == Credited(items, n)
    {
      totals := Credit(totals, items[n].category, items[n].extendedTotal);
    }
    CreditedIsTheSum(items, |items|, Protein);
    forall c
      ensures totals.At(c) == EndingOf(items, |items|, c)
    {
      CreditedIsTheSum(items, |items|, c);
    }
  }

  // ---------------------------------------------------------------------------------------
  // Which cells are read, and which labels
  // ---------------------------------------------------------------------------------------

  /** The canonical name of a category. */
  function Name(c: Category): string {
    match c
    case Protein => "Protein"
    case Cheesecake => "Cheesecake"
    case Grocery => "Grocery"
    case Produce => "Produce"
    case Beverage => "Beverage"
    case Packaging => "Packaging"
  }

  /** The summary table is read by canonical name, and the section labels are those names in capitals. */
  lemma LabelsNameTheirCategory(s: string, c: Category)
    ensures ExactCategory(s) == Some(c) <==> s == Name(c)
    ensures SECTION_MAP[Rank(c)] == (ToUpper(Name(c)), c)
  {
    assert ToUpper(Name(c)) == SECTION_MAP[Rank(c)].0;
  }

  /** A title names the first category whose label it contains, in any case. */
  lemma {:induction false} TitleNamesIff(title: string, from: nat, k: nat)
    requires from <= k < |SECTION_MAP|
    ensures FirstSection(title, from) == Some(SECTION_MAP[k].1) <==>
      Contains(title, SECTION_MAP[k].0) && forall j :: from <= j < k ==> !Contains(title, SECTION_MAP[j].0)
    decreases k - from
  {
    if from < k {
      assert SECTION_MAP[from].1 != SECTION_MAP[k].1;
      TitleNamesIff(title, from + 1, k);
    } else {
      LaterSections(title, from + 1, k);
    }
  }

  /** Sections further down name other categories. */
  lemma {:induction false} LaterSections(title: string, from: nat, k: nat)
    requires k < from <= |SECTION_MAP|
    ensures FirstSection(title, from) != Some(SECTION_MAP[k].1)
    decreases |SECTION_MAP| - from
  {
    if from < |SECTION_MAP| {
      assert SECTION_MAP[from].1 != SECTION_MAP[k].1;
      LaterSections(title, from + 1, k);
    }
  }

  /** An item is named in column A, priced in column G and totalled in column H, where a missing total
      counts as nothing; a row without a name or a price is none. */
  lemma ItemInFields(rows: seq<Row>, k: nat, sort: nat)
    requires k < |rows|
    ensures IsItem(rows, k) ==> rows[k].a.Filled? && rows[k].a.text != "" && rows[k].g.Filled? && rows[k].g.number.Some?
    ensures IsItem(rows, k) ==>
      var item, r := ItemAt(rows, k, sort), rows[k];
      && Some(item.unitPrice) == r.g.number && item.sortOrder == sort
      && item.extendedTotal == (if r.h.Filled? && r.h.number.Some? then r.h.number.value else 0.0)
      && (|r.a.text| <= 256 ==> item.name == r.a.text) && (|r.a.text| > 256 ==> item.name == r.a.text[..256])
  {
  }

  /** Below the CATEGORY row, a row with a category's name in column A and a number in column E enters that
      category's purchases. */
  lemma PurchaseInFields(rows: seq<Row>, k: nat, c: Category)
    requires k < |rows|
    ensures var r := rows[k];
      EnteredAt(rows, k) == Some(c) <==>
        && (exists j :: 0 <= j < k && StartsSummary(rows[j]))
        && r.a.Filled? && r.a.text == Name(c) && r.e.Filled? && r.e.number.Some?
    ensures EnteredAt(rows, k) == Some(c) ==> PurchaseOf(rows, k + 1, c) == rows[k].e.number
  {
    LabelsNameTheirCategory(TextOf(rows[k].a), c);
    if StartsSummary(rows[k]) && TextOf(rows[k].a) == Name(c) {
      NameIsNoSummary(c);
    }
  }

  lemma NameIsNoSummary(c: Category)
    ensures ToUpper(Name(c)) != "CATEGORY"
  {
    assert ToUpper(Name(c))[0] != 'C' || |ToUpper(Name(c))| == 10;
  }

  /** Above the CATEGORY row, a row with the text TOTAL in column H is a header, and a mapped one if its
      label in column A names a category. Below, or with no mapped header above, nothing is an item. */
  lemma HeadersInFields(rows: seq<Row>, k: nat)
    requires k < |rows|
    ensures var r := rows[k];
      var header := ToUpper(TextOf(r.a)) != "CATEGORY" && r.h.Filled? && r.h.isText && ToUpper(r.h.text) == "TOTAL";
      && (IsMapped(r) <==> header && CanonCategory(TextOf(r.a)).Some?)
      && (IsItem(rows, k) <==>
            && !header && (forall j :: 0 <= j <= k ==> ToUpper(TextOf(rows[j].a)) != "CATEGORY")
            && SectionAt(rows, k).Some? && TextOf(r.a) != "" && NumberOf(r.g).Some?)
  {
    if InSummary(rows, k + 1) {
      var j :| 0 <= j < k + 1 && StartsSummary(rows[j]);
      assert ToUpper(TextOf(rows[j].a)) == "CATEGORY";
    }
  }

  lemma {:induction false} FirstDateIsFirst(cells: seq<Cell>) returns (i: nat)
    requires FirstDate(cells).Some?
    ensures i < |cells| && cells[i].Filled? && cells[i].date == FirstDate(cells)
    ensures forall j :: 0 <= j < i ==> cells[j].Filled? ==> cells[j].date.None?
  {
    if cells[0].Filled? && cells[0].date.Some? {
      i := 0;
    } else {
      var rest := FirstDateIsFirst(cells[1..]);
      i := rest + 1;
      forall j | 0 <= j < i && cells[j].Filled?
        ensures cells[j].date.None?
      {
        if j > 0 {
          assert cells[1..][j - 1] == cells[j];
        }
      }
    }
  }

  lemma {:induction false} NoDateIff(cells: seq<Cell>)
    ensures FirstDate(cells).None? <==> forall j :: 0 <= j < |cells| && cells[j].Filled? ==> cells[j].date.None?
  {
    if cells != [] {
      NoDateIff(cells[1..]);
      assert cells == [cells[0]] + cells[1..];
      assert forall j :: 0 < j < |cells| ==> cells[j] == cells[1..][j - 1];
    }
  }

  function DatedCells(r: Row): seq<Cell> {
    [r.b, r.c, r.d, r.e, r.f, r.g, r.h]
  }

  /** The week is the first date right of the first DATE label that has one. */
  lemma {:induction false} WeekIsLabelled(rows: seq<Row>, k: nat) returns (row: nat)
    requires k <= |rows| && WeekOf(rows, k).Some?
    ensures row < k && "DATE" <= ToUpper(TextOf(rows[row].a)) && WeekOf(rows, k) == FirstDate(DatedCells(rows[row]))
    ensures forall j :: 0 <= j < row && "DATE" <= ToUpper(TextOf(rows[j].a)) ==> FirstDate(DatedCells(rows[j])).None?
    decreases k
  {
    if WeekOf(rows, k - 1).Some? {
      row := WeekIsLabelled(rows, k - 1);
    } else {
      row := k - 1;
      NoWeekYet(rows, k - 1);
    }
  }

  lemma {:induction false} NoWeekYet(rows: seq<Row>, k: nat)
    requires k <= |rows| && WeekOf(rows, k).None?
    ensures forall j :: 0 <= j < k && "DATE" <= ToUpper(TextOf(rows[j].a)) ==> FirstDate(DatedCells(rows[j])).None?
    decreases k
  {
    if k > 0 {
      NoWeekYet(rows, k - 1);
    }
  }
}
