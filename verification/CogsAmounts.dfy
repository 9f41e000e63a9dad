/**
 Amounts per inventory category, and the split of one amount over the categories.
 */
module CogsAmounts {
  import opened Money

  datatype Category = Protein | Cheesecake | Grocery | Produce | Beverage | Packaging

  const CATEGORIES: seq<Category> := [Protein, Cheesecake, Grocery, Produce, Beverage, Packaging]

  predicate IsFood(c: Category) {
    c.Protein? || c.Cheesecake? || c.Grocery? || c.Produce?
  }

  /** The position of a category in CATEGORIES; the food categories come first. */
  function Rank(c: Category): (r: nat)
    ensures r < |CATEGORIES| && CATEGORIES[r] == c
    ensures IsFood(c) <==> r < 4
  {
    match c
    case Protein => 0
    case Cheesecake => 1
    case Grocery => 2
    case Produce => 3
    case Beverage => 4
    case Packaging => 5
  }

  /** A dict with one amount for each of the six categories. */
  datatype Amounts = Amounts(protein: real, cheesecake: real, grocery: real, produce: real, beverage: real,
                             packaging: real) {
    function At(c: Category): real {
      match c
      case Protein => protein
      case Cheesecake => cheesecake
      case Grocery => grocery
      case Produce => produce
      case Beverage => beverage
      case Packaging => packaging
    }

    function Set(c: Category, v: real): Amounts {
      match c
      case Protein => this.(protein := v)
      case Cheesecake => this.(cheesecake := v)
      case Grocery => this.(grocery := v)
      case Produce => this.(produce := v)
      case Beverage => this.(beverage := v)
      case Packaging => this.(packaging := v)
    }

    function Food(): real {
      protein + cheesecake + grocery + produce
    }

    function Total(): real {
      Food() + beverage + packaging
    }

    function Plus(other: Amounts): Amounts {
      Amounts(protein + other.protein, cheesecake + other.cheesecake, grocery + other.grocery,
              produce + other.produce, beverage + other.beverage, packaging + other.packaging)
    }

    function Minus(other: Amounts): Amounts {
      Amounts(protein - other.protein, cheesecake - other.cheesecake, grocery - other.grocery,
              produce - other.produce, beverage - other.beverage, packaging - other.packaging)
    }

    function Rounded(): Amounts {
      Amounts(Quantize(protein), Quantize(cheesecake), Quantize(grocery),
              Quantize(produce), Quantize(beverage), Quantize(packaging))
    }
  }

  /** The running total of the first n categories. */
  function UpTo(m: Amounts, n: nat): real
    requires n <= |CATEGORIES|
  {
    if n == 0 then 0.0 else UpTo(m, n - 1) + m.At(CATEGORIES[n - 1])
  }

  lemma UpToAll(m: Amounts)
    ensures UpTo(m, |CATEGORIES|) == m.Total()
  {
    assert UpTo(m, 4) == UpTo(m, 3) + m.produce;
    assert UpTo(m, 2) == UpTo(m, 1) + m.cheesecake;
  }

  lemma PlusTotal(a: Amounts, b: Amounts)
    ensures a.Plus(b).Total() == a.Total() + b.Total()
  {
  }

  lemma MinusTotal(a: Amounts, b: Amounts)
    ensures a.Minus(b).Total() == a.Total() - b.Total()
  {
  }

  const ZEROS: Amounts := Amounts(0.0, 0.0, 0.0, 0.0, 0.0, 0.0)

  // ---------------------------------------------------------------------------------------
  // Splitting one amount over categories
  // ---------------------------------------------------------------------------------------

  /** One category's share: by weight, or an even part when the weights have no positive sum. */
  function Share(amount: real, weight: real, base: real, parts: real): real
    requires parts > 0.0
  {
    if base > 0.0 then amount * (weight / base) else amount / parts
  }

  /** Over all six categories by ending inventory. */
  function Split(amount: real, ending: Amounts): Amounts {
    var base := ending.Total();
    Amounts(Share(amount, ending.protein, base, 6.0), Share(amount, ending.cheesecake, base, 6.0),
            Share(amount, ending.grocery, base, 6.0), Share(amount, ending.produce, base, 6.0),
            Share(amount, ending.beverage, base, 6.0), Share(amount, ending.packaging, base, 6.0))
  }

  /** Over the four food categories only. */
  function SplitFood(amount: real, ending: Amounts): Amounts {
    var base := ending.Food();
    Amounts(Share(amount, ending.protein, base, 4.0), Share(amount, ending.cheesecake, base, 4.0),
            Share(amount, ending.grocery, base, 4.0), Share(amount, ending.produce, base, 4.0), 0.0, 0.0)
  }

  /** A share is its weight times one common factor. */
  lemma ShareIsScaled(amount: real, weight: real, base: real, parts: real)
    requires base > 0.0 && parts > 0.0
    ensures Share(amount, weight, base, parts) == weight * (amount / base)
  {
  }

  lemma Distribute(a: real, b: real, c: real, d: real, r: real)
    ensures (a + b + c + d) * r == a * r + b * r + c * r + d * r
  {
  }

  lemma FourShares(amount: real, a: real, b: real, c: real, d: real, base: real, parts: real)
    requires base > 0.0 && parts > 0.0
    ensures Share(amount, a, base, parts) + Share(amount, b, base, parts) + Share(amount, c, base, parts)
      + Share(amount, d, base, parts)
         == (a + b + c + d) * (amount / base)
  {
    ShareIsScaled(amount, a, base, parts);
    ShareIsScaled(amount, b, base, parts);
    ShareIsScaled(amount, c, base, parts);
    ShareIsScaled(amount, d, base, parts);
    Distribute(a, b, c, d, amount / base);
  }

  lemma WholeIsTheAmount(amount: real, base: real)
    requires base > 0.0
    ensures base * (amount / base) == amount
  {
  }

  /** A split neither loses nor gains anything before rounding. */
  lemma SplitConserves(amount: real, ending: Amounts)
    ensures Split(amount, ending).Total() == amount
  {
    var base := ending.Total();
    if base > 0.0 {
      FourShares(amount, ending.protein, ending.cheesecake, ending.grocery, ending.produce, base, 6.0);
      ShareIsScaled(amount, ending.beverage, base, 6.0);
      ShareIsScaled(amount, ending.packaging, base, 6.0);
      Distribute(ending.Food(), ending.beverage, ending.packaging, 0.0, amount / base);
      WholeIsTheAmount(amount, base);
    }
  }

  lemma SplitFoodConserves(amount: real, ending: Amounts)
    ensures SplitFood(amount, ending).Total() == SplitFood(amount, ending).Food() == amount
  {
    var base := ending.Food();
    if base > 0.0 {
      FourShares(amount, ending.protein, ending.cheesecake, ending.grocery, ending.produce, base, 4.0);
      WholeIsTheAmount(amount, base);
    }
  }

  /** Every share stands to the amount as the category's own weight to the sum of the weights, or is one
      of six equal parts. */
  lemma SplitIsProportional(amount: real, e: Amounts)
    ensures var s := Split(amount, e);
      var base := e.protein + e.cheesecake + e.grocery + e.produce + e.beverage + e.packaging;
      if base > 0.0 then
        && s.protein * base == amount * e.protein && s.cheesecake * base == amount * e.cheesecake
        && s.grocery * base == amount * e.grocery && s.produce * base == amount * e.produce
        && s.beverage * base == amount * e.beverage && s.packaging * base == amount * e.packaging
      else
        && s.protein * 6.0 == s.cheesecake * 6.0 == s.grocery * 6.0 == s.produce * 6.0 == amount
        && s.beverage * 6.0 == s.packaging * 6.0 == amount
  {
    var base := e.Total();
    if base > 0.0 {
      ShareOfBase(amount, e.protein, base, 6.0);
      ShareOfBase(amount, e.cheesecake, base, 6.0);
      ShareOfBase(amount, e.grocery, base, 6.0);
      ShareOfBase(amount, e.produce, base, 6.0);
      ShareOfBase(amount, e.beverage, base, 6.0);
      ShareOfBase(amount, e.packaging, base, 6.0);
    }
  }

  /** The same over the four food categories; the other two get nothing. */
  lemma SplitFoodIsProportional(amount: real, e: Amounts)
    ensures var s, base := SplitFood(amount, e), e.protein + e.cheesecake + e.grocery + e.produce;
      && s.beverage == 0.0 == s.packaging
      && if base > 0.0 then
           && s.protein * base == amount * e.protein && s.cheesecake * base == amount * e.cheesecake
           && s.grocery * base == amount * e.grocery && s.produce * base == amount * e.produce
         else s.protein * 4.0 == s.cheesecake * 4.0 == s.grocery * 4.0 == s.produce * 4.0 == amount
  {
    var base := e.Food();
    if base > 0.0 {
      ShareOfBase(amount, e.protein, base, 4.0);
      ShareOfBase(amount, e.cheesecake, base, 4.0);
      ShareOfBase(amount, e.grocery, base, 4.0);
      ShareOfBase(amount, e.produce, base, 4.0);
    }
  }

  lemma ShareOfBase(amount: real, weight: real, base: real, parts: real)
    requires base > 0.0 && parts > 0.0
    ensures Share(amount, weight, base, parts) * base == amount * weight
  {
    ShareIsScaled(amount, weight, base, parts);
    WholeIsTheAmount(amount, base);
    assert weight * (amount / base) * base == weight * (base * (amount / base));
  }

  /** A category's name reads its own field, and setting it sets that field only. */
  lemma CategoriesAreFields(m: Amounts, v: real)
    ensures m.At(Protein) == m.protein && m.At(Cheesecake) == m.cheesecake && m.At(Grocery) == m.grocery
    ensures m.At(Produce) == m.produce && m.At(Beverage) == m.beverage && m.At(Packaging) == m.packaging
    ensures forall k, l :: m.Set(k, v).At(l) == if k == l then v else m.At(l)
  {
  }

  lemma RoundedAt(m: Amounts, c: Category)
    ensures IsCents(m.Rounded().At(c)) && Abs(m.Rounded().At(c) - m.At(c)) <= HALF_CENT
  {
    QuantizeIsNear(m.At(c));
    assert m.Rounded().At(c) == Quantize(m.At(c));
  }

  lemma RoundedIsNear(m: Amounts)
    ensures forall c: Category :: IsCents(m.Rounded().At(c)) && Abs(m.Rounded().At(c) - m.At(c)) <= HALF_CENT
    ensures IsCents(m.Rounded().Total())
    ensures Abs(m.Rounded().Total() - m.Total()) <= 6.0 * HALF_CENT
    ensures Abs(m.Rounded().Food() - m.Food()) <= 4.0 * HALF_CENT
  {
    forall c: Category {
      RoundedAt(m, c);
    }
    TotalOfCents(m.Rounded());
    SumsAreNear(m.Rounded(), m);
  }

  lemma SumsAreNear(r: Amounts, m: Amounts)
    requires forall c: Category :: Abs(r.At(c) - m.At(c)) <= HALF_CENT
    ensures Abs(r.Total() - m.Total()) <= 6.0 * HALF_CENT
    ensures Abs(r.Food() - m.Food()) <= 4.0 * HALF_CENT
  {
    assert forall c: Category :: -HALF_CENT <= r.At(c) - m.At(c) <= HALF_CENT;
    assert r.Food() - m.Food() == (r.At(Protein) - m.At(Protein)) + (r.At(Cheesecake) - m.At(Cheesecake))
                                + (r.At(Grocery) - m.At(Grocery)) + (r.At(Produce) - m.At(Produce));
    assert r.Total() - m.Total()
      == (r.Food() - m.Food()) + (r.At(Beverage) - m.At(Beverage)) + (r.At(Packaging) - m.At(Packaging));
  }

  lemma TotalOfCents(r: Amounts)
    requires forall c: Category :: IsCents(r.At(c))
    ensures IsCents(r.Total()) && IsCents(r.Food())
  {
    assert IsCents(r.At(Protein)) && IsCents(r.At(Cheesecake)) && IsCents(r.At(Grocery))
        && IsCents(r.At(Produce)) && IsCents(r.At(Beverage)) && IsCents(r.At(Packaging));
    CentsAdd(r.protein, r.cheesecake);
    CentsAdd(r.protein + r.cheesecake, r.grocery);
    CentsAdd(r.protein + r.cheesecake + r.grocery, r.produce);
    CentsAdd(r.Food(), r.beverage);
    CentsAdd(r.Food() + r.beverage, r.packaging);
  }

  /** Splitting a manual purchases total over the six categories, each share rounded to cents,
      changes the total by at most three cents. */
  lemma ManualSplitWithinThreeCents(amount: real, ending: Amounts)
    ensures Abs(Split(amount, ending).Rounded().Total() - amount) <= 0.03
  {
    SplitConserves(amount, ending);
    RoundedIsNear(Split(amount, ending));
  }

  /** Three cents are reached: three cents split evenly become six. */
  lemma ManualSplitGainsThreeCents()
    ensures Split(0.03, ZEROS).Rounded().Total() == 0.06
  {
    var share := 0.03 / 6.0;
    FloorOfInt(1, share * 100.0 + 0.5);
    assert Quantize(share) == 0.01;
  }
}
