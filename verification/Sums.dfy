/**
 Sums over the rows of a table, in whatever order they are visited.
 */
module Sums {

  ghost function Sum<T(!new)>(s: set<T>, f: T -> real): real {
    if s == {} then 0.0
    else
      var x :| x in s;
      f(x) + Sum(s - {x}, f)
  }

  lemma Pick<T>(s: set<T>) returns (x: T)
    requires s != {}
    ensures x in s
  {
    x :| x in s;
  }

  /** Any element may be taken out first: the sum does not depend on the order. */
  lemma {:induction false} SumRemove<T(!new)>(s: set<T>, f: T -> real, x: T)
    requires x in s
    ensures Sum(s, f) == f(x) + Sum(s - {x}, f)
    decreases |s|
  {
    var y :| y in s && Sum(s, f) == f(y) + Sum(s - {y}, f);
    if y != x {
      SumRemove(s - {y}, f, x);
      SumRemove(s - {x}, f, y);
      assert s - {y} - {x} == s - {x} - {y};
    }
  }

  lemma {:induction false} SumUnion<T(!new)>(s: set<T>, t: set<T>, f: T -> real)
    requires s !! t
    ensures Sum(s + t, f) == Sum(s, f) + Sum(t, f)
    decreases |s|
  {
    if s == {} {
      assert s + t == t;
    } else {
      var x :| x in s;
      SumRemove(s, f, x);
      SumRemove(s + t, f, x);
      assert s + t - {x} == (s - {x}) + t;
      SumUnion(s - {x}, t, f);
    }
  }

  lemma {:induction false} SumSame<T(!new)>(s: set<T>, f: T -> real, g: T -> real)
    requires forall x :: x in s ==> f(x) == g(x)
    ensures Sum(s, f) == Sum(s, g)
    decreases |s|
  {
    if s != {} {
      var x :| x in s;
      SumRemove(s, f, x);
      SumRemove(s, g, x);
      SumSame(s - {x}, f, g);
    }
  }

  ghost function Group<T(!new), G(!new)>(s: set<T>, group: T -> G, g: G): set<T> {
    set x | x in s && group(x) == g
  }

  ghost function GroupSums<T(!new), G(!new)>(s: set<T>, f: T -> real, group: T -> G): G -> real {
    g => Sum(Group(s, group, g), f)
  }

  /** Removing one group's rows does not change the sums of the other groups. */
  lemma OtherGroupsKeepTheirSums<T(!new), G(!new)>(s: set<T>, f: T -> real, group: T -> G, g: G, others: set<G>)
    requires g !in others
    ensures Sum(others, GroupSums(s, f, group)) == Sum(others, GroupSums(s - Group(s, group, g), f, group))
  {
    var rest := s - Group(s, group, g);
    forall h | h in others
      ensures GroupSums(s, f, group)(h) == GroupSums(rest, f, group)(h)
    {
      assert Group(s, group, h) == Group(rest, group, h);
    }
    SumSame(others, GroupSums(s, f, group), GroupSums(rest, f, group));
  }

  lemma PeelGroup<T(!new), G(!new)>(s: set<T>, f: T -> real, group: T -> G, groups: set<G>, g: G)
    requires g in groups
    ensures Sum(groups, GroupSums(s, f, group))
         == Sum(Group(s, group, g), f) + Sum(groups - {g}, GroupSums(s - Group(s, group, g), f, group))
  {
    SumRemove(groups, GroupSums(s, f, group), g);
    OtherGroupsKeepTheirSums(s, f, group, g, groups - {g});
  }

  lemma PeelRows<T(!new)>(s: set<T>, f: T -> real, inside: set<T>)
    requires inside <= s
    ensures Sum(s, f) == Sum(inside, f) + Sum(s - inside, f)
  {
    assert inside + (s - inside) == s;
    SumUnion(inside, s - inside, f);
  }

  /** GROUP BY keeps the total: the sums of the groups add up to the sum of the rows. */
  lemma {:induction false} SumOfGroups<T(!new), G(!new)>(s: set<T>, f: T -> real, group: T -> G, groups: set<G>)
    requires forall x :: x in s ==> group(x) in groups
    ensures Sum(groups, GroupSums(s, f, group)) == Sum(s, f)
    decreases |groups|
  {
    if groups == {} {
      assert s == {};
    } else {
      var g :| g in groups;
      PeelGroup(s, f, group, groups, g);
      PeelRows(s, f, Group(s, group, g));
      SumOfGroups(s - Group(s, group, g), f, group, groups - {g});
    }
  }
}
