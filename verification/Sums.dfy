/** Sums of a map's values over a set of its keys, and the double-counting law behind bucketing. */
module Sums {
  lemma HasMember(s: set<int>)
    ensures s == {} || exists x :: x in s
  {
    if forall x :: x !in s {
      assert s == {};
    }
  }

  lemma {:induction false} LeastExists(s: set<int>)
    requires s != {}
    ensures exists m :: m in s && forall x | x in s :: m <= x
    decreases |s|
  {
    HasMember(s);
    var x :| x in s;
    var rest := s - {x};
    if rest == {} {
      assert s == {x};
    } else {
      LeastExists(rest);
      var m :| m in rest && forall y | y in rest :: m <= y;
      var least := if x < m then x else m;
      assert forall y | y in s :: y == x || y in rest;
      assert least in s && forall y | y in s :: least <= y;
    }
  }

  function Least(s: set<int>): (m: int)
    requires s != {}
    ensures m in s && forall x | x in s :: m <= x
  {
    LeastExists(s);
    var m :| m in s && forall x | x in s :: m <= x;
    m
  }

  function Sum(values: map<int, int>, keys: set<int>): int
    requires keys <= values.Keys
    decreases |keys|
  {
    if keys == {} then 0
    else
      var k := Least(keys);
      values[k] + Sum(values, keys - {k})
  }

  /** Any key may be taken out first. */
  lemma {:induction false} SumTake(values: map<int, int>, keys: set<int>, k: int)
    requires keys <= values.Keys && k in keys
    ensures Sum(values, keys) == values[k] + Sum(values, keys - {k})
    decreases |keys|
  {
    var least := Least(keys);
    if k != least {
      SumTake(values, keys - {least}, k);
      assert least in keys - {k};
      assert keys - {least} - {k} == keys - {k} - {least};
    }
  }

  lemma {:induction false} SumUnion(values: map<int, int>, a: set<int>, b: set<int>)
    requires a <= values.Keys && b <= values.Keys && a !! b
    ensures Sum(values, a + b) == Sum(values, a) + Sum(values, b)
    decreases |a|
  {
    if a == {} {
      assert a + b == b;
    } else {
      var k := Least(a);
      SumTake(values, a + b, k);
      assert a + b - {k} == (a - {k}) + b;
      SumUnion(values, a - {k}, b);
    }
  }

  /** With non-negative values, more keys never sum to less. */
  lemma {:induction false} SumMonotone(values: map<int, int>, a: set<int>, b: set<int>)
    requires a <= b <= values.Keys
    requires forall k | k in b :: values[k] >= 0
    ensures 0 <= Sum(values, a) <= Sum(values, b)
    decreases |b|
  {
    if b != {} {
      var k := Least(b);
      if k in a {
        SumTake(values, a, k);
        SumMonotone(values, a - {k}, b - {k});
      } else {
        SumMonotone(values, a, b - {k});
      }
    }
  }

  /** The keys `group` puts in cell `c`. */
  ghost function Fibre(keys: set<int>, group: int -> int, c: int): set<int> {
    set k | k in keys && group(k) == c
  }

  ghost function FibreUnion(keys: set<int>, group: int -> int, cells: set<int>): set<int> {
    set k | k in keys && group(k) in cells
  }

  /**
   Double counting: if `totals` holds for each cell the sum of the keys grouped
   into it, then summing the cells is summing the keys they cover.
   */
  lemma {:induction false} SumOfFibres(values: map<int, int>, keys: set<int>, group: int -> int,
                                       totals: map<int, int>, cells: set<int>)
    requires keys <= values.Keys && cells <= totals.Keys
    requires forall c | c in cells :: totals[c] == Sum(values, Fibre(keys, group, c))
    ensures Sum(totals, cells) == Sum(values, FibreUnion(keys, group, cells))
    decreases |cells|
  {
    if cells == {} {
      assert FibreUnion(keys, group, cells) == {};
    } else {
      var c := Least(cells);
      SumOfFibres(values, keys, group, totals, cells - {c});
      SumUnion(values, Fibre(keys, group, c), FibreUnion(keys, group, cells - {c}));
      assert FibreUnion(keys, group, cells) == Fibre(keys, group, c) + FibreUnion(keys, group, cells - {c});
    }
  }

  // ----- grouping -----

  /** Each cell reached from `keys`, with the sum of the keys grouped into it. */
  ghost function Grouped(values: map<int, int>, keys: set<int>, group: int -> int): map<int, int>
    requires keys <= values.Keys
  {
    map cell | cell in (set k | k in keys :: group(k)) :: Sum(values, Fibre(keys, group, cell))
  }

  lemma FibreGrows(values: map<int, int>, keys: set<int>, group: int -> int, k: int, c: int)
    requires k in values.Keys && k !in keys && keys <= values.Keys
    ensures Sum(values, Fibre(keys + {k}, group, c))
         == Sum(values, Fibre(keys, group, c)) + if group(k) == c then values[k] else 0
  {
    if group(k) == c {
      SumTake(values, Fibre(keys + {k}, group, c), k);
      assert Fibre(keys + {k}, group, c) - {k} == Fibre(keys, group, c);
    } else {
      assert Fibre(keys + {k}, group, c) == Fibre(keys, group, c);
    }
  }

  lemma GroupedGrows(values: map<int, int>, keys: set<int>, group: int -> int, k: int,
                     before: map<int, int>, after: map<int, int>, total: int)
    requires k in values.Keys && k !in keys && keys <= values.Keys
    requires before == Grouped(values, keys, group) && after == Grouped(values, keys + {k}, group)
    requires total == (if group(k) in before then before[group(k)] else 0) + values[k]
    ensures after == before[group(k) := total]
  {
    assert after.Keys == before.Keys + {group(k)};
    forall c | c in after
      ensures after[c] == if c == group(k) then total else before[c]
    {
      FibreGrows(values, keys, group, k, c);
      if c !in before {
        assert Fibre(keys, group, c) == {};
      }
    }
  }

  /** One more key among `all`: its cell so far is at most what it ends with. */
  lemma GroupedStep(values: map<int, int>, keys: set<int>, all: set<int>, group: int -> int, k: int,
                    before: map<int, int>, total: int)
    requires k in all && k !in keys && keys <= all <= values.Keys
    requires forall j | j in all :: values[j] > 0
    requires before == Grouped(values, keys, group)
    requires total == (if group(k) in before then before[group(k)] else 0) + values[k]
    ensures Grouped(values, keys + {k}, group) == before[group(k) := total]
    ensures total <= Sum(values, Fibre(all, group, group(k)))
  {
    var after := Grouped(values, keys + {k}, group);
    GroupedGrows(values, keys, group, k, before, after, total);
    SumMonotone(values, Fibre(keys + {k}, group, group(k)), Fibre(all, group, group(k)));
    assert group(k) in after;
  }

  lemma GroupingConserves(values: map<int, int>, keys: set<int>, group: int -> int)
    requires keys <= values.Keys
    ensures Sum(Grouped(values, keys, group), Grouped(values, keys, group).Keys) == Sum(values, keys)
  {
    var grouped := Grouped(values, keys, group);
    SumOfFibres(values, keys, group, grouped, grouped.Keys);
    assert forall k | k in keys :: group(k) in grouped;
    assert FibreUnion(keys, group, grouped.Keys) == keys;
  }

  lemma GroupsArePositive(values: map<int, int>, keys: set<int>, group: int -> int, cell: int)
    requires keys <= values.Keys && forall k | k in keys :: values[k] > 0
    requires cell in Grouped(values, keys, group)
    ensures Grouped(values, keys, group)[cell] > 0
  {
    var k :| k in keys && group(k) == cell;
    var fibre := Fibre(keys, group, cell);
    SumTake(values, fibre, k);
    SumMonotone(values, {}, fibre - {k});
  }

  lemma SameCells(values: map<int, int>, keys: set<int>, fine: int -> int, coarse: int -> int, once: map<int, int>)
    requires keys <= values.Keys && once == Grouped(values, keys, fine)
    requires forall k | k in keys :: coarse(fine(k)) == coarse(k)
    ensures Grouped(once, once.Keys, coarse).Keys == Grouped(values, keys, coarse).Keys
  {
    forall k | k in keys
      ensures coarse(k) in Grouped(once, once.Keys, coarse)
    {
      assert fine(k) in once && coarse(fine(k)) == coarse(k);
    }
  }

  lemma SameTotals(values: map<int, int>, keys: set<int>, fine: int -> int, coarse: int -> int,
                   once: map<int, int>, c: int)
    requires keys <= values.Keys && once == Grouped(values, keys, fine)
    requires forall k | k in keys :: coarse(fine(k)) == coarse(k)
    ensures Sum(once, Fibre(once.Keys, coarse, c)) == Sum(values, Fibre(keys, coarse, c))
  {
    var cells := Fibre(once.Keys, coarse, c);
    assert FibreUnion(keys, fine, cells) == Fibre(keys, coarse, c) by {
      forall k | k in keys
        ensures k in FibreUnion(keys, fine, cells) <==> k in Fibre(keys, coarse, c)
      {
        assert fine(k) in once.Keys;
      }
    }
    SumOfFibres(values, keys, fine, once, cells);
  }

  /** Grouping finely and then coarsely is grouping coarsely. */
  lemma GroupTwice(values: map<int, int>, keys: set<int>, fine: int -> int, coarse: int -> int, once: map<int, int>)
    requires keys <= values.Keys && once == Grouped(values, keys, fine)
    requires forall k | k in keys :: coarse(fine(k)) == coarse(k)
    ensures Grouped(once, once.Keys, coarse) == Grouped(values, keys, coarse)
  {
    SameCells(values, keys, fine, coarse, once);
    forall c | c in Grouped(values, keys, coarse)
      ensures Grouped(once, once.Keys, coarse)[c] == Grouped(values, keys, coarse)[c]
    {
      SameTotals(values, keys, fine, coarse, once, c);
    }
  }
}
