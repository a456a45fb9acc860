/**
 Price buckets for display. Bids round down and asks round up, so a shown price
 is never better than the price it executes at.
 */
module Buckets {
  import opened Numbers
  import opened LocalBook
  import opened Sums

  // ----- the bucket of one price -----

  /** The bucket price: rounded down to a multiple of `ticks`, or up for asks. */
  function Cell(price: int, ticks: int, asks: bool): int
    requires ticks > 0
  {
    if asks && price % ticks != 0 then price - price % ticks + ticks else price - price % ticks
  }

  /** A bid bucket is the greatest multiple not above its price, an ask bucket the least not below. */
  lemma CellIsNearest(price: int, ticks: int, asks: bool, k: int)
    requires ticks > 0
    ensures Cell(price, ticks, asks) % ticks == 0
    ensures !asks ==> price - ticks < Cell(price, ticks, asks) <= price
    ensures asks ==> price <= Cell(price, ticks, asks) < price + ticks
    ensures !asks && k * ticks <= price ==> k * ticks <= Cell(price, ticks, asks)
    ensures asks && price <= k * ticks ==> Cell(price, ticks, asks) <= k * ticks
  {
    var cell := Cell(price, ticks, asks);
    var q := price / ticks;
    assert price == q * ticks + price % ticks;
    var n := if asks && price % ticks != 0 then q + 1 else q;
    assert cell == n * ticks;
    RemainderOf(n, 0, ticks);
    if k < n {
      Scale(k, n - 1, ticks);
    } else {
      Scale(n, k, ticks);
      Scale(n + 1, Max(k, n + 1), ticks);
    }
  }

  lemma Scale(j: int, k: int, ticks: int)
    requires j <= k && ticks > 0
    ensures j * ticks <= k * ticks
  {
    assert (k - j) * ticks >= 0;
  }

  lemma RemainderOf(q: int, r: int, d: int)
    requires d > 0 && 0 <= r < d
    ensures (q * d + r) % d == r
  {
    var n := q * d + r;
    var q' := n / d;
    assert n == q' * d + n % d;
    if q' > q {
      Scale(q + 1, q', d);
    } else if q' < q {
      Scale(q' + 1, q, d);
    }
  }

  lemma RemainderOfMultiple(price: int, a: int, wide: int)
    requires a > 0 && wide > 0 && wide % a == 0
    ensures (price % wide) % a == price % a
  {
    var m := wide / a;
    assert wide == m * a;
    var r, q := price % wide, price / wide;
    var s, t := r % a, r / a;
    assert r == t * a + s;
    assert price == q * wide + r;
    assert q * wide == (q * m) * a;
    assert price == (q * m + t) * a + s;
    RemainderOf(q * m + t, s, a);
  }

  /** Rounding down to `a` and then to a multiple of `a` is rounding down to that multiple. */
  lemma FloorTwice(price: int, a: int, wide: int)
    requires a > 0 && wide > 0 && wide % a == 0
    ensures Cell(Cell(price, a, false), wide, false) == Cell(price, wide, false)
  {
    RemainderOfMultiple(price, a, wide);
    var q, r := price / wide, price % wide;
    assert price == q * wide + r;
    FloorSplits(q, r, a, wide);
  }

  lemma FloorSplits(q: int, r: int, a: int, wide: int)
    requires a > 0 && 0 <= r < wide
    requires (q * wide + r) % a == r % a
    ensures Cell(Cell(q * wide + r, a, false), wide, false) == Cell(q * wide + r, wide, false)
  {
    RemainderOf(q, r - r % a, wide) by {
      assert r == (r / a) * a + r % a;
      Scale(0, r / a, a);
    }
    RemainderOf(q, r, wide);
  }

  lemma CeilingIsFloorOfNegation(price: int, ticks: int)
    requires ticks > 0
    ensures Cell(price, ticks, true) == -Cell(-price, ticks, false)
  {
    var q, r := price / ticks, price % ticks;
    assert price == q * ticks + r;
    if r == 0 {
      assert -price == (-q) * ticks + 0;
      RemainderOf(-q, 0, ticks);
    } else {
      assert -price == (-q - 1) * ticks + (ticks - r);
      RemainderOf(-q - 1, ticks - r, ticks);
    }
  }

  lemma CellTwice(price: int, a: int, wide: int, asks: bool)
    requires a > 0 && wide > 0 && wide % a == 0
    ensures Cell(Cell(price, a, asks), wide, asks) == Cell(price, wide, asks)
  {
    FloorTwice(price, a, wide);
    if asks {
      FloorTwice(-price, a, wide);
      CeilingIsFloorOfNegation(price, a);
      CeilingIsFloorOfNegation(price, wide);
      CeilingIsFloorOfNegation(Cell(price, a, true), wide);
    }
  }

  // ----- one side -----

  ghost function Live(levels: Levels): (live: set<int>)
    ensures live <= levels.Keys
  {
    set price | price in levels && levels[price] > 0
  }

  ghost function CellOf(ticks: int, asks: bool): int -> int
    requires ticks > 0
  {
    price => Cell(price, ticks, asks)
  }

  /** Each bucket price, with the sum of the live levels it covers. */
  ghost function Bucketed(levels: Levels, ticks: int, asks: bool): map<int, int>
    requires ticks > 0
  {
    Grouped(levels, Live(levels), CellOf(ticks, asks))
  }

  /** The ask rounding and the bucket total of a live price both fit an `i64`. */
  ghost predicate Fits(levels: Levels, ticks: int, asks: bool, price: int)
    requires ticks > 0
  {
    && Cell(price, ticks, asks) <= I64_MAX
    && Sum(levels, Fibre(Live(levels), CellOf(ticks, asks), Cell(price, ticks, asks))) <= I64_MAX
  }

  /** What bucketing asks of a side. */
  ghost predicate Bucketable(levels: Levels, ticks: int, asks: bool)
    requires ticks > 0
  {
    && (forall price | price in levels :: price >= 0)
    && (forall price | price in Live(levels) :: price > 0 && Fits(levels, ticks, asks, price))
  }

  ghost predicate Showable(levels: Levels) {
    forall price | price in levels :: price >= 0 && levels[price] >= 0 && (price == 0 ==> levels[price] == 0)
  }

  /** Buckets that all stayed within `i64` are the proof that every level fits. */
  lemma TotalsFit(levels: Levels, sums: Levels, ticks: int, asks: bool)
    requires ticks > 0 && sums == Bucketed(levels, ticks, asks)
    ensures forall price | price in Live(levels) :: Fits(levels, ticks, asks, price)
  {
    forall price | price in Live(levels)
      ensures Fits(levels, ticks, asks, price)
    {
      assert CellOf(ticks, asks)(price) == Cell(price, ticks, asks);
      assert Cell(price, ticks, asks) in sums;
    }
  }

  /** What a successful bucketing returns is itself a side of positive `i64` levels. */
  lemma BucketedIsSide(levels: Levels, ticks: i64, asks: bool)
    requires ticks > 0 && Bucketable(levels, ticks, asks)
    ensures forall c | c in Bucketed(levels, ticks, asks) ::
              0 <= c <= I64_MAX && 0 < Bucketed(levels, ticks, asks)[c] <= I64_MAX
  {
    forall c | c in Bucketed(levels, ticks, asks)
      ensures 0 <= c <= I64_MAX && 0 < Bucketed(levels, ticks, asks)[c] <= I64_MAX
    {
      GroupsArePositive(levels, Live(levels), CellOf(ticks, asks), c);
      var price :| price in Live(levels) && CellOf(ticks, asks)(price) == c;
      CellIsNearest(price, ticks, asks, 0);
    }
  }

  /** The checked steps that round one price; only an ask's last step can overflow. */
  method BucketPrice(price: i64, ticks: i64, asks: bool) returns (bucket: Option<i64>)
    requires price > 0 && ticks > 0
    ensures bucket == if Cell(price, ticks, asks) <= I64_MAX then Some(Cell(price, ticks, asks)) else None
  {
    var quotient := price / ticks;
    assert quotient * ticks == price - price % ticks;
    bucket := CheckedI64(quotient * ticks);
    if bucket == None {
      assert false;
    }
    if asks && price % ticks != 0 {
      bucket := CheckedI64(bucket.value + ticks);
    }
  }

  function TotalAt(sums: map<int, int>, cell: int): int {
    if cell in sums then sums[cell] else 0
  }

  lemma BucketStep(levels: Levels, done: set<int>, ticks: int, asks: bool, price: int,
                   sums: map<int, int>, total: int)
    requires ticks > 0 && done <= Live(levels) && price in Live(levels) && price !in done
    requires sums == Grouped(levels, done, CellOf(ticks, asks))
    requires total == TotalAt(sums, Cell(price, ticks, asks)) + levels[price]
    ensures Grouped(levels, done + {price}, CellOf(ticks, asks)) == sums[Cell(price, ticks, asks) := total]
    ensures total > I64_MAX ==> !Fits(levels, ticks, asks, price)
  {
    GroupedStep(levels, done, Live(levels), CellOf(ticks, asks), price, sums, total);
  }

  /** Adds one live level to its bucket; `None` when the bucket price or its total overflows. */
  method AddLevel(ghost levels: Levels, ghost done: set<int>, sums: Levels, price: i64, qty: i64, ticks: i64,
                  asks: bool)
    returns (next: Option<Levels>)
    requires ticks > 0 && done <= Live(levels) && price in Live(levels) && price !in done
    requires price > 0 && qty == levels[price]
    requires sums == Grouped(levels, done, CellOf(ticks, asks))
    ensures next.Some? ==> next.value == Grouped(levels, done + {price}, CellOf(ticks, asks))
    ensures next.None? ==> !Fits(levels, ticks, asks, price)
  {
    hide Grouped;
    var bucket := BucketPrice(price, ticks, asks);
    if bucket == None {
      return None;
    }
    var total := CheckedI64(TotalAt(sums, bucket.value) + qty);
    BucketStep(levels, done, ticks, asks, price, sums, TotalAt(sums, bucket.value) + qty);
    if total == None {
      return None;
    }
    return Some(sums[bucket.value := total.value]);
  }

  method BucketSide(levels: Levels, ticks: i64, asks: bool) returns (out: Option<Levels>)
    ensures ticks <= 0 ==> out == if Showable(levels) then Some(levels) else None
    ensures ticks > 0 ==> out == if Bucketable(levels, ticks, asks)
                                 then Some(Bucketed(levels, ticks, asks)) else None
  {
    if ticks <= 0 {
      var shown := CheckSide(levels);
      return if shown then Some(levels) else None;
    }
    var rest := levels.Keys;
    var sums: Levels := map[];
    ghost var done: set<int> := {};
    while rest != {}
      invariant rest <= levels.Keys
      invariant done <= Live(levels) && Live(levels) - done <= rest && done !! rest
      invariant forall p | p in levels :: p in rest || p >= 0
      invariant forall price | price in done :: price > 0
      invariant sums == Grouped(levels, done, CellOf(ticks, asks))
      decreases |rest|
    {
      var price: i64 := Least(rest);
      var qty := levels[price];
      rest := rest - {price};
      if price < 0 {
        return None;
      }
      if qty <= 0 {
        assert price !in Live(levels);
        continue;
      }
      assert price in Live(levels);
      if price == 0 {
        return None;
      }
      var next := AddLevel(levels, done, sums, price, qty, ticks, asks);
      if next == None {
        return None;
      }
      sums := next.value;
      done := done + {price};
    }
    assert done == Live(levels);
    TotalsFit(levels, sums, ticks, asks);
    return Some(sums);
  }

  method CheckSide(levels: Levels) returns (shown: bool)
    ensures shown <==> Showable(levels)
    ensures shown <==> forall p | p in levels :: p >= 0 && levels[p] >= 0 && (p > 0 || levels[p] == 0)
  {
    var rest := levels.Keys;
    while rest != {}
      invariant rest <= levels.Keys
      invariant forall p | p in levels :: p in rest || (p >= 0 && levels[p] >= 0 && (p == 0 ==> levels[p] == 0))
      decreases |rest|
    {
      var price: i64 := Least(rest);
      rest := rest - {price};
      if price < 0 || levels[price] < 0 || (price == 0 && levels[price] > 0) {
        return false;
      }
    }
    return true;
  }

  // ----- buckets by their ranges -----

  /** The resting levels the bucket at `c` stands for: a bid bucket those from it up, an ask bucket those up to it. */
  ghost function InRange(levels: Levels, c: int, ticks: int, asks: bool): (prices: set<int>)
    ensures prices <= levels.Keys
  {
    set p | p in levels && levels[p] > 0 && (if asks then c - ticks < p <= c else c <= p < c + ticks)
  }

  lemma FibreIsRange(levels: Levels, c: int, ticks: int, asks: bool)
    requires ticks > 0 && c % ticks == 0
    ensures Fibre(Live(levels), CellOf(ticks, asks), c) == InRange(levels, c, ticks, asks)
  {
    forall p | p in Live(levels)
      ensures Cell(p, ticks, asks) == c <==> if asks then c - ticks < p <= c else c <= p < c + ticks
    {
      var k := c / ticks;
      assert c == k * ticks;
      CellIsNearest(p, ticks, asks, k);
      MultiplesApart(Cell(p, ticks, asks), c, ticks);
    }
  }

  lemma MultiplesApart(a: int, b: int, ticks: int)
    requires ticks > 0 && a % ticks == 0 && b % ticks == 0
    ensures a == b || a - b >= ticks || b - a >= ticks
  {
    var j, k := a / ticks, b / ticks;
    assert a == j * ticks && b == k * ticks;
    if j > k {
      Scale(k + 1, j, ticks);
    } else if j < k {
      Scale(j + 1, k, ticks);
    }
  }

  /** A bucket stands at each multiple of the size with a level in its range, and holds their sum. */
  lemma BucketsByRange(levels: Levels, ticks: int, asks: bool, c: int)
    requires ticks > 0
    ensures var shown := Bucketed(levels, ticks, asks);
            && (c in shown <==> c % ticks == 0 && InRange(levels, c, ticks, asks) != {})
            && (c in shown ==> shown[c] == Sum(levels, InRange(levels, c, ticks, asks)))
  {
    var f := CellOf(ticks, asks);
    if c % ticks == 0 {
      FibreIsRange(levels, c, ticks, asks);
      if p :| p in InRange(levels, c, ticks, asks) {
        assert p in Live(levels) && f(p) == c;
      }
    }
    forall p | p in Live(levels) && f(p) == c
      ensures c % ticks == 0 && p in InRange(levels, c, ticks, asks)
    {
      CellIsNearest(p, ticks, asks, 0);
    }
  }

  /**
   A side can be bucketed exactly when no price is negative, nothing rests at zero, and every resting
   level lies in the range of a multiple within `i64` whose levels sum to no more than an `i64` holds.
   */
  lemma BucketableByRange(levels: Levels, ticks: int, asks: bool)
    requires ticks > 0
    ensures Bucketable(levels, ticks, asks) <==>
              && (forall p | p in levels :: p >= 0 && (p == 0 ==> levels[p] <= 0))
              && forall p | p in levels && levels[p] > 0 :: exists c ::
                   && c % ticks == 0 && p in InRange(levels, c, ticks, asks)
                   && c <= 9_223_372_036_854_775_807
                   && Sum(levels, InRange(levels, c, ticks, asks)) <= 9_223_372_036_854_775_807
  {
    hide Sum, Fibre;
    forall p | p in levels && levels[p] > 0
      ensures Fits(levels, ticks, asks, p) <==> exists c ::
                && c % ticks == 0 && p in InRange(levels, c, ticks, asks)
                && c <= 9_223_372_036_854_775_807
                && Sum(levels, InRange(levels, c, ticks, asks)) <= 9_223_372_036_854_775_807
    {
      var cell := Cell(p, ticks, asks);
      CellIsNearest(p, ticks, asks, 0);
      FibreIsRange(levels, cell, ticks, asks);
      assert p in InRange(levels, cell, ticks, asks);
      forall c | c % ticks == 0 && p in InRange(levels, c, ticks, asks)
        ensures c == cell
      {
        MultiplesApart(cell, c, ticks);
      }
    }
  }

  // ----- what bucketing keeps -----

  /** Bucketing moves quantity between prices and neither makes nor loses any. */
  lemma BucketingConserves(levels: Levels, ticks: int, asks: bool)
    requires ticks > 0
    ensures var shown := Bucketed(levels, ticks, asks);
            Sum(shown, shown.Keys) == Sum(levels, Live(levels))
  {
    GroupingConserves(levels, Live(levels), CellOf(ticks, asks));
  }

  /** A finer bucket succeeds wherever a multiple of it does. */
  lemma FinerIsBucketable(levels: Levels, a: i64, wide: i64, asks: bool)
    requires a > 0 && wide > 0 && wide % a == 0
    requires Bucketable(levels, wide, asks)
    ensures Bucketable(levels, a, asks)
  {
    forall price | price in Live(levels)
      ensures Fits(levels, a, asks, price)
    {
      assert Fits(levels, wide, asks, price);
      CellTwice(price, a, wide, asks);
      CellIsNearest(price, a, asks, 0);
      CellIsNearest(Cell(price, a, asks), wide, asks, 0);
      var fine := Fibre(Live(levels), CellOf(a, asks), Cell(price, a, asks));
      var coarse := Fibre(Live(levels), CellOf(wide, asks), Cell(price, wide, asks));
      forall p | p in fine
        ensures p in coarse
      {
        CellTwice(p, a, wide, asks);
      }
      SumMonotone(levels, fine, coarse);
    }
  }

  lemma FineTotals(levels: Levels, a: i64, wide: i64, asks: bool)
    requires a > 0 && wide > 0 && wide % a == 0
    requires Bucketable(levels, a, asks)
    ensures var fine := Bucketed(levels, a, asks);
            Grouped(fine, fine.Keys, CellOf(wide, asks)) == Bucketed(levels, wide, asks)
  {
    forall p | p in Live(levels)
      ensures CellOf(wide, asks)(CellOf(a, asks)(p)) == CellOf(wide, asks)(p)
    {
      CellTwice(p, a, wide, asks);
    }
    GroupTwice(levels, Live(levels), CellOf(a, asks), CellOf(wide, asks), Bucketed(levels, a, asks));
  }

  /**
   Bucketing by `a` and then by a multiple of `a` is bucketing by the multiple,
   exactly when no bid is priced below `a`: such a bid is shown at price zero,
   which the second pass refuses.
   */
  lemma BucketTwice(levels: Levels, fine: Levels, a: i64, wide: i64, asks: bool)
    requires a > 0 && wide > 0 && wide % a == 0
    requires Bucketable(levels, wide, asks)
    requires fine == Bucketed(levels, a, asks)
    ensures Bucketable(levels, a, asks)
    ensures Bucketable(fine, wide, asks) <==> asks || forall price | price in Live(levels) :: price >= a
    ensures Bucketed(fine, wide, asks) == Bucketed(levels, wide, asks)
  {
    FinerIsBucketable(levels, a, wide, asks);
    BucketedIsSide(levels, a, asks);
    assert Live(fine) == fine.Keys;
    FineTotals(levels, a, wide, asks);
    forall f | f in fine
      ensures Fits(fine, wide, asks, f)
    {
      FineCellFits(levels, fine, a, wide, asks, f);
    }
    CellsAtZero(levels, fine, a, asks);
  }

  lemma OneBidIsBucketable(qty: i64, ticks: i64)
    requires qty > 0 && ticks > 0
    ensures Bucketable(map[3 := qty], ticks, false)
  {
    var levels: Levels := map[3 := qty];
    assert Live(levels) == {3};
    var fibre := Fibre(Live(levels), CellOf(ticks, false), Cell(3, ticks, false));
    assert fibre == {3};
    SumTake(levels, {3}, 3);
    assert Sum(levels, {3}) == qty + Sum(levels, {});
  }

  /** A bid at 3 buckets by 5, to a bucket at zero, and by 10, but not by 10 after 5. */
  lemma LowBidIsRefusedTwice(qty: i64) returns (fine: Levels)
    requires qty > 0
    ensures Bucketable(map[3 := qty], 5, false) && Bucketable(map[3 := qty], 10, false)
    ensures fine == Bucketed(map[3 := qty], 5, false) && fine.Keys == {0}
    ensures !Bucketable(fine, 10, false)
  {
    var levels: Levels := map[3 := qty];
    OneBidIsBucketable(qty, 5);
    OneBidIsBucketable(qty, 10);
    BucketedIsSide(levels, 5, false);
    fine := Bucketed(levels, 5, false);
    assert Live(levels) == {3} && CellOf(5, false)(3) == 0;
    BucketTwice(levels, fine, 5, 10, false);
  }

  /** A bucket sits at price zero exactly when some bid is priced below the bucket size. */
  lemma CellsAtZero(levels: Levels, fine: Levels, a: i64, asks: bool)
    requires a > 0 && Bucketable(levels, a, asks)
    requires fine == Bucketed(levels, a, asks)
    ensures (forall f | f in fine :: f > 0) <==> asks || forall price | price in Live(levels) :: price >= a
  {
    if asks || forall price | price in Live(levels) :: price >= a {
      forall f | f in fine
        ensures f > 0
      {
        var price :| price in Live(levels) && CellOf(a, asks)(price) == f;
        CellIsNearest(price, a, asks, 1);
      }
    } else {
      var price :| price in Live(levels) && price < a;
      RemainderOf(0, price, a);
      assert CellOf(a, asks)(price) == 0;
      assert 0 in fine;
    }
  }

  lemma FineCellFits(levels: Levels, fine: Levels, a: i64, wide: i64, asks: bool, f: int)
    requires a > 0 && wide > 0 && wide % a == 0
    requires Bucketable(levels, wide, asks)
    requires fine == Bucketed(levels, a, asks) && Live(fine) == fine.Keys && f in fine
    requires Grouped(fine, fine.Keys, CellOf(wide, asks)) == Bucketed(levels, wide, asks)
    ensures Fits(fine, wide, asks, f)
  {
    var price :| price in Live(levels) && Cell(price, a, asks) == f;
    CellTwice(price, a, wide, asks);
    assert Fits(levels, wide, asks, price);
    var c := Cell(price, wide, asks);
    assert c == CellOf(wide, asks)(f) && c == CellOf(wide, asks)(price);
    assert Bucketed(levels, wide, asks)[c] == Sum(levels, Fibre(Live(levels), CellOf(wide, asks), c));
  }

  /** Rounding never improves a price, so an uncrossed book stays uncrossed and its spread never narrows. */
  lemma SpreadNeverNarrows(bids: Levels, asks: Levels, ticks: int, bid: int, ask: int)
    requires ticks > 0
    requires forall b, a | b in Live(bids) && a in Live(asks) :: b < a
    requires bid in Bucketed(bids, ticks, false) && ask in Bucketed(asks, ticks, true)
    ensures exists b, a :: b in Live(bids) && a in Live(asks) && bid <= b < a <= ask
  {
    var b :| b in Live(bids) && Cell(b, ticks, false) == bid;
    var a :| a in Live(asks) && Cell(a, ticks, true) == ask;
    CellIsNearest(b, ticks, false, 0);
    CellIsNearest(a, ticks, true, 0);
  }
}
