/** Rendering the local book: sorted sides, best price first, cut at a depth. */
module BookView {
  import opened Numbers
  import opened LocalBook
  import opened Sums
  import opened Buckets

  const MAX_PROTOCOL_SCALE: u32 := 36

  datatype Level = Level(priceTicks: i64, qtyScaled: i64)

  datatype OrderbookData = OrderbookData(
    symbol: string, depth: u32, bookSeq: u64, bids: seq<Level>, asks: seq<Level>, available: bool)

  // ----- order -----

  function Ascending(prices: set<i64>): (order: seq<i64>)
    ensures |order| == |prices|
    ensures forall i | 0 <= i < |order| :: order[i] in prices
    decreases |prices|
  {
    if prices == {} then []
    else
      var least: i64 := Least(prices);
      [least] + Ascending(prices - {least})
  }

  lemma {:induction false} AscendingIsSorted(prices: set<i64>)
    ensures forall p: i64 :: p in prices ==> p in Ascending(prices)
    ensures forall i, j | 0 <= i < j < |Ascending(prices)| :: Ascending(prices)[i] < Ascending(prices)[j]
    decreases |prices|
  {
    if prices != {} {
      var least: i64 := Least(prices);
      AscendingIsSorted(prices - {least});
      var rest := Ascending(prices - {least});
      assert Ascending(prices) == [least] + rest;
      forall p: i64 | p in prices
        ensures p in [least] + rest
      {
        if p != least {
          assert p in rest;
        }
      }
    }
  }

  /** Best price first: bids descend, asks ascend. */
  function BestFirst(view: Levels, bids: bool): (order: seq<i64>)
    ensures |order| == |view.Keys|
    ensures forall i | 0 <= i < |order| :: order[i] in view
  {
    var order := Ascending(view.Keys);
    if bids then seq(|order|, i requires 0 <= i < |order| => order[|order| - 1 - i]) else order
  }

  predicate Better(a: int, b: int, bids: bool) {
    if bids then a > b else a < b
  }

  // ----- rows -----

  function Rows(view: Levels, bids: bool, limit: nat): seq<Level> {
    BestRows(view, BestFirst(view, bids), limit)
  }

  function BestRows(view: Levels, order: seq<i64>, limit: nat): (rows: seq<Level>)
    requires forall i | 0 <= i < |order| :: order[i] in view
    ensures |rows| == Min(limit, |order|)
  {
    seq(Min(limit, |order|), i requires 0 <= i < Min(limit, |order|) => Level(order[i], view[order[i]]))
  }

  /** `decode_price_ticks` or `decode_price_ticks_allow_zero`, and `decode_qty_scaled`, on one row. */
  predicate Decodes(row: Level, zeroPrice: bool, quantityScale: u32) {
    && (row.priceTicks > 0 || (zeroPrice && row.priceTicks == 0))
    && row.qtyScaled > 0 && quantityScale <= MAX_PROTOCOL_SCALE
  }

  predicate AllDecode(rows: seq<Level>, zeroPrice: bool, quantityScale: u32) {
    forall i | 0 <= i < |rows| :: Decodes(rows[i], zeroPrice, quantityScale)
  }

  /** What a side is shown as before it is cut at a depth, or nothing when it is refused. */
  ghost function Shown(levels: Levels, ticks: i64, asks: bool): Option<Levels> {
    if ticks <= 0 then
      if Showable(levels) then Some(levels) else None
    else if Bucketable(levels, ticks, asks) then
      BucketedIsSide(levels, ticks, asks);
      Some(Bucketed(levels, ticks, asks))
    else None
  }

  /** The rendered side: the best rows of what is shown, or nothing when any of it is refused. */
  ghost function Rendered(book: Levels, bids: bool, limit: nat, ticks: i64, quantityScale: u32): Option<seq<Level>> {
    match Shown(book, ticks, !bids)
    case None => None
    case Some(view) =>
      var rows := Rows(view, bids, limit);
      if AllDecode(rows, ticks > 0 && bids, quantityScale) then Some(rows) else None
  }

  method DecodeRows(view: Levels, bids: bool, limit: nat, zeroPrice: bool, quantityScale: u32)
    returns (rows: Option<seq<Level>>)
    ensures rows == if AllDecode(Rows(view, bids, limit), zeroPrice, quantityScale)
                    then Some(Rows(view, bids, limit)) else None
  {
    var order := BestFirst(view, bids);
    ghost var all := Rows(view, bids, limit);
    var levels: seq<Level> := [];
    for i := 0 to Min(limit, |order|)
      invariant levels == all[..i]
      invariant AllDecode(levels, zeroPrice, quantityScale)
    {
      var price, qty := order[i], view[order[i]];
      assert all[i] == Level(price, qty);
      if !(price > 0 || (zeroPrice && price == 0)) || qty <= 0 || quantityScale > MAX_PROTOCOL_SCALE {
        assert !Decodes(all[i], zeroPrice, quantityScale);
        return None;
      }
      levels := levels + [Level(price, qty)];
    }
    assert levels == all;
    return Some(levels);
  }

  method SideToLevels(book: Levels, bids: bool, limit: nat, ticks: i64, quantityScale: u32)
    returns (rows: Option<seq<Level>>)
    ensures rows == Rendered(book, bids, limit, ticks, quantityScale)
  {
    var view := BucketSide(book, ticks, !bids);
    if view == None {
      return None;
    }
    rows := DecodeRows(view.value, bids, limit, ticks > 0 && bids, quantityScale);
  }

  method BuildOrderbookData(symbol: string, depth: u32, bookSeq: u64, bids: Levels, asks: Levels, ticks: i64,
                            quantityScale: u32, available: bool)
    returns (data: Option<OrderbookData>)
    ensures data == match (Rendered(bids, true, depth, ticks, quantityScale),
                           Rendered(asks, false, depth, ticks, quantityScale)) {
              case (Some(bidRows), Some(askRows)) =>
                Some(OrderbookData(symbol, depth, bookSeq, bidRows, askRows, available))
              case _ => None
            }
  {
    var bidRows := SideToLevels(bids, true, depth, ticks, quantityScale);
    if bidRows == None {
      return None;
    }
    var askRows := SideToLevels(asks, false, depth, ticks, quantityScale);
    if askRows == None {
      return None;
    }
    return Some(OrderbookData(symbol, depth, bookSeq, bidRows.value, askRows.value, available));
  }

  // ----- what rendering promises -----

  lemma BestFirstIsOrdered(view: Levels, bids: bool)
    ensures forall i, j | 0 <= i < j < |BestFirst(view, bids)| ::
              Better(BestFirst(view, bids)[i], BestFirst(view, bids)[j], bids)
  {
    AscendingIsSorted(view.Keys);
  }

  lemma BestFirstIsComplete(view: Levels, bids: bool, price: i64)
    requires price in view
    ensures price in BestFirst(view, bids)
  {
    AscendingIsSorted(view.Keys);
    var ascending, order := Ascending(view.Keys), BestFirst(view, bids);
    var i :| 0 <= i < |ascending| && ascending[i] == price;
    assert order[if bids then |order| - 1 - i else i] == price;
  }

  /** The rows are levels of the side, strictly best first. */
  lemma RowsAreTheBest(view: Levels, bids: bool, limit: nat)
    ensures var rows := Rows(view, bids, limit);
            && |rows| == Min(limit, |view|)
            && (forall i | 0 <= i < |rows| ::
                  rows[i].priceTicks in view && rows[i].qtyScaled == view[rows[i].priceTicks])
            && (forall i, j | 0 <= i < j < |rows| :: Better(rows[i].priceTicks, rows[j].priceTicks, bids))
  {
    BestFirstIsOrdered(view, bids);
    assert |view| == |view.Keys|;
  }

  /** A level that is not among the rows is worse than every row. */
  lemma LevelLeftOutIsWorse(view: Levels, bids: bool, limit: nat, price: i64, i: nat)
    requires price in view && i < |Rows(view, bids, limit)|
    ensures var rows := Rows(view, bids, limit);
            || Better(rows[i].priceTicks, price, bids)
            || exists j | 0 <= j < |rows| :: rows[j].priceTicks == price
  {
    BestFirstIsOrdered(view, bids);
    BestFirstIsComplete(view, bids, price);
    var rows, order := Rows(view, bids, limit), BestFirst(view, bids);
    var k :| 0 <= k < |order| && order[k] == price;
    if k < |rows| {
      assert rows[k].priceTicks == price;
    }
  }

  /** A shallower rendering is the top of a deeper one. */
  lemma DepthIsPrefix(book: Levels, bids: bool, shallow: nat, deep: nat, ticks: i64, quantityScale: u32)
    requires shallow <= deep && Rendered(book, bids, deep, ticks, quantityScale).Some?
    ensures Rendered(book, bids, shallow, ticks, quantityScale).Some?
    ensures var top, all := Rendered(book, bids, shallow, ticks, quantityScale).value,
                            Rendered(book, bids, deep, ticks, quantityScale).value;
            top == all[..Min(shallow, |all|)]
  {
    var view := Shown(book, ticks, !bids).value;
    var top, all := Rows(view, bids, shallow), Rows(view, bids, deep);
    assert top == all[..Min(shallow, |all|)];
  }

  lemma PositiveRowsDecode(view: Levels, bids: bool, limit: nat, zeroPrice: bool, quantityScale: u32)
    requires quantityScale <= 36
    requires forall p | p in view :: view[p] > 0 && (p > 0 || (zeroPrice && p == 0))
    ensures AllDecode(Rows(view, bids, limit), zeroPrice, quantityScale)
  {
  }

  /** Whatever deltas arrive, a book that started with positive levels renders unbucketed. */
  lemma ReachableBookRenders(book: Book, deltas: seq<Delta>, limit: nat, quantityScale: u32)
    requires Canonical(book.bids) && Canonical(book.asks)
    requires quantityScale <= 36
    ensures Rendered(Run(book, deltas).bids, true, limit, 0, quantityScale).Some?
    ensures Rendered(Run(book, deltas).asks, false, limit, 0, quantityScale).Some?
  {
    RunKeepsCanonical(book, deltas);
    PositiveRowsDecode(Run(book, deltas).bids, true, limit, false, quantityScale);
    PositiveRowsDecode(Run(book, deltas).asks, false, limit, false, quantityScale);
  }

  /** Once bucketing succeeds nothing later refuses the side, not even a bid bucket at price zero. */
  lemma BucketedSideRenders(book: Levels, bids: bool, limit: nat, ticks: i64, quantityScale: u32)
    requires ticks > 0 && quantityScale <= 36
    ensures Rendered(book, bids, limit, ticks, quantityScale).Some? <==> Bucketable(book, ticks, !bids)
  {
    if Bucketable(book, ticks, !bids) {
      var view := Shown(book, ticks, !bids).value;
      BucketedIsSide(book, ticks, !bids);
      if !bids {
        CellsAtZero(book, view, ticks, true);
      }
      PositiveRowsDecode(view, bids, limit, bids, quantityScale);
    }
  }

  lemma RowIsLevel(view: Levels, bids: bool, limit: nat, row: Level)
    requires row in Rows(view, bids, limit)
    ensures row.priceTicks in view
  {
    var i :| 0 <= i < |Rows(view, bids, limit)| && Rows(view, bids, limit)[i] == row;
  }

  /** A book whose bids all rest below its asks is displayed that way at every bucket size. */
  lemma RenderedBookIsUncrossed(bids: Levels, asks: Levels, limit: nat, ticks: i64, quantityScale: u32,
                                bid: Level, ask: Level)
    requires ticks > 0
    requires forall b, a | b in Live(bids) && a in Live(asks) :: b < a
    requires Rendered(bids, true, limit, ticks, quantityScale).Some?
    requires Rendered(asks, false, limit, ticks, quantityScale).Some?
    requires bid in Rendered(bids, true, limit, ticks, quantityScale).value
    requires ask in Rendered(asks, false, limit, ticks, quantityScale).value
    ensures bid.priceTicks < ask.priceTicks
  {
    RowIsLevel(Shown(bids, ticks, false).value, true, limit, bid);
    RowIsLevel(Shown(asks, ticks, true).value, false, limit, ask);
    SpreadNeverNarrows(bids, asks, ticks, bid.priceTicks, ask.priceTicks);
  }

  /**
   What is refused: unbucketed, a side with a negative entry or something resting at price zero, and
   otherwise only rows that are shown: one at a price or quantity that is not positive, save for a
   bid bucket at zero, or any row at a scale beyond 36.
   */
  lemma RendersExactly(book: Levels, bids: bool, limit: nat, ticks: i64, quantityScale: u32)
    ensures var view := Shown(book, ticks, !bids);
            && (ticks <= 0 ==>
                  (view.Some? <==> forall p | p in book :: p >= 0 && book[p] >= 0 && (p > 0 || book[p] == 0))
                  && (view.Some? ==> view.value == book))
            && (ticks > 0 ==>
                  (view.Some? <==> Bucketable(book, ticks, !bids))
                  && (view.Some? ==> view.value == Bucketed(book, ticks, !bids)))
            && (Rendered(book, bids, limit, ticks, quantityScale).Some? <==>
                  && view.Some?
                  && forall row <- Rows(view.value, bids, limit) ::
                       && quantityScale <= 36 && row.qtyScaled > 0
                       && (row.priceTicks > 0 || (row.priceTicks == 0 && ticks > 0 && bids)))
            && (Rendered(book, bids, limit, ticks, quantityScale).Some? ==>
                  Rendered(book, bids, limit, ticks, quantityScale).value == Rows(view.value, bids, limit))
  {
    hide Rows, Bucketed, Bucketable;
    if Shown(book, ticks, !bids).Some? {
      var rows := Rows(Shown(book, ticks, !bids).value, bids, limit);
      assert forall i | 0 <= i < |rows| :: rows[i] in rows;
    }
  }
}
