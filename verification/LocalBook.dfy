/**
 The local order book: sequence-numbered deltas merged into two price maps.

 The book is specified by `Next`, one delta at a time, and `RunFollowsServer`
 says what that is for: whatever deltas arrive, the local book is the server's
 book at the sequence number it reports.
 */
module LocalBook {
  import opened Numbers

  /** Price ticks to scaled quantity. */
  type Levels = map<i64, i64>

  datatype PriceQty = PriceQty(priceTicks: i64, qtyScaled: i64)

  datatype Delta = Delta(seqStart: u64, seqEnd: u64, reset: bool, bids: seq<PriceQty>, asks: seq<PriceQty>)

  datatype Book = Book(bids: Levels, asks: Levels, seqNo: u64)

  /** The quantity resting at `price`; zero when there is no such level. */
  function Qty(levels: Levels, price: i64): i64 {
    if price in levels then levels[price] else 0
  }

  /** Every level has a positive price and a positive quantity. */
  ghost predicate Canonical(levels: Levels) {
    forall price | price in levels :: price > 0 && levels[price] > 0
  }

  // ----- one side -----

  function Put(levels: Levels, pair: PriceQty): Levels {
    if pair.priceTicks < 0 || pair.qtyScaled < 0 then levels
    else if pair.qtyScaled == 0 then levels - {pair.priceTicks}
    else levels[pair.priceTicks := pair.qtyScaled]
  }

  function Merge(levels: Levels, pairs: seq<PriceQty>): Levels {
    if pairs == [] then levels
    else Put(Merge(levels, pairs[..|pairs| - 1]), pairs[|pairs| - 1])
  }

  /** The quantity the last valid row for `price` gives, if any row does. */
  function LastQuote(pairs: seq<PriceQty>, price: i64): Option<i64> {
    if pairs == [] then None
    else
      var last := pairs[|pairs| - 1];
      if last.priceTicks == price && price >= 0 && last.qtyScaled >= 0 then Some(last.qtyScaled)
      else LastQuote(pairs[..|pairs| - 1], price)
  }

  class BookSide {
    var levels: Levels

    constructor ()
      ensures levels == map[]
    {
      levels := map[];
    }
  }

  method ApplySideDelta(book: BookSide, pairs: seq<PriceQty>)
    modifies book
    ensures book.levels == Merge(old(book.levels), pairs)
  {
    for i := 0 to |pairs|
      invariant book.levels == Merge(old(book.levels), pairs[..i])
    {
      var price, qty := pairs[i].priceTicks, pairs[i].qtyScaled;
      assert pairs[..i + 1][..i] == pairs[..i];
      if price < 0 || qty < 0 {
        continue;
      }
      if qty == 0 {
        book.levels := book.levels - {price};
      } else {
        book.levels := book.levels[price := qty];
      }
    }
    assert pairs[..|pairs|] == pairs;
  }

  /** A merge leaves at each price what its last valid row says, and touches no other price. */
  lemma {:induction false} MergeByPrice(levels: Levels, pairs: seq<PriceQty>, price: i64)
    requires forall p | p in levels :: levels[p] > 0
    ensures forall p | p in Merge(levels, pairs) :: Merge(levels, pairs)[p] > 0
    ensures Qty(Merge(levels, pairs), price)
         == match LastQuote(pairs, price) { case Some(q) => q case None => Qty(levels, price) }
    decreases |pairs|
  {
    if pairs != [] {
      MergeByPrice(levels, pairs[..|pairs| - 1], price);
    }
  }

  /** The row says what rests at `price`. */
  predicate Quotes(row: PriceQty, price: i64) {
    row.priceTicks == price && price >= 0 && row.qtyScaled >= 0
  }

  lemma {:induction false} LastQuoteIs(pairs: seq<PriceQty>, price: i64, i: nat)
    requires i < |pairs| && Quotes(pairs[i], price)
    requires forall j | i < j < |pairs| :: !Quotes(pairs[j], price)
    ensures LastQuote(pairs, price) == Some(pairs[i].qtyScaled)
    decreases |pairs|
  {
    if i < |pairs| - 1 {
      LastQuoteIs(pairs[..|pairs| - 1], price, i);
      assert !Quotes(pairs[|pairs| - 1], price);
    }
  }

  lemma {:induction false} NoQuote(pairs: seq<PriceQty>, price: i64)
    requires forall j | 0 <= j < |pairs| :: !Quotes(pairs[j], price)
    ensures LastQuote(pairs, price) == None
    decreases |pairs|
  {
    if pairs != [] {
      NoQuote(pairs[..|pairs| - 1], price);
      assert !Quotes(pairs[|pairs| - 1], price);
    }
  }

  /** Of the rows for one price the last counts, a quantity of zero emptying it. */
  lemma LastRowCounts(levels: Levels, pairs: seq<PriceQty>, price: i64, i: nat)
    requires forall p | p in levels :: levels[p] > 0
    requires i < |pairs| && Quotes(pairs[i], price)
    requires forall j | i < j < |pairs| :: !Quotes(pairs[j], price)
    ensures Qty(Merge(levels, pairs), price) == pairs[i].qtyScaled
    ensures price in Merge(levels, pairs) <==> pairs[i].qtyScaled > 0
  {
    hide Merge, LastQuote;
    LastQuoteIs(pairs, price, i);
    MergeByPrice(levels, pairs, price);
  }

  /** A price with no valid row keeps its level. */
  lemma NoRowNoChange(levels: Levels, pairs: seq<PriceQty>, price: i64)
    requires forall p | p in levels :: levels[p] > 0
    requires forall j | 0 <= j < |pairs| :: !Quotes(pairs[j], price)
    ensures Qty(Merge(levels, pairs), price) == Qty(levels, price)
    ensures price in Merge(levels, pairs) <==> price in levels
  {
    hide Merge, LastQuote;
    NoQuote(pairs, price);
    MergeByPrice(levels, pairs, price);
  }

  function Resting(pairs: seq<PriceQty>): seq<PriceQty> {
    if pairs == [] then []
    else
      var last := pairs[|pairs| - 1];
      Resting(pairs[..|pairs| - 1]) + if last.qtyScaled > 0 then [last] else []
  }

  lemma MergeResting(pairs: seq<PriceQty>, last: PriceQty)
    ensures Merge(map[], Resting(pairs + [last]))
         == if last.qtyScaled > 0 then Put(Merge(map[], Resting(pairs)), last) else Merge(map[], Resting(pairs))
  {
    assert (pairs + [last])[..|pairs|] == pairs;
    if last.qtyScaled > 0 {
      var kept := Resting(pairs + [last]);
      assert kept == Resting(pairs) + [last];
      assert kept[..|kept| - 1] == Resting(pairs);
    } else {
      assert Resting(pairs + [last]) == Resting(pairs);
    }
  }

  /** A snapshot side: the rows that rest, merged into an empty side. */
  method LevelsFromPairs(pairs: seq<PriceQty>) returns (levels: Levels)
    ensures levels == Merge(map[], Resting(pairs))
  {
    levels := map[];
    for i := 0 to |pairs|
      invariant levels == Merge(map[], Resting(pairs[..i]))
    {
      var price, qty := pairs[i].priceTicks, pairs[i].qtyScaled;
      MergeResting(pairs[..i], pairs[i]);
      assert pairs[..i + 1] == pairs[..i] + [pairs[i]];
      if price < 0 || qty <= 0 {
        continue;
      }
      levels := levels[price := qty];
    }
    assert pairs[..|pairs|] == pairs;
  }

  lemma SameQuantitiesSameLevels(a: Levels, b: Levels)
    requires forall p | p in a :: a[p] > 0
    requires forall p | p in b :: b[p] > 0
    requires forall p: i64 :: Qty(a, p) == Qty(b, p)
    ensures a == b
  {
    forall p: i64
      ensures p in a <==> p in b
      ensures p in a ==> a[p] == b[p]
    {
      assert Qty(a, p) == Qty(b, p);
    }
    assert a.Keys == b.Keys;
  }

  predicate Rests(pair: PriceQty) {
    pair.priceTicks >= 0 && pair.qtyScaled > 0
  }

  /** Some row of the list rests at `price`. */
  predicate RestsAt(pairs: seq<PriceQty>, price: i64) {
    exists i | 0 <= i < |pairs| :: Rests(pairs[i]) && pairs[i].priceTicks == price
  }

  lemma RestingOfOneMore(before: seq<PriceQty>, last: PriceQty)
    ensures Resting(before + [last]) == Resting(before) + if last.qtyScaled > 0 then [last] else []
  {
    assert (before + [last])[..|before|] == before;
  }

  lemma LastQuoteOfOneMore(before: seq<PriceQty>, last: PriceQty, price: i64)
    ensures LastQuote(before + [last], price)
         == if last.priceTicks == price && price >= 0 && last.qtyScaled >= 0 then Some(last.qtyScaled)
            else LastQuote(before, price)
  {
    assert (before + [last])[..|before|] == before;
  }

  lemma RestsAtOneMore(before: seq<PriceQty>, last: PriceQty, price: i64)
    ensures RestsAt(before + [last], price) <==> RestsAt(before, price) || (Rests(last) && last.priceTicks == price)
  {
    hide Rests;
    var all := before + [last];
    if RestsAt(before, price) {
      var i :| 0 <= i < |before| && Rests(before[i]) && before[i].priceTicks == price;
      assert all[i] == before[i];
    }
    if Rests(last) && last.priceTicks == price {
      assert all[|before|] == last;
    }
  }

  lemma QuoteOfOneMore(before: seq<PriceQty>, last: PriceQty, price: i64)
    ensures LastQuote(before + [last], price)
         == if last.priceTicks == price && price >= 0 && last.qtyScaled >= 0 then Some(last.qtyScaled)
            else LastQuote(before, price)
    ensures LastQuote(Resting(before + [last]), price)
         == if Rests(last) && last.priceTicks == price then Some(last.qtyScaled) else LastQuote(Resting(before), price)
    ensures RestsAt(before + [last], price) <==> RestsAt(before, price) || (Rests(last) && last.priceTicks == price)
  {
    hide LastQuote, Resting, RestsAt;
    LastQuoteOfOneMore(before, last, price);
    RestingOfOneMore(before, last);
    LastQuoteOfOneMore(Resting(before), last, price);
    RestsAtOneMore(before, last, price);
    assert Resting(before) + [] == Resting(before);
  }

  /** Leaving rows out changes the last quote of a price only when that was a deletion. */
  lemma {:induction false} QuoteOfResting(pairs: seq<PriceQty>, price: i64)
    ensures var kept, all := LastQuote(Resting(pairs), price), LastQuote(pairs, price);
            && (kept == all || all == Some(0))
            && (kept.Some? ==> kept.value > 0) && (kept.Some? <==> RestsAt(pairs, price))
    decreases |pairs|
  {
    if pairs != [] {
      var before, last := pairs[..|pairs| - 1], pairs[|pairs| - 1];
      assert pairs == before + [last];
      QuoteOfResting(before, price);
      QuoteOfOneMore(before, last, price);
    }
  }

  /** No price set by some row has a deletion as its last row. */
  ghost predicate NothingTakenBack(pairs: seq<PriceQty>) {
    forall i | 0 <= i < |pairs| && Rests(pairs[i]) :: LastQuote(pairs, pairs[i].priceTicks) != Some(0)
  }

  /**
   A snapshot side is what a reset delta with the same rows leaves, exactly when no row
   takes back a price set before it: a snapshot skips deletions, a reset follows them.
   */
  lemma SnapshotIsReset(pairs: seq<PriceQty>)
    ensures Merge(map[], Resting(pairs)) == Merge(map[], pairs) <==> NothingTakenBack(pairs)
  {
    hide Merge, Resting, LastQuote;
    var kept, all := Merge(map[], Resting(pairs)), Merge(map[], pairs);
    forall price: i64
      ensures Qty(kept, price) == Qty(all, price) <==>
                LastQuote(pairs, price) != Some(0) || LastQuote(Resting(pairs), price) == None
    {
      MergeByPrice(map[], pairs, price);
      MergeByPrice(map[], Resting(pairs), price);
      QuoteOfResting(pairs, price);
    }
    MergeByPrice(map[], pairs, 0);
    MergeByPrice(map[], Resting(pairs), 0);
    if NothingTakenBack(pairs) {
      forall price: i64
        ensures Qty(kept, price) == Qty(all, price)
      {
        QuoteOfResting(pairs, price);
      }
      SameQuantitiesSameLevels(kept, all);
    } else {
      var i :| 0 <= i < |pairs| && Rests(pairs[i]) && LastQuote(pairs, pairs[i].priceTicks) == Some(0);
      var price := pairs[i].priceTicks;
      QuoteOfResting(pairs, price);
      assert RestsAt(pairs, price);
      assert Qty(kept, price) != Qty(all, price);
    }
  }

  // ----- one delta -----

  /** A row no book can hold: negative, or a positive quantity at price zero. */
  predicate Corrupt(pair: PriceQty) {
    pair.priceTicks < 0 || pair.qtyScaled < 0 || (pair.priceTicks == 0 && pair.qtyScaled > 0)
  }

  predicate WellFormed(delta: Delta) {
    && (forall pair | pair in delta.bids :: !Corrupt(pair))
    && (forall pair | pair in delta.asks :: !Corrupt(pair))
    && delta.seqStart <= delta.seqEnd
  }

  datatype Verdict = Refresh | Stale | Applies

  /** What a delta is to a book at `current`: unusable, already covered, or the next state. */
  function Judge(current: u64, delta: Delta): Verdict {
    if !WellFormed(delta) then Refresh
    else if delta.seqEnd <= current then Stale
    else if !delta.reset && delta.seqStart > current + 1 then Refresh
    else Applies
  }

  function Next(book: Book, delta: Delta): Book {
    if Judge(book.seqNo, delta) != Applies then book
    else Book(
      Merge(if delta.reset then map[] else book.bids, delta.bids),
      Merge(if delta.reset then map[] else book.asks, delta.asks),
      delta.seqEnd)
  }

  method ApplyDelta(bids: BookSide, asks: BookSide, currentSeq: u64, delta: Delta)
    returns (newSeq: u64, needsRefresh: bool)
    requires bids != asks
    modifies bids, asks
    ensures Book(bids.levels, asks.levels, newSeq) == Next(old(Book(bids.levels, asks.levels, currentSeq)), delta)
    ensures needsRefresh <==> Judge(currentSeq, delta) == Refresh
    ensures needsRefresh ==> newSeq == currentSeq && bids.levels == old(bids.levels) && asks.levels == old(asks.levels)
  {
    var current: u64 := currentSeq;
    if exists pair | pair in delta.bids + delta.asks :: Corrupt(pair) {
      return current, true;
    }
    assert (forall pair | pair in delta.bids :: !Corrupt(pair)) && forall pair | pair in delta.asks :: !Corrupt(pair);
    if delta.seqEnd < delta.seqStart {
      return current, true;
    }
    if delta.reset && delta.seqEnd <= current {
      return current, false;
    }
    var following := if current == U64_MAX then U64_MAX else current + 1;
    if !delta.reset && delta.seqStart > following {
      return current, true;
    }
    if !delta.reset && delta.seqEnd <= current {
      return current, false;
    }
    if delta.reset {
      bids.levels := map[];
      asks.levels := map[];
      current := 0;
    }
    ApplySideDelta(bids, delta.bids);
    ApplySideDelta(asks, delta.asks);
    if delta.seqEnd > current {
      current := delta.seqEnd;
    }
    return current, false;
  }

  // ----- whole runs against a server -----

  /** The server's book at every sequence number. */
  datatype Server = Server(bids: nat -> Levels, asks: nat -> Levels)

  ghost predicate ValidServer(server: Server) {
    forall n: nat :: Canonical(server.bids(n)) && Canonical(server.asks(n))
  }

  /** Some sequence number in `from..to` changed the quantity at `price`. */
  ghost predicate Touched(history: nat -> Levels, price: i64, from: nat, to: nat) {
    exists n: nat | from <= n <= to && n > 0 :: Qty(history(n), price) != Qty(history(n - 1), price)
  }

  /**
   One side of a delta tells the truth about `history`: each quoted price has
   its absolute quantity at the end, and a price without a row was not touched
   (for a reset: is not in the book at the end).
   */
  ghost predicate TruthfulSide(history: nat -> Levels, delta: Delta, pairs: seq<PriceQty>) {
    forall price: i64 ::
      match LastQuote(pairs, price)
      case Some(qty) => qty == Qty(history(delta.seqEnd), price)
      case None =>
        if delta.reset then Qty(history(delta.seqEnd), price) == 0
        else !Touched(history, price, delta.seqStart, delta.seqEnd)
  }

  ghost predicate Truthful(server: Server, delta: Delta) {
    TruthfulSide(server.bids, delta, delta.bids) && TruthfulSide(server.asks, delta, delta.asks)
  }

  ghost predicate InStep(server: Server, book: Book) {
    book.bids == server.bids(book.seqNo) && book.asks == server.asks(book.seqNo)
  }

  function Run(book: Book, deltas: seq<Delta>): Book
    decreases |deltas|
  {
    if deltas == [] then book else Run(Next(book, deltas[0]), deltas[1..])
  }

  lemma {:induction false} UntouchedIsConstant(history: nat -> Levels, price: i64, at: nat, from: nat, to: nat)
    requires !Touched(history, price, from, to)
    requires from <= at + 1 && at <= to
    ensures Qty(history(at), price) == Qty(history(to), price)
    decreases if at < to then to - at else 0
  {
    if at < to {
      assert Qty(history(at + 1), price) == Qty(history(at + 1 - 1), price);
      UntouchedIsConstant(history, price, at + 1, from, to);
    }
  }

  lemma SideFollowsServer(history: nat -> Levels, at: nat, delta: Delta, pairs: seq<PriceQty>)
    requires forall n: nat :: Canonical(history(n))
    requires TruthfulSide(history, delta, pairs)
    requires at < delta.seqEnd
    requires !delta.reset ==> delta.seqStart <= at + 1
    ensures Merge(if delta.reset then map[] else history(at), pairs) == history(delta.seqEnd)
  {
    var start := if delta.reset then map[] else history(at);
    assert Canonical(history(at)) && Canonical(history(delta.seqEnd));
    forall price: i64
      ensures Qty(Merge(start, pairs), price) == Qty(history(delta.seqEnd), price)
    {
      MergeByPrice(start, pairs, price);
      if LastQuote(pairs, price).None? && !delta.reset {
        UntouchedIsConstant(history, price, at, delta.seqStart, delta.seqEnd);
      }
    }
    MergeByPrice(start, pairs, 0);
    SameQuantitiesSameLevels(Merge(start, pairs), history(delta.seqEnd));
  }

  lemma StepFollowsServer(server: Server, book: Book, delta: Delta)
    requires ValidServer(server) && InStep(server, book)
    requires WellFormed(delta) ==> Truthful(server, delta)
    ensures InStep(server, Next(book, delta))
    ensures Next(book, delta).seqNo >= book.seqNo
  {
    if Judge(book.seqNo, delta) == Applies {
      SideFollowsServer(server.bids, book.seqNo, delta, delta.bids);
      SideFollowsServer(server.asks, book.seqNo, delta, delta.asks);
    }
  }

  /**
   Refinement over whole runs: deltas may be duplicated, reordered, overlapping,
   missing or malformed; the local book is the server's at the sequence it reports.
   */
  lemma {:induction false} RunFollowsServer(server: Server, book: Book, deltas: seq<Delta>)
    requires ValidServer(server) && InStep(server, book)
    requires forall delta | delta in deltas && WellFormed(delta) :: Truthful(server, delta)
    ensures InStep(server, Run(book, deltas))
    ensures Run(book, deltas).seqNo >= book.seqNo
    decreases |deltas|
  {
    if deltas != [] {
      StepFollowsServer(server, book, deltas[0]);
      RunFollowsServer(server, Next(book, deltas[0]), deltas[1..]);
    }
  }

  /** Two clients fed different truthful streams agree wherever they report the same sequence. */
  lemma ClientsConverge(server: Server, one: Book, two: Book, toOne: seq<Delta>, toTwo: seq<Delta>)
    requires ValidServer(server) && InStep(server, one) && InStep(server, two)
    requires forall delta | delta in toOne + toTwo && WellFormed(delta) :: Truthful(server, delta)
    requires Run(one, toOne).seqNo == Run(two, toTwo).seqNo
    ensures Run(one, toOne) == Run(two, toTwo)
  {
    RunFollowsServer(server, one, toOne);
    RunFollowsServer(server, two, toTwo);
  }

  // ----- which deltas are taken -----

  /** Rows a book can hold, deletions included, over a range of sequence numbers. */
  ghost predicate Sound(delta: Delta) {
    && (forall row | row in delta.bids + delta.asks ::
          row.priceTicks >= 0 && row.qtyScaled >= 0 && (row.priceTicks == 0 ==> row.qtyScaled == 0))
    && delta.seqStart <= delta.seqEnd
  }

  /** The greatest sequence number shown. */
  ghost predicate IsLatest(shown: u64, seqNo: u64, deltas: seq<Delta>) {
    && seqNo <= shown && (forall delta | delta in deltas :: delta.seqEnd <= shown)
    && (shown == seqNo || exists delta | delta in deltas :: delta.seqEnd == shown)
  }

  function LatestEnd(seqNo: u64, deltas: seq<Delta>): (shown: u64)
    ensures IsLatest(shown, seqNo, deltas)
  {
    if deltas == [] then seqNo
    else
      assert forall delta | delta in deltas :: delta in deltas[..|deltas| - 1] || delta == deltas[|deltas| - 1];
      Max(LatestEnd(seqNo, deltas[..|deltas| - 1]), deltas[|deltas| - 1].seqEnd)
  }

  /** Each delta is a reset, or starts no later than right behind what was shown before it. */
  ghost predicate NoGaps(seqNo: u64, deltas: seq<Delta>) {
    forall i | 0 <= i < |deltas| && !deltas[i].reset :: deltas[i].seqStart <= LatestEnd(seqNo, deltas[..i]) + 1
  }

  /** The delta at `i` makes the run's book ask for a refresh. */
  predicate RefusedAt(book: Book, deltas: seq<Delta>, i: nat)
    requires i < |deltas|
  {
    Judge(Run(book, deltas[..i]).seqNo, deltas[i]) == Refresh
  }

  lemma {:induction false} RunOfOneMore(book: Book, deltas: seq<Delta>, last: Delta)
    ensures Run(book, deltas + [last]) == Next(Run(book, deltas), last)
    decreases |deltas|
  {
    if deltas != [] {
      assert (deltas + [last])[1..] == deltas[1..] + [last];
      RunOfOneMore(Next(book, deltas[0]), deltas[1..], last);
    } else {
      assert deltas + [last] == [last];
      assert [last][1..] == [];
    }
  }

  lemma EarlierTheSame(book: Book, before: seq<Delta>, last: Delta)
    ensures forall i | 0 <= i < |before| :: RefusedAt(book, before + [last], i) <==> RefusedAt(book, before, i)
    ensures RefusedAt(book, before + [last], |before|) <==> Judge(Run(book, before).seqNo, last) == Refresh
    ensures NoGaps(book.seqNo, before + [last])
       <==> NoGaps(book.seqNo, before) && (last.reset || last.seqStart <= LatestEnd(book.seqNo, before) + 1)
    ensures LatestEnd(book.seqNo, before + [last]) == Max(LatestEnd(book.seqNo, before), last.seqEnd)
  {
    hide LatestEnd, Judge, Run;
    var deltas := before + [last];
    assert forall i | 0 <= i <= |before| :: deltas[..i] == before[..i];
    assert deltas[..|before|] == before == before[..|before|];
    LatestOfOneMore(book.seqNo, before, last);
    assert forall i | 0 <= i < |before| :: deltas[i] == before[i];
    assert deltas[|before|] == last;
  }

  lemma LatestOfOneMore(seqNo: u64, before: seq<Delta>, last: Delta)
    ensures LatestEnd(seqNo, before + [last]) == Max(LatestEnd(seqNo, before), last.seqEnd)
  {
    assert (before + [last])[..|before|] == before;
  }

  lemma SoundIsWellFormed(delta: Delta)
    ensures Sound(delta) <==> WellFormed(delta)
  {
    if WellFormed(delta) {
      forall row | row in delta.bids + delta.asks
        ensures !Corrupt(row)
      {
        assert row in delta.bids || row in delta.asks;
      }
    }
    assert forall row | row in delta.bids || row in delta.asks :: row in delta.bids + delta.asks;
  }

  /** No delta of the run makes its book ask for a refresh. */
  ghost predicate NoneRefused(book: Book, deltas: seq<Delta>) {
    forall i | 0 <= i < |deltas| :: !RefusedAt(book, deltas, i)
  }

  ghost predicate AllSound(deltas: seq<Delta>) {
    forall delta | delta in deltas :: Sound(delta)
  }

  lemma OneMoreTaken(book: Book, before: seq<Delta>, last: Delta)
    ensures AllSound(before + [last]) <==> AllSound(before) && Sound(last)
    ensures NoneRefused(book, before + [last])
       <==> NoneRefused(book, before) && Judge(Run(book, before).seqNo, last) != Refresh
  {
    hide RefusedAt, Sound, Judge, Run, NoGaps, LatestEnd;
    EarlierTheSame(book, before, last);
    var deltas := before + [last];
    assert forall delta :: delta in deltas <==> delta in before || delta == last;
    if NoneRefused(book, deltas) {
      assert !RefusedAt(book, deltas, |before|);
      assert forall i | 0 <= i < |before| :: !RefusedAt(book, deltas, i);
    }
  }

  lemma TakenIs(book: Book, delta: Delta)
    ensures Judge(book.seqNo, delta) != Refresh
       <==> Sound(delta) && (delta.reset || delta.seqStart <= book.seqNo + 1)
    ensures Judge(book.seqNo, delta) != Refresh ==> Next(book, delta).seqNo == Max(book.seqNo, delta.seqEnd)
  {
    hide Sound, WellFormed, Merge;
    SoundIsWellFormed(delta);
    SoundIsARange(delta);
  }

  lemma SoundIsARange(delta: Delta)
    ensures Sound(delta) ==> delta.seqStart <= delta.seqEnd
  {
  }

  /**
   A run asks for no refresh exactly when every delta is sound and none leaves a gap behind
   what was shown before it: duplicates, overlaps and deletions are taken or passed over.
   The book then ends at the greatest sequence number shown.
   */
  lemma {:induction false} RunReachesLatest(book: Book, deltas: seq<Delta>)
    ensures NoneRefused(book, deltas) <==> AllSound(deltas) && NoGaps(book.seqNo, deltas)
    ensures NoneRefused(book, deltas) ==> Run(book, deltas).seqNo == LatestEnd(book.seqNo, deltas)
    decreases |deltas|
  {
    if deltas != [] {
      var before, last := deltas[..|deltas| - 1], deltas[|deltas| - 1];
      assert deltas == before + [last];
      RunReachesLatest(book, before);
      RunOfOneMore(book, before, last);
      OneMoreTaken(book, before, last);
      EarlierTheSame(book, before, last);
      TakenIs(Run(book, before), last);
      hide NoneRefused, AllSound, NoGaps, Run, LatestEnd, Judge, Next, Sound, RefusedAt;
    }
  }

  lemma {:induction false} RunNeverRewinds(book: Book, deltas: seq<Delta>)
    ensures Run(book, deltas).seqNo >= book.seqNo
    decreases |deltas|
  {
    if deltas != [] {
      RunNeverRewinds(Next(book, deltas[0]), deltas[1..]);
    }
  }

  /** A copy of a sound delta that left no gap changes nothing, however much later it arrives. */
  lemma LateCopyChangesNothing(book: Book, delta: Delta, between: seq<Delta>)
    requires Sound(delta) && (delta.reset || delta.seqStart <= book.seqNo + 1)
    ensures Judge(Run(Next(book, delta), between).seqNo, delta) == Stale
    ensures Next(Run(Next(book, delta), between), delta) == Run(Next(book, delta), between)
  {
    SoundIsWellFormed(delta);
    RunNeverRewinds(Next(book, delta), between);
  }

  /** One side that is the book's up to `at`, and from then on what the rows say with `qty` at `price`. */
  function Hidden(levels: Levels, at: nat, pairs: seq<PriceQty>, price: i64, qty: i64): nat -> Levels {
    (n: nat) => if n <= at then levels else Merge(levels, pairs)[price := qty]
  }

  lemma HiddenIsTruthful(levels: Levels, at: nat, delta: Delta, pairs: seq<PriceQty>, price: i64, qty: i64)
    requires Canonical(levels) && price > 0 && qty > 0 && LastQuote(pairs, price) == None
    requires forall row | row in pairs :: !Corrupt(row)
    requires !delta.reset && at + 1 < delta.seqStart <= delta.seqEnd
    ensures TruthfulSide(Hidden(levels, at, pairs, price, qty), delta, pairs)
    ensures forall n: nat :: Canonical(Hidden(levels, at, pairs, price, qty)(n))
  {
    hide Merge, LastQuote;
    var history := Hidden(levels, at, pairs, price, qty);
    MergeKeepsCanonical(levels, pairs);
    forall other: i64
      ensures match LastQuote(pairs, other)
              case Some(q) => q == Qty(history(delta.seqEnd), other)
              case None => !Touched(history, other, delta.seqStart, delta.seqEnd)
    {
      MergeByPrice(levels, pairs, other);
    }
  }

  /**
   A delta that leaves a gap does not tell the book at its end: for each price it has no row
   for, there are servers it is true of that agree with the book so far and differ there.
   */
  lemma GapHidesTheBook(book: Book, delta: Delta, price: i64) returns (one: Server, two: Server)
    requires Canonical(book.bids) && Canonical(book.asks) && Sound(delta)
    requires !delta.reset && delta.seqStart > book.seqNo + 1
    requires price > 0 && forall row | row in delta.bids + delta.asks :: row.priceTicks != price
    ensures ValidServer(one) && InStep(one, book) && Truthful(one, delta)
    ensures ValidServer(two) && InStep(two, book) && Truthful(two, delta)
    ensures Qty(one.bids(delta.seqEnd), price) != Qty(two.bids(delta.seqEnd), price)
    ensures Qty(one.asks(delta.seqEnd), price) != Qty(two.asks(delta.seqEnd), price)
  {
    SoundIsWellFormed(delta);
    assert forall row | row in delta.bids || row in delta.asks :: row in delta.bids + delta.asks;
    NoQuote(delta.bids, price);
    NoQuote(delta.asks, price);
    hide Merge, LastQuote;
    var at := book.seqNo;
    one := Server(Hidden(book.bids, at, delta.bids, price, 1), Hidden(book.asks, at, delta.asks, price, 1));
    two := Server(Hidden(book.bids, at, delta.bids, price, 2), Hidden(book.asks, at, delta.asks, price, 2));
    HiddenIsTruthful(book.bids, at, delta, delta.bids, price, 1);
    HiddenIsTruthful(book.asks, at, delta, delta.asks, price, 1);
    HiddenIsTruthful(book.bids, at, delta, delta.bids, price, 2);
    HiddenIsTruthful(book.asks, at, delta, delta.asks, price, 2);
  }

  // ----- what every delta keeps -----

  lemma {:induction false} MergeKeepsCanonical(levels: Levels, pairs: seq<PriceQty>)
    requires Canonical(levels)
    requires forall pair | pair in pairs :: !Corrupt(pair)
    ensures Canonical(Merge(levels, pairs))
    decreases |pairs|
  {
    if pairs != [] {
      MergeKeepsCanonical(levels, pairs[..|pairs| - 1]);
      assert !Corrupt(pairs[|pairs| - 1]);
    }
  }

  /** Whatever arrives, a book with only positive levels keeps only positive levels. */
  lemma {:induction false} RunKeepsCanonical(book: Book, deltas: seq<Delta>)
    requires Canonical(book.bids) && Canonical(book.asks)
    ensures Canonical(Run(book, deltas).bids) && Canonical(Run(book, deltas).asks)
    decreases |deltas|
  {
    if deltas != [] {
      if Judge(book.seqNo, deltas[0]) == Applies {
        MergeKeepsCanonical(if deltas[0].reset then map[] else book.bids, deltas[0].bids);
        MergeKeepsCanonical(if deltas[0].reset then map[] else book.asks, deltas[0].asks);
      }
      RunKeepsCanonical(Next(book, deltas[0]), deltas[1..]);
    }
  }
}
