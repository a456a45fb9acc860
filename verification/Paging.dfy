/** Walking token-paged lists: the changelog stream, and stopping all trading. */
module Paging {
  import opened Numbers

  type Token = string

  datatype Page<T> = Page(items: seq<T>, next: Token)

  /** The server's answer to the `k`th fetch, which asked for `token`. */
  type Server<!T> = (nat, Token) -> Option<Page<T>>

  datatype WalkEnd = Complete | FetchFailed | TokenRepeated

  // ----- a walk -----

  /** Each fetch after the first asks for the token its predecessor named, and no token twice. */
  ghost predicate Walk<T>(server: Server<T>, start: Token, asked: seq<Token>) {
    && asked != [] && asked[0] == start
    && (forall i | 1 <= i < |asked| :: Leads(server, asked, i))
    && (forall i, j | 0 <= i < j < |asked| :: asked[i] != asked[j])
  }

  /** The page before names the `i`th token. */
  predicate Leads<T>(server: Server<T>, asked: seq<Token>, i: nat)
    requires 1 <= i < |asked|
  {
    var page := server(i - 1, asked[i - 1]);
    page.Some? && page.value.next == asked[i] && asked[i] != ""
  }

  /** How a walk that can go no further ended. */
  function EndOf<T>(server: Server<T>, asked: seq<Token>): Option<WalkEnd>
    requires asked != []
  {
    match server(|asked| - 1, asked[|asked| - 1])
    case None => Some(FetchFailed)
    case Some(page) =>
      if page.next == "" then Some(Complete) else if page.next in asked then Some(TokenRepeated) else None
  }

  /** The items of the first `n` pages, in order. */
  function ItemsOf<T>(server: Server<T>, asked: seq<Token>, n: nat): seq<T>
    requires n <= |asked|
  {
    if n == 0 then []
    else
      ItemsOf(server, asked, n - 1)
      + match server(n - 1, asked[n - 1]) { case Some(page) => page.items case None => [] }
  }

  ghost predicate NamesOnly<T(!new)>(server: Server<T>, tokens: set<Token>) {
    forall k, token | server(k, token).Some? ::
      server(k, token).value.next == "" || server(k, token).value.next in tokens
  }

  /** A walk over a server with `N` non-empty tokens makes at most `N + 1` fetches. */
  lemma WalkIsBounded<T(!new)>(server: Server<T>, start: Token, asked: seq<Token>, tokens: set<Token>)
    requires Walk(server, start, asked) && NamesOnly(server, tokens)
    ensures |asked| <= |tokens| + 1
  {
    var rest := asked[1..];
    forall i | 0 <= i < |rest|
      ensures rest[i] in tokens
    {
      assert Leads(server, asked, i + 1);
    }
    DistinctFit(rest, tokens);
  }

  lemma {:induction false} DistinctFit(rest: seq<Token>, tokens: set<Token>)
    requires forall i | 0 <= i < |rest| :: rest[i] in tokens
    requires forall i, j | 0 <= i < j < |rest| :: rest[i] != rest[j]
    ensures |rest| <= |tokens|
    decreases |rest|
  {
    if rest != [] {
      DistinctFit(rest[1..], tokens - {rest[0]});
    }
  }

  /** From one start there is one way to walk, however the seen tokens are kept. */
  lemma {:induction false} WalkIsUnique<T>(server: Server<T>, start: Token, one: seq<Token>, two: seq<Token>, n: nat)
    requires Walk(server, start, one) && Walk(server, start, two) && n <= |one| && n <= |two|
    ensures one[..n] == two[..n]
  {
    if n > 1 {
      WalkIsUnique(server, start, one, two, n - 1);
      assert Leads(server, one, n - 1) && Leads(server, two, n - 1);
      assert one[..n - 1][n - 2] == two[..n - 1][n - 2];
      assert one[..n] == one[..n - 1] + [one[n - 1]] && two[..n] == two[..n - 1] + [two[n - 1]];
    }
  }

  /** Two walks from one start that cannot go on stop at the same page, for the same reason. */
  lemma WalksStopTogether<T>(server: Server<T>, start: Token, one: seq<Token>, two: seq<Token>)
    requires Walk(server, start, one) && Walk(server, start, two)
    requires EndOf(server, one).Some? && EndOf(server, two).Some?
    ensures one == two
  {
    var n := Min(|one|, |two|);
    WalkIsUnique(server, start, one, two, n);
    if |one| < |two| {
      CannotGoOn(server, start, one, two);
    } else if |two| < |one| {
      CannotGoOn(server, start, two, one);
    }
    assert one == one[..|one|] && two == two[..|two|];
  }

  lemma CannotGoOn<T>(server: Server<T>, start: Token, short: seq<Token>, long: seq<Token>)
    requires Walk(server, start, long) && |short| < |long| && short != [] && short == long[..|short|]
    ensures EndOf(server, short) == None
  {
    var last := |short| - 1;
    assert short[last] == long[last];
    assert Leads(server, long, last + 1);
    forall i | 0 <= i < |short|
      ensures short[i] != long[last + 1]
    {
      assert short[i] == long[i];
    }
  }

  lemma WalkGoesOn<T>(server: Server<T>, start: Token, asked: seq<Token>, next: Token)
    requires Walk(server, start, asked) && next !in asked && next != ""
    requires server(|asked| - 1, asked[|asked| - 1]).Some?
    requires server(|asked| - 1, asked[|asked| - 1]).value.next == next
    ensures Walk(server, start, asked + [next])
  {
    var more := asked + [next];
    forall i | 1 <= i < |more|
      ensures Leads(server, more, i)
    {
      assert i < |asked| ==> Leads(server, asked, i);
    }
  }

  // ----- the changelog stream -----

  /**
   `paginate`, read to its end: the items it yields, and how it ends. A page
   whose next token repeats yields the error in place of its items.
   */
  method Paginate<T(!new)>(first: Option<Token>, server: Server<T>, ghost tokens: set<Token>)
    returns (items: seq<T>, end: WalkEnd, asked: seq<Token>)
    requires NamesOnly(server, tokens)
    ensures Walk(server, if first.Some? then first.value else "", asked)
    ensures EndOf(server, asked) == Some(end)
    ensures match server(|asked| - 1, asked[|asked| - 1])
            case None => end == FetchFailed
            case Some(page) => if page.next == "" then end == Complete else page.next in asked && end == TokenRepeated
    ensures items == ItemsOf(server, asked, if end.Complete? then |asked| else |asked| - 1)
  {
    hide Walk, NamesOnly;
    var token := if first.Some? then first.value else "";
    var requested: set<Token> := {};
    items, asked := [], [];
    ghost var start := token;
    WalkBegins(server, token);
    while true
      invariant Walk(server, start, asked + [token])
      invariant forall t :: t in requested <==> t in asked && t != ""
      invariant items == ItemsOf(server, asked, |asked|)
      decreases |tokens| + 1 - |asked|
    {
      WalkIsBounded(server, start, asked + [token], tokens);
      ItemsKept(server, asked, token);
      if token != "" {
        requested := requested + {token};
      }
      asked := asked + [token];
      var page := server(|asked| - 1, token);
      if page.None? {
        end := FetchFailed;
        return;
      }
      var next := page.value.next;
      if next in requested {
        end := TokenRepeated;
        return;
      }
      items := items + page.value.items;
      if next == "" {
        end := Complete;
        return;
      }
      WalkGoesOn(server, start, asked, next);
      token := next;
    }
  }

  lemma WalkBegins<T>(server: Server<T>, start: Token)
    ensures Walk(server, start, [] + [start])
  {
  }

  lemma {:induction false} ItemsAgree<T>(server: Server<T>, one: seq<Token>, two: seq<Token>, n: nat)
    requires n <= |one| && n <= |two| && one[..n] == two[..n]
    ensures ItemsOf(server, one, n) == ItemsOf(server, two, n)
    decreases n
  {
    if n > 0 {
      assert one[..n - 1] == one[..n][..n - 1] && two[..n - 1] == two[..n][..n - 1];
      assert one[n - 1] == one[..n][n - 1] && two[n - 1] == two[..n][n - 1];
      ItemsAgree(server, one, two, n - 1);
    }
  }

  lemma ItemsKept<T>(server: Server<T>, asked: seq<Token>, token: Token)
    ensures ItemsOf(server, asked + [token], |asked|) == ItemsOf(server, asked, |asked|)
  {
    ItemsAgree(server, asked + [token], asked, |asked|);
  }

  /** Each page's items come behind those of the pages before it, in their own order. */
  lemma {:induction false} ItemsInOrder<T>(server: Server<T>, asked: seq<Token>, k: nat, n: nat)
    requires k < n <= |asked|
    ensures var items, before := ItemsOf(server, asked, n), |ItemsOf(server, asked, k)|;
            var page := match server(k, asked[k]) { case Some(page) => page.items case None => [] };
            && before + |page| == |ItemsOf(server, asked, k + 1)| <= |items|
            && items[before..before + |page|] == page
    ensures ItemsOf(server, asked, 0) == []
    decreases n
  {
    if k < n - 1 {
      ItemsInOrder(server, asked, k, n - 1);
    }
  }

  // ----- stopping all trading -----

  type TriggerId = string

  /** The calls made, in order. */
  datatype Call = List(token: Token) | CancelTrigger(id: TriggerId, ok: bool) | CancelAll

  datatype StopEnd = Done | ListFailed(end: WalkEnd) | CancelAllFailed

  /** One cancel per collected ID, in order; `cancel` tells how the `k`th goes. */
  function Cancels(ids: seq<TriggerId>, cancel: nat -> bool): seq<Call> {
    seq(|ids|, k requires 0 <= k < |ids| => CancelTrigger(ids[k], cancel(k)))
  }

  /** The IDs among the first `n` whose cancel went as `ok` says. */
  function Those<T>(ids: seq<T>, cancel: nat -> bool, ok: bool, n: nat): seq<T>
    requires n <= |ids|
  {
    if n == 0 then []
    else Those(ids, cancel, ok, n - 1) + if cancel(n - 1) == ok then [ids[n - 1]] else []
  }

  function Lists(asked: seq<Token>): seq<Call> {
    seq(|asked|, k requires 0 <= k < |asked| => List(asked[k]))
  }

  function Count<T(==)>(items: seq<T>, item: T): nat {
    if items == [] then 0
    else Count(items[..|items| - 1], item) + if items[|items| - 1] == item then 1 else 0
  }

  lemma CountOneMore<T>(items: seq<T>, last: T, item: T)
    ensures Count(items + [last], item) == Count(items, item) + if last == item then 1 else 0
  {
    assert (items + [last])[..|items|] == items;
  }

  lemma CountThose<T>(ids: seq<T>, cancel: nat -> bool, ok: bool, n: nat, id: T)
    requires n < |ids|
    ensures Count(Those(ids, cancel, ok, n + 1), id)
         == Count(Those(ids, cancel, ok, n), id) + if cancel(n) == ok && ids[n] == id then 1 else 0
  {
    var before := Those(ids, cancel, ok, n);
    CountOneMore(before, ids[n], id);
    assert before + [] == before;
  }

  lemma NoneLandsYet<T>(ids: seq<T>, cancel: nat -> bool, id: T)
    ensures Count(Those(ids, cancel, true, 0), id) + Count(Those(ids, cancel, false, 0), id) == Count(ids[..0], id)
  {
    assert ids[..0] == [];
  }

  /** Every occurrence of a collected trigger is in exactly one of the two results. */
  lemma {:induction false} EveryTriggerLandsOnce<T>(ids: seq<T>, cancel: nat -> bool, n: nat, id: T)
    requires n <= |ids|
    ensures Count(Those(ids, cancel, true, n), id) + Count(Those(ids, cancel, false, n), id) == Count(ids[..n], id)
    decreases n
  {
    hide Count, Those;
    if n == 0 {
      NoneLandsYet(ids, cancel, id);
    } else {
      EveryTriggerLandsOnce(ids, cancel, n - 1, id);
      CountThose(ids, cancel, true, n - 1, id);
      CountThose(ids, cancel, false, n - 1, id);
      CountOneMore(ids[..n - 1], ids[n - 1], id);
      assert ids[..n] == ids[..n - 1] + [ids[n - 1]];
    }
  }

  /** The list calls come first, then one cancel for each trigger in turn, then the one cancel-all. */
  lemma CallsInOrder(asked: seq<Token>, ids: seq<TriggerId>, cancel: nat -> bool)
    ensures var calls := Lists(asked) + Cancels(ids, cancel) + [CancelAll];
            && |calls| == |asked| + |ids| + 1 && calls[|asked| + |ids|] == CancelAll
            && (forall k | 0 <= k < |asked| :: calls[k] == List(asked[k]))
            && (forall k | 0 <= k < |ids| :: calls[|asked| + k] == CancelTrigger(ids[k], cancel(k)))
  {
  }

  /** Each result keeps the order of the list. */
  lemma {:induction false} ThoseInOrder<T>(ids: seq<T>, cancel: nat -> bool, ok: bool, k: nat, n: nat)
    requires k < n <= |ids|
    ensures var all, before := Those(ids, cancel, ok, n), |Those(ids, cancel, ok, k)|;
            && Those(ids, cancel, ok, 0) == []
            && (if cancel(k) == ok then before < |all| && all[before] == ids[k] else before <= |all|)
            && |Those(ids, cancel, ok, k + 1)| == before + if cancel(k) == ok then 1 else 0
    decreases n
  {
    if k < n - 1 {
      ThoseInOrder(ids, cancel, ok, k, n - 1);
    }
  }

  method StopAllTrading(server: Server<TriggerId>, cancel: nat -> bool, cancelAll: bool, ghost tokens: set<Token>)
    returns (end: StopEnd, canceled: seq<TriggerId>, failed: seq<TriggerId>, calls: seq<Call>, asked: seq<Token>)
    requires NamesOnly(server, tokens)
    ensures Walk(server, "", asked) && EndOf(server, asked).Some?
    ensures end.ListFailed? <==> EndOf(server, asked) != Some(Complete)
    ensures match server(|asked| - 1, asked[|asked| - 1])
            case None => end == ListFailed(FetchFailed)
            case Some(page) => if page.next == "" then !end.ListFailed? else end == ListFailed(TokenRepeated)
    ensures end.ListFailed? ==>
              EndOf(server, asked) == Some(end.end) && calls == Lists(asked) && canceled == [] && failed == []
    ensures !end.ListFailed? ==>
              var ids := ItemsOf(server, asked, |asked|);
              && calls == Lists(asked) + Cancels(ids, cancel) + [CancelAll]
              && canceled == Those(ids, cancel, true, |ids|) && failed == Those(ids, cancel, false, |ids|)
              && end == if cancelAll then Done else CancelAllFailed
  {
    hide Walk, NamesOnly;
    var token, seen: set<Token> := "", {};
    var ids: seq<TriggerId> := [];
    canceled, failed, calls, asked := [], [], [], [];
    WalkBegins(server, token);
    while true
      invariant Walk(server, "", asked + [token])
      invariant forall t :: t in seen <==> (t in asked || t == token) && t != ""
      invariant ids == ItemsOf(server, asked, |asked|) && calls == Lists(asked)
      decreases |tokens| + 1 - |asked|
    {
      WalkIsBounded(server, "", asked + [token], tokens);
      ItemsKept(server, asked, token);
      assert Lists(asked + [token]) == Lists(asked) + [List(token)];
      asked := asked + [token];
      calls := calls + [List(token)];
      var page := server(|asked| - 1, token);
      if page.None? {
        end := ListFailed(FetchFailed);
        return;
      }
      ids := ids + page.value.items;
      var next := page.value.next;
      if next == "" {
        break;
      }
      if next in seen {
        end := ListFailed(TokenRepeated);
        return;
      }
      WalkGoesOn(server, "", asked, next);
      seen := seen + {next};
      token := next;
    }
    ghost var listed := calls;
    for k := 0 to |ids|
      invariant calls == listed + Cancels(ids, cancel)[..k]
      invariant canceled == Those(ids, cancel, true, k) && failed == Those(ids, cancel, false, k)
    {
      if cancel(k) {
        canceled := canceled + [ids[k]];
      } else {
        failed := failed + [ids[k]];
      }
      assert Cancels(ids, cancel)[..k + 1] == Cancels(ids, cancel)[..k] + [CancelTrigger(ids[k], cancel(k))];
      calls := calls + [CancelTrigger(ids[k], cancel(k))];
    }
    assert Cancels(ids, cancel)[..|ids|] == Cancels(ids, cancel);
    calls := calls + [CancelAll];
    end := if cancelAll then Done else CancelAllFailed;
  }

  /** Though it keeps its tokens differently, stopping all trading walks as the stream does from an empty start. */
  lemma BothWalksAgree<T>(server: Server<T>, streamAsked: seq<Token>, stopAsked: seq<Token>)
    requires Walk(server, "", streamAsked) && EndOf(server, streamAsked).Some?
    requires Walk(server, "", stopAsked) && EndOf(server, stopAsked).Some?
    ensures streamAsked == stopAsked && EndOf(server, streamAsked) == EndOf(server, stopAsked)
  {
    WalksStopTogether(server, "", streamAsked, stopAsked);
  }
}
