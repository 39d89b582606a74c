/** The decisions `verify` takes for one tracked item: the cache overlay, the
    classification of the product page, and the `short_name` truncation; and
    `list.remove`, which it and the hunt loop use to drop items. */
module Verification {
  import opened Wrappers
  import opened Text
  import opened AmazonSupport

  /** What lxml makes of a product page. */
  datatype PdpPage = PdpPage(
    captchaForm: bool,          // //form[contains(@action,'validateCaptcha')]
    title: Option<string>,      // text of the first //*[@id="productTitle"]
    dogImage: bool)             // //img[@alt='Dogs of Amazon']

  /** `(data, status)` of one request, and the page `data` parses to. */
  datatype PdpFetch = PdpFetch(data: Option<string>, status: Option<int>, page: PdpPage)

  /** Everything one item's verification may receive: the product page, what
      solving a CAPTCHA on a 503 returns, and what solving one on a 200 returns. */
  datatype PdpExchange = PdpExchange(initial: PdpFetch, solve503: PdpFetch, solve200: PdpFetch)

  /** `f"https://{domain}{PDP_PATH}{asin}"`. */
  function PdpUrl(domain: string, asin: string): string
  {
    "https://" + domain + "/dp/" + asin
  }

  /** `f"https://{domain}/{REALTIME_INVENTORY_PATH}{asin}"`. */
  function RealtimeUrl(domain: string, asin: string): string
  {
    "https://" + domain + "/gp/aod/ajax?asin=" + asin
  }

  /** `not data and not status`. */
  predicate EmptyResponse(f: PdpFetch)
  {
    (f.data.None? || f.data.value == "") && (f.status.None? || f.status.value == 0)
  }

  /** `name[:40].strip() + "..."` when the name is longer than 40 characters. */
  function ShortName(name: string): (s: string)
    ensures |s| <= 43
    ensures |name| <= 40 ==> s == name
    ensures |name| > 40 ==> |s| >= 3 && s[|s| - 3..] == "..." && |s| - 3 <= 40
    ensures |name| > 40 ==> forall k :: 0 <= k < |s| - 3 ==> s[k] in name[..40]
    ensures |name| > 40 ==> s == Strip(name[..40]) + "..."
  {
    if |name| > 40 then
      var t := Strip(name[..40]);
      StripWithin(name[..40]);
      var s := t + "...";
      assert forall k :: 0 <= k < |t| ==> s[k] == t[k];
      s
    else name
  }

  /** The outcome of the page checks for an item not in the cache. */
  datatype PageVerdict =
    | NoResponse            // empty response: skip, the item stays as it is
    | NotFound              // final status not 200: purge
    | CaptchaUnsolved       // CAPTCHA on the 200 page, solving it did not give 200: skip
    | Titled(name: string)  // title found: verified
    | DogPage               // no title, the dog image: purge
    | Untitled              // no title, no dog image: kept unverified

  /** The title, dog and keep rules on the page finally read. */
  function ReadPage(p: PdpPage): (v: PageVerdict)
    ensures v.Titled? <==> p.title.Some?
    ensures v.Titled? ==> v.name == Strip(p.title.value)
    ensures v.DogPage? <==> p.title.None? && p.dogImage
    ensures v.Untitled? <==> p.title.None? && !p.dogImage
  {
    if p.title.Some? then Titled(Strip(p.title.value))
    else if p.dogImage then DogPage
    else Untitled
  }

  /** The fetch the 200 check sees: a 503 CAPTCHA page is replaced by what
      solving it returns. */
  function AfterSolve503(ex: PdpExchange): PdpFetch
  {
    if ex.initial.status == Some(503) && ex.initial.page.captchaForm then ex.solve503 else ex.initial
  }

  /** The page checks of `verify` for one item. */
  function ClassifyPage(ex: PdpExchange): (v: PageVerdict)
    ensures v.NoResponse? <==> EmptyResponse(ex.initial)
    ensures v.NotFound? <==> !EmptyResponse(ex.initial) && AfterSolve503(ex).status != Some(200)
    ensures v.CaptchaUnsolved? <==> !EmptyResponse(ex.initial) && AfterSolve503(ex).status == Some(200)
                                     && AfterSolve503(ex).page.captchaForm && ex.solve200.status != Some(200)
    ensures !EmptyResponse(ex.initial) && AfterSolve503(ex).status == Some(200) && !AfterSolve503(ex).page.captchaForm ==>
              v == ReadPage(AfterSolve503(ex).page)
    ensures !EmptyResponse(ex.initial) && AfterSolve503(ex).status == Some(200) && AfterSolve503(ex).page.captchaForm
              && ex.solve200.status == Some(200) ==>
              v == ReadPage(ex.solve200.page)
  {
    if EmptyResponse(ex.initial) then NoResponse
    else
      var f := AfterSolve503(ex);
      if f.status != Some(200) then NotFound
      else if f.page.captchaForm then
        if ex.solve200.status != Some(200) then CaptchaUnsolved else ReadPage(ex.solve200.page)
      else ReadPage(f.page)
  }

  /** Only the two dead ends purge an item. */
  lemma PurgeRule(ex: PdpExchange)
    ensures var v := ClassifyPage(ex);
      (v.NotFound? || v.DogPage?) <==>
        !EmptyResponse(ex.initial)
        && (AfterSolve503(ex).status != Some(200)
            || (!AfterSolve503(ex).page.captchaForm && AfterSolve503(ex).page.title.None? && AfterSolve503(ex).page.dogImage)
            || (AfterSolve503(ex).page.captchaForm && ex.solve200.status == Some(200)
                && ex.solve200.page.title.None? && ex.solve200.page.dogImage))
  {
  }

  /** What one step of `verify` produces. */
  datatype Step = Step(item: Item, cache: map<string, Item>, verified: bool, purge: bool)

  /** A cache whose entries are stored under their own ASIN. */
  predicate Keyed(cache: map<string, Item>)
  {
    forall k :: k in cache ==> cache[k].id == k
  }

  /** The live item's buyer constraints laid over a cached item. */
  function Overlay(cached: Item, live: Item): Item
  {
    cached.(condition := live.condition, minPrice := live.minPrice, maxPrice := live.maxPrice,
            merchantId := live.merchantId, pdpUrl := live.pdpUrl)
  }

  /** One iteration of `verify`'s loop, for the item at some position.
      Whatever happens, the item keeps its buyer constraints and gets its
      product URL; the cache gains at most this item; the item is
      verified on a cache hit or a titled page and purged only on a dead end,
      never both; every other cache entry is left as it was. */
  function VerifyItem(domain: string, item: Item, cache: map<string, Item>, ex: PdpExchange): (st: Step)
    ensures st.item.condition == item.condition && st.item.merchantId == item.merchantId
    ensures st.item.minPrice == item.minPrice && st.item.maxPrice == item.maxPrice
    ensures st.item.pdpUrl == Some(PdpUrl(domain, item.id))
    ensures st.cache.Keys == cache.Keys + (if st.verified then {item.id} else {})
    ensures st.verified <==> item.id in cache || ClassifyPage(ex).Titled?
    ensures st.purge <==> item.id !in cache && (ClassifyPage(ex).NotFound? || ClassifyPage(ex).DogPage?)
    ensures !(st.verified && st.purge)
    ensures forall k :: k in cache && k != item.id ==> k in st.cache && st.cache[k] == cache[k]
  {
    var it := item.(pdpUrl := Some(PdpUrl(domain, item.id)));
    if it.id in cache then
      var c := Overlay(cache[it.id], it);
      Step(c, cache[it.id := c], true, false)
    else
      var fetched := it.(furl := Some(RealtimeUrl(domain, it.id)));
      match ClassifyPage(ex)
      case NoResponse => Step(it, cache, false, false)
      case NotFound => Step(it, cache, false, true)
      case CaptchaUnsolved => Step(fetched, cache, false, false)
      case Titled(name) =>
        var named := fetched.(name := Some(name), shortName := Some(ShortName(name)));
        Step(named, cache[it.id := named], true, false)
      case DogPage => Step(fetched, cache, false, true)
      case Untitled => Step(fetched, cache, false, false)
  }

  /** Over a cache keyed by ASIN, the item keeps its ASIN, the cache stays
      keyed by ASIN, and a verified item is what the cache now holds for its
      ASIN. */
  lemma VerifyItemFacts(domain: string, item: Item, cache: map<string, Item>, ex: PdpExchange)
    requires Keyed(cache)
    ensures var st := VerifyItem(domain, item, cache, ex);
      && st.item.id == item.id && Keyed(st.cache)
      && (st.verified ==> st.cache[item.id] == st.item)
  {
  }

  /** A cache hit keeps the cached catalogue facts (name, short name, offer
      URL). */
  lemma CacheHitKeepsFacts(domain: string, item: Item, cache: map<string, Item>, ex: PdpExchange)
    requires item.id in cache
    ensures var st := VerifyItem(domain, item, cache, ex);
      && st.item.name == cache[item.id].name && st.item.shortName == cache[item.id].shortName
      && st.item.furl == cache[item.id].furl && st.item.statusCode == cache[item.id].statusCode
      && st.verified && !st.purge
  {
  }

  /** A freshly verified item is named after its stripped title and carries
      that title's short name, of at most 43 characters. */
  lemma TitledItemNamed(domain: string, item: Item, cache: map<string, Item>, ex: PdpExchange)
    requires item.id !in cache && ClassifyPage(ex).Titled?
    ensures var st := VerifyItem(domain, item, cache, ex);
      && st.item.name == Some(ClassifyPage(ex).name)
      && st.item.shortName == Some(ShortName(ClassifyPage(ex).name))
      && |st.item.shortName.value| <= 43
      && st.item.furl == Some(RealtimeUrl(domain, item.id))
  {
  }

  /** The loop of `verify` over the first `n` positions: the list with those
      positions replaced, the cache, the purge list and the verified count. */
  datatype Pass = Pass(items: seq<Item>, cache: map<string, Item>, purge: seq<Item>, verified: nat)

  function VerifyLoop(domain: string, items: seq<Item>, cache: map<string, Item>, pdp: nat -> PdpExchange, n: nat): (r: Pass)
    requires n <= |items|
    ensures |r.items| == |items| && r.items[n..] == items[n..]
  {
    if n == 0 then Pass(items, cache, [], 0)
    else
      var p := VerifyLoop(domain, items, cache, pdp, n - 1);
      var st := VerifyItem(domain, p.items[n - 1], p.cache, pdp(n - 1));
      Pass(p.items[n - 1 := st.item], st.cache, p.purge + (if st.purge then [st.item] else []),
           p.verified + (if st.verified then 1 else 0))
  }

  /** A cache entry whose ASIN is not that of any of the first `n` items
      comes out of the loop unchanged. */
  lemma {:induction false} VerifyLoopKeepsOthers(domain: string, items: seq<Item>, cache: map<string, Item>,
                                                 pdp: nat -> PdpExchange, n: nat, k: string)
    requires n <= |items| && k in cache
    requires forall i :: 0 <= i < n ==> items[i].id != k
    ensures var r := VerifyLoop(domain, items, cache, pdp, n);
      k in r.cache && r.cache[k] == cache[k]
  {
    if n > 0 {
      VerifyLoopKeepsOthers(domain, items, cache, pdp, n - 1, k);
      var p := VerifyLoop(domain, items, cache, pdp, n - 1);
      assert p.items[n - 1] == items[n - 1] by {
        assert p.items[n - 1..] == items[n - 1..];
      }
    }
  }

  /** One more position, stated from the pass so far. */
  lemma VerifyLoopNext(domain: string, items: seq<Item>, cache: map<string, Item>, pdp: nat -> PdpExchange,
                       n: nat, p: Pass, st: Step)
    requires n < |items| && p == VerifyLoop(domain, items, cache, pdp, n)
    requires st == VerifyItem(domain, p.items[n], p.cache, pdp(n))
    ensures VerifyLoop(domain, items, cache, pdp, n + 1)
      == Pass(p.items[n := st.item], st.cache, p.purge + (if st.purge then [st.item] else []),
              p.verified + (if st.verified then 1 else 0))
  {
  }

  /** One more position: the slice grows by the resolved item, and the purge
      list by that item when it is purged. */
  lemma VerifyLoopSnoc(domain: string, items: seq<Item>, cache: map<string, Item>, pdp: nat -> PdpExchange, n: nat)
    requires 0 < n <= |items|
    ensures var p := VerifyLoop(domain, items, cache, pdp, n - 1);
      var st := VerifyItem(domain, p.items[n - 1], p.cache, pdp(n - 1));
      var q := VerifyLoop(domain, items, cache, pdp, n);
      && q.items[..n] == p.items[..n - 1] + [st.item]
      && q.purge == p.purge + (if st.purge then [st.item] else [])
  {
    var p := VerifyLoop(domain, items, cache, pdp, n - 1);
    var st := VerifyItem(domain, p.items[n - 1], p.cache, pdp(n - 1));
    assert VerifyLoop(domain, items, cache, pdp, n).items[..n] == p.items[n - 1 := st.item][..n];
  }

  /** Appending `x` to a list, and maybe to a sub-multiset of it, keeps the
      one a sub-multiset of the other. */
  lemma SubMultisetSnoc<T>(part: seq<T>, whole: seq<T>, x: T, take: bool)
    requires multiset(part) <= multiset(whole)
    ensures multiset(part + (if take then [x] else [])) <= multiset(whole + [x])
  {
    assert multiset(whole + [x]) == multiset(whole) + multiset{x};
    if take {
      assert multiset(part + [x]) == multiset(part) + multiset{x};
    } else {
      assert part + [] == part;
    }
  }

  /** Every purged item is still in the list when the purge runs, once per
      entry: the purge list is a sub-multiset of the looped-over list. */
  lemma {:induction false} PurgeListInList(domain: string, items: seq<Item>, cache: map<string, Item>, pdp: nat -> PdpExchange, n: nat)
    requires n <= |items|
    ensures var p := VerifyLoop(domain, items, cache, pdp, n);
      multiset(p.purge) <= multiset(p.items[..n])
  {
    if n > 0 {
      PurgeListInList(domain, items, cache, pdp, n - 1);
      VerifyLoopSnoc(domain, items, cache, pdp, n);
      var p := VerifyLoop(domain, items, cache, pdp, n - 1);
      var st := VerifyItem(domain, p.items[n - 1], p.cache, pdp(n - 1));
      SubMultisetSnoc(p.purge, p.items[..n - 1], st.item, st.purge);
    }
  }

  /** `xs.remove(x)` on values: drops the first element equal to `x`. Python
      raises when `x` is absent; no caller reaches that case, and here the
      list is then returned unchanged. */
  function RemoveFirst<T(==)>(xs: seq<T>, x: T): (r: seq<T>)
    ensures |r| == if x in xs then |xs| - 1 else |xs|
    ensures x !in xs ==> r == xs
  {
    if xs == [] then []
    else if xs[0] == x then xs[1..]
    else [xs[0]] + RemoveFirst(xs[1..], x)
  }

  /** A present value loses exactly one copy. */
  lemma {:induction false} RemoveFirstMultiset<T>(xs: seq<T>, x: T)
    requires x in xs
    ensures multiset(RemoveFirst(xs, x)) == multiset(xs) - multiset{x}
  {
    assert xs == [xs[0]] + xs[1..];
    if xs[0] != x {
      RemoveFirstMultiset(xs[1..], x);
    }
  }

  /** Removing the first equal element keeps the order of the others. */
  lemma {:induction false} RemoveFirstSplits<T>(xs: seq<T>, x: T, i: nat)
    requires i < |xs| && xs[i] == x && x !in xs[..i]
    ensures RemoveFirst(xs, x) == xs[..i] + xs[i + 1..]
  {
    if i > 0 {
      var tail := xs[1..];
      assert xs[0] != x by { assert xs[0] == xs[..i][0]; }
      assert x !in tail[..i - 1] by { assert tail[..i - 1] == xs[..i][1..]; }
      RemoveFirstSplits(tail, x, i - 1);
      RemoveFirstKeepsHead(xs, x);
      calc {
        RemoveFirst(xs, x);
        [xs[0]] + (tail[..i - 1] + tail[i..]);
        { assert xs[..i] == [xs[0]] + tail[..i - 1]; assert xs[i + 1..] == tail[i..]; }
        xs[..i] + xs[i + 1..];
      }
    }
  }

  /** A head that differs from `x` stays in front. */
  lemma RemoveFirstKeepsHead<T>(xs: seq<T>, x: T)
    requires xs != [] && xs[0] != x
    ensures RemoveFirst(xs, x) == [xs[0]] + RemoveFirst(xs[1..], x)
  {
  }

  /** Removing each of `ys` in turn. */
  function RemoveEach<T(==)>(xs: seq<T>, ys: seq<T>): seq<T>
    decreases |ys|
  {
    if ys == [] then xs else RemoveEach(RemoveFirst(xs, ys[0]), ys[1..])
  }

  /** When every value to remove is present often enough, removing each one
      takes exactly those values out and nothing else. */
  lemma {:induction false} RemoveEachExact<T>(xs: seq<T>, ys: seq<T>)
    requires multiset(ys) <= multiset(xs)
    decreases |ys|
    ensures multiset(RemoveEach(xs, ys)) == multiset(xs) - multiset(ys)
    ensures |RemoveEach(xs, ys)| == |xs| - |ys|
  {
    if ys != [] {
      var y, more := ys[0], ys[1..];
      assert ys == [y] + more;
      assert multiset(ys) == multiset{y} + multiset(more);
      assert y in xs by { assert y in multiset(xs); }
      var rest := RemoveFirst(xs, y);
      RemoveFirstMultiset(xs, y);
      TakeTwice(multiset(xs), multiset{y}, multiset(more));
      RemoveEachExact(rest, more);
    }
  }

  /** Taking out `b` and then `c` is taking out `b + c`, and `c` can still
      be taken out after `b`. */
  lemma TakeTwice<T>(a: multiset<T>, b: multiset<T>, c: multiset<T>)
    requires b + c <= a
    ensures c <= a - b && (a - b) - c == a - (b + c)
  {
  }
}
