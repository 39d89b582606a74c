/** `AmazonStoreHandler`: the tracked-item list, the proxy session pool and
    the counters the hunt loop updates in place, with the operations that
    change them. */
module Handler {
  import opened Wrappers
  import opened AmazonSupport
  import opened Offers
  import opened Checkout
  import opened Startup
  import opened Verification

  /** A proxy session: its proxy, and whether it holds Amazon cookies yet. */
  datatype Session = Session(proxy: Proxy, warmed: bool)

  /** The session `session_stock_check` hands out: the handler's own stock
      session, or a proxy session taken from the pool. */
  datatype StockSession = DefaultSession | ProxySession(session: Session)

  /** The proxies of a list of sessions. */
  function ProxiesOf(ss: seq<Session>): (ps: seq<Proxy>)
    ensures |ps| == |ss| && forall k :: 0 <= k < |ss| ==> ps[k] == ss[k].proxy
  {
    seq(|ss|, k requires 0 <= k < |ss| => ss[k].proxy)
  }

  /** `self.used_proxy_sessions[-1].proxies`, when there is a used session. */
  function LastUsed(used: seq<Session>): (p: Option<Proxy>)
    ensures p.Some? <==> used != []
    ensures p.Some? ==> p.value == used[|used| - 1].proxy
  {
    if used == [] then None else Some(used[|used| - 1].proxy)
  }

  /** The handler's settings that no operation below changes. */
  datatype Settings = Settings(domain: string, checkShipping: bool, singleShot: bool, isTest: bool,
                               proxyCheckout: bool, buyItNow: bool)

  /** What the hunt loop's checks receive, by check number: the real-time
      poll, the replies of each turbo route, and the replies of the legacy
      add-to-cart, proceed-to-checkout and place-order requests; plus the
      browser's `session-id` cookie and the configured `pyo` keys. */
  datatype HuntWorld = HuntWorld(
    stock: nat -> RealtimeFetch,
    turbo: nat -> nat -> TurboExchange,
    cart: nat -> Reply,
    checkout: nat -> Option<Reply>,
    orderPage: nat -> PyoPage,
    order: nat -> Reply,
    sessionId: string,
    orderKeys: seq<string>)

  /** How one check of the hunt loop ends. */
  datatype CheckResult =
    | Crashed       // an exception leaves `run`
    | Missed        // nothing bought; the item stays
    | Purchased     // checkout succeeded: the item goes (or the whole list)
    | TestCleared   // legacy mode in a test run reached checkout: the list is cleared

  /** The legacy add-to-cart chain of a check: `atc`, then `ptc`, then `pyo`
      unless this is a test run. */
  function CartVerdict(c: nat, w: HuntWorld, isTest: bool): (r: CheckResult)
    ensures r.Purchased? <==> w.cart(c).status == 200 && Ptc(w.checkout(c)).Some? && !isTest && w.order(c).status == 200
    ensures r.TestCleared? <==> w.cart(c).status == 200 && Ptc(w.checkout(c)).Some? && isTest
    ensures !r.Crashed?
  {
    if w.cart(c).status != 200 then Missed
    else if Ptc(w.checkout(c)).None? then Missed
    else if isTest then TestCleared
    else if w.order(c).status == 200 then Purchased
    else Missed
  }

  /** The verdict of a check given the seller search and, in turbo mode,
      whether `attempt_turbo_checkout` succeeded. */
  function CheckVerdict(q: Qualification, c: nat, w: HuntWorld, turboOk: bool, s: Settings): (r: CheckResult)
    ensures r.Crashed? <==> q.Raised?
    ensures r.Purchased? ==> q.Qualified?
    ensures r.TestCleared? ==> q.Qualified? && !s.buyItNow && s.isTest
    ensures q.Qualified? && s.buyItNow ==> (r.Purchased? <==> turboOk)
  {
    match q
    case Raised => Crashed
    case NoSeller => Missed
    case Qualified(_) =>
      if s.buyItNow then (if turboOk then Purchased else Missed) else CartVerdict(c, w, s.isTest)
  }

  /** The item list after a check: a purchase removes the first item equal to
      the checked one, or clears the list in single-shot mode; a legacy test
      checkout clears it. */
  function AfterCheck(items: seq<Item>, item: Item, r: CheckResult, singleShot: bool): (after: seq<Item>)
    ensures r.Purchased? && singleShot ==> after == []
    ensures r.Purchased? && !singleShot ==> after == RemoveFirst(items, item)
    ensures r.TestCleared? ==> after == []
    ensures r.Missed? || r.Crashed? ==> after == items
  {
    match r
    case Purchased => if singleShot then [] else RemoveFirst(items, item)
    case TestCleared => []
    case _ => items
  }

  /** A purchase outside single-shot mode takes exactly one copy of the
      bought item off the list. */
  lemma PurchaseRemovesOne(items: seq<Item>, item: Item)
    requires item in items
    ensures multiset(AfterCheck(items, item, Purchased, false)) == multiset(items) - multiset{item}
  {
    RemoveFirstMultiset(items, item);
  }

  /** The state of one pass of the hunt loop: the live list, the iterator's
      index, the check number, what each check ended with and which item (as
      it stood after its status update) it was about, and the 503 count. */
  datatype Hunt = Hunt(items: seq<Item>, i: nat, check: nat, results: seq<CheckResult>,
                       checked: seq<Item>, errors: nat, crashed: bool)

  /** The pass is over: an exception, or the iterator ran off the live list. */
  predicate Halted(h: Hunt)
  {
    h.crashed || h.i >= |h.items|
  }

  /** One check of `for item in self.item_list`. Reading an item without an
      offer URL raises at once; otherwise the poll's status is stored on the
      item, a 503 is counted, and the verdict decides what happens to the list.
      The iterator moves on by one position whatever was removed. */
  function HuntStep(h: Hunt, turboOk: bool, w: HuntWorld, s: Settings, sup: Support): (r: Hunt)
    ensures Halted(h) ==> r == h
    ensures !Halted(h) ==> |r.results| == |h.results| + 1 && |r.checked| == |h.checked| + 1
    ensures !Halted(h) ==> r.results[..|h.results|] == h.results && r.checked[..|h.checked|] == h.checked
    ensures !Halted(h) && !r.crashed ==> r.i == h.i + 1 && r.check == h.check + 1
    ensures !h.crashed && r.crashed ==> r.results[|h.results|].Crashed? && r.check == h.check
  {
    if Halted(h) then h
    else
      var item := h.items[h.i];
      if item.furl.None? then h.(results := h.results + [Crashed], checked := h.checked + [item], crashed := true)
      else PolledStep(h, item.(statusCode := w.stock(h.check).status), turboOk, w, s, sup)
  }

  /** The rest of a check once the poll's status is stored on the item at the
      iterator's position as `touched`: a 503 is counted and the verdict
      decides what happens to the list. */
  function PolledStep(h: Hunt, touched: Item, turboOk: bool, w: HuntWorld, s: Settings, sup: Support): (r: Hunt)
    requires h.i < |h.items|
    ensures r.checked == h.checked + [touched]
    ensures |r.results| == |h.results| + 1 && r.results[..|h.results|] == h.results
    ensures r.results[|h.results|] == CheckVerdict(FindQualifiedSeller(touched, w.stock(h.check), s.checkShipping, sup),
                                                   h.check, w, turboOk, s)
    ensures r.crashed <==> r.results[|h.results|].Crashed?
    ensures r.errors == h.errors + 1 <==> CountsServerError(GetItemSellers(touched, w.stock(h.check), sup))
    ensures r.errors == h.errors || r.errors == h.errors + 1
    ensures r.crashed ==> r.items == h.items[h.i := touched] && r.i == h.i && r.check == h.check
    ensures !r.crashed ==> r.i == h.i + 1 && r.check == h.check + 1
    ensures r.results[|h.results|].Missed? ==> r.items == h.items[h.i := touched]
    ensures r.results[|h.results|].Purchased? && !s.singleShot ==> r.items == RemoveFirst(h.items[h.i := touched], touched)
    ensures r.results[|h.results|].TestCleared? || (r.results[|h.results|].Purchased? && s.singleShot) ==> r.items == []
  {
    var fetch := w.stock(h.check);
    var list := h.items[h.i := touched];
    var errors := h.errors + (if CountsServerError(GetItemSellers(touched, fetch, sup)) then 1 else 0);
    var r := CheckVerdict(FindQualifiedSeller(touched, fetch, s.checkShipping, sup), h.check, w, turboOk, s);
    if r.Crashed? then Hunt(list, h.i, h.check, h.results + [r], h.checked + [touched], errors, true)
    else Hunt(AfterCheck(list, touched, r, s.singleShot), h.i + 1, h.check + 1,
              h.results + [r], h.checked + [touched], errors, false)
  }

  /** The rest of a check, given its verdict `r`. */
  lemma PolledStepOutcome(h: Hunt, touched: Item, turboOk: bool, w: HuntWorld, s: Settings, sup: Support, r: CheckResult)
    requires h.i < |h.items|
    requires r == CheckVerdict(FindQualifiedSeller(touched, w.stock(h.check), s.checkShipping, sup), h.check, w, turboOk, s)
    ensures var n := PolledStep(h, touched, turboOk, w, s, sup);
      && n.items == AfterCheck(h.items[h.i := touched], touched, r, s.singleShot)
      && n.errors == h.errors + (if CountsServerError(GetItemSellers(touched, w.stock(h.check), sup)) then 1 else 0)
      && n.results == h.results + [r] && (n.crashed <==> r.Crashed?)
  {
  }

  /** `step` is the check `HuntStep` makes in world `w` under settings `s`.
      The pass is stated over such a `step` so that a proof about the pass as
      a whole need not look inside a check. */
  ghost predicate StepsAs(step: (Hunt, bool) -> Hunt, w: HuntWorld, s: Settings, sup: Support)
  {
    forall h: Hunt, b: bool {:trigger HuntStep(h, b, w, s, sup)} :: step(h, b) == HuntStep(h, b, w, s, sup)
  }

  /** The check of world `w` under settings `s`, as a value. */
  function Checks(w: HuntWorld, s: Settings, sup: Support): (step: (Hunt, bool) -> Hunt)
    ensures StepsAs(step, w, s, sup)
  {
    (h: Hunt, b: bool) => HuntStep(h, b, w, s, sup)
  }

  /** A pass after as many checks as `turbo` has entries, entry `k` being
      whether the turbo checkout of check `k` succeeded. */
  function HuntRun(h0: Hunt, turbo: seq<bool>, step: (Hunt, bool) -> Hunt): Hunt
    decreases |turbo|
  {
    if turbo == [] then h0
    else step(HuntRun(h0, turbo[..|turbo| - 1], step), turbo[|turbo| - 1])
  }

  /** The start of a pass over `items`. */
  function HuntStart(items: seq<Item>, check: nat, errors: nat): Hunt
  {
    Hunt(items, 0, check, [], [], errors, false)
  }

  /** The pass after one more check is one more step. */
  lemma HuntRunSnoc(h0: Hunt, turbo: seq<bool>, b: bool, step: (Hunt, bool) -> Hunt)
    ensures HuntRun(h0, turbo + [b], step) == step(HuntRun(h0, turbo, step), b)
  {
    assert (turbo + [b])[..|turbo|] == turbo;
  }

  /** Trying the first `n` routes of a checkout attempt in order finds one
      that succeeds. */
  predicate CheckoutPossible(isTest: bool, exchange: nat -> TurboExchange, n: nat)
  {
    FirstSuccess(Attempts(isTest, exchange), n, 0).Some?
  }

  /** A checkout attempt over `n` routes succeeds exactly when one of those
      routes would succeed. */
  lemma FirstSuccessPossible(isTest: bool, exchange: nat -> TurboExchange, n: nat)
    ensures CheckoutPossible(isTest, exchange, n) <==> exists j :: 0 <= j < n && AttemptOk(isTest, exchange, j)
  {
    var oks := Attempts(isTest, exchange);
    FirstSuccessIsFirst(oks, n, 0);
    if FirstSuccess(oks, n, 0).Some? {
      assert AttemptOk(isTest, exchange, FirstSuccess(oks, n, 0).value);
    }
  }

  /** The check from `h` reaches a turbo checkout attempt: the item has an
      offer URL, turbo mode is on, and the seller search qualifies a seller. */
  predicate TurboTried(h: Hunt, w: HuntWorld, s: Settings, sup: Support)
  {
    && !Halted(h) && h.items[h.i].furl.Some? && s.buyItNow
    && FindQualifiedSeller(h.items[h.i].(statusCode := w.stock(h.check).status), w.stock(h.check),
                           s.checkShipping, sup).Qualified?
  }

  /** `tried` tells which checks reach a turbo attempt in world `w` under
      settings `s`, as `step` tells what a check does. */
  ghost predicate TriesAs(tried: Hunt -> bool, w: HuntWorld, s: Settings, sup: Support)
  {
    forall h: Hunt {:trigger TurboTried(h, w, s, sup)} :: tried(h) == TurboTried(h, w, s, sup)
  }

  /** Which checks reach a turbo attempt, as a value. */
  function Tries(w: HuntWorld, s: Settings, sup: Support): (tried: Hunt -> bool)
    ensures TriesAs(tried, w, s, sup)
  {
    (h: Hunt) => TurboTried(h, w, s, sup)
  }

  /** Each of the first `n` checks of the pass from `h0` records a turbo
      purchase exactly when the check reached a turbo attempt and one of that
      attempt's `counts[k]` routes would succeed. */
  ghost predicate TurboHonest(h0: Hunt, turbo: seq<bool>, counts: seq<nat>, step: (Hunt, bool) -> Hunt,
                              tried: Hunt -> bool, w: HuntWorld, isTest: bool, n: nat)
    requires n <= |turbo| && n <= |counts|
  {
    n == 0 ||
    (TurboHonest(h0, turbo, counts, step, tried, w, isTest, n - 1)
     && (turbo[n - 1] <==>
           tried(HuntRun(h0, turbo[..n - 1], step)) && CheckoutPossible(isTest, w.turbo(h0.check + n - 1), counts[n - 1])))
  }

  /** Honesty of the first `n` entries depends on those entries only. */
  lemma {:induction false} TurboHonestPrefix(h0: Hunt, turbo: seq<bool>, counts: seq<nat>, more: seq<bool>, c: seq<nat>,
                                             step: (Hunt, bool) -> Hunt, tried: Hunt -> bool, w: HuntWorld,
                                             isTest: bool, n: nat)
    requires n <= |turbo| && n <= |counts| && TurboHonest(h0, turbo, counts, step, tried, w, isTest, n)
    ensures TurboHonest(h0, turbo + more, counts + c, step, tried, w, isTest, n)
  {
    if n > 0 {
      TurboHonestPrefix(h0, turbo, counts, more, c, step, tried, w, isTest, n - 1);
      assert (turbo + more)[n - 1] == turbo[n - 1] && (counts + c)[n - 1] == counts[n - 1];
      assert (turbo + more)[..n - 1] == turbo[..n - 1];
    }
  }

  /** Recording one more check keeps the record honest. */
  lemma TurboHonestSnoc(h0: Hunt, turbo: seq<bool>, counts: seq<nat>, b: bool, c: nat,
                        step: (Hunt, bool) -> Hunt, tried: Hunt -> bool, w: HuntWorld, isTest: bool, h: Hunt, at: nat)
    requires |counts| == |turbo| && TurboHonest(h0, turbo, counts, step, tried, w, isTest, |turbo|)
    requires h == HuntRun(h0, turbo, step) && at == h0.check + |turbo|
    requires b <==> tried(h) && CheckoutPossible(isTest, w.turbo(at), c)
    ensures TurboHonest(h0, turbo + [b], counts + [c], step, tried, w, isTest, |turbo| + 1)
  {
    var t, cs := turbo + [b], counts + [c];
    TurboHonestPrefix(h0, turbo, counts, [b], [c], step, tried, w, isTest, |turbo|);
    assert t[..|turbo|] == turbo;
    assert t[|turbo|] == b && cs[|turbo|] == c;
    assert HuntRun(h0, t[..|turbo|], step) == h;
  }

  /** An honest record, read at check `k`, in terms of `tried`. */
  lemma {:induction false} TurboHonestEntry(h0: Hunt, turbo: seq<bool>, counts: seq<nat>, step: (Hunt, bool) -> Hunt,
                                            tried: Hunt -> bool, w: HuntWorld, isTest: bool, n: nat, k: nat)
    requires n <= |turbo| && n <= |counts| && TurboHonest(h0, turbo, counts, step, tried, w, isTest, n) && k < n
    ensures turbo[k] <==> tried(HuntRun(h0, turbo[..k], step)) && CheckoutPossible(isTest, w.turbo(h0.check + k), counts[k])
  {
    assert TurboHonest(h0, turbo, counts, step, tried, w, isTest, n - 1);
    if k < n - 1 {
      TurboHonestEntry(h0, turbo, counts, step, tried, w, isTest, n - 1, k);
    }
  }

  /** An honest record, read at check `k`: a turbo purchase is recorded
      exactly when that check reached a turbo attempt and one of the
      attempt's routes would succeed. */
  lemma TurboHonestAt(h0: Hunt, turbo: seq<bool>, counts: seq<nat>, step: (Hunt, bool) -> Hunt,
                      tried: Hunt -> bool, w: HuntWorld, s: Settings, sup: Support, n: nat, k: nat)
    requires n <= |turbo| && n <= |counts| && TurboHonest(h0, turbo, counts, step, tried, w, s.isTest, n) && k < n
    requires TriesAs(tried, w, s, sup)
    ensures turbo[k] <==> TurboTried(HuntRun(h0, turbo[..k], step), w, s, sup)
                          && CheckoutPossible(s.isTest, w.turbo(h0.check + k), counts[k])
  {
    TurboHonestEntry(h0, turbo, counts, step, tried, w, s.isTest, n, k);
  }

  /** A purchase in single-shot mode ends the pass with an empty list. */
  lemma SingleShotPurchaseEndsPass(h: Hunt, b: bool, w: HuntWorld, s: Settings, sup: Support)
    requires s.singleShot && !Halted(h)
    requires HuntStep(h, b, w, s, sup).results[|h.results|].Purchased?
    ensures var r := HuntStep(h, b, w, s, sup);
      r.items == [] && Halted(r) && !r.crashed
  {
  }

  /** A purchase of the item at the front, outside single-shot mode, removes
      it: the rest of the list moves up one place and the iterator moves to
      position 1. */
  lemma FrontPurchaseShiftsList(h: Hunt, b: bool, w: HuntWorld, s: Settings, sup: Support)
    requires !Halted(h) && h.i == 0 && !s.singleShot
    requires HuntStep(h, b, w, s, sup).results[|h.results|].Purchased?
    ensures var r := HuntStep(h, b, w, s, sup);
      r.items == h.items[1..] && r.i == 1 && r.check == h.check + 1 && !r.crashed
  {
    var touched := h.items[0].(statusCode := w.stock(h.check).status);
    var list := h.items[0 := touched];
    RemoveFirstSplits(list, touched, 0);
    assert list[1..] == h.items[1..];
  }

  /** A check that does not crash at once is about the item at the iterator's
      position, with the poll's status stored on it. */
  lemma CheckedIsCurrent(h: Hunt, b: bool, w: HuntWorld, s: Settings, sup: Support)
    requires !Halted(h) && h.items[h.i].furl.Some?
    ensures HuntStep(h, b, w, s, sup).checked[|h.checked|] == h.items[h.i].(statusCode := w.stock(h.check).status)
  {
  }

  /** The live-list iteration skips an item: when the item at the front is
      bought outside single-shot mode, it is removed and the next check is
      about the item that was third, the second one being passed over. */
  lemma PurchaseSkipsNextItem(h: Hunt, b0: bool, b1: bool, w: HuntWorld, s: Settings, sup: Support)
    requires h.i == 0 && !h.crashed && |h.items| >= 3 && !s.singleShot
    requires h.items[2].furl.Some?
    requires HuntStep(h, b0, w, s, sup).results[|h.results|].Purchased?
    ensures var h2 := HuntStep(HuntStep(h, b0, w, s, sup), b1, w, s, sup);
      |h2.checked| == |h.checked| + 2
      && h2.checked[|h.checked| + 1] == h.items[2].(statusCode := w.stock(h.check + 1).status)
  {
    FrontPurchaseShiftsList(h, b0, w, s, sup);
    var h1 := HuntStep(h, b0, w, s, sup);
    assert h1.items[1] == h.items[2];
    CheckedIsCurrent(h1, b1, w, s, sup);
  }

  /** A check that buys nothing leaves the list as it was, except that the
      checked item now carries the poll's status, and advances to the next
      position. */
  lemma MissKeepsList(h: Hunt, b: bool, w: HuntWorld, s: Settings, sup: Support)
    requires !Halted(h)
    requires HuntStep(h, b, w, s, sup).results[|h.results|].Missed?
    ensures var r := HuntStep(h, b, w, s, sup);
      && r.items == h.items[h.i := h.items[h.i].(statusCode := w.stock(h.check).status)]
      && r.i == h.i + 1 && r.check == h.check + 1
  {
  }

  /** One check never adds an item. */
  lemma HuntStepNeverGrows(h: Hunt, b: bool, w: HuntWorld, s: Settings, sup: Support)
    ensures |HuntStep(h, b, w, s, sup).items| <= |h.items|
  {
    if !Halted(h) && h.items[h.i].furl.Some? {
      var touched := h.items[h.i].(statusCode := w.stock(h.check).status);
      var list := h.items[h.i := touched];
      assert list[h.i] == touched;
    }
  }

  /** The live list only shrinks during a pass. */
  lemma {:induction false} HuntNeverGrows(h0: Hunt, turbo: seq<bool>, w: HuntWorld, s: Settings, sup: Support,
                                          step: (Hunt, bool) -> Hunt)
    requires StepsAs(step, w, s, sup)
    decreases |turbo|
    ensures |HuntRun(h0, turbo, step).items| <= |h0.items|
  {
    if turbo != [] {
      HuntNeverGrows(h0, turbo[..|turbo| - 1], w, s, sup, step);
      HuntStepNeverGrows(HuntRun(h0, turbo[..|turbo| - 1], step), turbo[|turbo| - 1], w, s, sup);
    }
  }

  /** Advancing the spinner: `idx += 1`, back to 0 at the spinner's length 4. */
  function NextSpinner(idx: nat): (next: nat)
    requires idx < 4
    ensures next < 4 && next == (idx + 1) % 4
  {
    if idx + 1 == 4 then 0 else idx + 1
  }

  /** A spinner index `idx` reached after `laps` full turns from check 1 is
      the position `(count - 1) % 4` of check `count`. */
  lemma SpinnerPosition(count: nat, idx: nat, laps: nat)
    requires count >= 1 && idx < 4 && count - 1 == 4 * laps + idx
    ensures idx == (count - 1) % 4
  {
  }

  /** The routes after the failed primary one, tried in order. */
  method TryAfterPrimary(isTest: bool, routes: seq<Route>, exchange: nat -> TurboExchange) returns (ok: bool, tried: seq<Route>)
    requires |routes| >= 1 && routes[0] == Primary && !AttemptOk(isTest, exchange, 0)
    ensures var first := FirstSuccess(Attempts(isTest, exchange), |routes|, 0);
      && ok == first.Some?
      && tried == (if ok then routes[..first.value + 1] else routes)
    ensures ok <==> CheckoutPossible(isTest, exchange, |routes|)
  {
    var rest;
    ok, rest := TryRoutes(isTest, routes, exchange, 1);
    ghost var oks := Attempts(isTest, exchange);
    assert FirstSuccess(oks, |routes|, 0) == FirstSuccess(oks, |routes|, 1);
    tried := [Primary] + rest;
    if ok {
      ghost var j := FirstSuccess(oks, |routes|, 1).value;
      assert routes[..j + 1] == [Primary] + routes[1..j + 1];
    } else {
      assert routes == [Primary] + routes[1..];
    }
  }

  /** Every attempt tried at least one route, and exactly one when `single`. */
  predicate RouteCounts(counts: seq<nat>, single: bool)
  {
    && (forall k :: 0 <= k < |counts| ==> counts[k] >= 1)
    && (single ==> forall k :: 0 <= k < |counts| ==> counts[k] == 1)
  }

  lemma RouteCountsSnoc(counts: seq<nat>, c: nat, single: bool)
    requires RouteCounts(counts, single) && c >= 1 && (single ==> c == 1)
    ensures RouteCounts(counts + [c], single)
  {
  }

  /** The pass from `h0` after the checks `turbo` records is still running,
      at position `i` of the live list `items`, having produced `results`
      and counted `errors`; every recorded turbo success was possible. */
  ghost predicate PassAt(h0: Hunt, turbo: seq<bool>, counts: seq<nat>, step: (Hunt, bool) -> Hunt,
                         tried: Hunt -> bool, w: HuntWorld, s: Settings, items: seq<Item>, i: nat, results: seq<CheckResult>, errors: nat)
  {
    var h := HuntRun(h0, turbo, step);
    && h.items == items && h.i == i && h.check == h0.check + |turbo| && h.results == results
    && h.errors == errors && !h.crashed
    && |counts| == |turbo| && TurboHonest(h0, turbo, counts, step, tried, w, s.isTest, |turbo|)
  }

  /** The pass from `h0` after the checks `turbo` records ended in an
      exception, leaving `items`, `results` and `errors`; every recorded
      turbo success was possible. */
  ghost predicate CrashedAt(h0: Hunt, turbo: seq<bool>, counts: seq<nat>, step: (Hunt, bool) -> Hunt,
                            tried: Hunt -> bool, w: HuntWorld, s: Settings, items: seq<Item>, results: seq<CheckResult>, errors: nat)
  {
    var h := HuntRun(h0, turbo, step);
    && h.items == items && h.check == h0.check + |turbo| - 1 && h.results == results
    && h.errors == errors && h.crashed
    && |counts| == |turbo| && TurboHonest(h0, turbo, counts, step, tried, w, s.isTest, |turbo|)
  }

  class AmazonStoreHandler {
    var itemList: seq<Item>
    var proxies: seq<Proxy>
    var proxySessions: seq<Session>
    var usedProxySessions: seq<Session>
    var serverErrorCount: nat
    var domain: string
    var checkShipping: bool
    var singleShot: bool
    var isTest: bool
    var proxyCheckout: bool
    var buyItNow: bool

    /** The settings, bundled. */
    function Config(): Settings
      reads this
    {
      Settings(domain, checkShipping, singleShot, isTest, proxyCheckout, buyItNow)
    }

    /** How many routes a checkout attempt from the current state has. */
    function TurboRoutes(): (n: nat)
      reads this
      ensures n >= 1 && (!(proxies != [] && proxyCheckout) ==> n == 1)
    {
      |CheckoutRoutes(proxies, LastUsed(usedProxySessions), proxyCheckout)|
    }

    /** The proxy part of `__init__` with the configured domain and flags:
        one session per proxy, in shuffled order, the first two warmed. The
        run's `test` argument is stored as `isTest`. */
    constructor (domain: string, checkShipping: bool, singleShot: bool, test: bool,
                 useAtcMode: bool, proxyCheckout: bool, proxies: seq<Proxy>)
      ensures Config() == Settings(domain, checkShipping, singleShot, test, proxyCheckout, !useAtcMode)
      ensures itemList == [] && serverErrorCount == 0 && usedProxySessions == []
      ensures this.proxies == proxies
      ensures multiset(ProxiesOf(proxySessions)) == multiset(proxies)
      ensures forall k :: 0 <= k < |proxySessions| ==> (proxySessions[k].warmed <==> k < 2)
    {
      var order :| multiset(order) == multiset(proxies);
      var sessions := seq(|order|, k requires 0 <= k < |order| => Session(order[k], k < 2));
      assert ProxiesOf(sessions) == order;
      this.domain := domain;
      this.checkShipping := checkShipping;
      this.singleShot := singleShot;
      this.isTest := test;
      this.proxyCheckout := proxyCheckout;
      this.buyItNow := !useAtcMode;
      this.proxies := proxies;
      itemList := [];
      serverErrorCount := 0;
      usedProxySessions := [];
      proxySessions := sessions;
    }

    /** `session_stock_check`: the pool rotation. Without proxies the default
        session is used and nothing changes; otherwise the front unused session
        is moved to the end of the used list, after turning the used list
        (shuffled) into the unused one if the latter ran empty. No session is
        ever lost or duplicated. */
    method SessionStockCheck() returns (s: StockSession)
      modifies this
      ensures Config() == old(Config()) && itemList == old(itemList) && proxies == old(proxies)
      ensures serverErrorCount == old(serverErrorCount)
      ensures old(proxies) == [] ==>
        s == DefaultSession && proxySessions == old(proxySessions) && usedProxySessions == old(usedProxySessions)
      ensures old(proxies) != [] && old(proxySessions) != [] ==>
        && s == ProxySession(old(proxySessions)[0])
        && proxySessions == old(proxySessions)[1..]
        && usedProxySessions == old(usedProxySessions) + [old(proxySessions)[0]]
      ensures old(proxies) != [] && old(proxySessions) == [] && old(usedProxySessions) == [] ==>
        s == DefaultSession && proxySessions == [] && usedProxySessions == []
      ensures old(proxies) != [] && old(proxySessions) == [] && old(usedProxySessions) != [] ==>
        && s.ProxySession? && usedProxySessions == [s.session]
        && multiset([s.session] + proxySessions) == multiset(old(usedProxySessions))
      ensures multiset(proxySessions + usedProxySessions) == multiset(old(proxySessions) + old(usedProxySessions))
      ensures |proxySessions| + |usedProxySessions| == |old(proxySessions)| + |old(usedProxySessions)|
    {
      s := DefaultSession;
      if proxies != [] {
        if proxySessions == [] {
          var shuffled :| multiset(shuffled) == multiset(usedProxySessions);
          proxySessions := shuffled;
          usedProxySessions := [];
        }
        if proxySessions != [] {
          var front := proxySessions[0];
          MoveFront(proxySessions, usedProxySessions);
          proxySessions := proxySessions[1..];
          usedProxySessions := usedProxySessions + [front];
          s := ProxySession(front);
        }
      }
    }

    /** The hunt loop's warming rule: the next proxy session to be handed out
        is given Amazon cookies when it has none. */
    method WarmNextProxy()
      modifies this
      ensures Config() == old(Config()) && itemList == old(itemList) && proxies == old(proxies)
      ensures serverErrorCount == old(serverErrorCount) && usedProxySessions == old(usedProxySessions)
      ensures |old(proxySessions)| > 1 && !old(proxySessions)[1].warmed ==>
        proxySessions == old(proxySessions)[1 := Session(old(proxySessions)[1].proxy, true)]
      ensures !(|old(proxySessions)| > 1 && !old(proxySessions)[1].warmed) ==> proxySessions == old(proxySessions)
      ensures ProxiesOf(proxySessions) == ProxiesOf(old(proxySessions))
      ensures |old(proxySessions)| > 1 ==> proxySessions[1].warmed
    {
      if proxySessions != [] && |proxySessions| > 1 && !proxySessions[1].warmed {
        proxySessions := proxySessions[1 := Session(proxySessions[1].proxy, true)];
      }
    }

    /** `attempt_turbo_checkout`: the primary session first; only when it
        fails and proxy checkout applies is `self.proxies` shuffled in place
        and each proxy tried, the last-used one first. `exchange(k)` is what
        route `k` receives. */
    method AttemptTurboCheckout(exchange: nat -> TurboExchange) returns (ok: bool, tried: seq<Route>)
      modifies this
      ensures Config() == old(Config()) && itemList == old(itemList) && serverErrorCount == old(serverErrorCount)
      ensures proxySessions == old(proxySessions) && usedProxySessions == old(usedProxySessions)
      ensures multiset(proxies) == multiset(old(proxies))
      ensures AttemptOk(isTest, exchange, 0) ==> ok && tried == [Primary] && proxies == old(proxies)
      ensures !(old(proxies) != [] && proxyCheckout) ==> proxies == old(proxies)
      ensures var routes := CheckoutRoutes(proxies, LastUsed(usedProxySessions), proxyCheckout);
        var first := FirstSuccess(Attempts(isTest, exchange), |routes|, 0);
        && ok == first.Some?
        && tried == (if ok then routes[..first.value + 1] else routes)
      ensures TurboRoutes() == |CheckoutRoutes(old(proxies), LastUsed(usedProxySessions), proxyCheckout)|
      ensures ok <==> CheckoutPossible(isTest, exchange, TurboRoutes())
    {
      var primary := DoTurboCheckout(isTest, exchange(0));
      AttemptOkIsOutcome(isTest, exchange, 0, primary);
      if primary.ok {
        ok, tried := true, [Primary];
        ghost var routes := CheckoutRoutes(proxies, LastUsed(usedProxySessions), proxyCheckout);
        assert routes[..1] == [Primary];
        FirstSuccessPossible(isTest, exchange, |routes|);
        return;
      }
      if proxies != [] && proxyCheckout {
        var shuffled :| multiset(shuffled) == multiset(proxies);
        RouteCount(proxies, shuffled, LastUsed(usedProxySessions), proxyCheckout);
        proxies := shuffled;
      }
      var routes := CheckoutRoutes(proxies, LastUsed(usedProxySessions), proxyCheckout);
      ok, tried := TryAfterPrimary(isTest, routes, exchange);
    }

    /** The `for asin in asins` loop of `parse_items`: one new item per ASIN
        of a fully qualified entry with a known condition, appended in order. */
    method TrackEntry(e: ConfigEntry, sup: Support)
      requires ExpandEntry(e, sup).Tracked?
      modifies this
      ensures Config() == old(Config()) && proxies == old(proxies) && serverErrorCount == old(serverErrorCount)
      ensures proxySessions == old(proxySessions) && usedProxySessions == old(usedProxySessions)
      ensures itemList == old(itemList) + ExpandEntry(e, sup).items
    {
      var x := ExpandEntry(e, sup);
      var condition := if e.condition.Some? then Condition(e.condition.value) else New;
      var minPrice := PriceOf(sup, e.minPrice.value);
      var maxPrice := PriceOf(sup, e.maxPrice.value);
      var merchant := e.merchantId.GetOr("any");
      var asins := AsinsOf(e.asins.value);
      var j := 0;
      while j < |asins|
        invariant j <= |asins|
        invariant Config() == old(Config()) && proxies == old(proxies) && serverErrorCount == old(serverErrorCount)
        invariant proxySessions == old(proxySessions) && usedProxySessions == old(usedProxySessions)
        invariant itemList == old(itemList) + x.items[..j]
      {
        itemList := itemList + [NewItem(asins[j], minPrice, maxPrice, condition, merchant)];
        SliceSnoc(x.items, 0, j);
        j := j + 1;
      }
      assert x.items[..j] == x.items;
    }

    /** `parse_items`: every config entry in order, appending its items; an
        unknown condition name raises, keeping what was appended before. */
    method ParseItems(entries: seq<ConfigEntry>, sup: Support) returns (ok: bool)
      modifies this
      ensures Config() == old(Config()) && proxies == old(proxies) && serverErrorCount == old(serverErrorCount)
      ensures proxySessions == old(proxySessions) && usedProxySessions == old(usedProxySessions)
      ensures itemList == old(itemList) + ParsedItems(entries, |entries|, sup).0
      ensures ok == ParsedItems(entries, |entries|, sup).1
    {
      var n := 0;
      while n < |entries|
        invariant n <= |entries|
        invariant Config() == old(Config()) && proxies == old(proxies) && serverErrorCount == old(serverErrorCount)
        invariant proxySessions == old(proxySessions) && usedProxySessions == old(usedProxySessions)
        invariant ParsedItems(entries, n, sup).1
        invariant itemList == old(itemList) + ParsedItems(entries, n, sup).0
      {
        var e := entries[n];
        var x := ExpandEntry(e, sup);
        ghost var done := ParsedItems(entries, n, sup).0;
        ParsedItemsNext(entries, n, sup);
        if FullyQualified(e) {
          if e.condition.Some? && e.condition.value !in sup.conditionNames {
            ParsedItemsStopped(entries, n + 1, |entries|, sup);
            return false;
          }
          TrackEntry(e, sup);
          AppendAssoc(old(itemList), done, x.items);
        }
        n := n + 1;
      }
      ok := true;
    }

    /** The first loop of `verify`: each position in turn is resolved from the
        cache or classified from its product page, `pdp(k)` being what
        position `k` receives. */
    method VerifyPositions(cache: map<string, Item>, pdp: nat -> PdpExchange)
      returns (verified: nat, stored: map<string, Item>, purge: seq<Item>)
      modifies this
      ensures Config() == old(Config()) && proxies == old(proxies) && serverErrorCount == old(serverErrorCount)
      ensures proxySessions == old(proxySessions) && usedProxySessions == old(usedProxySessions)
      ensures VerifyLoop(domain, old(itemList), cache, pdp, |old(itemList)|) == Pass(itemList, stored, purge, verified)
    {
      purge, stored, verified := [], cache, 0;
      var idx := 0;
      while idx < |itemList|
        invariant |itemList| == |old(itemList)| && idx <= |itemList|
        invariant Config() == old(Config()) && proxies == old(proxies) && serverErrorCount == old(serverErrorCount)
        invariant proxySessions == old(proxySessions) && usedProxySessions == old(usedProxySessions)
        invariant VerifyLoop(domain, old(itemList), cache, pdp, idx) == Pass(itemList, stored, purge, verified)
      {
        var st := VerifyItem(domain, itemList[idx], stored, pdp(idx));
        VerifyLoopNext(domain, old(itemList), cache, pdp, idx, Pass(itemList, stored, purge, verified), st);
        itemList := itemList[idx := st.item];
        stored := st.cache;
        if st.purge {
          purge := purge + [st.item];
        }
        if st.verified {
          verified := verified + 1;
        }
        idx := idx + 1;
      }
    }

    /** The purge loop of `verify`: `self.item_list.remove(item)` for each
        purged item in turn. */
    method RemovePurged(purge: seq<Item>)
      modifies this
      ensures Config() == old(Config()) && proxies == old(proxies) && serverErrorCount == old(serverErrorCount)
      ensures proxySessions == old(proxySessions) && usedProxySessions == old(usedProxySessions)
      ensures itemList == RemoveEach(old(itemList), purge)
    {
      var k := 0;
      while k < |purge|
        invariant k <= |purge|
        invariant Config() == old(Config()) && proxies == old(proxies) && serverErrorCount == old(serverErrorCount)
        invariant proxySessions == old(proxySessions) && usedProxySessions == old(usedProxySessions)
        invariant RemoveEach(itemList, purge[k..]) == RemoveEach(old(itemList), purge)
      {
        assert purge[k..] == [purge[k]] + purge[k + 1..];
        itemList := RemoveFirst(itemList, purge[k]);
        k := k + 1;
      }
      assert purge[k..] == [];
    }

    /** `verify`: resolve every position, then remove the purged items.
        Returns the verified count and the cache to store. */
    method Verify(cache: map<string, Item>, pdp: nat -> PdpExchange) returns (verified: nat, stored: map<string, Item>)
      modifies this
      ensures Config() == old(Config()) && proxies == old(proxies) && serverErrorCount == old(serverErrorCount)
      ensures proxySessions == old(proxySessions) && usedProxySessions == old(usedProxySessions)
      ensures var p := VerifyLoop(old(domain), old(itemList), cache, pdp, |old(itemList)|);
        && itemList == RemoveEach(p.items, p.purge)
        && multiset(itemList) == multiset(p.items) - multiset(p.purge)
        && |itemList| == |old(itemList)| - |p.purge|
        && stored == p.cache && verified == p.verified
    {
      var purge;
      verified, stored, purge := VerifyPositions(cache, pdp);
      PurgeListInList(domain, old(itemList), cache, pdp, |old(itemList)|);
      assert itemList[..|itemList|] == itemList;
      RemoveEachExact(itemList, purge);
      RemovePurged(purge);
    }

    /** Whether the turbo or the legacy checkout of a qualified seller went
        through, by the mode's rules. */
    method Purchase(q: Qualification, check: nat, w: HuntWorld) returns (bought: bool, r: CheckResult)
      requires q.Qualified?
      modifies this
      ensures Config() == old(Config()) && itemList == old(itemList) && serverErrorCount == old(serverErrorCount)
      ensures multiset(proxies) == multiset(old(proxies))
      ensures proxySessions == old(proxySessions) && usedProxySessions == old(usedProxySessions)
      ensures r == CheckVerdict(q, check, w, bought, Config())
      ensures TurboRoutes() == old(TurboRoutes())
      ensures bought <==> buyItNow && CheckoutPossible(isTest, w.turbo(check), TurboRoutes())
    {
      bought, r := false, Missed;
      if buyItNow {
        var tried;
        bought, tried := AttemptTurboCheckout(w.turbo(check));
        if bought { r := Purchased; }
      } else {
        var added, url, payload := Atc(domain, q.seller, w.sessionId, w.cart(check));
        if added {
          var page := Ptc(w.checkout(check));
          if page.Some? {
            if isTest {
              r := TestCleared;
            } else {
              var placed, params := Pyo(w.orderPage(check), w.orderKeys, w.order(check));
              if placed { r := Purchased; }
            }
          }
        }
      }
    }

    /** What a check does with the seller search's outcome `q`: nothing
        after an exception or when no seller qualifies, else a purchase. */
    method Decide(q: Qualification, check: nat, w: HuntWorld) returns (bought: bool, r: CheckResult)
      modifies this
      ensures Config() == old(Config()) && itemList == old(itemList) && serverErrorCount == old(serverErrorCount)
      ensures multiset(proxies) == multiset(old(proxies))
      ensures proxySessions == old(proxySessions) && usedProxySessions == old(usedProxySessions)
      ensures r == CheckVerdict(q, check, w, bought, Config())
      ensures TurboRoutes() == old(TurboRoutes())
      ensures bought <==> buyItNow && q.Qualified? && CheckoutPossible(isTest, w.turbo(check), TurboRoutes())
    {
      bought, r := false, Crashed;
      if q.Raised? {
        return;
      }
      r := Missed;
      if q.Qualified? {
        bought, r := Purchase(q, check, w);
      }
    }

    /** The poll of a check: `session_stock_check` rotates the pool, the
        reply's status is stored on the item, and a 503 is counted. */
    method Poll(i: nat, check: nat, w: HuntWorld, sup: Support) returns (touched: Item)
      requires i < |itemList|
      modifies this
      ensures Config() == old(Config()) && proxies == old(proxies)
      ensures old(proxies) == [] ==> proxySessions == old(proxySessions) && usedProxySessions == old(usedProxySessions)
      ensures old(proxies) != [] && old(proxySessions) != [] ==>
        && proxySessions == old(proxySessions)[1..]
        && usedProxySessions == old(usedProxySessions) + [old(proxySessions)[0]]
      ensures old(proxies) != [] && old(proxySessions) == [] && old(usedProxySessions) == [] ==>
        proxySessions == [] && usedProxySessions == []
      ensures old(proxies) != [] && old(proxySessions) == [] && old(usedProxySessions) != [] ==>
        && |usedProxySessions| == 1
        && multiset(usedProxySessions + proxySessions) == multiset(old(usedProxySessions))
      ensures multiset(proxySessions + usedProxySessions) == multiset(old(proxySessions) + old(usedProxySessions))
      ensures |proxySessions| + |usedProxySessions| == |old(proxySessions)| + |old(usedProxySessions)|
      ensures touched == old(itemList)[i].(statusCode := w.stock(check).status)
      ensures itemList == old(itemList)[i := touched]
      ensures serverErrorCount == old(serverErrorCount)
                + (if CountsServerError(GetItemSellers(touched, w.stock(check), sup)) then 1 else 0)
    {
      var session := SessionStockCheck();
      var fetch := w.stock(check);
      touched := itemList[i].(statusCode := fetch.status);
      itemList := itemList[i := touched];
      if CountsServerError(GetItemSellers(touched, fetch, sup)) {
        serverErrorCount := serverErrorCount + 1;
      }
    }

    /** The item-list update after a check: `item_list.remove(item)` after a
        purchase, or `item_list.clear()` in single-shot mode or after a legacy
        test checkout. */
    method Settle(item: Item, r: CheckResult)
      modifies this
      ensures Config() == old(Config()) && proxies == old(proxies) && serverErrorCount == old(serverErrorCount)
      ensures proxySessions == old(proxySessions) && usedProxySessions == old(usedProxySessions)
      ensures itemList == AfterCheck(old(itemList), item, r, singleShot)
    {
      if r.Purchased? {
        if singleShot {
          itemList := [];
        } else {
          itemList := RemoveFirst(itemList, item);
        }
      } else if r.TestCleared? {
        itemList := [];
      }
    }

    /** One check of the hunt loop, on the item at position `h.i` of the
        live list: poll, find a seller, check out, update the list, warm the
        next proxy. An item without an offer URL raises before the poll. */
    method CheckItem(i: nat, check: nat, w: HuntWorld, sup: Support, ghost h: Hunt, ghost s: Settings)
      returns (bought: bool, r: CheckResult)
      requires h.items == itemList && h.i == i && h.check == check && h.errors == serverErrorCount && !Halted(h)
      requires Config() == s
      modifies this
      ensures Config() == s && multiset(proxies) == multiset(old(proxies))
      ensures |proxySessions| + |usedProxySessions| == |old(proxySessions)| + |old(usedProxySessions)|
      ensures var n := HuntStep(h, bought, w, s, sup);
        && itemList == n.items && serverErrorCount == n.errors
        && n.results == h.results + [r] && (n.crashed <==> r.Crashed?)
      ensures bought <==> TurboTried(h, w, s, sup) && CheckoutPossible(s.isTest, w.turbo(check), TurboRoutes())
    {
      bought, r := false, Crashed;
      if itemList[i].furl.None? {
        return;
      }
      var touched := Poll(i, check, w, sup);
      bought, r := CheckPolled(i, check, touched, w, sup, h, s);
    }

    /** The part of a check after the poll: find a seller, check out, update
        the list, warm the next proxy. The seller search's `NameError` ends
        the check at once. */
    method CheckPolled(i: nat, check: nat, touched: Item, w: HuntWorld, sup: Support, ghost h: Hunt, ghost s: Settings)
      returns (bought: bool, r: CheckResult)
      requires h.i == i < |h.items| && h.check == check && Config() == s
      requires itemList == h.items[i := touched]
      requires serverErrorCount == h.errors + (if CountsServerError(GetItemSellers(touched, w.stock(check), sup)) then 1 else 0)
      modifies this
      ensures Config() == s && multiset(proxies) == multiset(old(proxies))
      ensures |proxySessions| + |usedProxySessions| == |old(proxySessions)| + |old(usedProxySessions)|
      ensures var n := PolledStep(h, touched, bought, w, s, sup);
        && itemList == n.items && serverErrorCount == n.errors
        && n.results == h.results + [r] && (n.crashed <==> r.Crashed?)
      ensures TurboRoutes() == old(TurboRoutes())
      ensures bought <==> s.buyItNow && FindQualifiedSeller(touched, w.stock(check), s.checkShipping, sup).Qualified?
                          && CheckoutPossible(s.isTest, w.turbo(check), TurboRoutes())
    {
      var q := FindQualifiedSeller(touched, w.stock(check), checkShipping, sup);
      bought, r := Decide(q, check, w);
      if r.Crashed? {
        return;
      }
      Settle(touched, r);
      WarmNextProxy();
      PolledStepOutcome(h, touched, bought, w, s, sup, r);
    }

    /** One check of a pass, stated against the pass so far: after it, the
        handler is in the state of the pass with one more check. */
    method PassStep(i: nat, check: nat, w: HuntWorld, sup: Support, ghost h0: Hunt, ghost s: Settings,
                    ghost turbo: seq<bool>, ghost counts: seq<nat>, ghost results: seq<CheckResult>,
                    ghost step: (Hunt, bool) -> Hunt, ghost tried: Hunt -> bool)
      returns (bought: bool, r: CheckResult, ghost routes: nat)
      requires Config() == s && i < |itemList| && check == h0.check + |turbo|
      requires StepsAs(step, w, s, sup) && TriesAs(tried, w, s, sup)
      requires PassAt(h0, turbo, counts, step, tried, w, s, itemList, i, results, serverErrorCount)
      modifies this
      ensures Config() == s && multiset(proxies) == multiset(old(proxies))
      ensures |proxySessions| + |usedProxySessions| == |old(proxySessions)| + |old(usedProxySessions)|
      ensures |itemList| <= old(|itemList|)
      ensures routes >= 1 && (!(old(proxies) != [] && s.proxyCheckout) ==> routes == 1)
      ensures !r.Crashed? ==>
        PassAt(h0, turbo + [bought], counts + [routes], step, tried, w, s, itemList, i + 1, results + [r], serverErrorCount)
      ensures r.Crashed? ==>
        CrashedAt(h0, turbo + [bought], counts + [routes], step, tried, w, s, itemList, results + [r], serverErrorCount)
    {
      ghost var h := HuntRun(h0, turbo, step);
      bought, r := CheckItem(i, check, w, sup, h, s);
      routes := TurboRoutes();
      assert |proxies| == |multiset(proxies)| == |multiset(old(proxies))| == |old(proxies)|;
      HuntRunSnoc(h0, turbo, bought, step);
      HuntStepNeverGrows(h, bought, w, s, sup);
      TurboHonestSnoc(h0, turbo, counts, bought, routes, step, tried, w, s.isTest, h, check);
    }

    /** One pass of the hunt loop over the live item list, from check number
        `checkCount` with the spinner at `idx`; then the list is shuffled,
        unless an exception ended the pass. `turbo` records whether each
        check's turbo checkout succeeded. */
    method HuntPass(w: HuntWorld, sup: Support, checkCount: nat, idx: nat, ghost step: (Hunt, bool) -> Hunt,
                    ghost tried: Hunt -> bool)
      returns (turbo: seq<bool>, results: seq<CheckResult>, nextCount: nat, nextIdx: nat, crashed: bool,
               ghost counts: seq<nat>)
      requires checkCount >= 1 && idx == (checkCount - 1) % 4
      requires StepsAs(step, w, Config(), sup) && TriesAs(tried, w, Config(), sup)
      modifies this
      ensures Config() == old(Config()) && multiset(proxies) == multiset(old(proxies))
      ensures |proxySessions| + |usedProxySessions| == |old(proxySessions)| + |old(usedProxySessions)|
      ensures var h := HuntRun(HuntStart(old(itemList), checkCount, old(serverErrorCount)), turbo, step);
        && Halted(h) && h.results == results && h.crashed == crashed
        && serverErrorCount == h.errors && nextCount == h.check
        && (crashed ==> itemList == h.items)
        && (!crashed ==> multiset(itemList) == multiset(h.items))
      ensures nextIdx == (nextCount - 1) % 4
      ensures |counts| == |turbo|
      ensures TurboHonest(HuntStart(old(itemList), checkCount, old(serverErrorCount)), turbo, counts, step, tried, w,
                          old(isTest), |turbo|)
      ensures RouteCounts(counts, !(old(proxies) != [] && proxyCheckout))
    {
      ghost var s := Config();
      ghost var h0 := HuntStart(itemList, checkCount, serverErrorCount);
      ghost var laps := (checkCount - 1) / 4;
      turbo, results, nextCount, nextIdx, crashed, counts := [], [], checkCount, idx, false, [];
      var i := 0;
      while i < |itemList|
        invariant Config() == s && multiset(proxies) == multiset(old(proxies))
        invariant |proxySessions| + |usedProxySessions| == |old(proxySessions)| + |old(usedProxySessions)|
        invariant PassAt(h0, turbo, counts, step, tried, w, s, itemList, i, results, serverErrorCount)
        invariant RouteCounts(counts, !(old(proxies) != [] && proxyCheckout))
        invariant nextCount == checkCount + |turbo|
        invariant nextCount >= 1 && nextIdx < 4 && nextCount - 1 == 4 * laps + nextIdx
        decreases |itemList| - i
      {
        var bought, r, routes := PassStep(i, nextCount, w, sup, h0, s, turbo, counts, results, step, tried);
        RouteCountsSnoc(counts, routes, !(old(proxies) != [] && proxyCheckout));
        turbo, results, counts := turbo + [bought], results + [r], counts + [routes];
        if r.Crashed? {
          crashed := true;
          break;
        }
        nextCount := nextCount + 1;
        nextIdx := NextSpinner(nextIdx);
        if nextIdx == 0 {
          laps := laps + 1;
        }
        i := i + 1;
      }
      SpinnerPosition(nextCount, nextIdx, laps);
      if !crashed {
        var order :| multiset(order) == multiset(itemList);
        itemList := order;
      }
    }
  }
}
