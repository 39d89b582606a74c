/** The checkout state machine: the turbo protocol (`turbo_initiate`,
    `turbo_checkout`, `do_turbo_checkout`), the order in which
    `attempt_turbo_checkout` fans out over proxies, and the legacy cart
    protocol's payload builders (`atc`, `ptc`, `pyo`). Server replies are
    inputs; nothing here sends a request. */
module Checkout {
  import opened Wrappers
  import opened Patterns
  import opened AmazonSupport

  /** An HTTP response: status code and body text. */
  datatype Reply = Reply(status: int, text: string)

  // ---------------------------------------------------------------- turbo

  /** The form `turbo_initiate` posts: the offer listing, a quantity of one,
      and the ASIN only when one is given. */
  function InitiatePayload(offeringId: string, asin: string): (p: map<string, string>)
    ensures "offerListing.1" in p && p["offerListing.1"] == offeringId
    ensures "quantity.1" in p && p["quantity.1"] == "1"
    ensures "asin.1" in p <==> asin != ""
    ensures asin != "" ==> p["asin.1"] == asin
    ensures p.Keys <= {"offerListing.1", "quantity.1", "asin.1"}
  {
    var base := map["offerListing.1" := offeringId, "quantity.1" := "1"];
    if asin != "" then base["asin.1" := asin] else base
  }

  /** What `turbo_initiate` leaves behind: the tokens it returns, how many
      POSTs it made and how many failed-attempt snapshots it wrote. */
  datatype Initiation = Initiation(pid: Option<string>, csrf: Option<string>, posts: nat, snapshots: nat)

  /** A reply that ends the retry loop: a non-200 status, or a body carrying
      the csrf token. */
  predicate EndsInitiate(r: Reply)
  {
    r.status != 200 || (r.text != "" && CsrfMatch(r.text).Some?)
  }

  /** A reply whose 200 body carries a pid. */
  predicate PidReply(r: Reply)
  {
    r.status == 200 && r.text != "" && PidMatch(r.text).Some?
  }

  /** The pid after reading reply `r`: replaced when a 200 body matches. */
  function PidAfter(r: Reply, pid: Option<string>): Option<string>
  {
    if PidReply(r) then PidMatch(r.text) else pid
  }

  /** The retry loop of `turbo_initiate` from attempt `k` on, `post(k)` being
      the reply to the `k`-th POST. */
  function InitiateFrom(post: nat -> Reply, k: nat, pid: Option<string>, snapshots: nat): (r: Initiation)
    requires k <= 3
    decreases 3 - k
  {
    if k == 3 then Initiation(pid, None, 3, snapshots)
    else
      var reply := post(k);
      if reply.status != 200 then Initiation(pid, None, k + 1, snapshots)
      else if reply.text != "" && CsrfMatch(reply.text).Some? then
        Initiation(PidAfter(reply, pid), CsrfMatch(reply.text), k + 1, snapshots)
      else InitiateFrom(post, k + 1, PidAfter(reply, pid), snapshots + 1)
  }

  /** The shape of the retry loop from attempt `k` on: it makes between one
      and `3 - k` more POSTs; every attempt before the last goes on; it stops
      early only on a reply that ends it; that reply writes no snapshot and
      every other attempt writes exactly one; the csrf token is returned
      exactly when the last reply was a 200 that carried it. */
  lemma {:induction false} InitiateFromShape(post: nat -> Reply, k: nat, pid: Option<string>, snapshots: nat)
    requires k < 3
    decreases 3 - k
    ensures var r := InitiateFrom(post, k, pid, snapshots);
      && k < r.posts <= 3
      && (forall j :: k <= j < r.posts - 1 ==> !EndsInitiate(post(j)))
      && (r.posts < 3 ==> EndsInitiate(post(r.posts - 1)))
      && r.snapshots == snapshots + (r.posts - k) - (if EndsInitiate(post(r.posts - 1)) then 1 else 0)
      && (r.csrf.Some? <==> EndsInitiate(post(r.posts - 1)) && post(r.posts - 1).status == 200)
      && (r.csrf.Some? ==> r.csrf == CsrfMatch(post(r.posts - 1).text))
  {
    var reply := post(k);
    if reply.status == 200 && !(reply.text != "" && CsrfMatch(reply.text).Some?) && k + 1 < 3 {
      InitiateFromShape(post, k + 1, PidAfter(reply, pid), snapshots + 1);
    }
  }

  /** None of the replies `k` to `n - 1` carries a pid. */
  predicate NoPidReply(post: nat -> Reply, k: nat, n: nat)
  {
    forall j :: k <= j < n ==> !PidReply(post(j))
  }

  /** Reply `j` carries a pid and none of the replies after it, up to `n - 1`, does. */
  predicate LastPidReply(post: nat -> Reply, j: nat, n: nat)
  {
    PidReply(post(j)) && NoPidReply(post, j + 1, n)
  }

  /** The pid the retry loop from attempt `k` on returns: the pid of the last
      reply it read that carried one, or the incoming `pid` when none did. */
  lemma {:induction false} InitiateFromPid(post: nat -> Reply, k: nat, pid: Option<string>, snapshots: nat)
    requires k <= 3
    decreases 3 - k
    ensures var r := InitiateFrom(post, k, pid, snapshots);
      && (NoPidReply(post, k, r.posts) ==> r.pid == pid)
      && (forall j :: k <= j < r.posts && LastPidReply(post, j, r.posts) ==> r.pid == PidMatch(post(j).text))
  {
    var r := InitiateFrom(post, k, pid, snapshots);
    if k == 3 {
      assert r.posts == 3 && r.pid == pid;
    } else {
      var reply := post(k);
      if reply.status != 200 {
        assert r.posts == k + 1 && r.pid == pid && !PidReply(reply);
      } else if reply.text != "" && CsrfMatch(reply.text).Some? {
        assert r.posts == k + 1 && r.pid == PidAfter(reply, pid);
      } else {
        var next := PidAfter(reply, pid);
        assert r == InitiateFrom(post, k + 1, next, snapshots + 1);
        InitiateFromPid(post, k + 1, next, snapshots + 1);
        if NoPidReply(post, k, r.posts) {
          assert !PidReply(reply) && NoPidReply(post, k + 1, r.posts);
        }
        forall j | k <= j < r.posts && LastPidReply(post, j, r.posts)
          ensures r.pid == PidMatch(post(j).text)
        {
          if j == k {
            assert r.pid == next;
          }
        }
      }
    }
  }

  /** `turbo_initiate` POSTs at most three times, stops at the first non-200
      (writing no snapshot for it) or at the first reply carrying the csrf
      token, and writes one snapshot for every other attempt. */
  lemma InitiateShape(post: nat -> Reply)
    ensures var r := InitiateFrom(post, 0, None, 0);
      && 1 <= r.posts <= 3
      && (forall j :: 0 <= j < r.posts - 1 ==> post(j).status == 200 && !EndsInitiate(post(j)))
      && (r.posts < 3 ==> EndsInitiate(post(r.posts - 1)))
      && r.snapshots == r.posts - (if EndsInitiate(post(r.posts - 1)) then 1 else 0)
      && (r.csrf.Some? <==> post(r.posts - 1).status == 200 && EndsInitiate(post(r.posts - 1)))
  {
    InitiateFromShape(post, 0, None, 0);
  }

  /** Two token-less 200 replies and then one carrying both tokens: the third
      POST succeeds with the tokens of that reply, after exactly two snapshots. */
  lemma ThirdAttemptSucceeds(post: nat -> Reply, pid: string, csrf: string)
    requires post(0).status == 200 && post(1).status == 200 && post(2).status == 200
    requires CsrfMatch(post(0).text).None? && CsrfMatch(post(1).text).None?
    requires post(2).text != "" && PidMatch(post(2).text) == Some(pid) && CsrfMatch(post(2).text) == Some(csrf)
    ensures InitiateFrom(post, 0, None, 0) == Initiation(Some(pid), Some(csrf), 3, 2)
  {
  }

  /** `turbo_initiate`: up to three POSTs of the initiate form, reading the
      pid and the csrf token out of each 200 body. */
  method TurboInitiate(post: nat -> Reply) returns (pid: Option<string>, csrf: Option<string>, posts: nat, snapshots: nat)
    ensures Initiation(pid, csrf, posts, snapshots) == InitiateFrom(post, 0, None, 0)
  {
    pid, csrf := None, None;
    posts, snapshots := 0, 0;
    while posts < 3
      invariant posts <= 3 && csrf.None?
      invariant InitiateFrom(post, posts, pid, snapshots) == InitiateFrom(post, 0, None, 0)
    {
      var r := post(posts);
      posts := posts + 1;
      if r.status == 200 {
        if r.text != "" {
          var foundPid := PidMatch(r.text);
          if foundPid.Some? {
            pid := foundPid;
          }
          var foundCsrf := CsrfMatch(r.text);
          if foundCsrf.Some? {
            csrf := foundCsrf;
            break;
          }
        }
      } else {
        break;
      }
      snapshots := snapshots + 1;
    }
  }

  /** `turbo_checkout`'s verdict on the place-order reply: a test run succeeds
      without sending anything; otherwise 200 and 500 both count as success. */
  function TurboCheckout(isTest: bool, reply: Reply): (ok: bool)
    ensures !isTest ==> (ok <==> reply.status in {200, 500})
    ensures isTest ==> ok
  {
    isTest || reply.status == 200 || reply.status == 500
  }

  /** The place-order rule: success exactly on 200 or 500 outside test mode,
      unconditionally (whatever the server would say) in test mode. */
  lemma TurboCheckoutRule(isTest: bool, reply: Reply, other: Reply)
    ensures !isTest ==> (TurboCheckout(isTest, reply) <==> reply.status in {200, 500})
    ensures isTest ==> TurboCheckout(isTest, reply) && TurboCheckout(isTest, reply) == TurboCheckout(isTest, other)
  {
  }

  /** The replies one checkout attempt would receive: to each initiate POST,
      and to the place-order POST. */
  datatype TurboExchange = TurboExchange(initiate: nat -> Reply, placeOrder: Reply)

  /** What one `do_turbo_checkout` does. */
  datatype TurboResult = TurboResult(ok: bool, initiatePosts: nat, placeOrderPosts: nat, snapshots: nat)

  /** `if pid and anti_csrf`: both tokens present and non-empty. */
  predicate HasTokens(init: Initiation)
  {
    init.pid.Some? && init.pid.value != "" && init.csrf.Some? && init.csrf.value != ""
  }

  /** The outcome of one `do_turbo_checkout`. */
  function TurboOutcome(isTest: bool, ex: TurboExchange): TurboResult
  {
    var init := InitiateFrom(ex.initiate, 0, None, 0);
    var ordered := HasTokens(init) && !isTest;
    TurboResult(HasTokens(init) && TurboCheckout(isTest, ex.placeOrder), init.posts, if ordered then 1 else 0,
                init.snapshots + if ordered then 1 else 0)
  }

  /** A turbo attempt succeeds exactly when initiation produced both tokens
      and the place-order rule accepts; place-order is only ever sent after
      initiation succeeded, and never in test mode. */
  lemma TurboOutcomeRule(isTest: bool, ex: TurboExchange)
    ensures var init := InitiateFrom(ex.initiate, 0, None, 0);
      && (TurboOutcome(isTest, ex).ok <==> HasTokens(init) && (isTest || ex.placeOrder.status in {200, 500}))
      && (TurboOutcome(isTest, ex).placeOrderPosts == 1 <==> HasTokens(init) && !isTest)
      && 1 <= TurboOutcome(isTest, ex).initiatePosts <= 3
      && TurboOutcome(isTest, ex).snapshots == init.snapshots + TurboOutcome(isTest, ex).placeOrderPosts
  {
    InitiateShape(ex.initiate);
  }

  /** `do_turbo_checkout`: initiate, then place the order when both tokens came back. */
  method DoTurboCheckout(isTest: bool, ex: TurboExchange) returns (res: TurboResult)
    ensures res == TurboOutcome(isTest, ex)
  {
    var pid, csrf, posts, snapshots := TurboInitiate(ex.initiate);
    if pid.Some? && pid.value != "" && csrf.Some? && csrf.value != "" {
      var ok := TurboCheckout(isTest, ex.placeOrder);
      res := TurboResult(ok, posts, if isTest then 0 else 1, snapshots + if isTest then 0 else 1);
    } else {
      res := TurboResult(false, posts, 0, snapshots);
    }
  }

  // ---------------------------------------------------------------- fan-out

  /** A proxy configuration: scheme to proxy address. */
  type Proxy = map<string, string>

  /** Where a checkout attempt is sent from. */
  datatype Route = Primary | Via(proxy: Proxy)

  /** `[d for d in proxies if d != p]`. */
  function Without(proxies: seq<Proxy>, p: Proxy): (r: seq<Proxy>)
    ensures |r| <= |proxies|
    ensures p !in r
    ensures forall q :: q != p ==> multiset(r)[q] == multiset(proxies)[q]
  {
    if proxies == [] then []
    else
      var rest := Without(proxies[1..], p);
      assert proxies == [proxies[0]] + proxies[1..];
      if proxies[0] != p then [proxies[0]] + rest else rest
  }

  /** `Without` drops exactly the copies of `p`. */
  lemma {:induction false} WithoutLength(proxies: seq<Proxy>, p: Proxy)
    ensures |Without(proxies, p)| == |proxies| - multiset(proxies)[p]
  {
    if proxies != [] {
      WithoutLength(proxies[1..], p);
      assert proxies == [proxies[0]] + proxies[1..];
      assert multiset(proxies)[p] == multiset(proxies[1..])[p] + (if proxies[0] == p then 1 else 0);
    }
  }

  /** The proxies in the order `attempt_turbo_checkout` tries them: the
      shuffled list, or, when some proxy session has been used, that session's
      proxy first followed by every other proxy in shuffled order. */
  function ProxyOrder(shuffled: seq<Proxy>, lastUsed: Option<Proxy>): seq<Proxy>
  {
    match lastUsed
    case None => shuffled
    case Some(p) => [p] + Without(shuffled, p)
  }

  /** The last-used proxy leads, appears exactly once, and is followed by the
      other proxies in their shuffled order with their multiplicities. */
  lemma ProxyOrderLastUsedFirst(shuffled: seq<Proxy>, p: Proxy)
    ensures var order := ProxyOrder(shuffled, Some(p));
      && order[0] == p
      && multiset(order)[p] == 1
      && order[1..] == Without(shuffled, p)
      && forall q :: q != p ==> multiset(order)[q] == multiset(shuffled)[q]
  {
    var order := ProxyOrder(shuffled, Some(p));
    assert order == [p] + Without(shuffled, p);
    assert multiset(order) == multiset{p} + multiset(Without(shuffled, p));
  }

  /** `Without` keeps the order of what it keeps: it is the sequence of the
      proxies different from `p`, front to back. */
  lemma {:induction false} WithoutKeepsOrder(proxies: seq<Proxy>, p: Proxy, q: Proxy)
    requires q != p
    ensures Without([q] + proxies, p) == [q] + Without(proxies, p)
    ensures Without(proxies + [q], p) == Without(proxies, p) + [q]
    decreases |proxies|
  {
    assert ([q] + proxies)[1..] == proxies;
    if proxies != [] {
      assert (proxies + [q])[1..] == proxies[1..] + [q];
      WithoutKeepsOrder(proxies[1..], p, q);
    } else {
      assert (proxies + [q])[1..] == [];
    }
  }

  /** Every route one checkout attempt may try, in order: the primary session
      first, then, when proxies exist and proxy checkout is on, the proxies. */
  function CheckoutRoutes(shuffled: seq<Proxy>, lastUsed: Option<Proxy>, proxyCheckout: bool): (routes: seq<Route>)
    ensures |routes| >= 1 && routes[0] == Primary
    ensures forall k :: 1 <= k < |routes| ==> routes[k].Via?
    ensures shuffled != [] && proxyCheckout ==>
              |routes| == 1 + |ProxyOrder(shuffled, lastUsed)|
              && forall k :: 1 <= k < |routes| ==> routes[k] == Via(ProxyOrder(shuffled, lastUsed)[k - 1])
    ensures !(shuffled != [] && proxyCheckout) ==> routes == [Primary]
  {
    var order := ProxyOrder(shuffled, lastUsed);
    [Primary] + (if shuffled != [] && proxyCheckout then seq(|order|, k requires 0 <= k < |order| => Via(order[k])) else [])
  }

  /** How many routes an attempt has does not depend on how the proxies were
      shuffled. */
  lemma RouteCount(a: seq<Proxy>, b: seq<Proxy>, lastUsed: Option<Proxy>, proxyCheckout: bool)
    requires multiset(a) == multiset(b)
    ensures |CheckoutRoutes(a, lastUsed, proxyCheckout)| == |CheckoutRoutes(b, lastUsed, proxyCheckout)|
  {
    assert |a| == |multiset(a)| == |multiset(b)| == |b|;
    if lastUsed.Some? {
      WithoutLength(a, lastUsed.value);
      WithoutLength(b, lastUsed.value);
    }
  }

  /** Attempt `j`, which receives `exchange(j)`, succeeds. */
  predicate AttemptOk(isTest: bool, exchange: nat -> TurboExchange, j: nat)
  {
    TurboOutcome(isTest, exchange(j)).ok
  }

  /** An attempt succeeds exactly when its `do_turbo_checkout` does. */
  lemma AttemptOkIsOutcome(isTest: bool, exchange: nat -> TurboExchange, k: nat, res: TurboResult)
    requires res == TurboOutcome(isTest, exchange(k))
    ensures res.ok == Attempts(isTest, exchange)(k)
  {
  }

  /** Which attempts succeed, by attempt number. */
  function Attempts(isTest: bool, exchange: nat -> TurboExchange): (ok: nat -> bool)
    ensures forall j :: ok(j) == AttemptOk(isTest, exchange, j)
  {
    (j: nat) => AttemptOk(isTest, exchange, j)
  }

  /** The number of the first attempt in `k .. n - 1` that succeeds. */
  function FirstSuccess(ok: nat -> bool, n: nat, k: nat): (r: Option<nat>)
    requires k <= n
    decreases n - k
    ensures r.Some? ==> k <= r.value < n && ok(r.value)
  {
    if k == n then None
    else if ok(k) then Some(k)
    else FirstSuccess(ok, n, k + 1)
  }

  /** No attempt before the first success succeeds, and when there is none,
      no attempt at all does. */
  lemma {:induction false} FirstSuccessIsFirst(ok: nat -> bool, n: nat, k: nat)
    requires k <= n
    decreases n - k
    ensures var r := FirstSuccess(ok, n, k);
      && (r.Some? ==> forall j :: k <= j < r.value ==> !ok(j))
      && (r.None? ==> forall j :: k <= j < n ==> !ok(j))
  {
    if k < n && !ok(k) {
      FirstSuccessIsFirst(ok, n, k + 1);
    }
  }

  /** One route's `do_turbo_checkout`, `exchange(k)` being what route `k`
      receives: it succeeds exactly when attempt `k` does. */
  method TryRoute(isTest: bool, exchange: nat -> TurboExchange, k: nat) returns (ok: bool)
    ensures ok == Attempts(isTest, exchange)(k)
  {
    var res := DoTurboCheckout(isTest, exchange(k));
    ok := res.ok;
  }

  /** Tries `routes[start..]` in order, `exchange(k)` being what route `k`
      receives, and stops at the first success; `tried` are the routes used. */
  method TryRoutes(isTest: bool, routes: seq<Route>, exchange: nat -> TurboExchange, start: nat)
    returns (ok: bool, tried: seq<Route>)
    requires start <= |routes|
    ensures var first := FirstSuccess(Attempts(isTest, exchange), |routes|, start);
      && ok == first.Some?
      && tried == (if ok then routes[start..first.value + 1] else routes[start..])
  {
    ghost var oks := Attempts(isTest, exchange);
    var k := start;
    ok, tried := false, [];
    while k < |routes|
      invariant start <= k <= |routes| && tried == routes[start..k]
      invariant FirstSuccess(oks, |routes|, k) == FirstSuccess(oks, |routes|, start)
    {
      var routeOk := TryRoute(isTest, exchange, k);
      SliceSnoc(routes, start, k);
      tried := tried + [routes[k]];
      if routeOk {
        ok := true;
        return;
      }
      k := k + 1;
    }
    assert tried == routes[start..];
  }

  // ---------------------------------------------------------------- legacy cart

  /** The dict built from an add-to-cart form's inputs: for each name, the
      value of the last input that carries it. */
  function FormFields(inputs: seq<FormInput>): (m: map<string, string>)
    ensures forall i :: 0 <= i < |inputs| ==> inputs[i].name in m
    ensures forall k :: k in m ==> exists i :: 0 <= i < |inputs| && inputs[i].name == k
  {
    if inputs == [] then map[]
    else
      var last := inputs[|inputs| - 1];
      var m := FormFields(inputs[..|inputs| - 1]);
      assert forall i :: 0 <= i < |inputs| - 1 ==> inputs[..|inputs| - 1][i] == inputs[i];
      m[last.name := last.value]
  }

  /** Later inputs override earlier ones with the same name. */
  lemma {:induction false} FormFieldsLastWins(inputs: seq<FormInput>, i: nat)
    requires i < |inputs|
    requires forall j :: i < j < |inputs| ==> inputs[j].name != inputs[i].name
    ensures FormFields(inputs)[inputs[i].name] == inputs[i].value
    decreases |inputs|
  {
    if i < |inputs| - 1 {
      var front := inputs[..|inputs| - 1];
      assert front[i] == inputs[i];
      FormFieldsLastWins(front, i);
    }
  }

  /** `atc`'s payload: the form fields, then `submit.addToCart`, then the
      browser's `session-id` cookie. */
  method AtcPayload(form: AtcForm, sessionId: string) returns (payload: map<string, string>)
    ensures payload == FormFields(form.inputs)["submit.addToCart" := "Submit"]["session-id" := sessionId]
  {
    payload := map[];
    var i := 0;
    while i < |form.inputs|
      invariant i <= |form.inputs|
      invariant payload == FormFields(form.inputs[..i])
    {
      assert form.inputs[..i + 1][..i] == form.inputs[..i];
      payload := payload[form.inputs[i].name := form.inputs[i].value];
      i := i + 1;
    }
    assert form.inputs[..i] == form.inputs;
    payload := payload["submit.addToCart" := "Submit"];
    payload := payload["session-id" := sessionId];
  }

  /** `atc`: post the payload to the form's action on the storefront;
      success on 200. */
  method Atc(domain: string, seller: Offer, sessionId: string, reply: Reply) returns (ok: bool, url: string, payload: map<string, string>)
    ensures url == "https://" + domain + seller.atcForm.action
    ensures "session-id" in payload && payload["session-id"] == sessionId
    ensures payload.Keys == FormFields(seller.atcForm.inputs).Keys + {"submit.addToCart", "session-id"}
    ensures forall k :: k in FormFields(seller.atcForm.inputs) && k != "submit.addToCart" && k != "session-id"
              ==> payload[k] == FormFields(seller.atcForm.inputs)[k]
    ensures payload["submit.addToCart"] == "Submit"
    ensures ok <==> reply.status == 200
  {
    url := "https://" + domain + seller.atcForm.action;
    payload := AtcPayload(seller.atcForm, sessionId);
    ok := reply.status == 200;
  }

  /** `ptc`: the checkout page's text, only on a 200 with a non-empty body;
      `None` on a timeout (no reply) or anything else. */
  function Ptc(reply: Option<Reply>): (page: Option<string>)
    ensures page.Some? <==> reply.Some? && reply.value.status == 200 && reply.value.text != ""
    ensures page.Some? ==> page.value == reply.value.text
  {
    match reply
    case Some(r) => if r.status == 200 && r.text != "" then Some(r.text) else None
    case None => None
  }

  /** The fixed parameter template of `pyo`. */
  const PyoTemplate: map<string, string> := map[
    "submitFromSPC" := "",
    "fasttrackExpiration" := "",
    "countdownThreshold" := "",
    "showSimplifiedCountdown" := "",
    "countdownId" := "",
    "gift-message-text" := "",
    "concealment-item-message" := "Ship+in+Amazon+packaging+selected",
    "dupOrderCheckArgs" := "",
    "order0" := "",
    "shippingofferingid0.0" := "",
    "guaranteetype0.0" := "",
    "issss0.0" := "",
    "shipsplitpriority0.0" := "",
    "isShipWhenCompleteValid0.0" := "",
    "isShipWheneverValid0.0" := "",
    "shippingofferingid0.1" := "",
    "guaranteetype0.1" := "",
    "issss0.1" := "",
    "shipsplitpriority0.1" := "",
    "isShipWhenCompleteValid0.1" := "",
    "isShipWheneverValid0.1" := "",
    "shippingofferingid0.2" := "",
    "guaranteetype0.2" := "",
    "issss0.2" := "",
    "shipsplitpriority0.2" := "",
    "isShipWhenCompleteValid0.2" := "",
    "isShipWheneverValid0.2" := "",
    "previousshippingofferingid0" := "",
    "previousguaranteetype0" := "",
    "previousissss0" := "",
    "previousshippriority0" := "",
    "lineitemids0" := "",
    "currentshippingspeed" := "",
    "previousShippingSpeed0" := "",
    "currentshipsplitpreference" := "",
    "shippriority.0.shipWhenever" := "",
    "groupcount" := "",
    "shiptrialprefix" := "",
    "csrfToken" := "",
    "fromAnywhere" := "",
    "redirectOnSuccess" := "",
    "purchaseTotal" := "",
    "purchaseTotalCurrency" := "",
    "purchaseID" := "",
    "purchaseCustomerId" := "",
    "useCtb" := "",
    "scopeId" := "",
    "isQuantityInvariant" := "",
    "promiseTime-0" := "",
    "promiseAsin-0" := "",
    "selectedPaymentPaystationId" := "",
    "hasWorkingJavascript" := "1",
    "placeYourOrder1" := "1",
    "isfirsttimecustomer" := "0",
    "isTFXEligible" := "",
    "isFxEnabled" := "",
    "isFXTncShown" := ""
  ]

  /** What `pyo` reads from the checkout page: the `for` attribute of the
      quantity drop-down label, if there is one, and the page's inputs in
      document order. */
  datatype PyoPage = PyoPage(quantityFor: Option<string>, inputs: seq<FormInput>)

  /** The value of the first input named `key`. */
  function FirstInputValue(inputs: seq<FormInput>, key: string): (v: Option<string>)
    ensures v.Some? <==> exists i :: 0 <= i < |inputs| && inputs[i].name == key
    ensures v.Some? ==> exists i :: 0 <= i < |inputs| && inputs[i].name == key && inputs[i].value == v.value
                                 && forall j :: 0 <= j < i ==> inputs[j].name != key
  {
    if inputs == [] then None
    else if inputs[0].name == key then Some(inputs[0].value)
    else
      var v := FirstInputValue(inputs[1..], key);
      assert forall i :: 1 <= i < |inputs| ==> inputs[i] == inputs[1..][i - 1];
      v
  }

  /** The template with the quantity key set to one. */
  function PyoBase(page: PyoPage): map<string, string>
  {
    match page.quantityFor
    case Some(q) => PyoTemplate[q := "1"]
    case None => PyoTemplate
  }

  /** The parameters after the first `n` configured keys were looked up. */
  function PyoFill(page: PyoPage, keys: seq<string>, n: nat): map<string, string>
    requires n <= |keys|
  {
    if n == 0 then PyoBase(page)
    else
      var m := PyoFill(page, keys, n - 1);
      match FirstInputValue(page.inputs, keys[n - 1])
      case Some(v) => m[keys[n - 1] := v]
      case None => m
  }

  /** A template key is overwritten only when it is the quantity key or a
      configured key found on the page; found keys take the page's value. */
  lemma {:induction false} PyoFillExact(page: PyoPage, keys: seq<string>, n: nat, k: string)
    requires n <= |keys|
    ensures var m := PyoFill(page, keys, n);
      var found := k in keys[..n] && FirstInputValue(page.inputs, k).Some?;
      && (k in m <==> k in PyoTemplate || page.quantityFor == Some(k) || found)
      && (found ==> m[k] == FirstInputValue(page.inputs, k).value)
      && (!found && page.quantityFor == Some(k) ==> m[k] == "1")
      && (!found && page.quantityFor != Some(k) && k in PyoTemplate ==> m[k] == PyoTemplate[k])
  {
    if n > 0 {
      PyoFillExact(page, keys, n - 1, k);
      assert keys[..n] == keys[..n - 1] + [keys[n - 1]];
    }
  }

  /** `pyo`: fill the template from the checkout page and submit it; success on 200. */
  method Pyo(page: PyoPage, keys: seq<string>, reply: Reply) returns (ok: bool, params: map<string, string>)
    ensures params == PyoFill(page, keys, |keys|)
    ensures ok <==> reply.status == 200
  {
    params := PyoTemplate;
    if page.quantityFor.Some? {
      params := params[page.quantityFor.value := "1"];
    }
    var i := 0;
    while i < |keys|
      invariant i <= |keys| && params == PyoFill(page, keys, i)
    {
      var value := FirstInputValue(page.inputs, keys[i]);
      if value.Some? {
        params := params[keys[i] := value.value];
      }
      i := i + 1;
    }
    ok := reply.status == 200;
  }
}
