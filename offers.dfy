/** The offer parser (`get_item_sellers`) and the qualification filter
    (`free_shipping_check`, `find_qualified_seller`). */
module Offers {
  import opened Wrappers
  import opened Text
  import opened Patterns
  import opened AmazonSupport

  /** The page's `//input[@id='ftSelectAsin']`: absent, present without a
      `value` attribute (reading it raises `AttributeError`), or with a value. */
  datatype AsinInput = NoAsinInput | AsinInputWithoutValue | AsinInputValue(value: string)

  /** What lxml makes of a real-time offer-listing payload. */
  datatype RealtimePage = RealtimePage(
    captchaForm: bool,          // //form[contains(@action,'validateCaptcha')]
    asinInput: AsinInput,
    blocks: seq<OfferBlock>)    // pinned offer and aod-offer blocks, in page order

  /** One poll of the real-time endpoint: `get_html`'s `(data, status)`, both
      `None` after a transport error, and the parsed page. */
  datatype RealtimeFetch = RealtimeFetch(payload: Option<string>, status: Option<int>, tree: RealtimePage)

  /** How a run of the `get_item_sellers` generator ends. */
  datatype SellerScan =
    | EmptyPayload                 // payload None or empty
    | ServerError                  // 503 without a CAPTCHA form
    | CaptchaNameError             // 503 with a CAPTCHA form: line 961 names an undefined `session`
    | AsinMismatch(found: string)  // the page is for another ASIN
    | Sellers(offers: seq<Offer>)  // the offers it yields, in page order

  /** The scan bumps `server_error_count` exactly on a 503. */
  predicate CountsServerError(scan: SellerScan)
  {
    scan.ServerError? || scan.CaptchaNameError?
  }

  /** `free_shipping_check`. */
  function FreeShippingCheck(seller: Offer): (free: bool)
    ensures free <==> seller.shippingCost <= 0.0
  {
    !(seller.shippingCost > 0.0)
  }

  /** The ASIN the page claims to describe: the `ftSelectAsin` input's stripped
      value, else the fallback regex over the raw payload, else a marker text. */
  function FoundAsin(tree: RealtimePage, payload: string): (found: string)
    ensures tree.asinInput.AsinInputValue? ==> found == Strip(tree.asinInput.value)
    ensures tree.asinInput.AsinInputWithoutValue? ==> found == "[NO ASINS FOUND ON PAGE]"
    ensures tree.asinInput.NoAsinInput? && AsinSearch(payload).Some? ==> found == AsinSearch(payload).value
    ensures tree.asinInput.NoAsinInput? && AsinSearch(payload).None? ==> found == "[NO ASIN FOUND ON PAGE]"
  {
    match tree.asinInput
    case AsinInputValue(v) => Strip(v)
    case AsinInputWithoutValue => "[NO ASINS FOUND ON PAGE]"
    case NoAsinInput =>
      match AsinSearch(payload)
      case Some(a) => a
      case None => "[NO ASIN FOUND ON PAGE]"
  }

  /** An offer block's merchant id: the merchant input, else the `merchantId`
      assignment in its first script, else `""`. */
  function BlockMerchantId(b: OfferBlock): (id: string)
    ensures b.merchantInput.Some? ==> id == b.merchantInput.value
    ensures b.merchantInput.None? && b.scriptText.Some? && MerchantIdMatch(Strip(b.scriptText.value)).Some?
            ==> id == MerchantIdMatch(Strip(b.scriptText.value)).value
    ensures b.merchantInput.None? && (b.scriptText.None? || MerchantIdMatch(Strip(b.scriptText.value)).None?) ==> id == ""
  {
    match b.merchantInput
    case Some(v) => v
    case None =>
      match b.scriptText
      case None => ""
      case Some(t) => MerchantIdMatch(Strip(t)).GetOr("")
  }

  /** A block is turned into an offer only when it shows a price, an offering
      id and a post form. */
  predicate Actionable(b: OfferBlock)
  {
    b.priceText.Some? && b.offeringId.Some? && b.postAction.Some?
  }

  /** The `SellerDetail` one block yields, if any. */
  function BlockOffer(b: OfferBlock, itemId: string, sup: Support): (r: Option<Offer>)
    ensures r.Some? <==> Actionable(b)
    ensures r.Some? ==> r.value.itemId == itemId && r.value.offeringId == b.offeringId.value
    ensures r.Some? ==> r.value.atcForm == AtcForm(b.postAction.value, b.formInputs)
    ensures r.Some? ==> r.value.merchantId == BlockMerchantId(b)
    ensures r.Some? && b.merchantInput.None? && b.scriptText.None? ==> r.value.merchantId == ""
    ensures r.Some? && b.heading.None? ==> r.value.condition == Unknown
    ensures r.Some? && b.heading.Some? ==> r.value.condition == sup.conditionFromHeading(Strip(b.heading.value))
    ensures r.Some? ==> r.value.price == sup.parsePrice(Strip(b.priceText.value))
    ensures r.Some? ==> r.value.shippingCost == sup.shippingCost(b)
  {
    if !Actionable(b) then None
    else
      var condition := match b.heading
        case Some(h) => sup.conditionFromHeading(Strip(h))
        case None => Unknown;
      Some(Offer(
        BlockMerchantId(b),
        sup.parsePrice(Strip(b.priceText.value)),
        sup.shippingCost(b),
        condition,
        b.offeringId.value,
        AtcForm(b.postAction.value, b.formInputs),
        itemId))
  }

  /** The offers of a block list, in page order, skipping unactionable blocks. */
  function ParseBlocks(bs: seq<OfferBlock>, itemId: string, sup: Support): (r: seq<Offer>)
    ensures |r| <= |bs|
  {
    if bs == [] then []
    else
      match BlockOffer(bs[0], itemId, sup)
      case Some(o) => [o] + ParseBlocks(bs[1..], itemId, sup)
      case None => ParseBlocks(bs[1..], itemId, sup)
  }

  /** The blocks of two lists yield the offers of the first, then those of
      the second. */
  lemma {:induction false} ParseBlocksAppend(a: seq<OfferBlock>, b: seq<OfferBlock>, itemId: string, sup: Support)
    ensures ParseBlocks(a + b, itemId, sup) == ParseBlocks(a, itemId, sup) + ParseBlocks(b, itemId, sup)
  {
    if a == [] {
      assert a + b == b;
    } else {
      assert (a + b)[0] == a[0];
      assert (a + b)[1..] == a[1..] + b;
      ParseBlocksAppend(a[1..], b, itemId, sup);
      var rest := ParseBlocks(a[1..], itemId, sup);
      if BlockOffer(a[0], itemId, sup).Some? {
        var o := BlockOffer(a[0], itemId, sup).value;
        assert ParseBlocks(a, itemId, sup) == [o] + rest;
        assert ParseBlocks(a + b, itemId, sup) == [o] + ParseBlocks(a[1..] + b, itemId, sup);
        AppendAssoc([o], rest, ParseBlocks(b, itemId, sup));
      } else {
        assert ParseBlocks(a, itemId, sup) == rest;
        assert ParseBlocks(a + b, itemId, sup) == ParseBlocks(a[1..] + b, itemId, sup);
      }
    }
  }

  /** One block yields its offer when it is actionable, and nothing otherwise. */
  lemma ParseBlocksSingle(b: OfferBlock, itemId: string, sup: Support)
    ensures ParseBlocks([b], itemId, sup) == (if Actionable(b) then [BlockOffer(b, itemId, sup).value] else [])
  {
    assert [b][1..] == [];
  }

  /** Whether a payload is present, and its contents. */
  predicate HasPayload(fetch: RealtimeFetch)
  {
    fetch.payload.Some? && fetch.payload.value != ""
  }

  /** `get_item_sellers`, run to exhaustion: nothing for an empty payload; on a
      503 the server-error count and, with a CAPTCHA form, the `NameError`;
      otherwise the offers of the page's blocks in page order, when the page
      is for the item. */
  function GetItemSellers(item: Item, fetch: RealtimeFetch, sup: Support): (r: SellerScan)
    ensures r.EmptyPayload? <==> !HasPayload(fetch)
    ensures r.Sellers? ==> fetch.status != Some(503) && FoundAsin(fetch.tree, fetch.payload.value) == item.id
    ensures CountsServerError(r) <==> !r.EmptyPayload? && fetch.status == Some(503)
    ensures r.CaptchaNameError? <==> HasPayload(fetch) && fetch.status == Some(503) && fetch.tree.captchaForm
    ensures r.Sellers? <==>
              HasPayload(fetch) && fetch.status != Some(503) && FoundAsin(fetch.tree, fetch.payload.value) == item.id
    ensures r.AsinMismatch? ==> HasPayload(fetch) && fetch.status != Some(503)
                                && r.found == FoundAsin(fetch.tree, fetch.payload.value) != item.id
    ensures r.Sellers? ==> r.offers == ParseBlocks(fetch.tree.blocks, item.id, sup)
  {
    if fetch.payload.None? || fetch.payload.value == "" then EmptyPayload
    else if fetch.status == Some(503) then
      if fetch.tree.captchaForm then CaptchaNameError else ServerError
    else
      var found := FoundAsin(fetch.tree, fetch.payload.value);
      if found != item.id then AsinMismatch(found)
      else Sellers(ParseBlocks(fetch.tree.blocks, item.id, sup))
  }

  /** Every yielded offer comes from an actionable block, belongs to the
      item, and every actionable block yields its offer. */
  lemma {:induction false} ParseBlocksExact(bs: seq<OfferBlock>, itemId: string, sup: Support)
    ensures forall o :: o in ParseBlocks(bs, itemId, sup) ==>
              o.itemId == itemId && exists b :: b in bs && Actionable(b) && BlockOffer(b, itemId, sup) == Some(o)
    ensures forall b :: b in bs && Actionable(b) ==> BlockOffer(b, itemId, sup).value in ParseBlocks(bs, itemId, sup)
  {
    if bs != [] {
      ParseBlocksExact(bs[1..], itemId, sup);
      forall b | b in bs[1..] ensures b in bs { }
      assert bs == [bs[0]] + bs[1..];
    }
  }

  /** A parse whose page is for another ASIN, or whose status is 503, yields
      no offer at all, whatever blocks the page holds. */
  lemma NoOffersUnlessMatching(item: Item, fetch: RealtimeFetch, sup: Support)
    requires fetch.status == Some(503)
          || (fetch.payload.Some? && FoundAsin(fetch.tree, fetch.payload.value) != item.id)
    ensures !GetItemSellers(item, fetch, sup).Sellers?
  {
  }

  /** The hurdles `find_qualified_seller` applies, in its order: the shipping
      hurdle only while `check_shipping` is off, then condition, price and
      merchant. */
  predicate Qualifies(item: Item, o: Offer, checkShipping: bool, sup: Support)
  {
    (checkShipping || FreeShippingCheck(o))
    && sup.conditionCheck(item, o) && sup.priceCheck(item, o) && sup.merchantCheck(item, o)
  }

  /** The first offer, in parse order, that passes every hurdle. */
  function FirstQualified(item: Item, offers: seq<Offer>, checkShipping: bool, sup: Support): (r: Option<Offer>)
    ensures r.None? <==> forall k :: 0 <= k < |offers| ==> !Qualifies(item, offers[k], checkShipping, sup)
    ensures r.Some? ==> r.value in offers && Qualifies(item, r.value, checkShipping, sup)
  {
    if offers == [] then None
    else if Qualifies(item, offers[0], checkShipping, sup) then Some(offers[0])
    else
      var r := FirstQualified(item, offers[1..], checkShipping, sup);
      assert forall k :: 1 <= k < |offers| ==> offers[k] == offers[1..][k - 1];
      r
  }

  /** First match wins: the offer at the first passing position is returned,
      so no earlier offer passes and later ones are never considered. */
  lemma {:induction false} FirstQualifiedIsFirst(item: Item, offers: seq<Offer>, checkShipping: bool, sup: Support, i: nat)
    requires i < |offers| && Qualifies(item, offers[i], checkShipping, sup)
    requires forall k :: 0 <= k < i ==> !Qualifies(item, offers[k], checkShipping, sup)
    ensures FirstQualified(item, offers, checkShipping, sup) == Some(offers[i])
  {
    if i > 0 {
      assert !Qualifies(item, offers[0], checkShipping, sup);
      forall k | 0 <= k < i - 1 ensures !Qualifies(item, offers[1..][k], checkShipping, sup) {
        assert offers[1..][k] == offers[k + 1];
      }
      FirstQualifiedIsFirst(item, offers[1..], checkShipping, sup, i - 1);
    }
  }

  /** What `find_qualified_seller` ends with. */
  datatype Qualification = Qualified(seller: Offer) | NoSeller | Raised

  /** `find_qualified_seller`: the first qualifying offer of the scan; the
      `NameError` of the CAPTCHA branch propagates out of it. */
  function FindQualifiedSeller(item: Item, fetch: RealtimeFetch, checkShipping: bool, sup: Support): (r: Qualification)
    ensures r.Raised? <==> GetItemSellers(item, fetch, sup).CaptchaNameError?
    ensures r.Qualified? ==>
              && GetItemSellers(item, fetch, sup).Sellers?
              && r.seller in GetItemSellers(item, fetch, sup).offers
              && Qualifies(item, r.seller, checkShipping, sup)
    ensures r.Qualified? ==> fetch.status != Some(503) && r.seller.itemId == item.id
    ensures GetItemSellers(item, fetch, sup).Sellers? ==>
              var offers := GetItemSellers(item, fetch, sup).offers;
              && (r.Qualified? <==> FirstQualified(item, offers, checkShipping, sup).Some?)
              && (r.Qualified? ==> FirstQualified(item, offers, checkShipping, sup) == Some(r.seller))
              && (r.NoSeller? ==> forall k :: 0 <= k < |offers| ==> !Qualifies(item, offers[k], checkShipping, sup))
    ensures !GetItemSellers(item, fetch, sup).Sellers? && !GetItemSellers(item, fetch, sup).CaptchaNameError? ==> r.NoSeller?
  {
    match GetItemSellers(item, fetch, sup)
    case CaptchaNameError => Raised
    case Sellers(offers) =>
      ParseBlocksExact(fetch.tree.blocks, item.id, sup);
      (match FirstQualified(item, offers, checkShipping, sup)
       case Some(o) => Qualified(o)
       case None => NoSeller)
    case _ => NoSeller
  }

  /** An offer that fails any hurdle before one that passes them all does not
      change the answer: the chooser never compares candidates, e.g. by price. */
  lemma FirstMatchIgnoresLater(item: Item, a: Offer, b: Offer, c: Offer, checkShipping: bool, sup: Support)
    requires !Qualifies(item, a, checkShipping, sup)
    requires Qualifies(item, b, checkShipping, sup) && Qualifies(item, c, checkShipping, sup)
    ensures FirstQualified(item, [a, b, c], checkShipping, sup) == Some(b)
  {
    FirstQualifiedIsFirst(item, [a, b, c], checkShipping, sup, 1);
  }
}
