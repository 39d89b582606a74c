/** The records the handler exchanges with `common.amazon_support` (tracked
    items, seller offers, item conditions) and that module's checks, whose
    source is not part of this model: they enter as the arrow-typed fields of
    a `Support` value and are otherwise uninterpreted. */
module AmazonSupport {
  import opened Wrappers

  /** A `price_parser` amount (a decimal). */
  type Amount = real

  /** A member of the `AmazonItemCondition` enumeration, by name. */
  datatype Condition = Condition(name: string)

  const New: Condition := Condition("New")
  const Unknown: Condition := Condition("Unknown")

  /** One `<input>` of an add-to-cart form: its `name` and `value`. */
  datatype FormInput = FormInput(name: string, value: string)

  /** A seller's add-to-cart form: its `action` and its inputs in page order. */
  datatype AtcForm = AtcForm(action: string, inputs: seq<FormInput>)

  /** `FGItem`: one tracked ASIN with the buyer's constraints and, once
      verified, its catalogue facts. */
  datatype Item = Item(
    id: string,
    minPrice: Amount,
    maxPrice: Amount,
    condition: Condition,
    merchantId: string,
    name: Option<string>,
    shortName: Option<string>,
    pdpUrl: Option<string>,
    furl: Option<string>,
    statusCode: Option<int>)

  /** `FGItem(asin, min_price, max_price, condition=..., merchant_id=...)`:
      the facts are not known yet. */
  function NewItem(asin: string, minPrice: Amount, maxPrice: Amount, condition: Condition, merchantId: string): (it: Item)
    ensures it.id == asin && it.minPrice == minPrice && it.maxPrice == maxPrice
    ensures it.condition == condition && it.merchantId == merchantId
    ensures it.name.None? && it.shortName.None? && it.pdpUrl.None? && it.furl.None?
  {
    Item(asin, minPrice, maxPrice, condition, merchantId, None, None, None, None, None)
  }

  /** `SellerDetail`: one offer parsed from the real-time offer listing. */
  datatype Offer = Offer(
    merchantId: string,
    price: Amount,
    shippingCost: Amount,
    condition: Condition,
    offeringId: string,
    atcForm: AtcForm,
    itemId: string)

  /** What the page's DOM holds for one `aod-sticky-pinned-offer` or
      `aod-offer` block; each field is the first matching element's text or
      value, `None` when the XPath finds nothing. */
  datatype OfferBlock = OfferBlock(
    merchantInput: Option<string>,   // ftSelectMerchant / ddmSelectMerchant input
    scriptText: Option<string>,      // first <script>
    priceText: Option<string>,       // first span.a-price-whole
    heading: Option<string>,         // first aod-offer-heading/h5
    offeringId: Option<string>,      // first input named offeringID.1
    postAction: Option<string>,      // first form with method post
    formInputs: seq<FormInput>)      // every input under a form

  /** The collaborators from `common.amazon_support` and `price_parser`. */
  datatype Support = Support(
    conditionNames: set<string>,                // members of AmazonItemCondition
    conditionFromHeading: string -> Condition,  // AmazonItemCondition.from_str
    parsePrice: string -> Amount,               // parse_price(...).amount
    shippingCost: OfferBlock -> Amount,         // get_shipping_costs(...).amount
    conditionCheck: (Item, Offer) -> bool,
    priceCheck: (Item, Offer) -> bool,
    merchantCheck: (Item, Offer) -> bool)

  /** `parse_condition`: `AmazonItemCondition[name]`, which raises `KeyError`
      (here `None`) for a name that is not a member. */
  function ParseCondition(sup: Support, name: string): (r: Option<Condition>)
    ensures r.Some? <==> name in sup.conditionNames
    ensures r.Some? ==> r.value.name == name
  {
    if name in sup.conditionNames then Some(Condition(name)) else None
  }
}
