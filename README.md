# fairgame's Amazon checkout-race engine, modelled in Dafny

This project models the core of `stores/amazon_requests.py`, the Amazon store
handler of fairgame. Stripped of Selenium, HTTP and file I/O, that core is a
set of small, sequential rules. They are:

- expanding the config's `items` entries into tracked items (`parse_items`);
- verifying each tracked item against its product page, with the cached-item
  overlay, the `short_name` truncation and the purge of dead items (`verify`);
- parsing the real-time offer listing into seller offers (`get_item_sellers`)
  and choosing the first one that passes the hurdles (`free_shipping_check`,
  `find_qualified_seller`);
- rotating the proxy session pool (`session_stock_check`), and warming the
  next proxy in the hunt loop;
- the turbo checkout protocol (`turbo_initiate`, `turbo_checkout`,
  `do_turbo_checkout`), and its fan-out over proxies
  (`attempt_turbo_checkout`);
- the legacy cart protocol's payload builders (`atc`, `ptc`, `pyo`);
- the hunt loop's bookkeeping (`run`): the item-list updates, the check
  counter, the spinner and the shuffle between passes;
- the small helpers: header-line splitting, the cookie filter,
  `get_prefs`, `join_xpaths`, `get_timestamp_filename`, `parse_condition`.

Server replies, DOM lookups and the `common.amazon_support` checks are
inputs. A reply is a `Reply` value, or a `nat -> …` function giving attempt
`k`'s reply. A page is an abstract datatype holding what the XPath queries
would find. The support checks are the arrow fields of a `Support` value.
`random.shuffle` is an arbitrary permutation, chosen with `:|`.

Layout, one module per file:

| file | module | what |
|---|---|---|
| `wrappers.dfy` | `Wrappers` | `Option` |
| `text.dfy` | `Text` | `str.strip`, `str.find`, `str.split`, `str.join` (and so `join_xpaths`), zero padding |
| `patterns.dfy` | `Patterns` | the four `re.search` patterns, matched in Python's backtracking order |
| `support.dfy` | `AmazonSupport` | `FGItem`, `SellerDetail`, conditions, offer blocks, the support checks |
| `offers.dfy` | `Offers` | `get_item_sellers`, `free_shipping_check`, `find_qualified_seller` |
| `checkout.dfy` | `Checkout` | turbo protocol, proxy fan-out order, `atc`/`ptc`/`pyo` |
| `startup.dfy` | `Startup` | `parse_items`, headers, cookies, prefs, file names |
| `verification.dfy` | `Verification` | the per-item rules of `verify`, `list.remove` |
| `handler.dfy` | `Handler` | the `AmazonStoreHandler` class and the hunt-loop specification |

The handler is a class. Its fields are the item list, the proxies, the two
session lists, the 503 counter and the settings. Its methods change those
fields the way the source does. Each method is proved against a
specification function of the old state, and the properties are proved as
lemmas about those functions.

The specification of a pass, `Handler.HuntRun`, folds a step function over
the recorded checks. `Handler.StepsAs` says that the step is `HuntStep` for
the world and settings at hand. `HuntPass` and `PassStep` take that step as
a ghost parameter, and `Handler.Checks` builds it. In the same way
`Handler.TriesAs` says which checks reach a turbo attempt (`TurboTried`), and
`Handler.Tries` builds that ghost parameter.

Some behaviour is modelled as the code is written:

- The hunt loop iterates over the live list. Removing a bought item makes
  the iterator skip the item that followed it (`Handler.PurchaseSkipsNextItem`).
- In `get_item_sellers`, the CAPTCHA branch of a 503 names an undefined
  `session` (line 961). The resulting `NameError` leaves `run`
  (`Offers.SellerScan.CaptchaNameError`, `Handler.CheckResult.Crashed`). The
  503 counter has already been bumped by then.
- A 503 always yields no offers, even after a CAPTCHA was solved.
- `attempt_turbo_checkout` shuffles `self.proxies` itself, because
  `proxies = self.proxies` makes the two names alias.
- The last-used-proxy filter drops every copy of that proxy.
- An item without an offer URL (`furl`), which `verify` leaves in the list
  after an empty response, raises `AttributeError` when it is polled.
- `self.shuffle` is set to `True` in `__init__` and never changed, so the
  list is always shuffled after a pass that did not raise.

## Model

| member | source | states |
|---|---|---|
| Offers.FreeShippingCheck | stores/amazon_requests.py:101-105 | true exactly when the shipping amount is at most 0 |
| Offers.BlockOffer | stores/amazon_requests.py:1008-1067 | a block yields an offer exactly when it has a price, an offering id and a post form. The offer carries the item's id, the block's offering id, its form, the parsed stripped price and the block's shipping cost. The merchant id is `BlockMerchantId`'s. The condition comes from the stripped heading, and is `Unknown` without a heading |
| Offers.FoundAsin | stores/amazon_requests.py:974-987 | the stripped value of the `ftSelectAsin` input; the "no ASINS" marker for an input without a value; without the input, the fallback regex's ASIN over the raw payload, else the "no ASIN" marker |
| Offers.BlockMerchantId | stores/amazon_requests.py:1010-1027 | the merchant input's value; without it, the `merchantId` group of the stripped first script; otherwise `""` |
| Offers.ParseBlocks | stores/amazon_requests.py:1005-1067 | never more offers than blocks |
| Offers.ParseBlocksAppend | stores/amazon_requests.py:1005-1067 | the offers of two block lists are the first list's offers followed by the second's, so offers come out in page order |
| Offers.ParseBlocksSingle | stores/amazon_requests.py:1008-1067 | one block yields exactly its offer when actionable, and nothing otherwise |
| Offers.ParseBlocksExact | stores/amazon_requests.py:1008-1067 | every offer comes from an actionable block of the page and belongs to the item; every actionable block yields its offer (order and multiplicity follow from `ParseBlocksAppend` and `ParseBlocksSingle`) |
| Offers.GetItemSellers | stores/amazon_requests.py:936-1067 | nothing exactly on an empty payload. The counter is bumped exactly on a 503 with a payload; the CAPTCHA `NameError` happens exactly on a 503 page with a CAPTCHA form. Offers are yielded exactly when the status is not 503 and the page's ASIN equals the item's id, and they are `ParseBlocks` of the page's blocks. A mismatch reports the ASIN found |
| Offers.NoOffersUnlessMatching | stores/amazon_requests.py:948-993 | a 503 or an ASIN mismatch yields no offers, whatever blocks the page holds |
| Offers.FirstQualified | stores/amazon_requests.py:729-745 | `None` exactly when no offer passes every hurdle; otherwise an offer of the list that passes them all |
| Offers.FirstQualifiedIsFirst | stores/amazon_requests.py:729-745 | the offer at the first passing position is the one returned |
| Offers.FirstMatchIgnoresLater | stores/amazon_requests.py:743-745 | first match wins: a failing offer followed by two passing ones gives the first passing one |
| Offers.FindQualifiedSeller | stores/amazon_requests.py:728-745 | raises exactly on the CAPTCHA `NameError`. When offers were parsed, the seller is `FirstQualified` of them: qualified exactly when some offer passes, and then the first passing one in parse order; no seller means none passes. Without parsed offers there is no seller. A returned seller belongs to the item and never comes from a 503 |
| Patterns.LineGroup | stores/amazon_requests.py:1135-1141 | the group of `pid=(.*?)&amp;` and of the csrf pattern (`PidMatch`, `CsrfMatch`) never contains a newline (`.` without DOTALL); which group it is is stated by `LazySearchLeftmost` |
| Patterns.PidFound | stores/amazon_requests.py:1135-1137 | a body containing `pid=…&amp;` on one line yields a pid |
| Patterns.CsrfFound | stores/amazon_requests.py:1139-1141 | a body containing the token markup on one line yields a token |
| Patterns.MerchantIdMatch | stores/amazon_requests.py:1016-1020 | a merchant id is a non-empty run of word characters; which group it is is stated by `LazySearchLeftmost` |
| Patterns.AsinSearchFrom | stores/amazon_requests.py:982-985 | a fallback ASIN is a non-empty run of `[A-Z0-9]`; which run is stated by `AsinSearchLeftmost` |
| Patterns.AsinSearchFinds | stores/amazon_requests.py:983-985 | `asin` directly followed by an ASIN character is always found |
| Patterns.AsinSearchNeedsKeyword | stores/amazon_requests.py:983-987 | without an occurrence of `asin`, the fallback finds nothing |
| Patterns.AsinSearchLeftmost | stores/amazon_requests.py:982-985 | the scan returns the ASIN group of the leftmost position where a match starts |
| Patterns.AsinSearchNone | stores/amazon_requests.py:982-985 | without a position where a match starts, the scan finds nothing |
| Patterns.LazySearchFinds | stores/amazon_requests.py:1135-1141 | a lazy group succeeds whenever the text holds the prefix, an allowed group and the suffix |
| Patterns.LazySearchFrom | stores/amazon_requests.py:1135-1141 | a group it returns is at least the minimum length and holds allowed characters only |
| Patterns.LazyEnd | stores/amazon_requests.py:1135-1141 | the lazy group ends at the first suffix occurrence after its minimum length, and spans only allowed characters |
| Patterns.LazySearchLeftmost | stores/amazon_requests.py:1135-1141 | the search returns the group of the leftmost position where a match starts: the text between the prefix and the suffix the lazy group first reaches |
| Patterns.LazySearchNone | stores/amazon_requests.py:1135-1141 | without a position where a match starts, the search finds nothing |
| Text.Strip | stores/amazon_requests.py:897-899 | the result is a slice of the input with no space at either end, and everything cut off on either side is white space |
| Text.StripIdempotent | stores/amazon_requests.py:897-899 | stripping twice equals stripping once |
| Text.Split | stores/amazon_requests.py:805 | at least one piece, and no piece contains the separator |
| Text.SplitOnCharPieces | stores/amazon_requests.py:805 | no piece of a split on one character contains that character |
| Text.SplitPieces | stores/amazon_requests.py:567-568 | more than one piece exactly when the separator occurs |
| Text.JoinSplit | stores/amazon_requests.py:1654-1655 | `join_xpaths`' `separator.join` undoes a split on the same separator: joining the pieces gives back the original string |
| Text.SplitJoin | stores/amazon_requests.py:805 | splitting on one character undoes joining with it, when no piece contains it |
| AmazonSupport.NewItem | stores/amazon_requests.py:806-815 | a new item holds the ASIN and the constraints, and no catalogue facts yet |
| AmazonSupport.ParseCondition | stores/amazon_requests.py:1563-1564 | a condition exactly for a member name (else `KeyError`), of that name |
| Startup.AsinsOf | stores/amazon_requests.py:799-806 | a list of ASINs is taken as it is. A bare ASIN string gives at least one ASIN, none containing ",", and the ASINs joined by "," give back the string |
| Startup.ExpandEntry | stores/amazon_requests.py:771-819 | an incomplete entry is skipped; an unknown condition raises. Otherwise there is one item per ASIN, in order, with the entry's prices, condition `New` and merchant `any` unless given, and no name |
| Startup.ParsedItemsStopped | stores/amazon_requests.py:787-789 | once an entry raised, later entries add nothing |
| Startup.ParsedItemsIds | stores/amazon_requests.py:806-815 | entries that all expand add exactly as many items as they hold ASINs |
| Handler.AmazonStoreHandler.TrackEntry | stores/amazon_requests.py:806-815 | appends exactly the entry's items, one per ASIN in order, and changes nothing else |
| Handler.AmazonStoreHandler.ParseItems | stores/amazon_requests.py:770-819 | appends exactly the parsed items to the list; the error result comes from the entry that raised |
| Startup.HeaderEntry | stores/amazon_requests.py:567-568 | a line yields an entry exactly when it contains ": " |
| Startup.HeaderEntryParts | stores/amazon_requests.py:567-568 | the key is the text before the first ": " and the value runs to the next one; neither contains ": " |
| Startup.HeaderDict | stores/amazon_requests.py:565-568 | succeeds exactly when every line splits, and then builds the dict line by line |
| Startup.HeadersFromDefined | stores/amazon_requests.py:565-568 | the dict is built exactly when every line has an entry |
| Startup.HeadersFromKeys | stores/amazon_requests.py:565-568 | the dict's keys are exactly the keys of the lines |
| Startup.HeadersFromLastWins | stores/amazon_requests.py:567-568 | a key takes the value of the last line that carries it |
| Startup.CookieJar | stores/amazon_requests.py:473-478 | only the five checkout cookie names are kept, unless all cookies are asked for; every kept cookie's name is present, and nothing else |
| Startup.CookieJarLastWins | stores/amazon_requests.py:476-478 | a name keeps the value of the last cookie that carries it |
| Startup.CheckoutCookies | stores/amazon_requests.py:471-480 | the loop builds exactly the filtered jar |
| Startup.GetPrefs | stores/amazon_requests.py:1612-1621 | exactly three keys: both password settings off, images 2 when blocked and 0 otherwise |
| Startup.Stamp | stores/amazon_requests.py:1661-1662 | the stamp is 19 characters: the zero-padded month, "-", day, "-", four-digit year, "_", hour, "_", minute, "_", second, each at its fixed position |
| Startup.StampReadsBack | stores/amazon_requests.py:1661-1662 | reading the stamp's digit fields back gives the month, day, year, hour, minute and second it was made from |
| Text.Pad2 | stores/amazon_requests.py:1661-1662 | two decimal digits whose value is the number |
| Text.Pad4 | stores/amazon_requests.py:1661-1662 | four decimal digits whose value is the number |
| Startup.TimestampFilename | stores/amazon_requests.py:1658-1666 | the root, "_" and the stamp, then a "." unless the extension starts with one, then the extension |
| Verification.ShortName | stores/amazon_requests.py:898-902 | at most 43 characters. A name of at most 40 is kept; a longer one becomes its stripped first 40 characters followed by "..." |
| Verification.ReadPage | stores/amazon_requests.py:895-918 | titled exactly when a title exists, named after the stripped title. Without a title: the dog page when the dog image is there, untitled otherwise |
| Verification.ClassifyPage | stores/amazon_requests.py:862-923 | no response exactly on an empty response. Not found exactly when the status after any 503 CAPTCHA solve is not 200. Unsolved exactly when a 200 page's CAPTCHA solve does not give 200. Otherwise the page read is the one after the 503 solve, or the solved page of a 200 CAPTCHA |
| Verification.PurgeRule | stores/amazon_requests.py:908-923 | purged exactly on a non-200 final status or a dog page without a title |
| Verification.VerifyItem | stores/amazon_requests.py:837-923 | the item keeps its constraints and gets its product URL. The cache gains at most this item, and every entry under another ASIN stays as it was. Verified exactly on a cache hit or a titled page; purged exactly on a dead end without a cache hit; never both |
| Verification.VerifyItemFacts | stores/amazon_requests.py:837-923 | over a cache keyed by ASIN, the item keeps its ASIN, the cache stays keyed, and a verified item is what the cache holds for its ASIN |
| Verification.CacheHitKeepsFacts | stores/amazon_requests.py:840-854 | a cache hit keeps the cached name, short name, offer URL and status, and is verified |
| Verification.TitledItemNamed | stores/amazon_requests.py:878-905 | a freshly titled item is named after its title, has that title's `ShortName` (so at most 43 characters), and has its offer URL |
| Verification.VerifyLoop | stores/amazon_requests.py:837-923 | the loop keeps the list's length and leaves positions it has not reached untouched |
| Verification.VerifyLoopKeepsOthers | stores/amazon_requests.py:837-905 | a cache entry whose ASIN is not that of any item the loop has reached comes out of the loop unchanged |
| Verification.PurgeListInList | stores/amazon_requests.py:914-927 | every purged item is still in the list when the purge runs, once per entry |
| Verification.RemoveFirst | stores/amazon_requests.py:927 | `list.remove` of a value the list holds drops its first copy, shortening the list by one. Where the value is absent Python raises `ValueError`; that case is never reached (`PurgeListInList` shows every purged item is present at line 927, and `AfterCheck` removes the item it has just checked), so the model's fallback of returning the list unchanged is never used |
| Verification.RemoveFirstMultiset | stores/amazon_requests.py:927 | `list.remove` takes out exactly one copy of a present value |
| Verification.RemoveFirstSplits | stores/amazon_requests.py:619 | removing the first copy keeps the order of the other items |
| Verification.RemoveEachExact | stores/amazon_requests.py:926-927 | removing present items one by one takes out exactly those items |
| Handler.AmazonStoreHandler.VerifyPositions | stores/amazon_requests.py:837-923 | the first loop of `verify` ends in exactly the state of the loop specification |
| Handler.AmazonStoreHandler.RemovePurged | stores/amazon_requests.py:926-927 | the purge loop removes each purged item in turn |
| Handler.AmazonStoreHandler.Verify | stores/amazon_requests.py:821-934 | the list afterwards is the looped list minus exactly the purged items; it returns the cache to store and the verified count |
| Checkout.InitiatePayload | stores/amazon_requests.py:1116-1123 | the offer listing and a quantity of one; the ASIN only when one is given |
| Checkout.InitiateFromShape | stores/amazon_requests.py:1129-1150 | the retry loop from any attempt on: how many POSTs, when it stops, how many snapshots, and when it ends with a token; the pid it returns is stated by `InitiateFromPid` |
| Checkout.InitiateShape | stores/amazon_requests.py:1129-1150 | 1 to 3 POSTs. It stops early only on a non-200 or on a body with the csrf token; every attempt before the last was a token-less 200. One snapshot per attempt except a stopping one. A token exactly when the last reply was a 200 carrying it |
| Checkout.InitiateFromPid | stores/amazon_requests.py:1129-1150 | the pid returned is the `pid=(.*?)&amp;` group of the last reply read that was a 200 with a non-empty body carrying one; when no reply read carried one, it is the pid the loop started with (`None` for `turbo_initiate`) |
| Checkout.ThirdAttemptSucceeds | stores/amazon_requests.py:1129-1150 | two token-less 200s and then a reply with both tokens: three POSTs, two snapshots, both tokens |
| Checkout.TurboInitiate | stores/amazon_requests.py:1105-1150 | the loop computes exactly the retry specification |
| Checkout.TurboCheckoutRule | stores/amazon_requests.py:1152-1181 | outside test mode, success exactly on 200 or 500; in test mode, success whatever the reply |
| Checkout.TurboCheckout | stores/amazon_requests.py:1152-1181 | outside test mode, success exactly on 200 or 500; in test mode, success |
| Checkout.TurboOutcomeRule | stores/amazon_requests.py:1069-1075 | success exactly when both tokens came back and the place-order rule accepts. The order is placed only then and never in test mode. The snapshots are those of initiation plus one for the saved place-order response |
| Checkout.DoTurboCheckout | stores/amazon_requests.py:1069-1075 | computes exactly the turbo outcome |
| Checkout.Without | stores/amazon_requests.py:1090 | drops every copy of the last-used proxy and keeps every other proxy's multiplicity |
| Checkout.WithoutLength | stores/amazon_requests.py:1090 | the filter drops exactly the copies of the last-used proxy |
| Checkout.WithoutKeepsOrder | stores/amazon_requests.py:1090 | the filter keeps the order of the proxies it keeps |
| Checkout.ProxyOrderLastUsedFirst | stores/amazon_requests.py:1087-1091 | the last-used proxy comes first, exactly once, followed by the other proxies in shuffled order |
| Checkout.CheckoutRoutes | stores/amazon_requests.py:1079-1093 | the primary session first. With proxies and proxy checkout on, then one route per proxy in `ProxyOrder`; otherwise the primary session alone |
| Checkout.RouteCount | stores/amazon_requests.py:1082-1093 | the number of routes does not depend on how the proxies were shuffled |
| Checkout.FirstSuccess | stores/amazon_requests.py:1079-1101 | a route it names is in range and succeeds |
| Checkout.FirstSuccessIsFirst | stores/amazon_requests.py:1079-1101 | no route before the one it names succeeds, and when it names none, no route succeeds |
| Checkout.TryRoute | stores/amazon_requests.py:1100-1101 | one route's `do_turbo_checkout` succeeds exactly when that attempt number's outcome does |
| Checkout.TryRoutes | stores/amazon_requests.py:1093-1101 | tries the routes from a given one on, in order, stops at the first success, and reports whether there was one |
| Handler.AmazonStoreHandler.AttemptTurboCheckout | stores/amazon_requests.py:1077-1103 | the primary session succeeds alone without touching the proxies. Without proxies or proxy checkout nothing is shuffled. Otherwise `self.proxies` is permuted in place and the routes are tried in fan-out order up to the first success. It succeeds exactly when one of the attempt's routes would succeed |
| Handler.AmazonStoreHandler.TurboRoutes | stores/amazon_requests.py:1079-1093 | an attempt has at least the primary route, and only it without proxies or proxy checkout |
| Handler.FirstSuccessPossible | stores/amazon_requests.py:1079-1101 | an attempt can succeed exactly when one of its routes would succeed |
| Handler.TryAfterPrimary | stores/amazon_requests.py:1082-1103 | after a failed primary attempt, the remaining routes give the first success of the whole list, and succeed exactly when the attempt can |
| Checkout.FormFields | stores/amazon_requests.py:1185-1187 | holds exactly the names of the form's inputs |
| Checkout.FormFieldsLastWins | stores/amazon_requests.py:1186-1187 | a name keeps the value of its last input |
| Checkout.AtcPayload | stores/amazon_requests.py:1185-1200 | the form fields, then `submit.addToCart`, then `session-id` |
| Checkout.Atc | stores/amazon_requests.py:1183-1212 | posts to the storefront plus the form's action, with exactly the form's keys plus the two added ones, and the session id; success exactly on 200 |
| Checkout.Ptc | stores/amazon_requests.py:1214-1227 | the page text exactly on a 200 with a non-empty body; nothing on a timeout |
| Checkout.FirstInputValue | stores/amazon_requests.py:1304 | the value of the first input with the name, if any |
| Checkout.PyoFillExact | stores/amazon_requests.py:1231-1308 | a key is set only from the template, the quantity key, or a configured key found on the page. Found keys take the page's value, the quantity key is "1", others keep the template value |
| Checkout.Pyo | stores/amazon_requests.py:1229-1316 | fills exactly the specified parameters; success exactly on 200 |
| Handler.ProxiesOf | stores/amazon_requests.py:211-219 | one proxy per session, in order |
| Handler.AmazonStoreHandler.constructor | stores/amazon_requests.py:203-228 | the proxy part of `__init__`: one session per proxy in shuffled order, exactly the first two warmed, and no used sessions. The settings are stored as given, with the 503 counter at zero and the item list empty as `__init__` starts them. `parse_config` fills the list afterwards; that part is `ParseItems` |
| Handler.AmazonStoreHandler.SessionStockCheck | stores/amazon_requests.py:238-255 | without proxies it uses the default session and changes no pool. Otherwise the front unused session moves to the end of the used list, refilled from the shuffled used list only when the unused list is empty. No session is lost or duplicated |
| Handler.AmazonStoreHandler.WarmNextProxy | stores/amazon_requests.py:663-671 | the second unused session gets cookies when it has none; nothing else changes |
| Handler.LastUsed | stores/amazon_requests.py:1087-1088 | the last used session's proxy, when there is one |
| Handler.CartVerdict | stores/amazon_requests.py:622-640 | the legacy chain buys exactly on add-to-cart 200, a checkout page and a 200 order outside test mode; in test mode it clears on reaching checkout |
| Handler.CheckVerdict | stores/amazon_requests.py:609-640 | a check raises exactly when the seller search raised. A purchase needs a qualified seller; in turbo mode it happens exactly when the turbo checkout succeeded |
| Handler.AfterCheck | stores/amazon_requests.py:611-640 | a purchase removes the first copy of the item, or clears the list in single-shot mode; a legacy test checkout clears it; otherwise the list is unchanged |
| Handler.PurchaseRemovesOne | stores/amazon_requests.py:617-619 | a purchase outside single-shot mode takes exactly one copy of the bought item off the list |
| Handler.HuntStep | stores/amazon_requests.py:605-660 | one check adds one result and one checked item. On success it moves both the iterator and the check number by one; a crash records `Crashed` and keeps the check number |
| Handler.PolledStep | stores/amazon_requests.py:609-660 | the checked item is recorded and one verdict added, the seller search's `CheckVerdict`. A crash exactly on a `Crashed` verdict keeps the position and the check number; otherwise both move on. The 503 count grows by one exactly when the scan counts a server error. A miss keeps the list with the item's new status; a purchase removes the item, or clears the list in single-shot mode; a legacy test checkout clears it |
| Handler.TurboHonestSnoc | stores/amazon_requests.py:612-615 | recording a check's turbo outcome keeps the record of turbo purchases honest |
| Handler.TurboHonestPrefix | stores/amazon_requests.py:612-615 | an honest record of the first checks stays honest when later checks are appended |
| Handler.TurboHonestAt | stores/amazon_requests.py:612-615 | a turbo purchase is recorded at a check exactly when the check reached a turbo attempt and one of that attempt's routes would succeed |
| Handler.HuntRunSnoc | stores/amazon_requests.py:604-660 | running one more check extends the run by exactly that check |
| Handler.SingleShotPurchaseEndsPass | stores/amazon_requests.py:616-617 | a single-shot purchase empties the list and ends the pass |
| Handler.FrontPurchaseShiftsList | stores/amazon_requests.py:618-619 | buying the front item removes it, and the iterator moves to position 1 of the shorter list |
| Handler.CheckedIsCurrent | stores/amazon_requests.py:605-609 | a check is about the item at the iterator's position, with its new status |
| Handler.PurchaseSkipsNextItem | stores/amazon_requests.py:605-619 | after the front item is bought, the next check is about the item that was third |
| Handler.MissKeepsList | stores/amazon_requests.py:605-660 | a check that buys nothing keeps the list, with the checked item carrying the poll's status, and moves the iterator and the check number on by one |
| Handler.HuntNeverGrows | stores/amazon_requests.py:605-640 | the list never grows during a pass |
| Handler.NextSpinner | stores/amazon_requests.py:657-660 | the spinner index advances by one modulo 4 |
| Handler.AmazonStoreHandler.Poll | stores/amazon_requests.py:1318-1339 | rotates the pool as `session_stock_check` does: the default session without proxies, else the front unused session moves to the used list, refilled from the used list when the unused one is empty. The poll's status is stored on the item |
| Handler.AmazonStoreHandler.Settle | stores/amazon_requests.py:611-640 | the list after the check's verdict |
| Handler.AmazonStoreHandler.Purchase | stores/amazon_requests.py:611-640 | the checkout verdict of the mode's rules; a turbo purchase happens exactly in turbo mode, when one of the attempt's routes would succeed |
| Handler.AmazonStoreHandler.Decide | stores/amazon_requests.py:609-640 | the verdict of the seller search's outcome; a turbo purchase happens exactly in turbo mode with a qualified seller, when one of the attempt's routes would succeed |
| Handler.AmazonStoreHandler.CheckPolled | stores/amazon_requests.py:609-671 | after the poll, the check ends in the state the specification step gives: the list, the 503 count, one more result, and a crash exactly when the result is `Crashed`. A turbo purchase happens exactly in turbo mode with a qualified seller, when one of the attempt's routes would succeed |
| Handler.AmazonStoreHandler.CheckItem | stores/amazon_requests.py:605-671 | one check ends in exactly the state of the specification step; its turbo purchase happens exactly when the check reached a turbo attempt and one of its routes would succeed |
| Handler.AmazonStoreHandler.PassStep | stores/amazon_requests.py:605-671 | one check keeps the pass on the specification run: it is either still running at the next position or has crashed. The list never grows, and the record of turbo purchases stays honest, taken over each check's own route count. That count is exactly `TurboRoutes()` at `CheckItem`. At this level it is pinned only through that step, so it is not a separately constrained quantity |
| Handler.AmazonStoreHandler.HuntPass | stores/amazon_requests.py:604-679 | a pass runs checks until it halts, and ends in the state of the specification run of `HuntStep` (given as the ghost `step`): results, 503 count and check number. The list is shuffled unless the pass crashed. The spinner shows `(count - 1) % 4`. A turbo purchase is recorded exactly at the checks that reached a turbo attempt one of whose routes would succeed. The ghost `counts[k]` is check `k`'s own route count, exact at `CheckItem`. At pass level it is bounded only by `RouteCounts` (at least 1, and exactly 1 without proxies or proxy checkout) |

## Left out

- Selenium: login, 2FA, the browser helpers and creating the driver are a foreign driver's UI. They are not part of this model, and neither is reading cookies and headers from the browser; those arrive as inputs (`Cookie` values, header lines).
- CAPTCHA solving (`solve_captcha`, `AmazonCaptcha`) is a foreign solver. What a solve returns is an input (`PdpExchange.solve503`, `solve200`).
- HTTP: `requests` sessions, `get_html` and its exception handling. Replies are inputs, and which session sends a request appears only as a route or a pool entry.
- Raising requests: the `turbo_initiate` POST (line 1132), the `turbo_checkout` POST (line 1167), the `atc` POST (line 1202) and the `pyo` POST (line 1311) have no handler, and the `ptc` GET (lines 1216-1219) catches only a timeout. A `ConnectionError` or `ProxyError` from any of them would leave `attempt_turbo_checkout` and `run`, ending the hunt. The model assumes every one of these requests returns a reply. So `TryRoutes` always goes on to the next route, and `Ptc`'s `None` stands for the timeout only.
- Session contents are not modelled: headers, cookies updated into a session, `strikes`, and per-proxy session copies. A session is its proxy plus a warmed flag. Warming assumes one GET gives a session cookies.
- Missing lxml attributes: `.value`, `.action` and `.name` give `None` for an element without the attribute, and the source uses that `None` unchecked. This can happen for the merchant input's value (line 1012), the `offeringID.1` input's value (line 1046, so an offer with a `None` offering id is yielded), the post form's action (line 1052, so `atc` posts to `https://<domain>None` at line 1196), an add-to-cart input's name and value (line 1187, giving a `None: None` pair), and a `pyo` input's value (line 1304, a key that `requests` then drops from the POST). The model assumes all these attributes are present. The exception is `ftSelectAsin`'s value, which `FoundAsin` models. So `BlockOffer`'s offering id is never missing, and `FormInput` always has a name and a value.
- lxml and XPath evaluation are foreign. Pages are datatypes holding what each query finds. `pyo`'s quantity label without a `for` attribute (key `None`) is folded into "no label".
- `price_parser` and `get_shipping_costs`. Amounts are `real`.
- `condition_check`, `price_check`, `merchant_check` and `AmazonItemCondition.from_str` are uninterpreted functions. `common.amazon_support` is not part of this model.
- File I/O: the pickle cache, the proxy JSON, config loading and the response snapshots. The cache is a map parameter and result; snapshots are a counter: one `save_request_response` per initiation attempt that goes on, plus the place-order `save_html_response`.
- Time: `time.sleep`, `time.time`, `perf_counter`, the log lines and the error percentage (a float).
- `UserAgent` and `secrets.token_urlsafe`. The `anticache` argument added to the offer URL is not modelled.
- `FGItem` object identity: `verify` puts the cached object itself into the list, so two positions with one ASIN share one object. `list.remove` compares objects. The model uses values, so removal drops the first equal value, and in-place field updates are not shared between aliases.
- Element text of `None` (an `AttributeError` in `.text.strip()`), data of `None` with a truthy status, and an empty body with a truthy status (lxml's `ParserError` in `html.fromstring`): all are assumed not to occur; such a page is read like any other.
- `splitlines` is not modelled: the header lines are an input.
- Python's `\w` is restricted to ASCII word characters; `\s` and `str.strip` use the full `str.isspace` set.
- `%Y` for years below 1000: `ValidMoment` requires a four-digit year.
- The outer `while self.item_list` loop runs passes forever. One pass is modelled (`HuntPass`), and a pass starts wherever the last one left the counters.
- `run_offer_id`, `min_total_price`, `new_first`, the psutil clean-up and `stores/best_buy_handler.py` (an inert stub) are outside the core.
- Verification.VerifyLoop: its contract states only the length and the untouched suffix; what each position becomes is stated by `VerifyItemFacts` about each step, and what the cache keeps by `VerifyLoopKeepsOthers`.
- Offers.ParseBlocks: its contract bounds the length only; what it yields, in order, is stated by `ParseBlocksAppend`, `ParseBlocksSingle` and `ParseBlocksExact`.
- Patterns.LineGroup: its contract gives the group's shape only; which group it is, for the pid and the csrf pattern alike, is stated by `LazySearchLeftmost` and `LazySearchNone` about the search it runs.
- Patterns.MerchantIdMatch: its contract gives the group's shape only; which group is stated by `LazySearchLeftmost` and `LazySearchNone`.
- Patterns.AsinSearchFrom: its contract gives the group's shape only; which run is stated by `AsinSearchLeftmost` and `AsinSearchNone`.
- Handler.HuntStep: its contract states the bookkeeping only; the list update is stated by `AfterCheck`, `FrontPurchaseShiftsList`, `MissKeepsList` and `HuntNeverGrows`.
- Handler.AmazonStoreHandler.HuntPass: after a pass that did not crash, the list is equal to the specification's list only as a multiset, because of the shuffle.
