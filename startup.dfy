/** What the handler derives from its configuration and from the browser at
    start-up: tracked items from the config's `items` entries, the header
    dict copied from the browser, the cookies handed to the HTTP sessions,
    the browser preferences, and the small string helpers of the module. */
module Startup {
  import opened Wrappers
  import opened Text
  import opened AmazonSupport

  // ---------------------------------------------------------------- items

  /** A `max-price` / `min-price` value: a string for `parse_price`, or a number. */
  datatype PriceSpec = PriceText(text: string) | PriceNumber(amount: Amount)

  /** An `asins` value: the expected list, or a bare comma-separated string. */
  datatype AsinsSpec = AsinText(text: string) | AsinList(asins: seq<string>)

  /** One JSON object of the config's `items` list; `None` is an absent key. */
  datatype ConfigEntry = ConfigEntry(
    maxPrice: Option<PriceSpec>,
    minPrice: Option<PriceSpec>,
    asins: Option<AsinsSpec>,
    condition: Option<string>,
    merchantId: Option<string>)

  /** An entry is used only when it has `max-price`, `asins` and `min-price`. */
  predicate FullyQualified(e: ConfigEntry)
  {
    e.maxPrice.Some? && e.asins.Some? && e.minPrice.Some?
  }

  /** The amount of a price value. */
  function PriceOf(sup: Support, p: PriceSpec): Amount
  {
    match p
    case PriceText(t) => sup.parsePrice(t)
    case PriceNumber(a) => a
  }

  /** The ASINs of an entry: a bare string is split on every comma into
      comma-free pieces that join back to it; a list is taken as it is. */
  function AsinsOf(a: AsinsSpec): (asins: seq<string>)
    ensures a.AsinText? ==> |asins| >= 1 && Join(asins, ",") == a.text
    ensures a.AsinText? ==> forall k :: 0 <= k < |asins| ==> ',' !in asins[k]
    ensures a.AsinList? ==> asins == a.asins
  {
    match a
    case AsinText(t) => JoinSplit(t, ","); SplitOnCharPieces(t, ','); Split(t, ",")
    case AsinList(xs) => xs
  }

  /** How one entry expands. */
  datatype Expansion = Skipped | BadCondition | Tracked(items: seq<Item>)

  /** The items one config entry contributes: one per ASIN, in order, with
      condition `New` and merchant `any` unless the entry names them; an
      incomplete entry contributes nothing, and an unknown condition name
      raises (`BadCondition`). */
  function ExpandEntry(e: ConfigEntry, sup: Support): (r: Expansion)
    ensures r.Skipped? <==> !FullyQualified(e)
    ensures r.BadCondition? <==> FullyQualified(e) && e.condition.Some? && e.condition.value !in sup.conditionNames
    ensures r.Tracked? ==> |r.items| == |AsinsOf(e.asins.value)|
    ensures r.Tracked? ==> forall k :: 0 <= k < |r.items| ==>
              && r.items[k].id == AsinsOf(e.asins.value)[k]
              && r.items[k].minPrice == PriceOf(sup, e.minPrice.value)
              && r.items[k].maxPrice == PriceOf(sup, e.maxPrice.value)
              && r.items[k].condition == (if e.condition.Some? then Condition(e.condition.value) else New)
              && r.items[k].merchantId == e.merchantId.GetOr("any")
              && r.items[k].name.None?
  {
    if !FullyQualified(e) then Skipped
    else
      var condition := if e.condition.Some? then ParseCondition(sup, e.condition.value) else Some(New);
      if condition.None? then BadCondition
      else
        var asins := AsinsOf(e.asins.value);
        var minPrice := PriceOf(sup, e.minPrice.value);
        var maxPrice := PriceOf(sup, e.maxPrice.value);
        var merchant := e.merchantId.GetOr("any");
        Tracked(seq(|asins|, k requires 0 <= k < |asins| => NewItem(asins[k], minPrice, maxPrice, condition.value, merchant)))
  }

  /** The items `parse_items` appends for the first `n` entries, and whether
      it got that far without raising. */
  function ParsedItems(entries: seq<ConfigEntry>, n: nat, sup: Support): (r: (seq<Item>, bool))
    requires n <= |entries|
  {
    if n == 0 then ([], true)
    else
      var (items, ok) := ParsedItems(entries, n - 1, sup);
      if !ok then (items, false)
      else
        match ExpandEntry(entries[n - 1], sup)
        case Skipped => (items, true)
        case BadCondition => (items, false)
        case Tracked(more) => (items + more, true)
  }

  /** One more entry, after entries that did not raise, adds its expansion. */
  lemma ParsedItemsNext(entries: seq<ConfigEntry>, n: nat, sup: Support)
    requires n < |entries| && ParsedItems(entries, n, sup).1
    ensures var x := ExpandEntry(entries[n], sup);
      ParsedItems(entries, n + 1, sup)
      == match x
         case Skipped => (ParsedItems(entries, n, sup).0, true)
         case BadCondition => (ParsedItems(entries, n, sup).0, false)
         case Tracked(more) => (ParsedItems(entries, n, sup).0 + more, true)
  {
  }

  /** Once an entry raised, later entries change nothing. */
  lemma {:induction false} ParsedItemsStopped(entries: seq<ConfigEntry>, n: nat, m: nat, sup: Support)
    requires n <= m <= |entries| && !ParsedItems(entries, n, sup).1
    decreases m - n
    ensures ParsedItems(entries, m, sup) == ParsedItems(entries, n, sup)
  {
    if n < m {
      ParsedItemsStopped(entries, n, m - 1, sup);
    }
  }

  /** Entries that are all fully qualified with known conditions contribute
      exactly their ASINs, in order. */
  lemma {:induction false} ParsedItemsIds(entries: seq<ConfigEntry>, n: nat, sup: Support)
    requires n <= |entries|
    requires forall k :: 0 <= k < n ==> ExpandEntry(entries[k], sup).Tracked?
    ensures ParsedItems(entries, n, sup).1
    ensures |ParsedItems(entries, n, sup).0| == AsinCount(entries, n)
  {
    if n > 0 {
      ParsedItemsIds(entries, n - 1, sup);
    }
  }

  /** Total number of ASINs in the first `n` entries. */
  function AsinCount(entries: seq<ConfigEntry>, n: nat): nat
    requires n <= |entries|
  {
    if n == 0 then 0
    else
      AsinCount(entries, n - 1) + match entries[n - 1].asins
        case Some(a) => |AsinsOf(a)|
        case None => 0
  }

  /** Incomplete entries never add anything. */
  lemma SkippedAddsNothing(entries: seq<ConfigEntry>, n: nat, sup: Support)
    requires n < |entries| && !FullyQualified(entries[n])
    ensures ParsedItems(entries, n + 1, sup) == ParsedItems(entries, n, sup)
  {
  }

  // ---------------------------------------------------------------- headers

  /** `h.split(": ")[0]` and `h.split(": ")[1]`; `None` where indexing `[1]`
      raises because the line holds no `": "`. */
  function HeaderEntry(line: string): (r: Option<(string, string)>)
    ensures r.None? <==> IndexFrom(line, ": ", 0).None?
  {
    var pieces := Split(line, ": ");
    SplitPieces(line, ": ");
    if |pieces| < 2 then None
    else Some((pieces[0], pieces[1]))
  }

  /** A header entry is the part of the line before its first `": "` and the
      part up to the next one: a value containing `": "` is cut short there. */
  lemma HeaderEntryParts(line: string)
    requires HeaderEntry(line).Some?
    ensures var (k, v) := HeaderEntry(line).value;
      && IndexFrom(k, ": ", 0).None? && IndexFrom(v, ": ", 0).None?
      && |k| + 2 + |v| <= |line| && line[..|k| + 2 + |v|] == k + ": " + v
  {
    var pieces := Split(line, ": ");
    JoinSplit(line, ": ");
    var rest := pieces[1..];
    assert Join(pieces, ": ") == pieces[0] + ": " + Join(rest, ": ");
    JoinHead(rest, ": ");
  }

  /** A join starts with its first piece. */
  lemma JoinHead(xs: seq<string>, sep: string)
    requires |xs| >= 1
    ensures |xs[0]| <= |Join(xs, sep)| && Join(xs, sep)[..|xs[0]|] == xs[0]
  {
  }

  /** The entries of the lines, one per line. */
  function HeaderEntries(lines: seq<string>): (es: seq<Option<(string, string)>>)
    ensures |es| == |lines| && forall k :: 0 <= k < |lines| ==> es[k] == HeaderEntry(lines[k])
  {
    seq(|lines|, k requires 0 <= k < |lines| => HeaderEntry(lines[k]))
  }

  /** The header dict built from the first `n` entries; a later entry
      overrides an earlier one, and a missing entry raises. */
  function HeadersFrom(es: seq<Option<(string, string)>>, n: nat): Option<map<string, string>>
    requires n <= |es|
  {
    if n == 0 then Some(map[])
    else
      match HeadersFrom(es, n - 1)
      case None => None
      case Some(m) =>
        match es[n - 1]
        case None => None
        case Some(kv) => Some(m[kv.0 := kv.1])
  }

  /** The dict is built exactly when every entry is present. */
  lemma {:induction false} HeadersFromDefined(es: seq<Option<(string, string)>>, n: nat)
    requires n <= |es|
    ensures HeadersFrom(es, n).Some? <==> forall i :: 0 <= i < n ==> es[i].Some?
  {
    if n > 0 {
      HeadersFromDefined(es, n - 1);
    }
  }

  /** The keys of the dict are exactly the keys of its entries. */
  lemma {:induction false} HeadersFromKeys(es: seq<Option<(string, string)>>, n: nat)
    requires n <= |es| && forall i :: 0 <= i < n ==> es[i].Some?
    ensures HeadersFrom(es, n).Some?
    ensures HeadersFrom(es, n).value.Keys == set i | 0 <= i < n :: es[i].value.0
  {
    HeadersFromDefined(es, n);
    if n > 0 {
      HeadersFromKeys(es, n - 1);
      var before := set i | 0 <= i < n - 1 :: es[i].value.0;
      var after := set i | 0 <= i < n :: es[i].value.0;
      assert after == before + {es[n - 1].value.0} by {
        forall key | key in after
          ensures key in before + {es[n - 1].value.0}
        {
          var i :| 0 <= i < n && es[i].value.0 == key;
          if i < n - 1 {
            assert key in before;
          }
        }
      }
    }
  }

  /** A key takes the value of the last entry that carries it. */
  lemma {:induction false} HeadersFromLastWins(es: seq<Option<(string, string)>>, n: nat, i: nat)
    requires i < n <= |es| && forall j :: 0 <= j < n ==> es[j].Some?
    requires forall j :: i < j < n ==> es[j].value.0 != es[i].value.0
    ensures HeadersFrom(es, n).Some?
    ensures var (key, value) := es[i].value;
      key in HeadersFrom(es, n).value && HeadersFrom(es, n).value[key] == value
  {
    HeadersFromDefined(es, n);
    if i < n - 1 {
      HeadersFromLastWins(es, n - 1, i);
    }
  }

  /** The header loop of `run`: every line must split on `": "`, otherwise it
      raises and no dict results. */
  method HeaderDict(lines: seq<string>) returns (ok: bool, headers: map<string, string>)
    ensures ok <==> forall k :: 0 <= k < |lines| ==> HeaderEntry(lines[k]).Some?
    ensures ok ==> HeadersFrom(HeaderEntries(lines), |lines|) == Some(headers)
  {
    ghost var es := HeaderEntries(lines);
    ok, headers := true, map[];
    var i := 0;
    while i < |lines|
      invariant i <= |lines| && ok
      invariant forall k :: 0 <= k < i ==> HeaderEntry(lines[k]).Some?
      invariant HeadersFrom(es, i) == Some(headers)
    {
      var entry := HeaderEntry(lines[i]);
      if entry.None? {
        ok := false;
        break;
      }
      headers := headers[entry.value.0 := entry.value.1];
      i := i + 1;
    }
  }

  // ---------------------------------------------------------------- cookies

  /** A browser cookie. */
  datatype Cookie = Cookie(name: string, value: string)

  /** The cookies copied unless all cookies are requested. */
  const CheckoutCookieNames: set<string> := {"session-id", "ubid-main", "x-main", "at-main", "sess-at-main"}

  /** The first `n` browser cookies that pass the filter, as a dict; a later
      cookie of the same name overrides an earlier one. */
  function CookieJar(cookies: seq<Cookie>, allCookies: bool, n: nat): (jar: map<string, string>)
    requires n <= |cookies|
    ensures forall k :: k in jar ==> allCookies || k in CheckoutCookieNames
    ensures forall i :: 0 <= i < n && (allCookies || cookies[i].name in CheckoutCookieNames) ==> cookies[i].name in jar
    ensures forall k :: k in jar ==> exists i :: 0 <= i < n && cookies[i].name == k
  {
    if n == 0 then map[]
    else
      var jar := CookieJar(cookies, allCookies, n - 1);
      var c := cookies[n - 1];
      if allCookies || c.name in CheckoutCookieNames then jar[c.name := c.value] else jar
  }

  /** The value kept for a name is that of the last cookie carrying it. */
  lemma {:induction false} CookieJarLastWins(cookies: seq<Cookie>, allCookies: bool, n: nat, i: nat)
    requires i < n <= |cookies|
    requires allCookies || cookies[i].name in CheckoutCookieNames
    requires forall j :: i < j < n ==> cookies[j].name != cookies[i].name
    ensures CookieJar(cookies, allCookies, n)[cookies[i].name] == cookies[i].value
  {
    if i < n - 1 {
      CookieJarLastWins(cookies, allCookies, n - 1, i);
    }
  }

  /** The cookie loop of `transfer_selenium_cookies`. */
  method CheckoutCookies(cookies: seq<Cookie>, allCookies: bool) returns (jar: map<string, string>)
    ensures jar == CookieJar(cookies, allCookies, |cookies|)
  {
    jar := map[];
    for i := 0 to |cookies|
      invariant jar == CookieJar(cookies, allCookies, i)
    {
      var c := cookies[i];
      if allCookies || c.name in CheckoutCookieNames {
        jar := jar[c.name := c.value];
      }
    }
  }

  // ---------------------------------------------------------------- prefs

  /** A Chrome preference value. */
  datatype PrefValue = Flag(b: bool) | Setting(n: int)

  /** `get_prefs`: the password manager and credential service off, images
      blocked (2) or allowed (0). */
  function GetPrefs(noImage: bool): (prefs: map<string, PrefValue>)
    ensures prefs.Keys == {"profile.password_manager_enabled", "credentials_enable_service",
                           "profile.managed_default_content_settings.images"}
    ensures prefs["profile.password_manager_enabled"] == Flag(false)
    ensures prefs["credentials_enable_service"] == Flag(false)
    ensures prefs["profile.managed_default_content_settings.images"] == Setting(if noImage then 2 else 0)
  {
    var prefs := map["profile.password_manager_enabled" := Flag(false), "credentials_enable_service" := Flag(false)];
    if noImage then prefs["profile.managed_default_content_settings.images" := Setting(2)]
    else prefs["profile.managed_default_content_settings.images" := Setting(0)]
  }

  // ---------------------------------------------------------------- names

  /** `datetime.now()`, as its calendar fields. */
  datatype Moment = Moment(year: nat, month: nat, day: nat, hour: nat, minute: nat, second: nat)

  /** The fields of a four-digit-year `datetime`. */
  predicate ValidMoment(t: Moment)
  {
    1000 <= t.year <= 9999 && 1 <= t.month <= 12 && 1 <= t.day <= 31
    && t.hour < 24 && t.minute < 60 && t.second < 60
  }

  /** `now.strftime("%m-%d-%Y_%H_%M_%S")`: month, day, year, hour, minute and
      second, zero-padded, at fixed positions between the separators. */
  function Stamp(t: Moment): (s: string)
    requires ValidMoment(t)
    ensures |s| == 19
    ensures s[..2] == Pad2(t.month) && s[2] == '-' && s[3..5] == Pad2(t.day) && s[5] == '-'
    ensures s[6..10] == Pad4(t.year) && s[10] == '_' && s[11..13] == Pad2(t.hour) && s[13] == '_'
    ensures s[14..16] == Pad2(t.minute) && s[16] == '_' && s[17..] == Pad2(t.second)
  {
    Pad2(t.month) + "-" + Pad2(t.day) + "-" + Pad4(t.year) + "_" + Pad2(t.hour) + "_" + Pad2(t.minute) + "_" + Pad2(t.second)
  }

  /** The value of the two digits of `s` at `i`. */
  function TwoDigits(s: string, i: nat): int
    requires i + 2 <= |s|
  {
    DigitValue(s[i]) * 10 + DigitValue(s[i + 1])
  }

  /** Reading the stamp's digit fields back gives the moment it was made from. */
  lemma StampReadsBack(t: Moment)
    requires ValidMoment(t)
    ensures var s := Stamp(t);
      && TwoDigits(s, 0) == t.month && TwoDigits(s, 3) == t.day
      && TwoDigits(s, 6) * 100 + TwoDigits(s, 8) == t.year
      && TwoDigits(s, 11) == t.hour && TwoDigits(s, 14) == t.minute && TwoDigits(s, 17) == t.second
  {
    var s := Stamp(t);
    assert s[0] == s[..2][0] && s[1] == s[..2][1];
    assert s[3] == s[3..5][0] && s[4] == s[3..5][1];
    assert s[6] == s[6..10][0] && s[7] == s[6..10][1] && s[8] == s[6..10][2] && s[9] == s[6..10][3];
    assert s[11] == s[11..13][0] && s[12] == s[11..13][1];
    assert s[14] == s[14..16][0] && s[15] == s[14..16][1];
    assert s[17] == s[17..][0] && s[18] == s[17..][1];
  }

  /** `get_timestamp_filename`: the root, `_`, the stamp, then the extension,
      with a `.` inserted unless the extension brings its own. */
  function TimestampFilename(name: string, extension: string, now: Moment): (f: string)
    requires ValidMoment(now)
    ensures |f| == |name| + 20 + |extension| + (if OccursAt(extension, ".", 0) then 0 else 1)
    ensures f[..|name| + 20] == name + "_" + Stamp(now)
    ensures f[|name| + 20] == '.'
    ensures f[|f| - |extension|..] == extension
  {
    if OccursAt(extension, ".", 0) then name + "_" + Stamp(now) + extension
    else name + "_" + Stamp(now) + "." + extension
  }
}
