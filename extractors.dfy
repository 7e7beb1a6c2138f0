/**
 * The page extractors of src/lib/url-metadata.ts (repeated verbatim in
 * src/app/api/wishlist/fetch-meta/route.ts): title, image, price (JSON-LD first,
 * then an ordered list of patterns) and site name. Each tries an ordered pattern
 * table and stops at the first pattern whose capture is non-empty. The pattern
 * tables are written out item by item from the source's regular expressions.
 */
module Extractors {
  import opened Wrappers
  import opened Strings
  import opened Regex
  import opened Json
  import Url
  import opened HtmlEntities

  /** What the JavaScript runtime supplies: `JSON.parse` (None when it throws) and `parseFloat(x).toFixed(2)`. */
  datatype Runtime = Runtime(parseJson: string -> Option<Json>, toFixed2: string -> string)

  /** The result of a computation that may throw. */
  datatype Attempt<T> = Done(value: T) | Threw

  // ---------------------------------------------------------------------------
  // Character classes and pattern tables

  const NotGt := Ranges([('>', '>')], true)
  const NotLt := Ranges([('<', '<')], true)
  const Quote := Ranges([('"', '"'), ('\'', '\'')], false)
  const NotQuote := Ranges([('"', '"'), ('\'', '\'')], true)
  const DigitClass := Ranges([('0', '9')], false)
  const DigitOrComma := Ranges([('0', '9'), (',', ',')], false)

  /** `<tag[^>]*attr=["']value["'][^>]*target=["']<lead>([^"']+)["']` */
  function AttrThenValue(tag: string, attr: string, value: string, target: string, lead: seq<Item>): Regex {
    Regex(Lits("<" + tag) + [Star(NotGt)] + Lits(attr + "=") + [One(Quote)] + Lits(value)
          + [One(Quote), Star(NotGt)] + Lits(target + "=") + [One(Quote)] + lead
          + [Open, Plus(NotQuote), Close] + [One(Quote)], true)
  }

  /** `<meta[^>]*content=["']([^"']+)["'][^>]*attr=["']value["']` */
  function ContentThenAttr(attr: string, value: string): Regex {
    Regex(Lits("<meta") + [Star(NotGt)] + Lits("content=") + [One(Quote)]
          + [Open, Plus(NotQuote), Close]
          + [One(Quote), Star(NotGt)] + Lits(attr + "=") + [One(Quote)] + Lits(value) + [One(Quote)], true)
  }

  /** `<tag[^>]*attr=["']value["'][^>]*>([^<]+)<tail>` */
  function ElementText(tag: string, attr: string, value: string, tail: string): Regex {
    Regex(Lits("<" + tag) + [Star(NotGt)] + Lits(attr + "=") + [One(Quote)] + Lits(value)
          + [One(Quote), Star(NotGt)] + Lits(">") + [Open, Plus(NotLt), Close] + Lits(tail), true)
  }

  const TitlePatterns: seq<Regex> := [
    AttrThenValue("meta", "property", "og:title", "content", []),
    ContentThenAttr("property", "og:title"),
    AttrThenValue("meta", "name", "twitter:title", "content", []),
    ElementText("span", "id", "productTitle", "<"),
    Regex(Lits("<title") + [Star(NotGt)] + Lits(">") + [Open, Plus(NotLt), Close] + Lits("</title>"), true)
  ]

  const ImagePatterns: seq<Regex> := [
    AttrThenValue("meta", "property", "og:image", "content", []),
    ContentThenAttr("property", "og:image"),
    AttrThenValue("meta", "name", "twitter:image", "content", []),
    AttrThenValue("img", "id", "landingImage", "src", []),
    Regex(Lits("<img") + [Star(NotGt)] + Lits("data-old-hires=") + [One(Quote)]
          + [Open, Plus(NotQuote), Close] + [One(Quote)], true),
    AttrThenValue("meta", "itemprop", "image", "content", [])
  ]

  /** `\$[\d,]+\.?\d*` */
  const DollarAmount: seq<Item> := [One(Lit('$')), Plus(DigitOrComma), Opt(Lit('.')), Star(DigitClass)]

  const PricePatterns: seq<Regex> := [
    AttrThenValue("meta", "itemprop", "price", "content", []),
    AttrThenValue("meta", "property", "og:price:amount", "content", []),
    AttrThenValue("meta", "property", "product:price:amount", "content", []),
    Regex(Lits("<span") + [Star(NotGt)] + Lits("class=") + [One(Quote), Star(NotQuote)] + Lits("a-price-whole")
          + [Star(NotQuote), One(Quote), Star(NotGt)] + Lits(">") + [Open, Plus(NotLt), Close], true),
    ElementText("span", "id", "priceblock_ourprice", ""),
    ElementText("span", "id", "priceblock_dealprice", ""),
    ElementText("span", "id", "priceblock_saleprice", ""),
    Regex(Lits("<") + [Star(NotGt)] + Lits("class=") + [One(Quote), Star(NotQuote)] + Lits("price")
          + [Star(NotQuote), One(Quote), Star(NotGt)] + Lits(">") + [Star(Space(false))]
          + [Open] + DollarAmount + [Close], true),
    Regex(Lits("data-price=") + [One(Quote), Open, Opt(Lit('$'))] + DollarAmount[1..] + [Close, One(Quote)], true)
  ]

  // `^[\d,]+\.?\d*$`: a bare number.
  const BareNumber := Regex([Begin] + DollarAmount[1..] + [End], false)

  // `\$[\d,]+\.?\d*` without anchors: holds a dollar amount.
  const DollarPrice := Regex(DollarAmount, false)

  /** `/<script[^>]*type=["']application\/ld\+json["'][^>]*>([\s\S]*?)<\/script>/gi` */
  const JsonLdScript := Regex(Lits("<script") + [Star(NotGt)] + Lits("type=") + [One(Quote)]
                              + Lits("application/ld+json") + [One(Quote), Star(NotGt)] + Lits(">")
                              + [Open, LazyStar(AnyChar), Close] + Lits("</script>"), true)

  const SiteNamePatterns: seq<Regex> := [
    AttrThenValue("meta", "property", "og:site_name", "content", []),
    ContentThenAttr("property", "og:site_name"),
    AttrThenValue("meta", "name", "twitter:site", "content", [Opt(Lit('@'))]),
    AttrThenValue("meta", "name", "application-name", "content", [])
  ]

  // ---------------------------------------------------------------------------
  // Title

  function TitleOf(html: string): Option<string> {
    match FirstCapture(TitlePatterns, html)
    case Some((_, c)) => Some(DecodeHtmlEntities(Trim(c)))
    case None => None
  }

  method ExtractTitle(html: string) returns (title: Option<string>)
    ensures title == TitleOf(html)
    ensures title.None? <==> forall k :: 0 <= k < |TitlePatterns| ==> !Captures(TitlePatterns[k], html)
    ensures title.Some? ==> exists k: nat :: (IsFirstCapture(TitlePatterns, html, k)
                                              && title.value == DecodeHtmlEntities(Trim(Capture(TitlePatterns[k], html).value)))
  {
    for k := 0 to |TitlePatterns|
      invariant forall j :: 0 <= j < k ==> !Captures(TitlePatterns[j], html)
    {
      var m := Capture(TitlePatterns[k], html);
      if m.Some? && m.value != [] {
        FirstCaptureIs(TitlePatterns, html, k);
        return Some(DecodeHtmlEntities(Trim(m.value)));
      }
    }
    return None;
  }

  // ---------------------------------------------------------------------------
  // Image

  /**
   * Make a captured image URL absolute: `//x` gets `https:`, `/x` gets the
   * base URL's origin (the URL constructor may throw), anything else is kept.
   */
  function AbsoluteImage(capture: string, baseUrl: string): (r: Attempt<string>)
    ensures StartsWith(capture, "//") ==> r == Done("https:" + capture)
    ensures !StartsWith(capture, "/") ==> r == Done(capture)
    ensures r.Done? ==> |capture| <= |r.value| && r.value[|r.value| - |capture|..] == capture
    ensures r.Threw? <==> StartsWith(capture, "/") && !StartsWith(capture, "//") && Url.Parse(baseUrl).None?
  {
    if StartsWith(capture, "//") then Done("https:" + capture)
    else if StartsWith(capture, "/") then
      match Url.Parse(baseUrl)
      case Some(u) => Done(Url.Origin(u) + capture)
      case None => Threw
    else Done(capture)
  }

  function ImageOf(html: string, baseUrl: string): Attempt<Option<string>> {
    match FirstCapture(ImagePatterns, html)
    case None => Done(None)
    case Some((_, c)) =>
      match AbsoluteImage(Trim(c), baseUrl)
      case Done(u) => Done(Some(u))
      case Threw => Threw
  }

  method ExtractImage(html: string, baseUrl: string) returns (image: Attempt<Option<string>>)
    ensures image == ImageOf(html, baseUrl)
    ensures image == Done(None) <==> forall k :: 0 <= k < |ImagePatterns| ==> !Captures(ImagePatterns[k], html)
  {
    for k := 0 to |ImagePatterns|
      invariant forall j :: 0 <= j < k ==> !Captures(ImagePatterns[j], html)
    {
      var m := Capture(ImagePatterns[k], html);
      if m.Some? && m.value != [] {
        FirstCaptureIs(ImagePatterns, html, k);
        var imageUrl := Trim(m.value);
        if StartsWith(imageUrl, "//") {
          imageUrl := "https:" + imageUrl;
        } else if StartsWith(imageUrl, "/") {
          var urlObj := Url.Parse(baseUrl);
          if urlObj.None? {
            return Threw;
          }
          imageUrl := Url.Origin(urlObj.value) + imageUrl;
        }
        return Done(Some(imageUrl));
      }
    }
    return Done(None);
  }

  // ---------------------------------------------------------------------------
  // Price from JSON-LD

  /**
   * `findPriceInObject`: a price found in a parsed JSON-LD value. Arrays give
   * their first element with a non-empty price; objects try `price` (a string
   * or number, or an object's truthy `price` then `value`), then `offers`
   * recursively, then `lowPrice`.
   */
  function FindPriceInObject(obj: Json): (r: Option<string>)
    decreases obj, 1
  {
    match obj
    case Arr(xs) => FirstPriceIn(xs)
    case Obj(record) =>
      var direct :=
        if "price" in record && !record["price"].Null? then
          match record["price"]
          case Str(s) => Some(s)
          case Num(t) => Some(t)
          case Bool(_) => None
          case Null => None
          case _ =>
            if TruthyOpt(Get(record["price"], "price")) then Some(ToJsString(Get(record["price"], "price").value))
            else if TruthyOpt(Get(record["price"], "value")) then Some(ToJsString(Get(record["price"], "value").value))
            else None
        else None;
      if direct.Some? then direct
      else
        var fromOffers := if "offers" in record && Truthy(record["offers"]) then FindPriceInObject(record["offers"]) else None;
        if fromOffers.Some? && fromOffers.value != [] then fromOffers
        else if "lowPrice" in record && !record["lowPrice"].Null? then Some(ToJsString(record["lowPrice"]))
        else None
    case _ => None
  }

  function FirstPriceIn(xs: seq<Json>): (r: Option<string>)
    decreases xs, 0
  {
    if xs == [] then None
    else
      var p := FindPriceInObject(xs[0]);
      if p.Some? && p.value != [] then p else FirstPriceIn(xs[1..])
  }

  /**
   * Scalars carry no price; in an object a string or number `price` wins
   * over everything else, and only an object with neither `price`, `offers`
   * nor `lowPrice` (or with those null or empty) yields none.
   */
  lemma FindPriceRules(obj: Json)
    ensures !obj.Arr? && !obj.Obj? ==> FindPriceInObject(obj).None?
    ensures obj.Obj? && "price" in obj.fields && obj.fields["price"].Str?
            ==> FindPriceInObject(obj) == Some(obj.fields["price"].s)
    ensures obj.Obj? && "price" in obj.fields && obj.fields["price"].Num?
            ==> FindPriceInObject(obj) == Some(obj.fields["price"].text)
    ensures obj.Obj? && ("lowPrice" !in obj.fields || obj.fields["lowPrice"].Null?)
            && ("price" !in obj.fields || obj.fields["price"].Null? || obj.fields["price"].Bool?)
            && ("offers" !in obj.fields || !Truthy(obj.fields["offers"]))
            ==> FindPriceInObject(obj).None?
  {
  }

  /** A child of an object is within it. */
  lemma FieldWithin(v: Json, record: map<string, Json>, key: string)
    requires key in record && Within(v, record[key])
    ensures Within(v, Obj(record))
  {
  }

  /** The price found is `String(v)` for some value `v` inside the parsed document. */
  lemma {:induction false} FindPriceWithin(obj: Json) returns (v: Json)
    requires FindPriceInObject(obj).Some?
    ensures Within(v, obj) && FindPriceInObject(obj).value == ToJsString(v)
    decreases obj, 1
  {
    match obj
    case Arr(xs) =>
      var k;
      k, v := FirstPriceWithin(xs);
      assert xs[k] in xs;
    case Obj(record) =>
      if "price" in record && !record["price"].Null? && (record["price"].Str? || record["price"].Num?) {
        v := record["price"];
        FieldWithin(v, record, "price");
      } else if "price" in record && !record["price"].Null? && !record["price"].Bool?
                && TruthyOpt(Get(record["price"], "price")) {
        v := Get(record["price"], "price").value;
        FieldWithin(v, record["price"].fields, "price");
        FieldWithin(v, record, "price");
      } else if "price" in record && !record["price"].Null? && !record["price"].Bool?
                && TruthyOpt(Get(record["price"], "value")) {
        v := Get(record["price"], "value").value;
        FieldWithin(v, record["price"].fields, "value");
        FieldWithin(v, record, "price");
      } else if "offers" in record && Truthy(record["offers"])
                && FindPriceInObject(record["offers"]).Some? && FindPriceInObject(record["offers"]).value != [] {
        v := FindPriceWithin(record["offers"]);
        FieldWithin(v, record, "offers");
      } else {
        v := record["lowPrice"];
        FieldWithin(v, record, "lowPrice");
      }
  }

  lemma {:induction false} FirstPriceWithin(xs: seq<Json>) returns (k: nat, v: Json)
    requires FirstPriceIn(xs).Some?
    ensures k < |xs| && Within(v, xs[k]) && FirstPriceIn(xs).value == ToJsString(v)
    decreases xs, 0
  {
    if FindPriceInObject(xs[0]).Some? && FindPriceInObject(xs[0]).value != [] {
      k := 0;
      v := FindPriceWithin(xs[0]);
    } else {
      var k';
      k', v := FirstPriceWithin(xs[1..]);
      k := k' + 1;
    }
  }

  /** `price.replace(/[^0-9.]/g, "")` */
  function KeepNumeric(s: string): (r: string)
    ensures forall k :: 0 <= k < |r| ==> IsDigit(r[k]) || r[k] == '.'
  {
    if s == [] then []
    else (if IsDigit(s[0]) || s[0] == '.' then [s[0]] else []) + KeepNumeric(s[1..])
  }

  /** `isNaN(parseFloat(c))` for text made of digits and dots: no digit before the first non-digit-or-dot. */
  predicate ParseFloatIsNaN(c: string) {
    !(|c| >= 1 && (IsDigit(c[0]) || (c[0] == '.' && |c| >= 2 && IsDigit(c[1]))))
  }

  /** The formatted price of one JSON-LD block's text, if it yields one. */
  function BlockPrice(content: string, rt: Runtime): (r: Option<string>)
    ensures r.Some? ==> StartsWith(r.value, "$")
  {
    match rt.parseJson(Trim(content))
    case None => None
    case Some(data) =>
      match FindPriceInObject(data)
      case None => None
      case Some(p) =>
        if p != [] && !ParseFloatIsNaN(KeepNumeric(p)) then Some("$" + rt.toFixed2(KeepNumeric(p)))
        else None
  }

  /** Every JSON-LD script match consumes at least one character. */
  lemma JsonLdScriptAdvances(s: string, from: nat)
    requires from <= |s|
    requires SearchFrom(JsonLdScript, s, from).Some?
    ensures SearchFrom(JsonLdScript, s, from).value.end > from
  {
    var f := SearchAt(JsonLdScript, s, from);
    var n := AtomStep(JsonLdScript.items, s, f.start, f.start, true);
  }

  /** The first JSON-LD block, scanning from `from`, whose text yields a price. */
  function JsonLdPriceFrom(html: string, from: nat, rt: Runtime): (r: Option<string>)
    requires from <= |html|
    ensures r.Some? ==> StartsWith(r.value, "$")
    decreases |html| - from
  {
    match SearchFrom(JsonLdScript, html, from)
    case None => None
    case Some(f) =>
      var p := BlockPrice(html[f.capStart..f.capEnd], rt);
      if p.Some? then p
      else
        JsonLdScriptAdvances(html, from);
        JsonLdPriceFrom(html, f.end, rt)
  }

  method ExtractPriceFromJsonLd(html: string, rt: Runtime) returns (price: Option<string>)
    ensures price == JsonLdPriceFrom(html, 0, rt)
  {
    var lastIndex: nat := 0;
    while true
      invariant lastIndex <= |html|
      invariant JsonLdPriceFrom(html, lastIndex, rt) == JsonLdPriceFrom(html, 0, rt)
      decreases |html| - lastIndex
    {
      var m := SearchFrom(JsonLdScript, html, lastIndex);
      if m.None? {
        return None;
      }
      var f := m.value;
      var p := BlockPrice(html[f.capStart..f.capEnd], rt);
      if p.Some? {
        return p;
      }
      JsonLdScriptAdvances(html, lastIndex);
      lastIndex := f.end;
    }
  }

  // ---------------------------------------------------------------------------
  // Price from the pattern table

  /** Whitespace removed, and `$` put in front of a bare number. */
  function CleanPrice(capture: string): string {
    var price := RemoveSpaces(Trim(capture));
    if Test(BareNumber, price) then "$" + price else price
  }

  /** The first pattern of `pats`, from `k` on, whose cleaned capture holds a dollar amount. */
  function PatternPriceFrom(pats: seq<Regex>, html: string, k: nat): (r: Option<string>)
    ensures r.Some? ==> Test(DollarPrice, r.value)
    decreases |pats| - k
  {
    if k >= |pats| then None
    else if Captures(pats[k], html) && Test(DollarPrice, CleanPrice(Capture(pats[k], html).value)) then
      Some(CleanPrice(Capture(pats[k], html).value))
    else PatternPriceFrom(pats, html, k + 1)
  }

  function PriceOf(html: string, rt: Runtime): Option<string> {
    var fromJsonLd := JsonLdPriceFrom(html, 0, rt);
    if fromJsonLd.Some? then fromJsonLd else PatternPriceFrom(PricePatterns, html, 0)
  }

  method ExtractPrice(html: string, rt: Runtime) returns (price: Option<string>)
    ensures price == PriceOf(html, rt)
    ensures JsonLdPriceFrom(html, 0, rt).Some? ==> price == JsonLdPriceFrom(html, 0, rt)
  {
    var jsonLdPrice := ExtractPriceFromJsonLd(html, rt);
    if jsonLdPrice.Some? {
      return jsonLdPrice;
    }
    price := ExtractPriceFromPatterns(PricePatterns, html);
  }

  /** The pattern-table loop of `extractPrice`, run when no JSON-LD block gives a price. */
  method ExtractPriceFromPatterns(pricePatterns: seq<Regex>, html: string) returns (price: Option<string>)
    ensures price == PatternPriceFrom(pricePatterns, html, 0)
  {
    for k := 0 to |pricePatterns|
      invariant PatternPriceFrom(pricePatterns, html, k) == PatternPriceFrom(pricePatterns, html, 0)
    {
      var m := Capture(pricePatterns[k], html);
      if m.Some? && m.value != [] {
        var p := Trim(m.value);
        p := RemoveSpaces(p);
        if Test(BareNumber, p) {
          p := "$" + p;
        }
        assert p == CleanPrice(m.value);
        if Test(DollarPrice, p) {
          return Some(p);
        }
      }
    }
    return None;
  }

  /** Text accepted by `DollarPrice` holds a `$` followed by a digit or a comma. */
  lemma DollarPriceShape(p: string) returns (j: nat)
    requires Test(DollarPrice, p)
    ensures j + 1 < |p| && p[j] == '$' && (IsDigit(p[j + 1]) || p[j + 1] == ',')
  {
    var rest := [Opt(Lit('.')), Star(DigitClass)];
    assert DollarPrice == Regex([One(Lit('$')), Atom(DigitOrComma, 1, Unbounded, true)] + rest, false);
    j := TestTwoLeading(Lit('$'), DigitOrComma, rest, false, p);
    assert InRanges(DigitOrComma.rs, p[j + 1]);
  }

  /** A price from the pattern table holds a `$` followed by a digit or a comma. */
  lemma PatternPriceHasDollarDigit(html: string) returns (j: nat)
    requires PatternPriceFrom(PricePatterns, html, 0).Some?
    ensures var p := PatternPriceFrom(PricePatterns, html, 0).value;
      j + 1 < |p| && p[j] == '$' && (IsDigit(p[j + 1]) || p[j + 1] == ',')
  {
    j := DollarPriceShape(PatternPriceFrom(PricePatterns, html, 0).value);
  }

  // ---------------------------------------------------------------------------
  // Site name

  /** The hostname without one leading `www.`, or "Unknown" when the URL does not parse. */
  function HostFallback(url: string): (r: string)
    ensures Url.Parse(url).None? ==> r == "Unknown"
    ensures Url.Parse(url).Some? ==> var h := Url.Parse(url).value.hostname;
      (StartsWith(h, "www.") ==> "www." + r == h) && (!StartsWith(h, "www.") ==> r == h)
  {
    match Url.Parse(url)
    case None => "Unknown"
    case Some(u) =>
      if StartsWith(u.hostname, "www.") then
        PrefixAndRest(u.hostname, "www.");
        u.hostname[4..]
      else u.hostname
  }

  function SiteNameOf(html: string, url: string): string {
    match FirstCapture(SiteNamePatterns, html)
    case Some((_, c)) => DecodeHtmlEntities(Trim(c))
    case None => HostFallback(url)
  }

  method ExtractSiteName(html: string, url: string) returns (siteName: string)
    ensures siteName == SiteNameOf(html, url)
    ensures (forall k :: 0 <= k < |SiteNamePatterns| ==> !Captures(SiteNamePatterns[k], html))
            ==> siteName == HostFallback(url)
  {
    for k := 0 to |SiteNamePatterns|
      invariant forall j :: 0 <= j < k ==> !Captures(SiteNamePatterns[j], html)
    {
      var m := Capture(SiteNamePatterns[k], html);
      if m.Some? && m.value != [] {
        FirstCaptureIs(SiteNamePatterns, html, k);
        return DecodeHtmlEntities(Trim(m.value));
      }
    }
    var urlObj := Url.Parse(url);
    if urlObj.None? {
      return "Unknown";
    }
    var hostname := urlObj.value.hostname;
    if StartsWith(hostname, "www.") {
      hostname := hostname[4..];
    }
    return hostname;
  }
}
