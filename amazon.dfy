/**
 * The Amazon helpers of src/lib/amazon.ts: ASIN extraction from product
 * URLs, host sniffing, the affiliate URL, and the mapping of a Product
 * Advertising API reply to product information.
 */
module Amazon {
  import opened Wrappers
  import opened Strings
  import opened Regex
  import opened Json
  import opened AmazonSigning

  // ---------------------------------------------------------------------------
  // ASIN extraction

  /** `[A-Z0-9]` (matched with the `i` flag, so lower-case letters match too). */
  const AsinClass := Ranges([('A', 'Z'), ('0', '9')], false)
  /** `[A-Za-z0-9]` */
  const ShortCodeClass := Ranges([('A', 'Z'), ('a', 'z'), ('0', '9')], false)
  /** `(?:\/|\?|$)` */
  const AsinEnd := OneOrEnd(Ranges([('/', '/'), ('?', '?')], false))

  /** A case-insensitive pattern whose only group holds one quantified class. */
  function SingleGroup(pre: seq<Item>, cls: CharClass, lo: nat, hi: Bound, post: seq<Item>): Regex {
    Regex(pre + [Open, Atom(cls, lo, hi, true), Close] + post, true)
  }

  const AmazonComPrefix: seq<Item> := Lits("amazon.com") + [LazyStar(NotNewline)] + Lits("/")

  const AsinPatterns: seq<Regex> := [
    SingleGroup(Lits("/dp/"), AsinClass, 10, AtMost(10), []),
    SingleGroup(Lits("/gp/product/"), AsinClass, 10, AtMost(10), []),
    SingleGroup(Lits("/product/"), AsinClass, 10, AtMost(10), []),
    SingleGroup(Lits("/"), AsinClass, 10, AtMost(10), [AsinEnd]),
    SingleGroup(AmazonComPrefix, AsinClass, 10, AtMost(10), [AsinEnd]),
    SingleGroup(Lits("amzn.to/"), ShortCodeClass, 1, Unbounded, [])
  ]

  /** The capture of the first ASIN pattern that captures, upper-cased. */
  function AsinOf(url: string): Option<string> {
    match FirstCapture(AsinPatterns, url)
    case Some((_, c)) => Some(ToUpper(c))
    case None => None
  }

  method ExtractAsin(url: string) returns (asin: Option<string>)
    ensures asin == AsinOf(url)
    ensures asin.None? <==> forall k :: 0 <= k < |AsinPatterns| ==> !Captures(AsinPatterns[k], url)
    ensures asin.Some? ==> exists k: nat :: (IsFirstCapture(AsinPatterns, url, k)
                                             && asin.value == ToUpper(Capture(AsinPatterns[k], url).value))
  {
    for k := 0 to |AsinPatterns|
      invariant forall j :: 0 <= j < k ==> !Captures(AsinPatterns[j], url)
    {
      var m := Capture(AsinPatterns[k], url);
      if m.Some? && m.value != [] {
        FirstCaptureIs(AsinPatterns, url, k);
        return Some(ToUpper(m.value));
      }
    }
    return None;
  }

  predicate IsAsinChar(c: char) {
    'A' <= c <= 'Z' || '0' <= c <= '9'
  }

  /** An ASCII letter or digit, in either case, upper-cases to an ASIN character. */
  lemma UpperOfAlphanumeric(cls: CharClass, c: char)
    requires cls == AsinClass || cls == ShortCodeClass
    requires ClassMatches(cls, c, true)
    ensures IsAsinChar(UpperChar(c))
  {
    var rs := cls.rs;
    forall d | InRanges(rs, d) ensures 'A' <= d <= 'Z' || 'a' <= d <= 'z' || '0' <= d <= '9' {
      var k :| 0 <= k < |rs| && rs[k].0 <= d <= rs[k].1;
    }
  }

  lemma LitsHaveNoGroup(w: string)
    ensures NoGroup(Lits(w))
  {
  }

  /**
   * An extracted ASIN is upper-case letters and digits; the five product-URL
   * patterns give exactly ten of them, the short-link pattern at least one.
   */
  lemma AsinShape(url: string)
    requires AsinOf(url).Some?
    ensures var a := AsinOf(url).value;
      && |a| >= 1 && (forall i :: 0 <= i < |a| ==> IsAsinChar(a[i]))
      && (FirstCapture(AsinPatterns, url).value.0 < 5 ==> |a| == 10)
  {
    var (k, c) := FirstCapture(AsinPatterns, url).value;
    var a := ToUpper(c);
    var cls := if k < 5 then AsinClass else ShortCodeClass;
    if k == 0 {
      CaptureOfSingleAtomGroup(Lits("/dp/"), AsinClass, 10, AtMost(10), true, [], true, url);
    } else if k == 1 {
      CaptureOfSingleAtomGroup(Lits("/gp/product/"), AsinClass, 10, AtMost(10), true, [], true, url);
    } else if k == 2 {
      CaptureOfSingleAtomGroup(Lits("/product/"), AsinClass, 10, AtMost(10), true, [], true, url);
    } else if k == 3 {
      CaptureOfSingleAtomGroup(Lits("/"), AsinClass, 10, AtMost(10), true, [AsinEnd], true, url);
    } else if k == 4 {
      assert NoGroup(AmazonComPrefix);
      CaptureOfSingleAtomGroup(AmazonComPrefix, AsinClass, 10, AtMost(10), true, [AsinEnd], true, url);
    } else {
      CaptureOfSingleAtomGroup(Lits("amzn.to/"), ShortCodeClass, 1, Unbounded, true, [], true, url);
    }
    forall i | 0 <= i < |a| ensures IsAsinChar(a[i]) {
      UpperOfAlphanumeric(cls, c[i]);
    }
  }

  // ---------------------------------------------------------------------------
  // Host sniffing and the affiliate URL

  /** The alternatives of `/amazon\.(com|co\.uk|ca|de|fr|it|es|co\.jp)|amzn\.to/i`. */
  const AmazonMarkers: seq<string> := [
    "amazon.com", "amazon.co.uk", "amazon.ca", "amazon.de", "amazon.fr",
    "amazon.it", "amazon.es", "amazon.co.jp", "amzn.to"
  ]

  /** An unanchored, case-insensitive search for one of the markers. */
  predicate IsAmazonUrl(url: string) {
    exists k :: 0 <= k < |AmazonMarkers| && Contains(ToLower(url), AmazonMarkers[k])
  }

  /** A marker that occurs in `s` occurs in any text around `s`. */
  lemma ContainsInContext(s: string, pat: string, pre: string, post: string)
    requires Contains(s, pat)
    ensures Contains(pre + s + post, pat)
  {
    var i := IndexOf(s, pat).value;
    assert (pre + s + post)[|pre| + i..|pre| + i + |pat|] == s[i..i + |pat|];
    assert OccursAt(pre + s + post, pat, |pre| + i);
  }

  lemma ToLowerAppend(a: string, b: string)
    ensures ToLower(a + b) == ToLower(a) + ToLower(b)
  {
  }

  /** The test does not depend on where the marker sits in the URL. */
  lemma AmazonUrlInContext(pre: string, url: string, post: string)
    requires IsAmazonUrl(url)
    ensures IsAmazonUrl(pre + url + post)
  {
    var k :| 0 <= k < |AmazonMarkers| && Contains(ToLower(url), AmazonMarkers[k]);
    ToLowerAppend(pre + url, post);
    ToLowerAppend(pre, url);
    ContainsInContext(ToLower(url), AmazonMarkers[k], ToLower(pre), ToLower(post));
  }

  /** The test ignores letter case. */
  lemma AmazonUrlIgnoresCase(url: string)
    ensures IsAmazonUrl(ToUpper(url)) <==> IsAmazonUrl(url)
  {
    assert ToLower(ToUpper(url)) == ToLower(url);
  }

  const DefaultAssociateTag := "giftwishlist-20"

  /** `AMAZON_ASSOCIATE_TAG || "giftwishlist-20"`: a missing or empty tag falls back. */
  function AssociateTag(env: Env): (tag: string)
    ensures tag != []
    ensures Present(env.associateTag) ==> tag == env.associateTag.value
  {
    if Present(env.associateTag) then env.associateTag.value else DefaultAssociateTag
  }

  const AffiliateBase := "https://www.amazon.com/dp/"

  function BuildAmazonUrl(asin: string, env: Env): string {
    AffiliateBase + asin + "?tag=" + AssociateTag(env)
  }

  /** Lower-casing keeps `amazon.com` where it stands. */
  lemma AmazonComAt(pre: string, post: string)
    ensures OccursAt(ToLower(pre + "amazon.com" + post), "amazon.com", |pre|)
  {
    var host := "amazon.com";
    ToLowerAppend(pre + host, post);
    ToLowerAppend(pre, host);
    assert ToLower(host) == host;
    var t := ToLower(pre + host + post);
    assert t[|pre|..|pre| + |host|] == host;
  }

  lemma ContainsFirstMarker(t: string, i: nat)
    requires OccursAt(t, "amazon.com", i)
    ensures Contains(t, AmazonMarkers[0])
  {
    OccursContains(t, "amazon.com", i);
  }

  /** Any URL with `amazon.com` in it is an Amazon URL. */
  lemma AmazonComInUrl(pre: string, post: string)
    ensures IsAmazonUrl(pre + "amazon.com" + post)
  {
    AmazonComAt(pre, post);
    ContainsFirstMarker(ToLower(pre + "amazon.com" + post), |pre|);
  }

  /** The affiliate URL carries the ASIN after `/dp/` and the tag after `?tag=`. */
  lemma AffiliateUrlParts(asin: string, tag: string)
    ensures var u := AffiliateBase + asin + "?tag=" + tag;
      u[22..26] == "/dp/" && u[26..26 + |asin|] == asin && u[26 + |asin|..] == "?tag=" + tag
  {
    var rest := asin + "?tag=" + tag;
    var u := AffiliateBase + rest;
    assert AffiliateBase + asin + "?tag=" + tag == u;
    assert u[..26] == AffiliateBase && u[26..] == rest;
    assert u[22..26] == AffiliateBase[22..26];
    assert u[26..26 + |asin|] == rest[..|asin|];
  }

  /** The affiliate URL is an Amazon URL, and carries the ASIN after `/dp/` and the tag after `?tag=`. */
  lemma BuildAmazonUrlShape(asin: string, env: Env)
    ensures IsAmazonUrl(BuildAmazonUrl(asin, env))
    ensures var u := BuildAmazonUrl(asin, env);
      u[22..26] == "/dp/" && u[26..26 + |asin|] == asin && u[26 + |asin|..] == "?tag=" + AssociateTag(env)
  {
    var tail := "/dp/" + asin + "?tag=" + AssociateTag(env);
    assert BuildAmazonUrl(asin, env) == "https://www." + "amazon.com" + tail;
    AmazonComInUrl("https://www.", tail);
    AffiliateUrlParts(asin, AssociateTag(env));
  }

  // ---------------------------------------------------------------------------
  // Product information from the Product Advertising API

  const ApiPath := "/paapi5/getitems"

  /** The GetItems request body, as `JSON.stringify` writes it. */
  function Payload(asin: string, tag: string): string {
    "{\"ItemIds\":[" + Quote(asin) + "],\"PartnerTag\":" + Quote(tag)
    + ",\"PartnerType\":\"Associates\",\"Resources\":[" + "\"ItemInfo.Title\","
    + "\"Images.Primary.Large\"," + "\"Offers.Listings.Price\"]}"
  }

  /** What the POST to the API yields: a thrown fetch, a non-2xx status, or a body that may not parse. */
  datatype ApiReply = Threw | NotOk | Ok(body: Option<Json>)

  datatype ProductInfo = ProductInfo(title: Option<string>, imageUrl: Option<string>,
                                     price: Option<string>, url: string)

  /** `value || null`, with the kept value rendered as text. */
  function OrNull(o: Option<Json>): (r: Option<string>)
    ensures r.Some? <==> TruthyOpt(o)
    ensures r.Some? ==> r.value == ToJsString(o.value)
  {
    if TruthyOpt(o) then Some(ToJsString(o.value)) else None
  }

  /** `data.ItemsResult?.Items?.[0]` */
  function FirstItem(data: Json): Option<Json> {
    FirstOpt(GetOpt(Get(data, "ItemsResult"), "Items"))
  }

  /** The title, image and price of one returned item, and the affiliate URL. */
  function ItemInfo(item: Json, asin: string, env: Env): ProductInfo {
    ProductInfo(
      OrNull(GetOpt(GetOpt(Get(item, "ItemInfo"), "Title"), "DisplayValue")),
      OrNull(GetOpt(GetOpt(GetOpt(Get(item, "Images"), "Primary"), "Large"), "URL")),
      OrNull(GetOpt(GetOpt(FirstOpt(GetOpt(Get(item, "Offers"), "Listings")), "Price"), "DisplayAmount")),
      BuildAmazonUrl(asin, env))
  }

  /** The headers and body of the signed GetItems request, once the credentials are usable. */
  function SignedPost(asin: string, env: Env, timestamp: string, crypto: Crypto): (r: (seq<(string, string)>, string))
    requires Present(env.accessKey) && Present(env.secretKey) && Present(env.associateTag)
    ensures |r.0| == 6 && r.0[2] == ("host", Host) && r.0[4] == ("x-amz-target", Target)
    ensures r.1 == Payload(asin, env.associateTag.value)
    ensures r.0 == SignRequest(env, "POST", ApiPath, r.1, timestamp, crypto).value
  {
    var payload := Payload(asin, env.associateTag.value);
    (SignRequest(env, "POST", ApiPath, payload, timestamp, crypto).value, payload)
  }

  /**
   * `getAmazonProductInfo`: null without all three credentials, when the
   * request throws, answers with an error status or a body that is not JSON,
   * or when no first item comes back; otherwise the item's details and the
   * affiliate URL.
   */
  function GetAmazonProductInfo(asin: string, env: Env, timestamp: string, crypto: Crypto,
                                post: ((seq<(string, string)>, string)) -> ApiReply): (r: Option<ProductInfo>)
    ensures r.Some? <==>
      (Present(env.accessKey) && Present(env.secretKey) && Present(env.associateTag)
       && var reply := post(SignedPost(asin, env, timestamp, crypto));
          reply.Ok? && reply.body.Some? && TruthyOpt(FirstItem(reply.body.value)))
    ensures r.Some? ==> r.value == ItemInfo(FirstItem(post(SignedPost(asin, env, timestamp, crypto)).body.value).value, asin, env)
  {
    if !Present(env.accessKey) || !Present(env.secretKey) || !Present(env.associateTag) then None
    else
      match post(SignedPost(asin, env, timestamp, crypto))
      case Ok(Some(data)) =>
        var item := FirstItem(data);
        if TruthyOpt(item) then Some(ItemInfo(item.value, asin, env)) else None
      case _ => None
  }

  /** Found product information links to the ASIN's page and carries the configured tag. */
  lemma ProductInfoUrl(asin: string, env: Env, timestamp: string, crypto: Crypto,
                       post: ((seq<(string, string)>, string)) -> ApiReply)
    requires GetAmazonProductInfo(asin, env, timestamp, crypto, post).Some?
    ensures var u := GetAmazonProductInfo(asin, env, timestamp, crypto, post).value.url;
      IsAmazonUrl(u) && u[22..26] == "/dp/" && u[26..26 + |asin|] == asin
      && u[26 + |asin|..] == "?tag=" + env.associateTag.value
  {
    BuildAmazonUrlShape(asin, env);
  }
}
