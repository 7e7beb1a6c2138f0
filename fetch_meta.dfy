/**
 * The `POST` handler of src/app/api/wishlist/fetch-meta/route.ts: session
 * and body checks, then a generic scrape of the requested URL. Its copies of
 * the extractors are textually those of src/lib/url-metadata.ts, so the same
 * members of module Extractors model both.
 */
module FetchMeta {
  import opened Wrappers
  import opened Json
  import opened Extractors
  import opened UrlMetadata

  /**
   * The JSON responses: 401, 400, the failure body (title, image and price
   * null, no site name and no URL key), or the four extractor results.
   */
  datatype Response =
    | Unauthorized
    | UrlRequired
    | Nulls
    | Found(title: Option<string>, imageUrl: Option<string>, price: Option<string>, siteName: string)

  function Status(r: Response): (code: int)
    ensures code == 200 || code == 400 || code == 401
    ensures code == 200 <==> r.Nulls? || r.Found?
  {
    match r
    case Unauthorized => 401
    case UrlRequired => 400
    case _ => 200
  }

  /** The generic stage on the `String(url)` the handler fetches and resolves images against. */
  function ScrapeResponse(url: string, fetch: string -> Page, rt: Runtime): Response {
    match fetch(url)
    case Html(html) =>
      (match ImageOf(html, url)
       case Threw => Nulls
       case Done(image) => Found(TitleOf(html), image, PriceOf(html, rt), SiteNameOf(html, url)))
    case _ => Nulls
  }

  /**
   * The handler as a value. `body` is what `request.json()` gives (None when
   * it throws); destructuring `{ url }` from `null` throws, from any other
   * non-object gives undefined.
   */
  function FetchMetaOf(signedIn: bool, body: Option<Json>, fetch: string -> Page, rt: Runtime): Response {
    if !signedIn then Unauthorized
    else if body.None? || body.value.Null? then Nulls
    else
      var url := Get(body.value, "url");
      if !TruthyOpt(url) then UrlRequired
      else ScrapeResponse(ToJsString(url.value), fetch, rt)
  }

  /** `POST /api/wishlist/fetch-meta` */
  method FetchMetaPost(signedIn: bool, body: Option<Json>, fetch: string -> Page, rt: Runtime)
    returns (response: Response)
    ensures response == FetchMetaOf(signedIn, body, fetch, rt)
  {
    if !signedIn {
      return Unauthorized;
    }
    if body.None? || body.value.Null? {
      return Nulls;
    }
    var url := Get(body.value, "url");
    if !TruthyOpt(url) {
      return UrlRequired;
    }
    var target := ToJsString(url.value);
    match fetch(target)
    case Html(html) =>
      var title := ExtractTitle(html);
      var imageUrl := ExtractImage(html, target);
      if imageUrl.Threw? {
        return Nulls;
      }
      var price := ExtractPrice(html, rt);
      var siteName := ExtractSiteName(html, target);
      return Found(title, imageUrl.value, price, siteName);
    case _ =>
      return Nulls;
  }

  /** 401 and 400 are decided before any fetch: the page has no say in them. */
  lemma RejectedBeforeFetch(signedIn: bool, body: Option<Json>, f1: string -> Page, f2: string -> Page, rt: Runtime)
    requires FetchMetaOf(signedIn, body, f1, rt).Unauthorized? || FetchMetaOf(signedIn, body, f1, rt).UrlRequired?
    ensures FetchMetaOf(signedIn, body, f2, rt) == FetchMetaOf(signedIn, body, f1, rt)
    ensures FetchMetaOf(signedIn, body, f1, rt).Unauthorized? <==> !signedIn
  {
  }

  /**
   * The handler scrapes exactly as `fetchUrlMetadata`'s generic stage does,
   * on the URL as given: a found response is that stage's success, with no
   * URL rewrite, and a failure is that stage's all-null result.
   */
  lemma SameAsGenericStage(url: string, w: World)
    ensures var r := ScrapeResponse(url, w.fetch, w.runtime);
      var m := Scrape(url, w);
      m.url == url
      && (r.Nulls? <==> m == NoMetadata(url))
      && (r.Found? ==> m == Metadata(r.title, Some(r.siteName), r.imageUrl, r.price, url))
  {
  }

  /**
   * For a URL that is not Amazon's, the handler's answer carries the same
   * title, image, price and site name as `fetchUrlMetadata`.
   */
  lemma AgreesWithFetchUrlMetadata(body: Option<Json>, w: World)
    requires body.Some? && body.value.Obj? && TruthyOpt(Get(body.value, "url"))
    requires !Amazon.IsAmazonUrl(ToJsString(Get(body.value, "url").value))
    ensures var url := ToJsString(Get(body.value, "url").value);
      var r := FetchMetaOf(true, body, w.fetch, w.runtime);
      var m := MetadataOf(url, w);
      (r.Nulls? <==> m.siteName.None?)
      && (r.Found? ==> r.title == m.title && r.imageUrl == m.imageUrl && r.price == m.price
                       && Some(r.siteName) == m.siteName && m.url == url)
  {
    var url := ToJsString(Get(body.value, "url").value);
    NonAmazonUnchanged(url, w);
    SameAsGenericStage(url, w);
  }

  /** Every failure after the checks has the same body: three nulls. */
  lemma FailuresAreNulls(signedIn: bool, body: Option<Json>, fetch: string -> Page, rt: Runtime)
    requires signedIn && body.Some? && body.value.Obj? && TruthyOpt(Get(body.value, "url"))
    requires !fetch(ToJsString(Get(body.value, "url").value)).Html?
    ensures FetchMetaOf(signedIn, body, fetch, rt) == Nulls
  {
  }
}
