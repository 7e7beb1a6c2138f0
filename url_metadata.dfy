/**
 * `fetchUrlMetadata` of src/lib/url-metadata.ts: the Amazon path (short-link
 * resolution, ASIN, Product Advertising API, affiliate URL) in front of the
 * generic page scrape, collapsing to all-null content on any failure.
 * The network, the clock and the digests are fields of a `World`.
 */
module UrlMetadata {
  import opened Wrappers
  import opened Strings
  import opened Json
  import opened Extractors
  import opened AmazonSigning
  import opened Amazon

  datatype Metadata = Metadata(title: Option<string>, siteName: Option<string>, imageUrl: Option<string>,
                               price: Option<string>, url: string)

  /** What fetching a page yields: a thrown fetch or body read, a non-2xx status, or the HTML text. */
  datatype Page = FetchThrew | NotOk | Html(text: string)

  /**
   * The effects `fetchUrlMetadata` depends on: the environment, the clock's
   * ISO timestamp, the digests, the HEAD request that resolves a short link
   * (its final URL, or None when it throws), the API POST, the page fetch and
   * the runtime's JSON parser and number formatter.
   */
  datatype World = World(env: Env, timestamp: string, crypto: Crypto,
                         resolve: string -> Option<string>,
                         post: ((seq<(string, string)>, string)) -> ApiReply,
                         fetch: string -> Page, runtime: Runtime)

  /** The failure result: four null content fields and the URL as it stands. */
  function NoMetadata(url: string): (m: Metadata)
    ensures m.url == url && m.title.None? && m.siteName.None? && m.imageUrl.None? && m.price.None?
  {
    Metadata(None, None, None, None, url)
  }

  /** The URL after short-link resolution: replaced only by a non-empty resolved URL. */
  function ResolvedUrl(url: string, w: World): (r: string)
    ensures r != url ==> Contains(url, "amzn.to") && w.resolve(url) == Some(r) && r != []
  {
    if Contains(url, "amzn.to") && w.resolve(url).Some? && w.resolve(url).value != [] then w.resolve(url).value
    else url
  }

  /** The generic stage: fetch the page and run the four extractors over it. */
  function Scrape(url: string, w: World): Metadata {
    match w.fetch(url)
    case Html(html) =>
      (match ImageOf(html, url)
       case Threw => NoMetadata(url)
       case Done(image) => Metadata(TitleOf(html), Some(SiteNameOf(html, url)), image, PriceOf(html, w.runtime), url))
    case _ => NoMetadata(url)
  }

  /** The Amazon stage after resolution: the API's answer, else a scrape of the affiliate or resolved URL. */
  function AmazonPath(resolved: string, w: World): Metadata {
    match AsinOf(resolved)
    case None => Scrape(resolved, w)
    case Some(asin) =>
      match GetAmazonProductInfo(asin, w.env, w.timestamp, w.crypto, w.post)
      case Some(info) => Metadata(info.title, Some("Amazon"), info.imageUrl, info.price, info.url)
      case None => Scrape(BuildAmazonUrl(asin, w.env), w)
  }

  /** The whole decision procedure as a value. */
  function MetadataOf(url: string, w: World): Metadata {
    if IsAmazonUrl(url) then AmazonPath(ResolvedUrl(url, w), w) else Scrape(url, w)
  }

  /** Whether the API answered for the ASIN of an Amazon URL. */
  predicate ApiAnswered(url: string, w: World) {
    IsAmazonUrl(url) && AsinOf(ResolvedUrl(url, w)).Some?
    && GetAmazonProductInfo(AsinOf(ResolvedUrl(url, w)).value, w.env, w.timestamp, w.crypto, w.post).Some?
  }

  /** `fetchUrlMetadata`, reassigning `url` as the source does. */
  method FetchUrlMetadata(url0: string, w: World) returns (m: Metadata)
    ensures m == MetadataOf(url0, w)
  {
    var url := url0;
    if IsAmazonUrl(url) {
      if Contains(url, "amzn.to") {
        var resolvedUrl := w.resolve(url);
        if resolvedUrl.Some? && resolvedUrl.value != [] {
          url := resolvedUrl.value;
        }
      }
      assert url == ResolvedUrl(url0, w);
      var asin := ExtractAsin(url);
      if asin.Some? {
        var amazonInfo := GetAmazonProductInfo(asin.value, w.env, w.timestamp, w.crypto, w.post);
        if amazonInfo.Some? {
          var info := amazonInfo.value;
          return Metadata(info.title, Some("Amazon"), info.imageUrl, info.price, info.url);
        }
        url := BuildAmazonUrl(asin.value, w.env);
      }
    }
    m := ScrapePage(url, w);
  }

  /** The generic stage of `fetchUrlMetadata`, running the extractors in the source's order. */
  method ScrapePage(url: string, w: World) returns (m: Metadata)
    ensures m == Scrape(url, w)
  {
    match w.fetch(url)
    case Html(html) =>
      var title := ExtractTitle(html);
      var imageUrl := ExtractImage(html, url);
      if imageUrl.Threw? {
        return NoMetadata(url);
      }
      var price := ExtractPrice(html, w.runtime);
      var siteName := ExtractSiteName(html, url);
      return Metadata(title, Some(siteName), imageUrl.value, price, url);
    case _ =>
      return NoMetadata(url);
  }

  // ---------------------------------------------------------------------------
  // Outcomes

  /**
   * A null site name marks a failure: then the other three content fields are
   * null too, and the page at the final URL failed to load or its image URL
   * could not be resolved. Conversely every success names a site.
   */
  lemma NullSiteNameIsFailure(url: string, w: World)
    ensures var m := MetadataOf(url, w);
      m.siteName.None? <==> !ApiAnswered(url, w) && !PageLoaded(m.url, w)
    ensures var m := MetadataOf(url, w);
      m.siteName.None? ==> m.title.None? && m.imageUrl.None? && m.price.None?
  {
    if IsAmazonUrl(url) {
      var resolved := ResolvedUrl(url, w);
      match AsinOf(resolved)
      case None => ScrapeSiteName(resolved, w);
      case Some(asin) =>
        if GetAmazonProductInfo(asin, w.env, w.timestamp, w.crypto, w.post).None? {
          ScrapeSiteName(BuildAmazonUrl(asin, w.env), w);
        }
    } else {
      ScrapeSiteName(url, w);
    }
  }

  /** The page loaded and its image URL, if any, could be resolved. */
  predicate PageLoaded(url: string, w: World) {
    w.fetch(url).Html? && ImageOf(w.fetch(url).text, url).Done?
  }

  lemma ScrapeSiteName(url: string, w: World)
    ensures Scrape(url, w).url == url
    ensures Scrape(url, w).siteName.None? <==> !PageLoaded(url, w)
    ensures Scrape(url, w).siteName.None? ==> Scrape(url, w) == NoMetadata(url)
  {
  }

  /** Only an Amazon URL is ever rewritten, to its resolved short link or to the affiliate URL. */
  lemma ResultUrl(url: string, w: World)
    ensures var m := MetadataOf(url, w);
      m.url == url
      || (IsAmazonUrl(url) && m.url == ResolvedUrl(url, w))
      || (IsAmazonUrl(url) && AsinOf(ResolvedUrl(url, w)).Some?
          && m.url == BuildAmazonUrl(AsinOf(ResolvedUrl(url, w)).value, w.env))
  {
    if IsAmazonUrl(url) {
      var resolved := ResolvedUrl(url, w);
      match AsinOf(resolved)
      case None => ScrapeSiteName(resolved, w);
      case Some(asin) =>
        if GetAmazonProductInfo(asin, w.env, w.timestamp, w.crypto, w.post).None? {
          ScrapeSiteName(BuildAmazonUrl(asin, w.env), w);
        } else {
          ProductInfoUrl(asin, w.env, w.timestamp, w.crypto, w.post);
        }
    } else {
      ScrapeSiteName(url, w);
    }
  }

  /** Outside Amazon, the URL comes back unchanged and the page is scraped. */
  lemma NonAmazonUnchanged(url: string, w: World)
    requires !IsAmazonUrl(url)
    ensures MetadataOf(url, w).url == url
    ensures MetadataOf(url, w) == Scrape(url, w)
  {
  }

  /**
   * A successful API call answers without any scrape: the site is "Amazon"
   * and the URL is the affiliate URL of the ASIN, with the configured tag.
   */
  lemma AmazonSuccess(url: string, w: World, asin: string)
    requires IsAmazonUrl(url) && AsinOf(ResolvedUrl(url, w)) == Some(asin)
    requires GetAmazonProductInfo(asin, w.env, w.timestamp, w.crypto, w.post).Some?
    ensures var m := MetadataOf(url, w);
      m.siteName == Some("Amazon") && m.url == BuildAmazonUrl(asin, w.env)
      && IsAmazonUrl(m.url) && m.url[26 + |asin|..] == "?tag=" + w.env.associateTag.value
    ensures var info := GetAmazonProductInfo(asin, w.env, w.timestamp, w.crypto, w.post).value;
      MetadataOf(url, w) == Metadata(info.title, Some("Amazon"), info.imageUrl, info.price, info.url)
    ensures forall f :: MetadataOf(url, w) == MetadataOf(url, w.(fetch := f))
  {
    ProductInfoUrl(asin, w.env, w.timestamp, w.crypto, w.post);
    forall f
      ensures MetadataOf(url, w) == MetadataOf(url, w.(fetch := f))
    {
      assert ResolvedUrl(url, w) == ResolvedUrl(url, w.(fetch := f));
    }
  }

  /**
   * When the API gives nothing for a found ASIN, the scrape runs against the
   * affiliate URL, and every outcome (even a failed fetch) reports that URL.
   */
  lemma ApiFailureRewritesUrl(url: string, w: World, asin: string)
    requires IsAmazonUrl(url) && AsinOf(ResolvedUrl(url, w)) == Some(asin)
    requires GetAmazonProductInfo(asin, w.env, w.timestamp, w.crypto, w.post).None?
    ensures MetadataOf(url, w) == Scrape(BuildAmazonUrl(asin, w.env), w)
    ensures MetadataOf(url, w).url == BuildAmazonUrl(asin, w.env)
    ensures IsAmazonUrl(MetadataOf(url, w).url)
  {
    BuildAmazonUrlShape(asin, w.env);
  }

  /** A failed fetch gives four nulls and the URL as it stood at the fetch. */
  lemma FetchFailureKeepsUrl(url: string, w: World)
    requires !w.fetch(url).Html?
    ensures Scrape(url, w) == NoMetadata(url)
  {
  }

  /** A loaded page with a resolvable image gives the four extractors' results, the site name never null. */
  lemma ScrapeSuccess(url: string, w: World, html: string)
    requires w.fetch(url) == Html(html) && ImageOf(html, url).Done?
    ensures var m := Scrape(url, w);
      m == Metadata(TitleOf(html), Some(SiteNameOf(html, url)), ImageOf(html, url).value,
                    PriceOf(html, w.runtime), url)
  {
  }
}
