/**
 * `get_sitemap_urls`, reduced to what happens after the HTTP request and the
 * XML parse: the request and the parser are outside the model, and their
 * result is an input.
 */
module Sitemap {
  import opened Strings

  /**
   * What fetching and parsing a sitemap produced: a failure (network error,
   * non-2xx status, unparsable body) or the text of every `<loc>` element in
   * document order.
   */
  datatype FetchOutcome = FetchFailed | Fetched(locTexts: seq<string>)

  /**
   * The URLs of a sitemap: each `<loc>` text with surrounding whitespace
   * stripped. A failed fetch yields no URLs, and so does a sitemap without
   * `<loc>` elements (`get_sitemap_urls` raises and catches a `ValueError` for it).
   */
  function SitemapUrls(fetch: FetchOutcome): (urls: seq<string>)
    ensures fetch.FetchFailed? ==> urls == []
    ensures fetch.Fetched? ==> |urls| == |fetch.locTexts|
  {
    match fetch
    case FetchFailed => []
    case Fetched(locs) =>
      // An empty list raises `ValueError`, whose handler returns an empty
      // list as well, so that branch does not change the result.
      seq(|locs|, i requires 0 <= i < |locs| => Strip(locs[i], IsPythonSpace))
  }

  /**
   * A sitemap with N `<loc>` elements gives N URLs in document order, each
   * the element's text without leading or trailing whitespace; the result is
   * empty exactly when the fetch failed or no `<loc>` was found.
   */
  lemma SitemapUrlsInOrder(fetch: FetchOutcome)
    ensures SitemapUrls(fetch) == [] <==> fetch.FetchFailed? || fetch.locTexts == []
    ensures fetch.Fetched? ==> forall i :: 0 <= i < |fetch.locTexts| ==>
              var u := SitemapUrls(fetch)[i];
              u == Strip(fetch.locTexts[i], IsPythonSpace)
              && (u == [] || (!IsPythonSpace(u[0]) && !IsPythonSpace(u[|u| - 1])))
              && (u == [] <==> AllDropped(fetch.locTexts[i], IsPythonSpace))
  {
  }
}
