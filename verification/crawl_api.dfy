/** The `/crawl` request handler, as far as it concerns the crawl engine:
    the URL check that guards it, the default page budget, and what the
    handler answers. */
module CrawlApi {

  import opened Wrappers
  import opened Strings
  import opened Crawler
  import opened CrawlProperties

  /** The handler's answer: a 400 with an error message, or the crawl result
      (which it also stores). */
  datatype Response = BadRequest(error: string) | Crawled(result: CrawlResult)

  const InvalidUrlMessage := "Valid URL required"

  /** The guard `!url || !url.startsWith('http')`, negated: the body's `url`
      field is present, non-empty and starts with `http`. */
  predicate AcceptsUrl(url: Option<string>): (b: bool)
    // the emptiness test is subsumed by the prefix test
    ensures b <==> url.Some? && StartsWith(url.value, "http")
  {
    url.Some? && url.value != "" && StartsWith(url.value, "http")
  }

  /** `POST /crawl`: rejects a bad URL without crawling; otherwise crawls with
      the default budget of 5 pages. */
  method HandleCrawl(url: Option<string>, render: Renderer) returns (response: Response)
    ensures response.BadRequest? <==> !(url.Some? && StartsWith(url.value, "http"))
    ensures response.BadRequest? ==> response.error == InvalidUrlMessage
    ensures response.Crawled? ==>
      response.result == Report(Run(url.value, DefaultMaxPages, render, Init(url.value)))
  {
    if !AcceptsUrl(url) {
      return BadRequest(InvalidUrlMessage);
    }
    var result := CrawlDomain(url.value, DefaultMaxPages, render);
    response := Crawled(result);
  }

  /** A crawl the handler starts never leaves `http`: every URL it navigates
      to or visits starts with `http`, and at most 5 pages are visited. */
  lemma AcceptedCrawlStaysHttp(url: string, render: Renderer)
    requires AcceptsUrl(Some(url))
    ensures var r, log := Run(url, DefaultMaxPages, render, Init(url)), Attempts(url, DefaultMaxPages, render, Init(url));
      && |r.visited| <= 5
      && (forall a :: a in log ==> StartsWith(a.url, "http"))
      && (forall u :: u in r.visited ==> StartsWith(u, "http"))
  {
    CrawlGuarantees(url, DefaultMaxPages, render);
    forall u: string | StartsWith(u, url) ensures StartsWith(u, "http") {
      StartsWithTransitive(u, url, "http");
    }
  }

}
