/**
 * `scrape_site`: the site dispatch in front of the scrapers. The site
 * name is lower-cased; the Traya names run the Traya scraper (an
 * exception from it gives no items), the Furlenco names give no items,
 * and every other site gets five numbered mock products.
 */
module Scraper {
  import opened Wrappers
  import opened Text
  import opened Store
  import TrayaScraper

  /** The cap `scrape_site` passes to the Traya scraper. */
  const TrayaCap := 100

  /** Which branch of the dispatch a lower-cased site name takes. */
  datatype Branch = TrayaSite | FurlencoSite | MockSite

  function BranchOf(site: string): Branch {
    if site == "traya" || site == "traya.health" then TrayaSite
    else if site == "furlenco" || site == "furlenco.com" then FurlencoSite
    else MockSite
  }

  /** Mock product number `i` for the (lower-cased) `site`. */
  function MockItem(site: string, i: nat): ProductIn {
    ProductIn(
      "Sample Product " + NatToString(i) + " (" + site + ")",
      Some("N/A"),
      Some("This is a sample description for product " + NatToString(i) + " scraped from " + site + "."),
      Some([("color", Text("black")), ("size", Text("M"))]),
      Some("https://via.placeholder.com/300"),
      Some("sample"),
      Some(MockUrl(site, i)))
  }

  function MockUrl(site: string, i: nat): string {
    "https://" + site + "/product/" + NatToString(i)
  }

  /** Mock products 1 to `n`, in order. */
  function MockItems(site: string, n: nat): (r: seq<ProductIn>)
    ensures |r| == n
    ensures forall i :: 0 <= i < n ==> r[i] == MockItem(site, i + 1)
  {
    if n == 0 then [] else MockItems(site, n - 1) + [MockItem(site, n)]
  }

  /** What the Traya branch returns: the scraper's products, or nothing when it raised. */
  function TrayaItems(web: TrayaScraper.Web): seq<ProductIn> {
    var urls := Take(TrayaScraper.Unique(TrayaScraper.Wanted(web), TrayaScraper.Candidates(web, TrayaScraper.Seeds)), TrayaCap);
    match TrayaScraper.Harvest(TrayaScraper.Outcomes(web, urls), TrayaCap)
    case Ok(ps) => ps
    case Err(_) => []
  }

  /** The items `scrape_site` returns for `site`. */
  function SiteItems(site: string, web: TrayaScraper.Web): seq<ProductIn> {
    var s := LowerAscii(site);
    match BranchOf(s)
    case TrayaSite => TrayaItems(web)
    case FurlencoSite => []
    case MockSite => MockItems(s, 5)
  }

  /**
   * `scrape_site`. Whatever the site, the items carry distinct, non-null
   * source URLs, so inserting them into an empty table stores them all.
   */
  method ScrapeSite(site: string, web: TrayaScraper.Web) returns (results: seq<ProductIn>)
    ensures results == SiteItems(site, web)
    ensures DistinctUrls(results)
    ensures BranchOf(LowerAscii(site)) == TrayaSite ==> results == TrayaItems(web)
    ensures BranchOf(LowerAscii(site)) == FurlencoSite ==> results == []
    ensures BranchOf(LowerAscii(site)) == MockSite ==>
      |results| == 5 && forall i :: 0 <= i < 5 ==> results[i] == MockItem(LowerAscii(site), i + 1)
  {
    var s := LowerAscii(site);
    results := [];
    if s == "traya" || s == "traya.health" {
      var r := TrayaScraper.ScrapeTraya(web, TrayaCap);
      if r.Ok? {
        results := r.value;
      }
    } else if s == "furlenco" || s == "furlenco.com" {
      results := [];
    } else {
      for i := 1 to 6
        invariant results == MockItems(s, i - 1)
      {
        results := results + [MockItem(s, i)];
      }
      MockUrlsDistinct(s, 5);
    }
  }

  /** Mock items 1 to `n` have pairwise distinct source URLs. */
  lemma {:induction false} MockUrlsDistinct(site: string, n: nat)
    ensures DistinctUrls(MockItems(site, n))
  {
    var r := MockItems(site, n);
    forall i, j | 0 <= i < j < n ensures r[i].sourceUrl != r[j].sourceUrl {
      MockUrlsDiffer(site, i + 1, j + 1);
    }
  }

  /** Different item numbers give different mock URLs: after the common prefix come their different decimal forms. */
  lemma {:induction false} MockUrlsDiffer(site: string, a: nat, b: nat)
    requires a != b
    ensures MockUrl(site, a) != MockUrl(site, b)
  {
    NatToStringInjective(a, b);
    var prefix := "https://" + site + "/product/";
    var u, v := MockUrl(site, a), MockUrl(site, b);
    assert u[|prefix|..] == NatToString(a);
    assert v[|prefix|..] == NatToString(b);
  }

  /** Every mock title starts with "Sample Product ", which the cleanup script looks for. */
  lemma {:induction false} MockTitlesAreSamples(site: string, n: nat)
    ensures forall i :: 0 <= i < n ==> StartsWith(MockItems(site, n)[i].title, "Sample Product ")
  {
    forall i | 0 <= i < n ensures StartsWith(MockItems(site, n)[i].title, "Sample Product ") {
      var t := MockItems(site, n)[i].title;
      assert t == "Sample Product " + (NatToString(i + 1) + " (" + site + ")");
    }
  }
}
