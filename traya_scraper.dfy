/**
 * The site-specific scraper for traya.health: the product-URL test, the
 * field-extraction rules applied to one fetched product page, and the
 * crawl that collects product links from three seed pages and fetches
 * each product.
 *
 * HTML is not modelled. A fetched page is a record of what the selectors
 * find on it (`Page`), and the network and URL library are the
 * parameters gathered in `Web`.
 */
module TrayaScraper {
  import opened Wrappers
  import opened Text
  import opened Store

  const Domain: string := "traya.health"

  /** The seed pages crawled for product links, in order. */
  const Seeds: seq<string> := ["https://traya.health/", "https://traya.health/collections/all", "https://traya.health/collections"]

  // ---------------------------------------------------------------------
  // URL test
  // ---------------------------------------------------------------------

  /** `is_product_url`: a non-empty href containing both "/products/" and the domain. */
  predicate IsProductUrl(href: string) {
    if href == "" then false else Contains(href, "/products/") && Contains(href, Domain)
  }

  /**
   * The test holds exactly when both needles occur somewhere in the href;
   * the guard on the empty href changes nothing, since a non-empty needle
   * never occurs in the empty string.
   */
  lemma {:induction false} IsProductUrlIff(href: string)
    ensures IsProductUrl(href) <==>
      (exists i :: OccursAt(href, "/products/", i)) && (exists i :: OccursAt(href, Domain, i))
  {
    ContainsAt(href, "/products/");
    ContainsAt(href, Domain);
    if href == "" {
      NothingInEmpty("/products/");
    }
  }

  // ---------------------------------------------------------------------
  // One product page
  // ---------------------------------------------------------------------

  /** A `str` or `None` value that Python treats as true: present and non-empty. */
  predicate Truthy(o: Option<string>) {
    o.Some? && o.value != ""
  }

  /**
   * `extract_text_or_none`: `found[i]` is the stripped text of the element
   * the i-th selector picks, or `None` when it picks nothing. The result
   * is the first non-empty text, or `None` when there is none.
   */
  method ExtractTextOrNone(found: seq<Option<string>>) returns (r: Option<string>)
    ensures r.None? <==> forall i :: 0 <= i < |found| ==> !Truthy(found[i])
    ensures r.Some? ==> exists i :: 0 <= i < |found| && found[i] == r && Truthy(r)
                                    && forall k :: 0 <= k < i ==> !Truthy(found[k])
  {
    for i := 0 to |found|
      invariant forall k :: 0 <= k < i ==> !Truthy(found[k])
    {
      if Truthy(found[i]) {
        return found[i];
      }
    }
    return None;
  }

  /**
   * What the selectors find on a fetched product page. Texts of elements
   * are already stripped (`get_text(strip=True)`); attribute values are
   * raw. `titleTag` is `None` without a `<title>`, `Some(None)` for a
   * `<title>` whose content is not a single string, `Some(Some(s))`
   * otherwise.
   */
  datatype Page = Page(
    titleTag: Option<Option<string>>,
    ogTitle: Option<string>,              // content of meta og:title
    h1: Option<string>,                   // text of the first h1
    priceMeta: Option<string>,            // content of meta product:price:amount
    priceElement: Option<string>,         // text of the first price element
    descriptionMeta: Option<string>,      // content of meta name=description
    descriptionElement: Option<string>,   // text of the first description element
    featureSections: seq<seq<string>>,    // texts of the li/p items of each feature section
    ogImage: Option<string>,              // content of meta og:image
    imageSrc: Option<string>,             // src of the first product image
    breadcrumb: Option<seq<string>>)      // texts of the breadcrumb's links

  /** The title: a non-empty h1, else a non-empty og:title, else the `<title>` string, else "". */
  function TitleOf(pg: Page): string {
    if Truthy(pg.h1) then pg.h1.value
    else if Truthy(pg.ogTitle) then Strip(pg.ogTitle.value)
    else if pg.titleTag.Some? && pg.titleTag.value.Some? then Strip(pg.titleTag.value.value)
    else ""
  }

  /** The price: the price element's text whenever the element exists, else a non-empty price meta, else "". */
  function PriceOf(pg: Page): string {
    if pg.priceElement.Some? then pg.priceElement.value
    else if Truthy(pg.priceMeta) then pg.priceMeta.value
    else ""
  }

  /** The description: the stripped meta description unless that is empty, else the description element's text, else "". */
  function DescriptionOf(pg: Page): string {
    var fromMeta := if Truthy(pg.descriptionMeta) then Strip(pg.descriptionMeta.value) else "";
    if fromMeta != "" then fromMeta
    else if pg.descriptionElement.Some? then pg.descriptionElement.value
    else ""
  }

  /** The image: the product image's `src` resolved against the page URL, else og:image, else "". */
  function ImageOf(url: string, pg: Page, join: (string, string) -> string): string {
    if Truthy(pg.imageSrc) then join(url, pg.imageSrc.value)
    else if Truthy(pg.ogImage) then pg.ogImage.value
    else ""
  }

  /** Python's `parts[-1]` for the non-empty strings `parts` of `xs`, or "" when there are none. */
  function LastNonEmpty(xs: seq<string>): string {
    if xs == [] then ""
    else if xs[|xs| - 1] != "" then xs[|xs| - 1]
    else LastNonEmpty(xs[..|xs| - 1])
  }

  /** `LastNonEmpty` is "" exactly when every string is; otherwise it is one with only empty strings after it. */
  lemma {:induction false} LastNonEmptyFacts(xs: seq<string>)
    ensures LastNonEmpty(xs) == "" <==> forall i :: 0 <= i < |xs| ==> xs[i] == ""
    ensures LastNonEmpty(xs) != "" ==>
      exists i :: 0 <= i < |xs| && xs[i] == LastNonEmpty(xs) && forall k :: i < k < |xs| ==> xs[k] == ""
  {
    if xs != [] && xs[|xs| - 1] == "" {
      var init := xs[..|xs| - 1];
      LastNonEmptyFacts(init);
      assert forall i :: 0 <= i < |init| ==> init[i] == xs[i];
      if LastNonEmpty(init) != "" {
        var i :| 0 <= i < |init| && init[i] == LastNonEmpty(init) && forall k :: i < k < |init| ==> init[k] == "";
        assert forall k :: i < k < |xs| ==> xs[k] == "";
      }
    } else if xs != [] {
      assert xs[|xs| - 1] == LastNonEmpty(xs);
    }
  }

  /** The category: the last non-empty breadcrumb link text, or "". */
  function CategoryOf(pg: Page): string {
    if pg.breadcrumb.Some? then LastNonEmpty(pg.breadcrumb.value) else ""
  }

  // ---------------------------------------------------------------------
  // The features dictionary
  // ---------------------------------------------------------------------

  /** `d.get(k)` on an insertion-ordered dictionary. */
  function Lookup(fs: Features, k: string): Option<FeatureValue> {
    if fs == [] then None
    else if fs[0].0 == k then Some(fs[0].1)
    else Lookup(fs[1..], k)
  }

  predicate UniqueKeys(fs: Features) {
    forall i, j :: 0 <= i < j < |fs| ==> fs[i].0 != fs[j].0
  }

  /**
   * `d[k] = v`: an existing key keeps its position and gets the new value;
   * a new key goes at the end; every other key is untouched.
   */
  function SetKey(fs: Features, k: string, v: FeatureValue): Features {
    if fs == [] then [(k, v)]
    else if fs[0].0 == k then [(k, v)] + fs[1..]
    else [fs[0]] + SetKey(fs[1..], k, v)
  }

  /**
   * After `d[k] = v` the key holds the new value and every other key its
   * old one; an existing key keeps its position, a new one goes at the end.
   */
  lemma {:induction false} SetKeyFacts(fs: Features, k: string, v: FeatureValue)
    ensures Lookup(SetKey(fs, k, v), k) == Some(v)
    ensures forall k' :: k' != k ==> Lookup(SetKey(fs, k, v), k') == Lookup(fs, k')
    ensures |SetKey(fs, k, v)| == if Lookup(fs, k).Some? then |fs| else |fs| + 1
    ensures forall i :: 0 <= i < |fs| ==> SetKey(fs, k, v)[i].0 == fs[i].0
    ensures Lookup(fs, k).None? ==> SetKey(fs, k, v) == fs + [(k, v)]
  {
    if fs != [] && fs[0].0 != k {
      var rest := SetKey(fs[1..], k, v);
      SetKeyFacts(fs[1..], k, v);
      assert SetKey(fs, k, v) == [fs[0]] + rest;
      forall i | 1 <= i < |fs| ensures SetKey(fs, k, v)[i].0 == fs[i].0 {
        assert fs[1..][i - 1] == fs[i];
      }
    }
  }

  /** `d[k] = v` keeps the keys distinct. */
  lemma {:induction false} SetKeyKeepsUnique(fs: Features, k: string, v: FeatureValue)
    requires UniqueKeys(fs)
    ensures UniqueKeys(SetKey(fs, k, v))
  {
    SetKeyFacts(fs, k, v);
    var r := SetKey(fs, k, v);
    if Lookup(fs, k).None? {
      forall i | 0 <= i < |fs| ensures fs[i].0 != k {
        LookupFinds(fs, i);
      }
    } else if fs[0].0 != k {
      assert r == [fs[0]] + SetKey(fs[1..], k, v);
      SetKeyKeepsUnique(fs[1..], k, v);
      SetKeyFacts(fs[1..], k, v);
      forall i | 1 <= i < |r| ensures r[i].0 != fs[0].0 {
        assert r[i].0 == fs[i].0;
      }
    }
  }

  /** A key present in the list is found by `Lookup`. */
  lemma {:induction false} LookupFinds(fs: Features, i: int)
    requires 0 <= i < |fs|
    ensures Lookup(fs, fs[i].0).Some?
  {
    if i > 0 && fs[0].0 != fs[i].0 {
      LookupFinds(fs[1..], i - 1);
    }
  }

  /**
   * One feature line into the dictionary. A line with a colon is split at
   * its first colon into a stripped key and value, overwriting the key. A
   * line without is appended to the list under "features", which is
   * created on first use; `None` when "features" already holds a string,
   * which has no `append` (the fetch raises).
   */
  function AddLine(fs: Features, t: string): Option<Features> {
    if ':' in t then
      var i := FirstIndex(t, ':');
      Some(SetKey(fs, Strip(t[..i]), Text(Strip(t[i + 1..]))))
    else
      match Lookup(fs, "features")
      case None => Some(SetKey(fs, "features", Items([t])))
      case Some(Items(xs)) => Some(SetKey(fs, "features", Items(xs + [t])))
      case Some(Text(_)) => None
  }

  /** The dictionary after all `lines`, in order, or `None` if a line raises. */
  function ParseFeatures(lines: seq<string>): Option<Features> {
    if lines == [] then Some([]) else Step(ParseFeatures(lines[..|lines| - 1]), lines[|lines| - 1])
  }

  /** One more line, unless an earlier one has raised. */
  function Step(acc: Option<Features>, t: string): Option<Features> {
    if acc.None? then None else AddLine(acc.value, t)
  }

  /** All feature items of all sections, section after section. */
  function Flatten(sections: seq<seq<string>>): seq<string> {
    if sections == [] then [] else Flatten(sections[..|sections| - 1]) + sections[|sections| - 1]
  }

  /** The result is a dictionary: no key twice. */
  lemma {:induction false} ParseFeaturesUniqueKeys(lines: seq<string>)
    ensures ParseFeatures(lines).Some? ==> UniqueKeys(ParseFeatures(lines).value)
  {
    if lines != [] {
      var init := lines[..|lines| - 1];
      ParseFeaturesUniqueKeys(init);
      if ParseFeatures(init).Some? {
        AddLineKeepsKeysUnique(ParseFeatures(init).value, lines[|lines| - 1]);
      }
    }
  }

  lemma {:induction false} AddLineKeepsKeysUnique(fs: Features, t: string)
    requires UniqueKeys(fs)
    ensures AddLine(fs, t).Some? ==> UniqueKeys(AddLine(fs, t).value)
  {
    if ':' in t {
      var i := FirstIndex(t, ':');
      SetKeyKeepsUnique(fs, Strip(t[..i]), Text(Strip(t[i + 1..])));
    } else {
      match Lookup(fs, "features")
      case None => SetKeyKeepsUnique(fs, "features", Items([t]));
      case Some(Items(xs)) => SetKeyKeepsUnique(fs, "features", Items(xs + [t]));
      case Some(Text(_)) =>
    }
  }

  /** Lines without a colon are collected, in order, under the one key "features". */
  lemma {:induction false} ColonFreeLines(lines: seq<string>)
    requires forall i :: 0 <= i < |lines| ==> ':' !in lines[i]
    ensures ParseFeatures(lines) == Some(if lines == [] then [] else [("features", Items(lines))])
  {
    if lines != [] {
      var init := lines[..|lines| - 1];
      ColonFreeLines(init);
      var t := lines[|lines| - 1];
      assert ParseFeatures(lines) == Step(ParseFeatures(init), t);
      if init == [] {
        assert lines == [t];
        assert AddLine([], t) == Some(SetKey([], "features", Items([t])));
      } else {
        var fs := [("features", Items(init))];
        assert Lookup(fs, "features") == Some(Items(init));
        assert SetKey(fs, "features", Items(init + [t])) == [("features", Items(init + [t]))];
        assert init + [t] == lines;
      }
    }
  }

  /** A `key: value` line sets that key to that value, whatever was stored under it before. */
  lemma {:induction false} LaterKeyOverwrites(lines: seq<string>, t: string)
    requires ParseFeatures(lines).Some? && ':' in t
    ensures var i := FirstIndex(t, ':');
            && ParseFeatures(lines + [t]).Some?
            && Lookup(ParseFeatures(lines + [t]).value, Strip(t[..i])) == Some(Text(Strip(t[i + 1..])))
  {
    assert (lines + [t])[..|lines|] == lines;
    var i := FirstIndex(t, ':');
    SetKeyFacts(ParseFeatures(lines).value, Strip(t[..i]), Text(Strip(t[i + 1..])));
  }

  /** Once "features" holds a string (from a "features: ..." line), a later line without a colon raises. */
  lemma {:induction false} LooseLineAfterFeaturesKeyRaises(lines: seq<string>, t: string)
    requires ParseFeatures(lines).Some? && Lookup(ParseFeatures(lines).value, "features").Some?
    requires Lookup(ParseFeatures(lines).value, "features").value.Text?
    requires ':' !in t
    ensures ParseFeatures(lines + [t]).None?
  {
    assert (lines + [t])[..|lines|] == lines;
  }

  // ---------------------------------------------------------------------
  // fetch_product
  // ---------------------------------------------------------------------

  /** What `fetch_product` does for one URL: a product dict, `{}`, or an exception. */
  datatype FetchOutcome = Fetched(product: ProductIn) | EmptyDict | Raised

  /**
   * The outcome for `url` given the fetched page (`None` when the request
   * or status check fails): `{}` on a failed request; an exception for a
   * `<title>` without a single string or a feature line that cannot be
   * appended; otherwise every string field present (empty when nothing
   * was found), features only when some were parsed, and the URL itself.
   */
  function Fetch(url: string, page: Option<Page>, join: (string, string) -> string): FetchOutcome {
    match page
    case None => EmptyDict
    case Some(pg) =>
      if pg.titleTag == Some(None) then Raised
      else
        match ParseFeatures(Flatten(pg.featureSections))
        case None => Raised
        case Some(fs) =>
          Fetched(ProductIn(TitleOf(pg), Some(PriceOf(pg)), Some(DescriptionOf(pg)),
                            if fs == [] then None else Some(fs),
                            Some(ImageOf(url, pg, join)), Some(CategoryOf(pg)), Some(url)))
  }

  /** A fetched product always carries its own URL, every string field, and no empty features dict. */
  lemma {:induction false} FetchedShape(url: string, page: Option<Page>, join: (string, string) -> string)
    ensures Fetch(url, page, join).EmptyDict? <==> page.None?
    ensures Fetch(url, page, join).Fetched? ==>
      var p := Fetch(url, page, join).product;
      && p.sourceUrl == Some(url)
      && p.price.Some? && p.description.Some? && p.imageUrl.Some? && p.category.Some?
      && (p.features.Some? ==> p.features.value != [])
  {
  }

  /** Python's `x or ""` for a string-or-None `x`. */
  function OrEmpty(o: Option<string>): string {
    if Truthy(o) then o.value else ""
  }

  /**
   * `fetch_product` over an already fetched page: each field is assigned
   * from its weakest source first and overwritten by stronger ones, and the
   * features dictionary is filled item by item.
   */
  method FetchProduct(url: string, page: Option<Page>, join: (string, string) -> string) returns (out: FetchOutcome)
    ensures out == Fetch(url, page, join)
  {
    if page.None? {
      return EmptyDict;
    }
    var pg := page.value;
    var title, raised := PickTitle(pg);
    if raised {
      return Raised;
    }
    var price := PickPrice(pg);
    var description := PickDescription(pg);
    var parsed := ParseFeatureSections(pg.featureSections);
    if parsed.None? {
      return Raised;
    }
    var features := parsed.value;
    var imageUrl := PickImage(url, pg, join);
    var category := PickCategory(pg);
    out := Fetched(ProductIn(
      OrEmpty(title), Some(OrEmpty(price)), Some(OrEmpty(description)),
      if features == [] then None else Some(features),
      Some(OrEmpty(imageUrl)), Some(OrEmpty(category)), Some(url)));
  }

  /** The title block: `<title>`, then og:title, then h1, each overriding the one before; raises on a `<title>` without a single string. */
  method PickTitle(pg: Page) returns (title: Option<string>, raised: bool)
    ensures raised <==> pg.titleTag == Some(None)
    ensures !raised ==> OrEmpty(title) == TitleOf(pg)
  {
    title, raised := None, false;
    if pg.titleTag.Some? {
      if pg.titleTag.value.None? {
        return None, true;
      }
      title := Some(Strip(pg.titleTag.value.value));
    }
    if Truthy(pg.ogTitle) {
      title := Some(Strip(pg.ogTitle.value));
    }
    if Truthy(pg.h1) {
      title := pg.h1;
    }
  }

  /** The price block: a non-empty price meta, overridden by any price element. */
  method PickPrice(pg: Page) returns (price: Option<string>)
    ensures OrEmpty(price) == PriceOf(pg)
  {
    price := None;
    if Truthy(pg.priceMeta) {
      price := pg.priceMeta;
    }
    if pg.priceElement.Some? {
      price := pg.priceElement;
    }
  }

  /** The description block: the stripped meta description, or the element's text when that leaves nothing. */
  method PickDescription(pg: Page) returns (description: Option<string>)
    ensures OrEmpty(description) == DescriptionOf(pg)
  {
    description := None;
    if Truthy(pg.descriptionMeta) {
      description := Some(Strip(pg.descriptionMeta.value));
    }
    if !Truthy(description) && pg.descriptionElement.Some? {
      description := pg.descriptionElement;
    }
  }

  /** The image block: og:image, overridden by a product image's resolved `src`. */
  method PickImage(url: string, pg: Page, join: (string, string) -> string) returns (imageUrl: Option<string>)
    ensures OrEmpty(imageUrl) == ImageOf(url, pg, join)
  {
    imageUrl := None;
    if Truthy(pg.ogImage) {
      imageUrl := pg.ogImage;
    }
    if Truthy(pg.imageSrc) {
      imageUrl := Some(join(url, pg.imageSrc.value));
    }
  }

  /** The category block: the last of the breadcrumb's non-empty link texts. */
  method PickCategory(pg: Page) returns (category: Option<string>)
    ensures OrEmpty(category) == CategoryOf(pg)
  {
    category := None;
    if pg.breadcrumb.Some? {
      var parts := LastNonEmpty(pg.breadcrumb.value);
      if parts != "" {
        category := Some(parts);
      }
    }
  }

  /**
   * The nested loop of `fetch_product` over the feature sections and their
   * items, updating the dictionary in place; `None` when an item raises.
   */
  method ParseFeatureSections(sections: seq<seq<string>>) returns (r: Option<Features>)
    ensures r == ParseFeatures(Flatten(sections))
  {
    var features: Features := [];
    for s := 0 to |sections|
      invariant ParseFeatures(Flatten(sections[..s])) == Some(features)
    {
      assert sections[..s + 1][..s] == sections[..s];
      assert Flatten(sections[..s + 1]) == Flatten(sections[..s]) + sections[s];
      var next := AddSection(features, sections[s], Flatten(sections[..s]));
      if next.None? {
        FlattenPrefix(sections, s + 1);
        var done, all := Flatten(sections[..s + 1]), Flatten(sections);
        assert done + all[|done|..] == all;
        ParseFeaturesStaysRaised(done, all[|done|..]);
        return None;
      }
      features := next.value;
    }
    assert sections[..|sections|] == sections;
    return Some(features);
  }

  /**
   * The inner loop over one section's items, continuing from the
   * dictionary built from the lines `done` before them.
   */
  method AddSection(features0: Features, items: seq<string>, ghost done: seq<string>) returns (r: Option<Features>)
    requires ParseFeatures(done) == Some(features0)
    ensures r == ParseFeatures(done + items)
  {
    var features := features0;
    ghost var seen := done;
    assert done + items[..0] == done;
    for j := 0 to |items|
      invariant seen == done + items[..j]
      invariant ParseFeatures(seen) == Some(features)
    {
      ParseFeaturesStep(seen, items[j]);
      assert done + items[..j + 1] == seen + [items[j]];
      var next := AddLine(features, items[j]);
      seen := seen + [items[j]];
      if next.None? {
        assert done + items == seen + items[j + 1..];
        ParseFeaturesStaysRaised(seen, items[j + 1..]);
        return None;
      }
      features := next.value;
    }
    assert items[..|items|] == items;
    return Some(features);
  }


  /** A raising line makes every longer run of lines raise as well. */
  lemma {:induction false} ParseFeaturesStaysRaised(lines: seq<string>, more: seq<string>)
    requires ParseFeatures(lines).None?
    ensures ParseFeatures(lines + more).None?
    decreases |more|
  {
    if more == [] {
      assert lines + more == lines;
    } else {
      var all := lines + more;
      assert all[..|all| - 1] == lines + more[..|more| - 1];
      ParseFeaturesStaysRaised(lines, more[..|more| - 1]);
      assert ParseFeatures(all[..|all| - 1]).None?;
    }
  }

  /** One more line goes through `Step`. */
  lemma {:induction false} ParseFeaturesStep(done: seq<string>, text: string)
    ensures ParseFeatures(done + [text]) == Step(ParseFeatures(done), text)
  {
    assert (done + [text])[..|done|] == done;
  }

  lemma {:induction false} FlattenPrefix(sections: seq<seq<string>>, s: int)
    requires 0 <= s <= |sections|
    ensures Flatten(sections[..s]) <= Flatten(sections)
    decreases |sections|
  {
    if s < |sections| {
      var init := sections[..|sections| - 1];
      FlattenPrefix(init, s);
      assert init[..s] == sections[..s];
    } else {
      assert sections[..s] == sections;
    }
  }

  // ---------------------------------------------------------------------
  // scrape_traya
  // ---------------------------------------------------------------------

  /**
   * The outside world of the crawl: the hrefs of a seed page's links
   * (`None` when the request or status check fails), a product page as
   * the selectors see it (`None` likewise), `urljoin`, and the host part
   * of `urlparse`.
   */
  datatype Web = Web(
    links: string -> Option<seq<string>>,
    page: string -> Option<Page>,
    join: (string, string) -> string,
    netloc: string -> string)

  /** An href made absolute: a root-relative one is resolved against the seed page. */
  function Absolute(web: Web, seed: string, href: string): string {
    if StartsWith(href, "/") then web.join(seed, href) else href
  }

  /** A link worth keeping: on the traya.health host and a product URL. */
  predicate Qualifies(web: Web, u: string) {
    Contains(web.netloc(u), Domain) && IsProductUrl(u)
  }

  /** The absolute links of one seed page, in page order. */
  function PageLinks(web: Web, seed: string): seq<string> {
    match web.links(seed)
    case None => []
    case Some(hs) => seq(|hs|, i requires 0 <= i < |hs| => Absolute(web, seed, hs[i]))
  }

  /** The absolute links of the given seed pages, page after page. */
  function Candidates(web: Web, seeds: seq<string>): seq<string> {
    if seeds == [] then [] else Candidates(web, seeds[..|seeds| - 1]) + PageLinks(web, seeds[|seeds| - 1])
  }

  /** `Qualifies` as a value, for the generic helpers below. */
  function Wanted(web: Web): string -> bool {
    u => Qualifies(web, u)
  }

  /** The links of `xs` that `keep` accepts, each once, in order of first appearance. */
  function Unique(keep: string -> bool, xs: seq<string>): seq<string> {
    if xs == [] then [] else UniqueStep(keep, Unique(keep, xs[..|xs| - 1]), xs[|xs| - 1])
  }

  /** One more link looked at: kept when it qualifies and is new. */
  function UniqueStep(keep: string -> bool, u: seq<string>, x: string): seq<string> {
    if keep(x) && x !in u then u + [x] else u
  }

  /** `Unique` keeps exactly the qualifying links, each once. */
  lemma {:induction false} UniqueFacts(keep: string -> bool, xs: seq<string>)
    ensures forall u :: u in Unique(keep, xs) ==> u in xs && keep(u)
    ensures forall x :: x in xs && keep(x) ==> x in Unique(keep, xs)
    ensures forall i, j :: 0 <= i < j < |Unique(keep, xs)| ==> Unique(keep, xs)[i] != Unique(keep, xs)[j]
    decreases |xs|
  {
    if xs != [] {
      var init := xs[..|xs| - 1];
      UniqueFacts(keep, init);
      assert forall y :: y in xs ==> y in init || y == xs[|xs| - 1];
    }
  }

  /** Reading more links can only add to the end of the unique list. */
  lemma {:induction false} UniquePrefix(keep: string -> bool, xs: seq<string>, ys: seq<string>)
    requires xs <= ys
    ensures Unique(keep, xs) <= Unique(keep, ys)
    decreases |ys|
  {
    if |xs| < |ys| {
      var init := ys[..|ys| - 1];
      assert xs <= init;
      UniquePrefix(keep, xs, init);
    } else {
      assert xs == ys;
    }
  }

  /** The links of the first `s` seed pages are the start of the links of all of them. */
  lemma {:induction false} CandidatesPrefix(web: Web, seeds: seq<string>, s: int)
    requires 0 <= s <= |seeds|
    ensures Candidates(web, seeds[..s]) <= Candidates(web, seeds)
    decreases |seeds|
  {
    if s < |seeds| {
      var init := seeds[..|seeds| - 1];
      CandidatesPrefix(web, init, s);
      assert init[..s] == seeds[..s];
    } else {
      assert seeds[..s] == seeds;
    }
  }

  /**
   * The link-collection loops of `scrape_traya`: for each seed page that
   * loads, its links are scanned in page order (`ScanPage`); the crawl
   * stops once `maxProducts` links are kept. The result has no duplicates
   * and only qualifying links; with a positive cap it is the first
   * `maxProducts` distinct qualifying links of the seed pages, and with a
   * cap below one it holds at most one link.
   */
  method CollectProductUrls(web: Web, maxProducts: int) returns (urls: seq<string>)
    ensures forall i, j :: 0 <= i < j < |urls| ==> urls[i] != urls[j]
    ensures forall u :: u in urls ==> Qualifies(web, u) && u in Candidates(web, Seeds)
    ensures maxProducts >= 1 ==> urls == Take(Unique(Wanted(web), Candidates(web, Seeds)), maxProducts)
    ensures maxProducts < 1 ==> |urls| <= 1
  {
    urls := [];
    var found: set<string> := {};
    ghost var consumed: seq<string> := [];
    for s := 0 to |Seeds|
      invariant forall u :: u in found <==> u in urls
      invariant consumed == Candidates(web, Seeds[..s])
      invariant urls == Unique(Wanted(web), consumed)
      invariant maxProducts >= 1 ==> |urls| < maxProducts
      invariant maxProducts < 1 ==> urls == []
    {
      CandidatesPrefix(web, Seeds, s + 1);
      assert Seeds[..s + 1][..s] == Seeds[..s];
      assert Candidates(web, Seeds[..s + 1]) == consumed + PageLinks(web, Seeds[s]);
      var links := web.links(Seeds[s]);
      if links.None? {
        continue;
      }
      urls, found, consumed := ScanPage(web, Seeds[s], links.value, urls, found, maxProducts, consumed);
      if |urls| >= maxProducts {
        CollectedSoFar(web, consumed, urls, maxProducts);
        return;
      }
    }
    assert Seeds[..|Seeds|] == Seeds;
    CollectedSoFar(web, consumed, urls, maxProducts);
  }

  /**
   * What the crawl has kept once it stops, having looked at a prefix of
   * the seed pages' links: all of them, unless the cap was reached.
   */
  lemma {:induction false} CollectedSoFar(web: Web, consumed: seq<string>, urls: seq<string>, maxProducts: int)
    requires consumed <= Candidates(web, Seeds)
    requires urls == Unique(Wanted(web), consumed)
    requires |urls| < maxProducts ==> consumed == Candidates(web, Seeds)
    requires maxProducts >= 1 ==> |urls| <= maxProducts
    requires maxProducts < 1 ==> |urls| <= 1
    ensures forall i, j :: 0 <= i < j < |urls| ==> urls[i] != urls[j]
    ensures forall u :: u in urls ==> Qualifies(web, u) && u in Candidates(web, Seeds)
    ensures maxProducts >= 1 ==> urls == Take(Unique(Wanted(web), Candidates(web, Seeds)), maxProducts)
  {
    UniquePrefix(Wanted(web), consumed, Candidates(web, Seeds));
    UniqueFacts(Wanted(web), consumed);
    assert forall u :: u in consumed ==> u in Candidates(web, Seeds);
  }

  /**
   * The inner loop over one seed page's links: make each absolute, skip it
   * unless its host is on the domain, keep it if it is a product URL not
   * found before, and stop as soon as `maxProducts` links are kept.
   * `consumed` follows, for the proof, the links looked at so far.
   */
  method ScanPage(web: Web, seed: string, hs: seq<string>, urls0: seq<string>, found0: set<string>,
                  maxProducts: int, ghost consumed0: seq<string>)
    returns (urls: seq<string>, found: set<string>, ghost consumed: seq<string>)
    requires web.links(seed) == Some(hs)
    requires forall u :: u in found0 <==> u in urls0
    requires urls0 == Unique(Wanted(web), consumed0)
    requires maxProducts >= 1 ==> |urls0| < maxProducts
    requires maxProducts < 1 ==> urls0 == []
    ensures forall u :: u in found <==> u in urls
    ensures urls == Unique(Wanted(web), consumed)
    ensures consumed <= consumed0 + PageLinks(web, seed)
    ensures |urls| < maxProducts ==> consumed == consumed0 + PageLinks(web, seed)
    ensures consumed0 <= consumed
    ensures maxProducts >= 1 ==> |urls| <= maxProducts
    ensures maxProducts < 1 ==> |urls| <= 1
  {
    urls, found := urls0, found0;
    ghost var page := PageLinks(web, seed);
    consumed := consumed0;
    assert consumed0 + page[..0] == consumed0;
    for j := 0 to |hs|
      invariant consumed == consumed0 + page[..j]
      invariant forall u :: u in found <==> u in urls
      invariant urls == Unique(Wanted(web), consumed)
      invariant maxProducts >= 1 ==> |urls| < maxProducts
      invariant maxProducts < 1 ==> urls == []
    {
      var href := Absolute(web, seed, hs[j]);
      NextLink(consumed0, page, j);
      UniqueSnoc(Wanted(web), consumed, href);
      consumed := consumed + [href];
      var onDomain;
      urls, found, onDomain := Consider(web, href, urls, found);
      if !onDomain {
        continue;
      }
      if |urls| >= maxProducts {
        PrefixOfLinks(consumed0, page, j + 1);
        return;
      }
    }
    assert page[..|hs|] == page;
    PrefixOfLinks(consumed0, page, |hs|);
  }

  /**
   * One link of a seed page: skipped when its host is not on the domain,
   * kept when it is a product URL not found before.
   */
  method Consider(web: Web, href: string, urls0: seq<string>, found0: set<string>)
    returns (urls: seq<string>, found: set<string>, onDomain: bool)
    requires forall u :: u in found0 <==> u in urls0
    ensures forall u :: u in found <==> u in urls
    ensures urls == UniqueStep(Wanted(web), urls0, href)
    ensures onDomain <==> Contains(web.netloc(href), Domain)
    ensures !onDomain ==> urls == urls0
  {
    urls, found := urls0, found0;
    onDomain := Contains(web.netloc(href), Domain);
    if !onDomain {
      return;
    }
    if IsProductUrl(href) && href !in found {
      found := found + {href};
      urls := urls + [href];
    }
  }

  /** Looking at one more link extends `Unique` by one step. */
  lemma {:induction false} UniqueSnoc(keep: string -> bool, xs: seq<string>, x: string)
    ensures Unique(keep, xs + [x]) == UniqueStep(keep, Unique(keep, xs), x)
  {
    assert (xs + [x])[..|xs|] == xs;
  }

  lemma {:induction false} NextLink(xs: seq<string>, page: seq<string>, j: nat)
    requires j < |page|
    ensures xs + page[..j] + [page[j]] == xs + page[..j + 1]
  {
    assert page[..j + 1] == page[..j] + [page[j]];
  }

  lemma {:induction false} PrefixOfLinks(xs: seq<string>, page: seq<string>, k: nat)
    requires k <= |page|
    ensures xs <= xs + page[..k] <= xs + page
  {
    assert (xs + page)[..|xs| + k] == xs + page[..k];
    assert (xs + page[..k])[..|xs|] == xs;
  }

  /** Every fetched URL's outcome, in URL order. */
  function Outcomes(web: Web, urls: seq<string>): (r: seq<FetchOutcome>)
    ensures |r| == |urls|
  {
    seq(|urls|, i requires 0 <= i < |urls| => Fetch(urls[i], web.page(urls[i]), web.join))
  }

  /** The exception the product loop lets through from `fetch_product`. */
  datatype Crash = AttributeError

  /** An outcome the product loop keeps: a dict with a non-empty title. */
  predicate Kept(o: FetchOutcome) {
    o.Fetched? && o.product.title != ""
  }

  /**
   * The product loop of `scrape_traya` over the outcomes of its URLs, with
   * `room` the number of products still wanted: a titled product is kept;
   * the loop stops once none are wanted any more; an exception ends the
   * whole call.
   */
  function Harvest(outs: seq<FetchOutcome>, room: int): Result<seq<ProductIn>, Crash>
    decreases |outs|
  {
    if outs == [] then Ok([])
    else if outs[0].Raised? then Err(AttributeError)
    else
      var kept := if Kept(outs[0]) then [outs[0].product] else [];
      if |kept| >= room then Ok(kept)
      else
        match Harvest(outs[1..], room - |kept|)
        case Ok(rest) => Ok(kept + rest)
        case Err(e) => Err(e)
  }

  /** The titled products among the outcomes, in order. */
  function KeptProducts(outs: seq<FetchOutcome>): seq<ProductIn> {
    if outs == [] then []
    else (if Kept(outs[0]) then [outs[0].product] else []) + KeptProducts(outs[1..])
  }

  /**
   * Without an exception, and with room for at least one product, the loop
   * returns exactly the first `room` titled products.
   */
  lemma {:induction false} HarvestTakesFirstKept(outs: seq<FetchOutcome>, room: int)
    requires room >= 1
    requires forall k :: 0 <= k < |outs| ==> !outs[k].Raised?
    ensures Harvest(outs, room) == Ok(Take(KeptProducts(outs), room))
    decreases |outs|
  {
    if outs != [] {
      var kept := if Kept(outs[0]) then [outs[0].product] else [];
      var rest := KeptProducts(outs[1..]);
      assert KeptProducts(outs) == kept + rest;
      if |kept| >= room {
        assert (kept + rest)[..1] == kept;
        assert Take(kept + rest, room) == kept;
      } else {
        assert forall k :: 0 <= k < |outs[1..]| ==> outs[1..][k] == outs[k + 1];
        HarvestTakesFirstKept(outs[1..], room - |kept|);
        assert Harvest(outs, room) == Ok(kept + Take(rest, room - |kept|));
        if |kept| == 1 {
          assert Take(kept + rest, room) == kept + Take(rest, room - 1);
        } else {
          assert kept + rest == rest && kept + Take(rest, room) == Take(rest, room);
        }
      }
    }
  }

  /**
   * Whatever the pages hold, the kept products all have a title, number at
   * most `room` (at most one when `room` is below one), and each is the
   * product fetched from one of the URLs, in URL order.
   */
  lemma {:induction false} HarvestBounds(outs: seq<FetchOutcome>, room: int)
    ensures Harvest(outs, room).Ok? ==>
      var r := Harvest(outs, room).value;
      && |r| <= (if room >= 1 then room else 1)
      && (forall p :: p in r ==> p.title != "" && Fetched(p) in outs)
    decreases |outs|
  {
    if outs != [] && !outs[0].Raised? {
      var kept := if Kept(outs[0]) then [outs[0].product] else [];
      assert forall p :: p in kept ==> p.title != "" && Fetched(p) == outs[0];
      if |kept| < room {
        HarvestBounds(outs[1..], room - |kept|);
        assert forall o :: o in outs[1..] ==> o in outs;
        match Harvest(outs[1..], room - |kept|)
        case Err(_) =>
        case Ok(rest) =>
          assert Harvest(outs, room) == Ok(kept + rest);
          assert forall p :: p in kept + rest ==> p in kept || p in rest;
      }
    }
  }

  /** Each fetched product carries the URL it was fetched from. */
  predicate FetchedFrom(outs: seq<FetchOutcome>, urls: seq<string>) {
    |outs| == |urls| && forall k :: 0 <= k < |outs| && outs[k].Fetched? ==> outs[k].product.sourceUrl == Some(urls[k])
  }

  /**
   * Distinct URLs give products with distinct, non-null source URLs, so
   * none of them collides with another on insert.
   */
  lemma {:induction false} HarvestDistinctUrls(outs: seq<FetchOutcome>, urls: seq<string>, room: int)
    requires FetchedFrom(outs, urls)
    requires forall i, j :: 0 <= i < j < |urls| ==> urls[i] != urls[j]
    ensures Harvest(outs, room).Ok? ==>
      var r := Harvest(outs, room).value;
      && DistinctUrls(r)
      && forall p :: p in r ==> p.sourceUrl.Some? && p.sourceUrl.value in urls
    decreases |outs|
  {
    if outs != [] && !outs[0].Raised? {
      var kept := if Kept(outs[0]) then [outs[0].product] else [];
      if |kept| < room {
        var outs', urls' := outs[1..], urls[1..];
        assert FetchedFrom(outs', urls') by {
          assert forall k :: 0 <= k < |outs'| ==> outs'[k] == outs[k + 1] && urls'[k] == urls[k + 1];
        }
        HarvestDistinctUrls(outs', urls', room - |kept|);
        match Harvest(outs', room - |kept|)
        case Err(_) =>
        case Ok(rest) =>
          RestAvoidsFirst(rest, urls);
          DistinctAfter(kept, rest, urls);
      }
    }
  }

  /** Products drawn from the later URLs of a duplicate-free list never carry the first one. */
  lemma {:induction false} RestAvoidsFirst(rest: seq<ProductIn>, urls: seq<string>)
    requires |urls| > 0
    requires forall i, j :: 0 <= i < j < |urls| ==> urls[i] != urls[j]
    requires forall p :: p in rest ==> p.sourceUrl.Some? && p.sourceUrl.value in urls[1..]
    ensures forall p :: p in rest ==> p.sourceUrl != Some(urls[0])
  {
    forall p | p in rest ensures p.sourceUrl != Some(urls[0]) {
      var k :| 0 <= k < |urls| - 1 && urls[1..][k] == p.sourceUrl.value;
      assert urls[k + 1] == urls[1..][k];
    }
  }

  lemma {:induction false} DistinctAfter(kept: seq<ProductIn>, rest: seq<ProductIn>, urls: seq<string>)
    requires |urls| > 0 && |kept| <= 1
    requires forall p :: p in kept ==> p.sourceUrl == Some(urls[0])
    requires DistinctUrls(rest) && forall p :: p in rest ==> p.sourceUrl != Some(urls[0])
    requires forall p :: p in rest ==> p.sourceUrl.Some? && p.sourceUrl.value in urls
    ensures DistinctUrls(kept + rest)
    ensures forall p :: p in kept + rest ==> p.sourceUrl.Some? && p.sourceUrl.value in urls
  {
    var r := kept + rest;
    forall i, j | 0 <= i < j < |r| ensures r[i].sourceUrl != r[j].sourceUrl {
      assert r[j] == rest[j - |kept|];
      if i >= |kept| {
        assert r[i] == rest[i - |kept|];
      } else {
        assert r[i] in kept;
      }
    }
    forall i | 0 <= i < |r| ensures r[i].sourceUrl.Some? {
      if i < |kept| { assert r[i] in kept; } else { assert r[i] == rest[i - |kept|]; }
    }
  }

  /**
   * The product loop of `scrape_traya`: fetch each URL in order, keep the
   * products that came back with a title, stop once `maxProducts` are kept;
   * an exception from a fetch propagates.
   */
  method FetchProducts(web: Web, urls: seq<string>, maxProducts: int) returns (r: Result<seq<ProductIn>, Crash>)
    ensures r == Harvest(Outcomes(web, urls), maxProducts)
  {
    var products: seq<ProductIn> := [];
    ghost var outs := Outcomes(web, urls);
    LoopAgrees(outs, 0, [], maxProducts);
    for i := 0 to |urls|
      invariant HarvestFrom(outs, i, products, maxProducts) == Harvest(outs, maxProducts)
    {
      var data := FetchProduct(urls[i], web.page(urls[i]), web.join);
      assert data == outs[i];
      if data.Raised? {
        return Err(AttributeError);
      }
      if data.Fetched? && data.product.title != "" {
        products := products + [data.product];
      }
      if |products| >= maxProducts {
        return Ok(products);
      }
    }
    return Ok(products);
  }

  /**
   * The product loop as it runs, from index `i` on with `kept` the
   * products kept so far; `LoopAgrees` shows it computes `Harvest`.
   */
  function HarvestFrom(outs: seq<FetchOutcome>, i: nat, kept: seq<ProductIn>, max: int): Result<seq<ProductIn>, Crash>
    requires i <= |outs|
    decreases |outs| - i
  {
    if i == |outs| then Ok(kept)
    else if outs[i].Raised? then Err(AttributeError)
    else
      var now := if Kept(outs[i]) then kept + [outs[i].product] else kept;
      if |now| >= max then Ok(now) else HarvestFrom(outs, i + 1, now, max)
  }

  /** The loop, started anywhere, finishes what `Harvest` of the rest would. */
  lemma {:induction false} LoopAgrees(outs: seq<FetchOutcome>, i: nat, kept: seq<ProductIn>, max: int)
    requires i <= |outs|
    ensures HarvestFrom(outs, i, kept, max) == Prefixed(kept, Harvest(outs[i..], max - |kept|))
    ensures i == 0 && kept == [] ==> HarvestFrom(outs, i, kept, max) == Harvest(outs, max)
    decreases |outs| - i
  {
    if i == |outs| {
      assert outs[i..] == [] && kept + [] == kept;
    } else {
      assert outs[i..][0] == outs[i] && outs[i..][1..] == outs[i + 1..];
      if !outs[i].Raised? {
        HarvestStep(outs[i..], max - |kept|);
        var k := if Kept(outs[i]) then [outs[i].product] else [];
        var now := if Kept(outs[i]) then kept + [outs[i].product] else kept;
        assert now == kept + k;
        LoopAgrees(outs, i + 1, now, max);
        PrefixedTwice(kept, k, Harvest(outs[i + 1..], max - |kept| - |k|));
      }
    }
    if i == 0 && kept == [] {
      assert outs[0..] == outs;
      PrefixedNothing(Harvest(outs, max));
    }
  }


  /** One outcome of the product loop, unfolded. */
  lemma {:induction false} HarvestStep(outs: seq<FetchOutcome>, room: int)
    requires outs != [] && !outs[0].Raised?
    ensures var kept := if Kept(outs[0]) then [outs[0].product] else [];
      Harvest(outs, room) == if |kept| >= room then Ok(kept) else Prefixed(kept, Harvest(outs[1..], room - |kept|))
  {
  }

  /** Putting two runs of kept products in front is putting their concatenation in front. */
  lemma {:induction false} PrefixedTwice(a: seq<ProductIn>, b: seq<ProductIn>, r: Result<seq<ProductIn>, Crash>)
    ensures Prefixed(a, Prefixed(b, r)) == Prefixed(a + b, r)
  {
    match r
    case Ok(rest) => assert a + (b + rest) == (a + b) + rest;
    case Err(_) =>
  }

  /** Putting nothing in front changes nothing. */
  lemma {:induction false} PrefixedNothing(r: Result<seq<ProductIn>, Crash>)
    ensures Prefixed([], r) == r
  {
    match r
    case Ok(rest) => assert [] + rest == rest;
    case Err(_) =>
  }

  /** Products already kept, in front of what the rest of the loop returns. */
  function Prefixed(kept: seq<ProductIn>, r: Result<seq<ProductIn>, Crash>): Result<seq<ProductIn>, Crash> {
    match r
    case Ok(rest) => Ok(kept + rest)
    case Err(e) => Err(e)
  }

  /**
   * `scrape_traya`: collect the product links, then fetch them. With a
   * positive cap the result is fixed by the pages: the titled products of
   * the first `maxProducts` distinct product links, at most `maxProducts`
   * of them; in every case the products have titles and distinct source
   * URLs, each one of the collected links.
   */
  method ScrapeTraya(web: Web, maxProducts: int) returns (r: Result<seq<ProductIn>, Crash>)
    ensures maxProducts >= 1 ==>
      r == Harvest(Outcomes(web, Take(Unique(Wanted(web), Candidates(web, Seeds)), maxProducts)), maxProducts)
    ensures r.Ok? ==> |r.value| <= (if maxProducts >= 1 then maxProducts else 1)
    ensures r.Ok? ==> DistinctUrls(r.value)
    ensures r.Ok? ==> forall p :: p in r.value ==>
      p.title != "" && p.sourceUrl.Some? && Qualifies(web, p.sourceUrl.value)
  {
    var urls := CollectProductUrls(web, maxProducts);
    r := FetchProducts(web, urls, maxProducts);
    var outs := Outcomes(web, urls);
    forall k | 0 <= k < |urls| ensures outs[k].Fetched? ==> outs[k].product.sourceUrl == Some(urls[k]) {
      FetchedShape(urls[k], web.page(urls[k]), web.join);
    }
    HarvestBounds(outs, maxProducts);
    HarvestDistinctUrls(outs, urls, maxProducts);
  }
}
