/**
 * The HTTP endpoints' logic: `run_scraper` (scrape a site, insert what
 * can be inserted, report the counts), `product_detail` (a product or a
 * 404), and `chat` (vector search, aggregation of the hits per product,
 * the top three products by summed score, and the prompt for the
 * language model, whose reply is a parameter).
 */
module Api {
  import opened Wrappers
  import opened Text
  import opened Store
  import Ranking
  import Retrieval
  import Scraper
  import TrayaScraper

  /*
   * run_scraper
   */

  /**
   * `run_scraper`: the scraped items go through the insert loop; the
   * endpoint reports how many were stored and how many were scraped.
   * Items whose URLs the table does not hold yet are all stored.
   */
  method RunScraper(db: Database, site: string, web: TrayaScraper.Web) returns (inserted: nat, attempted: nat)
    requires db.Valid()
    modifies db
    ensures db.Valid()
    ensures attempted == |Scraper.SiteItems(site, web)|
    ensures inserted == InsertedCount(old(db.products), Scraper.SiteItems(site, web))
    ensures inserted <= attempted
    ensures (forall i, k :: 0 <= i < |old(db.products)| && 0 <= k < attempted ==>
               old(db.products)[i].sourceUrl != Scraper.SiteItems(site, web)[k].sourceUrl) ==> inserted == attempted
    ensures db.products == AfterInserts(old(db.products), Scraper.SiteItems(site, web))
    ensures db.chunks == old(db.chunks)
  {
    var products := Scraper.ScrapeSite(site, web);
    ghost var unseen := forall i, k :: 0 <= i < |db.products| && 0 <= k < |products| ==>
      db.products[i].sourceUrl != products[k].sourceUrl;
    if unseen {
      DistinctUrlsAllInserted(db.products, products);
    }
    var failed;
    inserted, failed := InsertEach(db, products);
    attempted := |products|;
  }

  /*
   * product_detail
   */

  datatype HttpError = HttpError(status: int, detail: string)

  /** `product_detail`: the product with the id, or a 404 when there is none. */
  function ProductDetail(ps: seq<Product>, id: int): (r: Result<Product, HttpError>)
    ensures r.Err? <==> forall i :: 0 <= i < |ps| ==> ps[i].id != id
    ensures r.Err? ==> r.error == HttpError(404, "Product not found")
    ensures r.Ok? ==> r.value.id == id && r.value in ps
  {
    match GetProduct(ps, id)
    case None => Err(HttpError(404, "Product not found"))
    case Some(p) => Ok(p)
  }

  /*
   * chat
   */

  /** A product's entry in the aggregation dictionary. */
  datatype Entry = Entry(score: real, chunks: seq<string>)

  /** One recommendation of the reply. */
  datatype Rec = Rec(productId: int, title: string, score: real, reason: string)

  datatype ChatReply = ChatReply(message: string, recommendations: seq<Rec>)

  /** What the language-model call did: raised, or returned a string or None. */
  datatype LlmReply = LlmRaised | LlmReturned(text: Option<string>)

  const NoResultsMessage := "I couldn't find relevant products."
  const FallbackMessage := "I found some products you might like based on your query."
  const PromptHeader := "You are a product recommendation assistant. Use the context and user's query to recommend up to 3 products with short explanations.\n"
  const SnippetSeparator := "\n---\n"

  /** The product ids of the hits, each once, in order of first appearance (the dictionary's key order). */
  function FirstAppearance(hits: seq<Retrieval.Hit>): seq<int> {
    if hits == [] then []
    else
      var ids := FirstAppearance(hits[..|hits| - 1]);
      var p := hits[|hits| - 1].productId;
      if p in ids then ids else ids + [p]
  }

  /** The summed score of the product's hits. */
  function TotalScore(hits: seq<Retrieval.Hit>, p: int): real {
    if hits == [] then 0.0
    else
      var h := hits[|hits| - 1];
      TotalScore(hits[..|hits| - 1], p) + (if h.productId == p then h.score else 0.0)
  }

  /** The texts of the product's hits, in hit order. */
  function ChunksOf(hits: seq<Retrieval.Hit>, p: int): seq<string> {
    if hits == [] then []
    else
      var h := hits[|hits| - 1];
      ChunksOf(hits[..|hits| - 1], p) + (if h.productId == p then [h.text] else [])
  }

  /** Every hit's text, in hit order. */
  function Snippets(hits: seq<Retrieval.Hit>): seq<string> {
    seq(|hits|, k requires 0 <= k < |hits| => hits[k].text)
  }

  /** The summed scores of the given products. */
  function Scores(hits: seq<Retrieval.Hit>, ids: seq<int>): seq<real> {
    seq(|ids|, i requires 0 <= i < |ids| => TotalScore(hits, ids[i]))
  }

  /**
   * Positions in `FirstAppearance(hits)` of the recommended products:
   * the first three of a stable sort by summed score, highest first.
   */
  function TopPositions(hits: seq<Retrieval.Hit>): (r: seq<nat>)
    ensures forall k :: 0 <= k < |r| ==> r[k] < |FirstAppearance(hits)|
  {
    var all := Ranking.RankDesc(Scores(hits, FirstAppearance(hits)));
    var r := Take(all, 3);
    assert forall k :: 0 <= k < |r| ==> r[k] == all[k];
    r
  }

  /** The title shown for a product: its stored title, or "Product {id}" when it is gone. */
  function TitleFor(products: seq<Product>, p: int): string {
    match GetProduct(products, p)
    case Some(row) => row.title
    case None => "Product " + IntToString(p)
  }

  function FirstChunk(hits: seq<Retrieval.Hit>, p: int): string {
    var cs := ChunksOf(hits, p);
    if cs == [] then "" else cs[0]
  }

  function RecFor(hits: seq<Retrieval.Hit>, products: seq<Product>, p: int): Rec {
    Rec(p, TitleFor(products, p), TotalScore(hits, p), Take(FirstChunk(hits, p), 200))
  }

  /** The recommendations of the reply, best first. */
  function Recommendations(hits: seq<Retrieval.Hit>, products: seq<Product>): seq<Rec> {
    var ids, top := FirstAppearance(hits), TopPositions(hits);
    seq(|top|, k requires 0 <= k < |top| => RecFor(hits, products, ids[top[k]]))
  }

  /** The prompt: a fixed header, the first six snippets separated by "\n---\n", then the query. */
  function PromptFor(message: string, snippets: seq<string>): string {
    PromptHeader + ContextLines(snippets) + QueryLine(message)
  }

  function ContextLines(snippets: seq<string>): string {
    "Context snippets:\n" + Join(Take(snippets, 6), SnippetSeparator) + "\n"
  }

  function QueryLine(message: string): string {
    "User query: " + message + "\n"
  }

  /** `llm_out or fallback`: a non-empty returned string, else the fixed sentence. */
  function MessageFor(out: LlmReply): string {
    if out.LlmReturned? && out.text.Some? && out.text.value != "" then out.text.value else FallbackMessage
  }

  /** The reply of `chat` for the hits of the search. */
  function ReplyFor(message: string, hits: seq<Retrieval.Hit>, products: seq<Product>, llm: string -> LlmReply): ChatReply {
    if hits == [] then ChatReply(NoResultsMessage, [])
    else ChatReply(MessageFor(llm(PromptFor(message, Snippets(hits)))), Recommendations(hits, products))
  }

  /**
   * `chat`: warm the model cache (a failed load fails the request), search
   * the chunks for the ten best hits; a failing search fails the request;
   * otherwise the reply is built from the hits. With no chunks at all the
   * reply is the fixed "nothing found" message.
   */
  method Chat<M>(db: Database, cache: Retrieval.EmbeddingModelCache<M>, load: string -> Option<M>,
                 encode: (M, string) -> seq<real>, sim: (seq<real>, seq<real>) -> real,
                 llm: string -> LlmReply, message: string)
    returns (r: Result<ChatReply, Retrieval.RetrievalError>, ghost hits: seq<Retrieval.Hit>, ghost picked: seq<nat>)
    modifies cache
    ensures cache.model == Retrieval.Loaded(old(cache.model), load)
    ensures cache.model.None? ==> r == Err(Retrieval.ModelLoadFailed)
    ensures cache.model.Some? ==>
      var q := encode(cache.model.value, message);
      && (r.Err? <==> Retrieval.SearchFailure(db.chunks, q).Some?)
      && (r.Ok? ==> Retrieval.IsTopK(db.chunks, q, sim, 10, picked, hits))
      && (r.Ok? ==> r.value == ReplyFor(message, hits, db.products, llm))
      && (db.chunks == [] ==> r == Ok(ChatReply(NoResultsMessage, [])))
  {
    var warm := cache.Get(Retrieval.DefaultModelName, load);
    if warm.None? {
      return Err(Retrieval.ModelLoadFailed), [], [];
    }
    var results;
    results, picked := Retrieval.SearchKnn(cache, load, encode, message, 10, db.chunks, sim);
    if results.Err? {
      return Err(results.error), [], picked;
    }
    var found := results.value;
    hits := found;
    var reply := Respond(message, found, db.products, llm);
    r := Ok(reply);
  }

  /** The part of `chat` after the search. */
  method Respond(message: string, hits: seq<Retrieval.Hit>, products: seq<Product>, llm: string -> LlmReply)
    returns (reply: ChatReply)
    ensures reply == ReplyFor(message, hits, products, llm)
    ensures hits == [] ==> reply == ChatReply(NoResultsMessage, [])
    ensures hits != [] ==> reply.recommendations == Recommendations(hits, products)
    ensures hits != [] ==> reply.message == MessageFor(llm(PromptFor(message, Snippets(hits))))
  {
    if hits == [] {
      return ChatReply(NoResultsMessage, []);
    }
    var agg, order, snippets := Aggregate(hits);
    forall i | 0 <= i < |order| ensures order[i] in agg {
      var p := order[i];
      assert p in order;
      assert p in agg <==> p in order;
    }
    var scores := seq(|order|, i requires 0 <= i < |order| => agg[order[i]].score);
    assert scores == Scores(hits, FirstAppearance(hits));
    var ranked := Take(Ranking.RankDesc(scores), 3);
    var recs := BuildRecs(hits, agg, order, ranked, products);
    var prompt := BuildPrompt(message, snippets);
    var out := llm(prompt);
    var text := MessageFor(out);
    reply := ChatReply(text, recs);
  }

  /**
   * The aggregation loop: each hit adds its score to its product's entry
   * and its text to the entry's chunk list (creating the entry on the
   * product's first hit), and its text to the snippets.
   */
  method Aggregate(hits: seq<Retrieval.Hit>) returns (agg: map<int, Entry>, order: seq<int>, snippets: seq<string>)
    ensures order == FirstAppearance(hits)
    ensures forall p :: p in agg <==> p in order
    ensures forall p :: p in agg ==> agg[p] == Entry(TotalScore(hits, p), ChunksOf(hits, p))
    ensures snippets == Snippets(hits)
  {
    agg, order, snippets := map[], [], [];
    for i := 0 to |hits|
      invariant order == FirstAppearance(hits[..i])
      invariant forall p :: p in agg <==> p in order
      invariant forall p :: p in agg ==> agg[p] == Entry(TotalScore(hits[..i], p), ChunksOf(hits[..i], p))
      invariant snippets == Snippets(hits[..i])
    {
      assert hits[..i + 1] == hits[..i] + [hits[i]];
      agg, order, snippets := AddHit(agg, order, snippets, hits[..i], hits[i]);
    }
    assert hits[..|hits|] == hits;
  }

  /** One round of the aggregation loop: the hit `h` joins the hits `done` already aggregated. */
  method AddHit(agg: map<int, Entry>, order: seq<int>, snippets: seq<string>, ghost done: seq<Retrieval.Hit>, h: Retrieval.Hit)
    returns (agg': map<int, Entry>, order': seq<int>, snippets': seq<string>)
    requires order == FirstAppearance(done)
    requires forall p :: p in agg <==> p in order
    requires forall p :: p in agg ==> agg[p] == Entry(TotalScore(done, p), ChunksOf(done, p))
    requires snippets == Snippets(done)
    ensures order' == FirstAppearance(done + [h])
    ensures forall p :: p in agg' <==> p in order'
    ensures forall p :: p in agg' ==> agg'[p] == Entry(TotalScore(done + [h], p), ChunksOf(done + [h], p))
    ensures snippets' == Snippets(done + [h])
  {
    AggregateStep(done, h);
    agg', order' := agg, order;
    if h.productId !in agg {
      agg' := agg'[h.productId := Entry(0.0, [])];
      order' := order' + [h.productId];
      ChunksOfNone(done, h.productId);
    }
    var e := agg'[h.productId];
    agg' := agg'[h.productId := Entry(e.score + h.score, e.chunks + [h.text])];
    snippets' := snippets + [h.text];
  }

  /** How one more hit changes the aggregation's specification. */
  lemma {:induction false} AggregateStep(done: seq<Retrieval.Hit>, h: Retrieval.Hit)
    ensures FirstAppearance(done + [h])
      == if h.productId in FirstAppearance(done) then FirstAppearance(done) else FirstAppearance(done) + [h.productId]
    ensures forall p :: TotalScore(done + [h], p) == TotalScore(done, p) + (if h.productId == p then h.score else 0.0)
    ensures forall p :: ChunksOf(done + [h], p) == ChunksOf(done, p) + (if h.productId == p then [h.text] else [])
    ensures Snippets(done + [h]) == Snippets(done) + [h.text]
  {
    assert (done + [h])[..|done|] == done;
  }

  /** The recommendation loop over the ranked products. */
  method BuildRecs(hits: seq<Retrieval.Hit>, agg: map<int, Entry>, order: seq<int>, ranked: seq<nat>, products: seq<Product>)
    returns (recs: seq<Rec>)
    requires order == FirstAppearance(hits)
    requires forall p :: p in agg <==> p in order
    requires forall p :: p in agg ==> agg[p] == Entry(TotalScore(hits, p), ChunksOf(hits, p))
    requires ranked == TopPositions(hits)
    ensures recs == Recommendations(hits, products)
  {
    ghost var spec := Recommendations(hits, products);
    recs := [];
    for k := 0 to |ranked|
      invariant |spec| == |ranked|
      invariant recs == spec[..k]
    {
      var p := order[ranked[k]];
      assert p in order;
      RecommendationAt(hits, products, k);
      var r := MakeRec(hits, p, agg[p], products);
      assert r == spec[k];
      recs := recs + [r];
      assert spec[..k + 1] == spec[..k] + [spec[k]];
    }
    assert spec[..|ranked|] == spec;
  }

  /** One round of the recommendation loop: the entry of product `p` becomes its recommendation. */
  method MakeRec(hits: seq<Retrieval.Hit>, p: int, info: Entry, products: seq<Product>) returns (r: Rec)
    requires p in FirstAppearance(hits)
    requires info == Entry(TotalScore(hits, p), ChunksOf(hits, p))
    ensures r == RecFor(hits, products, p)
  {
    ChunksOfPresent(hits, p);
    var prod := GetProduct(products, p);
    var title := if prod.Some? then prod.value.title else "Product " + IntToString(p);
    var reason := Take(info.chunks[0], 200);
    r := Rec(p, title, info.score, reason);
  }

  /** The `k`-th recommendation is that of the product at the `k`-th top position. */
  lemma {:induction false} RecommendationAt(hits: seq<Retrieval.Hit>, products: seq<Product>, k: int)
    requires 0 <= k < |TopPositions(hits)|
    ensures |Recommendations(hits, products)| == |TopPositions(hits)|
    ensures Recommendations(hits, products)[k] == RecFor(hits, products, FirstAppearance(hits)[TopPositions(hits)[k]])
  {
  }

  /** The prompt, built up piece by piece. */
  method BuildPrompt(message: string, snippets: seq<string>) returns (prompt: string)
    ensures prompt == PromptFor(message, snippets)
  {
    prompt := PromptHeader;
    prompt := prompt + ContextLines(snippets);
    prompt := prompt + QueryLine(message);
  }

  /*
   * Properties of the aggregation.
   */

  /** The ids are distinct and are exactly the products that have a hit. */
  lemma {:induction false} FirstAppearanceFacts(hits: seq<Retrieval.Hit>)
    ensures forall i, j :: 0 <= i < j < |FirstAppearance(hits)| ==> FirstAppearance(hits)[i] != FirstAppearance(hits)[j]
    ensures forall p :: p in FirstAppearance(hits) <==> exists k :: 0 <= k < |hits| && hits[k].productId == p
  {
    if hits != [] {
      var init := hits[..|hits| - 1];
      FirstAppearanceFacts(init);
      forall p | p in FirstAppearance(init)
        ensures exists k :: 0 <= k < |hits| && hits[k].productId == p
      {
        var k :| 0 <= k < |init| && init[k].productId == p;
        assert hits[k] == init[k];
      }
      forall k | 0 <= k < |hits| ensures hits[k].productId in FirstAppearance(hits) {
        if k < |init| {
          assert init[k] == hits[k];
        }
      }
    }
  }

  /** A product without hits has no chunks and a zero score. */
  lemma {:induction false} ChunksOfNone(hits: seq<Retrieval.Hit>, p: int)
    requires p !in FirstAppearance(hits)
    ensures ChunksOf(hits, p) == [] && TotalScore(hits, p) == 0.0
  {
    if hits != [] {
      ChunksOfNone(hits[..|hits| - 1], p);
    }
  }

  /** A product with hits has a chunk list starting with the text of its first hit. */
  lemma {:induction false} ChunksOfFirst(hits: seq<Retrieval.Hit>, p: int, k: nat)
    requires k < |hits| && hits[k].productId == p
    requires forall j :: 0 <= j < k ==> hits[j].productId != p
    ensures ChunksOf(hits, p) != [] && ChunksOf(hits, p)[0] == hits[k].text
  {
    var init := hits[..|hits| - 1];
    if k < |init| {
      ChunksOfFirst(init, p, k);
    } else {
      FirstAppearanceFacts(init);
      ChunksOfNone(init, p);
    }
  }

  /** Every product in the dictionary has at least one chunk. */
  lemma {:induction false} ChunksOfPresent(hits: seq<Retrieval.Hit>, p: int)
    requires p in FirstAppearance(hits)
    ensures ChunksOf(hits, p) != []
  {
    FirstAppearanceFacts(hits);
    var k := FirstHit(hits, p);
    ChunksOfFirst(hits, p, k);
  }

  /** The index of the product's first hit; `|hits|` when it has none. */
  function FirstHit(hits: seq<Retrieval.Hit>, p: int): (k: nat)
    ensures k <= |hits|
    ensures k < |hits| ==> hits[k].productId == p
    ensures forall j :: 0 <= j < k ==> hits[j].productId != p
  {
    if hits == [] || hits[0].productId == p then 0
    else 1 + FirstHit(hits[1..], p)
  }

  /*
   * Properties of the recommendations.
   */

  /** Three recommendations, or one per product when fewer products were hit. */
  lemma {:induction false} RecommendationsCount(hits: seq<Retrieval.Hit>, products: seq<Product>)
    ensures |Recommendations(hits, products)| == if |FirstAppearance(hits)| < 3 then |FirstAppearance(hits)| else 3
  {
  }

  /**
   * The recommendations are listed best first: a higher summed score
   * first, and among equal scores the product hit first comes first (the
   * sort is stable).
   */
  lemma {:induction false} RecommendationsOrdered(hits: seq<Retrieval.Hit>, products: seq<Product>, i: int, j: int)
    requires 0 <= i < j < |Recommendations(hits, products)|
    ensures var recs, ids, top := Recommendations(hits, products), FirstAppearance(hits), TopPositions(hits);
      && recs[i].score >= recs[j].score
      && (recs[i].score == recs[j].score ==> top[i] < top[j])
      && recs[i].productId == ids[top[i]] && recs[j].productId == ids[top[j]]
  {
    var ids := FirstAppearance(hits);
    var s := Scores(hits, ids);
    var all := Ranking.RankDesc(s);
    var top := TopPositions(hits);
    assert top[i] == all[i] && top[j] == all[j];
    assert Ranking.Before(s, all[i], all[j]);
  }

  /** No product is recommended twice. */
  lemma {:induction false} RecommendationsDistinct(hits: seq<Retrieval.Hit>, products: seq<Product>, i: int, j: int)
    requires 0 <= i < j < |Recommendations(hits, products)|
    ensures Recommendations(hits, products)[i].productId != Recommendations(hits, products)[j].productId
  {
    var ids := FirstAppearance(hits);
    var s := Scores(hits, ids);
    var all := Ranking.RankDesc(s);
    var top := TopPositions(hits);
    assert top[i] == all[i] && top[j] == all[j];
    Ranking.RankedDistinct(s, all, i, j);
    FirstAppearanceFacts(hits);
  }

  /** A product that was hit but not recommended scores no more than any recommended one. */
  lemma {:induction false} RecommendationsAreBest(hits: seq<Retrieval.Hit>, products: seq<Product>, p: int, i: int)
    requires p in FirstAppearance(hits)
    requires forall r :: r in Recommendations(hits, products) ==> r.productId != p
    requires 0 <= i < |Recommendations(hits, products)|
    ensures TotalScore(hits, p) <= Recommendations(hits, products)[i].score
  {
    var recs := Recommendations(hits, products);
    var ids := FirstAppearance(hits);
    var s := Scores(hits, ids);
    var all := Ranking.RankDesc(s);
    var top := TopPositions(hits);
    var m :| 0 <= m < |ids| && ids[m] == p;
    forall t | 0 <= t < |top| ensures all[t] != m {
      assert recs[t] in recs;
      assert top[t] == all[t];
    }
    assert top[i] == all[i];
    Ranking.CutKeepsBest(s, all, |top|, m, i);
  }

  /** Each recommendation carries its product's summed score and the first 200 characters of its first hit's text. */
  lemma {:induction false} RecommendationContent(hits: seq<Retrieval.Hit>, products: seq<Product>, i: int)
    requires 0 <= i < |Recommendations(hits, products)|
    ensures var r := Recommendations(hits, products)[i];
      && r.productId in FirstAppearance(hits)
      && r.score == TotalScore(hits, r.productId)
      && FirstHit(hits, r.productId) < |hits|
      && r.reason == Take(hits[FirstHit(hits, r.productId)].text, 200)
  {
    var r := Recommendations(hits, products)[i];
    FirstAppearanceFacts(hits);
    assert r.productId in FirstAppearance(hits);
    ChunksOfFirst(hits, r.productId, FirstHit(hits, r.productId));
  }

  /** The title is the stored product's title, or "Product {id}" when no row has the id. */
  lemma {:induction false} TitleRule(products: seq<Product>, p: int)
    ensures (forall i :: 0 <= i < |products| ==> products[i].id != p) ==> TitleFor(products, p) == "Product " + IntToString(p)
    ensures UniqueIds(products) ==> forall i :: 0 <= i < |products| && products[i].id == p ==> TitleFor(products, p) == products[i].title
  {
    if UniqueIds(products) {
      forall i | 0 <= i < |products| && products[i].id == p ensures TitleFor(products, p) == products[i].title {
        var row := GetProduct(products, p).value;
        var j :| 0 <= j < |products| && products[j] == row;
        assert products[j].id == products[i].id;
      }
    }
  }

  /*
   * Properties of the prompt and the message.
   */

  /** The prompt holds each of the first six snippets. */
  lemma {:induction false} PromptHoldsSnippets(message: string, snippets: seq<string>, k: int)
    requires 0 <= k < |snippets| && k < 6
    ensures Contains(PromptFor(message, snippets), snippets[k])
  {
    var xs := Take(snippets, 6);
    var a := PromptHeader + "Context snippets:\n";
    var j := Join(xs, SnippetSeparator);
    var i := OccursInJoin(xs, SnippetSeparator, k);
    var prompt := PromptFor(message, snippets);
    var b := "\n" + QueryLine(message);
    assert prompt == a + j + b;
    assert prompt[|a| + i..|a| + i + |xs[k]|] == j[i..i + |xs[k]|];
    assert OccursAt(prompt, snippets[k], |a| + i);
    ContainsAt(prompt, snippets[k]);
  }

  /**
   * The prompt opens with the fixed instruction, closes with the user's
   * query, and depends on the first six snippets only.
   */
  lemma {:induction false} PromptShape(message: string, snippets: seq<string>)
    ensures PromptFor(message, snippets) == PromptFor(message, Take(snippets, 6))
    ensures StartsWith(PromptFor(message, snippets), PromptHeader)
    ensures var p, q := PromptFor(message, snippets), "User query: " + message + "\n";
      |p| >= |q| && p[|p| - |q|..] == q
  {
    var xs := Take(snippets, 6);
    assert Take(xs, 6) == xs;
    var head, tail := PromptHeader, ContextLines(snippets) + QueryLine(message);
    assert PromptFor(message, snippets) == head + tail;
    AppendParts(head, tail);
    AppendParts(PromptHeader + ContextLines(snippets), QueryLine(message));
  }

  /** Where the `k`-th element starts in the joined string. */
  lemma {:induction false} OccursInJoin(xs: seq<string>, sep: string, k: int) returns (i: nat)
    requires 0 <= k < |xs|
    ensures OccursAt(Join(xs, sep), xs[k], i)
  {
    if |xs| == 1 {
      i := 0;
    } else if k == 0 {
      i := 0;
      assert Join(xs, sep)[..|xs[0]|] == xs[0];
    } else {
      var rest := Join(xs[1..], sep);
      var i' := OccursInJoin(xs[1..], sep, k - 1);
      var head := xs[0] + sep;
      assert Join(xs, sep) == head + rest;
      i := |head| + i';
      assert Join(xs, sep)[i..i + |xs[k]|] == rest[i'..i' + |xs[k]|];
    }
  }

  /** The reply's message: the model's text when it returned a non-empty one; the fallback when it raised or returned nothing. */
  lemma {:induction false} MessageRule(out: LlmReply)
    ensures out.LlmRaised? ==> MessageFor(out) == FallbackMessage
    ensures out == LlmReturned(None) || out == LlmReturned(Some("")) ==> MessageFor(out) == FallbackMessage
    ensures out.LlmReturned? && out.text.Some? && out.text.value != "" ==> MessageFor(out) == out.text.value
  {
  }
}
