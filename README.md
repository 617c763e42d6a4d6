# Product discovery backend, modelled in Dafny

This project models the core of a small product-discovery backend: a
scraper that collects products from traya.health (or makes mock ones), a
product table and a table of text chunks with embeddings, a
nearest-neighbour search over those chunks, and a chat endpoint that
groups the search hits by product, recommends the three best and asks a
language model for the message.

The modules follow the source files:

- `Store` (`store.dfy`): the two tables as `seq` fields of a `Database`
  class, changed in place by the methods below. It covers the insert under
  the UNIQUE `source_url` constraint, lookup by id, DELETE with a WHERE
  predicate, and the insert loop shared by the scrape endpoint and the
  seeding script.
- `Retrieval` (`retrieval.dfy`): the model cache, `chunk_text`, the
  indexing pass `build_embeddings_for_products`, and `search_knn`.
- `Ranking` (`ranking.dfy`): a ranking by descending score, with ties in
  index order. It stands for `sorted(..., reverse=True)` (stable) in the
  chat endpoint. It also stands for `np.argsort(-sims)`, but `search_knn`
  promises only a top-k selection in which ties may come in any order.
- `Api` (`api.dfy`): `run_scraper`, `product_detail` and `chat`.
- `TrayaScraper` (`traya_scraper.dfy`): the URL predicate, field
  extraction, feature parsing, the link crawl and the product loop.
- `Scraper` (`scraper.dfy`): `scrape_site` dispatch and the mock
  products.
- `InitDb` (`init_db.dfy`) and `CleanupDb` (`cleanup_db.dfy`): the seeding
  and cleanup scripts.
- `Text` and `Wrappers`: Python string operations and `Option`/`Result`.

Things outside the program are parameters. The embedding model is
reached through the process-wide cache `Retrieval.EmbeddingModelCache`:
`load` constructs it from its name (`None` when the constructor raises),
and `encode` maps a text to its vector. The cosine score is
`sim: (seq<real>, seq<real>) -> real`, `str()` of the features JSON is
`render`, and the language model is `llm`. The
fetched pages are a `Web` record: links per seed page, a `Page` per
product URL, `urljoin` and the host part of `urlparse`.

How the code handles some cases, and how the model follows it:

- **A refused insert breaks the rest of the loop.** The insert loop of
  `run_scraper` and `init_db` catches the exception of a refused insert
  and goes on, but never rolls the session back. Every later insert in the
  same session then fails as well. `Store.AfterInserts` and
  `Store.InsertedCount` model exactly that: the run of accepted items from
  the first one on.
- **Model load failure.** A failure to construct the embedding model is
  not caught anywhere: it does not degrade to a placeholder. The model
  follows the code. `Retrieval.BuildEmbeddings` returns
  `Err(ModelLoadFailed)` with both tables unchanged, because the load
  happens before any row is added; with no text to index it never loads
  the model. `Retrieval.SearchKnn` fails the same way before it reads the
  table. `Api.Chat` fails at its warm-up call, and the cache stays empty
  for the next request.
- **`<title>` without a single string.** `fetch_product` calls `.strip()`
  on `None` in that case and raises. It also raises when a line with no
  colon follows a `features: ...` line, because a string has no `append`.
  Neither is caught inside `scrape_traya`. `scrape_site` catches both and
  returns no items.
- **Search failures.** A chunk table that is not empty but has no
  embedded row makes `np.vstack([])` raise. An embedded row whose width
  differs from the query's also makes the search raise. Both are the `Err`
  results of `Retrieval.SearchKnn`.

## Model

| member | source | states |
|---|---|---|
| Store.NextId | backend/app/models.py:21 | the id given to a new row exceeds every id in the table, and is 1 in an empty table |
| Store.RowFor | backend/app/crud.py:5-15 | definition: the row stored for an item, the assigned id with the item's fields (what an insert adds is stated by `Store.InsertsShape`) |
| Store.GetProduct | backend/app/crud.py:21-22 | no result exactly when no row has the id; a result is a row of the table with that id |
| Store.GetProductFindsRow | backend/app/crud.py:21-22 | with unique ids, looking up a row's id returns that row |
| Store.Keep | backend/cleanup_db.py:15 | definition: the rows a `DELETE ... WHERE` leaves, in table order; never more than there were |
| Store.Matching | backend/cleanup_db.py:8-9 | definition: the rows a `SELECT ... WHERE` returns, in table order (that kept and matched rows split the table is `Store.KeepSplits`) |
| Store.Database.constructor | backend/app/models.py:18-45 | a new database has both tables empty |
| Store.Database.CreateProduct | backend/app/crud.py:5-18 | the insert succeeds exactly when no stored row has the item's non-null source URL; on success the row with the next id is appended, otherwise the table is unchanged; the chunk table is untouched and ids and URLs stay unique |
| Store.Database.DeleteProducts | backend/cleanup_db.py:15-16 | the product table keeps exactly the rows the WHERE clause does not match, in order; the row count is the number matched; chunks untouched |
| Store.Database.DeleteChunks | backend/cleanup_db.py:21-22 | the chunk table keeps exactly the rows the WHERE clause does not match, in order; the row count is the number matched; products untouched |
| Store.Database.AddChunk | backend/app/retrieval.py:55-57 | one chunk row is appended and nothing else changes |
| Store.KeepMembers | backend/cleanup_db.py:15 | a row survives a DELETE exactly when it was in the table and the WHERE clause does not match it |
| Store.KeepSplits | backend/cleanup_db.py:15-16 | rows kept plus rows matched make up the whole table, so the DELETE's row count is the SELECT's count |
| Store.KeepAll | backend/cleanup_db.py:21 | a DELETE that matches nothing leaves the table exactly as it was |
| Store.KeepValid | backend/app/models.py:21-28 | deleting rows keeps primary keys and source URLs unique |
| Store.InsertedCount | backend/app/api.py:24-32 | the insert loop never counts more items than it was given |
| Store.AfterInserts | backend/app/api.py:24-32 | the product table after the insert loop: each item is inserted in turn while inserts succeed; the first refused item leaves the session unusable, so it and every later item are not stored |
| Store.InsertsShape | backend/app/api.py:25-32 | after the loop the table is the old table followed by one row per accepted item, in item order; the loop stopped short only at an item whose URL is already stored |
| Store.InsertsAscend | backend/app/crud.py:5-18 | every row inserted by the loop gets an id larger than all rows before it |
| Store.InsertsAppend | backend/app/api.py:25-32 | both of the above together: the new table's shape and the ascending ids |
| Store.DistinctUrlsAllInserted | backend/app/api.py:25-32 | items with distinct non-null URLs, none already stored, are all inserted |
| Store.InsertEach | backend/app/api.py:24-32 | the loop leaves the product table as the insert sequence defines it, counts the inserted items, reports a failure exactly when some item was not stored, and leaves the chunks alone |
| Retrieval.EmbeddingModelCache.constructor | backend/app/retrieval.py:7 | the cache starts empty |
| Retrieval.EmbeddingModelCache.Get | backend/app/retrieval.py:10-14 | a filled cache returns its model and stays as it is; an empty one loads the model by the given name and keeps it |
| Retrieval.CachedModelIgnoresLaterNames | backend/app/retrieval.py:10-14 | after a successful first load, a later call returns the same model whatever name it passes |
| Retrieval.Loaded | backend/app/retrieval.py:10-14 | the model `get_embedding_model()` returns and leaves cached: the cached one, else a fresh load of the default model, none when that load raises |
| Retrieval.WindowsConcat | backend/app/retrieval.py:27-31 | concatenating the chunks gives back the text exactly |
| Retrieval.WindowsCount | backend/app/retrieval.py:24-31 | no chunks exactly for the empty text; otherwise ceil(len / width) chunks |
| Retrieval.WindowsWidths | backend/app/retrieval.py:28-31 | every chunk but the last is exactly `width` long, and the last is 1 to `width` long |
| Retrieval.ChunkText | backend/app/retrieval.py:23-32 | the loop returns the consecutive fixed-width windows of the text (none for the empty text); it needs a positive width to terminate |
| Retrieval.Windows | backend/app/retrieval.py:23-32 | the reference definition of chunking: no chunks for the empty text, else the first `width` characters (or all of a shorter text) followed by the chunks of the rest |
| Retrieval.NonEmpty | backend/app/retrieval.py:43 | the `filter(None, ...)` keeps only non-empty strings, and keeps nothing exactly when all are empty |
| Retrieval.Combined | backend/app/retrieval.py:43 | a product's indexed text: its non-empty fields among title, category, `str(features)` for non-empty features, and description, joined by newlines |
| Retrieval.JoinNonEmpty | backend/app/retrieval.py:43 | joining non-empty strings gives the empty string exactly when there are none |
| Retrieval.CombinedEmptyIff | backend/app/retrieval.py:43 | a product's combined text is empty exactly when its title, category, rendered features and description are all empty |
| Retrieval.MetaFor | backend/app/retrieval.py:47 | definition: the meta of a product's chunks, its id, title and `source_url` (that each chunk gets its own product's meta is `Retrieval.IndexRowsAligned`) |
| Retrieval.ChunkMetas | backend/app/retrieval.py:45-47 | there is one meta per chunk text |
| Retrieval.ChunkTexts | backend/app/retrieval.py:42-46 | definition: the `texts` list after the first loop, each product's chunks product after product |
| Retrieval.IndexRows | backend/app/retrieval.py:42-56 | the rows the indexing pass adds: for each chunk of each product in order, the chunk text, its embedding, the product's id and its meta |
| Retrieval.ChunkTextsEmptyIff | backend/app/retrieval.py:44-50 | the pass collects no text exactly when every product's combined text is empty |
| Retrieval.ChunkTextsSpellProducts | backend/app/retrieval.py:42-47 | read in order, the collected chunk texts spell out the products' combined texts, product after product |
| Retrieval.IndexRowsAligned | backend/app/retrieval.py:44-47 | each collected text and its meta come from one and the same product |
| Retrieval.CollectChunks | backend/app/retrieval.py:42-47 | the first loop yields the chunk texts and the aligned metas of the products |
| Retrieval.AddProductChunks | backend/app/retrieval.py:45-47 | the inner loop appends one product's chunks, each with that product's meta |
| Retrieval.StoreRows | backend/app/retrieval.py:54-57 | the `db.add` loop appends the rows in order and leaves the products alone |
| Retrieval.BuildEmbeddings | backend/app/retrieval.py:35-58 | with no text in the first `limit` products it returns 0 and changes nothing, the model included; otherwise it loads the model if the cache is empty, and a failed load raises with both tables unchanged; on success the chunk table gains exactly one row per chunk (text, its embedding by the loaded model, its product's id and meta, in order), the products are unchanged, and the count returned is the number of rows added |
| Retrieval.EmbeddedCountZero | backend/app/retrieval.py:77-85 | no row counts as embedded exactly when every row's embedding is empty |
| Retrieval.EmbeddedCount | backend/app/retrieval.py:77-83 | definition: how many rows the search loop keeps, those with a non-empty embedding |
| Retrieval.DimsMatch | backend/app/retrieval.py:85-90 | definition: every embedded row is as wide as the query vector, the condition under which the stacked matrix product does not raise |
| Retrieval.SearchFailure | backend/app/retrieval.py:70-90 | when the search raises: never for an empty table; otherwise when no row is embedded (`np.vstack([])`), or when an embedded row is not as wide as the query |
| Retrieval.SliceLen | backend/app/retrieval.py:91 | definition: the length of Python's `xs[:k]` for a list of length `n`, a negative `k` counting from the end (the bound on the hits is `Retrieval.TopKBound`) |
| Retrieval.GatherEmbedded | backend/app/retrieval.py:77-83 | the filtering loop keeps exactly the rows with a non-empty embedding, in table order, each row's vector, text and product id aligned |
| Retrieval.EmbeddedPositionsFacts | backend/app/retrieval.py:77-83 | the positions of the embedded rows are counted by `EmbeddedCount`, ascend, and cover every embedded row |
| Retrieval.TakeHits | backend/app/retrieval.py:92-94 | the result loop gives, for each ranked position, the (product id, score, text) of that row |
| Retrieval.SearchKnn | backend/app/retrieval.py:63-95 | the cache ends holding the model `get_embedding_model()` gives; a failed load raises, even for an empty table; otherwise the result is that of the search for the query's encoding by the loaded model |
| Retrieval.SearchRows | backend/app/retrieval.py:70-95 | for a query vector: an empty table gives `[]`; the search raises exactly when no row is embedded or an embedded row's width differs from the query's; otherwise the hits are a top-`top_k` selection of the embedded rows, with each hit's id, score and text from the same row, no row twice, scores non-increasing and no row left out scoring above a kept one |
| Retrieval.IsTopK | backend/app/retrieval.py:88-94 | the promise of the search: `top_k` (as a Python slice) of the embedded rows, each hit the id, score and text of its own row, no row twice, scores non-increasing, and no embedded row left out scoring above a kept one; the order of equal scores is left open |
| Retrieval.TopKFromRanking | backend/app/retrieval.py:88-94 | the first `n` entries of a full descending ranking form such a top-`top_k` selection |
| Retrieval.TopKBound | backend/app/retrieval.py:91 | for `top_k >= 0`, at most `top_k` hits, and no more than there are embedded rows |
| Retrieval.TieOrderUnspecified | backend/app/retrieval.py:91 | for two rows with equal scores, both orders are valid results |
| Ranking.Insert | backend/app/api.py:73 | inserting a new position into a ranking keeps it a ranking of the positions so far plus the new one |
| Ranking.RankDesc | backend/app/api.py:73 | every position exactly once, in descending score, with equal scores in index order (a stable sort) |
| Ranking.RankedDistinct | backend/app/api.py:73 | a ranking never lists a position twice |
| Ranking.CutKeepsBest | backend/app/api.py:73 | after cutting a full ranking, every position left out scores no higher than any position kept |
| Api.RunScraper | backend/app/api.py:20-33 | `attempted` is the number of scraped items and `inserted` the number the loop stored, so `inserted <= attempted`; when no scraped URL is already stored, all are inserted; the table becomes the insert loop's result and the chunks are untouched |
| Api.ProductDetail | backend/app/api.py:42-47 | a 404 "Product not found" exactly when no row has the id, otherwise a row with that id |
| Api.Chat | backend/app/api.py:54-95 | a failed model load at the warm-up fails the request and leaves the cache empty; otherwise the request fails exactly when the search for the encoded message raises, the hits are the search's top-10 selection, and the reply is the one built from them; with no chunks the reply is the fixed "nothing found" message |
| Api.Respond | backend/app/api.py:60-95 | no hits give the fixed message and no recommendations; otherwise the recommendations are the top three products and the message is the language model's reply to the prompt |
| Api.ReplyFor | backend/app/api.py:60-95 | the reply for the search hits: the fixed "nothing found" reply for no hits, else the model's message for the prompt and the recommendations |
| Api.FirstAppearance | backend/app/api.py:66-67 | the dictionary's keys: the product ids of the hits, each once, in order of first appearance |
| Api.TotalScore | backend/app/api.py:68 | a product's entry score: the sum of its hits' scores |
| Api.Recommendations | backend/app/api.py:73-81 | the recommendations: for each of the first three keys of the stable descending sort by summed score, the product id, its title, its summed score and its reason |
| Api.PromptFor | backend/app/api.py:86-88 | the prompt: the fixed instruction, the first six snippets joined by the separator after a header, then the user query line |
| Api.MessageFor | backend/app/api.py:89-94 | `llm_out or fallback`: the model's text when it returned a non-empty one, else the fixed sentence |
| Api.Aggregate | backend/app/api.py:64-70 | the dictionary has a key for exactly the products that were hit, in first-appearance order; each entry has the sum of that product's hit scores and its hit texts in hit order; the snippets are every hit's text in order |
| Api.AddHit | backend/app/api.py:67-70 | one round of the aggregation extends the aggregate of the earlier hits by one hit |
| Api.AggregateStep | backend/app/api.py:67-70 | one more hit adds its product to the key order if it is new, adds its score to its product's total, and appends its text to its product's chunks and to the snippets |
| Api.FirstAppearanceFacts | backend/app/api.py:67 | the dictionary keys are distinct and are exactly the product ids of the hits |
| Api.ChunksOfNone | backend/app/api.py:67-69 | a product without hits has no chunks and a zero score |
| Api.ChunksOfFirst | backend/app/api.py:69 | a product's chunk list starts with the text of its first hit |
| Api.ChunksOfPresent | backend/app/api.py:80 | every product in the dictionary has a chunk, so `info["chunks"][0]` exists |
| Api.ChunksOf | backend/app/api.py:67-69 | definition: the `chunks` list `agg` holds for a product, its hits' texts in hit order |
| Api.Snippets | backend/app/api.py:70 | definition: `context_snippets`, every hit's text in hit order |
| Api.FirstHit | backend/app/api.py:66-69 | the index of the product's first hit: no earlier hit is the product's |
| Api.TopPositions | backend/app/api.py:73 | the ranked positions all lie within the dictionary |
| Api.BuildRecs | backend/app/api.py:77-81 | the recommendation loop produces exactly the specified recommendations |
| Api.MakeRec | backend/app/api.py:78-81 | one recommendation holds the product's id, its title, its summed score and its reason |
| Api.RecommendationAt | backend/app/api.py:73-81 | the `k`-th recommendation is for the product at the `k`-th ranked position |
| Api.RecommendationsCount | backend/app/api.py:73 | three recommendations, or one per product when fewer than three products were hit |
| Api.RecommendationsOrdered | backend/app/api.py:73 | scores never increase down the list, and equal scores keep first-appearance order |
| Api.RecommendationsDistinct | backend/app/api.py:73 | no product is recommended twice |
| Api.RecommendationsAreBest | backend/app/api.py:73 | a product that was hit but not recommended scores no higher than any recommended one |
| Api.RecommendationContent | backend/app/api.py:77-81 | each recommendation is for a hit product, carries its summed score, and gives as reason the first 200 characters of its first hit's text |
| Api.TitleRule | backend/app/api.py:78-79 | the title is "Product {id}" when no row has the id, and the stored title when ids are unique and a row has it |
| Api.TitleFor | backend/app/api.py:78-79 | definition: a recommendation's title, the stored title or `Product {id}` when the row is gone |
| Api.BuildPrompt | backend/app/api.py:86-88 | the three `+=` steps build the specified prompt |
| Api.PromptHoldsSnippets | backend/app/api.py:87 | each of the first six snippets occurs in the prompt |
| Api.PromptShape | backend/app/api.py:86-88 | the prompt depends only on the first six snippets, starts with the fixed instruction and ends with the user query line |
| Api.MessageRule | backend/app/api.py:89-94 | an exception, a `None` or an empty reply from the model gives the fallback sentence; a non-empty reply is the message |
| TrayaScraper.IsProductUrlIff | backend/scraper/traya_scraper.py:19-22 | a URL is a product URL exactly when it contains both "/products/" and "traya.health"; the empty href is not one |
| TrayaScraper.IsProductUrl | backend/scraper/traya_scraper.py:19-22 | a non-empty href containing both "/products/" and the domain |
| TrayaScraper.ExtractTextOrNone | backend/scraper/traya_scraper.py:25-30 | the result is the first non-empty selector text, or none exactly when no selector found a non-empty text |
| TrayaScraper.LastNonEmptyFacts | backend/scraper/traya_scraper.py:100-104 | the category is "" exactly when every breadcrumb text is empty; otherwise it is the last non-empty one |
| TrayaScraper.PickTitle | backend/scraper/traya_scraper.py:42-52 | the title block raises exactly on a `<title>` without a single string; otherwise it gives the h1 text, else og:title, else `<title>`, else "" |
| TrayaScraper.TitleOf | backend/scraper/traya_scraper.py:42-52 | the title rule when nothing raises: a non-empty h1 text, else a non-empty og:title stripped, else the `<title>` string stripped, else "" |
| TrayaScraper.PickPrice | backend/scraper/traya_scraper.py:54-62 | a price element's text wins over a non-empty price meta |
| TrayaScraper.PickDescription | backend/scraper/traya_scraper.py:64-72 | the stripped meta description, or the description element's text when that is empty |
| TrayaScraper.PickImage | backend/scraper/traya_scraper.py:88-96 | a product image's resolved `src` wins over og:image |
| TrayaScraper.PickCategory | backend/scraper/traya_scraper.py:98-104 | the last non-empty breadcrumb link text |
| TrayaScraper.PriceOf | backend/scraper/traya_scraper.py:54-62 | definition: the price element's text whenever the element exists, else a non-empty price meta, else "" |
| TrayaScraper.DescriptionOf | backend/scraper/traya_scraper.py:64-72 | definition: the stripped description meta unless empty, else the description element's text, else "" |
| TrayaScraper.ImageOf | backend/scraper/traya_scraper.py:88-96 | definition: a product image's `src` joined to the page URL, else `og:image`, else "" |
| TrayaScraper.CategoryOf | backend/scraper/traya_scraper.py:98-104 | definition: the last non-empty breadcrumb link text, else "" |
| TrayaScraper.SetKeyFacts | backend/scraper/traya_scraper.py:83 | after `d[k] = v` the key holds the new value and every other key its old one; an existing key keeps its place, a new one goes last |
| TrayaScraper.SetKeyKeepsUnique | backend/scraper/traya_scraper.py:83 | `d[k] = v` keeps the keys distinct |
| TrayaScraper.LookupFinds | backend/scraper/traya_scraper.py:83-86 | a key present in the dictionary is found by `get` |
| TrayaScraper.Lookup | backend/scraper/traya_scraper.py:86 | definition: `d.get(k)` on an insertion-ordered dictionary |
| TrayaScraper.SetKey | backend/scraper/traya_scraper.py:83 | definition: `d[k] = v` on an insertion-ordered dictionary (its effect is stated by `TrayaScraper.SetKeyFacts`) |
| TrayaScraper.AddLine | backend/scraper/traya_scraper.py:80-86 | one feature line: a line with a colon sets the stripped key before the first colon to the stripped value after it; a line without one is appended to the "features" list, created on first use; it raises when "features" holds a string |
| TrayaScraper.ParseFeatures | backend/scraper/traya_scraper.py:75-86 | the features dictionary after all lines in order, starting empty, or the exception of the first line that raises |
| TrayaScraper.ParseFeaturesUniqueKeys | backend/scraper/traya_scraper.py:77-86 | the parsed features form a dictionary: no key twice |
| TrayaScraper.AddLineKeepsKeysUnique | backend/scraper/traya_scraper.py:80-86 | one more feature line keeps the keys distinct |
| TrayaScraper.ColonFreeLines | backend/scraper/traya_scraper.py:84-86 | lines without a colon are collected, in order, under the key "features" |
| TrayaScraper.LaterKeyOverwrites | backend/scraper/traya_scraper.py:81-83 | a `key: value` line splits at its first colon and sets the stripped key to the stripped value, overwriting any earlier value |
| TrayaScraper.LooseLineAfterFeaturesKeyRaises | backend/scraper/traya_scraper.py:83-86 | once "features" holds a string, a later line without a colon raises |
| TrayaScraper.ParseFeaturesStaysRaised | backend/scraper/traya_scraper.py:77-86 | once a line raises, the whole parse raises |
| TrayaScraper.AddSection | backend/scraper/traya_scraper.py:78-86 | the inner loop continues the parse over one section's items |
| TrayaScraper.ParseFeatureSections | backend/scraper/traya_scraper.py:74-86 | the nested loop parses all items of all sections in order |
| TrayaScraper.FetchedShape | backend/scraper/traya_scraper.py:34-38 | a failed request gives `{}` exactly; a fetched product has its own URL as source URL, every string field present, and no empty features dict |
| TrayaScraper.Fetch | backend/scraper/traya_scraper.py:33-116 | the outcome of `fetch_product`: `{}` for a failed request; the exception on a `<title>` without a single string or a raising feature line; otherwise the dict of the field rules, with "" for a missing string field, no features when none were parsed, and the URL as source URL |
| TrayaScraper.FetchProduct | backend/scraper/traya_scraper.py:33-116 | `fetch_product` gives the outcome of its field rules for the page: `{}`, a product dict, or an exception |
| TrayaScraper.PageLinks | backend/scraper/traya_scraper.py:134-135 | definition: the links of one seed page in page order, a root-relative href resolved against the seed; none for a page that failed to load (which of them are kept is `TrayaScraper.UniqueFacts` and `TrayaScraper.CollectProductUrls`) |
| TrayaScraper.Absolute | backend/scraper/traya_scraper.py:135 | definition: an href starting with `/` joined to the seed URL, any other href as it is |
| TrayaScraper.Qualifies | backend/scraper/traya_scraper.py:136-139 | definition: a link whose host contains `traya.health` and that is a product URL |
| TrayaScraper.Candidates | backend/scraper/traya_scraper.py:127-135 | definition: the links of the given seed pages, page after page |
| TrayaScraper.UniqueFacts | backend/scraper/traya_scraper.py:137-141 | the collector keeps exactly the qualifying links, each once |
| TrayaScraper.UniquePrefix | backend/scraper/traya_scraper.py:127-146 | reading more links only adds to the end of the collected list |
| TrayaScraper.Unique | backend/scraper/traya_scraper.py:134-141 | the links the crawl keeps, before the cap: those on the domain's host that are product URLs, each the first time it is seen, in order |
| TrayaScraper.Consider | backend/scraper/traya_scraper.py:135-141 | a link off the traya.health host is skipped; a product link not seen before is appended and recorded in `found` |
| TrayaScraper.ScanPage | backend/scraper/traya_scraper.py:134-143 | the link loop of one seed page keeps the `found` set equal to the list, and stops once the cap is reached |
| TrayaScraper.CollectedSoFar | backend/scraper/traya_scraper.py:127-146 | when the crawl stops, the links kept are distinct, qualifying and taken from the seed pages, and with a cap of at least 1 they are the first `cap` such links |
| TrayaScraper.CollectProductUrls | backend/scraper/traya_scraper.py:123-146 | the collected URLs are distinct, on the traya.health host and product URLs; with a cap of at least 1 they are the first `cap` distinct qualifying links of the seed pages; with a smaller cap at most one |
| TrayaScraper.Outcomes | backend/scraper/traya_scraper.py:150-151 | one fetch outcome per URL, in URL order |
| TrayaScraper.Kept | backend/scraper/traya_scraper.py:152 | definition: an outcome the product loop keeps, a dict with a non-empty title |
| TrayaScraper.HarvestTakesFirstKept | backend/scraper/traya_scraper.py:149-156 | without an exception, the product loop returns the first `max_products` products that have a title |
| TrayaScraper.Harvest | backend/scraper/traya_scraper.py:149-156 | the product loop over the fetch outcomes: an exception ends the call; a dict with a non-empty title is kept; the loop stops once `max_products` are kept, and with a cap below 1 right after the first URL that did not raise |
| TrayaScraper.HarvestBounds | backend/scraper/traya_scraper.py:149-156 | at most `max_products` products (one when the cap is below 1), each titled and fetched from one of the URLs |
| TrayaScraper.HarvestDistinctUrls | backend/scraper/traya_scraper.py:149-156 | distinct URLs give products with distinct, non-null source URLs |
| TrayaScraper.LoopAgrees | backend/scraper/traya_scraper.py:150-156 | the loop, started at any point, finishes what the specification of the rest would |
| TrayaScraper.FetchProducts | backend/scraper/traya_scraper.py:149-156 | the product loop returns the specified products, or the exception from a fetch |
| TrayaScraper.ScrapeTraya | backend/scraper/traya_scraper.py:119-158 | with a cap of at least 1 the result is fixed by the pages; the products number at most the cap, have titles and distinct source URLs, and each URL qualifies |
| Scraper.MockItems | backend/scraper/scraper.py:31-42 | mock items 1 to `n`, in order |
| Scraper.ScrapeSite | backend/scraper/scraper.py:10-44 | the lower-cased name picks the branch: Traya gives the Traya scraper's products (none when it raised), Furlenco none, any other site five mock items numbered 1 to 5; in every case the source URLs are distinct and non-null |
| Scraper.SiteItems | backend/scraper/scraper.py:10-44 | the items `scrape_site` returns: by the lower-cased name, the Traya scraper's products with a cap of 100 (none when it raised), none for Furlenco, five mock items otherwise |
| Scraper.MockUrlsDistinct | backend/scraper/scraper.py:40 | the source URLs of mock items 1 to `n` are pairwise distinct, for any `n` |
| Scraper.MockUrlsDiffer | backend/scraper/scraper.py:40 | two different item numbers give different mock URLs |
| Scraper.MockTitlesAreSamples | backend/scraper/scraper.py:34 | every mock title starts with "Sample Product " |
| Scraper.BranchOf | backend/scraper/scraper.py:15-29 | definition: which branch of the dispatch a lower-cased site name takes |
| Scraper.MockItem | backend/scraper/scraper.py:32-41 | definition: the mock product number `i` for the site |
| Scraper.TrayaItems | backend/scraper/scraper.py:19-25 | definition: what the Traya branch returns, the scraper's products, or none when it raised |
| InitDb.SeedDatabase | backend/init_db.py:12-59 | seeding happens exactly when the product table is empty; otherwise neither table changes; when seeding, every scraped product is stored, `inserted` counts them, and one seeded chunk per stored product is appended |
| InitDb.AddSeedChunks | backend/init_db.py:40-50 | one chunk per product is appended, in table order, and the products are unchanged |
| InitDb.SeedChunksFacts | backend/init_db.py:42-47 | each product gets one chunk: its id, meta without `source_url`, no embedding, and the first 700 characters of "{title} {category} {description}" |
| InitDb.SeedText | backend/init_db.py:42 | the seed text: title, category and description ("" for a missing one), separated by spaces |
| InitDb.SeedChunk | backend/init_db.py:43-48 | a product's seed chunk: its id, the seed text cut to 700 characters, an empty embedding, and meta with id and title only |
| InitDb.SeedChunks | backend/init_db.py:40-49 | definition: one seed chunk per stored product, in table order |
| InitDb.SeededTableUnsearchable | backend/init_db.py:46 | a table holding only seeded chunks makes the search raise instead of returning an empty list |
| CleanupDb.Cleanup | backend/cleanup_db.py:8-28 | the listed samples are the matching rows; they are deleted and counted; then the chunks of missing products are deleted and counted; the remaining count is the size of the product table left |
| CleanupDb.SamplesDeleted | backend/cleanup_db.py:15 | after the first DELETE no sample title is left, every other product is still there, and a table with no sample is unchanged |
| CleanupDb.OrphansDeleted | backend/cleanup_db.py:21 | after the second DELETE every chunk belongs to a stored product, every chunk of a stored product is still there, and without orphans the table is unchanged |
| CleanupDb.MockItemsAreSamples | backend/cleanup_db.py:8 | every mock product's title matches the pattern, so cleanup removes it |
| CleanupDb.SampleIgnoresCase | backend/cleanup_db.py:8 | the pattern compares ASCII letters without regard to case |
| CleanupDb.IsSample | backend/cleanup_db.py:8 | `title LIKE 'Sample Product%'`: the title starts with the prefix, ASCII letters compared without regard to case |
| CleanupDb.OrphanOf | backend/cleanup_db.py:21 | definition: a chunk whose product id is not in the product table |
| CleanupDb.IdTitles | backend/cleanup_db.py:8-9 | definition: the `(id, title)` pairs the first SELECT fetches |
| Text.ContainsAt | backend/scraper/traya_scraper.py:22 | `sub in s` holds exactly when `sub` occurs at some index of `s` |
| Text.StripFacts | backend/scraper/traya_scraper.py:82 | `strip()` leaves the string minus leading and trailing whitespace |
| Text.StripIdempotent | backend/scraper/traya_scraper.py:82 | stripping twice is stripping once |
| Text.FirstIndex | backend/scraper/traya_scraper.py:82 | the first colon of a line is where `split(":", 1)` cuts |
| Text.Take | backend/app/api.py:80 | definition: Python's `s[:n]` for `n >= 0` (its use for the reason is stated by `Api.RecommendationContent`) |
| Api.OccursInJoin | backend/app/api.py:87 | every element of a join occurs in the joined string, at an index the lemma returns |
| Text.NatToString | backend/scraper/scraper.py:34 | `str(n)` is a non-empty string of decimal digits that denotes `n`, with no leading zero |
| Text.NatToStringInjective | backend/scraper/scraper.py:40 | different numbers print differently |
| Text.LowerAscii | backend/scraper/scraper.py:15 | lower-casing keeps the length and folds each ASCII capital |

## Left out

- Floating point. Scores and embeddings are `real`; `np.float32`,
  vector norms, the matrix product and NaN on zero-norm vectors are not
  modelled. The model's `encode` and the cosine score are parameters.
- Errors of `encode` itself once the model is loaded are not modelled;
  only the failure to construct the model is.
- Store.NextId: the id of a new row is one more than the largest id
  present, which is SQLite's rowid rule. With `DATABASE_URL` pointing at
  Postgres a sequence gives the id, and it also advances on a refused
  insert, so ids may skip values. Those ids would still be unique and
  would still grow, which is all the other contracts rely on; the exact
  ids a sequence gives are not modelled.
- The cosine normalisation is part of `sim`. A width mismatch is modelled
  as the search raising; which numpy call raises is not distinguished.
- HTML parsing, HTTP requests, `time.sleep`, `urljoin` and `urlparse`.
  The pages arrive as a `Web` record; `urljoin` and the host are
  parameters of it.
- Unicode case folding: `site.lower()` and SQLite's `LIKE` are modelled
  on ASCII letters only.
- `str(features)`: the Python repr of the features dict is the
  parameter `render`.
- Concurrent cold start of the model cache: there is no lock in the code,
  and the cache is modelled as sequential state only.
- The Gemini client: `generate_response` is the oracle `llm`, which
  returns a string, nothing, or an exception.
- FastAPI routing, CORS and the startup hook; the `products` listing
  endpoint and `crud.list_products` (offset and limit on a query).
- Retrieval.BuildEmbeddings: the source commits once after the loop;
  the model appends chunk by chunk. No commit can fail in the model, so
  the tables end the same.
- InitDb.SeedDatabase: the same holds for its chunk loop. The outer
  `except` that reports a failed scrape is not modelled, because nothing
  in the seeding path can raise there: `scrape_site` catches the
  scraper's exceptions, and its items have distinct URLs, so every insert
  into the empty table succeeds.
- Retrieval.ChunkText: requires a positive width for a non-empty text;
  with a width of zero or less the source loop never ends.
- Retrieval.BuildEmbeddings: `.limit(limit)` has no `ORDER BY`; the model
  takes the first `limit` products in table order. `limit` is a `nat`, so
  a negative limit, which SQL reads as no limit, is not modelled.
- Retrieval.SliceLen: for a negative `top_k` only the Python slice length
  is modelled; the `chat` endpoint always passes 10.
- TrayaScraper.CollectProductUrls: for `max_products < 1` only the bound
  "at most one link" is stated, not which link.
- TrayaScraper.ScrapeTraya: for `max_products < 1` only bounds and the
  URL and title properties are stated, not the exact products.
- Pydantic validation of `ProductCreate`. Every scraped dict has a string
  title, so it never refuses one; the only refused insert modelled is the
  UNIQUE `source_url` violation.
- `created_at` timestamps, the `price`/`image_url` columns beyond being
  carried along, and the foreign-key `ON DELETE CASCADE`. SQLite does not
  enforce that cascade without a pragma, which is why the cleanup script
  deletes orphans itself.
- The React frontend and `create_embeddings.py`, a one-line call of
  the indexing pass.
