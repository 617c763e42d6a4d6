/**
 * The retrieval engine: the cached embedding model, fixed-width chunking,
 * the indexing pass that turns products into embedded chunk rows, and the
 * brute-force nearest-neighbour search over the chunk table.
 *
 * The sentence-embedding model is reached through the cache: `load`
 * constructs it from its name (or raises), and `encode` maps a text to its
 * vector, so a batch of texts is encoded index for index. The cosine
 * similarity is the parameter `sim`, one real score per pair.
 */
module Retrieval {
  import opened Wrappers
  import opened Text
  import opened Store
  import Ranking

  // ---------------------------------------------------------------------
  // The process-wide model cache
  // ---------------------------------------------------------------------

  /**
   * The module-level `_EMBED_MODEL`: empty until the first successful load,
   * then returned as is. `load` stands for constructing the model from its
   * name; `None` from it means the constructor raised, which leaves the
   * cache empty.
   */
  class EmbeddingModelCache<M> {
    var model: Option<M>

    constructor ()
      ensures model == None
    {
      model := None;
    }

    method Get(name: string, load: string -> Option<M>) returns (r: Option<M>)
      modifies this
      ensures old(model).Some? ==> r == old(model) && model == old(model)
      ensures old(model).None? ==> r == load(name) && model == r
    {
      if model.None? {
        model := load(name);
      }
      r := model;
    }
  }

  /** The name `get_embedding_model()` loads when called without one. */
  const DefaultModelName := "all-MiniLM-L6-v2"

  /**
   * The model a `get_embedding_model()` call returns and leaves in the
   * cache: the cached one, else a fresh load of the default model; `None`
   * when that load raises.
   */
  function Loaded<M>(cached: Option<M>, load: string -> Option<M>): Option<M> {
    if cached.Some? then cached else load(DefaultModelName)
  }

  /** The model's `encode`, for one model, as a function of the text. */
  function Encoder<M>(encode: (M, string) -> seq<real>, m: M): string -> seq<real> {
    s => encode(m, s)
  }

  /** Once a load has succeeded, later calls return that same model whatever name they pass. */
  method CachedModelIgnoresLaterNames<M>(first: string, later: string, load: string -> Option<M>)
    returns (a: Option<M>, b: Option<M>)
    ensures a == load(first)
    ensures a.Some? ==> b == a
    ensures a.None? ==> b == load(later)
  {
    var cache := new EmbeddingModelCache<M>();
    a := cache.Get(first, load);
    b := cache.Get(later, load);
  }

  // ---------------------------------------------------------------------
  // Chunking
  // ---------------------------------------------------------------------

  /** The consecutive windows of width `width` that cut `text`, the last one possibly shorter. */
  function Windows(text: string, width: int): seq<string>
    requires text == [] || width > 0
    decreases |text|
  {
    if text == [] then []
    else if |text| <= width then [text]
    else [text[..width]] + Windows(text[width..], width)
  }

  function Concat(xs: seq<string>): string {
    if xs == [] then [] else xs[0] + Concat(xs[1..])
  }

  lemma {:induction false} ConcatAppend(xs: seq<string>, ys: seq<string>)
    ensures Concat(xs + ys) == Concat(xs) + Concat(ys)
  {
    if xs == [] {
      assert xs + ys == ys;
    } else {
      ConcatAppend(xs[1..], ys);
      assert (xs + ys)[1..] == xs[1..] + ys;
      assert Concat(xs + ys) == xs[0] + Concat(xs[1..] + ys);
    }
  }

  /** Gluing the chunks back together gives the text exactly. */
  lemma {:induction false} WindowsConcat(text: string, width: int)
    requires width > 0
    ensures Concat(Windows(text, width)) == text
    decreases |text|
  {
    if |text| > width {
      WindowsConcat(text[width..], width);
      assert text[..width] + text[width..] == text;
    }
  }

  /** ceil(|text| / width) chunks: the fewest windows of `width` characters that cover the text. */
  lemma {:induction false} WindowsCount(text: string, width: int)
    requires width > 0
    ensures |Windows(text, width)| == 0 <==> text == []
    ensures |text| <= |Windows(text, width)| * width
    ensures text != [] ==> (|Windows(text, width)| - 1) * width < |text|
    decreases |text|
  {
    if |text| > width {
      var c := |Windows(text[width..], width)|;
      WindowsCount(text[width..], width);
      assert |Windows(text, width)| == c + 1;
      assert (c + 1) * width == c * width + width;
    }
  }

  /** Every chunk but the last is exactly `width` long and the last is 1 to `width` long, so no chunk is empty. */
  lemma {:induction false} WindowsWidths(text: string, width: int)
    requires width > 0
    ensures forall i :: 0 <= i < |Windows(text, width)| - 1 ==> |Windows(text, width)[i]| == width
    ensures Windows(text, width) != [] ==> 1 <= |Windows(text, width)[|Windows(text, width)| - 1]| <= width
    decreases |text|
  {
    if |text| > width {
      WindowsWidths(text[width..], width);
      var rest := Windows(text[width..], width);
      assert Windows(text, width) == [text[..width]] + rest;
      assert forall i :: 1 <= i < |rest| + 1 ==> Windows(text, width)[i] == rest[i - 1];
    }
  }

  /** `chunk_text`: the empty text gives no chunks; otherwise a loop advances over the text one window at a time. */
  method ChunkText(text: string, maxChars: int) returns (chunks: seq<string>)
    requires text == [] || maxChars > 0
    ensures chunks == Windows(text, maxChars)
  {
    if text == [] {
      return [];
    }
    chunks := [];
    var start := 0;
    while start < |text|
      invariant 0 <= start <= |text|
      invariant chunks + Windows(text[start..], maxChars) == Windows(text, maxChars)
      decreases |text| - start
    {
      var end := if |text| < start + maxChars then |text| else start + maxChars;
      ghost var rest := text[start..];
      assert rest[..end - start] == text[start..end];
      assert rest[end - start..] == text[end..];
      if |rest| <= maxChars {
        assert end == |text| && rest == text[start..end] && text[end..] == [];
      }
      assert Windows(rest, maxChars) == [text[start..end]] + Windows(text[end..], maxChars);
      assert chunks + [text[start..end]] + Windows(text[end..], maxChars)
          == chunks + ([text[start..end]] + Windows(text[end..], maxChars));
      chunks := chunks + [text[start..end]];
      start := end;
    }
  }

  // ---------------------------------------------------------------------
  // Indexing
  // ---------------------------------------------------------------------

  /** Chunk width used when indexing products. */
  const IndexChunkSize := 700

  /** The falsy-field filter: keeps the non-empty strings, in order. */
  function NonEmpty(xs: seq<string>): (r: seq<string>)
    ensures forall i :: 0 <= i < |r| ==> r[i] != ""
    ensures r == [] <==> forall i :: 0 <= i < |xs| ==> xs[i] == ""
  {
    if xs == [] then []
    else if xs[0] == "" then NonEmpty(xs[1..])
    else [xs[0]] + NonEmpty(xs[1..])
  }

  /** The four fields that make up a product's text; `render` is `str()` of the features JSON. */
  function TextFields(p: Product, render: Features -> string): seq<string> {
    [ p.title,
      p.category.GetOr(""),
      if p.features.Some? && p.features.value != [] then render(p.features.value) else "",
      p.description.GetOr("") ]
  }

  /** The text indexed for one product: its non-empty fields joined by newlines. */
  function Combined(p: Product, render: Features -> string): string {
    Join(NonEmpty(TextFields(p, render)), "\n")
  }

  lemma {:induction false} JoinNonEmpty(xs: seq<string>, sep: string)
    requires forall i :: 0 <= i < |xs| ==> xs[i] != ""
    ensures Join(xs, sep) == "" <==> xs == []
  {
    if |xs| > 1 {
      assert |Join(xs, sep)| >= |xs[0]|;
    }
  }

  /** A product contributes no text exactly when all four of its fields are empty. */
  lemma {:induction false} CombinedEmptyIff(p: Product, render: Features -> string)
    ensures Combined(p, render) == "" <==>
      && p.title == ""
      && p.category.GetOr("") == ""
      && (p.features.Some? && p.features.value != [] ==> render(p.features.value) == "")
      && p.description.GetOr("") == ""
  {
    var fs := TextFields(p, render);
    JoinNonEmpty(NonEmpty(fs), "\n");
    assert fs[0] == p.title && fs[1] == p.category.GetOr("") && fs[3] == p.description.GetOr("");
    assert fs[2] == if p.features.Some? && p.features.value != [] then render(p.features.value) else "";
  }

  /** The meta stored with every chunk of a product. */
  function MetaFor(p: Product): Meta {
    Meta(p.id, p.title, UrlKey(p.sourceUrl))
  }

  function ProductChunks(p: Product, render: Features -> string): seq<string> {
    Windows(Combined(p, render), IndexChunkSize)
  }

  /** The `texts` list after the first pass over `ps`: each product's chunks, product after product. */
  function ChunkTexts(ps: seq<Product>, render: Features -> string): seq<string> {
    if ps == [] then []
    else ChunkTexts(ps[..|ps| - 1], render) + ProductChunks(ps[|ps| - 1], render)
  }

  /** The `meta` list after the first pass: one meta per chunk, from the chunk's own product. */
  function ChunkMetas(ps: seq<Product>, render: Features -> string): (r: seq<Meta>)
    ensures |r| == |ChunkTexts(ps, render)|
  {
    if ps == [] then []
    else
      var last := ps[|ps| - 1];
      ChunkMetas(ps[..|ps| - 1], render) + seq(|ProductChunks(last, render)|, _ => MetaFor(last))
  }

  /** The rows the indexing pass adds: chunk text, its embedding and its product's meta, aligned. */
  function IndexRows(ps: seq<Product>, embed: string -> seq<real>, render: Features -> string): seq<Chunk> {
    var texts := ChunkTexts(ps, render);
    var metas := ChunkMetas(ps, render);
    seq(|texts|, k requires 0 <= k < |texts| => Chunk(metas[k].productId, texts[k], embed(texts[k]), metas[k]))
  }

  /** The indexing pass adds nothing exactly when no product has any text. */
  lemma {:induction false} ChunkTextsEmptyIff(ps: seq<Product>, render: Features -> string)
    ensures ChunkTexts(ps, render) == [] <==> forall i :: 0 <= i < |ps| ==> Combined(ps[i], render) == ""
  {
    if ps != [] {
      var init := ps[..|ps| - 1];
      ChunkTextsEmptyIff(init, render);
      WindowsCount(Combined(ps[|ps| - 1], render), IndexChunkSize);
      assert forall i :: 0 <= i < |init| ==> init[i] == ps[i];
    }
  }

  function CombinedAll(ps: seq<Product>, render: Features -> string): string {
    if ps == [] then [] else CombinedAll(ps[..|ps| - 1], render) + Combined(ps[|ps| - 1], render)
  }

  /** Read in order, the chunk texts spell out every product's combined text, product after product. */
  lemma {:induction false} ChunkTextsSpellProducts(ps: seq<Product>, render: Features -> string)
    ensures Concat(ChunkTexts(ps, render)) == CombinedAll(ps, render)
  {
    if ps != [] {
      var init := ps[..|ps| - 1];
      ChunkTextsSpellProducts(init, render);
      ConcatAppend(ChunkTexts(init, render), ProductChunks(ps[|ps| - 1], render));
      WindowsConcat(Combined(ps[|ps| - 1], render), IndexChunkSize);
    }
  }

  /** Every indexed row's product id, meta and text come from one and the same product. */
  lemma {:induction false} IndexRowsAligned(ps: seq<Product>, render: Features -> string, k: int)
    requires 0 <= k < |ChunkTexts(ps, render)|
    ensures exists i :: 0 <= i < |ps| && ChunkMetas(ps, render)[k] == MetaFor(ps[i])
                        && ChunkTexts(ps, render)[k] in ProductChunks(ps[i], render)
  {
    var init := ps[..|ps| - 1];
    var last := ps[|ps| - 1];
    var n := |ChunkTexts(init, render)|;
    if k < n {
      IndexRowsAligned(init, render, k);
      var i :| 0 <= i < |init| && ChunkMetas(init, render)[k] == MetaFor(init[i])
               && ChunkTexts(init, render)[k] in ProductChunks(init[i], render);
      assert init[i] == ps[i];
    } else {
      assert ChunkTexts(ps, render)[k] == ProductChunks(last, render)[k - n];
      assert ChunkMetas(ps, render)[k] == MetaFor(ps[|ps| - 1]);
    }
  }

  /**
   * `build_embeddings_for_products`: chunk the combined text of the first
   * `limit` products at 700; with no text at all, return 0 without touching
   * the model or the tables. Otherwise get the model (a failed load raises
   * before any row is added), embed every chunk in one batch, and add one
   * row per chunk; returns the number of rows added.
   */
  method BuildEmbeddings<M>(db: Database, cache: EmbeddingModelCache<M>, load: string -> Option<M>,
                            encode: (M, string) -> seq<real>, limit: nat, render: Features -> string)
    returns (r: Result<nat, RetrievalError>)
    requires db.Valid()
    modifies db, cache
    ensures db.Valid() && db.products == old(db.products)
    ensures ChunkTexts(Take(old(db.products), limit), render) == [] ==>
      r == Ok(0) && db.chunks == old(db.chunks) && cache.model == old(cache.model)
    ensures ChunkTexts(Take(old(db.products), limit), render) != [] ==>
      && cache.model == Loaded(old(cache.model), load)
      && (r.Err? <==> cache.model.None?)
      && (r.Err? ==> r.error == ModelLoadFailed && db.chunks == old(db.chunks))
    ensures r.Ok? && cache.model.Some? ==>
      var rows := IndexRows(Take(old(db.products), limit), Encoder(encode, cache.model.value), render);
      db.chunks == old(db.chunks) + rows && r.value == |rows|
  {
    var ps := Take(db.products, limit);
    var texts, metas := CollectChunks(ps, render);
    if texts == [] {
      return Ok(0);
    }
    var model := cache.Get(DefaultModelName, load);
    if model.None? {
      return Err(ModelLoadFailed);
    }
    var embed := Encoder(encode, model.value);
    var embeddings := seq(|texts|, k requires 0 <= k < |texts| => embed(texts[k]));
    var rows := seq(|texts|, k requires 0 <= k < |texts| => Chunk(metas[k].productId, texts[k], embeddings[k], metas[k]));
    assert rows == IndexRows(ps, embed, render);
    StoreRows(db, rows);
    r := Ok(|texts|);
  }

  /** The `db.add` loop of the indexing pass: the rows are appended in order. */
  method StoreRows(db: Database, rows: seq<Chunk>)
    modifies db
    ensures db.products == old(db.products)
    ensures db.chunks == old(db.chunks) + rows
  {
    for k := 0 to |rows|
      invariant db.products == old(db.products)
      invariant db.chunks == old(db.chunks) + rows[..k]
    {
      db.AddChunk(rows[k]);
      assert rows[..k + 1] == rows[..k] + [rows[k]];
    }
    assert rows[..|rows|] == rows;
  }

  /** The first pass of the indexing: chunk every product's combined text, recording each chunk's meta. */
  method CollectChunks(ps: seq<Product>, render: Features -> string) returns (texts: seq<string>, metas: seq<Meta>)
    ensures texts == ChunkTexts(ps, render)
    ensures metas == ChunkMetas(ps, render)
  {
    texts, metas := [], [];
    for i := 0 to |ps|
      invariant texts == ChunkTexts(ps[..i], render)
      invariant metas == ChunkMetas(ps[..i], render)
    {
      var p := ps[i];
      var cs := ChunkText(Combined(p, render), IndexChunkSize);
      CollectStep(ps, i, render);
      texts, metas := AddProductChunks(texts, metas, cs, MetaFor(p));
    }
    assert ps[..|ps|] == ps;
  }

  /** One more product adds its chunks, each with that product's meta. */
  lemma {:induction false} CollectStep(ps: seq<Product>, i: nat, render: Features -> string)
    requires i < |ps|
    ensures ChunkTexts(ps[..i + 1], render) == ChunkTexts(ps[..i], render) + ProductChunks(ps[i], render)
    ensures ChunkMetas(ps[..i + 1], render) == ChunkMetas(ps[..i], render) + seq(|ProductChunks(ps[i], render)|, _ => MetaFor(ps[i]))
  {
    assert ps[..i + 1][..i] == ps[..i];
  }

  /** The inner loop of the first pass: each chunk of one product, with that product's meta. */
  method AddProductChunks(texts0: seq<string>, metas0: seq<Meta>, cs: seq<string>, meta: Meta)
    returns (texts: seq<string>, metas: seq<Meta>)
    ensures texts == texts0 + cs
    ensures metas == metas0 + seq(|cs|, _ => meta)
  {
    texts, metas := texts0, metas0;
    for j := 0 to |cs|
      invariant texts == texts0 + cs[..j]
      invariant metas == metas0 + seq(j, _ => meta)
    {
      texts := texts + [cs[j]];
      metas := metas + [meta];
      assert cs[..j + 1] == cs[..j] + [cs[j]];
    }
    assert cs[..|cs|] == cs;
  }

  // ---------------------------------------------------------------------
  // Nearest-neighbour search
  // ---------------------------------------------------------------------

  /** One search result: product id, similarity score, chunk text. */
  datatype Hit = Hit(productId: int, score: real, text: string)

  /** What `search_knn` and the indexing pass raise instead of returning. */
  datatype RetrievalError =
    | ModelLoadFailed    // the model constructor raised inside `get_embedding_model`
    | NoEmbeddedRows     // np.vstack of an empty list
    | DimensionMismatch  // rows of different widths, or rows not as wide as the query

  function HitOf(c: Chunk, q: seq<real>, sim: (seq<real>, seq<real>) -> real): Hit {
    Hit(c.productId, sim(c.embedding, q), c.text)
  }

  /** Number of rows with a non-empty embedding. */
  function EmbeddedCount(rows: seq<Chunk>): nat {
    if rows == [] then 0
    else EmbeddedCount(rows[..|rows| - 1]) + (if rows[|rows| - 1].embedding != [] then 1 else 0)
  }

  lemma {:induction false} EmbeddedCountZero(rows: seq<Chunk>)
    ensures EmbeddedCount(rows) == 0 <==> forall i :: 0 <= i < |rows| ==> rows[i].embedding == []
  {
    if rows != [] {
      var init := rows[..|rows| - 1];
      EmbeddedCountZero(init);
      assert forall i :: 0 <= i < |init| ==> init[i] == rows[i];
    }
  }

  /** Every embedded row is exactly as wide as the query vector. */
  predicate DimsMatch(rows: seq<Chunk>, q: seq<real>) {
    forall i :: 0 <= i < |rows| && rows[i].embedding != [] ==> |rows[i].embedding| == |q|
  }

  /** When, and how, a search raises. */
  function SearchFailure(rows: seq<Chunk>, q: seq<real>): Option<RetrievalError> {
    if rows == [] then None
    else if EmbeddedCount(rows) == 0 then Some(NoEmbeddedRows)
    else if !DimsMatch(rows, q) then Some(DimensionMismatch)
    else None
  }

  /** Length of Python's `xs[:k]` for a list of length `n`; a negative `k` counts from the end. */
  function SliceLen(n: nat, k: int): nat {
    if k >= 0 then (if k < n then k else n)
    else if n + k > 0 then n + k
    else 0
  }

  /**
   * The search result `hits`, drawn from the rows at positions `picked`, is
   * a top-`topK` selection: as many hits as `[:topK]` of the embedded rows
   * leaves, each hit the (product id, score, text) of its own embedded row,
   * no row twice, scores non-increasing, and no embedded row left out
   * scoring above a row kept. Among equal scores no order is promised.
   */
  ghost predicate IsTopK(rows: seq<Chunk>, q: seq<real>, sim: (seq<real>, seq<real>) -> real,
                         topK: int, picked: seq<nat>, hits: seq<Hit>)
  {
    && |hits| == |picked| == SliceLen(EmbeddedCount(rows), topK)
    && (forall j :: 0 <= j < |picked| ==>
          picked[j] < |rows| && rows[picked[j]].embedding != [] && hits[j] == HitOf(rows[picked[j]], q, sim))
    && (forall i, j :: 0 <= i < j < |picked| ==> picked[i] != picked[j])
    && (forall i, j :: 0 <= i < j < |hits| ==> hits[i].score >= hits[j].score)
    && (forall m, j :: 0 <= m < |rows| && rows[m].embedding != [] && m !in picked && 0 <= j < |hits| ==>
          sim(rows[m].embedding, q) <= hits[j].score)
  }

  /** With a non-negative `top_k` the search never returns more than `top_k` hits. */
  lemma {:induction false} TopKBound(rows: seq<Chunk>, q: seq<real>, sim: (seq<real>, seq<real>) -> real,
                  topK: int, picked: seq<nat>, hits: seq<Hit>)
    requires IsTopK(rows, q, sim, topK, picked, hits) && topK >= 0
    ensures |hits| <= topK && |hits| <= EmbeddedCount(rows)
  {
  }

  /**
   * The selection does not fix the order of equal scores: two rows with
   * the same embedding score the same under any similarity, and both
   * orders of them are valid results.
   */
  lemma {:induction false} TieOrderUnspecified(q: seq<real>, sim: (seq<real>, seq<real>) -> real, m: Meta)
    ensures var rows := [Chunk(1, "a", [1.0], m), Chunk(2, "b", [1.0], m)];
            var h0 := HitOf(rows[0], q, sim);
            var h1 := HitOf(rows[1], q, sim);
            && h0 != h1
            && IsTopK(rows, q, sim, 2, [0, 1], [h0, h1])
            && IsTopK(rows, q, sim, 2, [1, 0], [h1, h0])
  {
    var rows := [Chunk(1, "a", [1.0], m), Chunk(2, "b", [1.0], m)];
    assert rows[..1] == [rows[0]];
    assert rows[..1][..0] == [];
    assert EmbeddedCount(rows[..1]) == 1;
    assert EmbeddedCount(rows) == 2;
  }

  /**
   * `search_knn`: get the model and encode the query, then search the
   * chunk table. A failed load raises before the table is read.
   */
  method SearchKnn<M>(cache: EmbeddingModelCache<M>, load: string -> Option<M>, encode: (M, string) -> seq<real>,
                      query: string, topK: int, rows: seq<Chunk>, sim: (seq<real>, seq<real>) -> real)
    returns (r: Result<seq<Hit>, RetrievalError>, ghost picked: seq<nat>)
    modifies cache
    ensures cache.model == Loaded(old(cache.model), load)
    ensures cache.model.None? ==> r == Err(ModelLoadFailed)
    ensures cache.model.Some? ==>
      var q := encode(cache.model.value, query);
      && (rows == [] ==> r == Ok([]))
      && (r.Err? <==> SearchFailure(rows, q).Some?)
      && (r.Err? ==> r.error == SearchFailure(rows, q).value)
      && (r.Ok? ==> IsTopK(rows, q, sim, topK, picked, r.value))
  {
    var model := cache.Get(DefaultModelName, load);
    if model.None? {
      return Err(ModelLoadFailed), [];
    }
    var q := encode(model.value, query);
    r, picked := SearchRows(q, topK, rows, sim);
  }

  /**
   * The search proper, for the query vector `q`: the empty table gives no
   * hits; otherwise the rows with an embedding are gathered in table order,
   * scored against `q`, ranked, and cut to `top_k` (`picked` records, for
   * the proof, which rows the hits come from).
   */
  method SearchRows(q: seq<real>, topK: int, rows: seq<Chunk>, sim: (seq<real>, seq<real>) -> real)
    returns (r: Result<seq<Hit>, RetrievalError>, ghost picked: seq<nat>)
    ensures rows == [] ==> r == Ok([])
    ensures r.Err? <==> SearchFailure(rows, q).Some?
    ensures r.Err? ==> r.error == SearchFailure(rows, q).value
    ensures r.Ok? ==> IsTopK(rows, q, sim, topK, picked, r.value)
  {
    if rows == [] {
      return Ok([]), [];
    }
    var embs, texts, prodIds, src := GatherEmbedded(rows);
    if embs == [] {
      EmbeddedCountZero(rows);
      return Err(NoEmbeddedRows), [];
    }
    if exists k :: 0 <= k < |embs| && |embs[k]| != |q| {
      return Err(DimensionMismatch), [];
    }
    var sims := seq(|embs|, k requires 0 <= k < |embs| => sim(embs[k], q));
    var order := Ranking.RankDesc(sims);
    var n := SliceLen(|order|, topK);
    var results := TakeHits(prodIds, sims, texts, order, n);
    picked := seq(n, j requires 0 <= j < n => src[order[j]]);
    HitsOfRows(rows, texts, prodIds, src, sims, order, n, picked, results);
    TopKFromRanking(rows, q, sim, topK, src, sims, order, n, picked, results);
    r := Ok(results);
  }

  /** The result loop of `search_knn`: the first `n` ranked rows as (product id, score, text) triples. */
  method TakeHits(prodIds: seq<int>, sims: seq<real>, texts: seq<string>, order: seq<nat>, n: nat)
    returns (results: seq<Hit>)
    requires n <= |order|
    requires forall t :: 0 <= t < |order| ==> order[t] < |prodIds| && order[t] < |sims| && order[t] < |texts|
    ensures |results| == n
    ensures forall t :: 0 <= t < n ==> results[t] == Hit(prodIds[order[t]], sims[order[t]], texts[order[t]])
  {
    results := [];
    for j := 0 to n
      invariant |results| == j
      invariant forall t :: 0 <= t < j ==> results[t] == Hit(prodIds[order[t]], sims[order[t]], texts[order[t]])
    {
      results := results + [Hit(prodIds[order[j]], sims[order[j]], texts[order[j]])];
    }
  }

  /**
   * The first pass of `search_knn`: the rows that have an embedding, in
   * table order, split into their vectors, texts and product ids (`src`
   * records, for the proof, the table position of each).
   */
  method GatherEmbedded(rows: seq<Chunk>)
    returns (embs: seq<seq<real>>, texts: seq<string>, prodIds: seq<int>, ghost src: seq<nat>)
    ensures |embs| == |texts| == |prodIds| == |src| == EmbeddedCount(rows)
    ensures forall k :: 0 <= k < |src| ==>
      src[k] < |rows| && rows[src[k]].embedding != [] && embs[k] == rows[src[k]].embedding
      && texts[k] == rows[src[k]].text && prodIds[k] == rows[src[k]].productId
    ensures forall k, l :: 0 <= k < l < |src| ==> src[k] < src[l]
    ensures forall m :: 0 <= m < |rows| && rows[m].embedding != [] ==> m in src
  {
    embs, texts, prodIds, src := [], [], [], [];
    for i := 0 to |rows|
      invariant src == EmbeddedPositions(rows[..i])
      invariant forall k :: 0 <= k < |src| ==> src[k] < i
      invariant |embs| == |texts| == |prodIds| == |src|
      invariant forall k :: 0 <= k < |src| ==>
        embs[k] == rows[src[k]].embedding && texts[k] == rows[src[k]].text && prodIds[k] == rows[src[k]].productId
    {
      assert rows[..i + 1][..i] == rows[..i];
      if rows[i].embedding != [] {
        embs := embs + [rows[i].embedding];
        texts := texts + [rows[i].text];
        prodIds := prodIds + [rows[i].productId];
        src := src + [i];
      }
    }
    assert rows[..|rows|] == rows;
    EmbeddedPositionsFacts(rows);
  }

  /** The table positions of the rows that have an embedding, in order. */
  function EmbeddedPositions(rows: seq<Chunk>): seq<nat> {
    if rows == [] then []
    else EmbeddedPositions(rows[..|rows| - 1]) + (if rows[|rows| - 1].embedding != [] then [|rows| - 1] else [])
  }

  /** The embedded positions are counted by `EmbeddedCount`, ascend, and are exactly the rows with an embedding. */
  lemma {:induction false} EmbeddedPositionsFacts(rows: seq<Chunk>)
    ensures |EmbeddedPositions(rows)| == EmbeddedCount(rows)
    ensures forall k :: 0 <= k < |EmbeddedPositions(rows)| ==>
      EmbeddedPositions(rows)[k] < |rows| && rows[EmbeddedPositions(rows)[k]].embedding != []
    ensures forall k, l :: 0 <= k < l < |EmbeddedPositions(rows)| ==> EmbeddedPositions(rows)[k] < EmbeddedPositions(rows)[l]
    ensures forall m :: 0 <= m < |rows| && rows[m].embedding != [] ==> m in EmbeddedPositions(rows)
  {
    EmbeddedPositionsSound(rows);
    EmbeddedPositionsComplete(rows);
  }

  /** Every embedded position names a row with an embedding, in ascending order, one per such row. */
  lemma {:induction false} EmbeddedPositionsSound(rows: seq<Chunk>)
    ensures |EmbeddedPositions(rows)| == EmbeddedCount(rows)
    ensures forall k :: 0 <= k < |EmbeddedPositions(rows)| ==>
      EmbeddedPositions(rows)[k] < |rows| && rows[EmbeddedPositions(rows)[k]].embedding != []
    ensures forall k, l :: 0 <= k < l < |EmbeddedPositions(rows)| ==> EmbeddedPositions(rows)[k] < EmbeddedPositions(rows)[l]
  {
    if rows != [] {
      var init := rows[..|rows| - 1];
      EmbeddedPositionsSound(init);
      var ps := EmbeddedPositions(init);
      assert forall k :: 0 <= k < |ps| ==> rows[ps[k]] == init[ps[k]];
    }
  }

  /** Every row with an embedding has its position listed. */
  lemma {:induction false} EmbeddedPositionsComplete(rows: seq<Chunk>)
    ensures forall m :: 0 <= m < |rows| && rows[m].embedding != [] ==> m in EmbeddedPositions(rows)
  {
    if rows != [] {
      var init := rows[..|rows| - 1];
      EmbeddedPositionsComplete(init);
      forall m | 0 <= m < |rows| && rows[m].embedding != []
        ensures m in EmbeddedPositions(rows)
      {
        if m < |init| {
          assert init[m] == rows[m];
        }
      }
    }
  }

  /**
   * The first `n` rows of a full ranking of the embedded rows' scores form
   * a top-`topK` selection of the table.
   */
  lemma {:induction false} TopKFromRanking(rows: seq<Chunk>, q: seq<real>, sim: (seq<real>, seq<real>) -> real, topK: int,
                        src: seq<nat>, sims: seq<real>, order: seq<nat>, n: nat,
                        picked: seq<nat>, results: seq<Hit>)
    requires |src| == |sims| == EmbeddedCount(rows)
    requires forall k :: 0 <= k < |src| ==>
      src[k] < |rows| && rows[src[k]].embedding != [] && sims[k] == sim(rows[src[k]].embedding, q)
    requires forall k, l :: 0 <= k < l < |src| ==> src[k] < src[l]
    requires forall m :: 0 <= m < |rows| && rows[m].embedding != [] ==> m in src
    requires |order| == |sims| && (forall x: nat :: x in order <==> x < |sims|) && Ranking.Ranked(sims, order)
    requires n == SliceLen(|order|, topK)
    requires |picked| == |results| == n
    requires forall j :: 0 <= j < n ==> picked[j] == src[order[j]]
    requires forall j :: 0 <= j < n ==>
      results[j] == Hit(rows[picked[j]].productId, sims[order[j]], rows[picked[j]].text)
    ensures IsTopK(rows, q, sim, topK, picked, results)
  {
    PickedDistinct(src, sims, order, n, picked);
    ScoresDescend(sims, order, results);
    forall m, j | 0 <= m < |rows| && rows[m].embedding != [] && m !in picked && 0 <= j < n
      ensures sim(rows[m].embedding, q) <= results[j].score
    {
      var k :| 0 <= k < |src| && src[k] == m;
      UnpickedBeyondCut(src, order, n, picked, k);
      Ranking.CutKeepsBest(sims, order, n, k, j);
    }
  }

  /** The `j`-th hit taken is the (product id, score, text) of the row it was picked from. */
  lemma {:induction false} HitsOfRows(rows: seq<Chunk>, texts: seq<string>, prodIds: seq<int>, src: seq<nat>,
                                      sims: seq<real>, order: seq<nat>, n: nat, picked: seq<nat>, results: seq<Hit>)
    requires |texts| == |prodIds| == |src| == |sims|
    requires forall k :: 0 <= k < |src| ==>
      src[k] < |rows| && texts[k] == rows[src[k]].text && prodIds[k] == rows[src[k]].productId
    requires n <= |order| && Ranking.InRange(sims, order)
    requires |picked| == n && forall j :: 0 <= j < n ==> picked[j] == src[order[j]]
    requires |results| == n
    requires forall t :: 0 <= t < n ==> results[t] == Hit(prodIds[order[t]], sims[order[t]], texts[order[t]])
    ensures forall j :: 0 <= j < n ==>
      picked[j] < |rows| && results[j] == Hit(rows[picked[j]].productId, sims[order[j]], rows[picked[j]].text)
  {
    forall j | 0 <= j < n
      ensures picked[j] < |rows| && results[j] == Hit(rows[picked[j]].productId, sims[order[j]], rows[picked[j]].text)
    {
      assert order[j] < |sims|;
    }
  }

  /** Distinct ranks of ascending source positions pick distinct rows. */
  lemma {:induction false} PickedDistinct(src: seq<nat>, sims: seq<real>, order: seq<nat>, n: nat, picked: seq<nat>)
    requires forall k, l :: 0 <= k < l < |src| ==> src[k] < src[l]
    requires |src| == |sims| && Ranking.Ranked(sims, order)
    requires n <= |order| && |picked| == n
    requires forall j :: 0 <= j < n ==> picked[j] == src[order[j]]
    ensures forall i, j :: 0 <= i < j < n ==> picked[i] != picked[j]
  {
    forall i, j | 0 <= i < j < n ensures picked[i] != picked[j] {
      Ranking.RankedDistinct(sims, order, i, j);
    }
  }

  /** Hits taken in ranking order have non-increasing scores. */
  lemma {:induction false} ScoresDescend(sims: seq<real>, order: seq<nat>, results: seq<Hit>)
    requires Ranking.Ranked(sims, order) && |results| <= |order|
    requires forall j :: 0 <= j < |results| ==> results[j].score == sims[order[j]]
    ensures forall i, j :: 0 <= i < j < |results| ==> results[i].score >= results[j].score
  {
    forall i, j | 0 <= i < j < |results| ensures results[i].score >= results[j].score {
      assert Ranking.Before(sims, order[i], order[j]);
    }
  }

  /** A row whose source position is not picked has its rank at or past the cut. */
  lemma {:induction false} UnpickedBeyondCut(src: seq<nat>, order: seq<nat>, n: nat, picked: seq<nat>, k: nat)
    requires n <= |order| && |picked| == n && k < |src|
    requires forall j :: 0 <= j < |order| ==> order[j] < |src|
    requires forall j :: 0 <= j < n ==> picked[j] == src[order[j]]
    requires src[k] !in picked
    ensures k !in order[..n]
  {
    forall t | 0 <= t < n
      ensures order[t] != k
    {
      assert picked[t] == src[order[t]];
    }
  }
}
