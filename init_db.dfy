/**
 * The seeding script: when the product table is empty it scrapes the
 * Traya site, inserts the products, and gives every stored product one
 * search chunk made from its title, category and description, cut to 700
 * characters and stored without an embedding. A table that already holds
 * products is left as it is.
 */
module InitDb {
  import opened Wrappers
  import opened Text
  import opened Store
  import Retrieval
  import Scraper
  import TrayaScraper

  /** The width the seed text is cut to. */
  const SeedChunkChars := 700

  /** The f-string `"{title} {category or ''} {description or ''}"`. */
  function SeedText(p: Product): string {
    p.title + " " + p.category.GetOr("") + " " + p.description.GetOr("")
  }

  /** The chunk row seeded for a product: no embedding, and meta without a `source_url` key. */
  function SeedChunk(p: Product): Chunk {
    Chunk(p.id, Take(SeedText(p), SeedChunkChars), [], Meta(p.id, p.title, NoUrlKey))
  }

  function SeedChunks(ps: seq<Product>): seq<Chunk> {
    seq(|ps|, i requires 0 <= i < |ps| => SeedChunk(ps[i]))
  }

  /**
   * `init_db`. `seeded` says whether the table was empty; `inserted` is
   * the printed insert count. With an empty table every scraped product is
   * stored (their source URLs are distinct), and one chunk per stored
   * product is appended; otherwise neither table changes.
   */
  method SeedDatabase(db: Database, web: TrayaScraper.Web) returns (seeded: bool, inserted: nat)
    requires db.Valid()
    modifies db
    ensures db.Valid()
    ensures seeded <==> old(db.products) == []
    ensures !seeded ==> db.products == old(db.products) && db.chunks == old(db.chunks) && inserted == 0
    ensures seeded ==> db.products == AfterInserts([], Scraper.SiteItems("traya", web))
    ensures seeded ==> inserted == |db.products| == |Scraper.SiteItems("traya", web)|
    ensures seeded ==> db.chunks == old(db.chunks) + SeedChunks(db.products)
  {
    seeded := |db.products| == 0;
    inserted := 0;
    if seeded {
      var products := Scraper.ScrapeSite("traya", web);
      DistinctUrlsAllInserted(db.products, products);
      InsertsAppend(db.products, products);
      var failed;
      inserted, failed := InsertEach(db, products);
      if !failed {
        AddSeedChunks(db);
      }
    }
  }

  /** The chunk loop: one seeded chunk per product, in table order. */
  method AddSeedChunks(db: Database)
    modifies db
    ensures db.products == old(db.products)
    ensures db.chunks == old(db.chunks) + SeedChunks(db.products)
  {
    var products := db.products;
    for i := 0 to |products|
      invariant db.products == products
      invariant db.chunks == old(db.chunks) + SeedChunks(products[..i])
    {
      var p := products[i];
      var text := SeedText(p);
      db.AddChunk(Chunk(p.id, Take(text, SeedChunkChars), [], Meta(p.id, p.title, NoUrlKey)));
      assert SeedChunks(products[..i + 1]) == SeedChunks(products[..i]) + [SeedChunk(p)];
    }
    assert products[..|products|] == products;
  }

  /**
   * Each seeded chunk belongs to its product: same id, the title in the
   * meta, no embedding, and a text that is the seed text when it fits in
   * 700 characters and its first 700 characters otherwise.
   */
  lemma {:induction false} SeedChunksFacts(ps: seq<Product>, i: int)
    requires 0 <= i < |ps|
    ensures |SeedChunks(ps)| == |ps|
    ensures var c := SeedChunks(ps)[i];
      && c.productId == ps[i].id
      && c.meta == Meta(ps[i].id, ps[i].title, NoUrlKey)
      && c.embedding == []
      && |c.text| == (if |SeedText(ps[i])| < SeedChunkChars then |SeedText(ps[i])| else SeedChunkChars)
      && StartsWith(SeedText(ps[i]), c.text)
      && StartsWith(c.text, Take(ps[i].title, SeedChunkChars))
  {
    var t, c := SeedText(ps[i]), SeedChunks(ps)[i];
    assert t[..|ps[i].title|] == ps[i].title;
    var k := |Take(ps[i].title, SeedChunkChars)|;
    assert c.text[..k] == t[..k];
  }

  /**
   * A non-empty chunk table holding only seeded chunks has nothing to
   * search: the search raises instead of returning an empty list.
   */
  lemma {:induction false} SeededTableUnsearchable(ps: seq<Product>, q: seq<real>)
    requires ps != []
    ensures Retrieval.SearchFailure(SeedChunks(ps), q) == Some(Retrieval.NoEmbeddedRows)
  {
    Retrieval.EmbeddedCountZero(SeedChunks(ps));
  }
}
