/**
 * The two relational tables (`products`, `product_chunks`) as sequences of
 * records in row order, and the product-table operations the scripts and
 * the API use: insert with an auto-assigned id under the UNIQUE constraint
 * on `source_url`, and lookup by id returning the first match.
 */
module Store {
  import opened Wrappers

  /** One value of the `features` JSON column as the scraper builds it: a string, or a list of loose lines. */
  datatype FeatureValue = Text(text: string) | Items(items: seq<string>)

  /** An insertion-ordered dictionary, as a Python `dict` is: keys in first-insertion order. */
  type Features = seq<(string, FeatureValue)>

  /** A product to be created (the create schema): everything but the id. */
  datatype ProductIn = ProductIn(
    title: string,
    price: Option<string>,
    description: Option<string>,
    features: Option<Features>,
    imageUrl: Option<string>,
    category: Option<string>,
    sourceUrl: Option<string>)

  /** A row of the `products` table. */
  datatype Product = Product(
    id: int,
    title: string,
    price: Option<string>,
    description: Option<string>,
    features: Option<Features>,
    imageUrl: Option<string>,
    category: Option<string>,
    sourceUrl: Option<string>)

  function RowFor(id: int, p: ProductIn): Product {
    Product(id, p.title, p.price, p.description, p.features, p.imageUrl, p.category, p.sourceUrl)
  }

  /** The `source_url` entry of a chunk's meta: absent, or present (possibly null). */
  datatype MetaUrl = NoUrlKey | UrlKey(url: Option<string>)

  /** The denormalised `meta` JSON of a chunk. */
  datatype Meta = Meta(productId: int, title: string, sourceUrl: MetaUrl)

  /** A row of the `product_chunks` table; an empty embedding stands for both `[]` and NULL. */
  datatype Chunk = Chunk(productId: int, text: string, embedding: seq<real>, meta: Meta)

  predicate UniqueIds(ps: seq<Product>) {
    forall i, j :: 0 <= i < j < |ps| ==> ps[i].id != ps[j].id
  }

  /** The UNIQUE constraint on `source_url`: NULLs never collide. */
  predicate UniqueUrls(ps: seq<Product>) {
    forall i, j :: 0 <= i < j < |ps| && ps[i].sourceUrl.Some? ==> ps[i].sourceUrl != ps[j].sourceUrl
  }

  predicate UrlTaken(ps: seq<Product>, url: Option<string>) {
    url.Some? && exists i :: 0 <= i < |ps| && ps[i].sourceUrl == url
  }

  /** The id SQLite gives a new row: one more than the largest id present, or 1 in an empty table. */
  function NextId(ps: seq<Product>): (r: int)
    ensures forall i :: 0 <= i < |ps| ==> ps[i].id < r
    ensures ps == [] ==> r == 1
  {
    if ps == [] then 1
    else
      var m := NextId(ps[..|ps| - 1]);
      var last := ps[|ps| - 1];
      assert forall i :: 0 <= i < |ps| - 1 ==> ps[i] == ps[..|ps| - 1][i];
      if last.id + 1 > m then last.id + 1 else m
  }

  /** `crud.get_product`: the first row whose id matches, or nothing. */
  function GetProduct(ps: seq<Product>, id: int): (r: Option<Product>)
    ensures r.None? <==> forall i :: 0 <= i < |ps| ==> ps[i].id != id
    ensures r.Some? ==> r.value.id == id && r.value in ps
  {
    if ps == [] then None
    else if ps[0].id == id then Some(ps[0])
    else
      var r := GetProduct(ps[1..], id);
      assert forall i :: 1 <= i < |ps| ==> ps[i] == ps[1..][i - 1];
      r
  }

  /** With ids unique, looking up a row's id finds that very row. */
  lemma {:induction false} GetProductFindsRow(ps: seq<Product>, i: int)
    requires UniqueIds(ps) && 0 <= i < |ps|
    ensures GetProduct(ps, ps[i].id) == Some(ps[i])
  {
    if i > 0 {
      assert ps[0].id != ps[i].id;
      assert ps[1..][i - 1] == ps[i];
      GetProductFindsRow(ps[1..], i - 1);
    }
  }

  /** The rows a `DELETE ... WHERE doomed` leaves, in their order. */
  function Keep<T(!new)>(rows: seq<T>, doomed: T -> bool): (r: seq<T>)
    ensures |r| <= |rows|
  {
    if rows == [] then []
    else Keep(rows[..|rows| - 1], doomed) + (if doomed(rows[|rows| - 1]) then [] else [rows[|rows| - 1]])
  }

  /** A row survives the DELETE exactly when it was in the table and the WHERE clause does not match it. */
  lemma {:induction false} KeepMembers<T(!new)>(rows: seq<T>, doomed: T -> bool)
    ensures forall x :: x in Keep(rows, doomed) <==> x in rows && !doomed(x)
  {
    if rows != [] {
      var init, last := rows[..|rows| - 1], rows[|rows| - 1];
      KeepMembers(init, doomed);
      assert rows == init + [last];
    }
  }

  /** The rows that match a WHERE clause, in their order (a SELECT). */
  function Matching<T(!new)>(rows: seq<T>, doomed: T -> bool): seq<T> {
    Keep(rows, x => !doomed(x))
  }

  /** Every row is either kept or matched, so the deleted count is the matched count. */
  lemma {:induction false} KeepSplits<T(!new)>(rows: seq<T>, doomed: T -> bool)
    ensures |Keep(rows, doomed)| + |Matching(rows, doomed)| == |rows|
  {
    if rows != [] {
      KeepSplits(rows[..|rows| - 1], doomed);
    }
  }

  /** A DELETE that matches no row leaves the table exactly as it was, order included. */
  lemma {:induction false} KeepAll<T(!new)>(rows: seq<T>, doomed: T -> bool)
    requires forall i :: 0 <= i < |rows| ==> !doomed(rows[i])
    ensures Keep(rows, doomed) == rows
  {
    if rows != [] {
      var init, last := rows[..|rows| - 1], rows[|rows| - 1];
      forall i | 0 <= i < |init| ensures !doomed(init[i]) {
        assert init[i] == rows[i];
      }
      KeepAll(init, doomed);
      assert !doomed(last);
      assert Keep(rows, doomed) == Keep(init, doomed) + [last];
      assert init + [last] == rows;
    }
  }

  /** A subsequence of rows with distinct ids and source URLs keeps both properties. */
  lemma {:induction false} KeepValid(rows: seq<Product>, doomed: Product -> bool)
    requires UniqueIds(rows) && UniqueUrls(rows)
    ensures UniqueIds(Keep(rows, doomed)) && UniqueUrls(Keep(rows, doomed))
  {
    if rows != [] {
      var init := rows[..|rows| - 1];
      var last := rows[|rows| - 1];
      assert forall i :: 0 <= i < |init| ==> init[i] == rows[i];
      KeepValid(init, doomed);
      KeepMembers(init, doomed);
      var k := Keep(init, doomed);
      forall i | 0 <= i < |k|
        ensures k[i].id != last.id && (k[i].sourceUrl.Some? ==> k[i].sourceUrl != last.sourceUrl)
      {
        assert k[i] in init;
      }
    }
  }

  /**
   * The insert loop of the scrape endpoint and of the seeding script, over
   * one session: each item is inserted in turn; the first refused insert
   * leaves the session needing a rollback that never comes, so every
   * later insert fails too and the table ends as it was after the last
   * success.
   */
  function AfterInserts(ps: seq<Product>, items: seq<ProductIn>): seq<Product>
    decreases |items|
  {
    if items == [] || UrlTaken(ps, items[0].sourceUrl) then ps
    else AfterInserts(ps + [RowFor(NextId(ps), items[0])], items[1..])
  }

  /** How many of `items` the insert loop stores: the longest run of them, from the first, that is accepted. */
  function InsertedCount(ps: seq<Product>, items: seq<ProductIn>): (r: nat)
    ensures r <= |items|
    decreases |items|
  {
    if items == [] || UrlTaken(ps, items[0].sourceUrl) then 0
    else 1 + InsertedCount(ps + [RowFor(NextId(ps), items[0])], items[1..])
  }

  /**
   * The table after the loop is the old table followed by the first
   * `InsertedCount` items, in order, each under a fresh id larger than
   * every id before it; the loop stops short only at an item whose source
   * URL is already stored.
   */
  lemma {:induction false} InsertsAppend(ps: seq<Product>, items: seq<ProductIn>)
    ensures var after := AfterInserts(ps, items);
            var n := InsertedCount(ps, items);
            && |after| == |ps| + n
            && after[..|ps|] == ps
            && (forall j :: |ps| <= j < |after| ==> after[j] == RowFor(after[j].id, items[j - |ps|]))
            && (forall i, j :: 0 <= i < j < |after| && |ps| <= j ==> after[i].id < after[j].id)
            && (n < |items| ==> UrlTaken(after, items[n].sourceUrl))
  {
    InsertsShape(ps, items);
    InsertsAscend(ps, items);
  }

  /** The stored rows: the old table, then one row per accepted item, in order. */
  lemma {:induction false} InsertsShape(ps: seq<Product>, items: seq<ProductIn>)
    ensures var after := AfterInserts(ps, items);
            var n := InsertedCount(ps, items);
            && |after| == |ps| + n
            && after[..|ps|] == ps
            && (forall j :: |ps| <= j < |after| ==> after[j] == RowFor(after[j].id, items[j - |ps|]))
            && (n < |items| ==> UrlTaken(after, items[n].sourceUrl))
    decreases |items|
  {
    if items != [] && !UrlTaken(ps, items[0].sourceUrl) {
      var row := RowFor(NextId(ps), items[0]);
      var ps' := ps + [row];
      InsertsShape(ps', items[1..]);
      var after := AfterInserts(ps', items[1..]);
      assert AfterInserts(ps, items) == after;
      var n' := InsertedCount(ps', items[1..]);
      assert InsertedCount(ps, items) == 1 + n';
      if n' < |items[1..]| {
        assert items[1..][n'] == items[1 + n'];
      }
      assert after[..|ps|] == ps'[..|ps|] == ps;
      forall j | |ps'| <= j < |after|
        ensures after[j] == RowFor(after[j].id, items[j - |ps|])
      {
        assert items[1..][j - |ps'|] == items[j - |ps|];
      }
    }
  }

  /** Each stored row gets an id larger than every row before it. */
  lemma {:induction false} InsertsAscend(ps: seq<Product>, items: seq<ProductIn>)
    ensures var after := AfterInserts(ps, items);
            forall i, j :: 0 <= i < j < |after| && |ps| <= j ==> after[i].id < after[j].id
    decreases |items|
  {
    if items != [] && !UrlTaken(ps, items[0].sourceUrl) {
      var row := RowFor(NextId(ps), items[0]);
      var ps' := ps + [row];
      InsertsAscend(ps', items[1..]);
      InsertsShape(ps', items[1..]);
      var after := AfterInserts(ps', items[1..]);
      assert AfterInserts(ps, items) == after;
      assert after[..|ps'|] == ps';
      forall i, j | 0 <= i < j < |after| && |ps| <= j
        ensures after[i].id < after[j].id
      {
        if j == |ps| {
          assert after[i] == ps[i] && after[j] == row;
        }
      }
    }
  }

  /** Items with pairwise distinct, non-null source URLs. */
  predicate DistinctUrls(items: seq<ProductIn>) {
    && (forall i :: 0 <= i < |items| ==> items[i].sourceUrl.Some?)
    && (forall i, j :: 0 <= i < j < |items| ==> items[i].sourceUrl != items[j].sourceUrl)
  }

  /** Into an empty table, items with distinct source URLs are all stored. */
  lemma {:induction false} DistinctUrlsAllInserted(ps: seq<Product>, items: seq<ProductIn>)
    requires DistinctUrls(items)
    requires forall i :: 0 <= i < |ps| ==> forall k :: 0 <= k < |items| ==> ps[i].sourceUrl != items[k].sourceUrl
    ensures InsertedCount(ps, items) == |items|
    decreases |items|
  {
    if items != [] {
      var ps' := ps + [RowFor(NextId(ps), items[0])];
      forall i | 0 <= i < |ps'|
        ensures forall k :: 0 <= k < |items[1..]| ==> ps'[i].sourceUrl != items[1..][k].sourceUrl
      {
        if i < |ps| {
          assert forall k :: 0 <= k < |items[1..]| ==> items[1..][k] == items[k + 1];
        }
      }
      DistinctUrlsAllInserted(ps', items[1..]);
    }
  }

  /** The database: the two tables, changed in place by the scripts and the API. */
  class Database {
    var products: seq<Product>
    var chunks: seq<Chunk>

    /** Primary keys are distinct and the UNIQUE constraint on `source_url` holds. */
    ghost predicate Valid()
      reads this
    {
      UniqueIds(products) && UniqueUrls(products)
    }

    constructor ()
      ensures Valid() && products == [] && chunks == []
    {
      products := [];
      chunks := [];
    }

    /**
     * `crud.create_product`: INSERT and COMMIT. The insert is refused (the
     * call raises) exactly when the source URL is already stored.
     */
    method CreateProduct(p: ProductIn) returns (ok: bool)
      requires Valid()
      modifies this
      ensures Valid()
      ensures ok <==> !UrlTaken(old(products), p.sourceUrl)
      ensures products == if ok then old(products) + [RowFor(NextId(old(products)), p)] else old(products)
      ensures chunks == old(chunks)
    {
      ok := !(p.sourceUrl.Some? && exists i :: 0 <= i < |products| && products[i].sourceUrl == p.sourceUrl);
      if ok {
        products := products + [RowFor(NextId(products), p)];
      }
    }

    /** `DELETE FROM products WHERE doomed` and its row count; the chunk table is left alone. */
    method DeleteProducts(doomed: Product -> bool) returns (deleted: nat)
      requires Valid()
      modifies this
      ensures Valid()
      ensures products == Keep(old(products), doomed)
      ensures deleted == |Matching(old(products), doomed)|
      ensures chunks == old(chunks)
    {
      KeepValid(products, doomed);
      KeepSplits(products, doomed);
      deleted := |products| - |Keep(products, doomed)|;
      products := Keep(products, doomed);
    }

    /** `DELETE FROM product_chunks WHERE doomed` and its row count; the product table is left alone. */
    method DeleteChunks(doomed: Chunk -> bool) returns (deleted: nat)
      modifies this
      ensures chunks == Keep(old(chunks), doomed)
      ensures deleted == |Matching(old(chunks), doomed)|
      ensures products == old(products)
    {
      KeepSplits(chunks, doomed);
      deleted := |chunks| - |Keep(chunks, doomed)|;
      chunks := Keep(chunks, doomed);
    }

    /** `db.add` of one chunk row followed by the commit. */
    method AddChunk(c: Chunk)
      modifies this
      ensures products == old(products)
      ensures chunks == old(chunks) + [c]
    {
      chunks := chunks + [c];
    }
  }

  /**
   * The insert loop shared by the scrape endpoint and the seeding script:
   * try to create every item in turn over one session, counting the
   * successes. `failed` records that a refused insert has left the session
   * unusable, after which every later attempt fails as well.
   */
  method InsertEach(db: Database, items: seq<ProductIn>) returns (inserted: nat, failed: bool)
    requires db.Valid()
    modifies db
    ensures db.Valid()
    ensures db.products == AfterInserts(old(db.products), items)
    ensures inserted == InsertedCount(old(db.products), items)
    ensures failed <==> inserted < |items|
    ensures db.chunks == old(db.chunks)
  {
    inserted, failed := 0, false;
    for i := 0 to |items|
      invariant db.Valid() && db.chunks == old(db.chunks)
      invariant !failed ==> inserted == i
      invariant !failed ==> AfterInserts(db.products, items[i..]) == AfterInserts(old(db.products), items)
      invariant !failed ==> inserted + InsertedCount(db.products, items[i..]) == InsertedCount(old(db.products), items)
      invariant failed ==> db.products == AfterInserts(old(db.products), items)
      invariant failed ==> inserted == InsertedCount(old(db.products), items) < i
    {
      if !failed {
        var ok := db.CreateProduct(items[i]);
        assert items[i..][1..] == items[i + 1..];
        if ok {
          inserted := inserted + 1;
        } else {
          failed := true;
        }
      }
    }
  }
}
