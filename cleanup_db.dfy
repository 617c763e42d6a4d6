/**
 * The cleanup script: list the products whose title matches
 * `LIKE 'Sample Product%'`, delete them, then delete the chunks whose
 * product no longer exists, and report the number of products left.
 */
module CleanupDb {
  import opened Text
  import opened Store
  import Scraper

  const SamplePrefix := "Sample Product"

  /**
   * SQLite's `title LIKE 'Sample Product%'`: the title starts with the
   * prefix, ASCII letters compared without regard to case.
   */
  predicate IsSample(title: string) {
    |title| >= |SamplePrefix| && LowerAscii(title[..|SamplePrefix|]) == LowerAscii(SamplePrefix)
  }

  function IsSampleRow(p: Product): bool {
    IsSample(p.title)
  }

  /** Some product row has the id. */
  predicate HasProduct(ps: seq<Product>, id: int) {
    exists i :: 0 <= i < |ps| && ps[i].id == id
  }

  /** `product_id NOT IN (SELECT id FROM products)` over the given product table. */
  function OrphanOf(ps: seq<Product>): Chunk -> bool {
    (c: Chunk) => !HasProduct(ps, c.productId)
  }

  /** The `(id, title)` pairs of the listed rows. */
  function IdTitles(ps: seq<Product>): seq<(int, string)> {
    seq(|ps|, i requires 0 <= i < |ps| => (ps[i].id, ps[i].title))
  }

  /**
   * The script: the SELECT, the first DELETE and its row count, the
   * second DELETE and its row count, and the final COUNT.
   */
  method Cleanup(db: Database) returns (samples: seq<(int, string)>, deleted: nat, deletedChunks: nat, remaining: nat)
    requires db.Valid()
    modifies db
    ensures db.Valid()
    ensures samples == IdTitles(Matching(old(db.products), IsSampleRow))
    ensures db.products == Keep(old(db.products), IsSampleRow)
    ensures deleted == |samples|
    ensures db.chunks == Keep(old(db.chunks), OrphanOf(db.products))
    ensures deletedChunks == |old(db.chunks)| - |db.chunks|
    ensures remaining == |db.products|
  {
    samples := IdTitles(Matching(db.products, IsSampleRow));
    deleted := db.DeleteProducts(IsSampleRow);
    var ps := db.products;
    deletedChunks := db.DeleteChunks(OrphanOf(ps));
    KeepSplits(old(db.chunks), OrphanOf(ps));
    remaining := |db.products|;
  }

  /**
   * After the product DELETE no sample title is left, and every product
   * whose title does not match is still there, in its order.
   */
  lemma {:induction false} SamplesDeleted(ps: seq<Product>)
    ensures forall p :: p in Keep(ps, IsSampleRow) ==> !IsSample(p.title)
    ensures forall i :: 0 <= i < |ps| && !IsSample(ps[i].title) ==> ps[i] in Keep(ps, IsSampleRow)
    ensures (forall i :: 0 <= i < |ps| ==> !IsSample(ps[i].title)) ==> Keep(ps, IsSampleRow) == ps
  {
    var k := Keep(ps, IsSampleRow);
    KeepMembers(ps, IsSampleRow);
    forall p | p in k ensures !IsSample(p.title) {
      assert !IsSampleRow(p);
    }
    forall i | 0 <= i < |ps| && !IsSample(ps[i].title) ensures ps[i] in k {
      assert !IsSampleRow(ps[i]);
    }
    if forall i :: 0 <= i < |ps| ==> !IsSample(ps[i].title) {
      KeepAll(ps, IsSampleRow);
    }
  }

  /**
   * After the chunk DELETE every chunk refers to a stored product, every
   * chunk of a stored product is still there, and when no chunk was
   * orphaned the chunk table is unchanged.
   */
  lemma {:induction false} OrphansDeleted(ps: seq<Product>, cs: seq<Chunk>)
    ensures forall c :: c in Keep(cs, OrphanOf(ps)) ==> HasProduct(ps, c.productId)
    ensures forall i :: 0 <= i < |cs| && HasProduct(ps, cs[i].productId) ==> cs[i] in Keep(cs, OrphanOf(ps))
    ensures (forall i :: 0 <= i < |cs| ==> HasProduct(ps, cs[i].productId)) ==> Keep(cs, OrphanOf(ps)) == cs
  {
    KeepMembers(cs, OrphanOf(ps));
    if forall i :: 0 <= i < |cs| ==> HasProduct(ps, cs[i].productId) {
      KeepAll(cs, OrphanOf(ps));
    }
  }

  /** The mock products' titles all match the pattern, so cleanup removes them. */
  lemma {:induction false} MockItemsAreSamples(site: string, i: nat)
    ensures IsSample(Scraper.MockItem(site, i).title)
  {
    var t := Scraper.MockItem(site, i).title;
    assert t == SamplePrefix + (" " + NatToString(i) + " (" + site + ")");
    assert t[..|SamplePrefix|] == SamplePrefix;
  }

  /** The pattern ignores ASCII case: titles that agree up to case agree on matching. */
  lemma {:induction false} SampleIgnoresCase(t: string, u: string)
    requires |t| == |u|
    requires forall i :: 0 <= i < |t| ==> AsciiLower(t[i]) == AsciiLower(u[i])
    ensures IsSample(t) <==> IsSample(u)
  {
    if |t| >= |SamplePrefix| {
      var n := |SamplePrefix|;
      assert LowerAscii(t[..n]) == LowerAscii(u[..n]);
    }
  }
}
