/**
 * The product-list handlers of the root screen: add, replace by id, delete by
 * id, the name search, and the variant total shown in the settings panel.
 */
module App {
  import opened Seqs
  import opened Text
  import opened Inventory

  /**
   * Adding a product: a blank name changes nothing; otherwise a product with
   * the name as typed (not trimmed), no category and no variants goes first.
   */
  function AddProduct(products: seq<Product>, name: string, id: string, now: string): (r: seq<Product>)
    ensures AllWhitespace(name) ==> r == products
    ensures !AllWhitespace(name) ==>
      && |r| == |products| + 1
      && r[0] == Product(id, name, None, [], now)
      && r[1..] == products
  {
    TrimEmptyIffBlank(name);
    if Trim(name) == [] then products
    else [Product(id, name, None, [], now)] + products
  }

  /** Replaces every product whose id matches `updated`'s; length and order are kept. */
  function UpdateProduct(products: seq<Product>, updated: Product): (r: seq<Product>)
    ensures |r| == |products|
    ensures forall i :: 0 <= i < |products| ==>
      r[i] == if products[i].id == updated.id then updated else products[i]
  {
    Map(products, (p: Product) => if p.id == updated.id then updated else p)
  }

  function ProductIsNot(id: string): Product -> bool
  {
    (p: Product) => p.id != id
  }

  /** Deleting keeps exactly the products with another id, in order. */
  function DeleteProduct(products: seq<Product>, id: string): (r: seq<Product>)
    ensures forall p :: p in r <==> p in products && p.id != id
    ensures |r| == CountWhere(products, ProductIsNot(id))
    ensures IsSubseq(r, products)
  {
    FilterMembers(products, ProductIsNot(id));
    FilterIsSubseq(products, ProductIsNot(id));
    Filter(products, ProductIsNot(id))
  }

  /** The search callback: the lower-cased name contains the lower-cased query. */
  function NameMatches(query: string): Product -> bool
  {
    (p: Product) => Includes(Lower(p.name), Lower(query))
  }

  /** The products shown for a search query, in list order. */
  function FilteredProducts(products: seq<Product>, query: string): (r: seq<Product>)
    ensures forall p :: p in r <==> p in products && Includes(Lower(p.name), Lower(query))
    ensures |r| == CountWhere(products, NameMatches(query))
    ensures IsSubseq(r, products)
  {
    FilterMembers(products, NameMatches(query));
    FilterIsSubseq(products, NameMatches(query));
    Filter(products, NameMatches(query))
  }

  /** An empty search shows the whole list. */
  lemma EmptySearchShowsAll(products: seq<Product>)
    ensures FilteredProducts(products, "") == products
  {
    forall p | p in products ensures NameMatches("")(p) {
      IncludesEmpty(Lower(p.name));
    }
    FilterKeepsAll(products, NameMatches(""));
  }

  /** `products.reduce((acc, p) => acc + p.variants.length, 0)`, a left fold. */
  function VariantTotal(products: seq<Product>): (total: nat)
    ensures forall i :: 0 <= i < |products| ==> |products[i].variants| <= total
  {
    if products == [] then 0
    else VariantTotal(products[..|products| - 1]) + |products[|products| - 1].variants|
  }

  /** The total is additive over concatenated lists. */
  lemma {:induction false} VariantTotalAppend(a: seq<Product>, b: seq<Product>)
    ensures VariantTotal(a + b) == VariantTotal(a) + VariantTotal(b)
  {
    if b == [] {
      assert a + b == a;
    } else {
      var ab := a + b;
      assert ab[..|ab| - 1] == a + b[..|b| - 1];
      assert ab[|ab| - 1] == b[|b| - 1];
      VariantTotalAppend(a, b[..|b| - 1]);
    }
  }

  /** The total counts every variant of every product, front to back. */
  lemma VariantTotalCons(p: Product, rest: seq<Product>)
    ensures VariantTotal([p] + rest) == |p.variants| + VariantTotal(rest)
  {
    VariantTotalAppend([p], rest);
    assert [p][..0] == [];
  }

  /** A new product has no variants, so adding one leaves the total alone. */
  lemma AddProductKeepsVariantTotal(products: seq<Product>, name: string, id: string, now: string)
    ensures VariantTotal(AddProduct(products, name, id, now)) == VariantTotal(products)
  {
    if !AllWhitespace(name) {
      VariantTotalCons(Product(id, name, None, [], now), products);
    }
  }

  /** Replacing a product by itself is the identity, and replacing twice is replacing once. */
  lemma UpdateProductIdempotent(products: seq<Product>, updated: Product)
    ensures UpdateProduct(UpdateProduct(products, updated), updated) == UpdateProduct(products, updated)
    ensures updated in products && (forall p :: p in products && p.id == updated.id ==> p == updated)
            ==> UpdateProduct(products, updated) == products
  {
  }

  /** Deleting a product that was just added with a fresh id gives back the old list. */
  lemma AddThenDelete(products: seq<Product>, name: string, id: string, now: string)
    requires forall p :: p in products ==> p.id != id
    ensures DeleteProduct(AddProduct(products, name, id, now), id) == products
  {
    var added := AddProduct(products, name, id, now);
    if !AllWhitespace(name) {
      FilterAppend([added[0]], products, ProductIsNot(id));
      assert added == [added[0]] + products;
    }
    FilterKeepsAll(products, ProductIsNot(id));
  }

  /** Deleting never raises the variant total. */
  lemma {:induction false} DeleteProductVariantTotal(products: seq<Product>, id: string)
    ensures VariantTotal(DeleteProduct(products, id)) <= VariantTotal(products)
  {
    if products != [] {
      DeleteProductVariantTotal(products[1..], id);
      assert products == [products[0]] + products[1..];
      VariantTotalCons(products[0], products[1..]);
      if products[0].id != id {
        VariantTotalCons(products[0], DeleteProduct(products[1..], id));
      }
    }
  }
}
