/**
 * The records of the catalogue as the clients hold them, and the
 * denormalised `productCount` bookkeeping: a category's count should equal
 * the number of products whose `categoryId` is that category's id.
 */
module Catalog {
  import opened Wrappers

  datatype Category = Category(id: int, name: string, productCount: int)

  /**
   * A product as a client holds it. `userId` is absent for products created
   * by the local-storage variants, which do not record an owner.
   */
  datatype Product = Product(
    id: int,
    name: string,
    price: int,
    colors: seq<string>,
    tags: seq<string>,
    categoryId: int,
    categoryName: string,
    userId: Option<int>)

  /** Number of products that reference category `cid`. */
  function CountIn(products: seq<Product>, cid: int): (n: nat)
    ensures n <= |products|
  {
    if products == [] then 0
    else (if products[0].categoryId == cid then 1 else 0) + CountIn(products[1..], cid)
  }

  /** Every category's `productCount` equals the number of products that reference it. */
  ghost predicate CountsConsistent(categories: seq<Category>, products: seq<Product>) {
    forall c | c in categories :: c.productCount == CountIn(products, c.id)
  }

  lemma {:induction false} CountAppend(products: seq<Product>, p: Product, cid: int)
    ensures CountIn(products + [p], cid) == CountIn(products, cid) + (if p.categoryId == cid then 1 else 0)
  {
    if products != [] {
      assert (products + [p])[1..] == products[1..] + [p];
      CountAppend(products[1..], p, cid);
    } else {
      assert (products + [p])[1..] == [];
    }
  }

  /** A category that some product references has a positive count. */
  lemma {:induction false} CountPositive(products: seq<Product>, i: int)
    requires 0 <= i < |products|
    ensures CountIn(products, products[i].categoryId) >= 1
  {
    if i > 0 {
      CountPositive(products[1..], i - 1);
    }
  }

  /** A category that no product references has count zero. */
  lemma {:induction false} CountUnreferenced(products: seq<Product>, cid: int)
    requires forall p | p in products :: p.categoryId != cid
    ensures CountIn(products, cid) == 0
  {
    if products != [] {
      assert products[0] in products;
      assert forall p | p in products[1..] :: p in products;
      CountUnreferenced(products[1..], cid);
    }
  }

  /** `products.filter(p => p.categoryId !== cid)`. */
  function ProductsOutside(products: seq<Product>, cid: int): (r: seq<Product>)
    ensures forall p :: p in r <==> p in products && p.categoryId != cid
    ensures |r| == |products| - CountIn(products, cid)
  {
    if products == [] then []
    else
      var rest := ProductsOutside(products[1..], cid);
      assert forall p :: p in products <==> p == products[0] || p in products[1..];
      if products[0].categoryId == cid then rest else [products[0]] + rest
  }

  /** The cascade keeps the count of every other category. */
  lemma {:induction false} CountOutside(products: seq<Product>, cid: int, other: int)
    requires other != cid
    ensures CountIn(ProductsOutside(products, cid), other) == CountIn(products, other)
  {
    if products != [] {
      CountOutside(products[1..], cid, other);
      if products[0].categoryId != cid {
        assert ([products[0]] + ProductsOutside(products[1..], cid))[1..] == ProductsOutside(products[1..], cid);
      }
    }
  }

  /** `categories.filter(c => c.id !== id)`. */
  function CategoriesOutside(categories: seq<Category>, id: int): (r: seq<Category>)
    ensures forall c :: c in r <==> c in categories && c.id != id
    ensures |r| <= |categories|
  {
    if categories == [] then []
    else
      var rest := CategoriesOutside(categories[1..], id);
      assert forall c :: c in categories <==> c == categories[0] || c in categories[1..];
      if categories[0].id == id then rest else [categories[0]] + rest
  }

  /** `products.filter(p => p.id !== id)`. */
  function ProductsWithoutId(products: seq<Product>, id: int): (r: seq<Product>)
    ensures forall p :: p in r <==> p in products && p.id != id
    ensures |r| <= |products|
  {
    if products == [] then []
    else
      var rest := ProductsWithoutId(products[1..], id);
      assert forall p :: p in products <==> p == products[0] || p in products[1..];
      if products[0].id == id then rest else [products[0]] + rest
  }

  /** No two categories share an id. */
  ghost predicate DistinctIds(categories: seq<Category>) {
    forall i, j | 0 <= i < j < |categories| :: categories[i].id != categories[j].id
  }
}
