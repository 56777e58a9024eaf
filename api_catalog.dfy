/**
 * The catalogue endpoints of the FastAPI backend (backend/main.py):
 * categories with a denormalised `productCount`, and products owned by the
 * user who created them. The `categories` table is a map from id to row and
 * the `products` table a sequence of rows in insertion order; the caller of
 * the product endpoints is the user `get_current_user` resolved.
 */
module ApiCatalog {
  import opened Wrappers
  import opened Catalog
  import ApiAuth

  /** A row of the `products` table. */
  datatype ProductRow = ProductRow(
    id: int,
    name: string,
    price: int,
    colors: seq<string>,
    tags: seq<string>,
    categoryId: int,
    userId: int)

  /** The body of `POST /products` and `PUT /products/{id}`. */
  datatype ProductBase = ProductBase(name: string, price: int, colors: seq<string>, tags: seq<string>, categoryId: int)

  /** The response of the product endpoints, without `ownerEmail`. */
  datatype ProductOut = ProductOut(row: ProductRow, categoryName: string)

  const AdminRole: string := "Admin"

  /** Number of product rows that reference category `cid`. */
  function RowCount(products: seq<ProductRow>, cid: int): (n: nat)
    ensures n <= |products|
  {
    if products == [] then 0
    else (if products[0].categoryId == cid then 1 else 0) + RowCount(products[1..], cid)
  }

  /** The count of a concatenation is the sum of the counts. */
  lemma {:induction false} RowCountConcat(a: seq<ProductRow>, b: seq<ProductRow>, cid: int)
    ensures RowCount(a + b, cid) == RowCount(a, cid) + RowCount(b, cid)
  {
    if a == [] {
      assert a + b == b;
    } else {
      assert (a + b)[1..] == a[1..] + b;
      RowCountConcat(a[1..], b, cid);
    }
  }

  /** The count around position `i`: what precedes it, the row itself and what follows. */
  lemma RowCountSplit(products: seq<ProductRow>, i: int, cid: int)
    requires 0 <= i < |products|
    ensures RowCount(products, cid) == RowCount(products[..i], cid) + (if products[i].categoryId == cid then 1 else 0)
                                       + RowCount(products[i + 1..], cid)
  {
    assert products == products[..i] + ([products[i]] + products[i + 1..]);
    RowCountConcat(products[..i], [products[i]] + products[i + 1..], cid);
    RowCountConcat([products[i]], products[i + 1..], cid);
  }

  /** Replacing the row at `i` moves one unit of count from its old category to its new one. */
  lemma RowCountUpdate(products: seq<ProductRow>, i: int, row: ProductRow, cid: int)
    requires 0 <= i < |products|
    ensures RowCount(products[i := row], cid) == RowCount(products, cid)
              - (if products[i].categoryId == cid then 1 else 0) + (if row.categoryId == cid then 1 else 0)
  {
    var updated := products[i := row];
    assert updated[..i] == products[..i] && updated[i + 1..] == products[i + 1..];
    RowCountSplit(products, i, cid);
    RowCountSplit(updated, i, cid);
  }

  /** Removing the row at `i` takes one unit of count from its category. */
  lemma RowCountRemove(products: seq<ProductRow>, i: int, cid: int)
    requires 0 <= i < |products|
    ensures RowCount(products[..i] + products[i + 1..], cid)
              == RowCount(products, cid) - (if products[i].categoryId == cid then 1 else 0)
  {
    RowCountSplit(products, i, cid);
    RowCountConcat(products[..i], products[i + 1..], cid);
  }

  lemma RowCountAppend(products: seq<ProductRow>, row: ProductRow, cid: int)
    ensures RowCount(products + [row], cid) == RowCount(products, cid) + (if row.categoryId == cid then 1 else 0)
  {
    RowCountConcat(products, [row], cid);
  }

  /** A category some row references has a positive count. */
  lemma RowCountPositive(products: seq<ProductRow>, i: int)
    requires 0 <= i < |products|
    ensures RowCount(products, products[i].categoryId) >= 1
  {
    RowCountSplit(products, i, products[i].categoryId);
  }

  /** A category no row references has count zero. */
  lemma {:induction false} RowCountUnreferenced(products: seq<ProductRow>, cid: int)
    requires forall i | 0 <= i < |products| :: products[i].categoryId != cid
    ensures RowCount(products, cid) == 0
  {
    if products != [] {
      RowCountUnreferenced(products[1..], cid);
    }
  }

  /** The rows that survive the cascade when category `cid` is deleted. */
  function RowsOutside(products: seq<ProductRow>, cid: int): (r: seq<ProductRow>)
    ensures forall row :: row in r <==> row in products && row.categoryId != cid
    ensures RowCount(r, cid) == 0
  {
    if products == [] then []
    else
      var rest := RowsOutside(products[1..], cid);
      assert forall row :: row in products <==> row == products[0] || row in products[1..];
      if products[0].categoryId == cid then rest else [products[0]] + rest
  }

  /** The cascade keeps the count of every other category. */
  lemma {:induction false} RowCountOutside(products: seq<ProductRow>, cid: int, other: int)
    requires other != cid
    ensures RowCount(RowsOutside(products, cid), other) == RowCount(products, other)
  {
    if products != [] {
      RowCountOutside(products[1..], cid, other);
      if products[0].categoryId != cid {
        assert ([products[0]] + RowsOutside(products[1..], cid))[1..] == RowsOutside(products[1..], cid);
      }
    }
  }

  /** The position of the row with primary key `id`, as `query(Product).get(id)` finds it. */
  function IndexOfId(products: seq<ProductRow>, id: int): (r: Option<nat>)
    ensures r.Some? ==> r.value < |products| && products[r.value].id == id
    ensures r.None? <==> forall i | 0 <= i < |products| :: products[i].id != id
  {
    if products == [] then None
    else if products[0].id == id then Some(0)
    else match IndexOfId(products[1..], id)
      case None => None
      case Some(k) => Some(k + 1)
  }

  /** The ownership rule of update and delete: neither the owner nor an Admin. */
  predicate Forbidden(row: ProductRow, current: ApiAuth.User) {
    row.userId != current.id && current.role != AdminRole
  }

  /** Every category's `productCount` equals the number of rows that reference it. */
  ghost predicate TableCountsConsistent(categories: map<int, Category>, products: seq<ProductRow>) {
    forall k | k in categories :: categories[k].productCount == RowCount(products, k)
  }

  /** Under consistent counts, the `max(0, n - 1)` floor of update and delete never takes effect. */
  lemma FloorNeverFires(categories: map<int, Category>, products: seq<ProductRow>, i: int)
    requires TableCountsConsistent(categories, products) && 0 <= i < |products| && products[i].categoryId in categories
    ensures var n := categories[products[i].categoryId].productCount; (if 0 > n - 1 then 0 else n - 1) == n - 1
  {
    RowCountPositive(products, i);
  }

  /** `max(0, n - 1)`. */
  function Decrement(n: int): (r: int)
    ensures r >= 0 && (n >= 1 ==> r == n - 1) && (n < 1 ==> r == 0)
  {
    if 0 > n - 1 then 0 else n - 1
  }

  /**
   * The count bookkeeping of `update_product`: nothing when the category is
   * unchanged; otherwise the old category, if it still exists, loses one
   * (floored at zero) and the new one gains one.
   */
  function MoveCount(categories: map<int, Category>, from: int, to: int): (r: map<int, Category>)
    requires to in categories
    ensures r.Keys == categories.Keys
    ensures forall k | k in r :: r[k].id == categories[k].id && r[k].name == categories[k].name
    ensures forall k | k in r && k != from && k != to :: r[k] == categories[k]
  {
    if from == to then categories
    else
      var moved := if from in categories then categories[from := categories[from].(productCount := Decrement(categories[from].productCount))]
                   else categories;
      moved[to := moved[to].(productCount := moved[to].productCount + 1)]
  }

  /** Moving a product between existing categories keeps every count consistent. */
  lemma MoveCountConsistent(categories: map<int, Category>, products: seq<ProductRow>, i: int, row: ProductRow)
    requires TableCountsConsistent(categories, products) && 0 <= i < |products|
    requires products[i].categoryId in categories && row.categoryId in categories
    ensures TableCountsConsistent(MoveCount(categories, products[i].categoryId, row.categoryId), products[i := row])
  {
    FloorNeverFires(categories, products, i);
    var r := MoveCount(categories, products[i].categoryId, row.categoryId);
    forall k | k in r ensures r[k].productCount == RowCount(products[i := row], k) {
      RowCountUpdate(products, i, row, k);
    }
  }

  class CatalogServer {
    var categories: map<int, Category>
    var products: seq<ProductRow>
    var nextCategoryId: int
    var nextProductId: int

    /**
     * The table invariants: rows stored under their ids, ids below the next
     * to assign, unique category names and product ids, every product in an
     * existing category, and consistent counts.
     */
    ghost predicate Valid()
      reads this
    {
      && 1 <= nextCategoryId && 1 <= nextProductId
      && (forall k | k in categories :: categories[k].id == k && k < nextCategoryId)
      && (forall k1, k2 | k1 in categories && k2 in categories && k1 != k2 :: categories[k1].name != categories[k2].name)
      && (forall i | 0 <= i < |products| :: products[i].categoryId in categories && products[i].id < nextProductId)
      && DistinctRowIds(products)
      && TableCountsConsistent(categories, products)
    }

    /** Empty tables. */
    constructor ()
      ensures Valid() && categories == map[] && products == []
    {
      categories := map[];
      products := [];
      nextCategoryId := 1;
      nextProductId := 1;
    }

    /** `POST /categories`: 400 on an exact-name duplicate; otherwise a new category with count 0. */
    method CreateCategory(name: string) returns (r: Result<Category, ApiAuth.HttpError>)
      requires Valid()
      modifies this`categories, this`nextCategoryId
      ensures Valid()
      ensures r.Err? <==> exists k | k in old(categories) :: old(categories)[k].name == name
      ensures r.Err? ==> r.error == ApiAuth.HttpError(400, "Category already exists") && categories == old(categories)
      ensures r.Ok? ==> r.value == Category(old(nextCategoryId), name, 0) && r.value.id !in old(categories)
                        && categories == old(categories)[r.value.id := r.value]
    {
      if exists k | k in categories :: categories[k].name == name {
        return Err(ApiAuth.HttpError(400, "Category already exists"));
      }
      var c := Category(nextCategoryId, name, 0);
      RowCountUnreferenced(products, c.id);
      categories := categories[c.id := c];
      nextCategoryId := nextCategoryId + 1;
      r := Ok(c);
    }

    /** `DELETE /categories/{id}`: 404 for an absent id; otherwise the category and, by cascade, its products go. */
    method DeleteCategory(id: int) returns (r: Result<string, ApiAuth.HttpError>)
      requires Valid()
      modifies this`categories, this`products
      ensures Valid()
      ensures r.Err? <==> id !in old(categories)
      ensures r.Err? ==> r.error == ApiAuth.HttpError(404, "Category not found")
                         && categories == old(categories) && products == old(products)
      ensures r.Ok? ==> categories == old(categories) - {id} && products == RowsOutside(old(products), id)
    {
      if id !in categories {
        return Err(ApiAuth.HttpError(404, "Category not found"));
      }
      ghost var before := products;
      categories := categories - {id};
      products := RowsOutside(products, id);
      forall k | k in categories ensures categories[k].productCount == RowCount(products, k) {
        RowCountOutside(before, id, k);
      }
      forall i | 0 <= i < |products| ensures products[i].categoryId in categories && products[i].id < nextProductId {
        assert products[i] in before;
      }
      RowsOutsideDistinct(before, id);
      r := Ok("Category deleted");
    }

    /**
     * `POST /products` by `current`: 400 unless the category exists;
     * otherwise a row owned by the caller is appended and the category's
     * count goes up by one.
     */
    method CreateProduct(current: ApiAuth.User, input: ProductBase) returns (r: Result<ProductOut, ApiAuth.HttpError>)
      requires Valid()
      modifies this`categories, this`products, this`nextProductId
      ensures Valid()
      ensures r.Err? <==> input.categoryId !in old(categories)
      ensures r.Err? ==> r.error == ApiAuth.HttpError(400, "Category not found")
                         && categories == old(categories) && products == old(products)
      ensures r.Ok? ==> var c := old(categories)[input.categoryId];
                        && r.value.row == ProductRow(old(nextProductId), input.name, input.price, input.colors, input.tags,
                                                     input.categoryId, current.id)
                        && r.value.categoryName == c.name
                        && products == old(products) + [r.value.row]
                        && categories == old(categories)[input.categoryId := c.(productCount := c.productCount + 1)]
    {
      if input.categoryId !in categories {
        return Err(ApiAuth.HttpError(400, "Category not found"));
      }
      var c := categories[input.categoryId];
      var row := ProductRow(nextProductId, input.name, input.price, input.colors, input.tags, input.categoryId, current.id);
      ghost var before := products;
      products := products + [row];
      categories := categories[c.id := c.(productCount := c.productCount + 1)];
      nextProductId := nextProductId + 1;
      forall k | k in categories ensures categories[k].productCount == RowCount(products, k) {
        RowCountAppend(before, row, k);
      }
      r := Ok(ProductOut(row, c.name));
    }

    /**
     * `PUT /products/{id}` by `current`: 404 for an absent product, 403
     * unless owner or Admin, 400 for an absent category. When the category
     * changes, the old one's count drops by one (floored at zero) and the new
     * one's rises by one. The owner and the id never change.
     */
    method UpdateProduct(current: ApiAuth.User, productId: int, input: ProductBase)
      returns (r: Result<ProductOut, ApiAuth.HttpError>)
      requires Valid()
      modifies this`categories, this`products
      ensures Valid()
      ensures IndexOfId(old(products), productId).None? ==> r == Err(ApiAuth.HttpError(404, "Product not found"))
      ensures IndexOfId(old(products), productId).Some? && Forbidden(old(products)[IndexOfId(old(products), productId).value], current)
              ==> r == Err(ApiAuth.HttpError(403, "Not authorized to edit this product"))
      ensures IndexOfId(old(products), productId).Some? && !Forbidden(old(products)[IndexOfId(old(products), productId).value], current)
              && input.categoryId !in old(categories)
              ==> r == Err(ApiAuth.HttpError(400, "Category not found"))
      ensures r.Ok? <==> IndexOfId(old(products), productId).Some?
                         && !Forbidden(old(products)[IndexOfId(old(products), productId).value], current)
                         && input.categoryId in old(categories)
      ensures r.Err? ==> categories == old(categories) && products == old(products)
      ensures r.Ok? ==> var i := IndexOfId(old(products), productId).value;
                        var previous := old(products)[i];
                        && r.value.row == ProductRow(productId, input.name, input.price, input.colors, input.tags,
                                                     input.categoryId, previous.userId)
                        && products == old(products)[i := r.value.row]
                        && r.value.categoryName == old(categories)[input.categoryId].name
                        && categories == MoveCount(old(categories), previous.categoryId, input.categoryId)
    {
      var found := IndexOfId(products, productId);
      if found.None? {
        return Err(ApiAuth.HttpError(404, "Product not found"));
      }
      var i := found.value;
      var previous := products[i];
      if Forbidden(previous, current) {
        return Err(ApiAuth.HttpError(403, "Not authorized to edit this product"));
      }
      if input.categoryId !in categories {
        return Err(ApiAuth.HttpError(400, "Category not found"));
      }
      var row := ProductRow(productId, input.name, input.price, input.colors, input.tags, input.categoryId, previous.userId);
      MoveCountConsistent(categories, products, i, row);
      categories := MoveCount(categories, previous.categoryId, input.categoryId);
      products := products[i := row];
      r := Ok(ProductOut(row, categories[input.categoryId].name));
    }

    /**
     * `DELETE /products/{id}` by `current`: 404 for an absent product, 403
     * unless owner or Admin; otherwise the row goes and its category's count
     * drops by one, floored at zero.
     */
    method DeleteProduct(current: ApiAuth.User, productId: int) returns (r: Result<string, ApiAuth.HttpError>)
      requires Valid()
      modifies this`categories, this`products
      ensures Valid()
      ensures IndexOfId(old(products), productId).None? ==> r == Err(ApiAuth.HttpError(404, "Product not found"))
      ensures r.Ok? <==> IndexOfId(old(products), productId).Some?
                         && !Forbidden(old(products)[IndexOfId(old(products), productId).value], current)
      ensures r.Err? ==> categories == old(categories) && products == old(products)
      ensures IndexOfId(old(products), productId).Some? && Forbidden(old(products)[IndexOfId(old(products), productId).value], current)
              ==> r == Err(ApiAuth.HttpError(403, "Not authorized to delete this product"))
      ensures r.Ok? ==> var i := IndexOfId(old(products), productId).value;
                        var cid := old(products)[i].categoryId;
                        && products == old(products)[..i] + old(products)[i + 1..]
                        && categories == old(categories)[cid := old(categories)[cid].(productCount := Decrement(old(categories)[cid].productCount))]
    {
      var found := IndexOfId(products, productId);
      if found.None? {
        return Err(ApiAuth.HttpError(404, "Product not found"));
      }
      var i := found.value;
      var row := products[i];
      if Forbidden(row, current) {
        return Err(ApiAuth.HttpError(403, "Not authorized to delete this product"));
      }
      ghost var before := products;
      RemoveDistinct(products, i);
      if row.categoryId in categories {
        RemoveConsistent(categories, products, i);
        var c := categories[row.categoryId];
        categories := categories[row.categoryId := c.(productCount := Decrement(c.productCount))];
      }
      products := products[..i] + products[i + 1..];
      forall a | 0 <= a < |products| ensures products[a] in before {
      }
      r := Ok("Product deleted");
    }
  }

  /** No two rows share a primary key. */
  ghost predicate DistinctRowIds(products: seq<ProductRow>) {
    forall i, j | 0 <= i < j < |products| :: products[i].id != products[j].id
  }

  /** A row whose key no later row uses can be put in front of distinct rows. */
  lemma ConsDistinct(head: ProductRow, rest: seq<ProductRow>)
    requires DistinctRowIds(rest) && forall row | row in rest :: row.id != head.id
    ensures DistinctRowIds([head] + rest)
  {
    var r := [head] + rest;
    forall i, j | 0 <= i < j < |r| ensures r[i].id != r[j].id {
      assert r[j] == rest[j - 1] && rest[j - 1] in rest;
      if i > 0 {
        assert r[i] == rest[i - 1];
      }
    }
  }

  /** In distinct rows, the first key appears nowhere after it. */
  lemma HeadIdFresh(products: seq<ProductRow>)
    requires |products| > 0 && DistinctRowIds(products)
    ensures forall row | row in products[1..] :: row.id != products[0].id
  {
    forall row | row in products[1..] ensures row.id != products[0].id {
      var k :| 0 <= k < |products[1..]| && products[1..][k] == row;
      assert products[k + 1] == row;
    }
  }

  /** The cascade keeps primary keys distinct. */
  lemma {:induction false} RowsOutsideDistinct(products: seq<ProductRow>, cid: int)
    requires DistinctRowIds(products)
    ensures DistinctRowIds(RowsOutside(products, cid))
  {
    if products != [] {
      var rest := RowsOutside(products[1..], cid);
      RowsOutsideDistinct(products[1..], cid);
      if products[0].categoryId != cid {
        HeadIdFresh(products);
        ConsDistinct(products[0], rest);
      }
    }
  }

  /** Removing one row keeps primary keys distinct. */
  lemma RemoveDistinct(products: seq<ProductRow>, i: int)
    requires DistinctRowIds(products) && 0 <= i < |products|
    ensures DistinctRowIds(products[..i] + products[i + 1..])
  {
    var r := products[..i] + products[i + 1..];
    forall a, b | 0 <= a < b < |r| ensures r[a].id != r[b].id {
      var a' := if a < i then a else a + 1;
      var b' := if b < i then b else b + 1;
      assert r[a] == products[a'] && r[b] == products[b'];
    }
  }

  /** Removing row `i` and decrementing its category keeps every count consistent. */
  lemma RemoveConsistent(categories: map<int, Category>, products: seq<ProductRow>, i: int)
    requires TableCountsConsistent(categories, products) && 0 <= i < |products|
    requires products[i].categoryId in categories
    ensures var cid := products[i].categoryId;
            TableCountsConsistent(categories[cid := categories[cid].(productCount := Decrement(categories[cid].productCount))],
                                  products[..i] + products[i + 1..])
  {
    FloorNeverFires(categories, products, i);
    var cid := products[i].categoryId;
    var r := categories[cid := categories[cid].(productCount := Decrement(categories[cid].productCount))];
    forall k | k in r ensures r[k].productCount == RowCount(products[..i] + products[i + 1..], k) {
      RowCountRemove(products, i, k);
    }
  }
}
