/**
 * The local catalogue provider (frontend/src/context/DataContext.jsx): two
 * lists held as state, replaced by `addProduct`, `clearProducts`,
 * `addCategory` and `removeCategory`, and an export of the products as
 * quoted CSV.
 */
module ContextData {
  import opened Wrappers
  import opened Text
  import opened Decimal
  import opened Catalog
  import Csv

  /** The categories seeded when storage holds none. */
  const SeedCategories: seq<Category> :=
    [Category(1, "Electronics", 0), Category(2, "Clothing", 0), Category(3, "Books", 0)]

  /** `{ ...cat, productCount: cat.productCount + 1 }` for the matching category only. */
  function Bump(c: Category, cid: int): Category {
    if c.id == cid then c.(productCount := c.productCount + 1) else c
  }

  class DataProvider {
    var categories: seq<Category>
    var products: seq<Product>

    /** The state as first read: what storage held, or the seed categories and no products. */
    constructor (storedCategories: Option<seq<Category>>, storedProducts: Option<seq<Product>>)
      ensures categories == (if storedCategories.Some? then storedCategories.value else SeedCategories)
      ensures products == (if storedProducts.Some? then storedProducts.value else [])
    {
      categories := if storedCategories.Some? then storedCategories.value else SeedCategories;
      products := if storedProducts.Some? then storedProducts.value else [];
    }

    /** Appends the product and increments the count of the categories whose id it references. */
    method AddProduct(product: Product)
      modifies this
      ensures products == old(products) + [product]
      ensures |categories| == |old(categories)|
      ensures forall i | 0 <= i < |categories| ::
        categories[i] == if old(categories)[i].id == product.categoryId
                         then old(categories)[i].(productCount := old(categories)[i].productCount + 1)
                         else old(categories)[i]
      ensures old(CountsConsistent(categories, products)) ==> CountsConsistent(categories, products)
    {
      ghost var before := products;
      products := products + [product];
      var cs := categories;
      categories := seq(|cs|, i requires 0 <= i < |cs| => Bump(cs[i], product.categoryId));
      forall c | c in categories && old(CountsConsistent(categories, products))
        ensures c.productCount == CountIn(products, c.id)
      {
        var i :| 0 <= i < |categories| && categories[i] == c;
        assert old(categories)[i] in old(categories);
        CountAppend(before, product, old(categories)[i].id);
      }
    }

    /** Empties the products and resets every count to zero, keeping ids, names and order. */
    method ClearProducts()
      modifies this
      ensures products == []
      ensures |categories| == |old(categories)|
      ensures forall i | 0 <= i < |categories| :: categories[i] == old(categories)[i].(productCount := 0)
      ensures CountsConsistent(categories, products)
    {
      products := [];
      var cs := categories;
      categories := seq(|cs|, i requires 0 <= i < |cs| => cs[i].(productCount := 0));
    }

    /** Appends the category as given; no id or name check. */
    method AddCategory(category: Category)
      modifies this
      ensures categories == old(categories) + [category]
      ensures products == old(products)
      ensures old(CountsConsistent(categories, products)) && category.productCount == 0
              && (forall p | p in products :: p.categoryId != category.id)
              ==> CountsConsistent(categories, products)
    {
      categories := categories + [category];
      if category.productCount == 0 && forall p | p in products :: p.categoryId != category.id {
        CountUnreferenced(products, category.id);
      }
    }

    /** Removes the category and, by cascade, every product that references it. */
    method RemoveCategory(id: int)
      modifies this
      ensures categories == CategoriesOutside(old(categories), id)
      ensures products == ProductsOutside(old(products), id)
      ensures |products| == |old(products)| - CountIn(old(products), id)
      ensures forall p | p in products :: p.categoryId != id
      ensures old(CountsConsistent(categories, products)) ==> CountsConsistent(categories, products)
    {
      ghost var before := products;
      categories := CategoriesOutside(categories, id);
      products := ProductsOutside(products, id);
      forall c | c in categories && old(CountsConsistent(categories, products))
        ensures c.productCount == CountIn(products, c.id)
      {
        CountOutside(before, id, c.id);
      }
    }
  }

  /** The header record of the export. */
  const Header: seq<string> := ["Name", "Category", "Price", "Colors", "Tags"]

  /** One product's fields: colours and tags joined by `|`. */
  function CsvFields(p: Product): (r: seq<string>)
    ensures |r| == |Header|
  {
    [p.name, p.categoryName, IntToString(p.price), Join(p.colors, "|"), Join(p.tags, "|")]
  }

  function CsvRows(products: seq<Product>): (r: seq<seq<string>>)
    ensures |r| == |products|
  {
    seq(|products|, i requires 0 <= i < |products| => CsvFields(products[i]))
  }

  /**
   * `exportCsv`: the empty string for no products, otherwise the header and
   * one record per product, in order, every field quoted. Reading the text
   * back yields exactly those records.
   */
  function ExportCsv(products: seq<Product>): (csv: string)
    ensures csv == "" <==> products == []
    ensures Csv.Parse(csv) == Some(if products == [] then [] else [Header] + CsvRows(products))
  {
    if products == [] then "" else
      var rows := [Header] + CsvRows(products);
      Csv.DocumentRoundTrip(rows);
      Csv.Document(rows)
  }
}
