/**
 * The catalogue cache of the second client
 * (frontend/src/redux/dataSlice.js): the `extraReducers` cases that fold
 * the backend's answers into the cached category and product lists. The
 * thunks only forward requests to the backend (modelled in `ApiCatalog`).
 */
module DataSlice {
  import opened Wrappers
  import opened Catalog

  /** The colour choices the slice starts with. */
  const Colors: seq<string> := ["Black", "White", "Yellow", "Green", "Blue", "Red"]

  /** `products.findIndex(p => p.id === id)`, as a position. */
  function FindProduct(products: seq<Product>, id: int): (r: Option<nat>)
    ensures r.Some? ==> r.value < |products| && products[r.value].id == id
    ensures r.Some? ==> forall j | 0 <= j < r.value :: products[j].id != id
    ensures r.None? <==> forall j | 0 <= j < |products| :: products[j].id != id
  {
    if products == [] then None
    else if products[0].id == id then Some(0)
    else match FindProduct(products[1..], id)
      case None => None
      case Some(k) => Some(k + 1)
  }

  /** Filtering out a product id just appended under a fresh id gives back the list before the append. */
  lemma {:induction false} RemoveUndoesAdd(products: seq<Product>, p: Product)
    requires forall j | 0 <= j < |products| :: products[j].id != p.id
    ensures ProductsWithoutId(products + [p], p.id) == products
  {
    if products == [] {
      assert ProductsWithoutId([p], p.id) == ProductsWithoutId([], p.id);
    } else {
      assert (products + [p])[1..] == products[1..] + [p];
      RemoveUndoesAdd(products[1..], p);
      assert products == [products[0]] + products[1..];
    }
  }

  /** Filtering out a category id just appended under a fresh id gives back the list before the append. */
  lemma {:induction false} RemoveUndoesAddCategory(categories: seq<Category>, c: Category)
    requires forall j | 0 <= j < |categories| :: categories[j].id != c.id
    ensures CategoriesOutside(categories + [c], c.id) == categories
  {
    if categories == [] {
      assert CategoriesOutside([c], c.id) == CategoriesOutside([], c.id);
    } else {
      assert (categories + [c])[1..] == categories[1..] + [c];
      RemoveUndoesAddCategory(categories[1..], c);
      assert categories == [categories[0]] + categories[1..];
    }
  }

  class DataState {
    var categories: seq<Category>
    var products: seq<Product>
    var colors: seq<string>

    /** `initialState`: empty lists and the fixed colour choices. */
    constructor ()
      ensures categories == [] && products == [] && colors == Colors
    {
      categories := [];
      products := [];
      colors := Colors;
    }

    /** `fetchCategories.fulfilled`: the payload replaces the list. */
    method FetchCategoriesFulfilled(payload: seq<Category>)
      modifies this`categories
      ensures categories == payload
    {
      categories := payload;
    }

    /** `addCategoryAsync.fulfilled`: the payload is pushed at the end. */
    method AddCategoryFulfilled(payload: Category)
      modifies this`categories
      ensures categories == old(categories) + [payload]
    {
      categories := categories + [payload];
    }

    /** `removeCategoryAsync.fulfilled`: every category with that id goes; products are not touched. */
    method RemoveCategoryFulfilled(id: int)
      modifies this`categories
      ensures categories == CategoriesOutside(old(categories), id)
    {
      categories := CategoriesOutside(categories, id);
    }

    /** `fetchProducts.fulfilled`: the payload replaces the list. */
    method FetchProductsFulfilled(payload: seq<Product>)
      modifies this`products
      ensures products == payload
    {
      products := payload;
    }

    /** `addProductAsync.fulfilled`: the payload is pushed at the end. */
    method AddProductFulfilled(payload: Product)
      modifies this`products
      ensures products == old(products) + [payload]
    {
      products := products + [payload];
    }

    /** `updateProductAsync.fulfilled`: the first product with the payload's id is replaced; without one nothing changes. */
    method UpdateProductFulfilled(payload: Product)
      modifies this`products
      ensures |products| == |old(products)|
      ensures FindProduct(old(products), payload.id).None? ==> products == old(products)
      ensures FindProduct(old(products), payload.id).Some? ==>
                products == old(products)[FindProduct(old(products), payload.id).value := payload]
    {
      var index := FindProduct(products, payload.id);
      if index.Some? {
        products := products[index.value := payload];
      }
    }

    /** `removeProductAsync.fulfilled`: every product with that id goes; category counts are not adjusted. */
    method RemoveProductFulfilled(id: int)
      modifies this`products
      ensures products == ProductsWithoutId(old(products), id)
    {
      products := ProductsWithoutId(products, id);
    }
  }

  /** Adding a product under a fresh id and then removing it leaves the cache as it was, counts included. */
  method AddThenRemove(categories: seq<Category>, products: seq<Product>, p: Product) returns (before: seq<Product>, after: seq<Product>, counts: seq<Category>)
    requires forall j | 0 <= j < |products| :: products[j].id != p.id
    ensures after == before == products && counts == categories
  {
    var state := new DataState();
    state.FetchCategoriesFulfilled(categories);
    state.FetchProductsFulfilled(products);
    before := state.products;
    state.AddProductFulfilled(p);
    state.RemoveProductFulfilled(p.id);
    RemoveUndoesAdd(products, p);
    after := state.products;
    counts := state.categories;
  }
}
