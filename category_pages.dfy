/**
 * The categories pages of both clients (frontend/src/pages/Categories.jsx
 * and src/pages/Categories.jsx): the name check run on the add dialog's
 * input, the category record submitted, and the list updates that the
 * handlers of src/pages/Categories.jsx make directly. `now` stands for `Date.now()`.
 */
module CategoryPages {
  import opened Wrappers
  import opened Text
  import opened Catalog

  const EmptyMessage: string := "Category name cannot be empty"
  const DuplicateMessage: string := "Category already exists"

  /** Some category's lower-cased name equals the lower-cased key. */
  predicate NameTaken(categories: seq<Category>, key: string) {
    exists c | c in categories :: Lower(c.name) == key
  }

  /**
   * The `inputValidator`: a blank input is refused as empty, an input whose
   * trimmed, lower-cased form matches a lower-cased existing name as a
   * duplicate, and anything else is accepted.
   */
  function NameError(categories: seq<Category>, value: string): (r: Option<string>)
    ensures r == Some(EmptyMessage) <==> AllJsSpace(value)
    ensures r == Some(DuplicateMessage) <==> !AllJsSpace(value) && NameTaken(categories, Lower(Trim(value)))
    ensures r.None? <==> !AllJsSpace(value) && !NameTaken(categories, Lower(Trim(value)))
  {
    TrimEmptyIff(value);
    if Trim(value) == "" then Some(EmptyMessage)
    else if NameTaken(categories, Lower(Trim(value))) then Some(DuplicateMessage)
    else None
  }

  /** The record submitted for an accepted input: the trimmed name and a zero count. */
  datatype NewCategory = NewCategory(name: string, productCount: int)

  function Submitted(value: string): (r: NewCategory)
    ensures r.productCount == 0 && r.name == Trim(value)
  {
    NewCategory(Trim(value), 0)
  }

  /** No two categories have names equal ignoring case. */
  ghost predicate NamesUnique(categories: seq<Category>) {
    forall i, j | 0 <= i < j < |categories| :: Lower(categories[i].name) != Lower(categories[j].name)
  }

  /** Adding the trimmed input the validator accepted keeps names unique ignoring case. */
  lemma AcceptedNameStaysUnique(categories: seq<Category>, value: string, id: int)
    requires NamesUnique(categories) && NameError(categories, value).None?
    ensures NamesUnique(categories + [Category(id, Trim(value), 0)])
  {
    var added := categories + [Category(id, Trim(value), 0)];
    forall i, j | 0 <= i < j < |added| ensures Lower(added[i].name) != Lower(added[j].name) {
      if j == |categories| {
        assert added[i] in categories;
      }
    }
  }

  /**
   * Once an accepted input is added, the validator refuses the same name in
   * any case or padding as a duplicate.
   */
  lemma AddedNameRefused(categories: seq<Category>, value: string, id: int, again: string)
    requires NameError(categories, value).None?
    requires Lower(Trim(again)) == Lower(Trim(value))
    ensures NameError(categories + [Category(id, Trim(value), 0)], again) == Some(DuplicateMessage)
  {
    var c := Category(id, Trim(value), 0);
    var added := categories + [c];
    TrimEmptyIff(value);
    assert |Lower(Trim(again))| == |Lower(Trim(value))| > 0;
    TrimEmptyIff(again);
    assert added[|categories|] == c;
    assert Lower(c.name) == Lower(Trim(again));
  }

  /**
   * An input the validator accepts against the cached list is not an exact
   * duplicate in the backend, whose categories all appear in the cache: the
   * backend then creates it rather than answering "Category already exists".
   */
  lemma AcceptedByBackend(categories: seq<Category>, table: map<int, Category>, value: string)
    requires NameError(categories, value).None?
    requires forall k | k in table :: table[k] in categories
    ensures !exists k | k in table :: table[k].name == Submitted(value).name
  {
  }

  /** The page of src/pages/Categories.jsx over the lists its data context holds. */
  class CategoriesPage {
    var categories: seq<Category>
    var products: seq<Product>

    constructor (categories: seq<Category>, products: seq<Product>)
      ensures this.categories == categories && this.products == products
    {
      this.categories := categories;
      this.products := products;
    }

    /**
     * `handleAddCategory`, given what the dialog returned (nothing when it was
     * cancelled or the validator refused): appends the trimmed name with id
     * `now` and count zero.
     */
    method HandleAddCategory(value: Option<string>, now: int)
      modifies this`categories
      requires value.Some? ==> NameError(categories, value.value).None?
      ensures value.Some? && value.value != "" ==> categories == old(categories) + [Category(now, Trim(value.value), 0)]
      ensures value.None? || value.value == "" ==> categories == old(categories)
      ensures NamesUnique(old(categories)) ==> NamesUnique(categories)
    {
      if value.Some? && value.value != "" {
        var v := value.value;
        if NamesUnique(categories) {
          AcceptedNameStaysUnique(categories, v, now);
        }
        categories := categories + [Category(now, Trim(v), 0)];
      }
    }

    /** `handleRemoveCategory` once confirmed: the category goes; its products stay. */
    method HandleRemoveCategory(id: int, confirmed: bool)
      modifies this`categories
      ensures confirmed ==> categories == CategoriesOutside(old(categories), id)
      ensures !confirmed ==> categories == old(categories)
      ensures products == old(products)
    {
      if confirmed {
        categories := CategoriesOutside(categories, id);
      }
    }
  }
}
