/**
 * The product form of the second client
 * (frontend/src/components/ProductModal.jsx): its state, the tag and colour
 * handlers, and the guard chain of `handleSubmit` that ends in the payload
 * sent to the backend. The cached products, the product being edited and
 * the logged-in user's id are the store values the form reads.
 */
module ProductModal {
  import opened Wrappers
  import opened Text
  import opened Catalog
  import opened Validation
  import opened FormLists

  /** The body `handleSubmit` sends; `id` only when editing. */
  datatype Payload = Payload(id: Option<int>, categoryId: int, name: string, price: real,
                             colors: seq<string>, tags: seq<string>, userId: int)

  /** Where `handleSubmit` stops. */
  datatype Submission =
    | Invalid(errors: map<Field, string>)
    | BadPrice
    | Duplicate(existing: Product)
    | NotLoggedIn
    | Send(payload: Payload)

  const PriceMessage: string := "Price must be greater than 0"

  /** `parseFloat(price) <= 0 || Number.isNaN(parseFloat(price))`. */
  predicate PriceRefused(price: Price) {
    AtMostZero(ParseFloat(price)) || ParseFloat(price).NaN?
  }

  /** The name as the clash test compares it: trimmed and lower-cased. */
  function NameKey(name: string): string {
    Lower(Trim(name))
  }

  /**
   * Whether cached product `p` clashes with the typed name, given as its
   * key, in the chosen category: lower-cased names equal (only the typed one
   * trimmed), the same category, and not the product being edited.
   */
  predicate Clashes(p: Product, key: string, choice: Choice, editing: Option<Product>) {
    Lower(p.name) == key && choice.Chosen? && p.categoryId == choice.id
    && (editing.None? || p.id != editing.value.id)
  }

  /** `products.find(...)` with the clash test, as a position. */
  function FindClash(products: seq<Product>, key: string, choice: Choice, editing: Option<Product>): (r: Option<nat>)
    ensures r.Some? ==> r.value < |products| && Clashes(products[r.value], key, choice, editing)
    ensures r.None? <==> forall j | 0 <= j < |products| :: !Clashes(products[j], key, choice, editing)
  {
    if products == [] then None
    else if Clashes(products[0], key, choice, editing) then Some(0)
    else match FindClash(products[1..], key, choice, editing)
      case None => None
      case Some(k) => Some(k + 1)
  }

  /** No two products in one category have names equal ignoring case. */
  ghost predicate UniqueNames(products: seq<Product>) {
    forall i, j | 0 <= i < j < |products| ::
      !(Lower(products[i].name) == Lower(products[j].name) && products[i].categoryId == products[j].categoryId)
  }

  /**
   * A new product stored under a submitted payload's name and category keeps
   * names unique: the clash check refused every product it could collide with.
   */
  lemma AddKeepsNamesUnique(products: seq<Product>, name: string, categoryId: int, p: Product)
    requires UniqueNames(products)
    requires FindClash(products, NameKey(name), Chosen(categoryId), None).None?
    requires p.name == Trim(name) && p.categoryId == categoryId
    ensures UniqueNames(products + [p])
  {
    var key := NameKey(name);
    assert Lower(p.name) == key;
    var r := products + [p];
    forall i, j | 0 <= i < j < |r| ensures !(Lower(r[i].name) == Lower(r[j].name) && r[i].categoryId == r[j].categoryId) {
      assert r[i] == products[i];
      if j == |products| {
        assert r[j] == p;
        assert !Clashes(products[i], key, Chosen(categoryId), None);
      } else {
        assert r[j] == products[j];
      }
    }
  }

  class ProductForm {
    var name: string
    var price: Price
    var colors: seq<string>
    var tags: seq<string>
    var tagInput: string
    var selectedCategory: Choice
    var errors: map<Field, string>

    /** A form holding the given field values and no errors. */
    constructor (name: string, price: Price, colors: seq<string>, tags: seq<string>, tagInput: string, selectedCategory: Choice)
      ensures this.name == name && this.price == price && this.colors == colors && this.tags == tags
      ensures this.tagInput == tagInput && this.selectedCategory == selectedCategory && errors == map[]
    {
      this.name := name;
      this.price := price;
      this.colors := colors;
      this.tags := tags;
      this.tagInput := tagInput;
      this.selectedCategory := selectedCategory;
      errors := map[];
    }

    /** `handleTagKeyPress`: on Enter, adds the trimmed input as a new tag; other keys change nothing. */
    method TagKeyPress(key: string)
      modifies this`tags, this`tagInput
      ensures key == "Enter" ==> TagEdit(tags, tagInput) == AddTag(old(tags), old(tagInput))
      ensures key != "Enter" ==> tags == old(tags) && tagInput == old(tagInput)
      ensures NoDuplicates(old(tags)) ==> NoDuplicates(tags)
    {
      if key == "Enter" {
        var edit := AddTag(tags, tagInput);
        AddTagNoDuplicates(tags, tagInput);
        tags := edit.tags;
        tagInput := edit.input;
      }
    }

    /** `handleRemoveTag`: every copy of the tag goes, the rest keep their order. */
    method RemoveTag(tag: string)
      modifies this`tags
      ensures tags == Without(old(tags), tag)
    {
      tags := Without(tags, tag);
    }

    /** `handleColorToggle`. */
    method ColorToggle(color: string)
      modifies this`colors
      ensures colors == Toggle(old(colors), color)
      ensures NoDuplicates(old(colors)) ==> NoDuplicates(colors)
    {
      ToggleNoDuplicates(colors, color);
      colors := Toggle(colors, color);
    }

    /**
     * `handleSubmit`: stops on any validation error (recording the errors),
     * then on a price that is not a positive number, then on a name clash in
     * the chosen category, then when nobody is logged in; otherwise yields the
     * payload with the trimmed name and the caller's id.
     */
    method HandleSubmit(products: seq<Product>, editing: Option<Product>, currentUserId: Option<int>)
      returns (outcome: Submission)
      modifies this`errors
      ensures !Passes(Some(name), price, Some(colors), selectedCategory) <==> outcome.Invalid?
      ensures outcome.Invalid? ==> errors == outcome.errors && errors != map[]
      ensures outcome.BadPrice? ==> errors == map[PriceField := PriceMessage]
      ensures outcome.Duplicate? || outcome.NotLoggedIn? || outcome.Send? ==> errors == map[]
      ensures outcome.BadPrice? <==> Passes(Some(name), price, Some(colors), selectedCategory) && PriceRefused(price)
      ensures outcome.Duplicate? <==> Passes(Some(name), price, Some(colors), selectedCategory) && !PriceRefused(price)
                                      && FindClash(products, NameKey(name), selectedCategory, editing).Some?
      ensures outcome.NotLoggedIn? <==> Passes(Some(name), price, Some(colors), selectedCategory) && !PriceRefused(price)
                                        && FindClash(products, NameKey(name), selectedCategory, editing).None?
                                        && (currentUserId.None? || currentUserId.value == 0)
      ensures outcome.Send? ==>
                && selectedCategory.Chosen? && currentUserId.Some? && currentUserId.value != 0
                && ParseFloat(price).Num? && ParseFloat(price).value > 0.0
                && outcome.payload == Payload(if editing.Some? then Some(editing.value.id) else None,
                                              selectedCategory.id, Trim(name), ParseFloat(price).value,
                                              colors, tags, currentUserId.value)
                && forall j | 0 <= j < |products| :: !Clashes(products[j], NameKey(name), selectedCategory, editing)
    {
      var found := ValidateProduct(Some(name), price, Some(colors), selectedCategory);
      errors := found;
      if found != map[] {
        return Invalid(found);
      }
      if PriceRefused(price) {
        errors := map[PriceField := PriceMessage];
        return BadPrice;
      }
      var clash := FindClash(products, NameKey(name), selectedCategory, editing);
      if clash.Some? {
        return Duplicate(products[clash.value]);
      }
      if currentUserId.None? || currentUserId.value == 0 {
        return NotLoggedIn;
      }
      var id := if editing.Some? then Some(editing.value.id) else None;
      outcome := Send(Payload(id, selectedCategory.id, Trim(name), ParseFloat(price).value, colors, tags, currentUserId.value));
    }
  }
}
