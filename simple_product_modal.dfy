/**
 * The product form of the first client (src/components/ProductModal.jsx):
 * colour checkboxes, tag adding and removal, and a submit that checks only
 * that the fields are filled before building the product for the given
 * category. `now` stands for `Date.now()`, the new product's id.
 */
module SimpleProductModal {
  import opened Text
  import opened Catalog
  import opened Validation
  import opened FormLists
  import ProductModal

  /** The product the form builds; the price is whatever `parseFloat` read. */
  datatype Draft = Draft(id: int, categoryId: int, categoryName: string, name: string, price: Number,
                         colors: seq<string>, tags: seq<string>)

  class SimpleProductForm {
    var name: string
    var price: string
    var colors: seq<string>
    var tags: seq<string>
    var tagInput: string

    /** The empty form. */
    constructor ()
      ensures name == "" && price == "" && colors == [] && tags == [] && tagInput == ""
    {
      name := "";
      price := "";
      colors := [];
      tags := [];
      tagInput := "";
    }

    /** `handleColorChange`: a checked box appends its value, an unchecked one removes every copy of it. */
    method ColorChange(value: string, checked: bool)
      modifies this`colors
      ensures checked ==> colors == old(colors) + [value]
      ensures !checked ==> colors == Without(old(colors), value)
    {
      if checked {
        colors := colors + [value];
      } else {
        colors := Without(colors, value);
      }
    }

    /** `handleAddTag`. */
    method AddTagClicked()
      modifies this`tags, this`tagInput
      ensures TagEdit(tags, tagInput) == AddTag(old(tags), old(tagInput))
    {
      var edit := AddTag(tags, tagInput);
      tags := edit.tags;
      tagInput := edit.input;
    }

    /** `handleRemoveTag`. */
    method RemoveTag(tag: string)
      modifies this`tags
      ensures tags == Without(old(tags), tag)
    {
      tags := Without(tags, tag);
    }

    /**
     * `handleSubmit`: refused when the name or the price text is empty or no
     * colour is chosen; otherwise the product for `category`, with the name
     * as typed (not trimmed) and the parsed price, whatever its sign.
     */
    method HandleSubmit(category: Category, now: int, parsed: Number) returns (draft: Draft, ok: bool)
      ensures ok <==> name != "" && price != "" && |colors| > 0
      ensures ok ==> draft == Draft(now, category.id, category.name, name, parsed, colors, tags)
    {
      draft := Draft(now, category.id, category.name, name, parsed, colors, tags);
      ok := !(name == "" || price == "" || |colors| == 0);
    }
  }

  /** Checking and then unchecking a box that was not checked gives back the colour list. */
  method CheckUncheck(colors: seq<string>, value: string) returns (after: seq<string>)
    requires value !in colors
    ensures after == colors
  {
    var form := new SimpleProductForm();
    form.colors := colors;
    form.ColorChange(value, true);
    form.ColorChange(value, false);
    WithoutAppend(colors, [value], value);
    assert Without([value], value) == [];
    after := form.colors;
  }

  /**
   * A filled form with a price that is zero, negative or unparsable is
   * submitted here, while the other client's form refuses that price.
   */
  method NonPositivePriceAccepted(name: string, raw: string, parsed: Number, category: Category, now: int)
    returns (submitted: bool, refusedByOtherForm: bool)
    requires name != "" && raw != "" && (parsed.NaN? || parsed.value <= 0.0)
    ensures submitted && refusedByOtherForm
  {
    var form := new SimpleProductForm();
    form.name := name;
    form.price := raw;
    form.ColorChange("Black", true);
    var draft;
    draft, submitted := form.HandleSubmit(category, now, parsed);
    refusedByOtherForm := ProductModal.PriceRefused(PriceText(raw, parsed));
  }
}
