/**
 * The product-form validator of the second client
 * (frontend/src/utils/validation.js) and the JavaScript values it inspects:
 * truthiness of a missing field, an empty string, zero or NaN, and the
 * result of `parseFloat`.
 */
module Validation {
  import opened Wrappers
  import opened Text

  /** A JavaScript number: NaN or an ordinary value. */
  datatype Number = NaN | Num(value: real)

  /**
   * The form's price: the text of the input, with the number `parseFloat`
   * reads from it, or a number taken from the product being edited.
   */
  datatype Price = NoPrice | PriceText(raw: string, parsed: Number) | PriceNumber(n: Number)

  /** The form's category: the empty choice, or an id. */
  datatype Choice = NoChoice | Chosen(id: int)

  /** JavaScript truthiness of the price: not missing, not `""`, not 0 and not NaN. */
  predicate PriceTruthy(price: Price) {
    match price
    case NoPrice => false
    case PriceText(raw, _) => raw != ""
    case PriceNumber(n) => n.Num? && n.value != 0.0
  }

  /** `parseFloat(price)`. */
  function ParseFloat(price: Price): (n: Number)
    ensures price.PriceNumber? ==> n == price.n
  {
    match price
    case NoPrice => NaN
    case PriceText(_, parsed) => parsed
    case PriceNumber(n) => n
  }

  /** `n <= 0`, which is false for NaN. */
  predicate AtMostZero(n: Number) {
    n.Num? && n.value <= 0.0
  }

  /** JavaScript truthiness of the category choice. */
  predicate ChoiceTruthy(choice: Choice) {
    choice.Chosen? && choice.id != 0
  }

  const NameError: string := "Product name is required"
  const PriceError: string := "Enter a valid price greater than 0"
  const ColorsError: string := "Select at least one color"
  const CategoryError: string := "Category is required"

  predicate NameFails(name: Option<string>) {
    name.None? || name.value == "" || Trim(name.value) == ""
  }

  predicate PriceFails(price: Price) {
    !PriceTruthy(price) || AtMostZero(ParseFloat(price))
  }

  predicate ColorsFail(colors: Option<seq<string>>) {
    colors.None? || |colors.value| == 0
  }

  /** All four checks pass. */
  predicate Passes(name: Option<string>, price: Price, colors: Option<seq<string>>, categoryId: Choice) {
    !NameFails(name) && !PriceFails(price) && !ColorsFail(colors) && ChoiceTruthy(categoryId)
  }

  /** The keys of the errors object: `name`, `price`, `colors` and `categoryId`. */
  datatype Field = NameField | PriceField | ColorsField | CategoryField

  /**
   * The errors object as `validateProduct` builds it from the outcomes of its
   * four checks: starting empty, one key set per failed check, in order.
   */
  method CollectErrors(nameFails: bool, priceFails: bool, colorsFail: bool, categoryFails: bool)
    returns (errors: map<Field, string>)
    ensures NameField in errors <==> nameFails
    ensures PriceField in errors <==> priceFails
    ensures ColorsField in errors <==> colorsFail
    ensures CategoryField in errors <==> categoryFails
    ensures NameField in errors ==> errors[NameField] == NameError
    ensures PriceField in errors ==> errors[PriceField] == PriceError
    ensures ColorsField in errors ==> errors[ColorsField] == ColorsError
    ensures CategoryField in errors ==> errors[CategoryField] == CategoryError
    ensures errors == map[] <==> !nameFails && !priceFails && !colorsFail && !categoryFails
  {
    errors := map[];
    if nameFails {
      errors := errors[NameField := NameError];
    }
    if priceFails {
      errors := errors[PriceField := PriceError];
    }
    if colorsFail {
      errors := errors[ColorsField := ColorsError];
    }
    if categoryFails {
      errors := errors[CategoryField := CategoryError];
    }
    if nameFails || priceFails || colorsFail || categoryFails {
      assert NameField in errors || PriceField in errors || ColorsField in errors || CategoryField in errors;
    }
  }

  /**
   * `validateProduct`: an errors object with one key per failed check, each
   * set independently; empty exactly when every check passes.
   */
  method ValidateProduct(name: Option<string>, price: Price, colors: Option<seq<string>>, categoryId: Choice)
    returns (errors: map<Field, string>)
    ensures NameField in errors <==> NameFails(name)
    ensures PriceField in errors <==> PriceFails(price)
    ensures ColorsField in errors <==> ColorsFail(colors)
    ensures CategoryField in errors <==> !ChoiceTruthy(categoryId)
    ensures NameField in errors ==> errors[NameField] == NameError
    ensures PriceField in errors ==> errors[PriceField] == PriceError
    ensures ColorsField in errors ==> errors[ColorsField] == ColorsError
    ensures CategoryField in errors ==> errors[CategoryField] == CategoryError
    ensures errors == map[] <==> Passes(name, price, colors, categoryId)
  {
    errors := CollectErrors(NameFails(name), PriceFails(price), ColorsFail(colors), !ChoiceTruthy(categoryId));
  }

  /** A price text that does not parse as a number passes the validator: NaN is not at most zero. */
  lemma UnparsablePricePasses(raw: string)
    requires raw != ""
    ensures !PriceFails(PriceText(raw, NaN))
  {
  }

  /** A whitespace-only name fails exactly as an empty one does. */
  lemma BlankNameFails(name: string)
    ensures NameFails(Some(name)) <==> AllJsSpace(name)
  {
    TrimEmptyIff(name);
  }
}
