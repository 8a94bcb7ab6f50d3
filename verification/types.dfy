/**
 * The shared storefront records: a catalogue product, a cart line and the
 * site language.
 */
module Types {
  import opened Wrappers

  /** The three site languages: English, Arabic and Egyptian Arabic. */
  datatype Language = En | Ar | Eg {
    /** Both Arabic variants use the Arabic copy. */
    predicate IsArabic() {
      this == Ar || this == Eg
    }
  }

  /** A text in both languages. */
  datatype Copy = Copy(en: string, ar: string) {
    function In(isAr: bool): string {
      if isAr then ar else en
    }
  }

  /** A catalogue product. Prices are whole numbers of the shop's currency. */
  datatype Product = Product(
    id: string,
    name: string,
    nameEn: Option<string>,
    description: string,
    descriptionEn: Option<string>,
    price: int,
    image: string,
    category: string,
    technique: Option<string>,
    embroideryStyle: Option<string>,
    sizes: seq<string>,
    colors: seq<string>,
    colorsEn: Option<seq<string>>,
    inStock: bool,
    basePrice: int,
    material: Option<string>,
    materialEn: Option<string>,
    careInstructions: Option<string>,
    careInstructionsEn: Option<string>,
    isNew: Option<bool>,
    onSale: Option<bool>,
    reviews: Option<int>,
    rating: Option<int>)

  /** A line of the cart: a product in one size and colour. */
  datatype CartItem = CartItem(
    product: Product, cartItemId: string, quantity: int, selectedSize: string, selectedColor: string)

  /** `value || fallback` for an optional text: an absent or empty text
      gives the fallback. */
  function TextOr(value: Option<string>, fallback: string): (r: string)
    ensures r == fallback || (value == Some(r) && r != "")
    ensures value.Some? && value.value != "" ==> r == value.value
  {
    if value.Some? && value.value != "" then value.value else fallback
  }
}
