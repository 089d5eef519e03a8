/**
 * A catalog product and its derived final price
 * (`Product.finalPrice` in data/model/Product.kt).
 */
module Products {
  import opened Options

  /**
   * The product fields the cart, favourites and search logic read. Prices are exact
   * reals; discounts are whole percentages (Kotlin `Int?`).
   */
  datatype Product = Product(
    id: string,
    name: string,
    description: string,
    price: real,
    originalPrice: Option<real>,
    discountPercentage: Option<int>,
    category: string,
    tags: seq<string>,
    isFavorite: bool
  )

  /**
   * `originalPrice` reduced by the discount percentage (a missing percentage counts as 0);
   * `price` when there is no original price. A discount without an original price is ignored.
   */
  function FinalPrice(p: Product): (r: real)
    ensures p.originalPrice.None? ==> r == p.price
    ensures p.originalPrice.Some? && p.discountPercentage.Some? && 0 <= p.discountPercentage.value <= 100
              && p.originalPrice.value >= 0.0
            ==> 0.0 <= r <= p.originalPrice.value
  {
    match p.originalPrice
    case None => p.price
    case Some(original) =>
      original * (1.0 - p.discountPercentage.GetOr(0) as real / 100.0)
  }

  /** With an original price but no discount, the final price is the original price; `price` is unused. */
  lemma FinalPriceNoDiscount(p: Product)
    requires p.originalPrice.Some? && p.discountPercentage.None?
    ensures FinalPrice(p) == p.originalPrice.value
    ensures forall other: real :: FinalPrice(p.(price := other)) == FinalPrice(p)
  {
  }

  /** Without an original price, the discount percentage has no effect. */
  lemma FinalPriceIgnoresDiscountWithoutOriginal(p: Product, d: Option<int>)
    requires p.originalPrice.None?
    ensures FinalPrice(p.(discountPercentage := d)) == p.price
  {
  }

  /** A 0% discount charges the original price, a 100% discount charges nothing. */
  lemma FinalPriceDiscountEnds(p: Product)
    requires p.originalPrice.Some?
    ensures FinalPrice(p.(discountPercentage := Some(0))) == p.originalPrice.value
    ensures FinalPrice(p.(discountPercentage := Some(100))) == 0.0
  {
  }

  /** A larger discount never raises the final price of a product with a non-negative original price. */
  lemma FinalPriceAntitone(p: Product, d1: int, d2: int)
    requires p.originalPrice.Some? && p.originalPrice.value >= 0.0
    requires d1 <= d2
    ensures FinalPrice(p.(discountPercentage := Some(d2))) <= FinalPrice(p.(discountPercentage := Some(d1)))
  {
    var o := p.originalPrice.value;
    assert (1.0 - d2 as real / 100.0) <= (1.0 - d1 as real / 100.0);
    MulMonotone(o, 1.0 - d2 as real / 100.0, 1.0 - d1 as real / 100.0);
  }

  lemma MulMonotone(o: real, a: real, b: real)
    requires o >= 0.0 && a <= b
    ensures o * a <= o * b
  {
  }
}
