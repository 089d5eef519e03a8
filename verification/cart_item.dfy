/**
 * One line of the cart (data/model/CartItem.kt) and its `totalPrice`.
 */
module CartItems {
  import opened Options
  import opened Int32
  import opened Products

  /**
   * A cart line: its own id, the product it refers to, an optional snapshot of that
   * product, a quantity (Kotlin `Int`, unvalidated) and the chosen size and colour.
   */
  datatype CartLine = CartLine(
    id: string,
    productId: string,
    product: Option<Product>,
    quantity: int32,
    size: Option<string>,
    color: Option<string>
  )

  /**
   * The snapshot's final price times the quantity (Kotlin `(product?.finalPrice ?: 0.0) * quantity`);
   * a line without a snapshot costs nothing whatever its quantity.
   */
  function TotalPrice(line: CartLine): (r: real)
    ensures line.product.None? ==> r == 0.0
    ensures line.quantity == 0 ==> r == 0.0
    ensures line.product.Some? && FinalPrice(line.product.value) >= 0.0 && line.quantity >= 0 ==> r >= 0.0
  {
    var unit := match line.product
      case Some(p) => FinalPrice(p)
      case None => 0.0;
    unit * line.quantity as real
  }

  /** The line total is the one-unit total scaled by the quantity. */
  lemma TotalPriceLinear(line: CartLine)
    ensures TotalPrice(line) == TotalPrice(line.(quantity := 1)) * line.quantity as real
    ensures line.product.Some? ==> TotalPrice(line.(quantity := 1)) == FinalPrice(line.product.value)
  {
  }

  /**
   * Splitting a quantity splits the total: when `q1 + q2` fits in an `Int`, the total for
   * `q1 + q2` units is the total for `q1` plus the total for `q2`.
   */
  lemma TotalPriceAdditive(line: CartLine, q1: int32, q2: int32)
    requires -0x8000_0000 <= q1 as int + q2 as int < 0x8000_0000
    ensures TotalPrice(line.(quantity := Add(q1, q2)))
         == TotalPrice(line.(quantity := q1)) + TotalPrice(line.(quantity := q2))
  {
    var unit := TotalPrice(line.(quantity := 1));
    TotalPriceLinear(line.(quantity := Add(q1, q2)));
    TotalPriceLinear(line.(quantity := q1));
    TotalPriceLinear(line.(quantity := q2));
    assert unit * (q1 as real + q2 as real) == unit * q1 as real + unit * q2 as real;
  }
}
