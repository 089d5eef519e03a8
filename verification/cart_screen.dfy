/**
 * The cart screen's own rules (ui/screens/cart/CartScreen.kt): the quantity stepper of
 * each card, the item count shown under the total, and when the checkout button is
 * enabled and the clear-cart action shown.
 */
module CartScreen {
  import opened Options
  import Int32
  import opened Products
  import opened CartItems
  import opened UserViewModel

  /** The two buttons of a card's quantity stepper. */
  datatype StepperButton = Minus | Plus

  /** The largest quantity the `+` button still raises to. */
  const StepperMax: int := 10

  /**
   * The quantity a press passes to `onQuantityChange`, if any: `-` asks for one less only
   * above 1, `+` asks for one more only below 10.
   */
  function StepperRequest(quantity: Int32.int32, button: StepperButton): (r: Option<Int32.int32>)
    ensures button == Minus ==> (r.Some? <==> quantity > 1)
    ensures button == Plus ==> (r.Some? <==> quantity as int < StepperMax)
    ensures r.Some? ==> r.value as int == quantity as int + (if button == Plus then 1 else -1)
  {
    match button
    case Minus => if quantity > 1 then Some(quantity - 1) else None
    case Plus => if quantity < 10 then Some(quantity + 1) else None
  }

  /** A line's quantity after one press: the requested value, or unchanged. */
  function Pressed(quantity: Int32.int32, button: StepperButton): (r: Int32.int32)
    ensures -1 <= r as int - quantity as int <= 1
    ensures button == Minus ==> r <= quantity && (quantity > 1 ==> r < quantity)
    ensures button == Plus ==> r >= quantity && (quantity as int < StepperMax ==> r > quantity)
  {
    StepperRequest(quantity, button).GetOr(quantity)
  }

  /** A line's quantity after a series of presses, first press first. */
  function AfterPresses(quantity: Int32.int32, presses: seq<StepperButton>): Int32.int32
    decreases |presses|
  {
    if presses == [] then quantity else AfterPresses(Pressed(quantity, presses[0]), presses[1..])
  }

  /**
   * Starting inside [1, 10], no series of presses leaves that range; starting outside it,
   * the quantity never moves further away.
   */
  lemma {:induction false} AfterPressesBounded(quantity: Int32.int32, presses: seq<StepperButton>)
    ensures var r := AfterPresses(quantity, presses);
            && (quantity >= 1 ==> r >= 1)
            && (quantity as int <= StepperMax ==> r as int <= StepperMax)
            && (quantity < 1 ==> r >= quantity)
            && (quantity as int > StepperMax ==> r <= quantity)
    decreases |presses|
  {
    if presses != [] {
      AfterPressesBounded(Pressed(quantity, presses[0]), presses[1..]);
    }
  }

  /** Pressing `+` n times from inside [1, 10] reaches min(quantity + n, 10). */
  lemma {:induction false} PlusPressesSaturate(quantity: Int32.int32, n: nat)
    requires 1 <= quantity as int <= StepperMax
    ensures AfterPresses(quantity, seq(n, _ => Plus)) as int
         == if quantity as int + n < StepperMax then quantity as int + n else StepperMax
    decreases n
  {
    if n > 0 {
      var presses := seq(n, _ => Plus);
      assert presses[0] == Plus && presses[1..] == seq(n - 1, _ => Plus);
      PlusPressesSaturate(Pressed(quantity, Plus), n - 1);
    }
  }

  /** Pressing `-` n times from inside [1, 10] reaches max(quantity - n, 1). */
  lemma {:induction false} MinusPressesSaturate(quantity: Int32.int32, n: nat)
    requires 1 <= quantity as int <= StepperMax
    ensures AfterPresses(quantity, seq(n, _ => Minus)) as int
         == if quantity as int - n > 1 then quantity as int - n else 1
    decreases n
  {
    if n > 0 {
      var presses := seq(n, _ => Minus);
      assert presses[0] == Minus && presses[1..] == seq(n - 1, _ => Minus);
      MinusPressesSaturate(Pressed(quantity, Minus), n - 1);
    }
  }

  /**
   * A press on the card of line `k` (cards exist only for lines with a product snapshot):
   * the requested quantity, if any, goes to `updateCartItemQuantity` for that line's id.
   * Line `k` gets the pressed quantity; lines with other ids are untouched.
   */
  function PressOnLine(s: Session, k: int, button: StepperButton): (r: Session)
    requires 0 <= k < |s.cart| && s.cart[k].product.Some?
    ensures r.favorites == s.favorites && r.isLoggedIn == s.isLoggedIn
    ensures |r.cart| == |s.cart|
    ensures r.cart[k] == s.cart[k].(quantity := Pressed(s.cart[k].quantity, button))
    ensures StepperRequest(s.cart[k].quantity, button).None? ==> r == s
    ensures StepperRequest(s.cart[k].quantity, button).Some? ==>
              forall i :: 0 <= i < |s.cart| && s.cart[i].id == s.cart[k].id ==>
                r.cart[i] == s.cart[i].(quantity := Pressed(s.cart[k].quantity, button))
    ensures forall i :: 0 <= i < |s.cart| && s.cart[i].id != s.cart[k].id ==> r.cart[i] == s.cart[i]
  {
    match StepperRequest(s.cart[k].quantity, button)
    case None => s
    case Some(q) => UpdateCartItemQuantity(s, s.cart[k].id, q)
  }

  /** Every line's quantity lies in the stepper's range [1, 10]. */
  predicate QuantitiesInStepperRange(cart: seq<CartLine>) {
    forall i :: 0 <= i < |cart| ==> 1 <= cart[i].quantity as int <= StepperMax
  }

  /** Stepper presses keep every quantity of the cart in [1, 10]. */
  lemma PressKeepsStepperRange(s: Session, k: int, button: StepperButton)
    requires 0 <= k < |s.cart| && s.cart[k].product.Some?
    requires QuantitiesInStepperRange(s.cart)
    ensures QuantitiesInStepperRange(PressOnLine(s, k, button).cart)
  {
    var r := PressOnLine(s, k, button);
    forall i | 0 <= i < |r.cart| ensures 1 <= r.cart[i].quantity as int <= StepperMax {
      if s.cart[i].id == s.cart[k].id && StepperRequest(s.cart[k].quantity, button).Some? {
        assert r.cart[i].quantity == StepperRequest(s.cart[k].quantity, button).value;
      }
    }
  }

  /**
   * The count shown under the total (`cartItems.sumOf { it.quantity }`) is the item count,
   * not the number of lines: with quantities in [1, 10] the quantity sum lies between the
   * number of lines and ten times that, and equals the number of lines exactly when every
   * quantity is 1. The `Int` shown is that sum whenever ten per line fits in an `Int`.
   */
  lemma {:induction false} DisplayedCountBounds(cart: seq<CartLine>)
    requires QuantitiesInStepperRange(cart)
    ensures |cart| <= SumQuantities(cart) <= StepperMax * |cart|
    ensures SumQuantities(cart) == |cart| <==> forall i :: 0 <= i < |cart| ==> cart[i].quantity == 1
    ensures StepperMax * |cart| <= Int32.MAX ==>
              && |cart| <= CartItemCount(cart) as int <= StepperMax * |cart|
              && (CartItemCount(cart) as int == |cart| <==> forall i :: 0 <= i < |cart| ==> cart[i].quantity == 1)
  {
    if cart != [] {
      var rest := cart[1..];
      assert QuantitiesInStepperRange(rest) by {
        forall i | 0 <= i < |rest| ensures 1 <= rest[i].quantity as int <= StepperMax {
          assert rest[i] == cart[i + 1];
        }
      }
      DisplayedCountBounds(rest);
      if SumQuantities(cart) == |cart| {
        forall i | 0 <= i < |cart| ensures cart[i].quantity == 1 {
          if i > 0 { assert cart[i] == rest[i - 1]; }
        }
      }
      if forall i :: 0 <= i < |cart| ==> cart[i].quantity == 1 {
        assert forall i :: 0 <= i < |rest| ==> rest[i].quantity == 1 by {
          forall i | 0 <= i < |rest| ensures rest[i].quantity == 1 {
            assert rest[i] == cart[i + 1];
          }
        }
      }
    }
  }

  /**
   * The checkout button is enabled for a non-empty cart; the clear-cart action in the top
   * bar is shown under the same condition.
   */
  predicate CheckoutEnabled(cart: seq<CartLine>) {
    cart != []
  }

  /**
   * How the operations move the checkout button: clearing and logging out disable it,
   * adding to the cart enables it, updating a quantity or toggling a favourite leaves it,
   * and with checkout disabled the item count is 0.
   */
  lemma CheckoutFollowsOperations(s: Session, catalog: seq<Product>, productId: string,
                                  quantity: Int32.int32, size: Option<string>, color: Option<string>,
                                  lineId: string, cartItemId: string)
    ensures !CheckoutEnabled(ClearCart(s).cart) && !CheckoutEnabled(Logout(s).cart)
    ensures CheckoutEnabled(AddToCart(s, catalog, productId, quantity, size, color, lineId).cart)
    ensures CheckoutEnabled(UpdateCartItemQuantity(s, cartItemId, quantity).cart) == CheckoutEnabled(s.cart)
    ensures CheckoutEnabled(ToggleFavorite(s, catalog, productId).cart) == CheckoutEnabled(s.cart)
    ensures !CheckoutEnabled(s.cart) ==> CartItemCount(s.cart) == 0
  {
    if HasProduct(s.cart, productId) {
      var i :| 0 <= i < |s.cart| && s.cart[i].productId == productId;
    }
  }
}
