/**
 * The cart, favourites and session state of `UserViewModel`
 * (viewmodel/UserViewModel.kt). Every operation of the view model replaces one
 * immutable list by a new one in a single update; here each is a pure function
 * from the old session to the new one.
 *
 * The two operations that consult `SampleData.getProductById` take the product list
 * it searches as a parameter `catalog`; the app always passes `SampleData.Catalog`.
 */
module UserViewModel {
  import opened Options
  import Int32
  import opened Seqs
  import opened Products
  import opened CartItems
  import opened SampleData

  /** The observable state: cart lines in insertion order, favourite products, login flag. */
  datatype Session = Session(cart: seq<CartLine>, favorites: seq<Product>, isLoggedIn: bool)

  /** The view model as constructed: the sample cart, the catalog's favourite products, logged out. */
  function InitialSession(): Session {
    Session(InitialCart, InitialFavorites(), false)
  }

  function LineId(line: CartLine): string {
    line.id
  }

  function LineProductId(line: CartLine): string {
    line.productId
  }

  /** Some line of the cart refers to `productId` (Kotlin `find { it.productId == productId } != null`). */
  predicate HasProduct(cart: seq<CartLine>, productId: string) {
    exists i :: 0 <= i < |cart| && cart[i].productId == productId
  }

  /** Some favourite has id `productId` (Kotlin `any { it.id == productId }`). */
  predicate IsFavorite(favorites: seq<Product>, productId: string) {
    exists i :: 0 <= i < |favorites| && favorites[i].id == productId
  }

  // ---------------------------------------------------------------------------
  // Session operations

  /** `login`: the session becomes logged in; the credentials are not checked. */
  function Login(s: Session, email: string, password: string): (r: Session)
    ensures r.isLoggedIn
    ensures r.cart == s.cart && r.favorites == s.favorites
  {
    s.(isLoggedIn := true)
  }

  /** `logout`: the session becomes logged out and the cart is emptied; favourites stay. */
  function Logout(s: Session): (r: Session)
    ensures !r.isLoggedIn
    ensures r.cart == [] && r.favorites == s.favorites
    ensures CartItemCount(r.cart) == 0 && CartTotal(r.cart) == 0.0
  {
    s.(isLoggedIn := false, cart := [])
  }

  /** `clearCart`: the cart becomes empty; nothing else changes. */
  function ClearCart(s: Session): (r: Session)
    ensures r.cart == []
    ensures r.favorites == s.favorites && r.isLoggedIn == s.isLoggedIn
    ensures CartItemCount(r.cart) == 0 && CartTotal(r.cart) == 0.0
  {
    s.(cart := [])
  }

  /**
   * `addToCart`. If some line already refers to `productId`, every such line gets
   * `quantity` more units (with `Int` wrap-around) and nothing else changes: the given
   * size and colour are ignored and no line is added. Otherwise one line is appended
   * with the caller-supplied fresh id `lineId`, the given quantity, size and colour,
   * and the catalog snapshot of the product (absent for an unknown id).
   */
  function AddToCart(s: Session, catalog: seq<Product>, productId: string, quantity: Int32.int32,
                     size: Option<string>, color: Option<string>, lineId: string): (r: Session)
    ensures r.favorites == s.favorites && r.isLoggedIn == s.isLoggedIn
    ensures !HasProduct(s.cart, productId) ==>
              && |r.cart| == |s.cart| + 1
              && r.cart[..|s.cart|] == s.cart
              && r.cart[|s.cart|] == CartLine(lineId, productId, FindById(catalog, productId), quantity, size, color)
    ensures HasProduct(s.cart, productId) ==>
              && |r.cart| == |s.cart|
              && (forall i :: 0 <= i < |s.cart| ==> r.cart[i].(quantity := s.cart[i].quantity) == s.cart[i])
              && (forall i :: 0 <= i < |s.cart| && s.cart[i].productId != productId ==>
                    r.cart[i].quantity == s.cart[i].quantity)
              && (forall i :: 0 <= i < |s.cart| && s.cart[i].productId == productId ==>
                    r.cart[i].quantity == Int32.Add(s.cart[i].quantity, quantity))
  {
    if HasProduct(s.cart, productId) then
      s.(cart := MapSeq(s.cart, Merge(productId, quantity)))
    else
      var line := CartLine(lineId, productId, FindById(catalog, productId), quantity, size, color);
      assert (s.cart + [line])[..|s.cart|] == s.cart;
      s.(cart := s.cart + [line])
  }

  /** The per-line update `addToCart` maps over an existing cart. */
  function Merge(productId: string, quantity: Int32.int32): CartLine -> CartLine {
    (line: CartLine) =>
      if line.productId == productId then line.(quantity := Int32.Add(line.quantity, quantity)) else line
  }

  /** `removeFromCart`: exactly the lines with a different id, in their original order. */
  function RemoveFromCart(s: Session, cartItemId: string): (r: Session)
    ensures r.favorites == s.favorites && r.isLoggedIn == s.isLoggedIn
    ensures forall i :: 0 <= i < |r.cart| ==> r.cart[i].id != cartItemId && r.cart[i] in s.cart
    ensures forall i :: 0 <= i < |s.cart| && s.cart[i].id != cartItemId ==> s.cart[i] in r.cart
    ensures forall line :: multiset(r.cart)[line] == if line.id != cartItemId then multiset(s.cart)[line] else 0
    ensures IsSubsequence(r.cart, s.cart)
  {
    FilterCounts(s.cart, OtherLine(cartItemId));
    s.(cart := Filter(s.cart, OtherLine(cartItemId)))
  }

  /** The test `removeFromCart` filters with: the line does not carry the id. */
  function OtherLine(cartItemId: string): CartLine -> bool {
    (line: CartLine) => line.id != cartItemId
  }

  /**
   * `updateCartItemQuantity`: every line with the given id gets exactly the given
   * quantity (zero and negative values included); every other field and line is kept.
   */
  function UpdateCartItemQuantity(s: Session, cartItemId: string, quantity: Int32.int32): (r: Session)
    ensures r.favorites == s.favorites && r.isLoggedIn == s.isLoggedIn
    ensures |r.cart| == |s.cart|
    ensures forall i :: 0 <= i < |s.cart| ==> r.cart[i].(quantity := s.cart[i].quantity) == s.cart[i]
    ensures forall i :: 0 <= i < |s.cart| && s.cart[i].id == cartItemId ==> r.cart[i].quantity == quantity
    ensures forall i :: 0 <= i < |s.cart| && s.cart[i].id != cartItemId ==> r.cart[i] == s.cart[i]
  {
    s.(cart := MapSeq(s.cart, SetQuantity(cartItemId, quantity)))
  }

  /** The per-line update `updateCartItemQuantity` maps over the cart. */
  function SetQuantity(cartItemId: string, quantity: Int32.int32): CartLine -> CartLine {
    (line: CartLine) => if line.id == cartItemId then line.(quantity := quantity) else line
  }

  /**
   * `toggleFavorite`: a favourited id is removed (every product with it); otherwise
   * the catalog product with that id is appended, and an id the catalog does not
   * know leaves the favourites as they are. The cart and login flag never change.
   */
  function ToggleFavorite(s: Session, catalog: seq<Product>, productId: string): (r: Session)
    ensures r.cart == s.cart && r.isLoggedIn == s.isLoggedIn
    ensures IsFavorite(s.favorites, productId) ==>
              && !IsFavorite(r.favorites, productId)
              && IsSubsequence(r.favorites, s.favorites)
              && (forall i :: 0 <= i < |s.favorites| && s.favorites[i].id != productId ==>
                    s.favorites[i] in r.favorites)
              && forall p :: multiset(r.favorites)[p] == if p.id != productId then multiset(s.favorites)[p] else 0
    ensures !IsFavorite(s.favorites, productId) && FindById(catalog, productId).Some? ==>
              && IsFavorite(r.favorites, productId)
              && r.favorites == s.favorites + [FindById(catalog, productId).value]
    ensures !IsFavorite(s.favorites, productId) && FindById(catalog, productId).None? ==>
              r.favorites == s.favorites
  {
    if IsFavorite(s.favorites, productId) then
      FilterCounts(s.favorites, OtherProduct(productId));
      s.(favorites := Filter(s.favorites, OtherProduct(productId)))
    else
      match FindById(catalog, productId)
      case Some(p) =>
        assert (s.favorites + [p])[|s.favorites|].id == productId;
        s.(favorites := s.favorites + [p])
      case None => s
  }

  /** The test the removal branch of `toggleFavorite` filters with: the product has another id. */
  function OtherProduct(productId: string): Product -> bool {
    (p: Product) => p.id != productId
  }

  // ---------------------------------------------------------------------------
  // Derived totals

  /** The exact (unbounded) sum of the line quantities. */
  function SumQuantities(cart: seq<CartLine>): int {
    if cart == [] then 0 else cart[0].quantity as int + SumQuantities(cart[1..])
  }

  /** The item count as a Kotlin `Int`: the quantity sum, wrapped to 32 bits. */
  function CartItemCount(cart: seq<CartLine>): Int32.int32 {
    Int32.Wrap(SumQuantities(cart))
  }

  /** The exact sum of the line totals. */
  function CartTotal(cart: seq<CartLine>): real {
    if cart == [] then 0.0 else TotalPrice(cart[0]) + CartTotal(cart[1..])
  }

  lemma {:induction false} SumQuantitiesAppend(a: seq<CartLine>, b: seq<CartLine>)
    ensures SumQuantities(a + b) == SumQuantities(a) + SumQuantities(b)
  {
    if a == [] {
      assert a + b == b;
    } else {
      assert (a + b)[1..] == a[1..] + b;
      SumQuantitiesAppend(a[1..], b);
    }
  }

  lemma {:induction false} CartTotalAppend(a: seq<CartLine>, b: seq<CartLine>)
    ensures CartTotal(a + b) == CartTotal(a) + CartTotal(b)
  {
    if a == [] {
      assert a + b == b;
    } else {
      assert (a + b)[1..] == a[1..] + b;
      CartTotalAppend(a[1..], b);
    }
  }

  /**
   * `getCartItemCount`: `sumOf { it.quantity }`, accumulated left to right in an `Int`.
   * The result is the wrapped quantity sum, and 0 for an empty cart.
   */
  method GetCartItemCount(s: Session) returns (count: Int32.int32)
    ensures count == CartItemCount(s.cart)
    ensures Int32.MIN <= SumQuantities(s.cart) <= Int32.MAX ==> count as int == SumQuantities(s.cart)
    ensures s.cart == [] ==> count == 0
  {
    count := 0;
    var i := 0;
    while i < |s.cart|
      invariant 0 <= i <= |s.cart|
      invariant count == Int32.Wrap(SumQuantities(s.cart[..i]))
    {
      assert s.cart[..i + 1] == s.cart[..i] + [s.cart[i]];
      SumQuantitiesAppend(s.cart[..i], [s.cart[i]]);
      Int32.WrapAddLeft(SumQuantities(s.cart[..i]), s.cart[i].quantity as int);
      count := Int32.Add(count, s.cart[i].quantity);
      i := i + 1;
    }
    assert s.cart[..i] == s.cart;
  }

  /** `getCartTotal`: `sumOf { it.totalPrice }`, accumulated left to right; 0 for an empty cart. */
  method GetCartTotal(s: Session) returns (total: real)
    ensures total == CartTotal(s.cart)
    ensures s.cart == [] ==> total == 0.0
  {
    total := 0.0;
    var i := 0;
    while i < |s.cart|
      invariant 0 <= i <= |s.cart|
      invariant total == CartTotal(s.cart[..i])
    {
      assert s.cart[..i + 1] == s.cart[..i] + [s.cart[i]];
      CartTotalAppend(s.cart[..i], [s.cart[i]]);
      total := total + TotalPrice(s.cart[i]);
      i := i + 1;
    }
    assert s.cart[..i] == s.cart;
  }
}
