/**
 * Properties of the view-model operations that relate several calls or hold
 * across every operation: the well-formedness invariant, the item-count
 * increase of `addToCart`, merging, toggling twice, and no-ops on unknown ids.
 */
module UserViewModelProperties {
  import opened Options
  import Int32
  import opened Seqs
  import opened Products
  import opened CartItems
  import opened SampleData
  import opened UserViewModel

  // ---------------------------------------------------------------------------
  // Invariants

  /**
   * Line ids are unique, at most one line refers to each product, and every line's
   * snapshot is what the catalog lookup returns for its product id.
   */
  predicate CartWellFormed(cart: seq<CartLine>, catalog: seq<Product>) {
    && UniqueBy(cart, LineId)
    && UniqueBy(cart, LineProductId)
    && forall i :: 0 <= i < |cart| ==> cart[i].product == FindById(catalog, cart[i].productId)
  }

  /** Favourite ids are unique and every favourite is the catalog product with its id. */
  predicate FavoritesWellFormed(favorites: seq<Product>, catalog: seq<Product>) {
    && UniqueBy(favorites, ProductId)
    && forall i :: 0 <= i < |favorites| ==> FindById(catalog, favorites[i].id) == Some(favorites[i])
  }

  predicate WellFormed(s: Session, catalog: seq<Product>) {
    CartWellFormed(s.cart, catalog) && FavoritesWellFormed(s.favorites, catalog)
  }

  /** `lineId` is not the id of any line in the cart. */
  predicate FreshLineId(cart: seq<CartLine>, lineId: string) {
    forall i :: 0 <= i < |cart| ==> cart[i].id != lineId
  }

  /** The sample cart and the catalog's favourites satisfy the invariant. */
  lemma InitialSessionWellFormed()
    ensures WellFormed(InitialSession(), Catalog)
  {
    InitialCartWellFormed();
    InitialFavoritesWellFormed();
  }

  lemma InitialCartWellFormed()
    ensures CartWellFormed(InitialCart, Catalog)
  {
    InitialCartIdsUnique();
    InitialCartSnapshotsCurrent();
  }

  lemma InitialCartIdsUnique()
    ensures UniqueBy(InitialCart, LineId)
    ensures UniqueBy(InitialCart, LineProductId)
  {
  }

  lemma InitialCartSnapshotsCurrent()
    ensures forall i :: 0 <= i < |InitialCart| ==> InitialCart[i].product == FindById(Catalog, InitialCart[i].productId)
  {
    InitialCartRefersToCatalog();
    forall i | 0 <= i < |InitialCart| ensures InitialCart[i].product == FindById(Catalog, InitialCart[i].productId) {
      GetProductByIdCatalog(i);
    }
  }

  lemma InitialFavoritesWellFormed()
    ensures FavoritesWellFormed(InitialFavorites(), Catalog)
  {
    CatalogIdsUnique();
    MarkedFavoritesWellFormed(Catalog);
  }

  /** In a catalog with unique ids, the products marked favourite form well-formed favourites. */
  lemma MarkedFavoritesWellFormed(catalog: seq<Product>)
    requires UniqueBy(catalog, ProductId)
    ensures FavoritesWellFormed(Filter(catalog, MarkedFavorite), catalog)
  {
    var favorites := Filter(catalog, MarkedFavorite);
    FilterUniqueBy(catalog, MarkedFavorite, ProductId);
    forall i | 0 <= i < |favorites| ensures FindById(catalog, favorites[i].id) == Some(favorites[i]) {
      var k :| 0 <= k < |catalog| && catalog[k] == favorites[i];
      FindByIdUnique(catalog, k);
    }
  }

  lemma AddToCartPreservesWellFormed(s: Session, catalog: seq<Product>, productId: string, quantity: Int32.int32,
                                     size: Option<string>, color: Option<string>, lineId: string)
    requires CartWellFormed(s.cart, catalog)
    requires FreshLineId(s.cart, lineId)
    ensures CartWellFormed(AddToCart(s, catalog, productId, quantity, size, color, lineId).cart, catalog)
  {
    var r := AddToCart(s, catalog, productId, quantity, size, color, lineId);
    if HasProduct(s.cart, productId) {
      MapSeqUniqueBy(s.cart, Merge(productId, quantity), LineId);
      MapSeqUniqueBy(s.cart, Merge(productId, quantity), LineProductId);
    } else {
      forall i, j | 0 <= i < j < |r.cart| ensures LineId(r.cart[i]) != LineId(r.cart[j]) {
        assert r.cart[i] == s.cart[i];
        if j < |s.cart| { assert r.cart[j] == s.cart[j]; }
      }
      forall i, j | 0 <= i < j < |r.cart| ensures LineProductId(r.cart[i]) != LineProductId(r.cart[j]) {
        assert r.cart[i] == s.cart[i];
        if j < |s.cart| { assert r.cart[j] == s.cart[j]; }
      }
      forall i | 0 <= i < |r.cart| ensures r.cart[i].product == FindById(catalog, r.cart[i].productId) {
        if i < |s.cart| { assert r.cart[i] == s.cart[i]; }
      }
    }
  }

  lemma RemoveFromCartPreservesWellFormed(s: Session, catalog: seq<Product>, cartItemId: string)
    requires CartWellFormed(s.cart, catalog)
    ensures CartWellFormed(RemoveFromCart(s, cartItemId).cart, catalog)
  {
    var keep := OtherLine(cartItemId);
    FilterUniqueBy(s.cart, keep, LineId);
    FilterUniqueBy(s.cart, keep, LineProductId);
  }

  lemma UpdateCartItemQuantityPreservesWellFormed(s: Session, catalog: seq<Product>, cartItemId: string,
                                                  quantity: Int32.int32)
    requires CartWellFormed(s.cart, catalog)
    ensures CartWellFormed(UpdateCartItemQuantity(s, cartItemId, quantity).cart, catalog)
  {
    MapSeqUniqueBy(s.cart, SetQuantity(cartItemId, quantity), LineId);
    MapSeqUniqueBy(s.cart, SetQuantity(cartItemId, quantity), LineProductId);
  }

  lemma ToggleFavoritePreservesWellFormed(s: Session, catalog: seq<Product>, productId: string)
    requires FavoritesWellFormed(s.favorites, catalog)
    ensures FavoritesWellFormed(ToggleFavorite(s, catalog, productId).favorites, catalog)
  {
    var r := ToggleFavorite(s, catalog, productId);
    if IsFavorite(s.favorites, productId) {
      FilterUniqueBy(s.favorites, OtherProduct(productId), ProductId);
    } else if FindById(catalog, productId).Some? {
      forall i, j | 0 <= i < j < |r.favorites| ensures ProductId(r.favorites[i]) != ProductId(r.favorites[j]) {
        assert r.favorites[i] == s.favorites[i];
        if j < |s.favorites| { assert r.favorites[j] == s.favorites[j]; }
      }
      forall i | 0 <= i < |r.favorites| ensures FindById(catalog, r.favorites[i].id) == Some(r.favorites[i]) {
        if i < |s.favorites| { assert r.favorites[i] == s.favorites[i]; }
      }
    }
  }

  // ---------------------------------------------------------------------------
  // Item count and merging

  /**
   * On a cart with at most one line per product, merging `quantity` into the line `k`
   * of `productId` changes the exact quantity sum only by that line's change.
   */
  lemma {:induction false} MergeShiftsSum(cart: seq<CartLine>, productId: string, quantity: Int32.int32, k: int)
    requires UniqueBy(cart, LineProductId)
    requires 0 <= k < |cart| && cart[k].productId == productId
    ensures SumQuantities(MapSeq(cart, Merge(productId, quantity)))
         == SumQuantities(cart) - cart[k].quantity as int + Int32.Add(cart[k].quantity, quantity) as int
  {
    var f := Merge(productId, quantity);
    MapSeqTail(cart, f);
    var rest := cart[1..];
    UniqueByTail(cart, LineProductId);
    if k == 0 {
      forall i | 0 <= i < |rest| ensures LineProductId(rest[i]) != productId {
        assert rest[i] == cart[i + 1];
        assert LineProductId(cart[0]) != LineProductId(cart[i + 1]);
      }
      MergeSkipsOtherProducts(rest, productId, quantity);
    } else {
      assert LineProductId(cart[0]) != LineProductId(cart[k]);
      assert rest[k - 1] == cart[k];
      MergeShiftsSum(rest, productId, quantity, k - 1);
    }
  }

  /** Merging into a product no line refers to changes nothing. */
  lemma MergeSkipsOtherProducts(cart: seq<CartLine>, productId: string, quantity: Int32.int32)
    requires forall i :: 0 <= i < |cart| ==> LineProductId(cart[i]) != productId
    ensures MapSeq(cart, Merge(productId, quantity)) == cart
  {
    MapSeqIdentity(cart, Merge(productId, quantity));
  }

  /**
   * On a cart with at most one line per product, `addToCart` raises `getCartItemCount`
   * by exactly `quantity` (as a Kotlin `Int` addition), whether it merges or appends.
   */
  lemma AddToCartRaisesItemCount(s: Session, catalog: seq<Product>, productId: string, quantity: Int32.int32,
                                 size: Option<string>, color: Option<string>, lineId: string)
    requires UniqueBy(s.cart, LineProductId)
    ensures CartItemCount(AddToCart(s, catalog, productId, quantity, size, color, lineId).cart)
         == Int32.Add(CartItemCount(s.cart), quantity)
  {
    var r := AddToCart(s, catalog, productId, quantity, size, color, lineId);
    var total := SumQuantities(s.cart);
    if HasProduct(s.cart, productId) {
      var k :| 0 <= k < |s.cart| && s.cart[k].productId == productId;
      MergeShiftsSum(s.cart, productId, quantity, k);
      Int32.WrapReplaceSummand(total, s.cart[k].quantity, quantity);
    } else {
      var line := r.cart[|s.cart|];
      assert r.cart == s.cart + [line];
      SumQuantitiesAppend(s.cart, [line]);
      assert SumQuantities([line]) == quantity as int;
    }
    Int32.WrapAddLeft(total, quantity as int);
  }

  /**
   * Appending a line for a product the catalog does not know leaves the cart total
   * unchanged: such a line has no snapshot and costs nothing.
   */
  lemma AddUnknownProductKeepsTotal(s: Session, catalog: seq<Product>, productId: string, quantity: Int32.int32,
                                    size: Option<string>, color: Option<string>, lineId: string)
    requires !HasProduct(s.cart, productId)
    requires FindById(catalog, productId).None?
    ensures CartTotal(AddToCart(s, catalog, productId, quantity, size, color, lineId).cart) == CartTotal(s.cart)
  {
    var r := AddToCart(s, catalog, productId, quantity, size, color, lineId);
    var line := r.cart[|s.cart|];
    assert r.cart == s.cart + [line];
    CartTotalAppend(s.cart, [line]);
  }

  /**
   * Adding a product twice to a cart that has no line for it yields a single line
   * carrying the summed quantity and the size, colour and id of the FIRST call: the
   * second call's size and colour are ignored.
   */
  lemma AddTwiceMerges(s: Session, catalog: seq<Product>, productId: string, q1: Int32.int32, q2: Int32.int32,
                       size1: Option<string>, color1: Option<string>, id1: string,
                       size2: Option<string>, color2: Option<string>, id2: string)
    requires !HasProduct(s.cart, productId)
    ensures AddToCart(AddToCart(s, catalog, productId, q1, size1, color1, id1), catalog,
                      productId, q2, size2, color2, id2).cart
         == s.cart + [CartLine(id1, productId, FindById(catalog, productId), Int32.Add(q1, q2), size1, color1)]
  {
    var s1 := AddToCart(s, catalog, productId, q1, size1, color1, id1);
    assert s1.cart[|s.cart|].productId == productId;
    var s2 := AddToCart(s1, catalog, productId, q2, size2, color2, id2);
    var expected := s.cart + [CartLine(id1, productId, FindById(catalog, productId), Int32.Add(q1, q2), size1, color1)];
    forall i | 0 <= i < |s2.cart| ensures s2.cart[i] == expected[i] {
      if i < |s.cart| {
        assert s1.cart[i] == s.cart[i];
      }
    }
  }

  // ---------------------------------------------------------------------------
  // Unknown ids

  /** Removing an id no line carries leaves the cart unchanged. */
  lemma RemoveUnknownIdIsNoOp(s: Session, cartItemId: string)
    requires FreshLineId(s.cart, cartItemId)
    ensures RemoveFromCart(s, cartItemId) == s
  {
    FilterKeepAll(s.cart, OtherLine(cartItemId));
  }

  /** Removing a line id from a cart with unique line ids drops exactly one line. */
  lemma {:induction false} RemoveKnownIdDropsOneLine(s: Session, cartItemId: string)
    requires UniqueBy(s.cart, LineId)
    requires !FreshLineId(s.cart, cartItemId)
    ensures |RemoveFromCart(s, cartItemId).cart| == |s.cart| - 1
  {
    var k :| 0 <= k < |s.cart| && s.cart[k].id == cartItemId;
    forall i | 0 <= i < |s.cart| && i != k ensures s.cart[i].id != cartItemId {
      assert i < k ==> LineId(s.cart[i]) != LineId(s.cart[k]);
      assert k < i ==> LineId(s.cart[k]) != LineId(s.cart[i]);
    }
    FilterDropsOne(s.cart, OtherLine(cartItemId), k);
  }

  /** Updating the quantity of an id no line carries leaves the cart unchanged. */
  lemma UpdateUnknownIdIsNoOp(s: Session, cartItemId: string, quantity: Int32.int32)
    requires FreshLineId(s.cart, cartItemId)
    ensures UpdateCartItemQuantity(s, cartItemId, quantity) == s
  {
    MapSeqIdentity(s.cart, SetQuantity(cartItemId, quantity));
  }

  /**
   * Updating a line's quantity on a cart with unique line ids changes the item count by
   * the difference between the new and the old quantity (exactly, on unbounded integers).
   */
  lemma {:induction false} UpdateQuantityShiftsSum(cart: seq<CartLine>, cartItemId: string, quantity: Int32.int32, k: int)
    requires UniqueBy(cart, LineId)
    requires 0 <= k < |cart| && cart[k].id == cartItemId
    ensures SumQuantities(MapSeq(cart, SetQuantity(cartItemId, quantity)))
         == SumQuantities(cart) - cart[k].quantity as int + quantity as int
  {
    var f := SetQuantity(cartItemId, quantity);
    MapSeqTail(cart, f);
    var rest := cart[1..];
    assert UniqueBy(rest, LineId) by {
      forall i, j | 0 <= i < j < |rest| ensures LineId(rest[i]) != LineId(rest[j]) {
        assert rest[i] == cart[i + 1] && rest[j] == cart[j + 1];
      }
    }
    if k == 0 {
      forall i | 0 <= i < |rest| ensures f(rest[i]) == rest[i] {
        assert rest[i] == cart[i + 1];
        assert LineId(cart[0]) != LineId(cart[i + 1]);
      }
      MapSeqIdentity(rest, f);
    } else {
      assert LineId(cart[0]) != LineId(cart[k]);
      assert rest[k - 1] == cart[k];
      UpdateQuantityShiftsSum(rest, cartItemId, quantity, k - 1);
    }
  }

  // ---------------------------------------------------------------------------
  // Favourites

  /** Toggling an id that is not favourited twice restores the favourites exactly. */
  lemma ToggleTwiceFromAbsent(s: Session, catalog: seq<Product>, productId: string)
    requires !IsFavorite(s.favorites, productId)
    ensures ToggleFavorite(ToggleFavorite(s, catalog, productId), catalog, productId) == s
  {
    if FindById(catalog, productId).Some? {
      var p := FindById(catalog, productId).value;
      var keep := (x: Product) => x.id != productId;
      FilterAppend(s.favorites, [p], keep);
      FilterKeepAll(s.favorites, keep);
    }
  }

  /** Toggling a catalog id twice restores whether it is favourited. */
  lemma ToggleTwiceRestoresMembership(s: Session, catalog: seq<Product>, productId: string)
    requires FindById(catalog, productId).Some?
    ensures IsFavorite(ToggleFavorite(ToggleFavorite(s, catalog, productId), catalog, productId).favorites, productId)
        == IsFavorite(s.favorites, productId)
  {
    if !IsFavorite(s.favorites, productId) {
      ToggleTwiceFromAbsent(s, catalog, productId);
    }
  }

  /**
   * On well-formed favourites, toggling a favourited id twice keeps the same products
   * (the product moves to the end of the list).
   */
  lemma ToggleTwiceFromPresent(s: Session, catalog: seq<Product>, productId: string)
    requires FavoritesWellFormed(s.favorites, catalog)
    requires IsFavorite(s.favorites, productId)
    ensures forall p: Product :: p in ToggleFavorite(ToggleFavorite(s, catalog, productId), catalog, productId).favorites
                                 <==> p in s.favorites
  {
    var s1 := ToggleFavorite(s, catalog, productId);
    var s2 := ToggleFavorite(s1, catalog, productId);
    var k :| 0 <= k < |s.favorites| && s.favorites[k].id == productId;
    var q := s.favorites[k];
    assert FindById(catalog, productId) == Some(q);
    assert s2.favorites == s1.favorites + [q];
    forall p: Product ensures p in s2.favorites <==> p in s.favorites {
      assert p in s1.favorites <==> multiset(s1.favorites)[p] > 0;
      assert p in s.favorites <==> multiset(s.favorites)[p] > 0;
      if p in s.favorites && p.id == productId {
        var j :| 0 <= j < |s.favorites| && s.favorites[j] == p;
        assert FindById(catalog, productId) == Some(p);
      }
    }
  }

  // ---------------------------------------------------------------------------
  // Every operation, and every sequence of operations

  /** One call into the view model; `AddToCart` carries the line id the clock would supply. */
  datatype Action =
    | DoLogin(email: string, password: string)
    | DoLogout
    | DoAddToCart(productId: string, quantity: Int32.int32, size: Option<string>,
                  color: Option<string>, lineId: string)
    | DoRemoveFromCart(cartItemId: string)
    | DoUpdateCartItemQuantity(cartItemId: string, quantity: Int32.int32)
    | DoToggleFavorite(productId: string)
    | DoClearCart

  function Apply(s: Session, catalog: seq<Product>, a: Action): Session {
    match a
    case DoLogin(email, password) => Login(s, email, password)
    case DoLogout => Logout(s)
    case DoAddToCart(productId, quantity, size, color, lineId) =>
      AddToCart(s, catalog, productId, quantity, size, color, lineId)
    case DoRemoveFromCart(cartItemId) => RemoveFromCart(s, cartItemId)
    case DoUpdateCartItemQuantity(cartItemId, quantity) => UpdateCartItemQuantity(s, cartItemId, quantity)
    case DoToggleFavorite(productId) => ToggleFavorite(s, catalog, productId)
    case DoClearCart => ClearCart(s)
  }

  /** The actions applied one after another, each to the result of the previous one. */
  function Run(s: Session, catalog: seq<Product>, actions: seq<Action>): Session
    decreases |actions|
  {
    if actions == [] then s else Run(Apply(s, catalog, actions[0]), catalog, actions[1..])
  }

  /** Every `addToCart` in the run is given a line id not already in the cart it updates. */
  predicate FreshIdsIn(s: Session, catalog: seq<Product>, actions: seq<Action>)
    decreases |actions|
  {
    actions != [] ==>
      && (actions[0].DoAddToCart? ==> FreshLineId(s.cart, actions[0].lineId))
      && FreshIdsIn(Apply(s, catalog, actions[0]), catalog, actions[1..])
  }

  /** Every single view-model operation preserves the invariant (given a fresh line id). */
  lemma ApplyPreservesWellFormed(s: Session, catalog: seq<Product>, a: Action)
    requires WellFormed(s, catalog)
    requires a.DoAddToCart? ==> FreshLineId(s.cart, a.lineId)
    ensures WellFormed(Apply(s, catalog, a), catalog)
  {
    match a
    case DoLogin(_, _) =>
    case DoLogout =>
    case DoAddToCart(productId, quantity, size, color, lineId) =>
      AddToCartPreservesWellFormed(s, catalog, productId, quantity, size, color, lineId);
    case DoRemoveFromCart(cartItemId) =>
      RemoveFromCartPreservesWellFormed(s, catalog, cartItemId);
    case DoUpdateCartItemQuantity(cartItemId, quantity) =>
      UpdateCartItemQuantityPreservesWellFormed(s, catalog, cartItemId, quantity);
    case DoToggleFavorite(productId) =>
      ToggleFavoritePreservesWellFormed(s, catalog, productId);
    case DoClearCart =>
  }

  /** Any run with fresh line ids keeps the invariant. */
  lemma {:induction false} RunPreservesWellFormed(s: Session, catalog: seq<Product>, actions: seq<Action>)
    requires WellFormed(s, catalog)
    requires FreshIdsIn(s, catalog, actions)
    ensures WellFormed(Run(s, catalog, actions), catalog)
    decreases |actions|
  {
    if actions != [] {
      ApplyPreservesWellFormed(s, catalog, actions[0]);
      RunPreservesWellFormed(Apply(s, catalog, actions[0]), catalog, actions[1..]);
    }
  }

  /**
   * Every operation keeps at most one line per product, whatever line ids `addToCart` is
   * given: two clock readings that collide cannot break this part of the invariant.
   */
  lemma ApplyKeepsProductUnique(s: Session, catalog: seq<Product>, a: Action)
    requires UniqueBy(s.cart, LineProductId)
    ensures UniqueBy(Apply(s, catalog, a).cart, LineProductId)
  {
    match a
    case DoLogin(_, _) =>
    case DoLogout =>
    case DoAddToCart(productId, quantity, size, color, lineId) =>
      var r := AddToCart(s, catalog, productId, quantity, size, color, lineId);
      if HasProduct(s.cart, productId) {
        MapSeqUniqueBy(s.cart, Merge(productId, quantity), LineProductId);
      } else {
        forall i, j | 0 <= i < j < |r.cart| ensures LineProductId(r.cart[i]) != LineProductId(r.cart[j]) {
          assert r.cart[i] == s.cart[i];
          if j < |s.cart| { assert r.cart[j] == s.cart[j]; }
        }
      }
    case DoRemoveFromCart(cartItemId) =>
      FilterUniqueBy(s.cart, OtherLine(cartItemId), LineProductId);
    case DoUpdateCartItemQuantity(cartItemId, quantity) =>
      MapSeqUniqueBy(s.cart, SetQuantity(cartItemId, quantity), LineProductId);
    case DoToggleFavorite(productId) =>
    case DoClearCart =>
  }

  /** Any run keeps at most one line per product, with no condition on line ids. */
  lemma {:induction false} RunKeepsProductUnique(s: Session, catalog: seq<Product>, actions: seq<Action>)
    requires UniqueBy(s.cart, LineProductId)
    ensures UniqueBy(Run(s, catalog, actions).cart, LineProductId)
    decreases |actions|
  {
    if actions != [] {
      ApplyKeepsProductUnique(s, catalog, actions[0]);
      RunKeepsProductUnique(Apply(s, catalog, actions[0]), catalog, actions[1..]);
    }
  }

  /**
   * From any session with at most one line per product (the app's initial one has it, by
   * `InitialCartWellFormed`), every `addToCart` after any run of operations raises the item
   * count by its quantity, even when line ids repeat.
   */
  lemma AddToCartInRunRaisesItemCount(s: Session, catalog: seq<Product>, actions: seq<Action>,
                                      productId: string, quantity: Int32.int32,
                                      size: Option<string>, color: Option<string>, lineId: string)
    requires UniqueBy(s.cart, LineProductId)
    ensures var after := Run(s, catalog, actions);
            CartItemCount(AddToCart(after, catalog, productId, quantity, size, color, lineId).cart)
            == Int32.Add(CartItemCount(after.cart), quantity)
  {
    RunKeepsProductUnique(s, catalog, actions);
    AddToCartRaisesItemCount(Run(s, catalog, actions), catalog, productId, quantity, size, color, lineId);
  }
}
