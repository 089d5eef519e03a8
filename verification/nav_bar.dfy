/**
 * The floating bottom bar (ui/components/FloatingBottomBar.kt) and the home screen's cart
 * badge (ui/screens/home/HomeScreen.kt): the cart item's badge count and label, which item
 * is selected, and when a click navigates.
 */
module NavBar {
  import opened Options
  import Int32
  import opened Text
  import Routes
  import opened CartItems
  import opened UserViewModel

  /** A bar item (`NavItem`); the icon is left out. */
  datatype NavItem = NavItem(route: string, title: string, badgeCount: Option<Int32.int32>)

  const HomeItem: NavItem := NavItem(Routes.Home, "Home", None)
  const SearchItem: NavItem := NavItem(Routes.Products, "Search", None)
  const CartItem: NavItem := NavItem(Routes.Cart, "Cart", None)
  const ProfileItem: NavItem := NavItem(Routes.Profile, "Profile", None)

  /** The cart item's badge count: the item count when it is positive, otherwise absent. */
  function CartBadgeCount(cart: seq<CartLine>): (r: Option<Int32.int32>)
    ensures r.Some? <==> CartItemCount(cart) > 0
    ensures r.Some? ==> r.value == CartItemCount(cart)
  {
    var count := CartItemCount(cart);
    if count > 0 then Some(count) else None
  }

  /** The bar's items for a cart: home, search, cart with its badge count, profile. */
  function BarItems(cart: seq<CartLine>): (r: seq<NavItem>)
    ensures |r| == 4
    ensures r[2].route == Routes.Cart && r[2].badgeCount == CartBadgeCount(cart)
    ensures forall i :: 0 <= i < |r| && i != 2 ==> r[i].badgeCount == None
  {
    [HomeItem, SearchItem, CartItem.(badgeCount := CartBadgeCount(cart)), ProfileItem]
  }

  /**
   * The badge text of an item: shown only for a present, positive count; "9+" above nine,
   * otherwise the count's decimal digits, which read back as the count.
   */
  function BadgeLabel(item: NavItem): (r: Option<string>)
    ensures r.Some? <==> item.badgeCount.Some? && item.badgeCount.value > 0
    ensures r.Some? ==> 1 <= |r.value| <= 2
    ensures r.Some? ==> (r.value == "9+" <==> item.badgeCount.value > 9)
    ensures r.Some? && item.badgeCount.value <= 9 ==> ParseInt(r.value) == Some(item.badgeCount.value as int)
    ensures r.Some? && item.badgeCount.value <= 9 ==> CanonicalDecimal(r.value)
  {
    match item.badgeCount
    case Some(count) =>
      if count <= 0 then None
      else if count > 9 then Some("9+")
      else
        ParseIntRoundTrip(count as int);
        Some(IntToDecimal(count as int))
    case None => None
  }

  /** An item is highlighted when the current destination's route is its route. */
  predicate IsSelected(current: Option<string>, item: NavItem) {
    current == Some(item.route)
  }

  /** A click navigates to the item's route unless that is already the current route. */
  function OnClick(current: Option<string>, item: NavItem): (r: Option<string>)
    ensures r.Some? <==> !IsSelected(current, item)
    ensures r.Some? ==> r.value == item.route
  {
    if current != Some(item.route) then Some(item.route) else None
  }

  /** After the navigation a click causes, the item is selected and a second click does nothing. */
  lemma ClickTwiceNavigatesOnce(current: Option<string>, item: NavItem)
    ensures var next := if OnClick(current, item).Some? then OnClick(current, item) else current;
            IsSelected(next, item) && OnClick(next, item) == None
  {
  }

  /** The bar's routes are distinct, so at most one of its items is selected. */
  lemma AtMostOneSelected(current: Option<string>, cart: seq<CartLine>)
    ensures forall i, j :: 0 <= i < j < |BarItems(cart)| ==>
              !(IsSelected(current, BarItems(cart)[i]) && IsSelected(current, BarItems(cart)[j]))
  {
    var items := BarItems(cart);
    Routes.RoutesDistinct();
    assert items[0].route == Routes.AllRoutes[3];
    assert items[1].route == Routes.AllRoutes[4];
    assert items[2].route == Routes.AllRoutes[5];
    assert items[3].route == Routes.AllRoutes[6];
  }

  /** The home screen's cart badge: the item count's digits, shown when the count is positive. */
  function HomeBadgeLabel(cart: seq<CartLine>): (r: Option<string>)
    ensures r.Some? <==> CartItemCount(cart) > 0
    ensures r.Some? ==> ParseInt(r.value) == Some(CartItemCount(cart) as int)
    ensures r.Some? ==> CanonicalDecimal(r.value)
  {
    var count := CartItemCount(cart);
    if count > 0 then
      ParseIntRoundTrip(count as int);
      Some(IntToDecimal(count as int))
    else None
  }

  /**
   * The home screen and the bar show a cart badge in the same situations; their labels agree
   * up to nine items, above which the bar shows "9+" and the home screen the full count.
   */
  lemma CartBadgesAgree(cart: seq<CartLine>)
    ensures HomeBadgeLabel(cart).Some? <==> BadgeLabel(BarItems(cart)[2]).Some?
    ensures CartItemCount(cart) <= 9 ==> HomeBadgeLabel(cart) == BadgeLabel(BarItems(cart)[2])
    ensures CartItemCount(cart) > 9 ==>
              BadgeLabel(BarItems(cart)[2]) == Some("9+") && HomeBadgeLabel(cart).value != "9+"
  {
    var home := HomeBadgeLabel(cart);
    if CartItemCount(cart) > 9 {
      assert home.value[1] != '+';
    }
  }
}
