/**
 * The navigation routes of `Screen` (ui/navigation/Screen.kt): seven fixed routes,
 * the product-detail route template, and `ProductDetail.createRoute`.
 */
module Routes {
  import opened Options
  import opened Text
  import Int32

  const Splash: string := "splash"
  const Login: string := "login"
  const Register: string := "register"
  const Home: string := "home"
  const Products: string := "products"
  const Cart: string := "cart"
  const Profile: string := "profile"
  const ProductDetail: string := "product_detail/{productId}"

  /** The text `createRoute` puts in front of the product id. */
  const ProductDetailPrefix: string := "product_detail/"

  /** The route of every `Screen` object, in declaration order. */
  const AllRoutes: seq<string> := [Splash, Login, Register, Home, Products, Cart, Profile, ProductDetail]

  /**
   * `ProductDetail.createRoute(productId: Int)`: the prefix followed by the id as Kotlin
   * renders an `Int` in a string template. The id can be read back from the route.
   */
  function CreateRoute(productId: Int32.int32): (r: string)
    ensures |r| > |ProductDetailPrefix| && r[..|ProductDetailPrefix|] == ProductDetailPrefix
    ensures ProductIdOfRoute(r) == Some(productId)
    ensures CanonicalDecimal(r[|ProductDetailPrefix|..])
  {
    var digits := IntToDecimal(productId as int);
    var r := ProductDetailPrefix + digits;
    assert r[..|ProductDetailPrefix|] == ProductDetailPrefix;
    assert r[|ProductDetailPrefix|..] == digits;
    ParseIntRoundTrip(productId as int);
    r
  }

  /**
   * The `productId` argument a product-detail route carries: the text after the prefix,
   * read as a decimal `Int`; absent for any other route.
   */
  function ProductIdOfRoute(route: string): Option<Int32.int32> {
    var n := |ProductDetailPrefix|;
    if |route| < n || route[..n] != ProductDetailPrefix then None
    else
      match ParseInt(route[n..])
      case Some(v) =>
        if Int32.MIN <= v <= Int32.MAX then Some(v as Int32.int32) else None
      case None => None
  }

  /** `createRoute` is the only way to write a product's route canonically. */
  lemma CanonicalRouteIsCreated(route: string, productId: Int32.int32)
    requires ProductIdOfRoute(route) == Some(productId)
    requires CanonicalDecimal(route[|ProductDetailPrefix|..])
    ensures route == CreateRoute(productId)
  {
    var n := |ProductDetailPrefix|;
    CanonicalDecimalUnique(route[n..], productId as int);
    assert route == route[..n] + route[n..];
  }

  /** Distinct product ids give distinct routes. */
  lemma CreateRouteInjective(a: Int32.int32, b: Int32.int32)
    requires CreateRoute(a) == CreateRoute(b)
    ensures a == b
  {
    assert ProductIdOfRoute(CreateRoute(a)) == Some(a);
  }

  /** The eight `Screen` routes are pairwise distinct. */
  lemma RoutesDistinct()
    ensures forall i, j :: 0 <= i < j < |AllRoutes| ==> AllRoutes[i] != AllRoutes[j]
  {
  }

  /**
   * A route built by `createRoute` is never one of the `Screen` routes, not even the
   * template: the character after the prefix is a digit or a minus sign, never `{`.
   */
  lemma CreateRouteNotAScreenRoute(productId: Int32.int32)
    ensures forall i :: 0 <= i < |AllRoutes| ==> CreateRoute(productId) != AllRoutes[i]
  {
    var r := CreateRoute(productId);
    var n := |ProductDetailPrefix|;
    assert r[n] == IntToDecimal(productId as int)[0];
    assert ProductDetail[n] == '{';
    forall i | 0 <= i < |AllRoutes| ensures r != AllRoutes[i] {
      if i < 7 {
        assert |AllRoutes[i]| <= n;
      }
    }
  }
}
