/**
 * The hard-coded catalog and initial cart (data/model/SampleData.kt) and the two
 * catalog queries.
 */
module SampleData {
  import opened Options
  import opened Seqs
  import opened Products
  import opened CartItems

  /** The eight catalog products, in catalog order. No product declares tags. */
  const Catalog: seq<Product> := [
    ClassicWhiteTShirt(), DenimJacket(), SummerDress(), Sneakers(),
    WinterCoat(), CasualPants(), LeatherHandbag(), SportsWatch()
  ]

  function ClassicWhiteTShirt(): Product {
    Product("1", "Classic White T-Shirt", "Premium cotton white t-shirt for everyday wear",
      24.99, Some(29.99), Some(17), "T-Shirts", [], false)
  }

  function DenimJacket(): Product {
    Product("2", "Denim Jacket", "Vintage style denim jacket with modern fit",
      79.99, None, None, "Jackets", [], true)
  }

  function SummerDress(): Product {
    Product("3", "Summer Dress", "Floral print summer dress for beach and casual wear",
      49.99, Some(59.99), Some(17), "Dresses", [], false)
  }

  function Sneakers(): Product {
    Product("4", "Sneakers", "Comfortable running sneakers with cushion technology",
      89.99, None, None, "Shoes", [], true)
  }

  function WinterCoat(): Product {
    Product("5", "Winter Coat", "Warm winter coat with waterproof material",
      129.99, Some(159.99), Some(19), "Coats", [], false)
  }

  function CasualPants(): Product {
    Product("6", "Casual Pants", "Comfortable casual pants for office and leisure",
      44.99, None, None, "Pants", [], false)
  }

  function LeatherHandbag(): Product {
    Product("7", "Leather Handbag", "Genuine leather handbag with multiple compartments",
      99.99, Some(129.99), Some(23), "Bags", [], false)
  }

  function SportsWatch(): Product {
    Product("8", "Sports Watch", "Waterproof sports watch with heart rate monitor",
      149.99, None, None, "Accessories", [], false)
  }

  /** The cart the view model starts with: three lines for products "1", "2" and "3". */
  const InitialCart: seq<CartLine> := [
    CartLine("cart_001", "1", Some(Catalog[0]), 2, Some("M"), Some("White")),
    CartLine("cart_002", "2", Some(Catalog[1]), 1, Some("L"), Some("Blue")),
    CartLine("cart_003", "3", Some(Catalog[2]), 1, Some("S"), Some("Red"))
  ]

  /** Each sample cart line refers to the catalog product at the same position and carries its snapshot. */
  lemma InitialCartRefersToCatalog()
    ensures |InitialCart| == 3
    ensures forall i :: 0 <= i < |InitialCart| ==>
              InitialCart[i].productId == Catalog[i].id && InitialCart[i].product == Some(Catalog[i])
  {
  }

  function ProductId(p: Product): string {
    p.id
  }

  /** Kotlin `ps.find { it.id == id }`: the first product with that id, if any. */
  function FindById(ps: seq<Product>, id: string): (r: Option<Product>)
    ensures r.None? <==> forall i :: 0 <= i < |ps| ==> ps[i].id != id
    ensures r.Some? ==> exists i :: 0 <= i < |ps| && ps[i] == r.value && r.value.id == id
                                   && forall j :: 0 <= j < i ==> ps[j].id != id
  {
    if ps == [] then None
    else if ps[0].id == id then Some(ps[0])
    else
      var r := FindById(ps[1..], id);
      assert r.Some? ==> exists i :: 0 <= i < |ps| && ps[i] == r.value && r.value.id == id
                                    && forall j :: 0 <= j < i ==> ps[j].id != id by {
        if r.Some? {
          var i :| 0 <= i < |ps[1..]| && ps[1..][i] == r.value && r.value.id == id
                   && forall j :: 0 <= j < i ==> ps[1..][j].id != id;
          assert ps[i + 1] == r.value;
          forall j | 0 <= j < i + 1 ensures ps[j].id != id {
            if j > 0 { assert ps[j] == ps[1..][j - 1]; }
          }
        }
      }
      r
  }

  /** `SampleData.getProductById`: catalog lookup by id. */
  function GetProductById(id: string): (r: Option<Product>)
    ensures r.None? <==> forall p :: p in Catalog ==> p.id != id
    ensures r.Some? ==> r.value.id == id && r.value in Catalog
  {
    FindByIdMembership(Catalog, id);
    FindById(Catalog, id)
  }

  /** `FindById` in terms of list membership: absent exactly when no listed product has the id. */
  lemma FindByIdMembership(ps: seq<Product>, id: string)
    ensures FindById(ps, id).None? <==> forall p :: p in ps ==> p.id != id
    ensures FindById(ps, id).Some? ==> FindById(ps, id).value.id == id && FindById(ps, id).value in ps
  {
  }

  /**
   * `products.filter { it.category == category }` over a product list: exactly the
   * products of that category, in list order.
   */
  function ProductsInCategory(ps: seq<Product>, category: string): (r: seq<Product>)
    ensures forall i :: 0 <= i < |r| ==> r[i] in ps && r[i].category == category
    ensures forall i :: 0 <= i < |ps| && ps[i].category == category ==> ps[i] in r
    ensures forall p :: multiset(r)[p] == if p.category == category then multiset(ps)[p] else 0
    ensures IsSubsequence(r, ps)
  {
    FilterCounts(ps, InCategory(category));
    Filter(ps, InCategory(category))
  }

  /** The test `getProductsByCategory` filters with. */
  function InCategory(category: string): Product -> bool {
    (p: Product) => p.category == category
  }

  /** `SampleData.getProductsByCategory`: the catalog products of one category. */
  function GetProductsByCategory(category: string): (r: seq<Product>)
    ensures forall p :: p in r <==> p in Catalog && p.category == category
    ensures IsSubsequence(r, Catalog)
    ensures forall p :: multiset(r)[p] == if p.category == category then multiset(Catalog)[p] else 0
  {
    ProductsInCategory(Catalog, category)
  }

  /** The id of the product at catalog position `i`: the digit `i + 1`. */
  function IdAt(i: int): string
    requires 0 <= i < 8
  {
    [('1' as int + i) as char]
  }

  /** The catalog holds eight products whose ids count up from "1". */
  lemma CatalogIdLayout()
    ensures |Catalog| == 8
    ensures forall i :: 0 <= i < |Catalog| ==> Catalog[i].id == IdAt(i)
  {
  }

  /** Eight products with ids counting up from "1" have pairwise distinct ids. */
  lemma IdLayoutUnique(ps: seq<Product>)
    requires |ps| == 8
    requires forall i :: 0 <= i < |ps| ==> ps[i].id == IdAt(i)
    ensures UniqueBy(ps, ProductId)
  {
    forall i, j | 0 <= i < j < |ps| ensures ProductId(ps[i]) != ProductId(ps[j]) {
      assert ps[i].id[0] != ps[j].id[0];
    }
  }

  /** The catalog ids "1".."8" are pairwise distinct. */
  lemma CatalogIdsUnique()
    ensures UniqueBy(Catalog, ProductId)
  {
    CatalogIdLayout();
    IdLayoutUnique(Catalog);
  }

  /** In a list with unique ids, looking up an element's id finds that element. */
  lemma {:induction false} FindByIdUnique(ps: seq<Product>, i: int)
    requires UniqueBy(ps, ProductId)
    requires 0 <= i < |ps|
    ensures FindById(ps, ps[i].id) == Some(ps[i])
  {
    var r := FindById(ps, ps[i].id);
    var k :| 0 <= k < |ps| && ps[k] == r.value && r.value.id == ps[i].id
             && forall j :: 0 <= j < k ==> ps[j].id != ps[i].id;
    assert k < i ==> ProductId(ps[k]) != ProductId(ps[i]);
  }

  /** Every catalog product is found by its own id. */
  lemma GetProductByIdCatalog(i: int)
    requires 0 <= i < |Catalog|
    ensures GetProductById(Catalog[i].id) == Some(Catalog[i])
  {
    CatalogIdsUnique();
    FindByIdUnique(Catalog, i);
  }

  /** The ids the catalog declares. */
  const CatalogIds: set<string> := {"1", "2", "3", "4", "5", "6", "7", "8"}

  lemma CatalogIdsListed()
    ensures forall i :: 0 <= i < |Catalog| ==> Catalog[i].id in CatalogIds
  {
  }

  /** Lookup succeeds exactly for the ids "1".."8". */
  lemma GetProductByIdKnownIds(id: string)
    ensures GetProductById(id).Some? <==> id in CatalogIds
  {
    CatalogIdsListed();
    if id in CatalogIds {
      CatalogIdsCovered(id);
    }
  }

  lemma CatalogIdsCovered(id: string)
    requires id in CatalogIds
    ensures exists i :: 0 <= i < |Catalog| && Catalog[i].id == id
  {
    CatalogIdLayout();
    var k := id[0] as int - '1' as int;
    assert 0 <= k < 8 && IdAt(k) == id;
  }

  function MarkedFavorite(p: Product): bool {
    p.isFavorite
  }

  /** The favourites the view model starts with: `products.filter { it.isFavorite }`. */
  function InitialFavorites(): seq<Product> {
    Filter(Catalog, MarkedFavorite)
  }

  /** The initial favourites are the jacket and the sneakers. */
  lemma InitialFavoritesAreJacketAndSneakers()
    ensures InitialFavorites() == [Catalog[1], Catalog[3]]
  {
    CatalogFavoriteLayout();
    FilterPicksTwo(Catalog, MarkedFavorite, 1, 3);
  }

  /** Only the products at positions 1 and 3 are marked favourite. */
  lemma CatalogFavoriteLayout()
    ensures |Catalog| == 8
    ensures forall i :: 0 <= i < |Catalog| ==> MarkedFavorite(Catalog[i]) == (i == 1 || i == 3)
  {
  }
}
