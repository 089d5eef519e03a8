# FashionApp cart, favourites and screen rules in Dafny

This project models the logic core of FashionApp, an Android shop written in Kotlin:

- **The view model.** `UserViewModel` holds the shopping cart, the favourite products and the login flag. Each of its operations is a pure function from one `Session` to the next: login, logout, add to cart, remove, update quantity, toggle favourite and clear cart. The model also covers the item count and the cart total.
- **The values the view model is built from:**
  - a product's final price;
  - a cart line's total;
  - the sample catalog, the catalog lookups and the initial cart.
- **The rules the screens compute inline:**
  - the search-screen and home-screen product filters;
  - the cart screen's quantity stepper, displayed item count and checkout button;
  - the bottom bar's cart badge, selection and click rule, and the home screen's badge;
  - the login and registration submit rules;
  - the order-status and payment-method display names;
  - the navigation routes and `createRoute`.

Modelling choices:

- Kotlin `Int` is the newtype `Int32.int32`, and `+` wraps around explicitly (`Int32.Add`).
- Prices are exact `real`s.
- Strings are `seq<char>`.
- The line id `"cart_${System.currentTimeMillis()}"` becomes a caller-supplied `lineId`. The well-formedness lemmas require it to be fresh.
- `SampleData.getProductById` is `FindById` over a product list. `AddToCart` and `ToggleFavorite` take that list as their `catalog` parameter, and the app passes `SampleData.Catalog`. Lemmas about the app as shipped use `Catalog`.

The main results:

- Every view-model operation preserves the well-formedness invariant: unique line ids, at most one line per product, snapshots equal to the catalog lookup, and unique favourites that are catalog products. The invariant holds initially and across any run of operations.
- On such a cart, `addToCart` raises the item count by exactly the added quantity, as a 32-bit addition.
- Decimal rendering round-trips and is the only canonical text for its integer, so `createRoute` is injective.
- The search filter narrows as the query grows, and the home filter is always a subsequence of the search filter.
- The stepper keeps quantities within [1, 10].

Notes on what the code does:

- `finalPrice` applies the discount whenever an original price is present. A missing percentage counts as 0, so the result is then the original price rather than `price`.
- `addToCart` merges by product id only, and ignores size and colour.
- No operation validates quantities or reports unknown ids.
- A line's total uses only its stored snapshot. A line without a snapshot costs 0, and the product is never looked up again.

## Model

| member | source | states |
|---|---|---|
| Int32.Add | app/src/main/java/com/example/fashionmarket/viewmodel/UserViewModel.kt:55 | Kotlin `Int` addition: the result is congruent to the exact sum modulo 2^32, and equals it when the sum fits in 32 bits |
| Products.FinalPrice | app/src/main/java/com/example/fashionmarket/data/model/Product.kt:20-23 | without an original price the final price is `price`; with a non-negative original price and a discount in [0, 100] it lies between 0 and the original price |
| Products.FinalPriceNoDiscount | app/src/main/java/com/example/fashionmarket/data/model/Product.kt:21-22 | an original price without a discount gives exactly the original price, and `price` has no influence |
| Products.FinalPriceIgnoresDiscountWithoutOriginal | app/src/main/java/com/example/fashionmarket/data/model/Product.kt:21-23 | without an original price, any discount value leaves the final price at `price` |
| Products.FinalPriceDiscountEnds | app/src/main/java/com/example/fashionmarket/data/model/Product.kt:22 | a 0% discount charges the original price and a 100% discount charges 0 |
| Products.FinalPriceAntitone | app/src/main/java/com/example/fashionmarket/data/model/Product.kt:22 | a larger discount never gives a higher final price when the original price is non-negative |
| CartItems.TotalPrice | app/src/main/java/com/example/fashionmarket/data/model/CartItem.kt:12-13 | a line with no snapshot or zero quantity costs 0; a non-negative price and quantity give a non-negative total |
| CartItems.TotalPriceLinear | app/src/main/java/com/example/fashionmarket/data/model/CartItem.kt:13 | a line's total is its snapshot's final price times the quantity, i.e. the one-unit total scaled by the quantity |
| CartItems.TotalPriceAdditive | app/src/main/java/com/example/fashionmarket/data/model/CartItem.kt:13 | when `q1 + q2` does not overflow, the total for `q1 + q2` units is the total for `q1` plus the total for `q2` |
| SampleData.FindById | app/src/main/java/com/example/fashionmarket/data/model/SampleData.kt:185-187 | `find { it.id == id }`: absent exactly when no product has the id; otherwise a list element with that id, and no earlier element has it |
| SampleData.ProductsInCategory | app/src/main/java/com/example/fashionmarket/data/model/SampleData.kt:189-191 | exactly the listed products of the category: each result is such a product, each such product is a result with as many copies as in the list, and list order is kept |
| SampleData.GetProductsByCategory | app/src/main/java/com/example/fashionmarket/data/model/SampleData.kt:189-191 | applied to the catalog: a product is a result exactly when it is a catalog product of the category; results keep catalog order and their numbers of copies |
| SampleData.CatalogIdsUnique | app/src/main/java/com/example/fashionmarket/data/model/SampleData.kt:6-103 | the eight catalog ids are pairwise distinct |
| SampleData.FindByIdUnique | app/src/main/java/com/example/fashionmarket/data/model/SampleData.kt:185-187 | in a list with unique ids, looking up an element's id finds that element |
| SampleData.GetProductByIdCatalog | app/src/main/java/com/example/fashionmarket/data/model/SampleData.kt:185-187 | every catalog product is found by its own id |
| SampleData.CatalogIdsListed | app/src/main/java/com/example/fashionmarket/data/model/SampleData.kt:6-103 | every catalog id is one of "1".."8" |
| SampleData.CatalogIdsCovered | app/src/main/java/com/example/fashionmarket/data/model/SampleData.kt:6-103 | each of "1".."8" is the id of some catalog product |
| SampleData.GetProductById | app/src/main/java/com/example/fashionmarket/data/model/SampleData.kt:185-187 | absent exactly when no catalog product has the id; a found product carries the id and is a catalog element |
| SampleData.GetProductByIdKnownIds | app/src/main/java/com/example/fashionmarket/data/model/SampleData.kt:185-187 | the lookup succeeds exactly for the ids "1".."8" |
| SampleData.InitialFavoritesAreJacketAndSneakers | app/src/main/java/com/example/fashionmarket/viewmodel/UserViewModel.kt:23 | the favourites the view model starts with are the denim jacket and the sneakers, in that order |
| UserViewModel.Login | app/src/main/java/com/example/fashionmarket/viewmodel/UserViewModel.kt:32-37 | the session becomes logged in whatever the credentials; cart and favourites are untouched |
| UserViewModel.Logout | app/src/main/java/com/example/fashionmarket/viewmodel/UserViewModel.kt:39-44 | the session becomes logged out with an empty cart (count and total 0); favourites stay |
| UserViewModel.ClearCart | app/src/main/java/com/example/fashionmarket/viewmodel/UserViewModel.kt:118-122 | the cart becomes empty (count and total 0); favourites and login flag stay |
| UserViewModel.AddToCart | app/src/main/java/com/example/fashionmarket/viewmodel/UserViewModel.kt:46-71 | for a new product, exactly one line is appended after the unchanged old lines, carrying the given quantity, size, colour, fresh id and looked-up snapshot. For a product already in the cart, the length and all other fields are kept, every line of that product gains `quantity` with wrap-around, and size and colour are ignored |
| UserViewModel.RemoveFromCart | app/src/main/java/com/example/fashionmarket/viewmodel/UserViewModel.kt:73-79 | the result holds exactly the lines whose id differs, each with as many copies as before, and no line with the id, as an order-preserving subsequence |
| UserViewModel.UpdateCartItemQuantity | app/src/main/java/com/example/fashionmarket/viewmodel/UserViewModel.kt:81-89 | the lines with the id get exactly the given quantity (any `Int`, zero and negatives included); no other field or line changes and the length is kept |
| UserViewModel.ToggleFavorite | app/src/main/java/com/example/fashionmarket/viewmodel/UserViewModel.kt:91-108 | a favourited id is removed, keeping the other favourites in order with their numbers of copies and leaving no product with that id; an absent catalog id has its product appended; an unknown id leaves the favourites alone; the cart never changes |
| UserViewModel.GetCartItemCount | app/src/main/java/com/example/fashionmarket/viewmodel/UserViewModel.kt:114-116 | the left-to-right `Int` accumulation equals the exact quantity sum wrapped to 32 bits; it is the exact sum when that fits, and 0 for an empty cart |
| UserViewModel.GetCartTotal | app/src/main/java/com/example/fashionmarket/viewmodel/UserViewModel.kt:110-112 | the accumulation equals the sum of the line totals, 0 for an empty cart |
| UserViewModelProperties.InitialSessionWellFormed | app/src/main/java/com/example/fashionmarket/viewmodel/UserViewModel.kt:20-23 | the view model's initial cart and favourites satisfy the well-formedness invariant |
| UserViewModelProperties.InitialCartWellFormed | app/src/main/java/com/example/fashionmarket/data/model/SampleData.kt:116-141 | the sample cart has distinct line ids and distinct product ids, and each snapshot is the catalog product of its id |
| UserViewModelProperties.InitialFavoritesWellFormed | app/src/main/java/com/example/fashionmarket/viewmodel/UserViewModel.kt:23 | the initial favourites have distinct ids, and each is the catalog product with its id |
| UserViewModelProperties.MarkedFavoritesWellFormed | app/src/main/java/com/example/fashionmarket/viewmodel/UserViewModel.kt:23 | for any catalog with unique ids, `filter { it.isFavorite }` yields well-formed favourites |
| UserViewModelProperties.AddToCartPreservesWellFormed | app/src/main/java/com/example/fashionmarket/viewmodel/UserViewModel.kt:46-71 | with a fresh line id, adding keeps line ids unique, at most one line per product, and snapshots equal to the lookup |
| UserViewModelProperties.RemoveFromCartPreservesWellFormed | app/src/main/java/com/example/fashionmarket/viewmodel/UserViewModel.kt:73-79 | removing keeps the cart invariant |
| UserViewModelProperties.UpdateCartItemQuantityPreservesWellFormed | app/src/main/java/com/example/fashionmarket/viewmodel/UserViewModel.kt:81-89 | updating a quantity keeps the cart invariant |
| UserViewModelProperties.ToggleFavoritePreservesWellFormed | app/src/main/java/com/example/fashionmarket/viewmodel/UserViewModel.kt:91-108 | toggling keeps favourite ids unique and every favourite equal to its catalog product |
| UserViewModelProperties.MergeShiftsSum | app/src/main/java/com/example/fashionmarket/viewmodel/UserViewModel.kt:53-57 | with one line per product, merging changes the exact quantity sum only by the merged line's change |
| UserViewModelProperties.MergeSkipsOtherProducts | app/src/main/java/com/example/fashionmarket/viewmodel/UserViewModel.kt:53-57 | merging into a product no line refers to leaves the cart unchanged |
| UserViewModelProperties.AddToCartRaisesItemCount | app/src/main/java/com/example/fashionmarket/viewmodel/UserViewModel.kt:46-71 | with at most one line per product, `addToCart` raises `getCartItemCount` by exactly `quantity` (as a Kotlin `Int` sum), whether it merges or appends |
| UserViewModelProperties.AddUnknownProductKeepsTotal | app/src/main/java/com/example/fashionmarket/viewmodel/UserViewModel.kt:58-67 | appending a line for a product the catalog does not know leaves the cart total unchanged |
| UserViewModelProperties.AddTwiceMerges | app/src/main/java/com/example/fashionmarket/viewmodel/UserViewModel.kt:50-57 | adding a new product twice gives one line with the summed quantity, whose id, size and colour come from the first call |
| UserViewModelProperties.RemoveUnknownIdIsNoOp | app/src/main/java/com/example/fashionmarket/viewmodel/UserViewModel.kt:76 | removing an id that no line carries changes nothing |
| UserViewModelProperties.RemoveKnownIdDropsOneLine | app/src/main/java/com/example/fashionmarket/viewmodel/UserViewModel.kt:76 | with unique line ids, removing a present id shortens the cart by exactly one line |
| UserViewModelProperties.UpdateUnknownIdIsNoOp | app/src/main/java/com/example/fashionmarket/viewmodel/UserViewModel.kt:84-86 | updating an id that no line carries changes nothing |
| UserViewModelProperties.UpdateQuantityShiftsSum | app/src/main/java/com/example/fashionmarket/viewmodel/UserViewModel.kt:81-89 | with unique line ids, the exact quantity sum changes by the new quantity minus the old one |
| UserViewModelProperties.ToggleTwiceFromAbsent | app/src/main/java/com/example/fashionmarket/viewmodel/UserViewModel.kt:91-108 | toggling an id that is not a favourite twice restores the favourites exactly |
| UserViewModelProperties.ToggleTwiceRestoresMembership | app/src/main/java/com/example/fashionmarket/viewmodel/UserViewModel.kt:91-108 | toggling a catalog id twice restores whether it is a favourite |
| UserViewModelProperties.ToggleTwiceFromPresent | app/src/main/java/com/example/fashionmarket/viewmodel/UserViewModel.kt:91-108 | on well-formed favourites, toggling a favourite twice keeps the same set of products |
| UserViewModelProperties.ApplyPreservesWellFormed | app/src/main/java/com/example/fashionmarket/viewmodel/UserViewModel.kt:32-122 | every single view-model operation preserves the invariant, given a fresh line id for `addToCart` |
| UserViewModelProperties.RunPreservesWellFormed | app/src/main/java/com/example/fashionmarket/viewmodel/UserViewModel.kt:32-122 | any sequence of operations with fresh line ids preserves the invariant |
| UserViewModelProperties.AddToCartInRunRaisesItemCount | app/src/main/java/com/example/fashionmarket/viewmodel/UserViewModel.kt:46-71 | from any cart with at most one line per product, such as the initial one, after any run of operations (line ids may repeat), `addToCart` raises the item count by its quantity |
| UserViewModelProperties.ApplyKeepsProductUnique | app/src/main/java/com/example/fashionmarket/viewmodel/UserViewModel.kt:32-122 | every single operation keeps at most one line per product, whatever line id `addToCart` is given |
| UserViewModelProperties.RunKeepsProductUnique | app/src/main/java/com/example/fashionmarket/viewmodel/UserViewModel.kt:32-122 | any sequence of operations keeps at most one line per product |
| Text.IsBlank | app/src/main/java/com/example/fashionmarket/ui/auth/LoginScreen.kt:49 | `isBlank` holds exactly when every character is whitespace, so the empty string is blank |
| Text.ContainsIgnoreCaseIff | app/src/main/java/com/example/fashionmarket/ui/screens/search/SearchScreen.kt:40 | `contains(q, ignoreCase = true)` holds exactly when `q` matches the text, up to ASCII case, at some offset |
| Text.ContainsTransitive | app/src/main/java/com/example/fashionmarket/ui/screens/search/SearchScreen.kt:40-43 | case-insensitive containment is transitive |
| ProductSearch.SearchResults | app/src/main/java/com/example/fashionmarket/ui/screens/search/SearchScreen.kt:38-47 | an empty query shows nothing. Otherwise the result holds exactly the products whose name, description, category or a tag contains the query, as an order-preserving subsequence that is no longer than the list, and each such product keeps its number of copies |
| ProductSearch.HomeResults | app/src/main/java/com/example/fashionmarket/ui/screens/home/HomeScreen.kt:124-132 | an empty query shows the whole list. Otherwise the result holds exactly the products whose name, description or category contains the query (tags are not consulted), as an order-preserving subsequence that keeps each such product's number of copies |
| ProductSearch.MatchesSearchNarrowing | app/src/main/java/com/example/fashionmarket/ui/screens/search/SearchScreen.kt:39-43 | a product matching a query matches every query that query contains |
| ProductSearch.SearchNarrowing | app/src/main/java/com/example/fashionmarket/ui/screens/search/SearchScreen.kt:38-47 | if a non-empty query occurs in a longer one, the longer query's results are a subsequence of the shorter one's |
| ProductSearch.HomeWithinSearch | app/src/main/java/com/example/fashionmarket/ui/screens/home/HomeScreen.kt:124-132 | for the same non-empty query, the home results are a subsequence of the search results |
| ProductSearch.HomeEqualsSearchWithoutTags | app/src/main/java/com/example/fashionmarket/ui/screens/home/HomeScreen.kt:124-132 | when no product has tags, the two screens show the same results for every non-empty query |
| CartScreen.StepperRequest | app/src/main/java/com/example/fashionmarket/ui/screens/cart/CartScreen.kt:248-270 | `-` requests one less exactly when the quantity exceeds 1; `+` requests one more exactly when it is below 10 |
| CartScreen.Pressed | app/src/main/java/com/example/fashionmarket/ui/screens/cart/CartScreen.kt:248-270 | one press moves the quantity by at most 1: `-` never raises it, and lowers it above 1; `+` never lowers it, and raises it below 10 |
| CartScreen.AfterPressesBounded | app/src/main/java/com/example/fashionmarket/ui/screens/cart/CartScreen.kt:248-270 | from a quantity in [1, 10] no series of presses leaves [1, 10]; from outside it, the quantity never moves further away |
| CartScreen.PlusPressesSaturate | app/src/main/java/com/example/fashionmarket/ui/screens/cart/CartScreen.kt:266-270 | n presses of `+` from [1, 10] reach min(q + n, 10) |
| CartScreen.MinusPressesSaturate | app/src/main/java/com/example/fashionmarket/ui/screens/cart/CartScreen.kt:248-251 | n presses of `-` from [1, 10] reach max(q - n, 1) |
| CartScreen.PressOnLine | app/src/main/java/com/example/fashionmarket/ui/screens/cart/CartScreen.kt:146-151 | a press the stepper refuses changes nothing; otherwise `updateCartItemQuantity` gives that line, and every line sharing its id, the pressed quantity; lines with other ids and the rest of the session are untouched |
| CartScreen.PressKeepsStepperRange | app/src/main/java/com/example/fashionmarket/ui/screens/cart/CartScreen.kt:248-270 | if every quantity is in [1, 10], it stays so after any stepper press |
| CartScreen.DisplayedCountBounds | app/src/main/java/com/example/fashionmarket/ui/screens/cart/CartScreen.kt:97 | the displayed count is the quantity sum, not the line count. With quantities in [1, 10] the exact sum lies between the number of lines and ten times that, and equals the number of lines exactly when every quantity is 1; when ten times the line count fits in an `Int`, the same holds of the displayed 32-bit count |
| CartScreen.CheckoutFollowsOperations | app/src/main/java/com/example/fashionmarket/ui/screens/cart/CartScreen.kt:114 | checkout and the clear action share one condition, a non-empty cart. Clear and logout disable them; add enables them; update and toggle leave them as they were; when they are disabled the item count is 0 |
| NavBar.CartBadgeCount | app/src/main/java/com/example/fashionmarket/ui/components/FloatingBottomBar.kt:87-94 | the cart item's badge count is present exactly when the item count is positive, and then equals it |
| NavBar.BarItems | app/src/main/java/com/example/fashionmarket/ui/components/FloatingBottomBar.kt:90-96 | four items; the third is the cart route carrying the badge count, and the others carry none |
| NavBar.BadgeLabel | app/src/main/java/com/example/fashionmarket/ui/components/FloatingBottomBar.kt:197-214 | a label exists exactly for a present positive count. It is "9+" exactly above nine; otherwise it is at most two characters, reads back as the count and is canonical decimal text |
| NavBar.OnClick | app/src/main/java/com/example/fashionmarket/ui/components/FloatingBottomBar.kt:128-138 | a click navigates exactly when the item is not selected, and then to the item's route |
| NavBar.ClickTwiceNavigatesOnce | app/src/main/java/com/example/fashionmarket/ui/components/FloatingBottomBar.kt:123-130 | after the navigation a click causes, the item is selected and a second click does nothing |
| NavBar.AtMostOneSelected | app/src/main/java/com/example/fashionmarket/ui/components/FloatingBottomBar.kt:122-123 | no two bar items are selected at once |
| NavBar.HomeBadgeLabel | app/src/main/java/com/example/fashionmarket/ui/screens/home/HomeScreen.kt:74-79 | the home badge is shown exactly when the item count is positive, and its text reads back as the count and is canonical decimal text (no leading zero) |
| NavBar.CartBadgesAgree | app/src/main/java/com/example/fashionmarket/ui/screens/home/HomeScreen.kt:76-78 | the home badge and the bar badge show together; their texts agree up to nine items, after which the bar shows "9+" and the home screen does not |
| Routes.CreateRoute | app/src/main/java/com/example/fashionmarket/ui/navigation/Screen.kt:12 | the route is "product_detail/" followed by canonical decimal text from which the product id reads back |
| Routes.CanonicalRouteIsCreated | app/src/main/java/com/example/fashionmarket/ui/navigation/Screen.kt:12 | a route with the prefix and canonical text naming an id is exactly the route built for that id |
| Routes.CreateRouteInjective | app/src/main/java/com/example/fashionmarket/ui/navigation/Screen.kt:12 | distinct product ids give distinct routes |
| Routes.RoutesDistinct | app/src/main/java/com/example/fashionmarket/ui/navigation/Screen.kt:3-11 | the eight screen routes are pairwise distinct |
| Routes.CreateRouteNotAScreenRoute | app/src/main/java/com/example/fashionmarket/ui/navigation/Screen.kt:4-12 | no built route equals a fixed screen route or the route template |
| Text.IntToDecimal | app/src/main/java/com/example/fashionmarket/ui/navigation/Screen.kt:12 | an `Int` in a string template: a minus sign exactly for negatives, then digits with no leading zero ("0" alone for zero); a single character exactly for 0..9 |
| Text.CanonicalDigitsUnique | app/src/main/java/com/example/fashionmarket/ui/navigation/Screen.kt:12 | digit text without a leading zero is the rendering of the number it reads as |
| Text.CanonicalDecimalUnique | app/src/main/java/com/example/fashionmarket/ui/navigation/Screen.kt:12 | canonical decimal text is the rendering of the integer it reads as, so each integer has one canonical text |
| Text.ParseIntRoundTrip | app/src/main/java/com/example/fashionmarket/ui/navigation/Screen.kt:12 | reading the decimal rendering of any integer gives the integer back |
| Text.IntToDecimalInjective | app/src/main/java/com/example/fashionmarket/ui/navigation/Screen.kt:12 | distinct integers render differently |
| Orders.StatusDisplayName | app/src/main/java/com/example/fashionmarket/data/model/Order.kt:31-39 | the display name of a status identifies it: reading the name back gives the status |
| Orders.StatusDisplayNameInjective | app/src/main/java/com/example/fashionmarket/data/model/Order.kt:33-37 | the five status display names are pairwise distinct |
| Orders.PaymentDisplayName | app/src/main/java/com/example/fashionmarket/data/model/Order.kt:68-75 | the display name of a payment method identifies it: reading the name back gives the method |
| Orders.PaymentDisplayNameInjective | app/src/main/java/com/example/fashionmarket/data/model/Order.kt:70-73 | the four payment display names are pairwise distinct |
| LoginForm.ValidateLogin | app/src/main/java/com/example/fashionmarket/ui/auth/LoginScreen.kt:48-50 | the click check passes exactly when both the email and the password contain a non-whitespace character |
| LoginForm.SubmitLogin | app/src/main/java/com/example/fashionmarket/ui/auth/LoginScreen.kt:239-262 | with no edits during the delay, a submission logs in and goes home exactly when both fields are non-blank and the password has at least 6 characters. Otherwise the session is untouched and the message is "Please fill all fields" for a blank field, or "Invalid credentials" for valid input that is refused. Afterwards the button is enabled again |
| LoginForm.SubmitLoginEdited | app/src/main/java/com/example/fashionmarket/ui/auth/LoginScreen.kt:239-262 | the click checks the fields as clicked, the delayed step re-reads them as edited since. A failed click shows "Please fill all fields" and changes nothing else; after a passed click it logs in and goes home exactly when the edited email is non-blank and the edited password has at least 6 characters, keeping cart and favourites, and otherwise shows "Invalid credentials" with the session untouched; the button ends enabled |
| LoginForm.EditedBlankPasswordLogsIn | app/src/main/java/com/example/fashionmarket/ui/auth/LoginScreen.kt:241-247 | a password changed to six spaces during the delay is still accepted, because the delayed step checks only its length |
| LoginForm.PressValidLoginWaits | app/src/main/java/com/example/fashionmarket/ui/auth/LoginScreen.kt:241-243 | during a valid submission the message is cleared and the button is disabled |
| RegisterForm.ValidateRegistration | app/src/main/java/com/example/fashionmarket/ui/auth/RegisterScreen.kt:50-57 | the click check passes exactly when the passwords are equal and name, email, phone and password each contain a non-whitespace character |
| RegisterForm.PressValidRegistrationWaits | app/src/main/java/com/example/fashionmarket/ui/auth/RegisterScreen.kt:396-398 | a valid click clears the message and disables the button until the delayed step, leaving the fields as they are |
| RegisterForm.SubmitRegistration | app/src/main/java/com/example/fashionmarket/ui/auth/RegisterScreen.kt:394-421 | with no edits during the delay, a submission goes home exactly when all fields are non-blank and the passwords match. Otherwise the message is "Passwords do not match" whenever they differ, even with blank fields, and "Please fill all fields" when they match. The fields are kept and the button is enabled again |
| RegisterForm.SubmitRegistrationEdited | app/src/main/java/com/example/fashionmarket/ui/auth/RegisterScreen.kt:394-421 | a failed click shows "Passwords do not match" when the clicked passwords differ and "Please fill all fields" otherwise, keeping the fields; after a passed click the fields become the edited ones, and the step goes home exactly when the edited passwords are equal, else shows "Passwords do not match"; the button ends enabled |
| RegisterForm.DelayedMismatchNeedsEdit | app/src/main/java/com/example/fashionmarket/ui/auth/RegisterScreen.kt:401-414 | without edits during the delay, a passed click always goes home with no message |
| RegisterForm.EditedConfirmationShowsMismatch | app/src/main/java/com/example/fashionmarket/ui/auth/RegisterScreen.kt:404-414 | a confirmation changed during the delay to differ from the password makes the delayed step show "Passwords do not match" and stay |
| RegisterForm.EditedBlankNameStillRegisters | app/src/main/java/com/example/fashionmarket/ui/auth/RegisterScreen.kt:401-410 | a name cleared during the delay does not stop registration: the delayed step checks only the passwords |

## Left out

- Compose layout, styling, animation and images are left out. Coroutines, `StateFlow`, `delay` and `GlobalScope` are left out too: each view-model call is one atomic step, and concurrent interleavings are not modelled.
- A form submission is the click plus its delayed step. Edits made during the delay are one later form state read by the delayed step; the intermediate edits and a second click while loading are not modelled (the button is disabled then).
- The real line ids ("cart_" plus the clock) and the `addedAt` timestamp are left out. The id is a parameter, and its uniqueness is a premise of the invariant lemmas, not something the clock guarantees.
- `Double` arithmetic is not modelled. Prices are exact reals, and IEEE rounding and the `%.2f` total formatting are not modelled.
- `Order.formattedDate` is locale-dependent date parsing. `OrderStatus.getColor` returns UI colours. `getUserOrders`, `currentUser` and the sample users, categories and orders are left out as well.
- AppNavigation.kt, and the `NavController` calls other than the target route, are not part of this model.
- User.kt and the duplicate `SampleData` object in Product.kt are not part of this model.
- The Kotlin `Product` class with string ids and tags, which the sample data and view model use, is not part of this model. The model keeps only the fields the core reads: id, name, description, price, original price, discount, category, tags and favourite flag. The sample products declare no tags; the model assumes the class's tags default to the empty list.
- Case-insensitive matching folds ASCII letters only. Kotlin's full Unicode case folding is not modelled.
- LoginForm.SubmitLoginEdited: the password length is counted in characters, while Kotlin counts UTF-16 code units. The two differ only for characters outside the Basic Multilingual Plane.
- CartItems.TotalPriceAdditive: stated only when `q1 + q2` fits in an `Int`. Past that, Kotlin's wrapped quantity makes the total differ.
- Products.FinalPrice: bounded only for discounts in [0, 100] and non-negative original prices. Product.kt:20-23 accepts any percentage and no caller bounds it.
- UserViewModelProperties.AddToCartRaisesItemCount: stated for carts with at most one line per product. Every operation keeps that property whatever line ids are used, so it holds after any run from such a cart (`AddToCartInRunRaisesItemCount`); with two lines of one product the count rises by a multiple of the quantity instead.
- UserViewModelProperties.ToggleTwiceFromPresent: the same products come back, but the toggled one moves to the end, so the order is not restored.
- Validation the code does not perform is not modelled: quantity bounds, size or colour checks, and not-found errors for unknown ids. Unknown ids are no-ops, as in the code.
