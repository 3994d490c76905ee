# shopngo client state, in Dafny

A model of the client-side state containers of the shopngo mobile storefront
and of its catalogue search filter:

- the **cart** (`CartStore`): a list of `(product, quantity)` entries keyed by
  product id, with `addItem`, `removeItem`, `updateQuantity`, `clearCart` and
  the two folds `getItemCount` and `getTotalPrice`;
- the **auth session** (`AuthStore`): `{user, isLoading, error}` with `login`,
  `signup`, `logout` and `checkSession`;
- the **product cache** (`ProductStore`): `{products, filteredProducts,
  categories, loading, error}` with `fetchProducts` and `fetchCategories`;
- the **search filter** (`Search`): the part of `searchProductsApi` that runs
  after the product list has been fetched.

Every container state is an immutable datatype and every action a pure
function returning the next state. An asynchronous action is split at its one
`await` into `Begin(s)`, the `set` that switches loading on and clears the
error, and a `Finish` step that takes the remote call's result as an
`Outcomes.Outcome` value (`Ok(value)` or `Err(message)`). The remote calls
themselves (the hosted auth service, the catalogue HTTP API) are not
performed: their results are parameters. Traces of completed actions
(`Run`) carry the invariants that hold in every reachable state.

Supporting modules: `Outcomes` (option and outcome types), `Seqs` (the
order-preserving filter and the subsequence relation), `Text` (ASCII
`toLowerCase`, ECMAScript `trim`, `includes`) and `Catalog` (the product
record; the repository's `type` module that declares it is not part of this
model, so its fields follow their use in the stores and screens).

Behaviour of the code worth knowing:

- A failed `login` or `signup` keeps whatever user was there; it is not reset
  to signed out (it is signed out only when it started signed out).
- A `login` or `signup` answered with neither an error nor a user reaches no
  final `set`, so `isLoading` stays `true`; not every action ends idle.
- The product container has only `fetchProducts` and `fetchCategories`;
  category switching and sorting do not exist in it.

## Model

| member | source | states |
|---|---|---|
| Seqs.Filter | frontend/store/cartStore.ts:54 | `Array.prototype.filter`: the result is a subsequence of the input and holds each kept value exactly as often as the input, dropped values not at all |
| Text.Lower | frontend/lib/api.ts:94 | lower-casing keeps the length, maps ASCII capitals to small letters, leaves every other character alone, and leaves no capital behind |
| Text.Trim | frontend/lib/api.ts:94 | the trimmed string is the block of the input between a whitespace-only head and a whitespace-only tail, is no longer than the input, and neither starts nor ends with whitespace |
| Text.IncludesIff | frontend/lib/api.ts:98-100 | `includes` is true exactly when some position of the string starts a copy of the needle |
| Text.TrimIgnoresPadding | frontend/lib/api.ts:94 | whitespace added before or after a string does not change its trimmed form |
| Search.SearchTerm | frontend/lib/api.ts:94 | the compared term is the lower-cased query with its whitespace head and tail cut off, so it has no ASCII capitals and no whitespace at either end |
| Search.SearchTermOfNormalQuery | frontend/lib/api.ts:94 | a query with no ASCII capitals and no whitespace at its ends is compared unchanged |
| Search.MatchesIff | frontend/lib/api.ts:97-100 | a product is a hit exactly when the term occurs as a substring of its lower-cased title, description or category |
| Search.FilterByTerm | frontend/lib/api.ts:96-101 | the products kept for a term are an order-preserving selection of the input holding exactly its matching products |
| Search.SearchProducts | frontend/lib/api.ts:94-101 | the result keeps the input order, holds only products whose lower-cased title, description or category contains the term, and holds every such input product as often as the input does |
| Search.SearchIgnoresCase | frontend/lib/api.ts:94 | queries differing only in letter case find the same products |
| Search.SearchIgnoresPadding | frontend/lib/api.ts:94 | whitespace around a query does not change what it finds |
| Search.SearchEquivalentQueries | frontend/lib/api.ts:94 | queries differing in letter case and in surrounding whitespace find the same products |
| Search.BlankQueryFindsAll | frontend/lib/api.ts:94-100 | an empty or whitespace-only query returns the whole input list unchanged |
| CartStore.AddItem | frontend/store/cartStore.ts:28-50 | an id already present adds no entry: that entry keeps its product and gains `quantity`, others are unchanged; a new id appends exactly one entry at the end; the id is present afterwards; distinct ids and positive quantities are preserved |
| CartStore.AddItemDefault | frontend/store/cartStore.ts:28-47 | with the quantity left out a new product is appended with quantity 1, and an entry already present grows by 1 with every other entry unchanged |
| CartStore.RemoveItem | frontend/store/cartStore.ts:52-56 | no entry with the id remains, the others keep order and multiplicity, an absent id leaves the cart unchanged, distinct ids and positive quantities are preserved |
| CartStore.FilterOtherThan | frontend/store/cartStore.ts:54 | filtering out one id leaves no entry with it, is the identity when the id is absent, and keeps ids distinct and quantities positive |
| CartStore.FilterKeepsDistinct | frontend/store/cartStore.ts:54 | filtering a cart with distinct ids leaves distinct ids |
| CartStore.UpdateQuantity | frontend/store/cartStore.ts:58-70 | a quantity of zero or less gives exactly the `removeItem` state; a positive one keeps length and order, sets only the matching entries' quantity, and is a no-op for an absent id; distinct ids and positive quantities are preserved |
| CartStore.ClearCart | frontend/store/cartStore.ts:72-74 | the cart is emptied and both the item count and the total price read 0 |
| CartStore.TotalAppend | frontend/store/cartStore.ts:77-80 | appending an entry adds its weight to the sum, which is what makes the left-to-right `reduce` compute the sum |
| CartStore.GetItemCount | frontend/store/cartStore.ts:83-85 | the `reduce` returns the sum of the entries' quantities |
| CartStore.GetTotalPrice | frontend/store/cartStore.ts:76-81 | the `reduce` returns the sum over entries of price times quantity |
| CartStore.AddExistingTotals | frontend/store/cartStore.ts:35-42 | adding an id already present raises the count by the quantity and the total by the recorded price times that quantity |
| CartStore.AddNewTotals | frontend/store/cartStore.ts:43-47 | adding a new id raises the count by the quantity and the total by its price times that quantity |
| CartStore.RemoveTotals | frontend/store/cartStore.ts:52-56 | removing an entry takes its quantity off the count and its line total off the price |
| CartStore.UpdateTotals | frontend/store/cartStore.ts:65-69 | setting a positive quantity replaces that entry's contribution to the count |
| CartStore.AddTwiceMerges | frontend/store/cartStore.ts:31-47 | adding the same new product twice, with quantities q1 and q2, leaves one entry at the end with quantity q1 + q2 |
| CartStore.RemoveUndoesAdd | frontend/store/cartStore.ts:43-56 | removing a product just added as a new entry gives back the cart as it was before the add |
| CartStore.RunPreservesInvariants | frontend/store/cartStore.ts:28-70 | every sequence of actions keeps ids pairwise distinct, and keeps quantities at least 1 when every added quantity is positive |
| CartStore.ReachableCarts | frontend/store/cartStore.ts:26-70 | every cart reachable from the empty one has distinct ids, and only quantities of at least 1 when every added quantity was positive |
| AuthStore.Begin | frontend/store/authStore.ts:38 | the first step of every action sets loading, clears the error and leaves the user untouched |
| AuthStore.ToUser | frontend/store/authStore.ts:50-53 | the stored user keeps the remote id, and a missing email becomes the empty string |
| AuthStore.FinishCredentials | frontend/store/authStore.ts:45-61 | an error records its message and stops loading keeping the user; a returned user replaces the user and stops loading; with neither an error nor a user, the state is left as it was |
| AuthStore.Login | frontend/store/authStore.ts:35-62 | success ends signed in, idle, without error; failure ends idle with the message and the previous user; no user and no error ends still loading |
| AuthStore.Signup | frontend/store/authStore.ts:65-87 | the same three end states as `login`, for account creation |
| AuthStore.FinishLogout | frontend/store/authStore.ts:97-102 | success signs out, failure keeps the user and records the message, both stop loading |
| AuthStore.Logout | frontend/store/authStore.ts:90-104 | success ends signed out, idle, without error; failure ends idle with the message and the previous user |
| AuthStore.FinishCheckSession | frontend/store/authStore.ts:112-131 | a session sets the user, no session clears it, an error clears it and records the message; all stop loading |
| AuthStore.CheckSession | frontend/store/authStore.ts:107-132 | the three end states of `checkSession`, all idle, the error cleared unless the call failed |
| AuthStore.PerformLoading | frontend/store/authStore.ts:35-132 | a completed action leaves loading on exactly when it is a `login` or `signup` that got no user and no error, and never shows an error while loading |
| AuthStore.RunLoading | frontend/store/authStore.ts:35-132 | after any non-empty run the loading flag is decided by the last action alone |
| AuthStore.ReachableAuthStates | frontend/store/authStore.ts:30-132 | in every state reachable from the initial one an error is shown only when idle, and loading is on only after a `login` or `signup` with no user |
| AuthStore.TestSuiteScenarios | frontend/__tests__/authStore.test.ts:46-163 | the initial state, loading right after a call starts, the successful login, the "Bad credentials" login and the successful logout end in the states the test suite expects |
| ProductStore.Begin | frontend/store/productStore.ts:40 | the first step sets loading and clears the error, leaving every list untouched |
| ProductStore.FinishFetchProducts | frontend/store/productStore.ts:44-53 | success makes the fetched list both the catalogue and the filtered view; failure records the message and leaves every list; both stop loading |
| ProductStore.FinishFetchCategories | frontend/store/productStore.ts:59-62 | only categories, loading and error change; failure leaves the categories and records the message |
| ProductStore.FetchProducts | frontend/store/productStore.ts:37-54 | the complete end states of `fetchProducts`, idle, with the error cleared on success |
| ProductStore.FetchCategories | frontend/store/productStore.ts:55-63 | the complete end states of `fetchCategories`, idle, with the products untouched |
| ProductStore.StepsKeepView | frontend/store/productStore.ts:40-62 | every step, including the intermediate one, keeps the filtered view equal to the catalogue |
| ProductStore.RunInvariants | frontend/store/productStore.ts:37-63 | any run keeps the filtered view equal to the catalogue and a non-empty run ends idle |
| ProductStore.ReachableProductStates | frontend/store/productStore.ts:31-63 | every state reachable from the initial one by completed fetches shows the whole catalogue as its filtered view and is idle |

## Left out

- The catalogue HTTP requests (`getProducts`, `getProduct`, `getCategories`, `getProductsByCategory`, the fetch inside `searchProductsApi`) and their status checks: network I/O; the fetched list, or the error, is a parameter.
- The hosted auth client and its secure-storage adapter: a foreign SDK; its answers are `Outcome` values.
- Persistence of the cart and product containers to device storage: library plumbing outside the containers' logic.
- Interleaving of concurrent asynchronous actions: each action is a `Begin` step followed directly by its `Finish` step.
- CartStore.GetTotalPrice: prices are whole cents and quantities whole numbers, whereas the source multiplies and adds floating-point numbers; rounding is not modelled.
- Text.Lower: lower-cases ASCII letters only, whereas `toLowerCase` applies the full Unicode case mapping (including mappings that change the length of the string).
- The error `message` of a thrown value is taken to be a string; a thrown value without one is not modelled.
- The favourites container: it is created without an initialiser, so it has no behaviour to model.
- The checkout route and the server wiring of the backend: the route answers 400 to an invalid price; otherwise it computes `Math.round(price * 100)`, runs an empty `try`/`catch` and never replies, so no payment-SDK call is made.
- Screens and presentational components: UI rendering.
