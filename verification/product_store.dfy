/** The product container: a cache of the fetched catalogue and its
    categories, with a loading flag and an error slot. Its two asynchronous
    actions are split like the auth container's into `Begin` and a `Finish`
    step taking the outcome of the catalogue request.
 */
module ProductStore {
  import opened Outcomes
  import opened Catalog

  datatype ProductState = ProductState(
    products: seq<Product>,
    filteredProducts: seq<Product>,
    categories: seq<string>,
    loading: bool,
    error: Option<string>)

  /** Nothing fetched yet, idle, no error. */
  const Initial: ProductState := ProductState([], [], [], false, None)

  /** The `set({loading: true, error: null})` both actions start with. */
  function Begin(s: ProductState): (r: ProductState)
    ensures r.loading && r.error.None?
    ensures r.products == s.products && r.filteredProducts == s.filteredProducts
    ensures r.categories == s.categories
  {
    s.(loading := true, error := None)
  }

  /** The tail of `fetchProducts`. The fetched list becomes both the catalogue
      and its filtered view; a failure records the message and leaves every
      list alone. Either way loading stops. */
  function FinishFetchProducts(s: ProductState, o: Outcome<seq<Product>>): (r: ProductState)
    ensures !r.loading && r.categories == s.categories
    ensures o.Ok? ==> r.products == o.value && r.filteredProducts == o.value && r.error == s.error
    ensures o.Err? ==> r.products == s.products && r.filteredProducts == s.filteredProducts
    ensures o.Err? ==> r.error == Some(o.message)
  {
    match o
    case Ok(products) => s.(products := products, filteredProducts := products, loading := false)
    case Err(message) => s.(error := Some(message), loading := false)
  }

  /** The tail of `fetchCategories`: only `categories`, `loading` and `error`
      can change. */
  function FinishFetchCategories(s: ProductState, o: Outcome<seq<string>>): (r: ProductState)
    ensures !r.loading
    ensures r.products == s.products && r.filteredProducts == s.filteredProducts
    ensures o.Ok? ==> r.categories == o.value && r.error == s.error
    ensures o.Err? ==> r.categories == s.categories && r.error == Some(o.message)
  {
    match o
    case Ok(categories) => s.(categories := categories, loading := false)
    case Err(message) => s.(error := Some(message), loading := false)
  }

  function FetchProducts(s: ProductState, o: Outcome<seq<Product>>): (r: ProductState)
    ensures o.Ok? ==> r == ProductState(o.value, o.value, s.categories, false, None)
    ensures o.Err? ==> r == s.(loading := false, error := Some(o.message))
  {
    FinishFetchProducts(Begin(s), o)
  }

  function FetchCategories(s: ProductState, o: Outcome<seq<string>>): (r: ProductState)
    ensures o.Ok? ==> r == s.(categories := o.value, loading := false, error := None)
    ensures o.Err? ==> r == s.(loading := false, error := Some(o.message))
  {
    FinishFetchCategories(Begin(s), o)
  }

  /** One completed call into the container, with its request's outcome. */
  datatype ProductAction =
    | FetchProductsCall(productsResponse: Outcome<seq<Product>>)
    | FetchCategoriesCall(categoriesResponse: Outcome<seq<string>>)

  function Perform(s: ProductState, a: ProductAction): ProductState {
    match a
    case FetchProductsCall(o) => FetchProducts(s, o)
    case FetchCategoriesCall(o) => FetchCategories(s, o)
  }

  function Run(s: ProductState, actions: seq<ProductAction>): ProductState
    decreases |actions|
  {
    if |actions| == 0 then s else Run(Perform(s, actions[0]), actions[1..])
  }

  /** The filtered view is the catalogue itself. */
  predicate ViewIsCatalogue(s: ProductState) {
    s.filteredProducts == s.products
  }

  /** Each step, including the intermediate `Begin`, keeps the view equal to
      the catalogue: only a successful `fetchProducts` writes either list,
      and it writes both with the same value. */
  lemma StepsKeepView(s: ProductState, products: Outcome<seq<Product>>, categories: Outcome<seq<string>>)
    requires ViewIsCatalogue(s)
    ensures ViewIsCatalogue(Begin(s))
    ensures ViewIsCatalogue(FinishFetchProducts(s, products))
    ensures ViewIsCatalogue(FinishFetchCategories(s, categories))
  {
  }

  /** A run of completed actions keeps the view equal to the catalogue, and
      ends idle unless it is empty and started loading. */
  lemma {:induction false} RunInvariants(s: ProductState, actions: seq<ProductAction>)
    requires ViewIsCatalogue(s)
    ensures ViewIsCatalogue(Run(s, actions))
    ensures |actions| > 0 ==> !Run(s, actions).loading
    decreases |actions|
  {
    if |actions| > 0 {
      var next := Perform(s, actions[0]);
      assert ViewIsCatalogue(next) && !next.loading;
      RunInvariants(next, actions[1..]);
    }
  }

  /** Every state reachable from the initial one by completed actions shows
      the whole catalogue as its filtered view and is not loading. */
  lemma ReachableProductStates(actions: seq<ProductAction>)
    ensures ViewIsCatalogue(Run(Initial, actions))
    ensures !Run(Initial, actions).loading
  {
    RunInvariants(Initial, actions);
  }
}
