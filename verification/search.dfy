/** The client-side part of the catalogue search: once the full product list
    has been fetched, keep the products whose title, description or category
    contains the lower-cased, trimmed query.
 */
module Search {
  import opened Text
  import opened Seqs
  import opened Catalog

  /** The query as it is compared: lower-cased first, then trimmed. */
  function SearchTerm(query: string): (term: string)
    ensures |term| <= |query|
    ensures forall i :: 0 <= i < |term| ==> !IsAsciiUpper(term[i])
    ensures |term| > 0 ==> !IsWhitespace(term[0]) && !IsWhitespace(term[|term| - 1])
    ensures exists a :: TrimmedAt(Lower(query), term, a)
  {
    var term := Trim(Lower(query));
    BlockHasNoCapitals(Lower(query), term);
    term
  }

  lemma BlockHasNoCapitals(s: string, block: string)
    requires forall i :: 0 <= i < |s| ==> !IsAsciiUpper(s[i])
    requires exists a :: TrimmedAt(s, block, a)
    ensures forall i :: 0 <= i < |block| ==> !IsAsciiUpper(block[i])
  {
    var a :| TrimmedAt(s, block, a);
    assert forall i :: 0 <= i < |block| ==> block[i] == s[a + i];
  }

  /** A query that is already lower-case and has no whitespace at its ends is
      compared as it is. */
  lemma SearchTermOfNormalQuery(query: string)
    requires forall i :: 0 <= i < |query| ==> !IsAsciiUpper(query[i])
    requires |query| > 0 ==> !IsWhitespace(query[0]) && !IsWhitespace(query[|query| - 1])
    ensures SearchTerm(query) == query
  {
    assert Lower(query) == query;
    assert TrimStart(query) == query;
    assert TrimEnd(query) == query;
  }

  /** A product is a hit when one of its three text fields, lower-cased,
      contains the term. */
  predicate Matches(p: Product, term: string) {
    || Includes(Lower(p.title), term)
    || Includes(Lower(p.description), term)
    || Includes(Lower(p.category), term)
  }

  /** A hit is a product one of whose lower-cased fields has the term as a
      substring. */
  lemma MatchesIff(p: Product, term: string)
    ensures Matches(p, term) <==>
      || (exists i :: OccursAt(Lower(p.title), term, i))
      || (exists i :: OccursAt(Lower(p.description), term, i))
      || (exists i :: OccursAt(Lower(p.category), term, i))
  {
    IncludesIff(Lower(p.title), term);
    IncludesIff(Lower(p.description), term);
    IncludesIff(Lower(p.category), term);
  }

  function FilterByTerm(products: seq<Product>, term: string): (r: seq<Product>)
    ensures IsSubsequence(r, products)
    ensures forall p :: multiset(r)[p] == if Matches(p, term) then multiset(products)[p] else 0
  {
    Filter(products, p => Matches(p, term))
  }

  /** `searchProductsApi` after its fetch: `products` is the fetched list.
      The result keeps the input order, contains only hits (soundness), and
      contains every hit of the input as often as the input does
      (completeness). */
  function SearchProducts(products: seq<Product>, query: string): (r: seq<Product>)
    ensures IsSubsequence(r, products)
    ensures forall i :: 0 <= i < |r| ==> Matches(r[i], SearchTerm(query))
    ensures forall i :: 0 <= i < |products| && Matches(products[i], SearchTerm(query)) ==> products[i] in r
    ensures forall p :: multiset(r)[p] == if Matches(p, SearchTerm(query)) then multiset(products)[p] else 0
  {
    var term := SearchTerm(query);
    FilterByTermMembers(products, term);
    FilterByTerm(products, term)
  }

  /** The kept products are hits, and every hit of the input is kept. */
  lemma FilterByTermMembers(products: seq<Product>, term: string)
    ensures forall i :: 0 <= i < |FilterByTerm(products, term)| ==> Matches(FilterByTerm(products, term)[i], term)
    ensures forall i :: 0 <= i < |products| && Matches(products[i], term) ==> products[i] in FilterByTerm(products, term)
  {
    var r := FilterByTerm(products, term);
    assert forall i :: 0 <= i < |r| ==> multiset(r)[r[i]] > 0;
    assert forall i :: 0 <= i < |products| ==> multiset(products)[products[i]] > 0;
  }

  /** Queries that differ only in the case of their letters find the same
      products. */
  lemma SearchIgnoresCase(products: seq<Product>, q1: string, q2: string)
    requires SameIgnoringCase(q1, q2)
    ensures SearchProducts(products, q1) == SearchProducts(products, q2)
  {
    LowerIgnoresCase(q1, q2);
  }

  /** Whitespace around the query does not change what it finds. */
  lemma SearchIgnoresPadding(products: seq<Product>, w1: string, q: string, w2: string)
    requires AllWhitespace(w1) && AllWhitespace(w2)
    ensures SearchProducts(products, w1 + q + w2) == SearchProducts(products, q)
  {
    LowerAppend(w1 + q, w2);
    LowerAppend(w1, q);
    LowerKeepsWhitespace(w1);
    LowerKeepsWhitespace(w2);
    TrimIgnoresPadding(w1, Lower(q), w2);
  }

  /** The two together: padding and letter case are both irrelevant. */
  lemma SearchEquivalentQueries(products: seq<Product>, w1: string, q1: string, w2: string,
                                w3: string, q2: string, w4: string)
    requires AllWhitespace(w1) && AllWhitespace(w2) && AllWhitespace(w3) && AllWhitespace(w4)
    requires SameIgnoringCase(q1, q2)
    ensures SearchProducts(products, w1 + q1 + w2) == SearchProducts(products, w3 + q2 + w4)
  {
    SearchIgnoresPadding(products, w1, q1, w2);
    SearchIgnoresPadding(products, w3, q2, w4);
    SearchIgnoresCase(products, q1, q2);
  }

  /** An empty or blank query finds the whole list, in order: the empty term
      is a substring of every field. */
  lemma BlankQueryFindsAll(products: seq<Product>, query: string)
    requires AllWhitespace(query)
    ensures SearchProducts(products, query) == products
  {
    LowerKeepsWhitespace(query);
    TrimAllWhitespace(query);
    assert SearchTerm(query) == [];
    forall i | 0 <= i < |products|
      ensures Matches(products[i], [])
    {
      IncludesEmpty(Lower(products[i].title));
    }
    FilterKeepsAll(products, p => Matches(p, []));
  }
}
