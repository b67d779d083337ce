/**
 * The catalogue page of `src/pages/Products.js`: the category buttons
 * (`'Todos'` followed by each category once) and the list of products that
 * pass the selected category and the search box. The page's own list of
 * demonstration products is a parameter here; the selected category and the
 * search term are the page's two state values.
 */
module ProductsPage {
  import opened Text
  import opened Collections

  /** One product card of the page. */
  datatype Product = Product(id: nat, name: string, description: string, image: string, category: string)

  /** The category button that selects every product; also the initial selection. */
  const All := "Todos"

  /** The initial search term. */
  const NoSearch := ""

  /** `allProducts.map(product => product.category)`. */
  function CategoryColumn(products: seq<Product>): (cs: seq<string>)
    ensures |cs| == |products| && forall i :: 0 <= i < |products| ==> cs[i] == products[i].category
  {
    if products == [] then [] else [products[0].category] + CategoryColumn(products[1..])
  }

  /** `['Todos', ...new Set(allProducts.map(product => product.category))]`. */
  function Categories(products: seq<Product>): (r: seq<string>)
    ensures |r| >= 1 && r[0] == All
    ensures forall c :: c in r[1..] <==> exists p :: p in products && p.category == c
    ensures NoDuplicates(r[1..])
  {
    var column := CategoryColumn(products);
    var r := [All] + Distinct(column);
    assert r[1..] == Distinct(column);
    forall c ensures c in column <==> exists p :: p in products && p.category == c {
      if c in column {
        var i :| 0 <= i < |column| && column[i] == c;
        assert products[i] in products;
      }
    }
    r
  }

  /** The category buttons after `'Todos'` come in the order in which their categories first occur. */
  lemma CategoriesInFirstOccurrenceOrder(products: seq<Product>)
    ensures forall i, j :: 1 <= i < j < |Categories(products)| ==>
      FirstIndex(CategoryColumn(products), Categories(products)[i]) < FirstIndex(CategoryColumn(products), Categories(products)[j])
  {
    var column := CategoryColumn(products);
    var r := Categories(products);
    assert r[1..] == Distinct(column);
    DistinctInFirstOccurrenceOrder(column);
    forall i, j | 1 <= i < j < |r| ensures FirstIndex(column, r[i]) < FirstIndex(column, r[j]) {
      assert r[i] == Distinct(column)[i - 1] && r[j] == Distinct(column)[j - 1];
    }
  }

  /** `selectedCategory === 'Todos' || product.category === selectedCategory`. */
  predicate MatchesCategory(selected: string, p: Product)
  {
    selected == All || p.category == selected
  }

  /** The lower-cased search term occurs in the lower-cased name or description. */
  predicate MatchesSearch(term: string, p: Product)
  {
    Contains(Lower(p.name), Lower(term)) || Contains(Lower(p.description), Lower(term))
  }

  /** The test the page's `filter` callback applies. */
  function Keeps(selected: string, term: string): Product -> bool
  {
    p => MatchesCategory(selected, p) && MatchesSearch(term, p)
  }

  /** `filteredProducts`: the products that pass, in the order of the page's list. */
  function FilteredProducts(products: seq<Product>, selected: string, term: string): (r: seq<Product>)
    ensures IsSubsequence(r, products)
    ensures forall p :: p in r <==> p in products && MatchesCategory(selected, p) && MatchesSearch(term, p)
  {
    FilterIsSubsequence(products, Keeps(selected, term));
    Filter(products, Keeps(selected, term))
  }

  /** The empty search term occurs in every text, also after lower-casing. */
  lemma EmptySearchMatches(p: Product)
    ensures MatchesSearch(NoSearch, p)
  {
    assert Lower(NoSearch) == "";
    ContainsEmpty(Lower(p.name));
  }

  /** With `'Todos'` selected and nothing typed, the page shows every product, in order. */
  lemma InitialStateShowsAll(products: seq<Product>)
    ensures FilteredProducts(products, All, NoSearch) == products
  {
    forall p | p in products ensures Keeps(All, NoSearch)(p) {
      EmptySearchMatches(p);
    }
    FilterKeepsAll(products, Keeps(All, NoSearch));
  }

  /** Choosing a category other than `'Todos'` shows only products of that category. */
  lemma SelectedCategoryOnly(products: seq<Product>, selected: string, term: string)
    requires selected != All
    ensures forall p :: p in FilteredProducts(products, selected, term) ==> p.category == selected
  {
  }

  /** Selecting a category never shows more than `'Todos'` shows for the same search. */
  lemma CategoryNarrows(products: seq<Product>, selected: string, term: string)
    ensures forall p :: p in FilteredProducts(products, selected, term) ==> p in FilteredProducts(products, All, term)
  {
  }

  /** Whether the page shows its "no products found" message. */
  predicate ShowsNoResults(products: seq<Product>, selected: string, term: string)
  {
    |FilteredProducts(products, selected, term)| == 0
  }

  /** The message appears exactly when no product of the list passes both tests. */
  lemma NoResultsIff(products: seq<Product>, selected: string, term: string)
    ensures ShowsNoResults(products, selected, term) <==>
      forall p :: p in products ==> !(MatchesCategory(selected, p) && MatchesSearch(term, p))
  {
    var r := FilteredProducts(products, selected, term);
    if r != [] {
      assert r[0] in r;
    }
  }
}
