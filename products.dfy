/** The product catalogue screen (src/components/products/products-management.tsx): the
    category list, the search-and-category filter, and the add and delete handlers. */
module Products {
  import opened Seqs
  import opened Text
  import opened UiLists

  datatype Product = Product(id: string, name: string, category: string, price: int, cost: int, stock: int)

  /** What the new-product dialog hands back: a record without id. */
  datatype ProductDraft = ProductDraft(name: string, category: string, price: int, cost: int, stock: int)

  const All: string := "all"

  /** The records the screen starts with. */
  const MockProducts: seq<Product> := [
    Product("1", "红牛", "饮料", 15, 10, 48),
    Product("2", "农夫山泉", "饮料", 5, 2, 100),
    Product("3", "华子", "香烟", 60, 52, 20),
    Product("4", "中华", "香烟", 100, 90, 15),
    Product("5", "大红袍茶", "茶叶", 20, 8, 30),
    Product("6", "瓜子", "零食", 15, 8, 40),
    Product("7", "花生", "零食", 10, 5, 50)
  ]

  function IdOf(p: Product): string { p.id }
  function CategoryOf(p: Product): string { p.category }

  /** The record `{ ...draft, id }`. */
  function WithId(d: ProductDraft, id: string): Product {
    Product(id, d.name, d.category, d.price, d.cost, d.stock)
  }

  // ---------------------------------------------------------------------------
  // Categories

  /** `Array.from(new Set(products.map(p => p.category)))`. */
  function Categories(ps: seq<Product>): seq<string> {
    Dedup(Map(ps, CategoryOf))
  }

  /** The category list has no repeats, holds exactly the categories of the products, and
      lists them in the order they first occur. */
  lemma CategoriesExact(ps: seq<Product>)
    ensures NoDuplicates(Categories(ps))
    ensures forall c :: c in Categories(ps) <==> exists i :: 0 <= i < |ps| && ps[i].category == c
    ensures forall i, j :: 0 <= i < j < |Categories(ps)| ==>
      FirstIndex(Map(ps, CategoryOf), Categories(ps)[i]) < FirstIndex(Map(ps, CategoryOf), Categories(ps)[j])
  {
    var cats := Map(ps, CategoryOf);
    forall c ensures c in Categories(ps) <==> exists i :: 0 <= i < |ps| && ps[i].category == c {
      if c in Categories(ps) {
        var i :| 0 <= i < |cats| && cats[i] == c;
        assert ps[i].category == c;
      }
      if exists i :: 0 <= i < |ps| && ps[i].category == c {
        var i :| 0 <= i < |ps| && ps[i].category == c;
        assert cats[i] == c;
      }
    }
    DedupFirstOccurrenceOrder(cats);
  }

  // ---------------------------------------------------------------------------
  // Search

  /** The search test: the lower-cased name includes the lower-cased query, and the
      category filter is "all" or equals the category. */
  function MatchesSearch(query: string, categoryFilter: string): Product -> bool {
    (p: Product) => Contains(Lower(p.name), Lower(query)) && (categoryFilter == All || p.category == categoryFilter)
  }

  /** `filteredProducts`. */
  function FilteredProducts(ps: seq<Product>, query: string, categoryFilter: string): seq<Product> {
    Filter(ps, MatchesSearch(query, categoryFilter))
  }

  /** A product is listed exactly when it passes the search test, and the listing keeps
      the catalogue's order. */
  lemma FilteredProductsMeaning(ps: seq<Product>, more: seq<Product>, query: string, categoryFilter: string)
    ensures forall i :: 0 <= i < |FilteredProducts(ps, query, categoryFilter)| ==>
      FilteredProducts(ps, query, categoryFilter)[i] in ps
    ensures forall p :: p in FilteredProducts(ps, query, categoryFilter) <==>
      p in ps && Contains(Lower(p.name), Lower(query)) && (categoryFilter == All || p.category == categoryFilter)
    ensures FilteredProducts(ps + more, query, categoryFilter) ==
      FilteredProducts(ps, query, categoryFilter) + FilteredProducts(more, query, categoryFilter)
  {
    var r := FilteredProducts(ps, query, categoryFilter);
    forall p ensures p in r <==> p in ps && MatchesSearch(query, categoryFilter)(p) {
      if p in r {
        var i :| 0 <= i < |r| && r[i] == p;
      }
      if p in ps && MatchesSearch(query, categoryFilter)(p) {
        var i :| 0 <= i < |ps| && ps[i] == p;
      }
    }
    FilterConcat(ps, more, MatchesSearch(query, categoryFilter));
  }

  /** An empty search with category "all" lists the whole catalogue. */
  lemma EmptySearchListsAll(ps: seq<Product>)
    ensures FilteredProducts(ps, "", All) == ps
  {
    forall i | 0 <= i < |ps| ensures MatchesSearch("", All)(ps[i]) {
      ContainsEmpty(Lower(ps[i].name));
    }
    FilterAllPass(ps, MatchesSearch("", All));
  }

  /** The category filter starts out empty, so nothing is listed until a category is
      chosen (no product has an empty category). */
  lemma InitialFilterListsNothing(ps: seq<Product>, query: string)
    requires forall i :: 0 <= i < |ps| ==> ps[i].category != ""
    ensures FilteredProducts(ps, query, "") == []
  {
    FilterNonePass(ps, MatchesSearch(query, ""));
  }

  // ---------------------------------------------------------------------------
  // Ids

  lemma MockProductsArePositional()
    ensures IdsArePositions(MockProducts, IdOf) && UniqueKeys(MockProducts, IdOf)
  {
    assert DecimalString(1) == "1" && DecimalString(2) == "2" && DecimalString(3) == "3" && DecimalString(4) == "4";
    assert DecimalString(5) == "5" && DecimalString(6) == "6" && DecimalString(7) == "7";
    PositionalIds(MockProducts, IdOf, MockProducts[0]);
  }

  /** From the initial catalogue: delete product "3", then add one. The new product gets
      id "7", which product 花生 still carries. */
  lemma DeleteThenAddDuplicatesId(d: ProductDraft)
    ensures var rest := RemoveKey(MockProducts, IdOf, "3");
      var after := rest + [WithId(d, LengthId(|rest|))];
      LengthId(|rest|) == "7" && !UniqueKeys(after, IdOf)
  {
    MockProductsArePositional();
    var rest := RemoveKey(MockProducts, IdOf, "3");
    AddAfterRemoveReusesId(MockProducts, IdOf, 2, WithId(d, LengthId(|rest|)));
  }

  class ProductsState {
    var products: seq<Product>

    constructor ()
      ensures products == MockProducts
    {
      products := MockProducts;
    }

    /** `handleAddProduct`: append the draft with id `String(length + 1)`. */
    method AddProduct(draft: ProductDraft)
      modifies this
      ensures products == old(products) + [WithId(draft, DecimalString(|old(products)| + 1))]
      ensures IdsArePositions(old(products), IdOf) ==> IdsArePositions(products, IdOf)
    {
      var p := WithId(draft, LengthId(|products|));
      if IdsArePositions(products, IdOf) {
        PositionalIds(products, IdOf, p);
      }
      products := products + [p];
    }

    /** An add whose id is one more than the largest in use, so it never repeats one; on
        a list nothing was deleted from, it assigns the same id as `AddProduct`. */
    method AddProductWithFreshId(draft: ProductDraft)
      requires NumericKeys(products, IdOf)
      modifies this
      ensures products == old(products) + [WithId(draft, FreshId(old(products), IdOf))]
      ensures NumericKeys(products, IdOf)
      ensures UniqueKeys(old(products), IdOf) ==> UniqueKeys(products, IdOf)
      ensures IdsArePositions(old(products), IdOf) ==> products[|products| - 1].id == DecimalString(|old(products)| + 1)
    {
      var p := WithId(draft, FreshId(products, IdOf));
      FreshAppend(products, IdOf, p);
      products := products + [p];
    }

    /** `handleDeleteProduct`: keep the products whose id differs. */
    method DeleteProduct(id: string)
      modifies this
      ensures products == RemoveKey(old(products), IdOf, id)
      ensures forall i :: 0 <= i < |products| ==> products[i].id != id && products[i] in old(products)
      ensures forall i :: 0 <= i < |old(products)| && old(products)[i].id != id ==> old(products)[i] in products
      ensures (forall i :: 0 <= i < |old(products)| ==> old(products)[i].id != id) ==> products == old(products)
    {
      RemoveKeyMeaning(products, [], IdOf, id);
      products := RemoveKey(products, IdOf, id);
    }
  }
}
