/**
 * The product-listing endpoint (GET /products): how the query parameters
 * become a store filter and a sort specification, where the requested page
 * window starts, and the pagination envelope sent back to the client.
 *
 * The store itself (counting and fetching documents) is not modelled: the
 * number of matching documents and the fetched page are inputs.
 */
module Products {
  import opened Wrappers
  import Decimal

  /** A product document, shaped by the product schema. */
  datatype Product = Product(
    id: int,
    title: string,
    description: string,
    code: string,
    price: real,
    status: bool,
    stock: int,
    category: string,
    available: bool)

  /**
   * The query string of a listing request. `limit` and `page` hold the value
   * `parseInt` produced, or None when the parameter is absent; every other
   * parameter is the raw text, or None when absent.
   */
  datatype Query = Query(
    limit: Option<nat>,
    page: Option<nat>,
    sort: Option<string>,
    categoria: Option<string>,
    minPrice: Option<string>,
    maxPrice: Option<string>,
    search: Option<string>)
  {
    /** Page size; 10 when the parameter is absent. */
    function Limit(): (l: nat)
      ensures limit.None? ==> l == 10
      ensures limit.Some? ==> l == limit.value
    {
      limit.GetOr(10)
    }

    /** Requested page, counted from 1; 1 when the parameter is absent. */
    function Page(): (p: nat)
      ensures page.None? ==> p == 1
      ensures page.Some? ==> p == page.value
    {
      page.GetOr(1)
    }
  }

  /** JavaScript truthiness of a query parameter: present and not empty. */
  predicate Given(v: Option<string>) {
    v.Some? && v.value != ""
  }

  /** The text `v || ''` writes into a template literal. */
  function OrEmpty(v: Option<string>): (s: string)
    ensures Given(v) ==> s == v.value
    ensures !Given(v) ==> s == ""
  {
    if v.Some? then v.value else ""
  }

  // ---------------------------------------------------------------------
  // Filter
  // ---------------------------------------------------------------------

  /**
   * Document fields the endpoint names. The search and sort code names the
   * field `name`, although the product schema calls it `title`.
   */
  datatype Field = Name | Description | Price | CreatedAt

  /**
   * A price constraint. Each bound holds the text handed to `parseFloat`;
   * None means that side is unconstrained.
   */
  datatype PriceRange = PriceRange(gte: Option<string>, lte: Option<string>)

  /** `{ field: { $regex: pattern, $options: options } }`. */
  datatype RegexClause = RegexClause(field: Field, pattern: string, options: string)

  /**
   * The filter object: an exact category match, a price range and an
   * `$or` list of regex clauses, each present or absent.
   */
  datatype Filter = Filter(
    category: Option<string>,
    price: Option<PriceRange>,
    anyOf: Option<seq<RegexClause>>)

  /** Builds the filter from the query, one optional constraint at a time. */
  function BuildFilter(q: Query): (f: Filter)
    ensures f.category.Some? <==> Given(q.categoria)
    ensures f.category.Some? ==> f.category.value == q.categoria.value
    ensures f.price.Some? <==> Given(q.minPrice) || Given(q.maxPrice)
    ensures f.price.Some? ==>
              && (f.price.value.gte.Some? <==> Given(q.minPrice))
              && (f.price.value.lte.Some? <==> Given(q.maxPrice))
              && (f.price.value.gte.Some? ==> f.price.value.gte.value == q.minPrice.value)
              && (f.price.value.lte.Some? ==> f.price.value.lte.value == q.maxPrice.value)
    ensures f.anyOf.Some? <==> Given(q.search)
    ensures f.anyOf.Some? ==>
              f.anyOf.value == [RegexClause(Name, q.search.value, "i"),
                                RegexClause(Description, q.search.value, "i")]
  {
    var category := if Given(q.categoria) then Some(q.categoria.value) else None;
    var price :=
      if Given(q.minPrice) || Given(q.maxPrice) then
        Some(PriceRange(
          if Given(q.minPrice) then Some(q.minPrice.value) else None,
          if Given(q.maxPrice) then Some(q.maxPrice.value) else None))
      else None;
    var anyOf :=
      if Given(q.search) then
        Some([RegexClause(Name, q.search.value, "i"), RegexClause(Description, q.search.value, "i")])
      else None;
    Filter(category, price, anyOf)
  }

  /**
   * The text a product document holds in a field a regex clause can name,
   * or None when the document has no text there. A product has no `name`
   * field (its schema has `title`).
   */
  function FieldText(p: Product, field: Field): Option<string> {
    match field
    case Description => Some(p.description)
    case _ => None
  }

  /** A regex clause holds when the field has text and the pattern matches it. */
  predicate ClauseHolds(c: RegexClause, p: Product, regexTest: (string, string, string) -> bool) {
    match FieldText(p, c.field)
    case Some(text) => regexTest(c.pattern, c.options, text)
    case None => false
  }

  /**
   * What the store does with a filter: every present constraint must hold,
   * and at least one clause of a present `$or`. `parseFloat` and the regex
   * engine are parameters.
   */
  predicate Matches(f: Filter, p: Product, parseFloat: string -> real,
                    regexTest: (string, string, string) -> bool)
  {
    && (f.category.Some? ==> p.category == f.category.value)
    && (f.price.Some? ==>
          && (f.price.value.gte.Some? ==> p.price >= parseFloat(f.price.value.gte.value))
          && (f.price.value.lte.Some? ==> p.price <= parseFloat(f.price.value.lte.value)))
    && (f.anyOf.Some? ==>
          exists i :: 0 <= i < |f.anyOf.value| && ClauseHolds(f.anyOf.value[i], p, regexTest))
  }

  /**
   * A product passes the built filter exactly when it satisfies every given
   * parameter. The category, lower and upper price bounds are independent;
   * the search only ever matches the description, because the clause on
   * `name` finds no such field on a product.
   */
  lemma FilterMeaning(q: Query, p: Product, parseFloat: string -> real,
                      regexTest: (string, string, string) -> bool)
    ensures Matches(BuildFilter(q), p, parseFloat, regexTest) <==>
              && (Given(q.categoria) ==> p.category == q.categoria.value)
              && (Given(q.minPrice) ==> p.price >= parseFloat(q.minPrice.value))
              && (Given(q.maxPrice) ==> p.price <= parseFloat(q.maxPrice.value))
              && (Given(q.search) ==> regexTest(q.search.value, "i", p.description))
  {
    var f := BuildFilter(q);
    if Given(q.search) {
      var clauses := f.anyOf.value;
      assert !ClauseHolds(clauses[0], p, regexTest);
      assert ClauseHolds(clauses[1], p, regexTest) <==> regexTest(q.search.value, "i", p.description);
    }
  }

  // ---------------------------------------------------------------------
  // Sort
  // ---------------------------------------------------------------------

  /** Maps the `sort` parameter to a sort specification: field to 1 or -1. */
  function BuildSort(sort: Option<string>): (spec: map<Field, int>)
    ensures spec == map[] <==> !Given(sort)
    ensures |spec| <= 1
    ensures forall f :: f in spec ==> spec[f] == 1 || spec[f] == -1
    ensures sort == Some("name_asc") ==> spec == map[Name := 1]
    ensures sort == Some("name_desc") ==> spec == map[Name := -1]
    ensures sort == Some("date_asc") ==> spec == map[CreatedAt := 1]
    ensures sort == Some("date_desc") ==> spec == map[CreatedAt := -1]
    ensures sort == Some("asc") ==> spec == map[Price := 1]
    ensures Given(sort) && sort.value !in {"name_asc", "name_desc", "date_asc", "date_desc", "asc"} ==>
              spec == map[Price := -1]
  {
    if !Given(sort) then map[]
    else if sort.value == "name_asc" then map[Name := 1]
    else if sort.value == "name_desc" then map[Name := -1]
    else if sort.value == "date_asc" then map[CreatedAt := 1]
    else if sort.value == "date_desc" then map[CreatedAt := -1]
    else map[Price := if sort.value == "asc" then 1 else -1]
  }

  /** A `sort` token that selects ordering by `field` in direction `dir`. */
  function SortToken(field: Field, dir: int): string {
    match field
    case Name => if dir == 1 then "name_asc" else "name_desc"
    case CreatedAt => if dir == 1 then "date_asc" else "date_desc"
    case _ => if dir == 1 then "asc" else "desc"
  }

  /**
   * Every ordering the endpoint can produce is reachable: for each sortable
   * field and direction, some token yields exactly that one-key spec.
   */
  lemma SortTokenRoundTrip(field: Field, dir: int)
    requires field in {Name, CreatedAt, Price}
    requires dir == 1 || dir == -1
    ensures BuildSort(Some(SortToken(field, dir))) == map[field := dir]
  {
  }

  // ---------------------------------------------------------------------
  // Pagination
  // ---------------------------------------------------------------------

  /** `Math.ceil(total / limit)`: the number of pages needed to show `total` documents. */
  function TotalPages(total: nat, limit: nat): (pages: nat)
    requires limit >= 1
    ensures pages * limit >= total
    ensures total > 0 ==> (pages - 1) * limit < total
    ensures pages == 0 <==> total == 0
  {
    if total % limit == 0 then total / limit else total / limit + 1
  }

  /** No smaller page count covers `total` documents: TotalPages is the ceiling. */
  lemma TotalPagesIsLeast(total: nat, limit: nat, n: nat)
    requires limit >= 1
    requires n * limit >= total
    ensures TotalPages(total, limit) <= n
  {
  }

  /** Multiplying by the same natural keeps the order. */
  lemma MulMonotone(a: nat, b: nat, c: nat)
    requires a <= b
    ensures a * c <= b * c
  {
  }

  /** `(page - 1) * limit`: how many matching documents precede the page. */
  function Offset(page: nat, limit: nat): (skip: nat)
    requires page >= 1 && limit >= 1
    ensures skip % limit == 0 && skip / limit == page - 1
  {
    MulDivExact(page - 1, limit);
    (page - 1) * limit
  }

  lemma MulDivExact(k: nat, limit: nat)
    requires limit >= 1
    ensures (k * limit) % limit == 0 && (k * limit) / limit == k
  {
    var x := k * limit;
    var a, r := x / limit, x % limit;
    assert (k - a) * limit == r by {
      assert x == a * limit + r;
    }
    ZeroMultiple(k - a, limit);
  }

  /** A multiple of `d` that lies in [0, d) is zero. */
  lemma ZeroMultiple(c: int, d: nat)
    requires d >= 1 && 0 <= c * d < d
    ensures c == 0
  {
  }

  /** Consecutive pages start exactly `limit` documents apart. */
  lemma ConsecutiveOffsets(page: nat, limit: nat)
    requires page >= 1 && limit >= 1
    ensures Offset(page + 1, limit) == Offset(page, limit) + limit
  {
  }

  /**
   * A page holds at least one document exactly when its number is at most
   * TotalPages; the last page holds at most `limit` documents.
   */
  lemma {:induction false} PageInRange(total: nat, limit: nat, page: nat)
    requires limit >= 1 && page >= 1
    ensures Offset(page, limit) < total <==> page <= TotalPages(total, limit)
    ensures page == TotalPages(total, limit) ==> total - Offset(page, limit) <= limit
  {
    var pages := TotalPages(total, limit);
    if page <= pages {
      MulMonotone(page - 1, pages - 1, limit);
    } else {
      MulMonotone(pages, page - 1, limit);
    }
  }

  // ---------------------------------------------------------------------
  // Store request and response envelope
  // ---------------------------------------------------------------------

  /** The arguments of `find(filter).sort(sort).skip(skip).limit(limit)`. */
  datatype StoreQuery = StoreQuery(filter: Filter, sort: map<Field, int>, skip: nat, limit: nat)

  /** The page window the endpoint asks the store for. */
  function BuildStoreQuery(q: Query): (r: StoreQuery)
    requires q.Limit() >= 1 && q.Page() >= 1
    ensures r.filter == BuildFilter(q) && r.sort == BuildSort(q.sort)
    ensures r.limit == q.Limit()
    ensures r.skip % r.limit == 0 && r.skip / r.limit == q.Page() - 1
  {
    StoreQuery(BuildFilter(q), BuildSort(q.sort), Offset(q.Page(), q.Limit()), q.Limit())
  }

  /** The listing response. An absent JSON value (`null`) is None. */
  datatype Envelope = Envelope(
    status: string,
    payload: seq<Product>,
    totalPages: nat,
    prevPage: Option<nat>,
    nextPage: Option<nat>,
    page: nat,
    hasPrevPage: bool,
    hasNextPage: bool,
    prevLink: Option<string>,
    nextLink: Option<string>)

  /** The text of a link before its page number. */
  function LinkHead(q: Query): string {
    "/api/products?limit=" + Decimal.Digits(q.Limit()) + "&page="
  }

  /** The text of a link after its page number: every other parameter, `''` when not given. */
  function LinkTail(q: Query): string {
    "&sort=" + OrEmpty(q.sort) + "&categoria=" + OrEmpty(q.categoria)
    + "&minPrice=" + OrEmpty(q.minPrice) + "&maxPrice=" + OrEmpty(q.maxPrice)
    + "&search=" + OrEmpty(q.search)
  }

  /**
   * The link to page `p` of the same listing: the fixed head with the limit,
   * the page number's digits, then every other parameter.
   */
  function PageLink(q: Query, p: nat): (link: string)
    ensures |link| == |LinkHead(q)| + |Decimal.Digits(p)| + |LinkTail(q)|
    ensures link[..|LinkHead(q)|] == LinkHead(q)
    ensures link[|link| - |LinkTail(q)|..] == LinkTail(q)
    ensures var text := link[|LinkHead(q)|..|link| - |LinkTail(q)|];
            Decimal.AllDigits(text) && Decimal.Value(text) == p
  {
    var head, digits, tail := LinkHead(q), Decimal.Digits(p), LinkTail(q);
    var link := head + digits + tail;
    assert link[|head|..|link| - |tail|] == digits;
    Decimal.ValueOfDigits(p);
    link
  }

  /** Two links of one listing are equal exactly when they name the same page. */
  lemma PageLinkIdentifiesPage(q: Query, a: nat, b: nat)
    ensures PageLink(q, a) == PageLink(q, b) <==> a == b
  {
  }

  /** Builds the response from the request, the store's count and the fetched page. */
  function BuildEnvelope(q: Query, total: nat, products: seq<Product>): (e: Envelope)
    requires q.Limit() >= 1 && q.Page() >= 1
    ensures e.status == "success" && e.payload == products && e.page == q.Page()
    ensures e.totalPages == TotalPages(total, q.Limit())
    ensures e.hasPrevPage <==> q.Page() > 1
    ensures e.prevPage.Some? <==> e.hasPrevPage
    ensures e.prevLink.Some? <==> e.hasPrevPage
    ensures e.hasPrevPage ==> e.prevPage.value == q.Page() - 1 && e.prevLink.value == PageLink(q, q.Page() - 1)
    ensures e.hasNextPage <==> q.Page() < e.totalPages
    ensures e.nextPage.Some? <==> e.hasNextPage
    ensures e.nextLink.Some? <==> e.hasNextPage
    ensures e.hasNextPage ==> e.nextPage.value == q.Page() + 1 && e.nextLink.value == PageLink(q, q.Page() + 1)
  {
    var page := q.Page();
    var totalPages := TotalPages(total, q.Limit());
    Envelope(
      "success",
      products,
      totalPages,
      if page > 1 then Some(page - 1) else None,
      if page < totalPages then Some(page + 1) else None,
      page,
      page > 1,
      page < totalPages,
      if page > 1 then Some(PageLink(q, page - 1)) else None,
      if page < totalPages then Some(PageLink(q, page + 1)) else None)
  }

  /**
   * The envelope agrees with the window fetched from the store: there is a
   * previous page exactly when documents were skipped, and a next page
   * exactly when matching documents remain after this window. The two
   * links then point to different pages.
   */
  lemma {:induction false} EnvelopeMatchesWindow(q: Query, total: nat, products: seq<Product>)
    requires q.Limit() >= 1 && q.Page() >= 1
    ensures var e, r := BuildEnvelope(q, total, products), BuildStoreQuery(q);
            && (e.hasPrevPage <==> r.skip > 0)
            && (e.hasNextPage <==> r.skip + r.limit < total)
            && (e.hasPrevPage && e.hasNextPage ==> e.prevLink.value != e.nextLink.value)
  {
    var page, limit := q.Page(), q.Limit();
    var e, r := BuildEnvelope(q, total, products), BuildStoreQuery(q);
    assert r.skip == Offset(page, limit);
    assert e.hasPrevPage <==> r.skip > 0 by {
      assert r.skip / limit == page - 1;
    }
    assert e.hasNextPage <==> r.skip + r.limit < total by {
      PageInRange(total, limit, page + 1);
      ConsecutiveOffsets(page, limit);
    }
    if e.hasPrevPage && e.hasNextPage {
      PageLinkIdentifiesPage(q, page - 1, page + 1);
    }
  }
}
