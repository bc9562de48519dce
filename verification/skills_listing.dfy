/** `GET /api/skills`: the page parameters and their clamping, the sort
    order handed to the database, the filter every listed row passes, and
    the page of matching rows returned with the total and the page count. */
module SkillsListing {
  import opened Wrappers
  import opened Text
  import opened Catalog

  const DefaultPage := 1
  const DefaultPageSize := 20
  const MaxPageSize := 50

  datatype Pagination = Pagination(page: int, pageSize: int)

  /** The distance between two integers. */
  function Dist(a: int, b: int): nat {
    if a < b then b - a else a - b
  }

  /** `parsePagination` on integer parameters: `page` is at least 1 and
      `pageSize` lies in 1..50, each the allowed value nearest to the one
      asked for; absent parameters give page 1 of 20 rows. */
  function ParsePagination(page: Option<int>, pageSize: Option<int>): (p: Pagination)
    ensures p.page >= 1 && 1 <= p.pageSize <= MaxPageSize
    ensures page.None? ==> p.page == DefaultPage
    ensures pageSize.None? ==> p.pageSize == DefaultPageSize
    ensures page.Some? ==> forall v :: v >= 1 ==> Dist(p.page, page.value) <= Dist(v, page.value)
    ensures pageSize.Some? ==>
      forall v :: 1 <= v <= MaxPageSize ==> Dist(p.pageSize, pageSize.value) <= Dist(v, pageSize.value)
  {
    var n := page.GetOr(DefaultPage);
    var s := pageSize.GetOr(DefaultPageSize);
    assert page.Some? ==> n == page.value;
    assert pageSize.Some? ==> s == pageSize.value;
    Pagination(if n < 1 then 1 else n, if s < 1 then 1 else if s > MaxPageSize then MaxPageSize else s)
  }

  /** Clamping is idempotent: parameters that are already in range come back
      unchanged. */
  lemma ParsePaginationFixesValid(page: int, pageSize: int)
    requires page >= 1 && 1 <= pageSize <= MaxPageSize
    ensures ParsePagination(Some(page), Some(pageSize)) == Pagination(page, pageSize)
  {
  }

  /** The number of pages `Math.ceil(total / pageSize)`: the fewest pages of
      `pageSize` rows that hold `total` rows. */
  function TotalPages(total: nat, pageSize: int): (n: nat)
    requires pageSize >= 1
    ensures n * pageSize >= total
    ensures n > 0 ==> (n - 1) * pageSize < total
  {
    (total + pageSize - 1) / pageSize
  }

  /** `skip` of the query: the rows on the pages before `page`. */
  function Skip(p: Pagination): nat
    requires p.page >= 1 && p.pageSize >= 1
  {
    (p.page - 1) * p.pageSize
  }

  /** `skip`/`take` on the matching rows. */
  function PageOf<T>(m: seq<T>, p: Pagination): (items: seq<T>)
    requires p.page >= 1 && p.pageSize >= 1
    ensures |items| <= p.pageSize
    ensures Skip(p) >= |m| ==> items == []
    ensures Skip(p) < |m| ==> items == m[Skip(p)..if Skip(p) + p.pageSize <= |m| then Skip(p) + p.pageSize else |m|]
  {
    var lo := if Skip(p) <= |m| then Skip(p) else |m|;
    var hi := if Skip(p) + p.pageSize <= |m| then Skip(p) + p.pageSize else |m|;
    m[lo..hi]
  }

  /** Pages 1..k of the rows, concatenated. */
  function PagesThrough<T>(m: seq<T>, pageSize: int, k: nat): seq<T>
    requires pageSize >= 1
  {
    if k == 0 then [] else PagesThrough(m, pageSize, k - 1) + PageOf(m, Pagination(k, pageSize))
  }

  /** The first k pages are the first k * pageSize rows. */
  lemma {:induction false} PagesThroughIsPrefix<T>(m: seq<T>, pageSize: int, k: nat)
    requires pageSize >= 1
    ensures PagesThrough(m, pageSize, k) == m[..if k * pageSize <= |m| then k * pageSize else |m|]
  {
    if k > 0 {
      PagesThroughIsPrefix(m, pageSize, k - 1);
      var lo := (k - 1) * pageSize;
      var end := k * pageSize;
      assert lo + pageSize == end;
      assert Skip(Pagination(k, pageSize)) == lo;
      if lo < |m| {
        var hi := if end <= |m| then end else |m|;
        assert PageOf(m, Pagination(k, pageSize)) == m[lo..hi];
        assert m[..lo] + m[lo..hi] == m[..hi];
      }
    }
  }

  lemma MulMonotone(a: int, b: int, c: nat)
    requires a <= b
    ensures a * c <= b * c
  {
    assert b * c - a * c == (b - a) * c;
  }

  /** A page that starts at or after the `n`-th page boundary, when `n`
      pages hold all the rows, is empty. */
  lemma PageAfterLastIsEmpty<T>(m: seq<T>, pageSize: int, page: int, n: nat)
    requires pageSize >= 1 && n * pageSize >= |m| && page > n
    ensures PageOf(m, Pagination(page, pageSize)) == []
  {
    var before := page - 1;
    MulMonotone(n, before, pageSize);
  }

  /** Paging loses and repeats nothing: pages 1..totalPages, in order, are
      exactly the matching rows, and every later page is empty. */
  lemma PagesCoverRows<T>(m: seq<T>, pageSize: int, page: int)
    requires pageSize >= 1
    ensures PagesThrough(m, pageSize, TotalPages(|m|, pageSize)) == m
    ensures page > TotalPages(|m|, pageSize) ==> PageOf(m, Pagination(page, pageSize)) == []
  {
    var n := TotalPages(|m|, pageSize);
    PagesThroughIsPrefix(m, pageSize, n);
    assert m[..|m|] == m;
    if page > n {
      PageAfterLastIsEmpty(m, pageSize, page, n);
    }
  }

  datatype SortField = Downloads | Rating | CreatedAt

  datatype Order = Order(field: SortField, descending: bool)

  /** The `orderBy` of a listing: "popular" sorts by downloads, "rating" by
      rating, anything else (the default is "newest") by creation time;
      always newest or highest first. */
  function OrderFor(sort: Option<string>): (o: Order)
    ensures o.descending
    ensures o.field == Downloads <==> sort == Some("popular")
    ensures o.field == Rating <==> sort == Some("rating")
    ensures o.field == CreatedAt <==> sort != Some("popular") && sort != Some("rating")
  {
    var s := sort.GetOr("newest");
    Order(if s == "popular" then Downloads else if s == "rating" then Rating else CreatedAt, true)
  }

  /** An absent `sort` is the default "newest", and every value other than
      "popular" and "rating" falls back to the same newest-first order. */
  lemma UnknownSortIsNewest(sort: string)
    requires sort != "popular" && sort != "rating"
    ensures OrderFor(None) == OrderFor(Some("newest")) == OrderFor(Some(sort)) == Order(CreatedAt, true)
  {
  }

  /** The query-string filters as they arrive (before trimming). */
  datatype RawQuery = RawQuery(q: Option<string>, category: Option<string>, compatibility: Option<string>,
                               tags: seq<string>)

  /** `searchParams.get(k)?.trim()` used as a condition: present and not
      empty once trimmed. */
  function Filter(param: Option<string>): (f: Option<string>)
    ensures f.Some? <==> param.Some? && Trim(param.value) != ""
    ensures f.Some? ==> f.value == Trim(param.value)
  {
    if param.Some? && Trim(param.value) != "" then Some(Trim(param.value)) else None
  }

  /** A parameter already trimmed filters the same as the padded one. */
  lemma FilterIgnoresPadding(param: string)
    ensures Filter(Some(Trim(param))) == Filter(Some(param))
  {
    TrimIdempotent(param);
  }

  /** Prisma's `contains` with `mode: "insensitive"` (ASCII case folding). */
  predicate ContainsInsensitive(hay: string, needle: string) {
    Contains(Lower(hay), Lower(needle))
  }

  /** The listing's `where` clause: public and published rows, narrowed by
      every filter that is present. */
  predicate Listed(rec: SkillRecord, query: RawQuery) {
    var q := Filter(query.q);
    var category := Filter(query.category);
    var compatibility := Filter(query.compatibility);
    && rec.isPublic
    && rec.status == Published
    && (q.Some? ==>
          || ContainsInsensitive(rec.title, q.value)
          || ContainsInsensitive(rec.description, q.value)
          || Lower(q.value) in rec.tags)
    && (category.Some? ==> Lower(rec.category) == Lower(category.value))
    && (compatibility.Some? ==> Lower(compatibility.value) in rec.compatibility)
    && (|query.tags| > 0 ==> exists t :: t in query.tags && Lower(t) in rec.tags)
  }

  /** The rows the `where` clause selects, in the database's order. */
  function Matches(rows: seq<SkillRecord>, query: RawQuery): (m: seq<SkillRecord>)
    ensures |m| <= |rows|
    ensures forall r :: r in m <==> r in rows && Listed(r, query)
  {
    if |rows| == 0 then []
    else
      var rest := Matches(rows[1..], query);
      assert forall r :: r in rows <==> r == rows[0] || r in rows[1..];
      (if Listed(rows[0], query) then [rows[0]] else []) + rest
  }

  /** The selection keeps the database's order and every repetition: it is
      computed row by row, and a listing split in two is selected part by
      part. */
  lemma {:induction false} MatchesAppend(a: seq<SkillRecord>, b: seq<SkillRecord>, query: RawQuery)
    ensures Matches(a + b, query) == Matches(a, query) + Matches(b, query)
    ensures Matches([], query) == []
    decreases |a|
  {
    if |a| > 0 {
      assert (a + b)[1..] == a[1..] + b;
      MatchesAppend(a[1..], b, query);
    } else {
      assert a + b == b;
    }
  }

  /** One row is selected exactly when the `where` clause holds of it. */
  lemma MatchesOne(rec: SkillRecord, query: RawQuery)
    ensures Matches([rec], query) == if Listed(rec, query) then [rec] else []
  {
    assert [rec][1..] == [];
  }

  /** The body of the response. */
  datatype ListResponse = ListResponse(page: int, pageSize: int, total: nat, totalPages: nat, items: seq<SkillRecord>)

  /** `GET`: the database returns the rows in the requested order (`sorted`);
      the response carries the matching rows of the requested page, their
      total, and the page count. */
  function ListSkills(sorted: Order -> seq<SkillRecord>, sort: Option<string>, page: Option<int>,
                      pageSize: Option<int>, query: RawQuery): (r: ListResponse)
    ensures r.page >= 1 && 1 <= r.pageSize <= MaxPageSize && |r.items| <= r.pageSize
    ensures r.total == |Matches(sorted(OrderFor(sort)), query)|
    ensures r.totalPages * r.pageSize >= r.total && (r.totalPages > 0 ==> (r.totalPages - 1) * r.pageSize < r.total)
    ensures forall x :: x in r.items ==> x in sorted(OrderFor(sort)) && Listed(x, query)
    ensures Pagination(r.page, r.pageSize) == ParsePagination(page, pageSize)
    ensures r.items == PageOf(Matches(sorted(OrderFor(sort)), query), ParsePagination(page, pageSize))
  {
    var p := ParsePagination(page, pageSize);
    var m := Matches(sorted(OrderFor(sort)), query);
    var items := PageOf(m, p);
    assert forall x :: x in items ==> x in m;
    ListResponse(p.page, p.pageSize, |m|, TotalPages(|m|, p.pageSize), items)
  }

  /** Draft, archived and private rows are never listed, whatever the
      filters. */
  lemma OnlyPublicPublishedListed(rec: SkillRecord, query: RawQuery)
    requires !rec.isPublic || rec.status != Published
    ensures !Listed(rec, query)
  {
  }

  /** Without filters the listing is exactly the public, published rows;
      blank filters count as absent. */
  lemma BlankFiltersListAllPublished(rec: SkillRecord, blank: string)
    requires Trim(blank) == ""
    ensures Listed(rec, RawQuery(None, None, None, [])) <==> rec.isPublic && rec.status == Published
    ensures Listed(rec, RawQuery(Some(blank), Some(blank), Some(blank), [])) <==>
            rec.isPublic && rec.status == Published
  {
  }

  /** The category filter is case-insensitive on the row's side too: a row
      whose category differs only in letter case is listed alike. */
  lemma CategoryCaseIrrelevant(rec: SkillRecord, query: RawQuery)
    ensures Listed(rec.(category := Lower(rec.category)), query) <==> Listed(rec, query)
  {
    LowerIdempotent(rec.category);
  }

  /** Filters only narrow: a row listed with a filter is listed without it. */
  lemma FiltersNarrow(rec: SkillRecord, query: RawQuery)
    requires Listed(rec, query)
    ensures Listed(rec, query.(q := None))
    ensures Listed(rec, query.(category := None))
    ensures Listed(rec, query.(compatibility := None))
    ensures Listed(rec, query.(tags := []))
  {
  }
}
