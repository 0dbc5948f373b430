/** The product admin and catalogue service of
    internal/api/v1/product/product_service.go. The products table is the
    `products` field of a `ProductService`; `categories` holds the category
    names the product queries join in. Prices are whole cents: the service
    formats them with "%.2f" for the database and parses them back, which the
    model does not repeat. Repository failures are parameters. */
module Products {
  import opened Wrappers
  import opened AppErrors
  import opened Uuids
  import Nulls
  import Text
  import Repo
  import Slugs

  const ErrInvalidCategoryID: Error := Plain("invalid category id")
  const ErrCategoryNotFound: Error := Plain("category not found")
  const ErrInvalidProductID: Error := Plain("invalid product id")
  const ErrProductNotFound: Error := Plain("product not found")

  /** The upper price bound ListPublic uses when none is given: 999999999.00. */
  const NoMaxPrice: int := 99999999900

  /** A row of the products table; `deleted` is `deleted_at IS NOT NULL`. */
  datatype Product = Product(
    id: Uuid, categoryId: Uuid, name: string, slug: string, description: Nulls.NullString,
    price: int, stock: int, sku: Nulls.NullString, imageUrl: Nulls.NullString,
    isActive: Nulls.NullBool, deleted: bool)

  datatype AdminResponse = AdminResponse(
    id: string, categoryName: string, name: string, slug: string, price: int, stock: int, sku: string, isActive: bool)

  datatype PublicResponse = PublicResponse(id: string, categoryName: string, name: string, slug: string, price: int)

  /** The category name the product queries join in; the join is taken to
      leave it empty when the category row is missing. */
  function CategoryName(categories: map<Uuid, string>, p: Product): string
  {
    if p.categoryId in categories then categories[p.categoryId] else ""
  }

  /** The reply of GetByIDAdmin: no description and no image URL. */
  function AdminResponseOf(categories: map<Uuid, string>, p: Product): AdminResponse
  {
    AdminResponse(p.id.text, CategoryName(categories, p), p.name, p.slug, p.price, p.stock, p.sku.str, p.isActive.b)
  }

  // ---------------------------------------------------------------------------
  // Create: slug and row
  // ---------------------------------------------------------------------------

  /** The create request. The controller has already refused an empty name
      or category id and a zero price or stock. */
  datatype NewProduct = NewProduct(
    categoryId: string, name: string, description: string, price: int, stock: int, sku: string, imageUrl: string)

  /** The slug Create stores: the name with spaces turned into '-' and
      lower-cased, then '-' and the first five characters of a fresh UUID. */
  function ProductSlug(name: string, suffix: string): (slug: string)
    ensures |slug| == |name| + 1 + |suffix|
    ensures slug[..|name|] == Slugs.DashedLower(name) && slug[|name|] == '-' && slug[|name| + 1..] == suffix
  {
    Slugs.DashedLower(name) + "-" + suffix
  }

  /** A row as Create inserts it. The table's default for `is_active` is not
      part of this model; it is taken to be true. */
  function Created(id: Uuid, categoryId: Uuid, req: NewProduct, suffix: string): Product
  {
    Product(id, categoryId, req.name, ProductSlug(req.name, suffix), Nulls.NewNullString(req.description),
            req.price, req.stock, Nulls.NewNullString(req.sku), Nulls.NewNullString(req.imageUrl),
            Nulls.NullBool(true, true), false)
  }

  // ---------------------------------------------------------------------------
  // Update: the patch
  // ---------------------------------------------------------------------------

  /** The update request; every field may be left out (empty, zero or absent). */
  datatype Patch = Patch(
    categoryId: string, name: string, description: string, price: int, stock: int,
    sku: string, imageUrl: string, isActive: Option<bool>)

  const EmptyPatch: Patch := Patch("", "", "", 0, 0, "", "", None)

  /** The row Update writes: each field of the stored row unless the request
      supplies it. A category id that does not parse is ignored, a price is
      supplied only when positive, a stock whenever it is not zero. */
  function Merge(p: Product, req: Patch): Product
  {
    p.(name := if req.name != "" then req.name else p.name,
       categoryId := if req.categoryId != "" && WellFormed(req.categoryId) then Parse(req.categoryId).value else p.categoryId,
       price := if req.price > 0 then req.price else p.price,
       stock := if req.stock != 0 then req.stock else p.stock,
       sku := if req.sku != "" then Nulls.NewNullString(req.sku) else p.sku,
       description := if req.description != "" then Nulls.NewNullString(req.description) else p.description,
       isActive := if req.isActive.Some? then Nulls.NullBool(req.isActive.value, true) else p.isActive)
  }

  /** Each field changes only when the request supplies it, and then takes the
      supplied value; the id, slug, image URL and deletion mark never change,
      so the request's image URL is ignored. */
  lemma MergeRules(p: Product, req: Patch)
    ensures var r := Merge(p, req);
      r.id == p.id && r.slug == p.slug && r.imageUrl == p.imageUrl && r.deleted == p.deleted &&
      (r.name == if req.name != "" then req.name else p.name) &&
      (r.categoryId == if WellFormed(req.categoryId) then Parse(req.categoryId).value else p.categoryId) &&
      (r.price == if req.price > 0 then req.price else p.price) &&
      (r.stock == if req.stock != 0 then req.stock else p.stock) &&
      (r.sku == if req.sku != "" then Nulls.NullString(req.sku, true) else p.sku) &&
      (r.description == if req.description != "" then Nulls.NullString(req.description, true) else p.description) &&
      (r.isActive == if req.isActive.Some? then Nulls.NullBool(req.isActive.value, true) else p.isActive)
  {
  }

  /** An empty request writes the stored row back unchanged. */
  lemma MergeEmpty(p: Product)
    ensures Merge(p, EmptyPatch) == p
  {
  }

  /** Applying the same request twice writes what applying it once does. */
  lemma MergeIdempotent(p: Product, req: Patch)
    ensures Merge(Merge(p, req), req) == Merge(p, req)
  {
  }

  /** A negative stock is written as given; a negative price is ignored. */
  lemma MergeSigns(p: Product, req: Patch)
    requires req.stock < 0 && req.price < 0
    ensures Merge(p, req).stock == req.stock && Merge(p, req).price == p.price
  {
  }

  // ---------------------------------------------------------------------------
  // Listing
  // ---------------------------------------------------------------------------

  /** The category filter of both list queries: set only when the id parses. */
  function CategoryFilter(categoryId: string): (c: Option<Uuid>)
    ensures c.Some? <==> WellFormed(categoryId)
    ensures c.Some? ==> Parse(categoryId) == c
  {
    if categoryId != "" then Parse(categoryId) else None
  }

  /** ListPublic's request; prices in cents. */
  datatype PublicRequest = PublicRequest(
    page: int, limit: int, search: string, categoryId: string, minPrice: int, maxPrice: int, sortBy: string)

  datatype PublicQuery = PublicQuery(
    paging: Repo.Paging, search: Nulls.NullString, minPrice: int, maxPrice: int, sortBy: string, category: Option<Uuid>)

  /** ListPublic's query: page and limit unnormalised, a zero maximum price
      replaced by 999999999.00, the category filter only for a parsable id. */
  function PublicQueryFor(req: PublicRequest): (q: PublicQuery)
    ensures q.paging == Repo.PagingFor(req.page, req.limit)
    ensures q.maxPrice == if req.maxPrice == 0 then NoMaxPrice else req.maxPrice
    ensures q.minPrice == req.minPrice && q.sortBy == req.sortBy
    ensures q.search == Nulls.NewNullString(req.search)
    ensures q.category == CategoryFilter(req.categoryId)
  {
    PublicQuery(
      Repo.PagingFor(req.page, req.limit), Nulls.NewNullString(req.search), req.minPrice,
      if req.maxPrice == 0 then NoMaxPrice else req.maxPrice, req.sortBy, CategoryFilter(req.categoryId))
  }

  datatype PublicRow = PublicRow(id: Uuid, categoryName: string, name: string, slug: string, price: int, totalCount: int)

  function PublicResponseOf(row: PublicRow): PublicResponse
  {
    PublicResponse(row.id.text, row.categoryName, row.name, row.slug, row.price)
  }

  function PublicCounts(rows: seq<PublicRow>): (r: seq<int>)
    ensures |r| == |rows| && forall i :: 0 <= i < |rows| ==> r[i] == rows[i].totalCount
  {
    seq(|rows|, i requires 0 <= i < |rows| => rows[i].totalCount)
  }

  /** `ListPublic` with `mapToPublicResponse`: one response per row in order,
      and the first non-zero row count as the total. */
  method ListPublic(req: PublicRequest, rows: seq<PublicRow>, fault: Option<Error>)
    returns (sent: PublicQuery, r: Result<(seq<PublicResponse>, int), Error>)
    ensures sent == PublicQueryFor(req)
    ensures fault.Some? ==> r == Failure(fault.value)
    ensures fault.None? ==>
      r.Success? && |r.value.0| == |rows| && (forall i :: 0 <= i < |rows| ==> r.value.0[i] == PublicResponseOf(rows[i])) &&
      r.value.1 == Repo.FirstNonZero(PublicCounts(rows))
  {
    sent := PublicQueryFor(req);
    if fault.Some? {
      return sent, Failure(fault.value);
    }
    var total := 0;
    var res := [];
    for i := 0 to |rows|
      invariant |res| == i && forall j :: 0 <= j < i ==> res[j] == PublicResponseOf(rows[j])
      invariant total == Repo.FirstNonZero(PublicCounts(rows)[..i])
    {
      Repo.FirstNonZeroStep(PublicCounts(rows), i, total);
      if total == 0 {
        total := rows[i].totalCount;
      }
      res := res + [PublicResponseOf(rows[i])];
    }
    assert PublicCounts(rows)[..|rows|] == PublicCounts(rows);
    r := Success((res, total));
  }

  datatype AdminQuery = AdminQuery(paging: Repo.Paging, search: Nulls.NullString, sortCol: string, category: Option<Uuid>)

  datatype AdminRow = AdminRow(
    id: Uuid, categoryName: string, name: string, slug: string, price: int, stock: int,
    sku: Nulls.NullString, isActive: Nulls.NullBool, totalCount: int)

  function AdminRowResponse(row: AdminRow): AdminResponse
  {
    AdminResponse(row.id.text, row.categoryName, row.name, row.slug, row.price, row.stock, row.sku.str, row.isActive.b)
  }

  function AdminCounts(rows: seq<AdminRow>): (r: seq<int>)
    ensures |r| == |rows| && forall i :: 0 <= i < |rows| ==> r[i] == rows[i].totalCount
  {
    seq(|rows|, i requires 0 <= i < |rows| => rows[i].totalCount)
  }

  /** `ListAdmin` with `mapToAdminResponse`: the sort column is passed as
      given, and the total is the first non-zero row count. */
  method ListAdmin(page: int, limit: int, search: string, sortCol: string, categoryId: string,
                   rows: seq<AdminRow>, fault: Option<Error>)
    returns (sent: AdminQuery, r: Result<(seq<AdminResponse>, int), Error>)
    ensures sent == AdminQuery(Repo.PagingFor(page, limit), Nulls.NewNullString(search), sortCol, CategoryFilter(categoryId))
    ensures fault.Some? ==> r == Failure(fault.value)
    ensures fault.None? ==>
      r.Success? && |r.value.0| == |rows| && (forall i :: 0 <= i < |rows| ==> r.value.0[i] == AdminRowResponse(rows[i])) &&
      r.value.1 == Repo.FirstNonZero(AdminCounts(rows))
  {
    sent := AdminQuery(Repo.PagingFor(page, limit), Nulls.NewNullString(search), sortCol, CategoryFilter(categoryId));
    if fault.Some? {
      return sent, Failure(fault.value);
    }
    var total := 0;
    var res := [];
    for i := 0 to |rows|
      invariant |res| == i && forall j :: 0 <= j < i ==> res[j] == AdminRowResponse(rows[j])
      invariant total == Repo.FirstNonZero(AdminCounts(rows)[..i])
    {
      Repo.FirstNonZeroStep(AdminCounts(rows), i, total);
      if total == 0 {
        total := rows[i].totalCount;
      }
      res := res + [AdminRowResponse(rows[i])];
    }
    assert AdminCounts(rows)[..|rows|] == AdminCounts(rows);
    r := Success((res, total));
  }

  // ---------------------------------------------------------------------------
  // The service
  // ---------------------------------------------------------------------------

  datatype CreateFaults = CreateFaults(category: Option<Error>, insert: Option<Error>, fetch: Option<Error>)

  datatype UpdateFaults = UpdateFaults(get: Option<Error>, write: Option<Error>, fetch: Option<Error>)

  class ProductService {
    var products: map<Uuid, Product>
    var categories: map<Uuid, string>

    /** Rows are keyed by their own canonical id. */
    predicate Valid()
      reads this
    {
      forall id :: id in products ==> products[id].id == id && Canonical(id)
    }

    constructor(categoryNames: map<Uuid, string>)
      ensures Valid() && products == map[] && categories == categoryNames
    {
      products := map[];
      categories := categoryNames;
    }

    /** `GetByIDAdmin`: a malformed id gives "invalid product id"; a
        repository error is returned as it is, a miss as sql.ErrNoRows. */
    function GetByIDAdmin(idStr: string, fault: Option<Error>): (r: Result<AdminResponse, Error>)
      reads this
      ensures r.Success? <==> WellFormed(idStr) && Parse(idStr).value in products && fault.None?
      ensures !WellFormed(idStr) ==> r == Failure(ErrInvalidProductID)
      ensures WellFormed(idStr) && r.Failure? ==> r.error == if fault.Some? then fault.value else ErrNoRows
      ensures r.Success? ==> r.value == AdminResponseOf(categories, products[Parse(idStr).value])
    {
      match Parse(idStr)
      case None => Failure(ErrInvalidProductID)
      case Some(id) =>
        match Repo.Get(products, id, fault)
        case Failure(e) => Failure(e)
        case Success(p) => Success(AdminResponseOf(categories, p))
    }

    /** `Create`: the category id must parse and name an existing category
        before anything is inserted. */
    method Create(req: NewProduct, suffix: string, id: Uuid, f: CreateFaults) returns (r: Result<AdminResponse, Error>)
      requires Valid() && Canonical(id) && id !in products && |suffix| == 5
      modifies this
      ensures Valid() && categories == old(categories)
      ensures !WellFormed(req.categoryId) ==> r == Failure(ErrInvalidCategoryID) && products == old(products)
      ensures WellFormed(req.categoryId) && (f.category.Some? || Parse(req.categoryId).value !in categories) ==>
        r == Failure(ErrCategoryNotFound) && products == old(products)
      ensures WellFormed(req.categoryId) && f.category.None? && Parse(req.categoryId).value in categories ==>
        if f.insert.Some? then r == Failure(f.insert.value) && products == old(products)
        else
          products == old(products)[id := Created(id, Parse(req.categoryId).value, req, suffix)] &&
          r == GetByIDAdmin(id.text, f.fetch)
    {
      if !WellFormed(req.categoryId) {
        return Failure(ErrInvalidCategoryID);
      }
      var categoryId := Parse(req.categoryId).value;
      if f.category.Some? || categoryId !in categories {
        return Failure(ErrCategoryNotFound);
      }
      if f.insert.Some? {
        return Failure(f.insert.value);
      }
      products := products[id := Created(id, categoryId, req, suffix)];
      FormatParse(id);
      r := GetByIDAdmin(id.text, f.fetch);
    }

    /** `Update`: a patch of the stored row, then the row read back. The new
        category id is not checked against the categories. */
    method Update(idStr: string, req: Patch, f: UpdateFaults) returns (r: Result<AdminResponse, Error>)
      requires Valid()
      modifies this
      ensures Valid() && categories == old(categories)
      ensures !WellFormed(idStr) ==> r == Failure(ErrInvalidProductID) && products == old(products)
      ensures WellFormed(idStr) && (f.get.Some? || Parse(idStr).value !in old(products)) ==>
        r == Failure(ErrProductNotFound) && products == old(products)
      ensures WellFormed(idStr) && f.get.None? && Parse(idStr).value in old(products) ==>
        var id := Parse(idStr).value;
        if f.write.Some? then r == Failure(f.write.value) && products == old(products)
        else products == old(products)[id := Merge(old(products)[id], req)] && r == GetByIDAdmin(idStr, f.fetch)
    {
      if !WellFormed(idStr) {
        return Failure(ErrInvalidProductID);
      }
      var id := Parse(idStr).value;
      if f.get.Some? || id !in products {
        return Failure(ErrProductNotFound);
      }
      var written := Merge(products[id], req);
      if f.write.Some? {
        return Failure(f.write.value);
      }
      products := products[id := written];
      r := GetByIDAdmin(idStr, f.fetch);
    }

    /** `Delete`: a soft delete by id. The statement reports no miss: an
        unknown id changes nothing and is not an error. */
    method Delete(idStr: string, fault: Option<Error>) returns (e: Option<Error>)
      requires Valid()
      modifies this
      ensures Valid() && categories == old(categories)
      ensures !WellFormed(idStr) ==> e == Some(ErrInvalidProductID) && products == old(products)
      ensures WellFormed(idStr) ==>
        var id := Parse(idStr).value;
        e == fault &&
        products == if fault.None? && id in old(products) then old(products)[id := old(products)[id].(deleted := true)] else old(products)
    {
      if !WellFormed(idStr) {
        return Some(ErrInvalidProductID);
      }
      var id := Parse(idStr).value;
      if fault.Some? {
        return fault;
      }
      if id in products {
        products := products[id := products[id].(deleted := true)];
      }
      e := None;
    }

    /** `Restore`: clears the deletion mark, then reads the row back. */
    method Restore(idStr: string, fault: Option<Error>, fetch: Option<Error>) returns (r: Result<AdminResponse, Error>)
      requires Valid()
      modifies this
      ensures Valid() && categories == old(categories)
      ensures !WellFormed(idStr) ==> r == Failure(ErrInvalidProductID) && products == old(products)
      ensures WellFormed(idStr) ==>
        var id := Parse(idStr).value;
        match Repo.Get(old(products), id, fault)
        case Failure(err) => r == Failure(err) && products == old(products)
        case Success(p) => products == old(products)[id := p.(deleted := false)] && r == GetByIDAdmin(idStr, fetch)
    {
      if !WellFormed(idStr) {
        return Failure(ErrInvalidProductID);
      }
      var id := Parse(idStr).value;
      var got := Repo.Get(products, id, fault);
      if got.Failure? {
        return Failure(got.error);
      }
      products := products[id := got.value.(deleted := false)];
      r := GetByIDAdmin(idStr, fetch);
    }
  }

  /** A successful Create replies with the row it inserted, in its category. */
  lemma CreateReadsBack(categories: map<Uuid, string>, id: Uuid, categoryId: Uuid, req: NewProduct, suffix: string)
    requires categoryId in categories
    ensures AdminResponseOf(categories, Created(id, categoryId, req, suffix)) ==
      AdminResponse(id.text, categories[categoryId], req.name, ProductSlug(req.name, suffix), req.price, req.stock, req.sku, true)
  {
  }
}
