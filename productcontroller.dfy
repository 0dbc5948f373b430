/** The product HTTP handlers of internal/api/v1/product/product_controller.go,
    reduced to what they decide themselves: the pagination envelope of the
    list replies, the required-field check of Create, and the status each
    error is answered with. The service is passed in as a function from its
    request to its outcome. */
module ProductController {
  import opened Wrappers
  import opened AppErrors
  import OrderController
  import Products

  /** `response.PaginationMeta`. */
  datatype PaginationMeta = PaginationMeta(total: int, totalPages: int, page: int, pageSize: int)

  /** A handler's reply: the data with an optional pagination envelope, or an
      error envelope. */
  datatype Reply<T> = Sent(status: int, data: T, meta: Option<PaginationMeta>) | Refused(err: HttpError)

  /** Go's integer division, which truncates toward zero. */
  function TruncDiv(a: int, b: int): int
    requires b > 0
  {
    if a >= 0 then a / b else -((-a) / b)
  }

  /** `makePagination`: total, page and page size are echoed as given; the
      page count is (total + limit - 1) / limit, or 0 for a limit that is not
      positive. */
  function MakePagination(page: int, limit: int, total: int): (m: PaginationMeta)
    ensures m.total == total && m.page == page && m.pageSize == limit
    ensures limit <= 0 ==> m.totalPages == 0
  {
    PaginationMeta(total, if limit > 0 then TruncDiv(total + limit - 1, limit) else 0, page, limit)
  }

  /** For a row count and a positive limit the page count is the ceiling of
      total / limit: enough pages to hold every row, and no page to spare. */
  lemma PagesCoverTotal(page: int, limit: int, total: int)
    requires limit > 0 && total >= 0
    ensures var n := MakePagination(page, limit, total).totalPages;
      n >= 0 && n * limit >= total && (total > 0 ==> (n - 1) * limit < total) && (total == 0 ==> n == 0)
  {
    var a := total + limit - 1;
    var n := a / limit;
    var r := a % limit;
    assert a == n * limit + r && 0 <= r < limit;
    assert MakePagination(page, limit, total).totalPages == n;
    assert n * limit == a - r;
    assert (n - 1) * limit == n * limit - limit;
    if total == 0 {
      assert a < limit;
      assert n == 0;
    }
  }

  // ---------------------------------------------------------------------------
  // GetPublicList
  // ---------------------------------------------------------------------------

  const FetchFailed: HttpError := HttpError(500, "FETCH_ERROR", "Gagal mengambil data produk")

  /** The public list handler: page and limit are read with Atoi (defaults "1"
      and "10") and passed on without any clamp; the envelope echoes them. A
      `categoryId` path parameter replaces the query's category id. Prices
      are left at zero, their float parsing is not modelled. */
  function GetPublicList<T>(pageQ: Option<string>, limitQ: Option<string>, search: string,
                            categoryQ: string, categoryParam: string, sortQ: Option<string>,
                            svc: Products.PublicRequest -> Result<(seq<T>, int), Error>): (r: Reply<seq<T>>)
    ensures var page := OrderController.Atoi(OrderController.DefaultQuery(pageQ, "1"));
      var limit := OrderController.Atoi(OrderController.DefaultQuery(limitQ, "10"));
      var req := Products.PublicRequest(page, limit, search, if categoryParam != "" then categoryParam else categoryQ,
                                        0, 0, OrderController.DefaultQuery(sortQ, "newest"));
      match svc(req)
      case Failure(_) => r == Refused(FetchFailed)
      case Success(out) => r == Sent(200, out.0, Some(MakePagination(page, limit, out.1)))
  {
    var page := OrderController.Atoi(OrderController.DefaultQuery(pageQ, "1"));
    var limit := OrderController.Atoi(OrderController.DefaultQuery(limitQ, "10"));
    var req := Products.PublicRequest(page, limit, search, if categoryParam != "" then categoryParam else categoryQ,
                                      0, 0, OrderController.DefaultQuery(sortQ, "newest"));
    match svc(req)
    case Failure(_) => Refused(FetchFailed)
    case Success(out) => Sent(200, out.0, Some(MakePagination(page, limit, out.1)))
  }

  /** With no query at all the envelope reports page 1 of size 10. */
  lemma PublicListDefaults<T>(svc: Products.PublicRequest -> Result<(seq<T>, int), Error>, total: int)
    requires forall req :: svc(req) == Success(([], total))
    ensures GetPublicList(None, None, "", "", "", None, svc) ==
      Sent(200, [], Some(PaginationMeta(total, TruncDiv(total + 9, 10), 1, 10)))
  {
    OrderController.AtoiItoa(1);
    OrderController.AtoiItoa(10);
    assert OrderController.Itoa(1) == "1" && OrderController.Itoa(10) == "10";
  }

  // ---------------------------------------------------------------------------
  // Create
  // ---------------------------------------------------------------------------

  /** A numeric form field: missing, unparsable by Sscanf, or a value. */
  datatype FormNumber = Absent | Malformed | Number(n: int)

  /** The multipart form of Create, with price in cents. */
  datatype CreateForm = CreateForm(
    categoryId: string, name: string, description: string, sku: string, price: FormNumber, stock: FormNumber)

  function ValueOf(x: FormNumber): int { if x.Number? then x.n else 0 }

  predicate HasRequired(form: CreateForm)
  {
    form.categoryId != "" && form.name != "" && ValueOf(form.price) != 0 && ValueOf(form.stock) != 0
  }

  const InvalidPrice: HttpError := HttpError(400, "INVALID_PRICE", "Invalid price format")
  const InvalidStock: HttpError := HttpError(400, "INVALID_STOCK", "Invalid stock format")
  const MissingFields: HttpError := HttpError(400, "VALIDATION_ERROR", "Missing required fields: category_id, name, price, stock")

  /** The request the handler builds; the image is passed to the service
      separately and is not part of this model. */
  function RequestOf(form: CreateForm): Products.NewProduct
  {
    Products.NewProduct(form.categoryId, form.name, form.description, ValueOf(form.price), ValueOf(form.stock), form.sku, "")
  }

  /** `Create`: a malformed price, then a malformed stock, then a missing
      required field are refused with 400 before the service is called;
      otherwise the service's error goes through ToHTTP and success is 201. */
  function Create<T>(form: CreateForm, svc: Products.NewProduct -> Result<T, Error>): (r: Reply<T>)
    ensures form.price.Malformed? ==> r == Refused(InvalidPrice)
    ensures !form.price.Malformed? && form.stock.Malformed? ==> r == Refused(InvalidStock)
    ensures !form.price.Malformed? && !form.stock.Malformed? && !HasRequired(form) ==> r == Refused(MissingFields)
    ensures r.Sent? <==> !form.price.Malformed? && !form.stock.Malformed? && HasRequired(form) && svc(RequestOf(form)).Success?
    ensures r.Sent? ==> r.status == 201 && r.data == svc(RequestOf(form)).value && r.meta.None?
    ensures HasRequired(form) && !form.price.Malformed? && !form.stock.Malformed? && svc(RequestOf(form)).Failure? ==>
      r == Refused(ToHTTP(Some(svc(RequestOf(form)).error)))
  {
    if form.price.Malformed? then Refused(InvalidPrice)
    else if form.stock.Malformed? then Refused(InvalidStock)
    else if !HasRequired(form) then Refused(MissingFields)
    else
      match svc(RequestOf(form))
      case Failure(e) => Refused(ToHTTP(Some(e)))
      case Success(v) => Sent(201, v, None)
  }

  /** Without every required field the reply does not depend on the service:
      it is never called. */
  lemma CreateSkipsServiceWhenMissing<T>(form: CreateForm, svc1: Products.NewProduct -> Result<T, Error>,
                                         svc2: Products.NewProduct -> Result<T, Error>)
    requires !HasRequired(form)
    ensures Create(form, svc1) == Create(form, svc2)
  {
  }

  /** A zero stock counts as missing, so a product cannot be created out of stock. */
  lemma ZeroStockRefused<T>(form: CreateForm, svc: Products.NewProduct -> Result<T, Error>)
    requires form.stock == Number(0) && !form.price.Malformed?
    ensures Create(form, svc) == Refused(MissingFields)
  {
  }

  // ---------------------------------------------------------------------------
  // GetByID
  // ---------------------------------------------------------------------------

  const ProductNotFound: HttpError := HttpError(404, "NOT_FOUND", "Produk tidak ditemukan")

  /** `GetByID`: every service error, whatever its own status, is answered 404. */
  function GetByID<T>(res: Result<T, Error>): (r: Reply<T>)
    ensures res.Failure? ==> r == Refused(ProductNotFound)
    ensures res.Success? ==> r == Sent(200, res.value, None)
  {
    match res
    case Failure(_) => Refused(ProductNotFound)
    case Success(v) => Sent(200, v, None)
  }

  /** An internal error the service reports as 500 still reaches the client as 404. */
  lemma GetByIDHidesServerErrors<T>(e: Error)
    requires ToHTTP(Some(e)).status == 500
    ensures GetByID<T>(Failure(e)).err.status == 404 != ToHTTP(Some(e)).status
  {
  }
}
