/** The order HTTP handlers, reduced to what they decide themselves: how the
    page and limit query strings become numbers, which requests reach the
    service at all, and which status a service error is answered with.
    The service is passed in as a function from its arguments to its outcome. */
module OrderController {
  import opened Wrappers
  import opened AppErrors
  import opened Ints
  import Text
  import Uuids
  import Orders
  import OrderErrors

  // ---------------------------------------------------------------------------
  // strconv.Atoi, with its error discarded as `n, _ := strconv.Atoi(s)` does
  // ---------------------------------------------------------------------------

  const MaxUint64: int := 0xffff_ffff_ffff_ffff

  function DigitValue(c: char): nat
    requires Text.IsDigit(c)
  {
    c as int - '0' as int
  }

  /** How ParseUint's base-10 loop ends: with a value, at a character that is
      not a digit, or at the first digit that takes the value past 2^64 - 1
      (the characters after that one are never looked at). */
  datatype Scan = Value(n: nat) | Syntax | Range

  /** The digit loop, left to right, from the accumulated value n. */
  function ScanDigits(s: string, n: nat): (r: Scan)
    ensures r.Value? ==> forall i :: 0 <= i < |s| ==> Text.IsDigit(s[i])
    ensures r.Value? ==> n <= r.n <= MaxUint64 || (|s| == 0 && r.n == n)
  {
    if |s| == 0 then Value(n)
    else if !Text.IsDigit(s[0]) then Syntax
    else if n * 10 + DigitValue(s[0]) > MaxUint64 then Range
    else ScanDigits(s[1..], n * 10 + DigitValue(s[0]))
  }

  /** A leading '+' or '-' is taken off before the digits are read. */
  function Unsigned(s: string): string
  {
    if |s| > 0 && (s[0] == '+' || s[0] == '-') then s[1..] else s
  }

  /** `n, _ := strconv.Atoi(s)`: 0 on a syntax error (including the empty
      string and a lone sign), the nearest int64 bound on overflow. */
  function Atoi(s: string): (n: int)
    ensures MinInt64 <= n <= MaxInt64
  {
    var neg := |s| > 0 && s[0] == '-';
    var digits := Unsigned(s);
    var scan := if |digits| == 0 then Syntax else ScanDigits(digits, 0);
    match scan
    case Syntax => 0
    case Range => if neg then MinInt64 else MaxInt64
    case Value(u) =>
      if !neg && u > MaxInt64 then MaxInt64
      else if neg && u > -MinInt64 then MinInt64
      else if neg then -(u as int) else u
  }

  /** A string whose digit part does not begin with a digit reads as 0. */
  lemma AtoiNonNumeric(s: string)
    requires |Unsigned(s)| == 0 || !Text.IsDigit(Unsigned(s)[0])
    ensures Atoi(s) == 0
  {
  }

  /** `strconv.Itoa`. */
  function Itoa(n: int): (s: string)
  {
    if n < 0 then "-" + Text.Digits(-n) else Text.Digits(n)
  }

  lemma {:induction false} ScanAppend(a: string, b: string, n: nat)
    ensures ScanDigits(a + b, n) ==
      match ScanDigits(a, n)
      case Value(k) => ScanDigits(b, k)
      case other => other
  {
    if |a| > 0 {
      assert (a + b)[1..] == a[1..] + b;
      if Text.IsDigit(a[0]) && n * 10 + DigitValue(a[0]) <= MaxUint64 {
        ScanAppend(a[1..], b, n * 10 + DigitValue(a[0]));
      }
    } else {
      assert a + b == b;
    }
  }

  lemma {:induction false} ScanDigitsOf(m: nat)
    requires m <= MaxUint64
    ensures ScanDigits(Text.Digits(m), 0) == Value(m)
  {
    var d := ['0' + (m % 10) as char];
    assert DigitValue(d[0]) == m % 10;
    if m >= 10 {
      ScanDigitsOf(m / 10);
      ScanAppend(Text.Digits(m / 10), d, 0);
      assert d[1..] == [];
    } else {
      assert d[1..] == [];
    }
  }

  /** Atoi reads back every int64 that Itoa writes. */
  lemma AtoiItoa(n: int)
    requires MinInt64 <= n <= MaxInt64
    ensures Atoi(Itoa(n)) == n
  {
    if n < 0 {
      assert Unsigned(Itoa(n)) == Text.Digits(-n);
      ScanDigitsOf(-n);
    } else {
      var s := Text.Digits(n);
      assert Text.IsDigit(s[0]);
      ScanDigitsOf(n);
    }
  }

  // ---------------------------------------------------------------------------
  // Page and limit
  // ---------------------------------------------------------------------------

  /** `c.DefaultQuery(key, dflt)`: the default only when the key is absent. */
  function DefaultQuery(q: Option<string>, dflt: string): string
  {
    if q.Some? then q.value else dflt
  }

  datatype PageLimit = PageLimit(page: int, limit: int)

  /** The clamp both list handlers apply; only the fallback limit differs. */
  function Clamp(page: int, limit: int, fallback: int): (p: PageLimit)
    requires 1 <= fallback <= 100
    ensures p.page >= 1 && 1 <= p.limit <= 100
    ensures page >= 1 <==> p.page == page
    ensures 1 <= limit <= 100 <==> p.limit == limit
    ensures !(1 <= limit <= 100) ==> p.limit == fallback
  {
    PageLimit(if page < 1 then 1 else page, if limit < 1 || limit > 100 then fallback else limit)
  }

  /** The customer list's page and limit (limit falls back to 10). */
  function CustomerPaging(pageQ: Option<string>, limitQ: Option<string>): (p: PageLimit)
    ensures p.page >= 1 && 1 <= p.limit <= 100
  {
    Clamp(Atoi(DefaultQuery(pageQ, "1")), Atoi(DefaultQuery(limitQ, "10")), 10)
  }

  /** The admin list's page and limit (limit falls back to 20). */
  function AdminPaging(pageQ: Option<string>, limitQ: Option<string>): (p: PageLimit)
    ensures p.page >= 1 && 1 <= p.limit <= 100
  {
    Clamp(Atoi(DefaultQuery(pageQ, "1")), Atoi(DefaultQuery(limitQ, "20")), 20)
  }

  /** Clamping an already clamped pair changes nothing. */
  lemma ClampIdempotent(page: int, limit: int, fallback: int)
    requires 1 <= fallback <= 100
    ensures var p := Clamp(page, limit, fallback); Clamp(p.page, p.limit, fallback) == p
  {
  }

  /** In-range numbers written into the query arrive unchanged. */
  lemma PagingKeepsInRange(page: int, limit: int)
    requires 1 <= page <= MaxInt64 && 1 <= limit <= 100
    ensures CustomerPaging(Some(Itoa(page)), Some(Itoa(limit))) == PageLimit(page, limit)
    ensures AdminPaging(Some(Itoa(page)), Some(Itoa(limit))) == PageLimit(page, limit)
  {
    AtoiItoa(page);
    AtoiItoa(limit);
  }

  /** Absent or unreadable page and limit get the defaults: page 1, and
      limit 10 for customers, 20 for admins. */
  lemma PagingDefaults(pageQ: Option<string>, limitQ: Option<string>)
    requires pageQ.None? || |Unsigned(pageQ.value)| == 0 || !Text.IsDigit(Unsigned(pageQ.value)[0])
    requires limitQ.None? || |Unsigned(limitQ.value)| == 0 || !Text.IsDigit(Unsigned(limitQ.value)[0])
    ensures CustomerPaging(pageQ, limitQ) == PageLimit(1, 10)
    ensures AdminPaging(pageQ, limitQ) == PageLimit(1, 20)
  {
    if pageQ.Some? { AtoiNonNumeric(pageQ.value); }
    if limitQ.Some? { AtoiNonNumeric(limitQ.value); }
    assert Atoi("1") == 1 by { AtoiItoa(1); }
    assert Atoi("10") == 10 by { AtoiItoa(10); assert Itoa(10) == "10"; }
    assert Atoi("20") == 20 by { AtoiItoa(20); assert Itoa(20) == "20"; }
  }

  // ---------------------------------------------------------------------------
  // Replies
  // ---------------------------------------------------------------------------

  /** What a handler sends: a success envelope, an error envelope built by
      ToHTTP, or a bare `{"error": text}` body. */
  datatype Reply<T> = Sent(status: int, data: T) | Refused(err: HttpError) | Bare(status: int, text: string)

  const NotAuthenticated: HttpError := HttpError(401, "UNAUTHORIZED", "User not authenticated")

  /** The error envelope for a service error. */
  function Refuse<T>(e: Error): (r: Reply<T>)
  {
    Refused(ToHTTP(Some(e)))
  }

  /** Checkout: without a user id in the context the reply is 401 and the
      service is not reached; a body that does not bind is a 400. */
  function Checkout(user: Option<string>, body: Result<(string, string), Error>,
                    svc: Orders.CheckoutRequest -> Result<Orders.OrderResponse, Error>): (r: Reply<Orders.OrderResponse>)
    ensures user.None? ==> r == Refused(NotAuthenticated)
    ensures user.Some? && body.Failure? ==> r == Refused(HttpError(400, "INVALID_INPUT", "Invalid request body"))
    ensures r.Sent? <==>
      user.Some? && body.Success? && svc(Orders.CheckoutRequest(user.value, body.value.0, body.value.1)).Success?
    ensures user.Some? && body.Success? ==>
      var out := svc(Orders.CheckoutRequest(user.value, body.value.0, body.value.1));
      (out.Success? ==> r == Sent(201, out.value)) &&
      (out.Failure? ==> r == Refused(ToHTTP(Some(out.error))))
  {
    if user.None? then Refused(NotAuthenticated)
    else if body.Failure? then Refuse(Wrap(body.error, InvalidInput, "Invalid request body", 400))
    else
      var req := Orders.CheckoutRequest(user.value, body.value.0, body.value.1);
      match svc(req)
      case Success(res) => Sent(201, res)
      case Failure(e) => Refuse(e)
  }

  /** The service plays no part in an unauthenticated checkout. */
  lemma CheckoutSkipsServiceWithoutUser(body: Result<(string, string), Error>,
      svc1: Orders.CheckoutRequest -> Result<Orders.OrderResponse, Error>,
      svc2: Orders.CheckoutRequest -> Result<Orders.OrderResponse, Error>)
    ensures Checkout(None, body, svc1) == Checkout(None, body, svc2)
  {
  }

  /** The body of a list reply: the orders and the pagination envelope. */
  datatype ListBody = ListBody(orders: seq<Orders.OrderResponse>, page: int, limit: int, total: int,
                               status: string, search: string)

  /** The customer list handler; the service gets the clamped page and limit. */
  function List(user: Option<string>, pageQ: Option<string>, limitQ: Option<string>,
                svc: (string, int, int) -> Result<(seq<Orders.OrderResponse>, int), Error>): (r: Reply<ListBody>)
    ensures user.None? ==> r == Refused(NotAuthenticated)
    ensures user.Some? ==>
      var p := CustomerPaging(pageQ, limitQ);
      var out := svc(user.value, p.page, p.limit);
      (out.Success? ==>
        r == Sent(200, ListBody(out.value.0, p.page, p.limit, out.value.1, "", ""))) &&
      (out.Failure? ==> r == Refused(ToHTTP(Some(out.error))))
  {
    if user.None? then Refused(NotAuthenticated)
    else
      var p := CustomerPaging(pageQ, limitQ);
      match svc(user.value, p.page, p.limit)
      case Success((orders, total)) => Sent(200, ListBody(orders, p.page, p.limit, total, "", ""))
      case Failure(e) => Refuse(e)
  }

  /** The admin list handler, which echoes the status and search filters too. */
  function ListAdmin(status: string, search: string, pageQ: Option<string>, limitQ: Option<string>,
                     svc: (string, string, int, int) -> Result<(seq<Orders.OrderResponse>, int), Error>): (r: Reply<ListBody>)
    ensures
      var p := AdminPaging(pageQ, limitQ);
      var out := svc(status, search, p.page, p.limit);
      (out.Success? ==>
        r == Sent(200, ListBody(out.value.0, p.page, p.limit, out.value.1, status, search))) &&
      (out.Failure? ==> r == Refused(ToHTTP(Some(out.error))))
  {
    var p := AdminPaging(pageQ, limitQ);
    match svc(status, search, p.page, p.limit)
    case Success((orders, total)) => Sent(200, ListBody(orders, p.page, p.limit, total, status, search))
    case Failure(e) => Refuse(e)
  }

  /** A list reply's pagination echoes page and limit exactly when they were
      already in range, whatever the service answers. */
  lemma ListEchoesInRange(user: string, page: int, limit: int,
      svc: (string, int, int) -> Result<(seq<Orders.OrderResponse>, int), Error>)
    requires 1 <= page <= MaxInt64 && 1 <= limit <= 100
    requires svc(user, page, limit).Success?
    ensures var r := List(Some(user), Some(Itoa(page)), Some(Itoa(limit)), svc);
      r.Sent? && r.data.page == page && r.data.limit == limit && r.data.total == svc(user, page, limit).value.1
  {
    PagingKeepsInRange(page, limit);
  }

  /** Detail and Cancel: an empty id is refused with ErrInvalidOrderID before
      the service is reached. */
  function ById<T>(id: string, svc: string -> Result<T, Error>): (r: Reply<T>)
    ensures id == "" ==> r == Refused(HttpError(400, "INVALID_INPUT", "invalid order id format"))
    ensures id != "" ==> (r.Sent? <==> svc(id).Success?)
    ensures r.Sent? ==> r.status == 200 && r.data == svc(id).value
    ensures id != "" && svc(id).Failure? ==> r == Refused(ToHTTP(Some(svc(id).error)))
  {
    if id == "" then Refuse(OrderErrors.ErrInvalidOrderID)
    else
      match svc(id)
      case Success(v) => Sent(200, v)
      case Failure(e) => Refuse(e)
  }

  /** The arguments the customer status handler hands to the service. */
  datatype StatusCall = StatusCall(orderId: string, userId: Uuids.Uuid, status: string)

  /** The customer endpoint always asks for COMPLETED; an unparseable user id
      in the context becomes the nil UUID. */
  function CustomerStatusCall(id: string, user: string): (c: StatusCall)
    ensures c.status == Orders.Completed && c.orderId == id
    ensures Uuids.WellFormed(user) ==> Some(c.userId) == Uuids.Parse(user)
    ensures !Uuids.WellFormed(user) ==> c.userId == Uuids.Nil
  {
    StatusCall(id, Uuids.ParseOrNil(user), Orders.Completed)
  }

  /** The status handlers as written: every service error becomes a bare 400. */
  function StatusReply(res: Result<Orders.OrderResponse, Error>): (r: Reply<Orders.OrderResponse>)
    ensures res.Success? ==> r == Sent(200, res.value)
    ensures res.Failure? ==> r == Bare(400, ErrorText(res.error))
  {
    match res
    case Success(v) => Sent(200, v)
    case Failure(e) => Bare(400, ErrorText(e))
  }

  /** As written, a missing order on the admin status endpoint is answered
      with 400, although the order error carries 404. */
  lemma StatusReplyNotFoundIs400()
    ensures StatusReply(Failure(OrderErrors.ErrOrderNotFound)).status == 400
    ensures ToHTTP(Some(OrderErrors.ErrOrderNotFound)).status == 404
  {
  }

  /** The status handlers with each error answered with its own HTTP status. */
  function StatusReplyMapped(res: Result<Orders.OrderResponse, Error>): (r: Reply<Orders.OrderResponse>)
    ensures res.Success? ==> r == Sent(200, res.value)
    ensures res.Failure? ==> r.Bare? && r.text == ErrorText(res.error)
    ensures res.Failure? && res.error.App? ==> r.status == res.error.httpStatus
  {
    match res
    case Success(v) => Sent(200, v)
    case Failure(e) => Bare(ToHTTP(Some(e)).status, ErrorText(e))
  }

  /** The mapped reply answers a missing order with 404, and agrees with the
      written one on every error whose own status is 400. */
  lemma StatusReplyMappedAgrees(res: Result<Orders.OrderResponse, Error>)
    ensures StatusReplyMapped(Failure(OrderErrors.ErrOrderNotFound)).status == 404
    ensures res.Failure? && res.error.App? && res.error.httpStatus == 400 ==>
      StatusReplyMapped(res) == StatusReply(res)
    ensures res.Success? ==> StatusReplyMapped(res) == StatusReply(res)
  {
  }

  /** The admin status handler: a body that does not bind is a bare 400. */
  function UpdateStatusByAdmin(bind: Option<Error>, res: Result<Orders.OrderResponse, Error>): (r: Reply<Orders.OrderResponse>)
    ensures bind.Some? ==> r == Bare(400, ErrorText(bind.value))
    ensures bind.None? ==> r == StatusReply(res)
  {
    if bind.Some? then Bare(400, ErrorText(bind.value)) else StatusReply(res)
  }
}
