/** The order service of internal/api/v1/order/order_service.go: checkout from
    the cart inside one transaction, and the order status machine. The order
    store is a map of orders and a map of item rows per order; a transaction is
    a snapshot of both that is put back on any failure before the commit. */
module Orders {
  import opened Wrappers
  import opened AppErrors
  import opened Uuids
  import opened Ints
  import Nulls
  import Repo
  import Carts
  import OrderErrors
  import AuthErrors

  const Pending := "PENDING"
  const Paid := "PAID"
  const Processing := "PROCESSING"
  const Shipped := "SHIPPED"
  const Cancelled := "CANCELLED"
  const Completed := "COMPLETED"

  /** An orders row; money is in integer cents. */
  datatype Order = Order(id: Uuid, number: string, userId: Uuid, status: string, receiptNo: Option<string>,
                         addressSnapshot: string, total: int, note: Nulls.NullString)

  /** An order_items row. */
  datatype OrderItem = OrderItem(orderId: Uuid, productId: Uuid, name: string, unitPrice: int, qty: int, lineTotal: int)

  datatype CheckoutRequest = CheckoutRequest(userId: string, addressId: string, note: string)

  /** OrderItemResponse; mapOrderToResponse never fills Subtotal, so it stays 0. */
  datatype ItemResponse = ItemResponse(productId: string, name: string, unitPrice: int, qty: int, subtotal: int)

  /** OrderResponse; its PlacedAt timestamp is not modelled and ReceiptNo is never filled. */
  datatype OrderResponse = OrderResponse(id: string, number: string, status: string, total: int, items: seq<ItemResponse>)


  const NamePlaceholder := "Product Name Placeholder"

  /** The order total: Σ price × qty over the cart lines. */
  function Total(ds: seq<Carts.ItemDetail>): int
  {
    if |ds| == 0 then 0 else Total(ds[..|ds| - 1]) + ds[|ds| - 1].price * ds[|ds| - 1].qty
  }

  /** The running sum of Checkout's first loop. */
  method SumTotal(ds: seq<Carts.ItemDetail>) returns (total: int)
    ensures total == Total(ds)
  {
    total := 0;
    var i := 0;
    while i < |ds|
      invariant 0 <= i <= |ds|
      invariant total == Total(ds[..i])
    {
      assert ds[..i + 1][..i] == ds[..i];
      total := total + ds[i].price * ds[i].qty;
      i := i + 1;
    }
    assert ds[..i] == ds;
  }

  /** The item row CreateOrderItem writes for one cart line. */
  function ItemFor(oid: Uuid, d: Carts.ItemDetail): (it: OrderItem)
    ensures it.orderId == oid && it.qty == d.qty && it.unitPrice == d.price
    ensures it.lineTotal == it.unitPrice * it.qty
  {
    OrderItem(oid, ParseOrNil(d.productId), NamePlaceholder, d.price, d.qty, d.price * d.qty)
  }

  /** The item rows of an order: one per cart line, in cart order. */
  function ItemsFor(oid: Uuid, ds: seq<Carts.ItemDetail>): (r: seq<OrderItem>)
    ensures |r| == |ds|
    ensures forall i :: 0 <= i < |ds| ==> r[i] == ItemFor(oid, ds[i])
  {
    seq(|ds|, i requires 0 <= i < |ds| => ItemFor(oid, ds[i]))
  }

  /** Σ line total over item rows. */
  function SumLines(its: seq<OrderItem>): int
  {
    if |its| == 0 then 0 else SumLines(its[..|its| - 1]) + its[|its| - 1].lineTotal
  }

  /** The total stored on the order equals the sum of the line totals stored on its items. */
  lemma {:induction false} OrderTotalMatchesLines(oid: Uuid, ds: seq<Carts.ItemDetail>)
    ensures SumLines(ItemsFor(oid, ds)) == Total(ds)
  {
    if |ds| > 0 {
      var n := |ds| - 1;
      OrderTotalMatchesLines(oid, ds[..n]);
      assert ItemsFor(oid, ds)[..n] == ItemsFor(oid, ds[..n]);
    }
  }

  /** With no negative price or quantity the total is not negative. */
  lemma {:induction false} TotalNonNegative(ds: seq<Carts.ItemDetail>)
    requires forall i :: 0 <= i < |ds| ==> ds[i].price >= 0 && ds[i].qty >= 0
    ensures Total(ds) >= 0
  {
    if |ds| > 0 {
      TotalNonNegative(ds[..|ds| - 1]);
    }
  }

  /** The product ids survive the trip from cart row to order item: printing a
      stored id and parsing it back gives the id. */
  lemma ItemsKeepProducts(oid: Uuid, rows: seq<Carts.Line>)
    requires forall i :: 0 <= i < |rows| ==> Canonical(rows[i].productId)
    ensures forall i :: 0 <= i < |rows| ==> ItemsFor(oid, Carts.Details(rows))[i].productId == rows[i].productId
  {
    forall i | 0 <= i < |rows|
      ensures ItemsFor(oid, Carts.Details(rows))[i].productId == rows[i].productId
    {
      FormatParse(rows[i].productId);
    }
  }

  function AddressSnapshot(addressId: string): string
  {
    "{\"address_id\":\"" + addressId + "\"}"
  }

  /** The orders row CreateOrder writes at checkout. */
  function NewOrder(id: Uuid, number: string, req: CheckoutRequest, total: int): (o: Order)
    ensures o.status == Pending && o.total == total && o.receiptNo.None?
  {
    Order(id, number, ParseOrNil(req.userId), Pending, None, AddressSnapshot(req.addressId), total, Nulls.ToText(req.note))
  }

  function ItemResponseOf(it: OrderItem): ItemResponse
  {
    ItemResponse(it.productId.text, it.name, it.unitPrice, it.qty, 0)
  }

  /** mapOrderToResponse. */
  function MapOrder(o: Order, its: seq<OrderItem>): (r: OrderResponse)
    ensures r.id == o.id.text && r.number == o.number && r.status == o.status && r.total == o.total
    ensures |r.items| == |its|
    ensures forall i :: 0 <= i < |its| ==> r.items[i] == ItemResponseOf(its[i])
  {
    OrderResponse(o.id.text, o.number, o.status, o.total, seq(|its|, i requires 0 <= i < |its| => ItemResponseOf(its[i])))
  }

  /** The response identifies the order it was built from. */
  lemma MapOrderIdentifies(o: Order, its: seq<OrderItem>)
    requires Canonical(o.id)
    ensures Parse(MapOrder(o, its).id) == Some(o.id)
  {
    FormatParse(o.id);
  }

  /** The admin status rule: PAID -> PROCESSING, and PROCESSING -> SHIPPED with a
      non-empty receipt number; the source status is checked before the receipt. */
  function AdminTransition(current: string, next: string, receipt: Option<string>): (r: Option<Error>)
    ensures r.None? <==> AdminMove(current, next) && (next == Shipped ==> HasReceipt(receipt))
    ensures r == Some(OrderErrors.ErrReceiptRequired) <==> current == Processing && next == Shipped && !HasReceipt(receipt)
    ensures r.Some? && r != Some(OrderErrors.ErrReceiptRequired) ==> r == Some(OrderErrors.ErrInvalidStatusTransition)
  {
    match next
    case "PROCESSING" =>
      if current != Paid then Some(OrderErrors.ErrInvalidStatusTransition) else None
    case "SHIPPED" =>
      if current != Processing then Some(OrderErrors.ErrInvalidStatusTransition)
      else if receipt.None? || receipt.value == "" then Some(OrderErrors.ErrReceiptRequired)
      else None
    case _ => Some(OrderErrors.ErrInvalidStatusTransition)
  }

  /** The two moves the admin may make. */
  predicate AdminMove(current: string, next: string)
  {
    (current == Paid && next == Processing) || (current == Processing && next == Shipped)
  }

  predicate HasReceipt(receipt: Option<string>) { receipt.Some? && receipt.value != "" }

  /** No admin move leads back to PENDING or to a final customer status. */
  lemma AdminNeverCompletes(current: string, receipt: Option<string>)
    ensures AdminTransition(current, Completed, receipt) == Some(OrderErrors.ErrInvalidStatusTransition)
    ensures AdminTransition(current, Cancelled, receipt) == Some(OrderErrors.ErrInvalidStatusTransition)
    ensures AdminTransition(current, Pending, receipt) == Some(OrderErrors.ErrInvalidStatusTransition)
  {
  }

  /** The corrected customer rule: only a shipped order can be completed. */
  predicate CustomerMayComplete(current: string) { current == Shipped }

  /** Where a checkout stops. */
  datatype Stop =
    | ReadFailed(cause: Error)
    | Empty
    | BeginFailed
    | CreateFailed
    | ItemFailed
    | ClearFailed(cause: Error)
    | CommitFailed
    | Placed

  /** Injected failures for Checkout: the cart read, BeginTx, CreateOrder, the
      CreateOrderItem call at a given position, the cart delete and Commit. */
  datatype CheckoutFaults = CheckoutFaults(detail: Option<Error>, begin: Option<Error>, create: Option<Error>,
                                           failItem: Option<nat>, clear: Carts.Faults, commit: Option<Error>)

  /** Injected failures for the status updates: BeginTx, GetByID, UpdateStatus, Commit. */
  datatype TxFaults = TxFaults(begin: Option<Error>, get: Option<Error>, update: Option<Error>, commit: Option<Error>)

  /** A row of ListOrders / ListOrdersAdmin with the window count it carries. */
  datatype ListRow = ListRow(order: Order, totalCount: int)

  function Counts(rows: seq<ListRow>): (r: seq<int>)
    ensures |r| == |rows| && forall i :: 0 <= i < |rows| ==> r[i] == rows[i].totalCount
  {
    seq(|rows|, i requires 0 <= i < |rows| => rows[i].totalCount)
  }

  /** The loop List and ListAdmin share: one response per row, and the total of the last row. */
  method MapRows(rows: seq<ListRow>) returns (res: seq<OrderResponse>, total: int)
    ensures |res| == |rows|
    ensures forall i :: 0 <= i < |rows| ==> res[i] == MapOrder(rows[i].order, [])
    ensures total == Repo.LastTotal(Counts(rows))
  {
    res := [];
    total := 0;
    var i := 0;
    while i < |rows|
      invariant 0 <= i <= |rows|
      invariant |res| == i
      invariant forall j :: 0 <= j < i ==> res[j] == MapOrder(rows[j].order, [])
      invariant total == Repo.LastTotal(Counts(rows[..i]))
    {
      total := rows[i].totalCount;
      res := res + [MapOrder(rows[i].order, [])];
      i := i + 1;
    }
  }

  /** The filter ListOrdersAdmin gets: paging, and status and search as ToText makes them. */
  datatype AdminFilter = AdminFilter(paging: Repo.Paging, status: Nulls.NullString, search: Nulls.NullString)

  function AdminFilterFor(status: string, search: string, page: int, limit: int): (f: AdminFilter)
    ensures f.paging == Repo.PagingFor(page, limit)
    ensures !f.status.valid <==> Text.AllSpace(status)
    ensures !f.search.valid <==> Text.AllSpace(search)
  {
    Nulls.ToTextSpec(status);
    Nulls.ToTextSpec(search);
    AdminFilter(Repo.PagingFor(page, limit), Nulls.ToText(status), Nulls.ToText(search))
  }

  class OrderService {
    var orders: map<Uuid, Order>
    /** The order_items rows of each order, in insertion order. */
    var items: map<Uuid, seq<OrderItem>>
    /** The cart service Checkout reads and clears; it writes outside the order transaction. */
    const cart: Carts.CartService

    /** No item row without its order, and the cart store is well formed. */
    ghost predicate Valid()
      reads this, cart
    {
      cart.Valid() && forall oid :: oid in items ==> oid in orders
    }

    constructor(c: Carts.CartService)
      requires c.Valid()
      ensures cart == c && orders == map[] && items == map[]
      ensures Valid()
    {
      cart := c;
      orders := map[];
      items := map[];
    }

    function ItemsOf(oid: Uuid): seq<OrderItem>
      reads this
    {
      if oid in items then items[oid] else []
    }

    /** The cart rows Checkout reads for a well-formed user id. */
    ghost function CartRows(req: CheckoutRequest): seq<Carts.Line>
      reads this, cart
      requires WellFormed(req.userId)
    {
      cart.DetailRows(Parse(req.userId).value)
    }

    /** The step at which Checkout stops, given the store before the call. */
    ghost function Stage(req: CheckoutRequest, newId: Uuid, f: CheckoutFaults): Stop
      reads this, cart
    {
      if !WellFormed(req.userId) then ReadFailed(AuthErrors.ErrInvalidUserID)
      else if f.detail.Some? then ReadFailed(f.detail.value)
      else if |CartRows(req)| == 0 then Empty
      else TxStage(Parse(req.userId).value, |CartRows(req)|, newId, f)
    }

    /** The step at which the transaction part of Checkout stops, for a cart of n lines. */
    ghost function TxStage(uid: Uuid, n: nat, newId: Uuid, f: CheckoutFaults): Stop
      reads this, cart
    {
      if f.begin.Some? then BeginFailed
      else if f.create.Some? || newId in orders then CreateFailed
      else if f.failItem.Some? && f.failItem.value < n then ItemFailed
      else if cart.CartOnly(uid, f.clear.lookup).Failure? then ClearFailed(cart.CartOnly(uid, f.clear.lookup).error)
      else if f.clear.remove.Some? then ClearFailed(f.clear.remove.value)
      else if f.commit.Some? then CommitFailed
      else Placed
    }

    /** The CreateOrderItem loop: one row per cart line until the failing insert, if any. */
    method InsertItems(oid: Uuid, ds: seq<Carts.ItemDetail>, failAt: Option<nat>) returns (ok: bool)
      requires oid !in items
      modifies this
      ensures ok <==> failAt.None? || failAt.value >= |ds|
      ensures ok && |ds| > 0 ==> items == old(items)[oid := ItemsFor(oid, ds)]
      ensures orders == old(orders)
    {
      var i := 0;
      while i < |ds|
        invariant 0 <= i <= |ds|
        invariant failAt.None? || failAt.value >= i
        invariant i > 0 ==> items == old(items)[oid := ItemsFor(oid, ds[..i])]
        invariant i == 0 ==> items == old(items)
        invariant orders == old(orders)
      {
        if failAt == Some(i) {
          return false;
        }
        assert ItemsFor(oid, ds[..i + 1]) == ItemsFor(oid, ds[..i]) + [ItemFor(oid, ds[i])];
        assert ItemsOf(oid) == ItemsFor(oid, ds[..i]);
        items := items[oid := ItemsOf(oid) + [ItemFor(oid, ds[i])]];
        i := i + 1;
      }
      assert ds[..i] == ds;
      ok := true;
    }

    /** Checkout as written: the cart is cleared through the cart service,
        outside the order transaction, before the commit. */
    method Checkout(req: CheckoutRequest, number: string, newId: Uuid, f: CheckoutFaults)
      returns (r: Result<OrderResponse, Error>)
      requires Valid()
      modifies this, cart
      ensures Valid()
      ensures var s := old(Stage(req, newId, f));
        (s.ReadFailed? ==> r == Failure(s.cause)) &&
        (s == Empty ==> r == Failure(OrderErrors.ErrCartEmpty)) &&
        (s in {BeginFailed, CreateFailed, ItemFailed, CommitFailed} ==> r == Failure(OrderErrors.ErrOrderFailed)) &&
        (s.ClearFailed? ==> r == Failure(Wrapped("failed to clear cart", s.cause))) &&
        (s == Placed <==> r.Success?)
      // a failure at any step leaves no order and no item behind
      ensures r.Failure? ==> orders == old(orders) && items == old(items)
      // a placed order is PENDING, carries the cart's total and has one item per cart line
      ensures r.Success? ==>
        var ds := Carts.Details(old(CartRows(req)));
        var o := NewOrder(newId, number, req, Total(ds));
        orders == old(orders)[newId := o] && items == old(items)[newId := ItemsFor(newId, ds)] &&
        r.value == MapOrder(o, [])
      // the cart is gone once the cart delete has run, even when the commit then fails
      ensures old(Stage(req, newId, f)) in {CommitFailed, Placed} ==>
        var uid := Parse(req.userId).value;
        cart.carts == old(cart.carts) - {uid} && cart.lines == old(cart.lines) - {old(cart.carts)[uid]}
      ensures !(old(Stage(req, newId, f)) in {CommitFailed, Placed}) ==>
        cart.carts == old(cart.carts) && cart.lines == old(cart.lines)
    {
      var d := cart.Detail(req.userId, f.detail);
      if d.Failure? {
        return Failure(d.error);
      }
      var ds := d.value;
      if |ds| == 0 {
        return Failure(OrderErrors.ErrCartEmpty);
      }
      r := PlaceOrder(req, number, newId, ds, f);
    }

    /** The transaction of Checkout, once the cart has been read as ds. */
    method PlaceOrder(req: CheckoutRequest, number: string, newId: Uuid, ds: seq<Carts.ItemDetail>, f: CheckoutFaults)
      returns (r: Result<OrderResponse, Error>)
      requires Valid() && WellFormed(req.userId) && |ds| > 0
      requires Parse(req.userId).value in cart.carts
      modifies this, cart
      ensures Valid()
      ensures var s := old(TxStage(Parse(req.userId).value, |ds|, newId, f));
        (s in {BeginFailed, CreateFailed, ItemFailed, CommitFailed} ==> r == Failure(OrderErrors.ErrOrderFailed)) &&
        (s.ClearFailed? ==> r == Failure(Wrapped("failed to clear cart", s.cause))) &&
        (s == Placed <==> r.Success?)
      ensures r.Failure? ==> orders == old(orders) && items == old(items)
      ensures r.Success? ==>
        var o := NewOrder(newId, number, req, Total(ds));
        orders == old(orders)[newId := o] && items == old(items)[newId := ItemsFor(newId, ds)] &&
        r.value == MapOrder(o, [])
      ensures old(TxStage(Parse(req.userId).value, |ds|, newId, f)) in {CommitFailed, Placed} ==>
        var uid := Parse(req.userId).value;
        cart.carts == old(cart.carts) - {uid} && cart.lines == old(cart.lines) - {old(cart.carts)[uid]}
      ensures !(old(TxStage(Parse(req.userId).value, |ds|, newId, f)) in {CommitFailed, Placed}) ==>
        cart.carts == old(cart.carts) && cart.lines == old(cart.lines)
    {
      var savedOrders, savedItems := orders, items;
      var ok, o := OpenOrder(req, number, newId, ds, f);
      if !ok {
        return Failure(OrderErrors.ErrOrderFailed);
      }
      r := ClearAndCommit(req, o, savedOrders, savedItems, f);
    }

    /** The start of the transaction: begin, the order insert, then the item
        inserts; a failure of any of them rolls the order store back. */
    method OpenOrder(req: CheckoutRequest, number: string, newId: Uuid, ds: seq<Carts.ItemDetail>, f: CheckoutFaults)
      returns (ok: bool, o: Order)
      requires Valid() && |ds| > 0
      modifies this
      ensures Valid()
      ensures ok <==> f.begin.None? && f.create.None? && newId !in old(orders) && (f.failItem.None? || f.failItem.value >= |ds|)
      ensures !ok ==> orders == old(orders) && items == old(items)
      ensures ok ==>
        o == NewOrder(newId, number, req, Total(ds)) &&
        orders == old(orders)[newId := o] && items == old(items)[newId := ItemsFor(newId, ds)]
    {
      o := NewOrder(newId, number, req, 0);
      if f.begin.Some? {
        return false, o;
      }
      var savedOrders, savedItems := orders, items;
      var total := SumTotal(ds);
      if f.create.Some? || newId in orders {
        return false, o;
      }
      o := NewOrder(newId, number, req, total);
      orders := orders[newId := o];
      ok := InsertItems(newId, ds, f.failItem);
      if !ok {
        orders, items := savedOrders, savedItems;
      }
    }

    /** The end of the transaction: the cart delete through the cart service,
        then the commit; a failure of either rolls the order store back to
        the saved maps. */
    method ClearAndCommit(req: CheckoutRequest, o: Order, savedOrders: map<Uuid, Order>,
                          savedItems: map<Uuid, seq<OrderItem>>, f: CheckoutFaults)
      returns (r: Result<OrderResponse, Error>)
      requires Valid() && WellFormed(req.userId)
      requires forall oid :: oid in savedItems ==> oid in savedOrders
      modifies this, cart
      ensures Valid()
      ensures var c := old(cart.CartOnly(Parse(req.userId).value, f.clear.lookup));
        (c.Failure? ==> r == Failure(Wrapped("failed to clear cart", c.error))) &&
        (c.Success? && f.clear.remove.Some? ==> r == Failure(Wrapped("failed to clear cart", f.clear.remove.value))) &&
        (c.Success? && f.clear.remove.None? && f.commit.Some? ==> r == Failure(OrderErrors.ErrOrderFailed)) &&
        (c.Success? && f.clear.remove.None? && f.commit.None? ==> r == Success(MapOrder(o, [])))
      ensures r.Failure? ==> orders == savedOrders && items == savedItems
      ensures r.Success? ==> orders == old(orders) && items == old(items)
      ensures old(cart.CartOnly(Parse(req.userId).value, f.clear.lookup)).Success? && f.clear.remove.None? ==>
        var uid := Parse(req.userId).value;
        cart.carts == old(cart.carts) - {uid} && cart.lines == old(cart.lines) - {old(cart.carts)[uid]}
      ensures !(old(cart.CartOnly(Parse(req.userId).value, f.clear.lookup)).Success? && f.clear.remove.None?) ==>
        cart.carts == old(cart.carts) && cart.lines == old(cart.lines)
    {
      var e := cart.Delete(req.userId, f.clear);
      if e.Some? {
        orders, items := savedOrders, savedItems;
        return Failure(Wrapped("failed to clear cart", e.value));
      }
      if f.commit.Some? {
        orders, items := savedOrders, savedItems;
        return Failure(OrderErrors.ErrOrderFailed);
      }
      r := Success(MapOrder(o, []));
    }

    /** Checkout with the cart delete inside the order transaction: a failed
        commit puts the cart back along with the order store. */
    method CheckoutAtomic(req: CheckoutRequest, number: string, newId: Uuid, f: CheckoutFaults)
      returns (r: Result<OrderResponse, Error>)
      requires Valid()
      modifies this, cart
      ensures Valid()
      ensures var s := old(Stage(req, newId, f));
        (s.ReadFailed? ==> r == Failure(s.cause)) &&
        (s == Empty ==> r == Failure(OrderErrors.ErrCartEmpty)) &&
        (s in {BeginFailed, CreateFailed, ItemFailed, CommitFailed} ==> r == Failure(OrderErrors.ErrOrderFailed)) &&
        (s.ClearFailed? ==> r == Failure(Wrapped("failed to clear cart", s.cause))) &&
        (s == Placed <==> r.Success?)
      // all or nothing: a failure leaves the order store and the cart as they were
      ensures r.Failure? ==>
        orders == old(orders) && items == old(items) && cart.carts == old(cart.carts) && cart.lines == old(cart.lines)
      ensures r.Success? ==>
        var ds := Carts.Details(old(CartRows(req)));
        var uid := Parse(req.userId).value;
        var o := NewOrder(newId, number, req, Total(ds));
        orders == old(orders)[newId := o] && items == old(items)[newId := ItemsFor(newId, ds)] &&
        r.value == MapOrder(o, []) &&
        cart.carts == old(cart.carts) - {uid} && cart.lines == old(cart.lines) - {old(cart.carts)[uid]}
    {
      var d := cart.Detail(req.userId, f.detail);
      if d.Failure? {
        return Failure(d.error);
      }
      var ds := d.value;
      if |ds| == 0 {
        return Failure(OrderErrors.ErrCartEmpty);
      }
      r := PlaceAtomically(req, number, newId, ds, f);
    }

    /** PlaceOrder with the cart store saved beforehand and put back when the
        transaction fails. */
    method PlaceAtomically(req: CheckoutRequest, number: string, newId: Uuid, ds: seq<Carts.ItemDetail>, f: CheckoutFaults)
      returns (r: Result<OrderResponse, Error>)
      requires Valid() && WellFormed(req.userId) && |ds| > 0
      requires Parse(req.userId).value in cart.carts
      modifies this, cart
      ensures Valid()
      ensures var s := old(TxStage(Parse(req.userId).value, |ds|, newId, f));
        (s in {BeginFailed, CreateFailed, ItemFailed, CommitFailed} ==> r == Failure(OrderErrors.ErrOrderFailed)) &&
        (s.ClearFailed? ==> r == Failure(Wrapped("failed to clear cart", s.cause))) &&
        (s == Placed <==> r.Success?)
      ensures r.Failure? ==>
        orders == old(orders) && items == old(items) && cart.carts == old(cart.carts) && cart.lines == old(cart.lines)
      ensures r.Success? ==>
        var uid := Parse(req.userId).value;
        var o := NewOrder(newId, number, req, Total(ds));
        orders == old(orders)[newId := o] && items == old(items)[newId := ItemsFor(newId, ds)] &&
        r.value == MapOrder(o, []) &&
        cart.carts == old(cart.carts) - {uid} && cart.lines == old(cart.lines) - {old(cart.carts)[uid]}
    {
      var savedCarts, savedLines := cart.carts, cart.lines;
      r := PlaceOrder(req, number, newId, ds, f);
      if r.Failure? {
        // the cart delete ran under the same transaction, so the rollback undoes it
        cart.carts, cart.lines := savedCarts, savedLines;
      }
    }

    /** Cancel: only a PENDING order becomes CANCELLED; there is no owner check. */
    method Cancel(orderId: string, f: TxFaults) returns (err: Option<Error>)
      requires Valid()
      modifies this
      ensures Valid()
      ensures !WellFormed(orderId) ==> err == Some(OrderErrors.ErrInvalidOrderID)
      ensures WellFormed(orderId) ==>
        var oid := Parse(orderId).value;
        var got := old(Repo.Get(orders, oid, f.get));
        (got.Failure? ==> err == Some(got.error)) &&
        (got.Success? && got.value.status != Pending ==> err == Some(OrderErrors.ErrCannotCancel)) &&
        (got.Success? && got.value.status == Pending ==>
          err == (if f.begin.Some? then f.begin else if f.update.Some? then f.update else f.commit) &&
          (err.None? ==> orders == old(orders)[oid := got.value.(status := Cancelled)]))
      ensures err.Some? ==> orders == old(orders)
      ensures items == old(items)
    {
      var oid := Parse(orderId);
      if oid.None? {
        return Some(OrderErrors.ErrInvalidOrderID);
      }
      var got := Repo.Get(orders, oid.value, f.get);
      if got.Failure? {
        return Some(got.error);
      }
      if got.value.status != Pending {
        return Some(OrderErrors.ErrCannotCancel);
      }
      if f.begin.Some? {
        return f.begin;
      }
      var saved := orders;
      if f.update.Some? {
        return f.update;
      }
      orders := orders[oid.value := got.value.(status := Cancelled)];
      if f.commit.Some? {
        orders := saved;
        return f.commit;
      }
      err := None;
    }

    /** UpdateStatusByAdmin: AdminTransition decides; the receipt number is
        checked but never stored. */
    method UpdateStatusByAdmin(orderId: string, next: string, receipt: Option<string>, f: TxFaults)
      returns (r: Result<OrderResponse, Error>)
      requires Valid()
      modifies this
      ensures Valid()
      ensures !WellFormed(orderId) ==> r == Failure(OrderErrors.ErrInvalidOrderID)
      ensures WellFormed(orderId) ==>
        var oid := Parse(orderId).value;
        var got := old(Repo.Get(orders, oid, f.get));
        (f.begin.Some? ==> r == Failure(f.begin.value)) &&
        (f.begin.None? && got.Failure? ==> r == Failure(OrderErrors.ErrOrderNotFound)) &&
        (f.begin.None? && got.Success? && AdminTransition(got.value.status, next, receipt).Some? ==>
          r == Failure(AdminTransition(got.value.status, next, receipt).value)) &&
        (f.begin.None? && got.Success? && AdminTransition(got.value.status, next, receipt).None? ==>
          (f.update.Some? || f.commit.Some? ==> r == Failure(OrderErrors.ErrOrderFailed)) &&
          (f.update.None? && f.commit.None? ==>
            orders == old(orders)[oid := got.value.(status := next)] &&
            r == Success(MapOrder(got.value.(status := next), []))))
      ensures r.Failure? ==> orders == old(orders)
      ensures r.Success? ==> AdminMove(old(orders)[Parse(orderId).value].status, next)
      ensures items == old(items)
    {
      var oid := Parse(orderId);
      if oid.None? {
        return Failure(OrderErrors.ErrInvalidOrderID);
      }
      if f.begin.Some? {
        return Failure(f.begin.value);
      }
      var saved := orders;
      var got := Repo.Get(orders, oid.value, f.get);
      if got.Failure? {
        return Failure(OrderErrors.ErrOrderNotFound);
      }
      var bad := AdminTransition(got.value.status, next, receipt);
      if bad.Some? {
        return Failure(bad.value);
      }
      if f.update.Some? {
        return Failure(OrderErrors.ErrOrderFailed);
      }
      var o := got.value.(status := next);
      orders := orders[oid.value := o];
      if f.commit.Some? {
        orders := saved;
        return Failure(OrderErrors.ErrOrderFailed);
      }
      r := Success(MapOrder(o, []));
    }

    /** UpdateStatusByCustomer as written: the owner check is the only check,
        and the requested status is written whatever the current one is. */
    method UpdateStatusByCustomer(orderId: string, userId: Uuid, next: string, f: TxFaults)
      returns (r: Result<OrderResponse, Error>)
      requires Valid()
      modifies this
      ensures Valid()
      ensures !WellFormed(orderId) ==> r == Failure(Plain("invalid order id"))
      ensures WellFormed(orderId) ==>
        var oid := Parse(orderId).value;
        var got := old(Repo.Get(orders, oid, f.get));
        (f.begin.Some? ==> r == Failure(f.begin.value)) &&
        (f.begin.None? && got.Failure? ==> r == Failure(got.error)) &&
        (f.begin.None? && got.Success? && got.value.userId != userId ==> r == Failure(AuthErrors.ErrUnauthorized)) &&
        (f.begin.None? && got.Success? && got.value.userId == userId ==>
          (f.update.Some? ==> r == Failure(f.update.value)) &&
          (f.update.None? && f.commit.Some? ==> r == Failure(f.commit.value)) &&
          (f.update.None? && f.commit.None? ==>
            orders == old(orders)[oid := got.value.(status := next)] &&
            r == Success(MapOrder(got.value.(status := next), []))))
      ensures r.Failure? ==> orders == old(orders)
      ensures items == old(items)
    {
      var oid := Parse(orderId);
      if oid.None? {
        return Failure(Plain("invalid order id"));
      }
      if f.begin.Some? {
        return Failure(f.begin.value);
      }
      var saved := orders;
      var got := Repo.Get(orders, oid.value, f.get);
      if got.Failure? {
        return Failure(got.error);
      }
      if got.value.userId != userId {
        return Failure(AuthErrors.ErrUnauthorized);
      }
      if f.update.Some? {
        return Failure(f.update.value);
      }
      var o := got.value.(status := next);
      orders := orders[oid.value := o];
      if f.commit.Some? {
        orders := saved;
        return Failure(f.commit.value);
      }
      r := Success(MapOrder(o, []));
    }

    /** The customer completion with the missing status check: only the owner
        of a SHIPPED order can complete it. */
    method CompleteChecked(orderId: string, userId: Uuid, f: TxFaults) returns (r: Result<OrderResponse, Error>)
      requires Valid()
      modifies this
      ensures Valid()
      ensures r.Success? ==>
        WellFormed(orderId) &&
        var oid := Parse(orderId).value;
        oid in old(orders) && old(orders)[oid].userId == userId && CustomerMayComplete(old(orders)[oid].status) &&
        orders == old(orders)[oid := old(orders)[oid].(status := Completed)]
      ensures WellFormed(orderId) && f.begin.None? && Repo.Get(old(orders), Parse(orderId).value, f.get).Success? ==>
        var o := old(orders)[Parse(orderId).value];
        o.userId == userId && !CustomerMayComplete(o.status) ==> r == Failure(OrderErrors.ErrInvalidStatusTransition)
      ensures r.Failure? ==> orders == old(orders)
      ensures items == old(items)
    {
      var oid := Parse(orderId);
      if oid.None? {
        return Failure(Plain("invalid order id"));
      }
      if f.begin.Some? {
        return Failure(f.begin.value);
      }
      var saved := orders;
      var got := Repo.Get(orders, oid.value, f.get);
      if got.Failure? {
        return Failure(got.error);
      }
      if got.value.userId != userId {
        return Failure(AuthErrors.ErrUnauthorized);
      }
      if !CustomerMayComplete(got.value.status) {
        return Failure(OrderErrors.ErrInvalidStatusTransition);
      }
      if f.update.Some? {
        return Failure(f.update.value);
      }
      var o := got.value.(status := Completed);
      orders := orders[oid.value := o];
      if f.commit.Some? {
        orders := saved;
        return Failure(f.commit.value);
      }
      r := Success(MapOrder(o, []));
    }

    /** Detail: the order with its item rows. */
    function Detail(orderId: string, getFault: Option<Error>, itemsFault: Option<Error>): (r: Result<OrderResponse, Error>)
      reads this
      ensures !WellFormed(orderId) ==> r == Failure(OrderErrors.ErrInvalidOrderID)
      ensures WellFormed(orderId) && Repo.Get(orders, Parse(orderId).value, getFault).Failure? ==>
        r == Failure(OrderErrors.ErrOrderNotFound)
      ensures r.Success? <==> WellFormed(orderId) && Repo.Get(orders, Parse(orderId).value, getFault).Success? && itemsFault.None?
      ensures r.Success? ==>
        var oid := Parse(orderId).value;
        r.value == MapOrder(orders[oid], ItemsOf(oid)) && |r.value.items| == |ItemsOf(oid)|
    {
      match Parse(orderId)
      case None => Failure(OrderErrors.ErrInvalidOrderID)
      case Some(oid) =>
        match Repo.Get(orders, oid, getFault)
        case Failure(_) => Failure(OrderErrors.ErrOrderNotFound)
        case Success(o) =>
          if itemsFault.Some? then Failure(itemsFault.value) else Success(MapOrder(o, ItemsOf(oid)))
    }

    /** List: the customer's page of orders. The SQL of ListOrders is not part
        of this model, so the rows it returns are given; the call reports the
        user id and paging it sends. */
    method List(userId: string, page: int, limit: int, fault: Option<Error>, rows: seq<ListRow>)
      returns (sent: (Uuid, Repo.Paging), r: Result<(seq<OrderResponse>, int), Error>)
      ensures sent == (ParseOrNil(userId), Repo.PagingFor(page, limit))
      ensures fault.Some? ==> r == Failure(fault.value)
      ensures fault.None? ==>
        r.Success? && |r.value.0| == |rows| &&
        (forall i :: 0 <= i < |rows| ==> r.value.0[i] == MapOrder(rows[i].order, [])) &&
        r.value.1 == Repo.LastTotal(Counts(rows))
    {
      sent := (ParseOrNil(userId), Repo.PagingFor(page, limit));
      if fault.Some? {
        return sent, Failure(fault.value);
      }
      var res, total := MapRows(rows);
      r := Success((res, total));
    }

    /** ListAdmin: every order, filtered by status and search. */
    method ListAdmin(status: string, search: string, page: int, limit: int, fault: Option<Error>, rows: seq<ListRow>)
      returns (sent: AdminFilter, r: Result<(seq<OrderResponse>, int), Error>)
      ensures sent == AdminFilterFor(status, search, page, limit)
      ensures fault.Some? ==> r == Failure(fault.value)
      ensures fault.None? ==>
        r.Success? && |r.value.0| == |rows| &&
        (forall i :: 0 <= i < |rows| ==> r.value.0[i] == MapOrder(rows[i].order, [])) &&
        r.value.1 == Repo.LastTotal(Counts(rows))
    {
      sent := AdminFilterFor(status, search, page, limit);
      if fault.Some? {
        return sent, Failure(fault.value);
      }
      var res, total := MapRows(rows);
      r := Success((res, total));
    }
  }
}
