/** The cart service of internal/api/v1/cart/cart_service.go over a store that
    holds one cart per user and the item rows of each cart. */
module Carts {
  import opened Wrappers
  import opened AppErrors
  import opened Uuids
  import Repo
  import CartValidation
  import CartErrors
  import AuthErrors
  import ProductErrors

  /** A cart_items row: the product, its quantity and the unit price in cents
      recorded when it was added. */
  datatype Line = Line(id: Uuid, productId: Uuid, qty: int, price: int)

  /** CartItemDetailResponse; its CreatedAt timestamp is not modelled. */
  datatype ItemDetail = ItemDetail(id: string, productId: string, qty: int, price: int)

  datatype AddItemRequest = AddItemRequest(productId: string, qty: int, price: int)

  /** Injected failures of the repository calls one service call makes: the
      cart lookup by user, CreateCart, the call that does the work (Count,
      GetDetail, AddItem, UpdateQty) and the deleting call (DeleteItem, Delete). */
  datatype Faults = Faults(lookup: Option<Error>, create: Option<Error>, query: Option<Error>, remove: Option<Error>)

  /** parseUserID. */
  function ParseUserID(userId: string): (r: Result<Uuid, Error>)
    ensures r.Success? <==> WellFormed(userId)
    ensures r.Success? ==> Parse(userId) == Some(r.value) && Canonical(r.value)
    ensures r.Failure? ==> r.error == AuthErrors.ErrInvalidUserID
  {
    ParseSpec(userId);
    match Parse(userId)
    case Some(u) => Success(u)
    case None => Failure(AuthErrors.ErrInvalidUserID)
  }

  /** parseProductID. */
  function ParseProductID(productId: string): (r: Result<Uuid, Error>)
    ensures r.Success? <==> WellFormed(productId)
    ensures r.Success? ==> Parse(productId) == Some(r.value) && Canonical(r.value)
    ensures r.Failure? ==> r.error == ProductErrors.ErrInvalidProductID
  {
    ParseSpec(productId);
    match Parse(productId)
    case Some(u) => Success(u)
    case None => Failure(ProductErrors.ErrInvalidProductID)
  }

  /** The row UpdateCartItemQty changes: the first one of the product. */
  function FindProduct(ls: seq<Line>, pid: Uuid): (r: Option<nat>)
    ensures r.Some? ==> r.value < |ls| && ls[r.value].productId == pid
    ensures r.Some? ==> forall j :: 0 <= j < r.value ==> ls[j].productId != pid
    ensures r.None? <==> forall j :: 0 <= j < |ls| ==> ls[j].productId != pid
  {
    if |ls| == 0 then None
    else if ls[0].productId == pid then Some(0)
    else
      match FindProduct(ls[1..], pid)
      case None => None
      case Some(k) => Some(k + 1)
  }

  /** The rows DeleteCartItem leaves: every row of the product goes, the others stay in order. */
  function RemoveProduct(ls: seq<Line>, pid: Uuid): (r: seq<Line>)
    ensures forall l :: l in r <==> l in ls && l.productId != pid
    ensures |r| <= |ls|
  {
    if |ls| == 0 then []
    else (if ls[0].productId == pid then [] else [ls[0]]) + RemoveProduct(ls[1..], pid)
  }

  /** Row k with its quantity moved by delta (UpdateCartItemQty adds the quantity it is given). */
  function AddQty(ls: seq<Line>, k: nat, delta: int): (r: seq<Line>)
    requires k < |ls|
    ensures |r| == |ls|
    ensures r[k] == ls[k].(qty := ls[k].qty + delta)
    ensures forall j :: 0 <= j < |ls| && j != k ==> r[j] == ls[j]
  {
    ls[k := ls[k].(qty := ls[k].qty + delta)]
  }

  /** What a store call did to one cart: the error it reports and the cart's
      new rows, or None when it left them alone. */
  datatype RowsChange = RowsChange(err: Option<Error>, rows: Option<seq<Line>>)

  /** Decrement on the rows of one cart: UpdateCartItemQty with -1, then
      DeleteCartItem when the returned row has quantity zero or below. A miss is
      ErrCartItemNotFound; any other update failure leaves Go with a zero-valued
      row, so it also leads to the delete and is not reported. */
  function DecrementRows(ls: seq<Line>, pid: Uuid, query: Option<Error>, remove: Option<Error>): RowsChange
  {
    var k := FindProduct(ls, pid);
    if query == Some(ErrNoRows) || (query.None? && k.None?) then RowsChange(Some(CartErrors.ErrCartItemNotFound), None)
    else
      var updated := if query.None? then Some(AddQty(ls, k.value, -1)) else None;
      var qty := if query.None? then ls[k.value].qty - 1 else 0;
      if qty > 0 then RowsChange(None, updated)
      else if remove.Some? then RowsChange(remove, updated)
      else RowsChange(None, Some(RemoveProduct(if updated.Some? then updated.value else ls, pid)))
  }

  /** A decrement that reports no error leaves the product either with a
      positive quantity in its row or with no row at all; the only way to keep
      a row at zero is a failing delete, which is reported. */
  lemma DecrementLeavesPositive(ls: seq<Line>, pid: Uuid, query: Option<Error>, remove: Option<Error>)
    ensures var o := DecrementRows(ls, pid, query, remove);
      o.err.None? ==>
        o.rows.Some? &&
        (FindProduct(o.rows.value, pid).None? || o.rows.value[FindProduct(o.rows.value, pid).value].qty > 0)
    ensures query == Some(ErrNoRows) || (query.None? && FindProduct(ls, pid).None?) ==>
      DecrementRows(ls, pid, query, remove) == RowsChange(Some(CartErrors.ErrCartItemNotFound), None)
    ensures !(query == Some(ErrNoRows) || (query.None? && FindProduct(ls, pid).None?)) ==>
      DecrementRows(ls, pid, query, remove).err in {None, remove}
  {
    var o := DecrementRows(ls, pid, query, remove);
    var k := FindProduct(ls, pid);
    if query == Some(ErrNoRows) || (query.None? && k.None?) {
    } else if query.None? && ls[k.value].qty - 1 > 0 {
      FindProductAfterAddQty(ls, pid, k.value, -1);
    } else if remove.None? {
      NoProductAfterRemove(if query.None? then AddQty(ls, k.value, -1) else ls, pid);
    }
  }

  /** The rows DeleteCartItem leaves as the repository runs it: its second
      argument is a row id, so only the row whose own id it is goes. */
  function RemoveRowId(ls: seq<Line>, rid: Uuid): (r: seq<Line>)
    ensures forall l :: l in r <==> l in ls && l.id != rid
    ensures |r| <= |ls|
  {
    if |ls| == 0 then []
    else (if ls[0].id == rid then [] else [ls[0]]) + RemoveRowId(ls[1..], rid)
  }

  /** The service passes a product id where the row id belongs. When no row of
      the cart has that id, the delete keeps every row and still reports no
      error: DeleteItem as written removes nothing. */
  lemma {:induction false} RemoveRowIdMiss(ls: seq<Line>, rid: Uuid)
    requires forall j :: 0 <= j < |ls| ==> ls[j].id != rid
    ensures RemoveRowId(ls, rid) == ls
  {
    if |ls| > 0 {
      RemoveRowIdMiss(ls[1..], rid);
      assert ls == [ls[0]] + ls[1..];
    }
  }

  /** DecrementRows as written: the delete is handed the product id. */
  function DecrementRowsAsWritten(ls: seq<Line>, pid: Uuid, query: Option<Error>, remove: Option<Error>): RowsChange
  {
    var k := FindProduct(ls, pid);
    if query == Some(ErrNoRows) || (query.None? && k.None?) then RowsChange(Some(CartErrors.ErrCartItemNotFound), None)
    else
      var updated := if query.None? then Some(AddQty(ls, k.value, -1)) else None;
      var qty := if query.None? then ls[k.value].qty - 1 else 0;
      if qty > 0 then RowsChange(None, updated)
      else if remove.Some? then RowsChange(remove, updated)
      else RowsChange(None, Some(RemoveRowId(if updated.Some? then updated.value else ls, pid)))
  }

  /** As written, decrementing a product held once, whose row id is not the
      product id, reports success and leaves the row with quantity zero; the
      corrected decrement leaves the product no row. */
  lemma DecrementAsWrittenKeepsZeroRow(ls: seq<Line>, pid: Uuid, k: nat)
    requires FindProduct(ls, pid) == Some(k) && ls[k].qty == 1
    requires forall j :: 0 <= j < |ls| ==> ls[j].id != pid
    ensures var o := DecrementRowsAsWritten(ls, pid, None, None);
      o == RowsChange(None, Some(AddQty(ls, k, -1))) &&
      FindProduct(o.rows.value, pid) == Some(k) && o.rows.value[k].qty == 0
    ensures var o := DecrementRows(ls, pid, None, None);
      o.err.None? && o.rows.Some? && FindProduct(o.rows.value, pid).None?
  {
    var u := AddQty(ls, k, -1);
    assert forall j :: 0 <= j < |u| ==> u[j].id == ls[j].id;
    RemoveRowIdMiss(u, pid);
    assert DecrementRowsAsWritten(ls, pid, None, None) == RowsChange(None, Some(RemoveRowId(u, pid)));
    FindProductAfterAddQty(ls, pid, k, -1);
    DecrementRowsCases(ls, pid, None, None);
    NoProductAfterRemove(u, pid);
  }

  /** After RemoveProduct the product has no row left. */
  lemma NoProductAfterRemove(ls: seq<Line>, pid: Uuid)
    ensures FindProduct(RemoveProduct(ls, pid), pid).None?
  {
    var rest := RemoveProduct(ls, pid);
    assert forall j :: 0 <= j < |rest| ==> rest[j].productId != pid by {
      forall j | 0 <= j < |rest| ensures rest[j].productId != pid {
        assert rest[j] in rest;
      }
    }
  }

  /** A cart holding one unit of one product, with distinct row and product ids. */
  lemma DecrementAsWrittenExample()
    ensures var row := Uuid("11111111-1111-1111-1111-111111111111");
      var p := Uuid("22222222-2222-2222-2222-222222222222");
      DecrementRowsAsWritten([Line(row, p, 1, 500)], p, None, None) == RowsChange(None, Some([Line(row, p, 0, 500)]))
  {
    var row := Uuid("11111111-1111-1111-1111-111111111111");
    var p := Uuid("22222222-2222-2222-2222-222222222222");
    assert row != p by { assert row.text[0] != p.text[0]; }
    DecrementAsWrittenKeepsZeroRow([Line(row, p, 1, 500)], p, 0);
    assert AddQty([Line(row, p, 1, 500)], 0, -1) == [Line(row, p, 0, 500)];
  }

  function ToDetail(l: Line): ItemDetail
  {
    ItemDetail(l.id.text, l.productId.text, l.qty, l.price)
  }

  /** The response items of Detail: one per row, in row order. */
  function Details(rows: seq<Line>): (r: seq<ItemDetail>)
    ensures |r| == |rows|
    ensures forall i :: 0 <= i < |rows| ==> r[i] == ToDetail(rows[i])
  {
    seq(|rows|, i requires 0 <= i < |rows| => ToDetail(rows[i]))
  }

  class CartService {
    /** GetCartByUserID: the cart of each user. */
    var carts: map<Uuid, Uuid>
    /** The cart_items rows of each cart, in the order GetCartDetail lists them. */
    var lines: map<Uuid, seq<Line>>

    /** Every stored product id came out of uuid.Parse. */
    ghost predicate Valid()
      reads this
    {
      forall c, l :: c in lines && l in lines[c] ==> Canonical(l.productId)
    }

    constructor()
      ensures carts == map[] && lines == map[]
      ensures Valid()
    {
      carts := map[];
      lines := map[];
    }

    function Lines(cartId: Uuid): seq<Line>
      reads this
    {
      if cartId in lines then lines[cartId] else []
    }

    /** GetCartDetail: the rows of the user's cart, none when the user has no cart. */
    function DetailRows(uid: Uuid): seq<Line>
      reads this
    {
      if uid in carts then Lines(carts[uid]) else []
    }

    /** getCartOnly: a missing cart is ErrCartNotFound; any other lookup failure passes through. */
    function CartOnly(uid: Uuid, fault: Option<Error>): (r: Result<Uuid, Error>)
      reads this
      ensures r.Success? <==> fault.None? && uid in carts
      ensures r.Success? ==> r.value == carts[uid]
      ensures r.Failure? ==>
        r.error == (if fault.Some? && fault.value != ErrNoRows then fault.value else CartErrors.ErrCartNotFound)
    {
      match Repo.Get(carts, uid, fault)
      case Success(c) => Success(c)
      case Failure(e) => Failure(if e == ErrNoRows then CartErrors.ErrCartNotFound else e)
    }

    /** getOrCreateCart: an existing cart is reused; a cart is created only when the lookup fails. */
    method GetOrCreateCart(uid: Uuid, f: Faults, newCartId: Uuid) returns (r: Result<Uuid, Error>)
      modifies this
      ensures f.lookup.None? && uid in old(carts) ==> r == Success(old(carts)[uid]) && carts == old(carts)
      ensures !(f.lookup.None? && uid in old(carts)) && f.create.Some? ==>
        r == Failure(f.create.value) && carts == old(carts)
      ensures !(f.lookup.None? && uid in old(carts)) && f.create.None? ==>
        r == Success(newCartId) && carts == old(carts)[uid := newCartId]
      ensures lines == old(lines)
    {
      var found := Repo.Get(carts, uid, f.lookup);
      if found.Success? {
        return Success(found.value);
      }
      if f.create.Some? {
        return Failure(f.create.value);
      }
      carts := carts[uid := newCartId];
      r := Success(newCartId);
    }

    /** Create: make sure the user has a cart. */
    method Create(userId: string, f: Faults, newCartId: Uuid) returns (err: Option<Error>)
      modifies this
      ensures !WellFormed(userId) ==> err == Some(AuthErrors.ErrInvalidUserID) && carts == old(carts)
      ensures WellFormed(userId) ==>
        var uid := Parse(userId).value;
        (f.lookup.None? && uid in old(carts) ==> err.None? && carts == old(carts)) &&
        (!(f.lookup.None? && uid in old(carts)) && f.create.Some? ==> err == f.create && carts == old(carts)) &&
        (!(f.lookup.None? && uid in old(carts)) && f.create.None? ==> err.None? && carts == old(carts)[uid := newCartId])
      ensures err.None? ==> Parse(userId).Some? && Parse(userId).value in carts
      ensures lines == old(lines)
    {
      var uid := ParseUserID(userId);
      if uid.Failure? {
        return Some(uid.error);
      }
      var c := GetOrCreateCart(uid.value, f, newCartId);
      err := if c.Success? then None else Some(c.error);
    }

    /** Count: the number of rows in the user's cart. */
    function Count(userId: string, f: Faults): (r: Result<int, Error>)
      reads this
      ensures !WellFormed(userId) ==> r == Failure(AuthErrors.ErrInvalidUserID)
      ensures WellFormed(userId) && CartOnly(Parse(userId).value, f.lookup).Failure? ==>
        r == Failure(CartOnly(Parse(userId).value, f.lookup).error)
      ensures r.Success? <==> WellFormed(userId) && CartOnly(Parse(userId).value, f.lookup).Success? && f.query.None?
      ensures r.Success? ==> r.value == |Lines(carts[Parse(userId).value])|
    {
      match ParseUserID(userId)
      case Failure(e) => Failure(e)
      case Success(uid) =>
        match CartOnly(uid, f.lookup)
        case Failure(e) => Failure(e)
        case Success(c) => if f.query.Some? then Failure(f.query.value) else Success(|Lines(c)|)
    }

    /** Detail: one response item per row of the user's cart, in order. */
    method Detail(userId: string, fault: Option<Error>) returns (r: Result<seq<ItemDetail>, Error>)
      ensures !WellFormed(userId) ==> r == Failure(AuthErrors.ErrInvalidUserID)
      ensures WellFormed(userId) && fault.Some? ==> r == Failure(fault.value)
      ensures WellFormed(userId) && fault.None? ==> r == Success(Details(DetailRows(Parse(userId).value)))
    {
      var uid := ParseUserID(userId);
      if uid.Failure? {
        return Failure(uid.error);
      }
      if fault.Some? {
        return Failure(fault.value);
      }
      var rows := DetailRows(uid.value);
      var items: seq<ItemDetail> := [];
      var i := 0;
      while i < |rows|
        invariant 0 <= i <= |rows|
        invariant items == Details(rows[..i])
      {
        items := items + [ToDetail(rows[i])];
        i := i + 1;
      }
      assert rows[..i] == rows;
      r := Success(items);
    }

    /** AddItem: validate the request, parse both ids, get or create the cart, append the row.
        `invalid` is the validator's verdict. The cart request types carry only
        `binding:` tags, which the validator does not read, so in Go it is None. */
    method AddItem(userId: string, req: AddItemRequest, invalid: Option<ValidationFailure>, f: Faults,
                   newCartId: Uuid, newLineId: Uuid) returns (err: Option<Error>)
      requires Valid()
      modifies this
      ensures Valid()
      ensures invalid.Some? ==>
        err == Some(CartValidation.MapValidationError(invalid.value)) && carts == old(carts) && lines == old(lines)
      ensures invalid.None? && !WellFormed(userId) ==>
        err == Some(AuthErrors.ErrInvalidUserID) && carts == old(carts) && lines == old(lines)
      ensures invalid.None? && WellFormed(userId) && !WellFormed(req.productId) ==>
        err == Some(ProductErrors.ErrInvalidProductID) && carts == old(carts) && lines == old(lines)
      ensures invalid.None? && WellFormed(userId) && WellFormed(req.productId) ==>
        var uid := Parse(userId).value;
        var found := f.lookup.None? && uid in old(carts);
        (found ==> carts == old(carts)) &&
        (!found && f.create.Some? ==> err == f.create && carts == old(carts) && lines == old(lines)) &&
        (!found && f.create.None? ==> carts == old(carts)[uid := newCartId]) &&
        (found || f.create.None? ==>
          var c := if found then old(carts)[uid] else newCartId;
          (f.query.Some? ==> err == f.query && lines == old(lines)) &&
          (f.query.None? ==>
            err.None? && lines == old(lines)[c := old(Lines(c)) + [Line(newLineId, Parse(req.productId).value, req.qty, req.price)]]))
      ensures err.None? ==>
        invalid.None? && WellFormed(userId) && WellFormed(req.productId) && f.query.None? &&
        var uid := Parse(userId).value;
        uid in carts &&
        var c := carts[uid];
        (f.lookup.None? && uid in old(carts) ==> carts == old(carts)) &&
        lines == old(lines)[c := old(Lines(c)) + [Line(newLineId, Parse(req.productId).value, req.qty, req.price)]]
      ensures err.Some? ==> lines == old(lines)
    {
      if invalid.Some? {
        return Some(CartValidation.MapValidationError(invalid.value));
      }
      var uid := ParseUserID(userId);
      if uid.Failure? {
        return Some(uid.error);
      }
      var pid := ParseProductID(req.productId);
      if pid.Failure? {
        return Some(pid.error);
      }
      var c := GetOrCreateCart(uid.value, f, newCartId);
      if c.Failure? {
        return Some(c.error);
      }
      if f.query.Some? {
        return f.query;
      }
      lines := lines[c.value := Lines(c.value) + [Line(newLineId, pid.value, req.qty, req.price)]];
      err := None;
    }

    /** The UpdateCartItemQty call: the first row of the product moves by delta
        and is returned; a cart without that product reports ErrNoRows. */
    method UpdateRow(cartId: Uuid, pid: Uuid, delta: int, fault: Option<Error>) returns (r: Result<Line, Error>)
      modifies this
      ensures fault.Some? ==> r == Failure(fault.value) && lines == old(lines)
      ensures fault.None? && FindProduct(old(Lines(cartId)), pid).None? ==> r == Failure(ErrNoRows) && lines == old(lines)
      ensures fault.None? && FindProduct(old(Lines(cartId)), pid).Some? ==>
        var k := FindProduct(old(Lines(cartId)), pid).value;
        r == Success(old(Lines(cartId))[k].(qty := old(Lines(cartId))[k].qty + delta)) &&
        lines == old(lines)[cartId := AddQty(old(Lines(cartId)), k, delta)]
      ensures carts == old(carts)
    {
      if fault.Some? {
        return Failure(fault.value);
      }
      var ls := Lines(cartId);
      var k := FindProduct(ls, pid);
      if k.None? {
        return Failure(ErrNoRows);
      }
      lines := lines[cartId := AddQty(ls, k.value, delta)];
      r := Success(ls[k.value].(qty := ls[k.value].qty + delta));
    }

    /** The steps UpdateQty, Increment and Decrement share before their update:
        parse the user id, parse the product id, find the cart. */
    function Target(userId: string, productId: string, lookup: Option<Error>): (r: Result<(Uuid, Uuid), Error>)
      reads this
      ensures !WellFormed(userId) ==> r == Failure(AuthErrors.ErrInvalidUserID)
      ensures WellFormed(userId) && !WellFormed(productId) ==> r == Failure(ProductErrors.ErrInvalidProductID)
      ensures WellFormed(userId) && WellFormed(productId) ==>
        var c := CartOnly(Parse(userId).value, lookup);
        (c.Failure? ==> r == Failure(c.error)) && (c.Success? ==> r == Success((c.value, Parse(productId).value)))
    {
      match ParseUserID(userId)
      case Failure(e) => Failure(e)
      case Success(uid) =>
        match ParseProductID(productId)
        case Failure(e) => Failure(e)
        case Success(pid) =>
          match CartOnly(uid, lookup)
          case Failure(e) => Failure(e)
          case Success(c) => Success((c, pid))
    }

    /** The quantity update UpdateQty and Increment share; a miss is ErrCartItemNotFound. */
    method Bump(userId: string, productId: string, delta: int, f: Faults) returns (err: Option<Error>)
      modifies this
      ensures old(Target(userId, productId, f.lookup)).Failure? ==>
        err == Some(old(Target(userId, productId, f.lookup)).error) && lines == old(lines)
      ensures old(Target(userId, productId, f.lookup)).Success? ==>
        var (c, pid) := old(Target(userId, productId, f.lookup)).value;
        var k := FindProduct(old(Lines(c)), pid);
        (f.query.Some? ==>
          lines == old(lines) &&
          err == Some(if f.query.value == ErrNoRows then CartErrors.ErrCartItemNotFound else f.query.value)) &&
        (f.query.None? && k.None? ==> lines == old(lines) && err == Some(CartErrors.ErrCartItemNotFound)) &&
        (f.query.None? && k.Some? ==> err.None? && lines == old(lines)[c := AddQty(old(Lines(c)), k.value, delta)])
      ensures carts == old(carts)
    {
      var t := Target(userId, productId, f.lookup);
      if t.Failure? {
        return Some(t.error);
      }
      var (c, pid) := t.value;
      var u := UpdateRow(c, pid, delta, f.query);
      if u.Failure? {
        return Some(if u.error == ErrNoRows then CartErrors.ErrCartItemNotFound else u.error);
      }
      err := None;
    }

    /** UpdateQty: a validated, positive quantity is added to the product's row.
        As in AddItem, `invalid` is None in Go: the request has no `validate:` tags. */
    method UpdateQty(userId: string, productId: string, qty: int, invalid: Option<ValidationFailure>, f: Faults)
      returns (err: Option<Error>)
      requires Valid()
      modifies this
      ensures Valid()
      ensures invalid.Some? ==> err == Some(CartValidation.MapValidationError(invalid.value)) && lines == old(lines)
      ensures invalid.None? && qty <= 0 ==> err == Some(CartErrors.ErrInvalidQty) && lines == old(lines)
      ensures invalid.None? && qty > 0 && old(Target(userId, productId, f.lookup)).Failure? ==>
        err == Some(old(Target(userId, productId, f.lookup)).error) && lines == old(lines)
      ensures invalid.None? && qty > 0 && old(Target(userId, productId, f.lookup)).Success? ==>
        var (c, pid) := old(Target(userId, productId, f.lookup)).value;
        var k := FindProduct(old(Lines(c)), pid);
        (f.query.Some? ==>
          lines == old(lines) &&
          err == Some(if f.query.value == ErrNoRows then CartErrors.ErrCartItemNotFound else f.query.value)) &&
        (f.query.None? && k.None? ==> lines == old(lines) && err == Some(CartErrors.ErrCartItemNotFound)) &&
        (f.query.None? && k.Some? ==> err.None? && lines == old(lines)[c := AddQty(old(Lines(c)), k.value, qty)])
      ensures err.Some? ==> lines == old(lines)
      ensures carts == old(carts)
    {
      if invalid.Some? {
        return Some(CartValidation.MapValidationError(invalid.value));
      }
      if qty <= 0 {
        return Some(CartErrors.ErrInvalidQty);
      }
      err := Bump(userId, productId, qty, f);
      AddQtyKeepsValid(old(lines), lines);
    }

    /** Increment: one more of the product. */
    method Increment(userId: string, productId: string, f: Faults) returns (err: Option<Error>)
      requires Valid()
      modifies this
      ensures Valid()
      ensures old(Target(userId, productId, f.lookup)).Failure? ==>
        err == Some(old(Target(userId, productId, f.lookup)).error) && lines == old(lines)
      ensures old(Target(userId, productId, f.lookup)).Success? ==>
        var (c, pid) := old(Target(userId, productId, f.lookup)).value;
        var k := FindProduct(old(Lines(c)), pid);
        (f.query.Some? ==>
          lines == old(lines) &&
          err == Some(if f.query.value == ErrNoRows then CartErrors.ErrCartItemNotFound else f.query.value)) &&
        (f.query.None? && k.None? ==> lines == old(lines) && err == Some(CartErrors.ErrCartItemNotFound)) &&
        (f.query.None? && k.Some? ==> err.None? && lines == old(lines)[c := AddQty(old(Lines(c)), k.value, 1)])
      ensures err.Some? ==> lines == old(lines)
      ensures carts == old(carts)
    {
      err := Bump(userId, productId, 1, f);
      AddQtyKeepsValid(old(lines), lines);
    }

    /** Decrement: one less of the product, as DecrementRows describes. */
    method Decrement(userId: string, productId: string, f: Faults) returns (err: Option<Error>)
      requires Valid()
      modifies this
      ensures Valid()
      ensures old(Target(userId, productId, f.lookup)).Failure? ==>
        err == Some(old(Target(userId, productId, f.lookup)).error) && lines == old(lines)
      ensures old(Target(userId, productId, f.lookup)).Success? ==>
        var c := old(Target(userId, productId, f.lookup)).value.0;
        var o := DecrementRows(old(Lines(c)), old(Target(userId, productId, f.lookup)).value.1, f.query, f.remove);
        err == o.err && lines == (if o.rows.Some? then old(lines)[c := o.rows.value] else old(lines))
      ensures carts == old(carts)
    {
      var t := Target(userId, productId, f.lookup);
      if t.Failure? {
        return Some(t.error);
      }
      err := DecrementIn(t.value.0, t.value.1, f);
    }

    /** Decrement once the cart is known. */
    method DecrementIn(c: Uuid, pid: Uuid, f: Faults) returns (err: Option<Error>)
      requires Valid()
      modifies this
      ensures Valid()
      ensures var o := DecrementRows(old(Lines(c)), pid, f.query, f.remove);
        err == o.err && lines == (if o.rows.Some? then old(lines)[c := o.rows.value] else old(lines))
      ensures carts == old(carts)
    {
      ghost var ls := Lines(c);
      ghost var k := FindProduct(ls, pid);
      DecrementRowsCases(ls, pid, f.query, f.remove);
      var u := UpdateRow(c, pid, -1, f.query);
      if f.query.None? && k.Some? {
        AddQtyOneCartValid(old(lines), c, k.value, -1);
      }
      if u.Failure? && u.error == ErrNoRows {
        return Some(CartErrors.ErrCartItemNotFound);
      }
      if u.Success? && u.value.qty > 0 {
        return None;
      }
      ghost var mid := Lines(c);
      err := DeleteRows(c, pid, f.remove);
      if f.remove.None? && u.Success? {
        UpdateTwice(old(lines), c, mid, RemoveProduct(mid, pid));
      }
    }

    /** The DeleteCartItem call. */
    method DeleteRows(c: Uuid, pid: Uuid, fault: Option<Error>) returns (err: Option<Error>)
      requires Valid()
      modifies this
      ensures Valid()
      ensures err == fault
      ensures fault.Some? ==> lines == old(lines)
      ensures fault.None? ==> lines == old(lines)[c := RemoveProduct(old(Lines(c)), pid)]
      ensures fault.None? ==> FindProduct(Lines(c), pid).None?
      ensures carts == old(carts)
    {
      if fault.Some? {
        return fault;
      }
      var rest := RemoveProduct(Lines(c), pid);
      lines := lines[c := rest];
      NoProductAfterRemove(old(Lines(c)), pid);
      err := None;
    }

    /** DeleteItem: every row of the product leaves the user's cart. */
    method DeleteItem(userId: string, productId: string, f: Faults) returns (err: Option<Error>)
      requires Valid()
      modifies this
      ensures Valid()
      ensures old(Target(userId, productId, f.lookup)).Failure? ==>
        err == Some(old(Target(userId, productId, f.lookup)).error) && lines == old(lines)
      ensures old(Target(userId, productId, f.lookup)).Success? ==>
        var (c, pid) := old(Target(userId, productId, f.lookup)).value;
        err == f.remove &&
        (f.remove.Some? ==> lines == old(lines)) &&
        (f.remove.None? ==> lines == old(lines)[c := RemoveProduct(old(Lines(c)), pid)])
      ensures carts == old(carts)
    {
      var t := Target(userId, productId, f.lookup);
      if t.Failure? {
        return Some(t.error);
      }
      var (c, pid) := t.value;
      err := DeleteRows(c, pid, f.remove);
    }

    /** Delete: the user's cart and its rows go. */
    method Delete(userId: string, f: Faults) returns (err: Option<Error>)
      requires Valid()
      modifies this
      ensures Valid()
      ensures !WellFormed(userId) ==> err == Some(AuthErrors.ErrInvalidUserID) && unchanged(this)
      ensures WellFormed(userId) && old(CartOnly(Parse(userId).value, f.lookup)).Failure? ==>
        err == Some(old(CartOnly(Parse(userId).value, f.lookup)).error) && unchanged(this)
      ensures WellFormed(userId) && old(CartOnly(Parse(userId).value, f.lookup)).Success? ==>
        var uid := Parse(userId).value;
        err == f.remove &&
        (f.remove.Some? ==> unchanged(this)) &&
        (f.remove.None? ==> carts == old(carts) - {uid} && lines == old(lines) - {old(carts)[uid]})
    {
      var uid := ParseUserID(userId);
      if uid.Failure? {
        return Some(uid.error);
      }
      var c := CartOnly(uid.value, f.lookup);
      if c.Failure? {
        return Some(c.error);
      }
      if f.remove.Some? {
        return f.remove;
      }
      carts := carts - {uid.value};
      lines := lines - {c.value};
      err := None;
    }
  }

  /** Changing quantities or dropping rows keeps the product ids that were there. */
  lemma AddQtyKeepsValid(before: map<Uuid, seq<Line>>, after: map<Uuid, seq<Line>>)
    requires forall c, l :: c in before && l in before[c] ==> Canonical(l.productId)
    requires forall c :: c in after ==> forall l :: l in after[c] ==> l.productId in ProductIds(before, c)
    ensures forall c, l :: c in after && l in after[c] ==> Canonical(l.productId)
  {
  }

  lemma UpdateTwice(m: map<Uuid, seq<Line>>, c: Uuid, a: seq<Line>, b: seq<Line>)
    ensures m[c := a][c := b] == m[c := b]
  {
  }

  /** DecrementRows case by case, in the order DecrementIn meets them. */
  lemma DecrementRowsCases(ls: seq<Line>, pid: Uuid, query: Option<Error>, remove: Option<Error>)
    ensures var o := DecrementRows(ls, pid, query, remove);
      var k := FindProduct(ls, pid);
      && (query == Some(ErrNoRows) || (query.None? && k.None?) ==> o == RowsChange(Some(CartErrors.ErrCartItemNotFound), None))
      && (query.Some? && query != Some(ErrNoRows) ==>
            o == if remove.Some? then RowsChange(remove, None) else RowsChange(None, Some(RemoveProduct(ls, pid))))
      && (query.None? && k.Some? && ls[k.value].qty - 1 > 0 ==> o == RowsChange(None, Some(AddQty(ls, k.value, -1))))
      && (query.None? && k.Some? && ls[k.value].qty - 1 <= 0 ==>
            o == if remove.Some? then RowsChange(remove, Some(AddQty(ls, k.value, -1)))
                 else RowsChange(None, Some(RemoveProduct(AddQty(ls, k.value, -1), pid))))
  {
  }

  /** Changing a quantity in one cart keeps every product id canonical. */
  lemma AddQtyOneCartValid(m: map<Uuid, seq<Line>>, c: Uuid, k: nat, delta: int)
    requires forall c, l :: c in m && l in m[c] ==> Canonical(l.productId)
    requires c in m && k < |m[c]|
    ensures var m' := m[c := AddQty(m[c], k, delta)];
      forall c, l :: c in m' && l in m'[c] ==> Canonical(l.productId)
  {
    var m' := m[c := AddQty(m[c], k, delta)];
    forall c': Uuid, l: Line | c' in m' && l in m'[c'] ensures Canonical(l.productId) {
      if c' == c {
        var j :| 0 <= j < |m'[c]| && m'[c][j] == l;
        assert l.productId == m[c][j].productId && m[c][j] in m[c];
      }
    }
  }

  ghost function ProductIds(m: map<Uuid, seq<Line>>, c: Uuid): set<Uuid>
  {
    if c in m then set l | l in m[c] :: l.productId else {}
  }

  /** After moving row k's quantity, the product's first row is still row k. */
  lemma FindProductAfterAddQty(ls: seq<Line>, pid: Uuid, k: nat, delta: int)
    requires FindProduct(ls, pid) == Some(k)
    ensures FindProduct(AddQty(ls, k, delta), pid) == Some(k)
  {
    var r := AddQty(ls, k, delta);
    assert r[k].productId == pid;
    assert forall j :: 0 <= j < k ==> r[j].productId != pid;
  }
}
