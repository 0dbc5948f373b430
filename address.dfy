/** The address book: each user's delivery addresses, at most one of them
    marked primary. Writes that set the primary flag first clear the flag on
    the caller's other addresses, inside the same transaction. */
module Addresses {
  import opened Wrappers
  import opened AppErrors
  import opened Uuids
  import Nulls
  import Text
  import Repo

  /** The body of CreateAddressRequest and UpdateAddressRequest. */
  datatype AddressRequest = AddressRequest(addressLabel: string, recipientName: string, recipientPhone: string, street: string,
                                           subdistrict: string, district: string, city: string, province: string,
                                           postalCode: string, isPrimary: bool)

  /** The stored columns; the five optional ones are nullable. */
  datatype Fields = Fields(addressLabel: string, recipientName: string, recipientPhone: string, street: string,
                           subdistrict: Nulls.NullString, district: Nulls.NullString, city: Nulls.NullString,
                           province: Nulls.NullString, postalCode: Nulls.NullString)

  datatype Address = Address(id: Uuid, userId: Uuid, fields: Fields, isPrimary: bool)

  /** The columns a request writes: the optional ones through ToText. */
  function FieldsOf(req: AddressRequest): Fields
  {
    Fields(req.addressLabel, req.recipientName, req.recipientPhone, req.street,
           Nulls.ToText(req.subdistrict), Nulls.ToText(req.district), Nulls.ToText(req.city),
           Nulls.ToText(req.province), Nulls.ToText(req.postalCode))
  }

  datatype AddressResponse = AddressResponse(id: string, addressLabel: string, recipientName: string, recipientPhone: string,
                                             street: string, subdistrict: string, district: string, city: string,
                                             province: string, postalCode: string, isPrimary: bool)

  /** mapToResponse / mapRowToResponse: a NULL column reads as "". */
  function ResponseOf(a: Address): AddressResponse
  {
    var f := a.fields;
    AddressResponse(a.id.text, f.addressLabel, f.recipientName, f.recipientPhone, f.street, f.subdistrict.str,
                    f.district.str, f.city.str, f.province.str, f.postalCode.str, a.isPrimary)
  }

  /** What an optional field reads back as once stored. */
  function Blanked(s: string): string { if Text.AllSpace(s) then "" else s }

  /** A written address reads back as the request, except that a blank
      optional field comes back empty. */
  lemma ResponseEchoesRequest(id: Uuid, uid: Uuid, req: AddressRequest)
    ensures var r := ResponseOf(Address(id, uid, FieldsOf(req), req.isPrimary));
      r.id == id.text && r.addressLabel == req.addressLabel && r.recipientName == req.recipientName &&
      r.recipientPhone == req.recipientPhone && r.street == req.street &&
      r.subdistrict == Blanked(req.subdistrict) && r.district == Blanked(req.district) &&
      r.city == Blanked(req.city) && r.province == Blanked(req.province) &&
      r.postalCode == Blanked(req.postalCode) && r.isPrimary == req.isPrimary
  {
    Nulls.ToTextSpec(req.subdistrict);
    Nulls.ToTextSpec(req.district);
    Nulls.ToTextSpec(req.city);
    Nulls.ToTextSpec(req.province);
    Nulls.ToTextSpec(req.postalCode);
  }

  // ---------------------------------------------------------------------------
  // The store transitions
  // ---------------------------------------------------------------------------

  /** No user has two primary addresses. */
  predicate OnePrimaryEach(m: map<Uuid, Address>)
  {
    forall a, b :: (a in m && b in m && m[a].userId == m[b].userId && m[a].isPrimary && m[b].isPrimary) ==> a == b
  }

  /** UnsetPrimaryByUser: every address of the user loses its primary flag. */
  function Unset(m: map<Uuid, Address>, uid: Uuid): (r: map<Uuid, Address>)
    ensures r.Keys == m.Keys
    ensures forall id :: id in m && m[id].userId == uid ==> r[id] == m[id].(isPrimary := false)
    ensures forall id :: id in m && m[id].userId != uid ==> r[id] == m[id]
  {
    map id | id in m :: if m[id].userId == uid then m[id].(isPrimary := false) else m[id]
  }

  /** The store after a primary write by uid to address id: the caller's flags
      are cleared first when the new address is primary. */
  function Put(m: map<Uuid, Address>, uid: Uuid, a: Address): map<Uuid, Address>
  {
    (if a.isPrimary then Unset(m, uid) else m)[a.id := a]
  }

  /** Writing an address of the caller keeps at most one primary per user. */
  lemma PutKeepsOnePrimary(m: map<Uuid, Address>, uid: Uuid, a: Address)
    requires OnePrimaryEach(m) && a.userId == uid
    ensures OnePrimaryEach(Put(m, uid, a))
  {
    var r := Put(m, uid, a);
    forall x, y | x in r && y in r && r[x].userId == r[y].userId && r[x].isPrimary && r[y].isPrimary
      ensures x == y
    {
      if x != a.id && y != a.id {
        assert r[x] == m[x] && r[y] == m[y];
      } else if a.isPrimary {
        assert r[x].userId == uid && r[y].userId == uid;
      } else {
        assert false;
      }
    }
  }

  /** A non-primary write touches no address but the one written. */
  lemma PutNonPrimaryIsLocal(m: map<Uuid, Address>, uid: Uuid, a: Address)
    requires !a.isPrimary
    ensures forall id :: id in m && id != a.id ==> id in Put(m, uid, a) && Put(m, uid, a)[id] == m[id]
  {
  }

  // ---------------------------------------------------------------------------
  // The service
  // ---------------------------------------------------------------------------

  /** Injected failures for BeginTx, UnsetPrimaryByUser, the insert or update, and Commit. */
  datatype TxFaults = TxFaults(begin: Option<Error>, unset: Option<Error>, write: Option<Error>, commit: Option<Error>)

  /** The error a write transaction returns: the first failing step, where the
      unset step runs only for a primary write and a write that matches no row
      reports sql.ErrNoRows. */
  function TxError(f: TxFaults, primary: bool, rowFound: bool): (e: Option<Error>)
    ensures e.None? <==> f.begin.None? && (!primary || f.unset.None?) && f.write.None? && rowFound && f.commit.None?
  {
    if f.begin.Some? then f.begin
    else if primary && f.unset.Some? then f.unset
    else if f.write.Some? then f.write
    else if !rowFound then Some(ErrNoRows)
    else f.commit
  }

  /** A row of ListAddressesAdmin: the address, its owner's e-mail and the window count. */
  datatype AdminRow = AdminRow(address: Address, email: string, totalCount: int)

  datatype AdminResponse = AdminResponse(address: AddressResponse, userId: string, userEmail: string)

  function AdminResponseOf(row: AdminRow): AdminResponse
  {
    AdminResponse(ResponseOf(row.address), row.address.userId.text, row.email)
  }

  function Counts(rows: seq<AdminRow>): (r: seq<int>)
    ensures |r| == |rows| && forall i :: 0 <= i < |rows| ==> r[i] == rows[i].totalCount
  {
    seq(|rows|, i requires 0 <= i < |rows| => rows[i].totalCount)
  }

  datatype PageLimit = PageLimit(page: int, limit: int)

  /** ListAdmin's defaults: a page or limit that is not positive becomes 1 or
      20; there is no upper bound on the limit. */
  function AdminWindow(page: int, limit: int): (p: PageLimit)
    ensures p.page >= 1 && p.limit >= 1
    ensures page >= 1 <==> p.page == page
    ensures limit >= 1 <==> p.limit == limit
    ensures limit < 1 ==> p.limit == 20
  {
    PageLimit(if page <= 0 then 1 else page, if limit <= 0 then 20 else limit)
  }

  class AddressService {
    var addresses: map<Uuid, Address>

    /** Each address is stored under its id. */
    ghost predicate Valid()
      reads this
    {
      forall id :: id in addresses ==> addresses[id].id == id
    }

    constructor()
      ensures addresses == map[] && Valid()
    {
      addresses := map[];
    }

    /** The transaction Create and Update share: with a primary address the
        caller's flags are cleared, then the row is written, then the
        transaction commits; on any failure the store is as before. */
    method Write(uid: Uuid, a: Address, rowFound: bool, f: TxFaults) returns (e: Option<Error>)
      requires Valid()
      modifies this
      ensures Valid()
      ensures e == TxError(f, a.isPrimary, rowFound)
      ensures e.Some? ==> addresses == old(addresses)
      ensures e.None? ==> addresses == Put(old(addresses), uid, a)
    {
      if f.begin.Some? {
        return f.begin;
      }
      var saved := addresses;
      if a.isPrimary {
        if f.unset.Some? {
          return f.unset;
        }
        addresses := Unset(addresses, uid);
      }
      if f.write.Some? || !rowFound {
        addresses := saved;
        return if f.write.Some? then f.write else Some(ErrNoRows);
      }
      addresses := addresses[a.id := a];
      if f.commit.Some? {
        addresses := saved;
        return f.commit;
      }
      e := None;
    }

    /** Create: with IsPrimary the caller's primaries are cleared, then the
        address is inserted, then the transaction commits; any failure rolls
        back both. A user id that does not parse is used as uuid.Nil. */
    method Create(req: AddressRequest, userId: string, newId: Uuid, f: TxFaults) returns (r: Result<AddressResponse, Error>)
      requires Valid() && newId !in addresses
      modifies this
      ensures Valid()
      ensures var a := Address(newId, ParseOrNil(userId), FieldsOf(req), req.isPrimary);
        var e := TxError(f, req.isPrimary, true);
        (e.Some? ==> r == Failure(e.value) && addresses == old(addresses)) &&
        (e.None? ==> r == Success(ResponseOf(a)) && addresses == Put(old(addresses), a.userId, a))
      ensures OnePrimaryEach(old(addresses)) ==> OnePrimaryEach(addresses)
    {
      var uid := ParseOrNil(userId);
      var a := Address(newId, uid, FieldsOf(req), req.isPrimary);
      ghost var before := addresses;
      var e := Write(uid, a, true, f);
      if e.Some? {
        return Failure(e.value);
      }
      if OnePrimaryEach(before) {
        PutKeepsOnePrimary(before, uid, a);
      }
      r := Success(ResponseOf(a));
    }

    /** Update as written: the caller's primaries are cleared, but the row is
        then updated by address id alone, whoever owns it. */
    method Update(addressId: string, userId: string, req: AddressRequest, f: TxFaults) returns (r: Result<AddressResponse, Error>)
      requires Valid()
      modifies this
      ensures Valid()
      ensures var id := ParseOrNil(addressId);
        var e := TxError(f, req.isPrimary, id in old(addresses));
        (e.Some? ==> r == Failure(e.value) && addresses == old(addresses)) &&
        (e.None? ==>
          var a := Address(id, old(addresses)[id].userId, FieldsOf(req), req.isPrimary);
          r == Success(ResponseOf(a)) && addresses == Put(old(addresses), ParseOrNil(userId), a))
    {
      var id, uid := ParseOrNil(addressId), ParseOrNil(userId);
      // UpdateAddress keeps the row's owner; a missing row makes the write fail
      var owner := if id in addresses then addresses[id].userId else uid;
      var a := Address(id, owner, FieldsOf(req), req.isPrimary);
      var e := Write(uid, a, id in addresses, f);
      if e.Some? {
        return Failure(e.value);
      }
      r := Success(ResponseOf(a));
    }

    /** Update with the write scoped to the caller's own address, as Delete is:
        another user's address matches no row. */
    method UpdateOwned(addressId: string, userId: string, req: AddressRequest, f: TxFaults) returns (r: Result<AddressResponse, Error>)
      requires Valid()
      modifies this
      ensures Valid()
      ensures var id, uid := ParseOrNil(addressId), ParseOrNil(userId);
        var e := TxError(f, req.isPrimary, id in old(addresses) && old(addresses)[id].userId == uid);
        (e.Some? ==> r == Failure(e.value) && addresses == old(addresses)) &&
        (e.None? ==>
          var a := Address(id, uid, FieldsOf(req), req.isPrimary);
          r == Success(ResponseOf(a)) && addresses == Put(old(addresses), uid, a))
      ensures OnePrimaryEach(old(addresses)) ==> OnePrimaryEach(addresses)
    {
      var id, uid := ParseOrNil(addressId), ParseOrNil(userId);
      var a := Address(id, uid, FieldsOf(req), req.isPrimary);
      ghost var before := addresses;
      var e := Write(uid, a, id in addresses && addresses[id].userId == uid, f);
      if e.Some? {
        return Failure(e.value);
      }
      if OnePrimaryEach(before) {
        PutKeepsOnePrimary(before, uid, a);
      }
      r := Success(ResponseOf(a));
    }

    /** Delete: only a row matching both the address id and the caller is removed. */
    method Delete(addressId: string, userId: string, fault: Option<Error>) returns (e: Option<Error>)
      requires Valid()
      modifies this
      ensures Valid()
      ensures e == fault
      ensures var id, uid := ParseOrNil(addressId), ParseOrNil(userId);
        addresses ==
          if fault.None? && id in old(addresses) && old(addresses)[id].userId == uid
          then old(addresses) - {id} else old(addresses)
      ensures forall k :: k in old(addresses) && old(addresses)[k].userId != ParseOrNil(userId) ==>
        k in addresses && addresses[k] == old(addresses)[k]
    {
      var id, uid := ParseOrNil(addressId), ParseOrNil(userId);
      if fault.Some? {
        return fault;
      }
      if id in addresses && addresses[id].userId == uid {
        addresses := addresses - {id};
      }
      e := None;
    }

    /** List: the user id must parse; one response per row, in row order. */
    method List(userId: string, rows: seq<Address>, fault: Option<Error>) returns (r: Result<seq<AddressResponse>, Error>)
      ensures !WellFormed(userId) ==> r == Failure(Uuids.ParseError(userId))
      ensures WellFormed(userId) && fault.Some? ==> r == Failure(fault.value)
      ensures r.Success? ==> |r.value| == |rows| && forall i :: 0 <= i < |rows| ==> r.value[i] == ResponseOf(rows[i])
      ensures r.Success? <==> WellFormed(userId) && fault.None?
    {
      if !WellFormed(userId) {
        return Failure(Uuids.ParseError(userId));
      }
      if fault.Some? {
        return Failure(fault.value);
      }
      var res := [];
      for i := 0 to |rows|
        invariant |res| == i && forall k :: 0 <= k < i ==> res[k] == ResponseOf(rows[k])
      {
        res := res + [ResponseOf(rows[i])];
      }
      r := Success(res);
    }

    /** ListAdmin: the defaults, the int32 window, then one response per row
        with the total read from the last row (0 with no rows). */
    method ListAdmin(page: int, limit: int, rows: seq<AdminRow>, fault: Option<Error>)
      returns (sent: Repo.Paging, r: Result<(seq<AdminResponse>, int), Error>)
      ensures var w := AdminWindow(page, limit); sent == Repo.PagingFor(w.page, w.limit)
      ensures fault.Some? ==> r == Failure(fault.value)
      ensures fault.None? ==>
        r.Success? && |r.value.0| == |rows| && (forall i :: 0 <= i < |rows| ==> r.value.0[i] == AdminResponseOf(rows[i])) &&
        r.value.1 == Repo.LastTotal(Counts(rows))
    {
      var w := AdminWindow(page, limit);
      sent := Repo.PagingFor(w.page, w.limit);
      if fault.Some? {
        return sent, Failure(fault.value);
      }
      var res := [];
      var total := 0;
      for i := 0 to |rows|
        invariant |res| == i && forall k :: 0 <= k < i ==> res[k] == AdminResponseOf(rows[k])
        invariant total == Repo.LastTotal(Counts(rows)[..i])
      {
        total := rows[i].totalCount;
        res := res + [AdminResponseOf(rows[i])];
      }
      assert Counts(rows)[..|rows|] == Counts(rows);
      r := Success((res, total));
    }
  }

  // ---------------------------------------------------------------------------
  // The ownership gap in Update
  // ---------------------------------------------------------------------------

  /** As written, Update lets a caller mark another user's address primary,
      after clearing only the caller's own flags: the owner ends with two. */
  lemma UpdateAsWrittenBreaksOnePrimary()
    ensures var owner, caller := Uuid("b"), Uuid("a");
      var x := Address(Uuid("x"), owner, FieldsOf(AddressRequest("", "", "", "", "", "", "", "", "", true)), true);
      var y := Address(Uuid("y"), owner, x.fields, false);
      var m := map[x.id := x, y.id := y];
      OnePrimaryEach(m) && !OnePrimaryEach(Put(m, caller, y.(isPrimary := true)))
  {
    var owner, caller := Uuid("b"), Uuid("a");
    var x := Address(Uuid("x"), owner, FieldsOf(AddressRequest("", "", "", "", "", "", "", "", "", true)), true);
    var y := Address(Uuid("y"), owner, x.fields, false);
    var m := map[x.id := x, y.id := y];
    assert x.id != y.id && owner != caller;
    forall a, b | a in m && b in m && m[a].userId == m[b].userId && m[a].isPrimary && m[b].isPrimary
      ensures a == b
    {
      assert a == x.id && b == x.id;
    }
    var u := Unset(m, caller);
    assert u[x.id] == x;
    var m' := u[y.id := y.(isPrimary := true)];
    assert m' == Put(m, caller, y.(isPrimary := true));
    assert x.id in m' && y.id in m' && m'[x.id].userId == m'[y.id].userId && m'[x.id].isPrimary && m'[y.id].isPrimary;
  }
}
