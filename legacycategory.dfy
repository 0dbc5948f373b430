/** The older category service of internal/category/category_service.go. It
    keeps no state of its own: every operation parses the id, makes one call
    on a repository whose implementation is not part of this model, and maps
    the row it gets back. Each operation therefore takes the repository's
    reply as a parameter and returns the call it made (none when the id does
    not parse) together with Go's (value, error) pair. */
module LegacyCategory {
  import opened Wrappers
  import opened AppErrors
  import opened Uuids
  import Nulls
  import Slugs
  import Text
  import Repo

  /** `dbgen.Category`, with the timestamp as a number. */
  datatype Category = Category(
    id: Uuid, name: string, slug: string, description: Nulls.NullString, imageUrl: Nulls.NullString, createdAt: int)

  /** `dbgen.ListCategoriesRow`, reduced to the columns GetAll reads. */
  datatype ListRow = ListRow(id: Uuid, name: string, slug: string, totalCount: int)

  /** `CategoryResponse`; its zero value has an empty id and a zero time. */
  datatype Response = Response(id: string, name: string, slug: string, createdAt: int)

  const ZeroResponse: Response := Response("", "", "", 0)

  /** `CreateCategoryRequest`, used by both Create and Update. */
  datatype Request = Request(name: string, description: string, imageUrl: string)

  /** The fields written by the insert and by the update. */
  datatype Fields = Fields(name: string, slug: string, description: Nulls.NullString, imageUrl: Nulls.NullString)

  /** A repository call the service makes. */
  datatype RepoCall =
    | CreateCall(fields: Fields)
    | ListCall(paging: Repo.Paging)
    | GetCall(id: Uuid)
    | UpdateCall(id: Uuid, fields: Fields)
    | DeleteCall(id: Uuid)
    | RestoreCall(id: Uuid)

  /** What an operation did: the repository call, if any, and its results. */
  datatype Outcome<T> = Outcome(call: Option<RepoCall>, value: T, err: Option<Error>)

  /** The fields a request is written as: the slug is the name with every
      space turned into '-' and lower-cased, the two optional texts are NULL
      when empty. */
  function FieldsOf(req: Request): (f: Fields)
    ensures f.name == req.name && f.slug == Slugs.DashedLower(req.name)
    ensures f.description.valid <==> req.description != ""
    ensures f.imageUrl.valid <==> req.imageUrl != ""
  {
    Fields(req.name, Slugs.DashedLower(req.name), Nulls.NewNullString(req.description), Nulls.NewNullString(req.imageUrl))
  }

  /** `mapToResponse`: description and image are not reported. */
  function ResponseOf(cat: Category): Response
  {
    Response(cat.id.text, cat.name, cat.slug, cat.createdAt)
  }

  /** `Create`: one insert; the response is mapped from whatever row the
      repository hands back, alongside its error. */
  function Create(req: Request, reply: (Category, Option<Error>)): (o: Outcome<Response>)
    ensures o.call == Some(CreateCall(FieldsOf(req)))
    ensures o.value == ResponseOf(reply.0) && o.err == reply.1
  {
    Outcome(Some(CreateCall(FieldsOf(req))), ResponseOf(reply.0), reply.1)
  }

  /** `GetByID`: a malformed id is answered with the parse error and the
      zero response, and the repository is not asked. */
  function GetByID(idStr: string, reply: (Category, Option<Error>)): (o: Outcome<Response>)
    ensures !WellFormed(idStr) ==> o == Outcome(None, ZeroResponse, Some(ParseError(idStr)))
    ensures WellFormed(idStr) ==>
      o.call == Some(GetCall(Parse(idStr).value)) && o.value == ResponseOf(reply.0) && o.err == reply.1
  {
    match Parse(idStr)
    case None => Outcome(None, ZeroResponse, Some(ParseError(idStr)))
    case Some(id) => Outcome(Some(GetCall(id)), ResponseOf(reply.0), reply.1)
  }

  /** `Update`: the same fields as Create, written under the parsed id. */
  function Update(idStr: string, req: Request, reply: (Category, Option<Error>)): (o: Outcome<Response>)
    ensures !WellFormed(idStr) ==> o == Outcome(None, ZeroResponse, Some(ParseError(idStr)))
    ensures WellFormed(idStr) ==>
      o.call == Some(UpdateCall(Parse(idStr).value, FieldsOf(req))) && o.value == ResponseOf(reply.0) && o.err == reply.1
  {
    match Parse(idStr)
    case None => Outcome(None, ZeroResponse, Some(ParseError(idStr)))
    case Some(id) => Outcome(Some(UpdateCall(id, FieldsOf(req))), ResponseOf(reply.0), reply.1)
  }

  /** `Delete`: the repository's error is returned as is. */
  function Delete(idStr: string, reply: Option<Error>): (o: Outcome<()>)
    ensures !WellFormed(idStr) ==> o == Outcome(None, (), Some(ParseError(idStr)))
    ensures WellFormed(idStr) ==> o.call == Some(DeleteCall(Parse(idStr).value)) && o.err == reply
  {
    match Parse(idStr)
    case None => Outcome(None, (), Some(ParseError(idStr)))
    case Some(id) => Outcome(Some(DeleteCall(id)), (), reply)
  }

  /** `Restore`. */
  function Restore(idStr: string, reply: (Category, Option<Error>)): (o: Outcome<Response>)
    ensures !WellFormed(idStr) ==> o == Outcome(None, ZeroResponse, Some(ParseError(idStr)))
    ensures WellFormed(idStr) ==>
      o.call == Some(RestoreCall(Parse(idStr).value)) && o.value == ResponseOf(reply.0) && o.err == reply.1
  {
    match Parse(idStr)
    case None => Outcome(None, ZeroResponse, Some(ParseError(idStr)))
    case Some(id) => Outcome(Some(RestoreCall(id)), ResponseOf(reply.0), reply.1)
  }

  /** Create and Update write a name under the same slug, so renaming a
      category gives it the slug it would have had if created under the new
      name; the slug keeps the name's length and has no upper-case letter
      and no space. */
  lemma SlugDerivedAlike(idStr: string, req: Request, reply1: (Category, Option<Error>), reply2: (Category, Option<Error>))
    requires WellFormed(idStr)
    ensures Update(idStr, req, reply1).call.value.fields == Create(req, reply2).call.value.fields
    ensures var s := Create(req, reply2).call.value.fields.slug;
      |s| == |req.name| && Text.NoUpper(s) && ' ' !in s
  {
  }

  /** Two names that differ only in letter case or in spaces versus dashes
      get the same slug, so the slug alone does not tell them apart. */
  lemma SlugCollision()
    ensures FieldsOf(Request("Smart Phone", "", "")).slug == FieldsOf(Request("smart-phone", "", "")).slug
  {
    var a := Slugs.DashedLower("Smart Phone");
    var b := Slugs.DashedLower("smart-phone");
    assert |a| == |b| == 11;
    forall i | 0 <= i < 11 ensures a[i] == b[i] {
    }
  }

  /** A malformed id reaches no repository: every by-id operation ends with
      the parse error whatever the repository would have said. */
  lemma ParseErrorBeforeRepo(idStr: string, req: Request, reply: (Category, Option<Error>), fault: Option<Error>)
    requires !WellFormed(idStr)
    ensures GetByID(idStr, reply).call.None? && GetByID(idStr, reply).err == Some(ParseError(idStr))
    ensures Update(idStr, req, reply).call.None? && Update(idStr, req, reply).err == Some(ParseError(idStr))
    ensures Delete(idStr, fault).call.None? && Delete(idStr, fault).err == Some(ParseError(idStr))
    ensures Restore(idStr, reply).call.None? && Restore(idStr, reply).err == Some(ParseError(idStr))
  {
  }

  /** A canonical id read back through GetByID asks for that same id. */
  lemma GetByIDAsksForTheId(u: Uuid, reply: (Category, Option<Error>))
    requires Canonical(u)
    ensures GetByID(u.text, reply).call == Some(GetCall(u))
  {
    FormatParse(u);
  }

  // ---------------------------------------------------------------------------
  // GetAll
  // ---------------------------------------------------------------------------

  function Counts(rows: seq<ListRow>): (r: seq<int>)
    ensures |r| == |rows| && forall i :: 0 <= i < |rows| ==> r[i] == rows[i].totalCount
  {
    seq(|rows|, i requires 0 <= i < |rows| => rows[i].totalCount)
  }

  /** A listed row's response carries id, name and slug; its creation time is
      left at zero. */
  function RowResponse(row: ListRow): (r: Response)
    ensures r.createdAt == 0
  {
    Response(row.id.text, row.name, row.slug, 0)
  }

  /** `GetAll`: the query gets `int32(limit)` and `int32((page-1)*limit)`;
      a failed query returns no rows and total 0; otherwise one response per
      row in order, and the first non-zero window count as the total. */
  method GetAll(page: int, limit: int, rows: seq<ListRow>, fault: Option<Error>)
    returns (call: RepoCall, r: Result<(seq<Response>, int), Error>)
    ensures call == ListCall(Repo.PagingFor(page, limit))
    ensures fault.Some? ==> r == Failure(fault.value)
    ensures fault.None? ==>
      r.Success? && |r.value.0| == |rows| && (forall i :: 0 <= i < |rows| ==> r.value.0[i] == RowResponse(rows[i])) &&
      r.value.1 == Repo.FirstNonZero(Counts(rows))
  {
    call := ListCall(Repo.PagingFor(page, limit));
    if fault.Some? {
      return call, Failure(fault.value);
    }
    var total := 0;
    var res := [];
    for i := 0 to |rows|
      invariant |res| == i && forall j :: 0 <= j < i ==> res[j] == RowResponse(rows[j])
      invariant total == Repo.FirstNonZero(Counts(rows)[..i])
    {
      Repo.FirstNonZeroStep(Counts(rows), i, total);
      if total == 0 {
        total := rows[i].totalCount;
      }
      res := res + [RowResponse(rows[i])];
    }
    assert Counts(rows)[..|rows|] == Counts(rows);
    r := Success((res, total));
  }

  /** The first page of ten asks for ten rows from offset 0. */
  lemma FirstPagePaging()
    ensures Repo.PagingFor(1, 10) == Repo.Paging(10, 0)
  {
  }
}
