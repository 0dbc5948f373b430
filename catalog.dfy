/** The category and brand admin services of
    internal/api/v1/category/category_service.go and
    internal/api/v1/brand/brand_service.go. The two files have the same
    operations and differ in which error each step reports, whether requests
    are validated, and the width of the list arguments; `Kind` selects between
    them.

    The database is the `rows` field of a `CatalogService`. Every repository,
    transaction and image-store call may fail; each failure is a parameter.
    The image store itself is outside the model: an operation returns the
    calls it made to it, in order, so that the compensating deletes can be
    stated. */
module Catalog {
  import opened Wrappers
  import opened AppErrors
  import opened Ints
  import opened Uuids
  import Nulls
  import Text
  import Repo
  import Cloudinary
  import CategoryErrors
  import BrandErrors

  datatype Kind = CategoryKind | BrandKind

  // ---------------------------------------------------------------------------
  // The error each step reports, per service
  // ---------------------------------------------------------------------------

  function InvalidID(k: Kind): Error
  {
    match k
    case CategoryKind => CategoryErrors.ErrInvalidUUID
    case BrandKind => BrandErrors.ErrInvalidUUID
  }

  function NotFoundError(k: Kind): Error
  {
    match k
    case CategoryKind => CategoryErrors.ErrCategoryNotFound
    case BrandKind => BrandErrors.ErrBrandNotFound
  }

  function UploadFailed(k: Kind): Error
  {
    match k
    case CategoryKind => CategoryErrors.ErrImageUploadFailed
    case BrandKind => BrandErrors.ErrImageUploadFailed
  }

  function InvalidImageURL(k: Kind): Error
  {
    match k
    case CategoryKind => CategoryErrors.ErrInvalidImageURL
    case BrandKind => BrandErrors.ErrInvalidImageURL
  }

  /** Create: the insert failed. The brand service returns the driver error. */
  function InsertError(k: Kind, e: Error): Error
  {
    match k
    case CategoryKind => CategoryErrors.ErrCategoryFailed
    case BrandKind => e
  }

  /** Create: storing the uploaded image's URL failed. */
  function AttachError(k: Kind): Error
  {
    match k
    case CategoryKind => CategoryErrors.ErrImageUploadFailed
    case BrandKind => BrandErrors.ErrImageDeleteFailed
  }

  /** Create: the commit failed. */
  function CommitError(k: Kind): Error
  {
    match k
    case CategoryKind => CategoryErrors.ErrImageDeleteFailed
    case BrandKind => BrandErrors.ErrBrandFailed
  }

  /** Update: the id did not parse. The brand service returns the parse error. */
  function UpdateParseError(k: Kind, idStr: string): Error
  {
    match k
    case CategoryKind => CategoryErrors.ErrInvalidUUID
    case BrandKind => ParseError(idStr)
  }

  /** Update: reading the stored row failed. */
  function UpdateLookupError(k: Kind, e: Error): Error
  {
    match k
    case CategoryKind => CategoryErrors.ErrCategoryNotFound
    case BrandKind => e
  }

  /** Update: the write failed. Here it is the category service that returns
      the driver error. */
  function UpdateWriteError(k: Kind, e: Error): Error
  {
    match k
    case CategoryKind => e
    case BrandKind => BrandErrors.ErrBrandFailed
  }

  /** Delete: the stored image URL has no public id. */
  function DeleteExtractError(k: Kind, e: Error): Error
  {
    match k
    case CategoryKind => CategoryErrors.ErrInvalidImageURL
    case BrandKind => Wrapped("failed to extract public id", e)
  }

  /** The file name prefix of uploaded images. */
  function Prefix(k: Kind): string
  {
    match k
    case CategoryKind => "category-"
    case BrandKind => "brand-"
  }

  // ---------------------------------------------------------------------------
  // Stored rows and responses
  // ---------------------------------------------------------------------------

  /** A row of the categories or brands table; `deleted` is `deleted_at IS NOT NULL`. */
  datatype Entry = Entry(
    id: Uuid, name: string, slug: string, description: Nulls.NullString,
    imageUrl: Nulls.NullString, isActive: bool, deleted: bool)

  datatype AdminResponse = AdminResponse(
    id: string, name: string, slug: string, description: string, imageUrl: string, isActive: bool)

  /** `mapToResponse`, used by GetByID, Create, Update and Restore: it copies
      the id, name, slug and image URL only, so these replies always carry an
      empty description and `isActive` false, whatever is stored. */
  function ResponseOf(e: Entry): (r: AdminResponse)
    ensures r.id == e.id.text && r.name == e.name && r.slug == e.slug && r.imageUrl == e.imageUrl.str
    ensures r.description == "" && !r.isActive
  {
    AdminResponse(e.id.text, e.name, e.slug, "", e.imageUrl.str, false)
  }

  /** The request body of Create and Update. `isActive` is only present on
      Update, where it is validated and then never written. */
  datatype Request = Request(
    name: string, slug: string, description: string, imageUrl: string, isActive: Option<bool>)

  /** A row created by Create, before its image is attached. The default of
      the active flag comes from the table definition, which is not part of
      this model; it is taken to be true. */
  const DefaultActive: bool := true

  function NewEntry(id: Uuid, req: Request, image: Nulls.NullString): Entry
  {
    Entry(id, req.name, req.slug, Nulls.NewNullString(req.description), image, DefaultActive, false)
  }

  /** The row Update writes: name, slug and description from the request, the
      image chosen by the update, and the stored active and deleted flags. */
  function Updated(stored: Entry, req: Request, image: Nulls.NullString): Entry
  {
    Entry(stored.id, req.name, req.slug, Nulls.NewNullString(req.description), image, stored.isActive, stored.deleted)
  }

  // ---------------------------------------------------------------------------
  // Request validation (category service only)
  // ---------------------------------------------------------------------------

  /** The failing tag of `validate:"required,min=2,max=100"` on the name. */
  function NameTag(name: string): (t: Option<string>)
    ensures t.None? <==> 2 <= |name| <= 100
  {
    if name == "" then Some("required")
    else if |name| < 2 then Some("min")
    else if |name| > 100 then Some("max")
    else None
  }

  /** The field errors the validator reports for a create request, in field
      order. `urlOk` is the validator's `url` check of a non-empty image URL. */
  function CreateViolations(req: Request, urlOk: bool): seq<FieldError>
  {
    (if NameTag(req.name).Some? then [FieldError("Name", NameTag(req.name).value)] else [])
    + (if |req.description| > 500 then [FieldError("Description", "max")] else [])
    + (if req.imageUrl != "" && !urlOk then [FieldError("ImageUrl", "url")] else [])
  }

  /** An update request also requires `is_active`. */
  function UpdateViolations(req: Request, urlOk: bool): seq<FieldError>
  {
    CreateViolations(req, urlOk)
    + (if req.isActive.None? then [FieldError("IsActive", "required")] else [])
  }

  /** What the service returns when the validator rejects the request. */
  function Rejection(errs: seq<FieldError>): (e: Option<Error>)
    ensures e.Some? <==> |errs| > 0
  {
    if |errs| == 0 then None else Some(MapValidationError(FieldErrors(errs)))
  }

  /** A create request is accepted exactly when its name has 2 to 100
      characters, its description at most 500 and its image URL is empty or a
      URL; a bad name is the one reported. */
  lemma CreateValidation(req: Request, urlOk: bool)
    ensures Rejection(CreateViolations(req, urlOk)).None? <==>
      2 <= |req.name| <= 100 && |req.description| <= 500 && (req.imageUrl == "" || urlOk)
    ensures NameTag(req.name).Some? ==>
      ToHTTP(Rejection(CreateViolations(req, urlOk))).message ==
        (if req.name == "" then "name is required" else "name is invalid")
  {
    if NameTag(req.name).Some? {
      NameReported(req, urlOk);
    }
  }

  lemma NameReported(req: Request, urlOk: bool)
    requires NameTag(req.name).Some?
    ensures ToHTTP(Rejection(CreateViolations(req, urlOk))).message ==
      (if req.name == "" then "name is required" else "name is invalid")
  {
    var errs := CreateViolations(req, urlOk);
    var tag := NameTag(req.name).value;
    assert errs[0] == FieldError("Name", tag);
    var e := MapValidationError(FieldErrors(errs));
    assert Rejection(errs) == Some(e);
    var suffix := if tag == "required" then " is required" else " is invalid";
    assert ToHTTP(Some(e)).message == Text.Lower("Name") + suffix;
    assert Text.Lower("Name") == "name";
    assert tag == "required" <==> req.name == "";
    assert "name" + " is required" == "name is required" && "name" + " is invalid" == "name is invalid";
  }

  /** An update request without `is_active` is always rejected. */
  lemma UpdateNeedsActiveFlag(req: Request, urlOk: bool)
    requires req.isActive.None?
    ensures Rejection(UpdateViolations(req, urlOk)).Some?
  {
  }

  // ---------------------------------------------------------------------------
  // Image-store calls and the plan of each operation
  // ---------------------------------------------------------------------------

  /** A call to the image store: an upload under a file name, or a delete by
      public id. The upload folder is a constant of a package that is not part
      of this model. */
  datatype ImageCall = Upload(filename: string) | Destroy(publicId: string)

  /** How an operation ends: the error it returns, if any, before its write is
      final; the image-store calls it made; and the image URL it writes. */
  datatype Plan = Plan(error: Option<Error>, calls: seq<ImageCall>, image: Nulls.NullString)

  function Stop(e: Error, calls: seq<ImageCall>): Plan { Plan(Some(e), calls, Nulls.Null) }

  /** `file != nil && filename != ""`. */
  predicate Attached(hasFile: bool, filename: string) { hasFile && filename != "" }

  predicate HasImage(n: Nulls.NullString) { n.valid && n.str != "" }

  /** The name an image is uploaded under: "<kind>-<id>-<filename>". */
  function UniqueFilename(k: Kind, id: Uuid, filename: string): string
  {
    Prefix(k) + id.text + "-" + filename
  }

  /** The public id of a row's stored image. */
  function StoredPublicID(e: Entry): Result<string, Error>
  {
    Cloudinary.ExtractPublicID(Cloudinary.UrlPath(e.imageUrl.str))
  }

  datatype CreateFaults = CreateFaults(
    begin: Option<Error>, insert: Option<Error>, upload: Result<string, Error>,
    attach: Option<Error>, commit: Option<Error>, fetch: Option<Error>)

  /** Create's steps: validate (category only), begin, insert, then with a file
      upload it and store its URL, then commit. The uploaded image is deleted
      again when storing its URL fails, and when the commit fails if the
      upload returned a URL. */
  function CreatePlan(k: Kind, req: Request, urlOk: bool, hasFile: bool, filename: string, id: Uuid, f: CreateFaults): Plan
  {
    var rejected := Rejection(CreateViolations(req, urlOk));
    if k == CategoryKind && rejected.Some? then Stop(rejected.value, [])
    else if f.begin.Some? then Stop(f.begin.value, [])
    else if f.insert.Some? then Stop(InsertError(k, f.insert.value), [])
    else if !Attached(hasFile, filename) then
      if f.commit.Some? then Stop(CommitError(k), []) else Plan(None, [], Nulls.Null)
    else UploadStep(k, UniqueFilename(k, id, filename), f)
  }

  /** The part of Create after the insert when a file is attached: upload it
      under `name`, store its URL, commit. */
  function UploadStep(k: Kind, name: string, f: CreateFaults): Plan
  {
    match f.upload
    case Failure(_) => Stop(UploadFailed(k), [Upload(name)])
    case Success(url) =>
      if f.attach.Some? then Stop(AttachError(k), [Upload(name), Destroy(name)])
      else if f.commit.Some? then Stop(CommitError(k), if url != "" then [Upload(name), Destroy(name)] else [Upload(name)])
      else Plan(None, [Upload(name)], Nulls.NewNullString(url))
  }

  /** Create gets as far as the upload: validation, begin and insert passed
      and a file is attached. */
  predicate ReachesUpload(k: Kind, req: Request, urlOk: bool, hasFile: bool, filename: string, f: CreateFaults)
  {
    (k == CategoryKind ==> Rejection(CreateViolations(req, urlOk)).None?) &&
    f.begin.None? && f.insert.None? && Attached(hasFile, filename)
  }

  /** Before the upload, Create calls no image store; after it, the plan is the upload step's. */
  lemma CreateAroundUpload(k: Kind, req: Request, urlOk: bool, hasFile: bool, filename: string, id: Uuid, f: CreateFaults)
    ensures !ReachesUpload(k, req, urlOk, hasFile, filename, f) ==> CreatePlan(k, req, urlOk, hasFile, filename, id, f).calls == []
    ensures ReachesUpload(k, req, urlOk, hasFile, filename, f) ==>
      CreatePlan(k, req, urlOk, hasFile, filename, id, f) == UploadStep(k, UniqueFilename(k, id, filename), f)
  {
  }

  /** The image step of Update. With a file: the stored image, if any, is deleted
      (its outcome ignored) once its public id is found, then the new file is
      uploaded. Without one, the stored URL is kept. */
  function ReplaceImage(k: Kind, stored: Entry, hasFile: bool, filename: string, upload: Result<string, Error>): Plan
  {
    if !Attached(hasFile, filename) then Plan(None, [], stored.imageUrl)
    else if HasImage(stored.imageUrl) && StoredPublicID(stored).Failure? then Stop(InvalidImageURL(k), [])
    else
      var before := if HasImage(stored.imageUrl) then [Destroy(StoredPublicID(stored).value)] else [];
      var name := UniqueFilename(k, stored.id, filename);
      match upload
      case Failure(_) => Stop(UploadFailed(k), before + [Upload(name)])
      case Success(url) => Plan(None, before + [Upload(name)], Nulls.NewNullString(url))
  }

  datatype UpdateFaults = UpdateFaults(get: Option<Error>, upload: Result<string, Error>, write: Option<Error>, fetch: Option<Error>)

  /** Update's steps: validate (category only), parse the id, read the row,
      replace the image, write the row. None of it is in a transaction. */
  function UpdatePlan(k: Kind, rows: map<Uuid, Entry>, idStr: string, req: Request, urlOk: bool,
                      hasFile: bool, filename: string, f: UpdateFaults): (p: Plan)
    ensures p.error.None? ==> WellFormed(idStr) && Parse(idStr).value in rows
  {
    var rejected := Rejection(UpdateViolations(req, urlOk));
    if k == CategoryKind && rejected.Some? then Stop(rejected.value, [])
    else if !WellFormed(idStr) then Stop(UpdateParseError(k, idStr), [])
    else
      match Repo.Get(rows, Parse(idStr).value, f.get)
      case Failure(e) => Stop(UpdateLookupError(k, e), [])
      case Success(stored) => UpdateStored(k, stored, hasFile, filename, f)
  }

  /** The part of Update after the row is read: replace its image, then
      write the row. */
  function UpdateStored(k: Kind, stored: Entry, hasFile: bool, filename: string, f: UpdateFaults): Plan
  {
    var step := ReplaceImage(k, stored, hasFile, filename, f.upload);
    if step.error.Some? then step
    else if f.write.Some? then Stop(UpdateWriteError(k, f.write.value), step.calls)
    else step
  }

  datatype DeleteFaults = DeleteFaults(get: Option<Error>, destroy: Option<Error>, write: Option<Error>)

  /** Delete's steps: parse the id, read the row, delete its image if it has
      one, then soft-delete the row. */
  function DeletePlan(k: Kind, rows: map<Uuid, Entry>, idStr: string, f: DeleteFaults): (p: Plan)
    ensures p.error.None? ==> WellFormed(idStr) && Parse(idStr).value in rows
  {
    if !WellFormed(idStr) then Stop(ParseError(idStr), [])
    else
      match Repo.Get(rows, Parse(idStr).value, f.get)
      case Failure(e) => Stop(e, [])
      case Success(stored) => DeleteStored(k, stored, f)
  }

  /** The part of Delete after the row is read: destroy its image, if it
      has one, then mark the row deleted. */
  function DeleteStored(k: Kind, stored: Entry, f: DeleteFaults): Plan
  {
    if !HasImage(stored.imageUrl) then
      if f.write.Some? then Stop(f.write.value, []) else Plan(None, [], Nulls.Null)
    else
      match StoredPublicID(stored)
      case Failure(e) => Stop(DeleteExtractError(k, e), [])
      case Success(pid) =>
        if f.destroy.Some? then Stop(f.destroy.value, [Destroy(pid)])
        else if f.write.Some? then Stop(f.write.value, [Destroy(pid)])
        else Plan(None, [Destroy(pid)], Nulls.Null)
  }

  // ---------------------------------------------------------------------------
  // What the plans promise
  // ---------------------------------------------------------------------------

  /** Create without a file never calls the image store and stores no URL. */
  lemma CreateWithoutFile(k: Kind, req: Request, urlOk: bool, hasFile: bool, filename: string, id: Uuid, f: CreateFaults)
    requires !Attached(hasFile, filename)
    ensures var p := CreatePlan(k, req, urlOk, hasFile, filename, id, f);
      p.calls == [] && p.image == Nulls.Null
  {
  }

  /** A failed upload is reported as ErrImageUploadFailed and nothing else is
      called; the caller's transaction is rolled back. */
  lemma CreateUploadFailure(k: Kind, req: Request, urlOk: bool, hasFile: bool, filename: string, id: Uuid, f: CreateFaults)
    requires k == CategoryKind ==> Rejection(CreateViolations(req, urlOk)).None?
    requires f.begin.None? && f.insert.None? && Attached(hasFile, filename) && f.upload.Failure?
    ensures var p := CreatePlan(k, req, urlOk, hasFile, filename, id, f);
      p.error == Some(UploadFailed(k)) && p.calls == [Upload(UniqueFilename(k, id, filename))]
  {
  }

  /** A commit that fails after an upload returned a URL deletes that upload;
      the category service reports ErrImageDeleteFailed, the brand service
      ErrBrandFailed. */
  lemma CreateCommitFailure(k: Kind, req: Request, urlOk: bool, hasFile: bool, filename: string, id: Uuid, f: CreateFaults)
    requires k == CategoryKind ==> Rejection(CreateViolations(req, urlOk)).None?
    requires f.begin.None? && f.insert.None? && Attached(hasFile, filename)
    requires f.upload.Success? && f.upload.value != "" && f.attach.None? && f.commit.Some?
    ensures var p := CreatePlan(k, req, urlOk, hasFile, filename, id, f);
      var name := UniqueFilename(k, id, filename);
      p.error == Some(if k == CategoryKind then CategoryErrors.ErrImageDeleteFailed else BrandErrors.ErrBrandFailed) &&
      p.calls == [Upload(name), Destroy(name)]
  {
  }

  /** Storing the URL failed: the upload is deleted; the brand service reports
      ErrImageDeleteFailed and the category service ErrImageUploadFailed. */
  lemma CreateAttachFailure(k: Kind, req: Request, urlOk: bool, hasFile: bool, filename: string, id: Uuid, f: CreateFaults)
    requires k == CategoryKind ==> Rejection(CreateViolations(req, urlOk)).None?
    requires f.begin.None? && f.insert.None? && Attached(hasFile, filename)
    requires f.upload.Success? && f.attach.Some?
    ensures var p := CreatePlan(k, req, urlOk, hasFile, filename, id, f);
      var name := UniqueFilename(k, id, filename);
      p.error == Some(if k == CategoryKind then CategoryErrors.ErrImageUploadFailed else BrandErrors.ErrImageDeleteFailed) &&
      p.calls == [Upload(name), Destroy(name)]
  {
  }

  /** A failed Create whose upload returned a URL always ends by asking the
      image store to delete that upload, under the name it was uploaded as. */
  lemma FailedCreateCleansUp(k: Kind, req: Request, urlOk: bool, hasFile: bool, filename: string, id: Uuid, f: CreateFaults)
    requires f.upload.Success? && f.upload.value != ""
    ensures var p := CreatePlan(k, req, urlOk, hasFile, filename, id, f);
      p.error.Some? && Upload(UniqueFilename(k, id, filename)) in p.calls ==>
        p.calls[|p.calls| - 1] == Destroy(UniqueFilename(k, id, filename))
  {
    CreateAroundUpload(k, req, urlOk, hasFile, filename, id, f);
  }

  /** A successful Create makes exactly one upload and stores the URL it returned. */
  lemma CreateStoresUploadedURL(k: Kind, req: Request, urlOk: bool, hasFile: bool, filename: string, id: Uuid, f: CreateFaults)
    requires Attached(hasFile, filename)
    ensures var p := CreatePlan(k, req, urlOk, hasFile, filename, id, f);
      p.error.None? ==>
        f.upload.Success? && p.image == Nulls.NewNullString(f.upload.value) &&
        p.calls == [Upload(UniqueFilename(k, id, filename))]
  {
    CreateAroundUpload(k, req, urlOk, hasFile, filename, id, f);
  }

  /** Update without a file keeps the stored image URL and calls no image store. */
  lemma UpdateWithoutFileKeepsImage(k: Kind, rows: map<Uuid, Entry>, idStr: string, req: Request, urlOk: bool,
                                    hasFile: bool, filename: string, f: UpdateFaults)
    requires !Attached(hasFile, filename)
    ensures var p := UpdatePlan(k, rows, idStr, req, urlOk, hasFile, filename, f);
      p.calls == [] && (p.error.None? ==> p.image == rows[Parse(idStr).value].imageUrl)
  {
  }

  /** With a file, an upload failure aborts before the write; by then the stored
      image has already been deleted, whatever that delete reported. */
  lemma UpdateUploadFailure(k: Kind, rows: map<Uuid, Entry>, idStr: string, req: Request, urlOk: bool,
                            hasFile: bool, filename: string, f: UpdateFaults)
    requires k == CategoryKind ==> Rejection(UpdateViolations(req, urlOk)).None?
    requires WellFormed(idStr) && Parse(idStr).value in rows && f.get.None?
    requires Attached(hasFile, filename) && f.upload.Failure?
    ensures var stored := rows[Parse(idStr).value];
      var p := UpdatePlan(k, rows, idStr, req, urlOk, hasFile, filename, f);
      (HasImage(stored.imageUrl) && StoredPublicID(stored).Failure? ==> p.error == Some(InvalidImageURL(k)) && p.calls == []) &&
      (HasImage(stored.imageUrl) && StoredPublicID(stored).Success? ==>
        p.error == Some(UploadFailed(k)) &&
        p.calls == [Destroy(StoredPublicID(stored).value), Upload(UniqueFilename(k, stored.id, filename))]) &&
      (!HasImage(stored.imageUrl) ==> p.error == Some(UploadFailed(k)) && p.calls == [Upload(UniqueFilename(k, stored.id, filename))])
  {
    var stored := rows[Parse(idStr).value];
    ReplaceImageUploadFailure(k, stored, hasFile, filename, f.upload);
    UpdateStopsAtImage(k, rows, idStr, req, urlOk, hasFile, filename, f);
  }

  lemma ReplaceImageUploadFailure(k: Kind, stored: Entry, hasFile: bool, filename: string, upload: Result<string, Error>)
    requires Attached(hasFile, filename) && upload.Failure?
    ensures var p := ReplaceImage(k, stored, hasFile, filename, upload);
      (HasImage(stored.imageUrl) && StoredPublicID(stored).Failure? ==> p.error == Some(InvalidImageURL(k)) && p.calls == []) &&
      (HasImage(stored.imageUrl) && StoredPublicID(stored).Success? ==>
        p.error == Some(UploadFailed(k)) &&
        p.calls == [Destroy(StoredPublicID(stored).value), Upload(UniqueFilename(k, stored.id, filename))]) &&
      (!HasImage(stored.imageUrl) ==> p.error == Some(UploadFailed(k)) && p.calls == [Upload(UniqueFilename(k, stored.id, filename))])
  {
  }

  /** Once the row is read, an image step that fails is what Update returns. */
  lemma UpdateStopsAtImage(k: Kind, rows: map<Uuid, Entry>, idStr: string, req: Request, urlOk: bool,
                           hasFile: bool, filename: string, f: UpdateFaults)
    requires k == CategoryKind ==> Rejection(UpdateViolations(req, urlOk)).None?
    requires WellFormed(idStr) && Parse(idStr).value in rows && f.get.None?
    requires ReplaceImage(k, rows[Parse(idStr).value], hasFile, filename, f.upload).error.Some?
    ensures UpdatePlan(k, rows, idStr, req, urlOk, hasFile, filename, f) ==
      ReplaceImage(k, rows[Parse(idStr).value], hasFile, filename, f.upload)
  {
  }

  /** A failed write: the category service returns the driver error, the brand
      service ErrBrandFailed. */
  lemma UpdateWriteFailure(k: Kind, rows: map<Uuid, Entry>, idStr: string, req: Request, urlOk: bool,
                           hasFile: bool, filename: string, f: UpdateFaults)
    requires k == CategoryKind ==> Rejection(UpdateViolations(req, urlOk)).None?
    requires WellFormed(idStr) && Parse(idStr).value in rows && f.get.None?
    requires !Attached(hasFile, filename) && f.write.Some?
    ensures UpdatePlan(k, rows, idStr, req, urlOk, hasFile, filename, f).error ==
      Some(if k == CategoryKind then f.write.value else BrandErrors.ErrBrandFailed)
  {
  }

  /** When deleting the stored image fails, Delete returns that error and the
      row is not written. */
  lemma DeleteImageFailureKeepsRow(k: Kind, rows: map<Uuid, Entry>, idStr: string, f: DeleteFaults)
    requires WellFormed(idStr) && Parse(idStr).value in rows && f.get.None?
    requires HasImage(rows[Parse(idStr).value].imageUrl) && StoredPublicID(rows[Parse(idStr).value]).Success?
    requires f.destroy.Some?
    ensures DeletePlan(k, rows, idStr, f).error == f.destroy
  {
  }

  /** A row is soft-deleted only after its image, if it has one, was deleted
      by its public id. */
  lemma DeleteRemovesImageFirst(k: Kind, rows: map<Uuid, Entry>, idStr: string, f: DeleteFaults)
    ensures var p := DeletePlan(k, rows, idStr, f);
      p.error.None? ==>
        var stored := rows[Parse(idStr).value];
        (HasImage(stored.imageUrl) ==> StoredPublicID(stored).Success? && p.calls == [Destroy(StoredPublicID(stored).value)]) &&
        (!HasImage(stored.imageUrl) ==> p.calls == []) &&
        f.write.None?
  {
    var p := DeletePlan(k, rows, idStr, f);
    if p.error.None? {
      var id := Parse(idStr).value;
      var stored := rows[id];
      assert Repo.Get(rows, id, f.get) == Success(stored);
      assert p == DeleteStored(k, stored, f);
      DeleteStoredSuccess(k, stored, f);
    }
  }

  lemma DeleteStoredSuccess(k: Kind, stored: Entry, f: DeleteFaults)
    requires DeleteStored(k, stored, f).error.None?
    ensures var p := DeleteStored(k, stored, f);
      (HasImage(stored.imageUrl) ==> StoredPublicID(stored).Success? && p.calls == [Destroy(StoredPublicID(stored).value)]) &&
      (!HasImage(stored.imageUrl) ==> p.calls == []) &&
      f.write.None?
  {
    if HasImage(stored.imageUrl) {
      var pid := StoredPublicID(stored);
      assert pid.Success? && f.destroy.None? && f.write.None?;
      assert DeleteStored(k, stored, f) == Plan(None, [Destroy(pid.value)], Nulls.Null);
    }
  }

  // ---------------------------------------------------------------------------
  // The service
  // ---------------------------------------------------------------------------

  class CatalogService {
    const kind: Kind
    var rows: map<Uuid, Entry>

    /** Rows are keyed by their own canonical id. */
    predicate Valid()
      reads this
    {
      forall id :: id in rows ==> rows[id].id == id && Canonical(id)
    }

    constructor(k: Kind)
      ensures Valid() && kind == k && rows == map[]
    {
      kind := k;
      rows := map[];
    }

    /** `GetByID`: a malformed id gives ErrInvalidUUID; any repository error,
        not only a miss, is reported as not found. */
    function GetByID(idStr: string, fault: Option<Error>): (r: Result<AdminResponse, Error>)
      reads this
      ensures r.Success? <==> WellFormed(idStr) && Parse(idStr).value in rows && fault.None?
      ensures !WellFormed(idStr) ==> r == Failure(InvalidID(kind))
      ensures WellFormed(idStr) && r.Failure? ==> r == Failure(NotFoundError(kind))
      ensures r.Success? ==> r.value == ResponseOf(rows[Parse(idStr).value])
    {
      match Parse(idStr)
      case None => Failure(InvalidID(kind))
      case Some(id) =>
        match Repo.Get(rows, id, fault)
        case Failure(_) => Failure(NotFoundError(kind))
        case Success(e) => Success(ResponseOf(e))
    }

    /** `Create`. The insert and the URL update run in one transaction, so no
        row is stored unless the commit succeeds; a successful Create reads the
        new row back through GetByID. */
    method Create(req: Request, urlOk: bool, hasFile: bool, filename: string, id: Uuid, f: CreateFaults)
      returns (r: Result<AdminResponse, Error>, calls: seq<ImageCall>)
      requires Valid() && Canonical(id) && id !in rows
      modifies this
      ensures Valid()
      ensures var p := CreatePlan(kind, req, urlOk, hasFile, filename, id, f);
        calls == p.calls &&
        (p.error.Some? ==> r == Failure(p.error.value) && rows == old(rows)) &&
        (p.error.None? ==>
          rows == old(rows)[id := NewEntry(id, req, p.image)] &&
          r == if f.fetch.Some? then Failure(NotFoundError(kind)) else Success(ResponseOf(NewEntry(id, req, p.image))))
    {
      calls := [];
      if kind == CategoryKind {
        var rejected := Rejection(CreateViolations(req, urlOk));
        if rejected.Some? {
          return Failure(rejected.value), calls;
        }
      }
      if f.begin.Some? {
        return Failure(f.begin.value), calls;
      }
      if f.insert.Some? {
        return Failure(InsertError(kind, f.insert.value)), calls;
      }
      var image := Nulls.Null;
      if Attached(hasFile, filename) {
        var step := AttachImage(UniqueFilename(kind, id, filename), f);
        calls := step.calls;
        if step.error.Some? {
          return Failure(step.error.value), calls;
        }
        image := step.image;
      } else if f.commit.Some? {
        return Failure(CommitError(kind)), calls;
      }
      rows := rows[id := NewEntry(id, req, image)];
      FormatParse(id);
      r := GetByID(id.text, f.fetch);
    }

    /** Create's image step and commit, call by call: upload under `name`,
        store the URL, commit; the upload is deleted again when storing the
        URL fails, and when the commit fails after a non-empty URL. */
    method AttachImage(name: string, f: CreateFaults) returns (p: Plan)
      ensures p == UploadStep(kind, name, f)
    {
      var calls := [Upload(name)];
      if f.upload.Failure? {
        return Stop(UploadFailed(kind), calls);
      }
      var imageURL := f.upload.value;
      if f.attach.Some? {
        return Stop(AttachError(kind), calls + [Destroy(name)]);
      }
      if f.commit.Some? {
        if imageURL != "" {
          calls := calls + [Destroy(name)];
        }
        return Stop(CommitError(kind), calls);
      }
      p := Plan(None, calls, Nulls.NewNullString(imageURL));
    }

    /** The image step of Update, call by call. */
    method ReplaceImageOf(stored: Entry, hasFile: bool, filename: string, upload: Result<string, Error>) returns (p: Plan)
      ensures p == ReplaceImage(kind, stored, hasFile, filename, upload)
    {
      if !Attached(hasFile, filename) {
        return Plan(None, [], stored.imageUrl);
      }
      var calls := [];
      if HasImage(stored.imageUrl) {
        var pid := StoredPublicID(stored);
        if pid.Failure? {
          return Stop(InvalidImageURL(kind), []);
        }
        calls := [Destroy(pid.value)];
      }
      calls := calls + [Upload(UniqueFilename(kind, stored.id, filename))];
      if upload.Failure? {
        return Stop(UploadFailed(kind), calls);
      }
      p := Plan(None, calls, Nulls.NewNullString(upload.value));
    }

    /** `Update`. The written row keeps the stored active flag: the request's
        `is_active` is required by validation but never used. */
    method Update(idStr: string, req: Request, urlOk: bool, hasFile: bool, filename: string, f: UpdateFaults)
      returns (r: Result<AdminResponse, Error>, calls: seq<ImageCall>)
      requires Valid()
      modifies this
      ensures Valid()
      ensures var p := UpdatePlan(kind, old(rows), idStr, req, urlOk, hasFile, filename, f);
        calls == p.calls &&
        (p.error.Some? ==> r == Failure(p.error.value) && rows == old(rows)) &&
        (p.error.None? ==>
          var id := Parse(idStr).value;
          var written := Updated(old(rows)[id], req, p.image);
          rows == old(rows)[id := written] &&
          r == if f.fetch.Some? then Failure(NotFoundError(kind)) else Success(ResponseOf(written)))
    {
      calls := [];
      if kind == CategoryKind {
        var rejected := Rejection(UpdateViolations(req, urlOk));
        if rejected.Some? {
          return Failure(rejected.value), calls;
        }
      }
      if !WellFormed(idStr) {
        return Failure(UpdateParseError(kind, idStr)), calls;
      }
      var id := Parse(idStr).value;
      var got := Repo.Get(rows, id, f.get);
      if got.Failure? {
        return Failure(UpdateLookupError(kind, got.error)), calls;
      }
      var stored := got.value;
      assert UpdatePlan(kind, old(rows), idStr, req, urlOk, hasFile, filename, f) == UpdateStored(kind, stored, hasFile, filename, f);
      var step := ReplaceImageOf(stored, hasFile, filename, f.upload);
      calls := step.calls;
      if step.error.Some? {
        return Failure(step.error.value), calls;
      }
      var image := step.image;
      if f.write.Some? {
        return Failure(UpdateWriteError(kind, f.write.value)), calls;
      }
      rows := rows[id := Updated(stored, req, image)];
      FormatParse(id);
      r := GetByID(id.text, f.fetch);
    }

    /** `Delete`: a soft delete of the row, after its image. */
    method Delete(idStr: string, f: DeleteFaults) returns (e: Option<Error>, calls: seq<ImageCall>)
      requires Valid()
      modifies this
      ensures Valid()
      ensures var p := DeletePlan(kind, old(rows), idStr, f);
        calls == p.calls && e == p.error &&
        (p.error.Some? ==> rows == old(rows)) &&
        (p.error.None? ==>
          var id := Parse(idStr).value;
          rows == old(rows)[id := old(rows)[id].(deleted := true)])
    {
      calls := [];
      if !WellFormed(idStr) {
        return Some(ParseError(idStr)), calls;
      }
      var id := Parse(idStr).value;
      var got := Repo.Get(rows, id, f.get);
      if got.Failure? {
        return Some(got.error), calls;
      }
      var stored := got.value;
      var step := DeleteStoredOf(stored, f);
      calls := step.calls;
      if step.error.Some? {
        return step.error, calls;
      }
      rows := rows[id := stored.(deleted := true)];
      e := None;
    }

    /** Delete's steps once the row is read, call by call. */
    method DeleteStoredOf(stored: Entry, f: DeleteFaults) returns (p: Plan)
      ensures p == DeleteStored(kind, stored, f)
    {
      var calls := [];
      if HasImage(stored.imageUrl) {
        var pid := StoredPublicID(stored);
        if pid.Failure? {
          return Stop(DeleteExtractError(kind, pid.error), calls);
        }
        calls := [Destroy(pid.value)];
        if f.destroy.Some? {
          return Stop(f.destroy.value, calls);
        }
      }
      if f.write.Some? {
        return Stop(f.write.value, calls);
      }
      p := Plan(None, calls, Nulls.Null);
    }

    /** `Restore`: clears the deletion mark and replies with the row. A
        malformed id returns the parse error itself. */
    method Restore(idStr: string, fault: Option<Error>) returns (r: Result<AdminResponse, Error>)
      requires Valid()
      modifies this
      ensures Valid()
      ensures !WellFormed(idStr) ==> r == Failure(ParseError(idStr)) && rows == old(rows)
      ensures WellFormed(idStr) ==>
        var id := Parse(idStr).value;
        match Repo.Get(old(rows), id, fault)
        case Failure(err) => r == Failure(err) && rows == old(rows)
        case Success(row) =>
          rows == old(rows)[id := row.(deleted := false)] && r == Success(ResponseOf(row.(deleted := false)))
    {
      if !WellFormed(idStr) {
        return Failure(ParseError(idStr));
      }
      var id := Parse(idStr).value;
      var got := Repo.Get(rows, id, fault);
      if got.Failure? {
        return Failure(got.error);
      }
      var restored := got.value.(deleted := false);
      rows := rows[id := restored];
      r := Success(ResponseOf(restored));
    }
  }

  // ---------------------------------------------------------------------------
  // Listing
  // ---------------------------------------------------------------------------

  /** The sort of ListAdmin: a non-empty "col:dir" that splits into exactly
      two parts gives both halves lower-cased, anything else created_at desc. */
  function SortOf(sort: string): (r: (string, string))
    ensures Text.NoUpper(r.0) && Text.NoUpper(r.1)
  {
    Text.LowerHasNoUpper("created_at");
    Text.LowerHasNoUpper("desc");
    if sort != "" then
      var parts := Text.Split(sort, ":");
      if |parts| == 2 then
        Text.LowerHasNoUpper(parts[0]);
        Text.LowerHasNoUpper(parts[1]);
        (Text.Lower(parts[0]), Text.Lower(parts[1]))
      else ("created_at", "desc")
    else ("created_at", "desc")
  }

  /** The sort is taken from the string exactly when it holds one ':'; the
      column is what precedes it and the direction what follows. */
  lemma SortOfSpec(sort: string)
    ensures Text.CountChar(sort, ':') == 1 ==>
      Text.IndexOf(sort, ":").Some? &&
      var m := Text.IndexOf(sort, ":").value;
      SortOf(sort) == (Text.Lower(sort[..m]), Text.Lower(sort[m + 1..]))
    ensures Text.CountChar(sort, ':') != 1 ==> SortOf(sort) == ("created_at", "desc")
  {
    Text.SplitCharCount(sort, ':');
    assert [':'] == ":";
    if Text.CountChar(sort, ':') == 1 {
      Text.SplitTwoParts(sort, ":");
      assert sort != "";
    }
  }

  /** The arguments ListAdmin passes to the list query. */
  datatype AdminQuery = AdminQuery(limit: int, offset: int, search: Nulls.NullString, sortCol: string, sortDir: string)

  /** The width of the page and limit fields: `int32` in the brand request,
      `int` in the category request. */
  predicate InRange(k: Kind, x: int)
  {
    if k == BrandKind then InInt32(x) else InInt64(x)
  }

  /** ListAdmin's normalisation: a limit below 1 becomes 10, the offset
      (page-1)*limit is computed in the request's width and a negative one
      becomes 0; the category service then narrows both to int32. */
  function AdminQueryFor(k: Kind, page: int, limit: int, search: string, sort: string): (q: AdminQuery)
    requires InRange(k, page) && InRange(k, limit)
    ensures limit < 1 ==> q.limit == 10
    ensures 1 <= limit <= MaxInt32 ==> q.limit == limit
    ensures var l := if limit < 1 then 10 else limit;
      (0 <= (page - 1) * l <= MaxInt32 ==> q.offset == (page - 1) * l) &&
      (MinInt32 <= (page - 1) * l <= 0 ==> q.offset == 0)
    ensures k == BrandKind ==> q.offset >= 0
    ensures q.search == Nulls.NewNullString(search) && (q.sortCol, q.sortDir) == SortOf(sort)
  {
    var l := if limit < 1 then 10 else limit;
    var s := SortOf(sort);
    ToInt32Exact(l);
    AdminQuery(if k == BrandKind then l else ToInt32(l), AdminOffset(k, page - 1, l), Nulls.NewNullString(search), s.0, s.1)
  }

  /** A factor of at least 1 does not bring a product closer to zero. */
  lemma ScaledAway(p: int, l: int)
    requires l >= 1
    ensures p >= 0 ==> 0 <= p <= p * l
    ensures p < 0 ==> p * l <= p < 0
  {
    if p >= 0 {
      assert p * l == p + p * (l - 1);
    } else {
      assert p * l == p + p * (l - 1);
    }
  }

  /** The offset ListAdmin hands to the query for page index `p` (page - 1)
      and the normalised limit `l`: the product, computed in the request's
      width and clamped at 0 (before the int32 narrowing for categories,
      after it for brands). */
  function AdminOffset(k: Kind, p: int, l: int): (o: int)
    requires InRange(k, p + 1) && 1 <= l && InRange(k, l)
    ensures var x := p * l;
      (0 <= x <= MaxInt32 ==> o == x) && (MinInt32 <= x <= 0 ==> o == 0)
    ensures k == BrandKind ==> o >= 0
  {
    var x := p * l;
    ToInt32Exact(x);
    ScaledAway(p, l);
    if k == BrandKind then
      ToInt32Exact(p);
      var offset := ToInt32(ToInt32(p) * l);
      if offset < 0 then 0 else offset
    else
      var offset := ToInt64(ToInt64(p) * l);
      ToInt32Exact(if offset < 0 then 0 else offset);
      ToInt32(if offset < 0 then 0 else offset)
  }

  /** The clamp comes before the int32 narrowing in the category service, after
      it in the brand service: a page far enough out reaches the category query
      as a negative offset, while the brand query gets 0. */
  lemma AdminOffsetNarrowing()
    ensures AdminQueryFor(CategoryKind, 214748366, 10, "", "").offset == -2147483646
    ensures AdminQueryFor(BrandKind, 214748366, 10, "", "").offset == 0
  {
  }

  datatype AdminRow = AdminRow(
    id: Uuid, name: string, slug: string, description: Nulls.NullString,
    imageUrl: Nulls.NullString, isActive: Nulls.NullBool, totalCount: int)

  /** `mapAdminRowsToResponse` for one row: unlike `mapToResponse` it carries
      the description and the active flag. */
  function AdminRowResponse(row: AdminRow): AdminResponse
  {
    AdminResponse(row.id.text, row.name, row.slug, row.description.str, row.imageUrl.str, row.isActive.b)
  }

  function AdminCounts(rows: seq<AdminRow>): (r: seq<int>)
    ensures |r| == |rows| && forall i :: 0 <= i < |rows| ==> r[i] == rows[i].totalCount
  {
    seq(|rows|, i requires 0 <= i < |rows| => rows[i].totalCount)
  }

  /** `ListAdmin`: the normalised query, one response per row in order, and
      the first row's count as the total. */
  method ListAdmin(k: Kind, page: int, limit: int, search: string, sort: string, rows: seq<AdminRow>, fault: Option<Error>)
    returns (sent: AdminQuery, r: Result<(seq<AdminResponse>, int), Error>)
    requires InRange(k, page) && InRange(k, limit)
    ensures sent == AdminQueryFor(k, page, limit, search, sort)
    ensures fault.Some? ==> r == Failure(fault.value)
    ensures fault.None? ==>
      r.Success? && |r.value.0| == |rows| && (forall i :: 0 <= i < |rows| ==> r.value.0[i] == AdminRowResponse(rows[i])) &&
      r.value.1 == Repo.FirstTotal(AdminCounts(rows))
  {
    sent := AdminQueryFor(k, page, limit, search, sort);
    if fault.Some? {
      return sent, Failure(fault.value);
    }
    var total := 0;
    if |rows| > 0 {
      total := rows[0].totalCount;
    }
    var res := [];
    for i := 0 to |rows|
      invariant |res| == i && forall j :: 0 <= j < i ==> res[j] == AdminRowResponse(rows[j])
    {
      res := res + [AdminRowResponse(rows[i])];
    }
    r := Success((res, total));
  }

  datatype PublicRow = PublicRow(id: Uuid, name: string, slug: string, imageUrl: Nulls.NullString, totalCount: int)

  datatype PublicResponse = PublicResponse(id: string, name: string, slug: string, imageUrl: string)

  function PublicResponseOf(row: PublicRow): PublicResponse
  {
    PublicResponse(row.id.text, row.name, row.slug, row.imageUrl.str)
  }

  function PublicCounts(rows: seq<PublicRow>): (r: seq<int>)
    ensures |r| == |rows| && forall i :: 0 <= i < |rows| ==> r[i] == rows[i].totalCount
  {
    seq(|rows|, i requires 0 <= i < |rows| => rows[i].totalCount)
  }

  /** `ListPublic`: page and limit go to the query unnormalised, and the total
      is the first non-zero row count. */
  method ListPublic(page: int, limit: int, rows: seq<PublicRow>, fault: Option<Error>)
    returns (sent: Repo.Paging, r: Result<(seq<PublicResponse>, int), Error>)
    ensures sent == Repo.PagingFor(page, limit)
    ensures fault.Some? ==> r == Failure(fault.value)
    ensures fault.None? ==>
      r.Success? && |r.value.0| == |rows| && (forall i :: 0 <= i < |rows| ==> r.value.0[i] == PublicResponseOf(rows[i])) &&
      r.value.1 == Repo.FirstNonZero(PublicCounts(rows))
  {
    sent := Repo.PagingFor(page, limit);
    if fault.Some? {
      return sent, Failure(fault.value);
    }
    var total := 0;
    var res := [];
    for i := 0 to |rows|
      invariant |res| == i && forall j :: 0 <= j < i ==> res[j] == PublicResponseOf(rows[j])
      invariant total == Repo.FirstNonZero(PublicCounts(rows)[..i])
    {
      Repo.FirstNonZeroStep(PublicCounts(rows), i, total);
      if total == 0 {
        total := rows[i].totalCount;
      }
      res := res + [PublicResponseOf(rows[i])];
    }
    assert PublicCounts(rows)[..|rows|] == PublicCounts(rows);
    r := Success((res, total));
  }
}
