/** `carterrors.MapValidationError`: the first field error whose field the
    cart knows decides the reply. */
module CartValidation {
  import opened Wrappers
  import opened AppErrors
  import CartErrors

  /** The reply one field error selects, or None for a field the mapper skips. */
  function FieldRule(e: FieldError): (r: Option<Error>)
    ensures r.Some? <==> e.field in {"ProductID", "Price", "Qty"}
    ensures e.field == "Qty" ==>
      r == Some(if e.tag == "min" then CartErrors.ErrQtyMustBeGreaterThanZero else CartErrors.ErrInvalidQty)
    ensures e.field in {"ProductID", "Price"} ==> r == Some(CartErrors.ErrInvalidCartInput)
  {
    match e.field
    case "ProductID" => Some(CartErrors.ErrInvalidCartInput)
    case "Qty" => Some(if e.tag == "min" then CartErrors.ErrQtyMustBeGreaterThanZero else CartErrors.ErrInvalidQty)
    case "Price" => Some(CartErrors.ErrInvalidCartInput)
    case _ => None
  }

  predicate IsCartReply(e: Error)
  {
    e == CartErrors.ErrInvalidCartInput || e == CartErrors.ErrQtyMustBeGreaterThanZero || e == CartErrors.ErrInvalidQty
  }

  /** The loop over the field errors, with its early return. */
  function MapFieldErrors(errs: seq<FieldError>): (r: Error)
    ensures IsCartReply(r)
    ensures ToHTTP(Some(r)).status == 400
  {
    if |errs| == 0 then CartErrors.ErrInvalidCartInput
    else match FieldRule(errs[0])
      case Some(e) => e
      case None => MapFieldErrors(errs[1..])
  }

  function MapValidationError(v: ValidationFailure): (r: Error)
    ensures IsCartReply(r)
    ensures v.OtherFailure? ==> r == CartErrors.ErrInvalidCartInput
  {
    match v
    case FieldErrors(errs) => MapFieldErrors(errs)
    case OtherFailure(_) => CartErrors.ErrInvalidCartInput
  }

  /** The first field the mapper knows decides, whatever comes after it. */
  lemma {:induction false} FirstKnownDecides(errs: seq<FieldError>, k: nat)
    requires k < |errs| && FieldRule(errs[k]).Some?
    requires forall j :: 0 <= j < k ==> FieldRule(errs[j]).None?
    ensures MapValidationError(FieldErrors(errs)) == FieldRule(errs[k]).value
    decreases k
  {
    if k > 0 {
      FirstKnownDecides(errs[1..], k - 1);
    }
  }

  /** A list with no field the mapper knows gives the generic cart error. */
  lemma {:induction false} NoKnownField(errs: seq<FieldError>)
    requires forall j :: 0 <= j < |errs| ==> FieldRule(errs[j]).None?
    ensures MapValidationError(FieldErrors(errs)) == CartErrors.ErrInvalidCartInput
  {
    if |errs| > 0 {
      NoKnownField(errs[1..]);
    }
  }
}
