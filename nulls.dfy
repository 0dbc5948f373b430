/** The nullable column helpers of internal/dbgen/querier_helpers.go. */
module Nulls {
  import Text

  /** `sql.NullString`. */
  datatype NullString = NullString(str: string, valid: bool)

  /** `sql.NullInt32`. */
  datatype NullInt32 = NullInt32(int32: int, valid: bool)

  /** `sql.NullBool`. */
  datatype NullBool = NullBool(b: bool, valid: bool)

  const Null: NullString := NullString("", false)

  /** `NewNullString`: only the empty string becomes NULL. */
  function NewNullString(s: string): (r: NullString)
    ensures r.valid <==> s != ""
    ensures r.valid ==> r.str == s
    ensures !r.valid ==> r == Null
  {
    if s == "" then Null else NullString(s, true)
  }

  /** `NewNullInt32`: always a present value. */
  function NewNullInt32(i: int): (r: NullInt32)
    ensures r.valid && r.int32 == i
  {
    NullInt32(i, true)
  }

  /** `NewNullBool`: always a present value. */
  function NewNullBool(b: bool): (r: NullBool)
    ensures r.valid && r.b == b
  {
    NullBool(b, true)
  }

  /** `ToText`: blank text becomes NULL, anything else is kept untrimmed. */
  function ToText(s: string): NullString
  {
    if Text.TrimSpace(s) == "" then Null else NullString(s, true)
  }

  /** ToText is NULL exactly on all-white-space input and otherwise carries the input as given. */
  lemma ToTextSpec(s: string)
    ensures !ToText(s).valid <==> Text.AllSpace(s)
    ensures ToText(s).valid ==> ToText(s).str == s
    ensures !ToText(s).valid ==> ToText(s) == Null
  {
    Text.TrimSpaceEmpty(s);
  }

  /** ToText is the stricter helper: its valid results are valid under
      NewNullString too, and the two differ exactly on non-empty blank text. */
  lemma ToTextStricter(s: string)
    ensures ToText(s).valid ==> NewNullString(s).valid
    ensures ToText(s) != NewNullString(s) <==> s != "" && Text.AllSpace(s)
  {
    Text.TrimSpaceEmpty(s);
  }
}
