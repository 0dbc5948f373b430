/** `uuid.Parse` on the canonical textual form and the value it yields.
    A parsed UUID is kept as its canonical lower-case text, which is what
    `uuid.UUID.String` prints. */
module Uuids {
  import opened Wrappers
  import Text
  import AppErrors

  datatype Uuid = Uuid(text: string)

  /** The all-zero UUID that a failed parse leaves behind in Go (`uuid.Nil`). */
  const Nil: Uuid := Uuid("00000000-0000-0000-0000-000000000000")

  predicate IsHex(c: char) { '0' <= c <= '9' || 'a' <= c <= 'f' || 'A' <= c <= 'F' }

  predicate IsDashPos(i: int) { i == 8 || i == 13 || i == 18 || i == 23 }

  /** xxxxxxxx-xxxx-xxxx-xxxx-xxxxxxxxxxxx with hexadecimal digits of either case. */
  predicate WellFormed(s: string)
  {
    |s| == 36 && forall i :: 0 <= i < 36 ==> if IsDashPos(i) then s[i] == '-' else IsHex(s[i])
  }

  predicate Canonical(u: Uuid) { WellFormed(u.text) && Text.NoUpper(u.text) }

  function Parse(s: string): Option<Uuid>
  {
    if WellFormed(s) then Some(Uuid(Text.Lower(s))) else None
  }

  /** Parsing succeeds exactly on well-formed text and always yields a canonical value;
      two spellings that differ only in letter case name the same UUID. */
  lemma ParseSpec(s: string)
    ensures Parse(s).Some? <==> WellFormed(s)
    ensures Parse(s).Some? ==> Canonical(Parse(s).value)
    ensures Parse(s).Some? ==> Parse(Text.Lower(s)) == Parse(s)
  {
    if WellFormed(s) {
      Text.LowerHasNoUpper(s);
      Text.LowerIdempotent(s);
      assert WellFormed(Text.Lower(s));
    }
  }

  /** Printing a UUID and parsing the text gives the same UUID back. */
  lemma FormatParse(u: Uuid)
    requires Canonical(u)
    ensures Parse(u.text) == Some(u)
  {
    Text.LowerOfNoUpper(u.text);
  }

  /** The lengths `uuid.Parse` has a layout for: bare hex (32), hyphenated
      (36), in braces (38) and after the urn:uuid: prefix (45). */
  predicate KnownLength(n: int) { n == 32 || n == 36 || n == 38 || n == 45 }

  /** The error `uuid.Parse` returns on text that does not parse, which some
      services hand back unchanged. Go switches on `len(s)`, the UTF-8 byte
      length: a length no layout has is reported with that length in
      decimal, anything else as a bad format. */
  function ParseError(s: string): AppErrors.Error
  {
    var n := Text.Utf8Length(s);
    if KnownLength(n) then AppErrors.Plain("invalid UUID format")
    else AppErrors.Plain("invalid UUID length: " + Text.Digits(n))
  }

  /** The error names the length exactly when the byte length fits no
      layout, and then it is that length in decimal. */
  lemma ParseErrorText(s: string)
    ensures AppErrors.ErrorText(ParseError(s)) == "invalid UUID format" <==> KnownLength(Text.Utf8Length(s))
    ensures !KnownLength(Text.Utf8Length(s)) ==>
      AppErrors.ErrorText(ParseError(s)) == "invalid UUID length: " + Text.Digits(Text.Utf8Length(s))
  {
    var n := Text.Utf8Length(s);
    if !KnownLength(n) {
      LengthTextIsNotFormat(Text.Digits(n));
    }
  }

  lemma LengthTextIsNotFormat(d: string)
    ensures "invalid UUID length: " + d != "invalid UUID format"
  {
    var p := "invalid UUID length: ";
    assert (p + d)[13] == p[13] == 'l';
    assert "invalid UUID format"[13] == 'f';
  }

  /** A three-character user id is reported by its length. */
  lemma ParseErrorShortId()
    ensures ParseError("abc") == AppErrors.Plain("invalid UUID length: 3")
  {
    assert Text.Utf8Length("abc") == 3;
    assert Text.Digits(3) == "3";
  }

  /** The length is counted in bytes: one accented letter is two. */
  lemma ParseErrorCountsBytes()
    ensures ParseError("\U{00E9}") == AppErrors.Plain("invalid UUID length: 2")
  {
    assert Text.Utf8Length("\U{00E9}") == 2;
    assert Text.Digits(2) == "2";
  }

  /** `x, _ := uuid.Parse(s)`: a failed parse leaves uuid.Nil. */
  function ParseOrNil(s: string): (u: Uuid)
    ensures WellFormed(s) ==> Some(u) == Parse(s)
    ensures !WellFormed(s) ==> u == Nil
  {
    match Parse(s)
    case Some(u) => u
    case None => Nil
  }
}
