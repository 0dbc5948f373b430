/** Sort-parameter parsing of internal/pkg/httpx/sort_parser.go: the legacy
    `sort=col:dir` form and the `sort_col`/`sort_dir` pair. The query values
    are passed in directly; an absent key is None. */
module SortParser {
  import opened Wrappers
  import Text

  /** What toSnakeCase appends for the character c found at position i. */
  function Piece(i: nat, c: char): string
  {
    (if i > 0 && Text.IsUpper(c) then "_" else "") + [Text.LowerChar(c)]
  }

  /** The snake_case form of the first n characters of s. */
  function SnakePrefix(s: string, n: nat): string
    requires n <= |s|
  {
    if n == 0 then [] else SnakePrefix(s, n - 1) + Piece(n - 1, s[n - 1])
  }

  /** The snake_case form of s: every character lower-cased, with '_' before
      each upper-case letter that is not the first character. */
  function Snake(s: string): string
  {
    SnakePrefix(s, |s|)
  }

  /** `toSnakeCase`: appends piece by piece into `out`. */
  method ToSnakeCase(s: string) returns (out: string)
    ensures out == Snake(s)
    ensures Text.NoUpper(out)
    ensures |out| == |s| + UppersAfterFirst(s, |s|)
  {
    out := [];
    var i := 0;
    while i < |s|
      invariant 0 <= i <= |s|
      invariant out == SnakePrefix(s, i)
    {
      if i > 0 && Text.IsUpper(s[i]) {
        out := out + ['_'];
      }
      out := out + [Text.LowerChar(s[i])];
      i := i + 1;
    }
    SnakeNoUpper(s, |s|);
    SnakeLength(s, |s|);
  }

  /** How many upper-case letters s[1..n] holds. */
  function UppersAfterFirst(s: string, n: nat): nat
    requires n <= |s|
  {
    if n <= 1 then 0 else UppersAfterFirst(s, n - 1) + (if Text.IsUpper(s[n - 1]) then 1 else 0)
  }

  /** The output is one character longer than the input per upper-case
      letter after the first position. */
  lemma {:induction false} SnakeLength(s: string, n: nat)
    requires n <= |s|
    ensures |SnakePrefix(s, n)| == n + UppersAfterFirst(s, n)
  {
    if n > 0 {
      SnakeLength(s, n - 1);
    }
  }

  /** The output has no upper-case letter. */
  lemma {:induction false} SnakeNoUpper(s: string, n: nat)
    requires n <= |s|
    ensures Text.NoUpper(SnakePrefix(s, n))
  {
    if n > 0 {
      SnakeNoUpper(s, n - 1);
      var a, b := SnakePrefix(s, n - 1), Piece(n - 1, s[n - 1]);
      assert Text.NoUpper(b);
      assert forall i :: |a| <= i < |a + b| ==> (a + b)[i] == b[i - |a|];
    }
  }

  /** toSnakeCase is the identity on text without upper-case letters. */
  lemma {:induction false} SnakeIdentity(s: string, n: nat)
    requires n <= |s| && Text.NoUpper(s)
    ensures SnakePrefix(s, n) == s[..n]
  {
    if n > 0 {
      SnakeIdentity(s, n - 1);
      assert Piece(n - 1, s[n - 1]) == [s[n - 1]];
      assert s[..n] == s[..n - 1] + [s[n - 1]];
    }
  }

  lemma SnakeOfLower(s: string)
    requires Text.NoUpper(s)
    ensures Snake(s) == s
  {
    SnakeIdentity(s, |s|);
  }

  datatype SortResult = SortResult(sortBy: string, sortDir: string)

  /** `ParseSort`: `legacy` is the value of `sort` ("" when absent), `sortCol`
      and `sortDir` the values of `sort_col` and `sort_dir` (None when absent). */
  function ParseSort(legacy: string, sortCol: Option<string>, sortDir: Option<string>,
                     defaultBy: string, defaultDir: string): SortResult
  {
    if legacy != "" && |Text.Split(legacy, ":")| == 2 then
      var parts := Text.Split(legacy, ":");
      SortResult(Snake(parts[0]), Text.Lower(parts[1]))
    else
      SortResult(if sortCol.Some? then sortCol.value else defaultBy,
                 Text.Lower(if sortDir.Some? then sortDir.value else defaultDir))
  }

  /** A legacy value with exactly one ':' wins and gives the snake_cased left
      part and the lower-cased right part; any other legacy value is ignored
      and the column (taken verbatim) and direction fall back to sort_col and
      sort_dir, each defaulting to the caller's default. The direction is
      always lower-case. */
  lemma ParseSortSpec(legacy: string, sortCol: Option<string>, sortDir: Option<string>,
                      defaultBy: string, defaultDir: string)
    ensures var r := ParseSort(legacy, sortCol, sortDir, defaultBy, defaultDir);
      && (Text.CountChar(legacy, ':') == 1 ==>
            Text.IndexOf(legacy, ":").Some? &&
            var k := Text.IndexOf(legacy, ":").value;
            r == SortResult(Snake(legacy[..k]), Text.Lower(legacy[k + 1..])))
      && (Text.CountChar(legacy, ':') != 1 ==>
            r == SortResult(if sortCol.Some? then sortCol.value else defaultBy,
                            Text.Lower(if sortDir.Some? then sortDir.value else defaultDir)))
      && Text.NoUpper(r.sortDir)
  {
    Text.SplitCharCount(legacy, ':');
    Text.SplitTwoParts(legacy, ":");
    var r := ParseSort(legacy, sortCol, sortDir, defaultBy, defaultDir);
    Text.LowerHasNoUpper(if |Text.Split(legacy, ":")| == 2 then Text.Split(legacy, ":")[1] else
      if sortDir.Some? then sortDir.value else defaultDir);
    if Text.CountChar(legacy, ':') == 1 {
      assert legacy != "";
    }
  }
}
