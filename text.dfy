/** The parts of Go's `strings`, `unicode` and `path/filepath` packages that the
    services rely on, over `seq<char>`. Case folding is ASCII only. */
module Text {
  import opened Wrappers

  predicate IsUpper(c: char) { 'A' <= c <= 'Z' }

  predicate IsLowerAlnum(c: char) { 'a' <= c <= 'z' || '0' <= c <= '9' }

  /** `unicode.ToLower` restricted to ASCII letters; every other character is kept. */
  function LowerChar(c: char): char
  {
    if IsUpper(c) then (c as int + 32) as char else c
  }

  /** `strings.ToLower`, character by character. */
  function Lower(s: string): (r: string)
    ensures |r| == |s|
    ensures forall i :: 0 <= i < |s| ==> r[i] == LowerChar(s[i])
  {
    seq(|s|, i requires 0 <= i < |s| => LowerChar(s[i]))
  }

  predicate NoUpper(s: string) { forall i :: 0 <= i < |s| ==> !IsUpper(s[i]) }

  lemma LowerHasNoUpper(s: string)
    ensures NoUpper(Lower(s))
  {
  }

  /** Lower-casing a string with no upper-case letter changes nothing. */
  lemma LowerOfNoUpper(s: string)
    requires NoUpper(s)
    ensures Lower(s) == s
  {
  }

  lemma LowerIdempotent(s: string)
    ensures Lower(Lower(s)) == Lower(s)
  {
    LowerHasNoUpper(s);
    LowerOfNoUpper(Lower(s));
  }

  lemma LowerAppend(a: string, b: string)
    ensures Lower(a + b) == Lower(a) + Lower(b)
  {
  }

  /** Go's `unicode.IsSpace`: the ASCII white space, NEL, NBSP and the Unicode
      space separators. */
  predicate IsSpace(c: char)
  {
    var n := c as int;
    (0x09 <= n <= 0x0D) || n == 0x20 || n == 0x85 || n == 0xA0 || n == 0x1680
    || (0x2000 <= n <= 0x200A) || n == 0x2028 || n == 0x2029 || n == 0x202F
    || n == 0x205F || n == 0x3000
  }

  predicate AllSpace(s: string) { forall i :: 0 <= i < |s| ==> IsSpace(s[i]) }

  function TrimLeft(s: string): (r: string)
    ensures |r| <= |s| && r == s[|s| - |r|..]
    ensures r == [] || !IsSpace(r[0])
    ensures AllSpace(s[..|s| - |r|])
    decreases |s|
  {
    if |s| > 0 && IsSpace(s[0]) then TrimLeft(s[1..]) else s
  }

  function TrimRight(s: string): (r: string)
    ensures |r| <= |s| && r == s[..|r|]
    ensures r == [] || !IsSpace(r[|r| - 1])
    ensures AllSpace(s[|r|..])
    decreases |s|
  {
    if |s| > 0 && IsSpace(s[|s| - 1]) then TrimRight(s[..|s| - 1]) else s
  }

  /** `strings.TrimSpace`: the input with its leading and trailing white space cut. */
  function TrimSpace(s: string): (r: string)
  {
    TrimRight(TrimLeft(s))
  }

  /** TrimSpace is empty exactly when the input is all white space. */
  lemma TrimSpaceEmpty(s: string)
    ensures TrimSpace(s) == [] <==> AllSpace(s)
  {
    var l := TrimLeft(s);
    var r := TrimRight(l);
    var a := |s| - |l|;
    assert l == s[a..];
    if r == [] {
      assert l[|r|..] == l;
      assert s == s[..a] + l;
      AllSpaceJoin(s[..a], l);
    } else {
      assert r == l[..|r|];
      assert r[0] == l[0] == s[a];
    }
  }

  lemma AllSpaceJoin(x: string, y: string)
    requires AllSpace(x) && AllSpace(y)
    ensures AllSpace(x + y)
  {
  }

  /** Cutting white space off a text framed by white space leaves the frame's content. */
  lemma {:induction false} TrimLeftFrame(a: string, y: string)
    requires AllSpace(a)
    requires y == [] || !IsSpace(y[0])
    ensures TrimLeft(a + y) == y
    decreases |a|
  {
    if a != [] {
      assert (a + y)[1..] == a[1..] + y;
      TrimLeftFrame(a[1..], y);
    } else {
      assert a + y == y;
    }
  }

  lemma {:induction false} TrimRightFrame(y: string, b: string)
    requires AllSpace(b)
    requires y == [] || !IsSpace(y[|y| - 1])
    ensures TrimRight(y + b) == y
    decreases |b|
  {
    if b != [] {
      assert (y + b)[..|y + b| - 1] == y + b[..|b| - 1];
      TrimRightFrame(y, b[..|b| - 1]);
    } else {
      assert y + b == y;
    }
  }

  lemma TrimSpaceFrame(a: string, x: string, b: string)
    requires AllSpace(a) && AllSpace(b)
    requires x != [] && !IsSpace(x[0]) && !IsSpace(x[|x| - 1])
    ensures TrimSpace(a + x + b) == x
  {
    assert a + x + b == a + (x + b);
    TrimLeftFrame(a, x + b);
    TrimRightFrame(x, b);
  }

  /** The pattern p occurs in s at position j. */
  predicate OccursAt(s: string, p: string, j: int)
  {
    0 <= j && j + |p| <= |s| && s[j..j + |p|] == p
  }

  lemma OccursShift(s: string, p: string, j: int)
    requires 1 <= j && |s| >= 1
    ensures OccursAt(s, p, j) <==> OccursAt(s[1..], p, j - 1)
  {
    if j + |p| <= |s| {
      assert s[1..][j - 1..j - 1 + |p|] == s[j..j + |p|];
    }
  }

  lemma OccursInPrefix(s: string, p: string, m: int, k: int)
    requires 0 <= m <= |s|
    requires OccursAt(s[..m], p, k)
    ensures OccursAt(s, p, k)
  {
    assert s[..m][k..k + |p|] == s[k..k + |p|];
  }

  /** `strings.Index`: the first position of p in s, or None (Go's -1). */
  function IndexOf(s: string, p: string): (r: Option<nat>)
    ensures r.Some? ==> OccursAt(s, p, r.value)
    ensures r.Some? ==> forall j {:trigger OccursAt(s, p, j)} :: 0 <= j < r.value ==> !OccursAt(s, p, j)
    ensures r.None? ==> forall j {:trigger OccursAt(s, p, j)} :: !OccursAt(s, p, j)
    decreases |s|
  {
    if |p| > |s| then None
    else if s[..|p|] == p then Some(0)
    else
      assert forall j {:trigger OccursAt(s, p, j)} :: 1 <= j ==> (OccursAt(s, p, j) <==> OccursAt(s[1..], p, j - 1)) by {
        forall j | 1 <= j { OccursShift(s, p, j); }
      }
      match IndexOf(s[1..], p)
      case None => None
      case Some(k) => Some(k + 1)
  }

  /** `strings.Contains`. */
  predicate Contains(s: string, p: string) { IndexOf(s, p).Some? }

  lemma ContainsIff(s: string, p: string, j: int)
    requires OccursAt(s, p, j)
    ensures Contains(s, p)
  {
  }

  /** Nothing before the first occurrence of p contains p. */
  lemma NoneBeforeFirst(s: string, p: string, k: nat)
    requires |p| > 0 && IndexOf(s, p) == Some(k)
    ensures !Contains(s[..k], p)
  {
    if Contains(s[..k], p) {
      var j := IndexOf(s[..k], p).value;
      assert OccursAt(s[..k], p, j) && j < k;
      OccursInPrefix(s, p, k, j);
    }
  }

  /** The first occurrence of p in a + p + b is right after a when none starts inside a. */
  lemma IndexOfAfter(a: string, p: string, b: string)
    requires forall j {:trigger OccursAt(a + p + b, p, j)} :: 0 <= j < |a| ==> !OccursAt(a + p + b, p, j)
    ensures IndexOf(a + p + b, p) == Some(|a|)
  {
    assert (a + p + b)[|a|..|a| + |p|] == p;
    assert OccursAt(a + p + b, p, |a|);
  }

  /** A pattern with a character the text lacks does not occur in it. */
  lemma MissingChar(s: string, p: string, c: char)
    requires c in p && c !in s
    ensures !Contains(s, p)
  {
  }

  /** The inverse of Split: the parts glued back with the separator. */
  function Join(parts: seq<string>, sep: string): string
    requires |parts| >= 1
  {
    if |parts| == 1 then parts[0] else parts[0] + sep + Join(parts[1..], sep)
  }

  /** `strings.Split` with a non-empty separator: the text between the
      leftmost non-overlapping occurrences of sep. */
  function Split(s: string, sep: string): (r: seq<string>)
    requires |sep| > 0
    ensures |r| >= 1
    ensures Join(r, sep) == s
    ensures forall i :: 0 <= i < |r| ==> !Contains(r[i], sep)
    decreases |s|
  {
    match IndexOf(s, sep)
    case None => [s]
    case Some(m) =>
      var rest := Split(s[m + |sep|..], sep);
      assert s == s[..m] + sep + s[m + |sep|..] by {
        assert s[m..m + |sep|] == sep;
        assert s == s[..m] + s[m..m + |sep|] + s[m + |sep|..];
      }
      assert !Contains(s[..m], sep) by {
        var i := IndexOf(s[..m], sep);
        if i.Some? {
          OccursInPrefix(s, sep, m, i.value);
          assert false;
        }
      }
      assert ([s[..m]] + rest)[1..] == rest;
      [s[..m]] + rest
  }

  /** Splitting on a separator gives exactly two parts iff the separator occurs
      once more after its first occurrence is cut out, i.e. not at all. */
  lemma SplitTwoParts(s: string, sep: string)
    requires |sep| > 0
    ensures |Split(s, sep)| == 2 <==>
      IndexOf(s, sep).Some? && !Contains(s[IndexOf(s, sep).value + |sep|..], sep)
    ensures |Split(s, sep)| == 2 ==>
      var m := IndexOf(s, sep).value;
      Split(s, sep) == [s[..m], s[m + |sep|..]]
  {
    SplitStep(s, sep);
    match IndexOf(s, sep)
    case None =>
    case Some(m) =>
      var t := s[m + |sep|..];
      SplitStep(t, sep);
  }

  /** One step of Split: the text up to the first separator, then the split
      of what follows it. */
  lemma SplitStep(s: string, sep: string)
    requires |sep| > 0
    ensures IndexOf(s, sep).None? ==> Split(s, sep) == [s]
    ensures IndexOf(s, sep).Some? ==>
      var m := IndexOf(s, sep).value;
      Split(s, sep) == [s[..m]] + Split(s[m + |sep|..], sep)
  {
  }

  predicate IsDigit(c: char) { '0' <= c <= '9' }

  /** The decimal digits of a natural number, most significant first, as
      `strconv.Itoa` and `%d` print them. */
  function Digits(m: nat): (r: string)
    ensures |r| > 0 && forall i :: 0 <= i < |r| ==> IsDigit(r[i])
  {
    var d := ['0' + (m % 10) as char];
    if m < 10 then d else Digits(m / 10) + d
  }

  /** The number of bytes UTF-8 takes for one character. */
  function Utf8Width(c: char): (w: nat)
    ensures 1 <= w <= 4
    ensures w == 1 <==> c as int < 0x80
  {
    if c as int < 0x80 then 1
    else if c as int < 0x800 then 2
    else if c as int < 0x10000 then 3
    else 4
  }

  /** The byte length of s in UTF-8, which is what Go's `len` counts. */
  function Utf8Length(s: string): (n: nat)
    ensures n >= |s|
  {
    if |s| == 0 then 0 else Utf8Width(s[0]) + Utf8Length(s[1..])
  }

  /** Bytes and characters agree exactly on ASCII text. */
  lemma {:induction false} Utf8LengthAscii(s: string)
    ensures Utf8Length(s) == |s| <==> forall i :: 0 <= i < |s| ==> s[i] as int < 0x80
  {
    if |s| > 0 {
      Utf8LengthAscii(s[1..]);
      assert forall i :: 1 <= i < |s| ==> s[i] == s[1..][i - 1];
    }
  }

  /** How many times c occurs in s. */
  function CountChar(s: string, c: char): nat { multiset(s)[c] }

  /** A character the first occurrence of [c] has not yet reached is not c. */
  lemma NoCharBefore(s: string, c: char, m: int)
    requires 0 <= m <= |s|
    requires forall j {:trigger OccursAt(s, [c], j)} :: 0 <= j < m ==> !OccursAt(s, [c], j)
    ensures CountChar(s[..m], c) == 0
  {
    forall j | 0 <= j < m ensures s[..m][j] != c {
      assert !OccursAt(s, [c], j);
      assert s[j..j + 1] == [s[j]];
    }
    assert c !in s[..m];
  }

  /** Splitting on a one-character separator gives one part more than the
      separator has occurrences. */
  lemma {:induction false} SplitCharCount(s: string, c: char)
    ensures |Split(s, [c])| == CountChar(s, c) + 1
    decreases |s|
  {
    match IndexOf(s, [c])
    case None =>
      NoCharBefore(s, c, |s|);
      assert s[..|s|] == s;
    case Some(m) =>
      var t := s[m + 1..];
      SplitCharCount(t, c);
      NoCharBefore(s, c, m);
      assert s[m..m + 1] == [c];
      assert s == s[..m] + [c] + t;
      assert CountChar(s, c) == CountChar(s[..m], c) + 1 + CountChar(t, c);
      assert Split(s, [c]) == [s[..m]] + Split(t, [c]);
  }

  /** `strings.ReplaceAll` of one character by another. */
  function ReplaceChar(s: string, from: char, to: char): (r: string)
    ensures |r| == |s|
    ensures forall i :: 0 <= i < |s| ==> r[i] == (if s[i] == from then to else s[i])
  {
    seq(|s|, i requires 0 <= i < |s| => if s[i] == from then to else s[i])
  }

  predicate IsSuffix(suffix: string, s: string) { |suffix| <= |s| && s[|s| - |suffix|..] == suffix }

  /** `strings.TrimSuffix`. */
  function TrimSuffix(s: string, suffix: string): (r: string)
    ensures IsSuffix(suffix, s) ==> r + suffix == s
    ensures !IsSuffix(suffix, s) ==> r == s
  {
    if IsSuffix(suffix, s) then s[..|s| - |suffix|] else s
  }

  /** `filepath.Ext`: the suffix from the last '.' of the final path element,
      or "" when that element has no '.'. */
  function Ext(path: string): (e: string)
    ensures IsSuffix(e, path)
    ensures e == [] || (e[0] == '.' && forall i :: 1 <= i < |e| ==> e[i] != '.' && e[i] != '/')
    decreases |path|
  {
    if |path| == 0 || path[|path| - 1] == '/' then ""
    else if path[|path| - 1] == '.' then "."
    else
      var e := Ext(path[..|path| - 1]);
      if e == [] then [] else e + [path[|path| - 1]]
  }

  /** An extension written after any base is what Ext reports. */
  lemma {:induction false} ExtOfSuffix(base: string, ext: string)
    requires |ext| >= 1 && ext[0] == '.' && '.' !in ext[1..] && '/' !in ext[1..]
    ensures Ext(base + ext) == ext
    decreases |ext|
  {
    var s := base + ext;
    if |ext| > 1 {
      var e' := ext[..|ext| - 1];
      assert s[..|s| - 1] == base + e';
      assert e'[1..] == ext[1..][..|ext| - 2];
      assert ext[|ext| - 1] == ext[1..][|ext| - 2];
      ExtOfSuffix(base, e');
      assert e' + [ext[|ext| - 1]] == ext;
    }
  }

  /** The first c in a + [c] + b is right after a when a has none. */
  lemma IndexOfCharAfter(a: string, c: char, b: string)
    requires c !in a
    ensures IndexOf(a + [c] + b, [c]) == Some(|a|)
  {
    forall j | 0 <= j < |a| ensures !OccursAt(a + [c] + b, [c], j) {
      assert (a + [c] + b)[j] == a[j];
    }
    IndexOfAfter(a, [c], b);
  }
}
