/** `utils.GenerateSlug` (internal/pkg/utils/slug.go): lower-case the text, turn
    every run of characters outside [a-z0-9] into one space, trim, turn spaces
    into '-' and squeeze runs of '-'. Each stage is a function below; the
    reference definition `Spec` joins the maximal alphanumeric runs of the
    lower-cased text with '-'. */
module Slugs {
  import Text

  predicate Alnum(c: char) { Text.IsLowerAlnum(c) }

  predicate AllAlnum(w: string) { forall i :: 0 <= i < |w| ==> Alnum(w[i]) }

  /** The input with its leading non-alphanumeric characters removed. */
  function DropNon(t: string): (r: string)
    ensures |r| <= |t| && r == t[|t| - |r|..]
    ensures r == [] || Alnum(r[0])
    ensures forall i :: 0 <= i < |t| - |r| ==> !Alnum(t[i])
    decreases |t|
  {
    if t != [] && !Alnum(t[0]) then
      var r := DropNon(t[1..]);
      assert forall i :: 1 <= i < |t| - |r| ==> t[i] == t[1..][i - 1];
      r
    else t
  }

  /** The longest alphanumeric prefix. */
  function TakeAlnum(t: string): (w: string)
    ensures |w| <= |t| && w == t[..|w|]
    ensures AllAlnum(w)
    ensures |w| == |t| || !Alnum(t[|w|])
    ensures t != [] && Alnum(t[0]) ==> |w| > 0
    decreases |t|
  {
    if t != [] && Alnum(t[0]) then
      var w := TakeAlnum(t[1..]);
      assert t[1..][..|w|] == t[1..1 + |w|];
      [t[0]] + w
    else []
  }

  /** Stage 2: `regexp("[^a-z0-9]+").ReplaceAllString(t, " ")`. */
  function ReplaceRuns(t: string): string
    decreases |t|
  {
    if t == [] then []
    else if Alnum(t[0]) then [t[0]] + ReplaceRuns(t[1..])
    else " " + ReplaceRuns(DropNon(t[1..]))
  }

  /** The text with its leading '-' characters removed. */
  function DropDashes(t: string): (r: string)
    ensures |r| <= |t| && r == t[|t| - |r|..]
    ensures r == [] || r[0] != '-'
    decreases |t|
  {
    if t != [] && t[0] == '-' then DropDashes(t[1..]) else t
  }

  /** Stage 5: `regexp("-+").ReplaceAllString(t, "-")`. */
  function CollapseDashes(t: string): string
    decreases |t|
  {
    if t == [] then []
    else if t[0] == '-' then "-" + CollapseDashes(DropDashes(t[1..]))
    else [t[0]] + CollapseDashes(t[1..])
  }

  function GenerateSlug(s: string): string
  {
    CollapseDashes(Text.ReplaceChar(Text.TrimSpace(ReplaceRuns(Text.Lower(s))), ' ', '-'))
  }

  // ----- reference definition -----

  /** A list of non-empty alphanumeric words. */
  predicate IsRuns(cs: seq<string>) { forall i :: 0 <= i < |cs| ==> cs[i] != [] && AllAlnum(cs[i]) }

  lemma RunsCons(w: string, cs: seq<string>)
    requires w != [] && AllAlnum(w) && IsRuns(cs)
    ensures IsRuns([w] + cs)
  {
    assert forall i :: 1 <= i < 1 + |cs| ==> ([w] + cs)[i] == cs[i - 1];
  }

  /** The maximal alphanumeric runs of t, left to right. */
  function Chunks(t: string): (cs: seq<string>)
    ensures IsRuns(cs)
    decreases |t|
  {
    var u := DropNon(t);
    if u == [] then []
    else
      var w := TakeAlnum(u);
      assert 0 < |w| <= |u| <= |t|;
      var rest := Chunks(u[|w|..]);
      RunsCons(w, rest);
      [w] + rest
  }

  function JoinWith(cs: seq<string>, sep: char): string
  {
    if cs == [] then []
    else if |cs| == 1 then cs[0]
    else cs[0] + [sep] + JoinWith(cs[1..], sep)
  }

  /** What a slug is: the alphanumeric runs of the lower-cased text, joined by '-'. */
  function Spec(s: string): string
  {
    JoinWith(Chunks(Text.Lower(s)), '-')
  }

  /** A well-formed slug: only a-z, 0-9 and '-', no '-' at either end, no "--". */
  predicate Canonical(x: string)
  {
    && (forall i :: 0 <= i < |x| ==> Alnum(x[i]) || x[i] == '-')
    && (x == [] || (x[0] != '-' && x[|x| - 1] != '-'))
    && (forall i :: 0 <= i < |x| - 1 ==> !(x[i] == '-' && x[i + 1] == '-'))
  }

  // ----- stage lemmas -----

  predicate Aligned(u: string) { u == [] || Alnum(u[0]) }

  lemma {:induction false} ReplaceRunsTake(u: string)
    ensures ReplaceRuns(u) == TakeAlnum(u) + ReplaceRuns(u[|TakeAlnum(u)|..])
    decreases |u|
  {
    var w := TakeAlnum(u);
    if u != [] && Alnum(u[0]) {
      var v := u[1..];
      var w' := TakeAlnum(v);
      ReplaceRunsTake(v);
      DropAfterHead(u, |w'|);
      Regroup3([u[0]], w', ReplaceRuns(u[1 + |w'|..]));
    } else {
      assert w == [];
      assert u[|w|..] == u;
    }
  }

  lemma DropAfterHead(u: string, n: nat)
    requires n < |u|
    ensures u[1..][n..] == u[1 + n..]
  {
  }

  lemma Regroup3(a: string, b: string, c: string)
    ensures a + (b + c) == (a + b) + c
  {
  }

  lemma DropNonAligned(u: string)
    requires Aligned(u)
    ensures DropNon(u) == u
  {
  }

  lemma ChunksDropNon(t: string)
    ensures Chunks(t) == Chunks(DropNon(t))
  {
    DropNonAligned(DropNon(t));
  }

  lemma JoinWithCons(w: string, cs: seq<string>, sep: char)
    requires cs != []
    ensures JoinWith([w] + cs, sep) == w + [sep] + JoinWith(cs, sep)
  {
    assert ([w] + cs)[1..] == cs;
  }

  lemma ChunksCons(u: string)
    requires u != [] && Alnum(u[0])
    ensures Chunks(u) == [TakeAlnum(u)] + Chunks(u[|TakeAlnum(u)|..])
  {
    DropNonAligned(u);
  }

  lemma ReplaceRunsNon(r: string)
    requires r != [] && !Alnum(r[0])
    ensures ReplaceRuns(r) == " " + ReplaceRuns(DropNon(r))
    ensures Chunks(r) == Chunks(DropNon(r))
  {
    assert DropNon(r) == DropNon(r[1..]);
    ChunksDropNon(r);
  }

  /** Stage 2 gives the runs joined by single spaces, possibly followed by one space. */
  predicate RunsShape(u: string)
  {
    ReplaceRuns(u) == JoinWith(Chunks(u), ' ') || ReplaceRuns(u) == JoinWith(Chunks(u), ' ') + " "
  }

  lemma OneRun(u: string)
    requires u != [] && Alnum(u[0]) && |TakeAlnum(u)| == |u|
    ensures RunsShape(u)
  {
    var w := TakeAlnum(u);
    ReplaceRunsTake(u);
    ChunksCons(u);
    assert u[|w|..] == [];
    assert Chunks(u) == [w];
  }

  /** The text after the first run and the separator that follows it. */
  function AfterRun(u: string): string
  {
    DropNon(u[|TakeAlnum(u)|..])
  }

  lemma StepReplaceRuns(u: string)
    requires u != [] && Alnum(u[0]) && |TakeAlnum(u)| < |u|
    ensures ReplaceRuns(u) == TakeAlnum(u) + " " + ReplaceRuns(AfterRun(u))
  {
    var w := TakeAlnum(u);
    var rest := u[|w|..];
    ReplaceRunsTake(u);
    ReplaceRunsNon(rest);
    Regroup(ReplaceRuns(u), w, ReplaceRuns(rest), ReplaceRuns(AfterRun(u)));
  }

  lemma Regroup(ru: string, w: string, rr: string, rv: string)
    requires ru == w + rr && rr == " " + rv
    ensures ru == w + " " + rv
  {
  }

  lemma StepChunks(u: string)
    requires u != [] && Alnum(u[0]) && |TakeAlnum(u)| < |u|
    ensures Chunks(u) == [TakeAlnum(u)] + Chunks(AfterRun(u))
  {
    ChunksCons(u);
    ReplaceRunsNon(u[|TakeAlnum(u)|..]);
  }

  lemma RunsStep(u: string)
    requires u != [] && Alnum(u[0]) && |TakeAlnum(u)| < |u|
    requires RunsShape(AfterRun(u))
    ensures RunsShape(u)
  {
    var v := AfterRun(u);
    StepReplaceRuns(u);
    StepChunks(u);
    if Chunks(v) == [] {
      assert v == [];
    }
    Assemble(ReplaceRuns(u), Chunks(u), TakeAlnum(u), Chunks(v), ReplaceRuns(v));
  }

  lemma Assemble(ru: string, cu: seq<string>, w: string, cs: seq<string>, rv: string)
    requires ru == w + " " + rv && cu == [w] + cs
    requires rv == JoinWith(cs, ' ') || rv == JoinWith(cs, ' ') + " "
    requires cs == [] ==> rv == []
    ensures ru == JoinWith(cu, ' ') || ru == JoinWith(cu, ' ') + " "
  {
    if cs == [] {
      assert cu == [w];
    } else {
      JoinWithCons(w, cs, ' ');
      AppendShape(w, JoinWith(cs, ' '), rv);
    }
  }

  lemma {:induction false} ReplaceRunsAligned(u: string)
    requires Aligned(u)
    ensures RunsShape(u)
    decreases |u|
  {
    if u == [] {
      assert Chunks(u) == [];
    } else if |TakeAlnum(u)| == |u| {
      OneRun(u);
    } else {
      ReplaceRunsAligned(AfterRun(u));
      RunsStep(u);
    }
  }

  lemma AppendShape(w: string, j: string, rv: string)
    requires rv == j || rv == j + " "
    ensures w + " " + rv == w + " " + j || w + " " + rv == (w + " " + j) + " "
  {
  }

  /** On any text, stage 2 is at most one space followed by the aligned shape. */
  lemma ReplaceRunsShape(t: string)
    ensures var j := JoinWith(Chunks(t), ' ');
      || ReplaceRuns(t) == j || ReplaceRuns(t) == j + " "
      || ReplaceRuns(t) == " " + j || ReplaceRuns(t) == " " + j + " "
  {
    if t != [] && !Alnum(t[0]) {
      var u := DropNon(t);
      ReplaceRunsNon(t);
      ReplaceRunsAligned(u);
      LeadingSpace(ReplaceRuns(u), JoinWith(Chunks(u), ' '));
    } else {
      ReplaceRunsAligned(t);
    }
  }

  lemma LeadingSpace(rr: string, j: string)
    requires rr == j || rr == j + " "
    ensures " " + rr == " " + j || " " + rr == " " + j + " "
  {
  }

  lemma {:induction false} JoinWithEnds(cs: seq<string>, sep: char)
    requires IsRuns(cs)
    ensures cs == [] <==> JoinWith(cs, sep) == []
    ensures cs != [] ==> Alnum(JoinWith(cs, sep)[0]) && Alnum(JoinWith(cs, sep)[|JoinWith(cs, sep)| - 1])
  {
    if |cs| > 1 {
      JoinWithEnds(cs[1..], sep);
    }
  }

  /** Trimming at most one space on either side of a text that is empty or
      framed by non-space characters gives that text. */
  lemma TrimShape(r: string, j: string)
    requires r == j || r == j + " " || r == " " + j || r == " " + j + " "
    requires j == [] || (!Text.IsSpace(j[0]) && !Text.IsSpace(j[|j| - 1]))
    ensures Text.TrimSpace(r) == j
  {
    if j == [] {
      assert Text.AllSpace(r);
      Text.TrimSpaceEmpty(r);
    } else {
      var a: string := if r[0] == ' ' then " " else "";
      var b: string := if r[|r| - 1] == ' ' then " " else "";
      assert r == a + j + b;
      Text.TrimSpaceFrame(a, j, b);
    }
  }

  /** Stage 3 leaves the runs joined by single spaces. */
  lemma TrimAfterReplace(t: string)
    ensures Text.TrimSpace(ReplaceRuns(t)) == JoinWith(Chunks(t), ' ')
  {
    var j := JoinWith(Chunks(t), ' ');
    ReplaceRunsShape(t);
    JoinWithEnds(Chunks(t), ' ');
    if j != [] {
      AlnumNotSpace(j[0]);
      AlnumNotSpace(j[|j| - 1]);
    }
    TrimShape(ReplaceRuns(t), j);
  }

  lemma AlnumNotSpace(c: char)
    requires Alnum(c)
    ensures !Text.IsSpace(c)
  {
  }

  /** Stage 4 turns the space separators into dashes. */
  lemma {:induction false} ReplaceSeparator(cs: seq<string>)
    requires forall i :: 0 <= i < |cs| ==> AllAlnum(cs[i])
    ensures Text.ReplaceChar(JoinWith(cs, ' '), ' ', '-') == JoinWith(cs, '-')
  {
    if |cs| > 1 {
      ReplaceSeparator(cs[1..]);
      var x := cs[0] + [' '];
      var y := JoinWith(cs[1..], ' ');
      assert Text.ReplaceChar(x + y, ' ', '-') == Text.ReplaceChar(x, ' ', '-') + Text.ReplaceChar(y, ' ', '-');
      assert Text.ReplaceChar(x, ' ', '-') == cs[0] + ['-'];
    } else if |cs| == 1 {
      assert Text.ReplaceChar(cs[0], ' ', '-') == cs[0];
    }
  }

  /** Joining non-empty alphanumeric runs with '-' gives a well-formed slug. */
  lemma {:induction false} JoinCanonical(cs: seq<string>)
    requires IsRuns(cs)
    ensures Canonical(JoinWith(cs, '-'))
  {
    if |cs| > 1 {
      JoinCanonical(cs[1..]);
      JoinWithEnds(cs[1..], '-');
      var w := cs[0];
      var y := JoinWith(cs[1..], '-');
      var x := w + ['-'] + y;
      assert JoinWith(cs, '-') == x;
      forall i | 0 <= i < |x| - 1 ensures !(x[i] == '-' && x[i + 1] == '-') {
        if i < |w| - 1 {
        } else if i == |w| - 1 {
          assert x[i] == w[i];
        } else if i == |w| {
          assert x[i + 1] == y[0];
        } else {
          assert x[i] == y[i - |w| - 1] && x[i + 1] == y[i - |w|];
        }
      }
      forall i | 0 <= i < |x| ensures Alnum(x[i]) || x[i] == '-' {
        if i > |w| { assert x[i] == y[i - |w| - 1]; }
      }
    }
  }

  /** Stage 5 changes nothing on text without "--". */
  lemma {:induction false} CollapseCanonical(x: string)
    requires forall i :: 0 <= i < |x| - 1 ==> !(x[i] == '-' && x[i + 1] == '-')
    ensures CollapseDashes(x) == x
    decreases |x|
  {
    if x != [] {
      CollapseCanonical(x[1..]);
      if x[0] == '-' {
        assert DropDashes(x[1..]) == x[1..];
      }
    }
  }

  // ----- properties of GenerateSlug -----

  /** GenerateSlug equals its reference definition: the alphanumeric characters
      of the lower-cased input are kept in order, and each maximal run of other
      characters between two of them becomes exactly one '-'. */
  lemma GenerateSlugSpec(s: string)
    ensures GenerateSlug(s) == Spec(s)
  {
    var cs := Chunks(Text.Lower(s));
    TrimAfterReplace(Text.Lower(s));
    ReplaceSeparator(cs);
    JoinCanonical(cs);
    CollapseCanonical(JoinWith(cs, '-'));
  }

  /** Every slug is well formed: only a-z, 0-9 and '-', no '-' at either end, no "--". */
  lemma GenerateSlugCanonical(s: string)
    ensures Canonical(GenerateSlug(s))
  {
    GenerateSlugSpec(s);
    JoinCanonical(Chunks(Text.Lower(s)));
  }

  lemma ChunksEmpty(t: string)
    requires forall i :: 0 <= i < |t| ==> !Alnum(t[i])
    ensures Chunks(t) == []
  {
  }

  /** Input with no letter or digit (in particular the empty string) gives "". */
  lemma GenerateSlugEmpty(s: string)
    requires forall i :: 0 <= i < |s| ==> !Alnum(Text.LowerChar(s[i]))
    ensures GenerateSlug(s) == ""
  {
    GenerateSlugSpec(s);
    ChunksEmpty(Text.Lower(s));
  }

  /** In a well-formed slug a run is followed by '-' and by the rest of the slug. */
  lemma CanonicalStep(x: string)
    requires Canonical(x) && x != [] && |TakeAlnum(x)| < |x|
    ensures var k := |TakeAlnum(x)|;
      k + 1 < |x| && x[k] == '-' && AfterRun(x) == x[k + 1..] && Aligned(x[k + 1..]) && x[k + 1..] != []
  {
    var k := |TakeAlnum(x)|;
    var rest := x[k..];
    assert x[k] == '-';
    assert k < |x| - 1;
    assert x[k + 1] != '-';
    assert rest[1..] == x[k + 1..];
    assert DropNon(rest[1..]) == rest[1..];
  }

  lemma CanonicalTail(x: string, k: nat)
    requires Canonical(x) && k < |x| && Aligned(x[k..])
    ensures Canonical(x[k..])
  {
    var v := x[k..];
    forall i | 0 <= i < |v| - 1 ensures !(v[i] == '-' && v[i + 1] == '-') {
      assert v[i] == x[k + i] && v[i + 1] == x[k + i + 1];
    }
    forall i | 0 <= i < |v| ensures Alnum(v[i]) || v[i] == '-' {
      assert v[i] == x[k + i];
    }
  }

  lemma Glue(x: string, w: string, v: string)
    requires |w| < |x| && w == x[..|w|] && x[|w|] == '-' && v == x[|w| + 1..]
    ensures x == w + "-" + v
  {
  }

  /** A well-formed slug is the '-'-join of its own runs. */
  lemma {:induction false} CanonicalChunks(x: string)
    requires Canonical(x)
    ensures JoinWith(Chunks(x), '-') == x
    decreases |x|
  {
    if x == [] {
      assert Chunks(x) == [];
    } else if |TakeAlnum(x)| == |x| {
      SingleRun(x);
    } else {
      CanonicalSplit(x);
      CanonicalChunks(AfterRun(x));
      JoinStep(x, TakeAlnum(x), AfterRun(x), Chunks(AfterRun(x)));
    }
  }

  /** A text that is one run is its only chunk. */
  lemma SingleRun(x: string)
    requires x != [] && Alnum(x[0]) && |TakeAlnum(x)| == |x|
    ensures JoinWith(Chunks(x), '-') == x
  {
    ChunksCons(x);
    assert x[|x|..] == [];
    assert Chunks(x) == [TakeAlnum(x)];
  }

  /** A well-formed slug of more than one run is its first run, '-', and a
      shorter well-formed slug holding the remaining runs. */
  lemma CanonicalSplit(x: string)
    requires Canonical(x) && x != [] && |TakeAlnum(x)| < |x|
    ensures var v := AfterRun(x);
      Canonical(v) && v != [] && |v| < |x| && x == TakeAlnum(x) + "-" + v && Chunks(x) == [TakeAlnum(x)] + Chunks(v)
  {
    var w := TakeAlnum(x);
    CanonicalStep(x);
    CanonicalTail(x, |w| + 1);
    StepChunks(x);
    Glue(x, w, AfterRun(x));
  }

  /** The step of CanonicalChunks: a run, '-', and the join of more runs is
      the join of all of them. */
  lemma JoinStep(x: string, w: string, v: string, cs: seq<string>)
    requires v != [] && JoinWith(cs, '-') == v && x == w + "-" + v
    ensures JoinWith([w] + cs, '-') == x
  {
    assert cs != [];
    JoinWithCons(w, cs, '-');
  }

  /** The reference definition leaves a well-formed slug as it is. */
  lemma SpecOfCanonical(x: string)
    requires Canonical(x)
    ensures Spec(x) == x
  {
    assert Text.NoUpper(x);
    Text.LowerOfNoUpper(x);
    CanonicalChunks(x);
  }

  /** Slugging a slug changes nothing. */
  lemma GenerateSlugIdempotent(s: string)
    ensures GenerateSlug(GenerateSlug(s)) == GenerateSlug(s)
  {
    var x := GenerateSlug(s);
    GenerateSlugCanonical(s);
    GenerateSlugSpec(x);
    SpecOfCanonical(x);
  }

  // ----- the hand-written slug of the product and legacy category services -----

  /** `strings.ToLower(strings.ReplaceAll(name, " ", "-"))`: every space becomes
      '-' and every other character is lower-cased in place; unlike
      GenerateSlug, punctuation is kept and runs of spaces are not squeezed. */
  function DashedLower(name: string): (r: string)
    ensures |r| == |name|
    ensures forall i :: 0 <= i < |name| ==> r[i] == if name[i] == ' ' then '-' else Text.LowerChar(name[i])
    ensures Text.NoUpper(r) && ' ' !in r
  {
    Text.Lower(Text.ReplaceChar(name, ' ', '-'))
  }

  /** Two spaces in a row give "--", so the result is not a canonical slug as
      GenerateSlug's always is. */
  lemma DashedLowerKeepsRuns()
    ensures DashedLower("A  b") == "a--b"
    ensures !Canonical(DashedLower("A  b"))
  {
    var r := DashedLower("A  b");
    assert r[0] == 'a' && r[1] == '-' && r[2] == '-' && r[3] == 'b';
  }
}

