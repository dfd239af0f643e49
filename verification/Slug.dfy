/**
 Workspace slugs: derivation from a name, validation, numeric suffixes, and the search for an
 unused slug.
 */
module Slug {
  import opened Wrappers
  import opened Numerals
  import opened Strings

  const MAX_SLUG_LENGTH: nat := 128

  predicate IsSlugChar(c: char) {
    'a' <= c <= 'z' || '0' <= c <= '9'
  }

  // ----- the intended form

  /** Only slug characters and hyphens, never two hyphens in a row. */
  ghost predicate Clean(s: string) {
    && (forall i :: 0 <= i < |s| ==> IsSlugChar(s[i]) || s[i] == '-')
    && (forall i :: 0 < i < |s| ==> s[i - 1] != '-' || s[i] != '-')
  }

  /** Hyphen-separated non-empty runs of slug characters. */
  ghost predicate WellFormed(s: string) {
    s != "" && Clean(s) && s[0] != '-' && s[|s| - 1] != '-'
  }

  // ----- validation

  /** The number of leading slug characters, what `[a-z0-9]+` consumes. */
  function Run(s: string): (n: nat)
    ensures n <= |s|
    ensures forall i :: 0 <= i < n ==> IsSlugChar(s[i])
    ensures n < |s| ==> !IsSlugChar(s[n])
  {
    if s != "" && IsSlugChar(s[0]) then 1 + Run(s[1..]) else 0
  }

  /** The body of the slug pattern, matched against a whole string. */
  predicate MatchesBody(s: string)
    decreases |s|
  {
    var n := Run(s);
    n > 0 && (n == |s| || (s[n] == '-' && MatchesBody(s[n + 1..])))
  }

  /** The pattern with its anchors; `$` also matches before a final line feed. */
  predicate MatchesPattern(s: string) {
    MatchesBody(s) || (s != "" && s[|s| - 1] == '\n' && MatchesBody(s[..|s| - 1]))
  }

  predicate IsValidSlug(s: string) {
    if s == "" || |s| > MAX_SLUG_LENGTH then false else MatchesPattern(s)
  }

  lemma {:induction false} BodyIsWellFormed(s: string)
    ensures MatchesBody(s) <==> WellFormed(s)
    decreases |s|
  {
    var n := Run(s);
    if 0 < n < |s| && s[n] == '-' {
      var rest := s[n + 1..];
      BodyIsWellFormed(rest);
      if WellFormed(s) {
        assert s[n + 1] != '-';
        assert forall i :: 0 <= i < |rest| ==> rest[i] == s[n + 1 + i];
      }
      if WellFormed(rest) {
        assert forall i :: n < i < |s| ==> s[i] == rest[i - n - 1];
        assert forall i :: 0 < i < |s| ==> s[i - 1] != '-' || s[i] != '-';
      }
    }
  }

  /** Validation accepts the well-formed slugs, and those same slugs followed by one line feed. */
  lemma ValidExactly(s: string)
    ensures IsValidSlug(s) <==>
      |s| <= MAX_SLUG_LENGTH && (WellFormed(s) || (s != "" && s[|s| - 1] == '\n' && WellFormed(s[..|s| - 1])))
  {
    BodyIsWellFormed(s);
    if s != "" {
      BodyIsWellFormed(s[..|s| - 1]);
    }
  }

  /** A slug that no longer has the documented form is accepted. */
  lemma TrailingLineFeedAccepted()
    ensures IsValidSlug("team\n") && !WellFormed("team\n")
  {
    ValidExactly("team\n");
    assert "team\n"[..4] == "team";
    assert WellFormed("team");
  }

  // ----- derivation from a name

  function DropNonSlug(s: string): (r: string)
    ensures |r| <= |s|
    ensures r != "" ==> IsSlugChar(r[0])
  {
    if s != "" && !IsSlugChar(s[0]) then DropNonSlug(s[1..]) else s
  }

  /** Every maximal run of other characters becomes one hyphen. */
  function Hyphenate(s: string): string
    decreases |s|
  {
    if s == "" then ""
    else if IsSlugChar(s[0]) then [s[0]] + Hyphenate(s[1..])
    else "-" + Hyphenate(DropNonSlug(s[1..]))
  }

  function TrimLeft(s: string): string {
    if s != "" && s[0] == '-' then TrimLeft(s[1..]) else s
  }

  function TrimRight(s: string): (r: string)
    ensures r <= s
    ensures r != "" ==> r[|r| - 1] != '-'
    ensures forall i :: |r| <= i < |s| ==> s[i] == '-'
  {
    if s != "" && s[|s| - 1] == '-' then TrimRight(s[..|s| - 1]) else s
  }

  /** Python's `s[:n]`, for any integer `n`. */
  function Prefix(s: string, n: int): (r: string)
    ensures r <= s && |r| <= (if n < 0 then |s| else n)
  {
    if n >= |s| then s else if n >= 0 then s[..n] else if |s| + n >= 0 then s[..|s| + n] else ""
  }

  /** The slug of a name whose letters are already lowered and whose ends are stripped of spaces. */
  function GenerateSlug(cleaned: string): string {
    var slug := TrimRight(TrimLeft(Hyphenate(cleaned)));
    TrimRight(Prefix(if slug == "" then "workspace" else slug, MAX_SLUG_LENGTH))
  }

  lemma {:induction false} HyphenateIsClean(s: string)
    ensures Clean(Hyphenate(s))
    ensures s != "" && IsSlugChar(s[0]) ==> Hyphenate(s) != "" && Hyphenate(s)[0] != '-'
    decreases |s|
  {
    if s != "" {
      var rest := if IsSlugChar(s[0]) then s[1..] else DropNonSlug(s[1..]);
      HyphenateIsClean(rest);
    }
  }

  lemma {:induction false} TrimLeftIsSuffix(s: string) returns (n: nat)
    ensures n <= |s| && TrimLeft(s) == s[n..]
    ensures n < |s| ==> s[n] != '-'
    ensures forall i :: 0 <= i < n ==> s[i] == '-'
  {
    if s != "" && s[0] == '-' {
      n := TrimLeftIsSuffix(s[1..]);
      n := n + 1;
    } else {
      n := 0;
    }
  }

  /** A clean string cut anywhere and stripped of hyphens on the right stays well formed. */
  lemma TrimmedPrefixIsWellFormed(s: string, r: string)
    requires Clean(s) && r <= s && r != "" && s[0] != '-'
    ensures WellFormed(TrimRight(r))
  {
    var t := TrimRight(r);
    assert t == s[..|t|];
    assert r[0] == s[0];
  }

  /** Whatever the name, the derived slug is well formed and short enough. */
  lemma GenerateIsWellFormed(cleaned: string)
    ensures WellFormed(GenerateSlug(cleaned)) && |GenerateSlug(cleaned)| <= MAX_SLUG_LENGTH
  {
    var dashed := Hyphenate(cleaned);
    HyphenateIsClean(cleaned);
    var n := TrimLeftIsSuffix(dashed);
    var left := TrimLeft(dashed);
    assert forall i :: 0 <= i < |left| ==> left[i] == dashed[n + i];
    if left != "" {
      TrimmedPrefixIsWellFormed(left, left);
    }
    var slug := TrimRight(left);
    var whole := if slug == "" then "workspace" else slug;
    TrimmedPrefixIsWellFormed(whole, Prefix(whole, MAX_SLUG_LENGTH));
  }

  lemma {:induction false} HyphenateFixesClean(s: string)
    requires Clean(s) && (s != "" ==> s[|s| - 1] != '-')
    ensures Hyphenate(s) == s
  {
    if s != "" {
      var rest := s[1..];
      assert forall i :: 0 <= i < |rest| ==> rest[i] == s[i + 1];
      HyphenateFixesClean(rest);
      if !IsSlugChar(s[0]) {
        assert s[0] == '-' && s[1] != '-';
        assert DropNonSlug(rest) == rest;
      }
    }
  }

  /** Derivation leaves every slug of the intended form alone. */
  lemma GenerateFixesSlugs(s: string)
    requires WellFormed(s) && |s| <= MAX_SLUG_LENGTH
    ensures GenerateSlug(s) == s
  {
    HyphenateFixesClean(s);
  }

  // ----- what a slug keeps of a name

  ghost predicate NoSlugChar(s: string, from: nat, to: nat)
    requires to <= |s|
  {
    forall p :: from <= p < to ==> !IsSlugChar(s[p])
  }

  /** Character `i` of the slug stands for position `p` of the name: a letter for itself, a hyphen for another. */
  ghost predicate StandsFor(name: string, slug: string, i: nat, p: nat)
    requires i < |slug|
  {
    p < |name| && if slug[i] == '-' then !IsSlugChar(name[p]) else IsSlugChar(name[p]) && name[p] == slug[i]
  }

  /** Neighbours in the slug: no letter between them is left out, and letters that touch also did in the name. */
  ghost predicate Adjoins(name: string, slug: string, i: nat, p: nat, q: nat)
    requires i + 1 < |slug|
  {
    && p < q <= |name| && NoSlugChar(name, p + 1, q)
    && (slug[i] != '-' && slug[i + 1] != '-' ==> q == p + 1)
  }

  /** The slug is read off the name at the positions `at`. */
  ghost predicate Traces(name: string, slug: string, at: seq<nat>) {
    && |at| == |slug|
    && (forall i: nat :: i < |slug| ==> StandsFor(name, slug, i, at[i]))
    && forall i: nat :: i + 1 < |slug| ==> Adjoins(name, slug, i, at[i], at[i + 1])
  }

  ghost function Shifted(at: seq<nat>, k: nat): seq<nat> {
    seq(|at|, i requires 0 <= i < |at| => at[i] + k)
  }

  lemma TracesSuffix(name: string, k: nat, slug: string, at: seq<nat>)
    requires k <= |name| && Traces(name[k..], slug, at)
    ensures Traces(name, slug, Shifted(at, k))
  {
    forall i: nat | i + 1 < |slug|
      ensures Adjoins(name, slug, i, at[i] + k, at[i + 1] + k)
    {
      assert Adjoins(name[k..], slug, i, at[i], at[i + 1]);
      assert forall p :: at[i] + k < p < at[i + 1] + k ==> name[p] == name[k..][p - k];
    }
    forall i: nat | i < |slug|
      ensures StandsFor(name, slug, i, at[i] + k)
    {
      assert StandsFor(name[k..], slug, i, at[i]);
    }
  }

  lemma TracesCons(name: string, c: char, slug: string, at: seq<nat>)
    requires name != "" && StandsFor(name, [c], 0, 0) && Traces(name, slug, at)
    requires slug != "" ==> 0 < at[0] && NoSlugChar(name, 1, at[0]) && (c != '-' && slug[0] != '-' ==> at[0] == 1)
    ensures Traces(name, [c] + slug, [0] + at)
  {
    var longer, positions := [c] + slug, [0] + at;
    forall i: nat | i < |longer|
      ensures StandsFor(name, longer, i, positions[i])
    {
      assert i > 0 ==> StandsFor(name, slug, i - 1, at[i - 1]);
    }
    forall i: nat | i + 1 < |longer|
      ensures Adjoins(name, longer, i, positions[i], positions[i + 1])
    {
      if i > 0 {
        assert Adjoins(name, slug, i - 1, at[i - 1], at[i]);
      } else {
        assert StandsFor(name, slug, 0, at[0]);
      }
    }
  }

  lemma TracesSlice(name: string, slug: string, at: seq<nat>, from: nat, to: nat)
    requires Traces(name, slug, at) && from <= to <= |slug|
    ensures Traces(name, slug[from..to], at[from..to])
  {
    forall i: nat | i < to - from
      ensures StandsFor(name, slug[from..to], i, at[from..to][i])
    {
      assert StandsFor(name, slug, from + i, at[from + i]);
    }
    forall i: nat | i + 1 < to - from
      ensures Adjoins(name, slug[from..to], i, at[from..to][i], at[from..to][i + 1])
    {
      assert Adjoins(name, slug, from + i, at[from + i], at[from + i + 1]);
    }
  }

  lemma {:induction false} DropIsSuffix(s: string) returns (k: nat)
    ensures k <= |s| && DropNonSlug(s) == s[k..] && NoSlugChar(s, 0, k)
  {
    if s != "" && !IsSlugChar(s[0]) {
      k := DropIsSuffix(s[1..]);
      assert forall p :: 0 < p <= k ==> s[p] == s[1..][p - 1];
      k := k + 1;
    } else {
      k := 0;
    }
  }

  /** The positions of a dashed name: from its first character on, with nothing but separators behind the last. */
  ghost predicate TracesWhole(name: string, dashed: string, at: seq<nat>) {
    && Traces(name, dashed, at) && (dashed == "" <==> name == "")
    && (dashed != "" ==> at[0] == 0 && at[|at| - 1] < |name| && NoSlugChar(name, at[|at| - 1] + 1, |name|))
  }

  lemma {:induction false} HyphenateTraces(s: string) returns (at: seq<nat>)
    ensures TracesWhole(s, Hyphenate(s), at)
    decreases |s|
  {
    if s == "" {
      at := [];
    } else {
      var k := 1;
      if !IsSlugChar(s[0]) {
        k := DropIsSuffix(s[1..]);
        assert forall p :: 0 < p <= k ==> s[p] == s[1..][p - 1];
        assert s[1..][k..] == s[k + 1..];
        k := k + 1;
      }
      var rest := HyphenateTraces(s[k..]);
      at := [0] + Shifted(rest, k);
      HyphenateStep(s, k, Hyphenate(s[k..]), rest);
    }
  }

  lemma HyphenateStep(s: string, k: nat, dashed: string, rest: seq<nat>)
    requires s != "" && 1 <= k <= |s| && NoSlugChar(s, 1, k) && (IsSlugChar(s[0]) ==> k == 1)
    requires TracesWhole(s[k..], dashed, rest)
    ensures TracesWhole(s, (if IsSlugChar(s[0]) then [s[0]] else "-") + dashed, [0] + Shifted(rest, k))
  {
    TracesSuffix(s, k, dashed, rest);
    TracesCons(s, if IsSlugChar(s[0]) then s[0] else '-', dashed, Shifted(rest, k));
    if dashed != "" {
      assert forall p :: k <= p < |s| ==> s[p] == s[k..][p - k];
    }
  }

  /** Nothing that matters is in front of the slug. */
  ghost predicate KeepsFront(name: string, at: seq<nat>) {
    at != [] && at[0] <= |name| && NoSlugChar(name, 0, at[0])
  }

  ghost predicate KeepsBack(name: string, at: seq<nat>) {
    at != [] && at[|at| - 1] < |name| && NoSlugChar(name, at[|at| - 1] + 1, |name|)
  }

  /**
   The slug of a name is read off it: its letters and digits in order, each run of other
   characters between them as one hyphen.  Only at the length limit is anything cut off behind,
   and only a name without letters and digits gets the stock slug.
   */
  lemma GenerateKeeps(cleaned: string) returns (at: seq<nat>)
    ensures NoSlugChar(cleaned, 0, |cleaned|) ==> GenerateSlug(cleaned) == "workspace"
    ensures !NoSlugChar(cleaned, 0, |cleaned|) ==>
      && Traces(cleaned, GenerateSlug(cleaned), at) && KeepsFront(cleaned, at)
      && (|GenerateSlug(cleaned)| < MAX_SLUG_LENGTH - 1 ==> KeepsBack(cleaned, at))
  {
    var dashed := Hyphenate(cleaned);
    var all := HyphenateTraces(cleaned);
    HyphenateIsClean(cleaned);
    var n := FrontTrim(cleaned, dashed, all);
    var m := BackTrim(cleaned, dashed, all, n);
    if n < m {
      var k := LimitTrim(dashed, n, m);
      at := ReadOff(cleaned, dashed, all, n, m, k);
    } else {
      at := [];
    }
  }

  lemma ReadOff(name: string, dashed: string, all: seq<nat>, n: nat, m: nat, k: nat) returns (at: seq<nat>)
    requires Traces(name, dashed, all) && n < k <= m <= |dashed| && dashed[n] != '-'
    requires KeepsFront(name, all[n..]) && KeepsBack(name, all[n..m])
    ensures Traces(name, dashed[n..k], at) && KeepsFront(name, at) && (k == m ==> KeepsBack(name, at))
    ensures !NoSlugChar(name, 0, |name|)
  {
    at := all[n..k];
    TracesSlice(name, dashed, all, n, k);
    assert StandsFor(name, dashed, n, all[n]) && at[0] == all[n..][0];
  }

  /** At most one hyphen is taken off in front. */
  lemma FrontTrim(name: string, dashed: string, at: seq<nat>) returns (n: nat)
    requires Clean(dashed) && TracesWhole(name, dashed, at)
    ensures n <= |dashed| && TrimLeft(dashed) == dashed[n..] && (n < |dashed| ==> dashed[n] != '-')
    ensures n < |dashed| ==> KeepsFront(name, at[n..])
    ensures n == |dashed| ==> NoSlugChar(name, 0, |name|)
  {
    n := TrimLeftIsSuffix(dashed);
    if dashed != "" && dashed[0] == '-' {
      assert StandsFor(name, dashed, 0, at[0]);
      if |dashed| > 1 {
        assert Adjoins(name, dashed, 0, at[0], at[1]);
        assert TrimLeft(dashed) == dashed[1..];
      }
    }
  }

  lemma NoTwoHyphens(s: string, i: nat)
    requires Clean(s)
    ensures i + 1 < |s| ==> s[i] != '-' || s[i + 1] != '-'
  {
  }

  /** At most one hyphen is taken off behind. */
  lemma BackTrim(name: string, dashed: string, at: seq<nat>, n: nat) returns (m: nat)
    requires Clean(dashed) && TracesWhole(name, dashed, at) && n <= |dashed| && (n < |dashed| ==> dashed[n] != '-')
    ensures n <= m <= |dashed| && TrimRight(dashed[n..]) == dashed[n..m] && (n < |dashed| ==> n < m)
    ensures n < m ==> dashed[m - 1] != '-' && KeepsBack(name, at[n..m])
  {
    var t := TrimRight(dashed[n..]);
    m := n + |t|;
    assert t == dashed[n..m];
    assert forall i :: m <= i < |dashed| ==> dashed[i] == dashed[n..][i - n];
    if n < m < |dashed| {
      NoTwoHyphens(dashed, m);
      assert StandsFor(name, dashed, m, at[m]);
      assert Adjoins(name, dashed, m - 1, at[m - 1], at[m]);
    }
  }

  /** The length limit takes nothing off a slug that ends up shorter than 127. */
  lemma LimitTrim(dashed: string, n: nat, m: nat) returns (k: nat)
    requires Clean(dashed) && n < m <= |dashed| && dashed[n] != '-' && dashed[m - 1] != '-'
    ensures n < k <= m && TrimRight(Prefix(dashed[n..m], MAX_SLUG_LENGTH)) == dashed[n..k]
    ensures k - n < MAX_SLUG_LENGTH - 1 ==> k == m
  {
    var cut := Prefix(dashed[n..m], MAX_SLUG_LENGTH);
    var t := TrimRight(cut);
    k := n + |t|;
    assert t == dashed[n..k];
    assert forall i :: 0 <= i < |cut| ==> cut[i] == dashed[n + i];
    NoTwoHyphens(dashed, k);
  }

  // ----- numeric suffixes

  function AppendSlugSuffix(base: string, suffix: nat): string {
    var suffixText := "-" + Decimal(suffix);
    TrimRight(Prefix(base, MAX_SLUG_LENGTH - |suffixText|)) + suffixText
  }

  /** What the suffixed slug keeps of the base. */
  function AppendedHead(base: string, suffix: nat): string {
    TrimRight(Prefix(base, MAX_SLUG_LENGTH - 1 - |Decimal(suffix)|))
  }

  /** The suffixed slug is a legal slug exactly while the suffix leaves room for the base. */
  lemma AppendIsWellFormed(base: string, suffix: nat)
    requires WellFormed(base) && |base| <= MAX_SLUG_LENGTH
    ensures var r := AppendSlugSuffix(base, suffix);
      WellFormed(r) && |r| <= MAX_SLUG_LENGTH <==> |Decimal(suffix)| <= MAX_SLUG_LENGTH - 2
  {
    var digits, head := Decimal(suffix), AppendedHead(base, suffix);
    AppendedShape(base, suffix);
    AppendedHeadFits(base, suffix);
    if head != "" {
      JoinIsWellFormed(head, digits);
    } else {
      assert ("" + "-" + digits)[0] == '-';
    }
  }

  lemma AppendedShape(base: string, suffix: nat)
    ensures AppendSlugSuffix(base, suffix) == AppendedHead(base, suffix) + "-" + Decimal(suffix)
  {
  }

  /** The head is a well-formed slug that leaves room for the suffix, or empty, or the suffix alone is too long. */
  lemma AppendedHeadFits(base: string, suffix: nat)
    requires WellFormed(base) && |base| <= MAX_SLUG_LENGTH
    ensures var head, n := AppendedHead(base, suffix), |Decimal(suffix)|;
      && (n <= MAX_SLUG_LENGTH - 2 ==> WellFormed(head) && |head| + 1 + n <= MAX_SLUG_LENGTH)
      && (n == MAX_SLUG_LENGTH - 1 ==> head == "")
      && (head != "" ==> WellFormed(head))
  {
    var cut := Prefix(base, MAX_SLUG_LENGTH - 1 - |Decimal(suffix)|);
    if cut != "" {
      TrimmedPrefixIsWellFormed(base, cut);
    }
  }

  lemma JoinIsWellFormed(left: string, digits: string)
    requires WellFormed(left) && digits != ""
    requires IsDigits(digits)
    ensures WellFormed(left + "-" + digits)
  {
    var r := left + "-" + digits;
    assert forall i :: 0 <= i < |left| ==> r[i] == left[i];
    assert forall i :: |left| < i < |r| ==> r[i] == digits[i - |left| - 1];
  }

  /** The suffix is put behind the whole base if there is room; otherwise the base is cut no more than it must be. */
  lemma AppendKeepsBase(base: string, suffix: nat) returns (head: string)
    requires WellFormed(base) && |Decimal(suffix)| <= MAX_SLUG_LENGTH - 2
    ensures AppendSlugSuffix(base, suffix) == head + "-" + Decimal(suffix) && head <= base
    ensures |base| + 1 + |Decimal(suffix)| <= MAX_SLUG_LENGTH ==> head == base
    ensures |base| + 1 + |Decimal(suffix)| > MAX_SLUG_LENGTH ==>
      MAX_SLUG_LENGTH - 1 <= |AppendSlugSuffix(base, suffix)| <= MAX_SLUG_LENGTH
  {
    var cut := Prefix(base, MAX_SLUG_LENGTH - 1 - |Decimal(suffix)|);
    head := AppendedHead(base, suffix);
    AppendedShape(base, suffix);
    assert head <= cut <= base;
    NoTwoHyphens(base, |head|);
  }

  lemma SameTail(x: string, d: string, y: string, e: string, r: string)
    requires r == x + ("-" + d) == y + ("-" + e)
    requires '-' !in d && '-' !in e
    ensures d == e
  {
    assert r[|x|] == '-' && r[|x| + 1..] == d;
    assert r[|y|] == '-' && r[|y| + 1..] == e;
    assert forall k :: |x| < k < |r| ==> r[k] == d[k - |x| - 1];
    assert forall k :: |y| < k < |r| ==> r[k] == e[k - |y| - 1];
  }

  /** Different counters give different slugs, whatever the base: the digits follow the last hyphen. */
  lemma AppendIsInjective(base: string, i: nat, j: nat)
    requires AppendSlugSuffix(base, i) == AppendSlugSuffix(base, j)
    ensures i == j
  {
    SameTail(AppendedHead(base, i), Decimal(i), AppendedHead(base, j), Decimal(j), AppendSlugSuffix(base, i));
    DecimalRoundTrip(i);
    DecimalRoundTrip(j);
  }

  // ----- what a request may ask for

  /** The slug of a creation request as the schema passes it on; a blank one counts as none. */
  function NormalizeSlug(lower: string -> string, slug: Option<string>): Option<string> {
    match slug
    case None => None
    case Some(value) => if lower(Strip(value)) == "" then None else Some(lower(Strip(value)))
  }

  /** White space around a requested slug does not matter, and a blank one counts as none. */
  lemma NormalizeExactly(lower: string -> string, before: string, core: string, after: string)
    requires AllSpace(before) && AllSpace(after)
    requires core != "" ==> !IsPythonSpace(core[0]) && !IsPythonSpace(core[|core| - 1])
    ensures NormalizeSlug(lower, Some(before + (core + after))) == if lower(core) == "" then None else Some(lower(core))
  {
    StripExactly(before, core, after);
  }

  /** What is known of lowering: it puts no line feed at the end of a text that has none there. */
  ghost predicate LowersNoLineFeed(lower: string -> string) {
    forall s :: (s == "" || s[|s| - 1] != '\n') ==> lower(s) == "" || lower(s)[|lower(s)| - 1] != '\n'
  }

  /** On what the schema passes on, validation accepts the well-formed slugs and nothing else. */
  lemma NormalizedValidExactly(lower: string -> string, slug: Option<string>)
    requires LowersNoLineFeed(lower) && NormalizeSlug(lower, slug).Some?
    ensures var value := NormalizeSlug(lower, slug).value;
      IsValidSlug(value) <==> WellFormed(value) && |value| <= MAX_SLUG_LENGTH
  {
    var stripped := Strip(slug.value);
    assert stripped == "" || stripped[|stripped| - 1] != '\n';
    ValidExactly(NormalizeSlug(lower, slug).value);
  }

  // ----- resolution

  datatype SlugError = InvalidSlug | DuplicateSlug

  /** The slug tried in the n-th lookup: the base, then the base with suffix 2, 3, ... */
  function Candidate(base: string, n: nat): string {
    if n <= 1 then base else AppendSlugSuffix(base, n)
  }

  /** The first `n` lookups all hit. */
  ghost predicate AllTaken(base: string, existing: set<string>, n: nat) {
    forall i :: 1 <= i <= n ==> Candidate(base, i) in existing
  }

  /** The n-th lookup is the first one that finds a free slug. */
  ghost predicate FirstFree(base: string, existing: set<string>, n: nat) {
    n >= 1 && Candidate(base, n) !in existing && AllTaken(base, existing, n - 1)
  }

  ghost function Suffixed(base: string, n: nat): set<string> {
    set i: nat | 2 <= i <= n :: AppendSlugSuffix(base, i)
  }

  lemma {:induction false} SuffixedSize(base: string, n: nat)
    requires n >= 1
    ensures |Suffixed(base, n)| == n - 1
  {
    if n == 1 {
      assert Suffixed(base, 1) == {};
    } else {
      SuffixedSize(base, n - 1);
      SuffixedNext(base, n);
    }
  }

  lemma SuffixedNext(base: string, n: nat)
    requires n >= 2
    ensures AppendSlugSuffix(base, n) !in Suffixed(base, n - 1)
    ensures Suffixed(base, n) == Suffixed(base, n - 1) + {AppendSlugSuffix(base, n)}
  {
    if AppendSlugSuffix(base, n) in Suffixed(base, n - 1) {
      var i: nat :| 2 <= i <= n - 1 && AppendSlugSuffix(base, i) == AppendSlugSuffix(base, n);
      AppendIsInjective(base, i, n);
    }
  }

  lemma {:induction false} SubsetSize<T>(a: set<T>, b: set<T>)
    requires a <= b
    ensures |a| <= |b|
  {
    if a != {} {
      var x :| x in a;
      SubsetSize(a - {x}, b - {x});
    }
  }

  /** Pigeonhole: lookups that all hit are bounded by the number of existing slugs. */
  lemma HitsAreBounded(base: string, existing: set<string>, n: nat)
    requires n >= 1 && AllTaken(base, existing, n)
    ensures n <= |existing| + 1
    ensures (forall i :: 2 <= i <= n ==> AppendSlugSuffix(base, i) != base) ==> n <= |existing|
  {
    var suffixed := Suffixed(base, n);
    SuffixedSize(base, n);
    forall s | s in suffixed
      ensures s in existing
    {
      var i: nat :| 2 <= i <= n && s == AppendSlugSuffix(base, i);
      assert s == Candidate(base, i);
    }
    SubsetSize(suffixed, existing);
    if forall i :: 2 <= i <= n ==> AppendSlugSuffix(base, i) != base {
      assert base == Candidate(base, 1);
      assert base !in suffixed;
      SubsetSize(suffixed + {base}, existing);
    }
  }

  /** What resolution answers, and after how many lookups. */
  ghost predicate Resolves(cleanedName: string, slug: Option<string>, existing: set<string>,
      r: Result<string, SlugError>, lookups: nat)
  {
    match slug
    case Some(value) =>
      r == if !IsValidSlug(value) then Err(InvalidSlug) else if value in existing then Err(DuplicateSlug) else Ok(value)
    case None =>
      var base := GenerateSlug(cleanedName);
      FirstFree(base, existing, lookups) && r == Ok(Candidate(base, lookups))
  }

  /** Resolves the slug of a new workspace against the slugs in use. */
  method ResolveSlug(cleanedName: string, slug: Option<string>, existing: set<string>)
    returns (r: Result<string, SlugError>, ghost lookups: nat)
    ensures Resolves(cleanedName, slug, existing, r, lookups)
  {
    lookups := 0;
    if slug.Some? {
      if !IsValidSlug(slug.value) {
        return Err(InvalidSlug), 0;
      }
      if slug.value in existing {
        return Err(DuplicateSlug), 1;
      }
      return Ok(slug.value), 1;
    }
    var baseSlug := GenerateSlug(cleanedName);
    var resolved := baseSlug;
    var counter := 2;
    while resolved in existing
      invariant counter >= 2
      invariant resolved == Candidate(baseSlug, counter - 1)
      invariant AllTaken(baseSlug, existing, counter - 2)
      decreases |existing| + 3 - counter
    {
      HitsAreBounded(baseSlug, existing, counter - 1);
      resolved := AppendSlugSuffix(baseSlug, counter);
      counter := counter + 1;
    }
    return Ok(resolved), counter - 1;
  }

  /**
   What resolution promises: after at most |existing| + 2 lookups an unused slug is found, and
   it is a legal slug unless there are more workspaces than a suffix can count.
   */
  lemma ResolvedSlug(cleanedName: string, existing: set<string>, lookups: nat)
    requires FirstFree(GenerateSlug(cleanedName), existing, lookups)
    ensures lookups <= |existing| + 2
    ensures Candidate(GenerateSlug(cleanedName), lookups) !in existing
    ensures |existing| + 2 < Pow10(126) ==>
      var slug := Candidate(GenerateSlug(cleanedName), lookups);
      WellFormed(slug) && |slug| <= MAX_SLUG_LENGTH
  {
    var base := GenerateSlug(cleanedName);
    GenerateIsWellFormed(cleanedName);
    if lookups >= 2 {
      HitsAreBounded(base, existing, lookups - 1);
      AppendIsWellFormed(base, lookups);
      DecimalLength(lookups, MAX_SLUG_LENGTH - 2);
    }
  }

  /** Asked for or derived, the slug of a new workspace is unused, well formed and at most 128 long. */
  lemma ResolutionIsLegal(lower: string -> string, cleanedName: string, requested: Option<string>,
      existing: set<string>, slug: string, lookups: nat)
    requires LowersNoLineFeed(lower) && |existing| + 2 < Pow10(126)
    requires Resolves(cleanedName, NormalizeSlug(lower, requested), existing, Ok(slug), lookups)
    ensures slug !in existing && WellFormed(slug) && |slug| <= MAX_SLUG_LENGTH
  {
    if NormalizeSlug(lower, requested).Some? {
      NormalizedValidExactly(lower, requested);
    } else {
      ResolvedSlug(cleanedName, existing, lookups);
    }
  }

  /** A decimal numeral of a number from 2 on. */
  predicate IsCounter(s: string) {
    s != "" && IsDigits(s) && s[0] != '0' && s != "1"
  }

  /** The base fills the length limit, or all but one of it, and ends in a hyphen and a counter. */
  predicate EndsInCounter(base: string) {
    |base| >= MAX_SLUG_LENGTH - 1 && exists k :: 0 < k < |base| - 1 && base[k] == '-' && IsCounter(base[k + 1..])
  }

  /**
   The expected bound of |existing| + 1 lookups holds for every set of existing slugs exactly
   when the base does not end in a counter at the length limit.
   */
  lemma LookupBoundExact(base: string)
    requires WellFormed(base) && |base| <= MAX_SLUG_LENGTH
    ensures (forall existing: set<string>, n: nat :: FirstFree(base, existing, n) ==> n <= |existing| + 1)
       <==> !EndsInCounter(base)
  {
    if EndsInCounter(base) {
      var c := CounterGivesBase(base);
      SelfSuffixCostsALookup(base, c);
    } else {
      forall existing: set<string>, n: nat | FirstFree(base, existing, n)
        ensures n <= |existing| + 1
      {
        if n >= 2 {
          forall i | 2 <= i <= n - 1
            ensures AppendSlugSuffix(base, i) != base
          {
            if AppendSlugSuffix(base, i) == base {
              BaseEndsInCounter(base, i);
            }
          }
          HitsAreBounded(base, existing, n - 1);
        }
      }
    }
  }

  lemma SelfSuffixCostsALookup(base: string, c: nat)
    requires c >= 2 && AppendSlugSuffix(base, c) == base
    ensures FirstFree(base, Suffixed(base, c), c + 1) && c + 1 == |Suffixed(base, c)| + 2
  {
    SuffixedSize(base, c);
    forall i | 1 <= i < c + 1
      ensures Candidate(base, i) in Suffixed(base, c)
    {
      assert Candidate(base, i) == AppendSlugSuffix(base, if i == 1 then c else i);
    }
    if Candidate(base, c + 1) in Suffixed(base, c) {
      var i: nat :| 2 <= i <= c && AppendSlugSuffix(base, c + 1) == AppendSlugSuffix(base, i);
      AppendIsInjective(base, c + 1, i);
    }
  }

  /** Only a base at the length limit, or one short of it, can be its own suffixed form. */
  lemma SelfSuffixIsLong(base: string, c: nat)
    requires AppendSlugSuffix(base, c) == base
    ensures |base| >= MAX_SLUG_LENGTH - 1
  {
    var digits, head := Decimal(c), AppendedHead(base, c);
    AppendedShape(base, c);
    assert base[|head| + 1] == digits[0] != '-';
  }

  /** Such a base ends in its counter. */
  lemma BaseEndsInCounter(base: string, c: nat)
    requires WellFormed(base) && c >= 2 && AppendSlugSuffix(base, c) == base
    ensures EndsInCounter(base)
  {
    var k := |AppendedHead(base, c)|;
    SelfSuffixIsLong(base, c);
    AppendedShape(base, c);
    assert base[k] == '-' && base[k + 1..] == Decimal(c);
    NoLeadingZero(c);
    DecimalRoundTrip(c);
    OneDigit(1);
    assert IsCounter(base[k + 1..]);
  }

  /** And a base that ends in a counter is its own suffixed form for that counter. */
  lemma CounterGivesBase(base: string) returns (c: nat)
    requires WellFormed(base) && |base| <= MAX_SLUG_LENGTH && EndsInCounter(base)
    ensures c >= 2 && AppendSlugSuffix(base, c) == base
  {
    var k :| 0 < k < |base| - 1 && base[k] == '-' && IsCounter(base[k + 1..]);
    c := CounterValue(base[k + 1..]);
    CounterBehindHyphen(base, k, c);
  }

  lemma CounterValue(digits: string) returns (c: nat)
    requires IsCounter(digits)
    ensures c >= 2 && Decimal(c) == digits
  {
    c := Value(digits);
    DecimalOfValue(digits);
    OneDigit(1);
  }

  lemma CounterBehindHyphen(base: string, k: nat, c: nat)
    requires WellFormed(base) && MAX_SLUG_LENGTH - 1 <= |base| <= MAX_SLUG_LENGTH
    requires 0 < k < |base| && base[k] == '-' && Decimal(c) == base[k + 1..]
    ensures AppendSlugSuffix(base, c) == base
  {
    TrimToHead(base, k, MAX_SLUG_LENGTH - 1 - |Decimal(c)|);
    AppendedShape(base, c);
    SplitAtHyphen(base, k);
  }

  lemma SplitAtHyphen(s: string, k: nat)
    requires k < |s| && s[k] == '-'
    ensures s[..k] + "-" + s[k + 1..] == s
  {
    assert "-" == [s[k]];
  }

  /** Cutting a well-formed slug in front of or behind a hyphen leaves what is in front of it. */
  lemma TrimToHead(base: string, k: nat, n: nat)
    requires WellFormed(base) && 0 < k < |base| && base[k] == '-' && (n == k || n == k + 1)
    ensures TrimRight(Prefix(base, n)) == base[..k]
  {
    var cut := Prefix(base, n);
    var trimmed := TrimRight(cut);
    assert cut == base[..n] && base[k - 1] != '-';
    assert |trimmed| <= k ==> trimmed == base[..|trimmed|];
  }

  /** Such a base exists: 126 letters and `-2`. */
  lemma SelfSuffixExists(base: string)
    requires base == seq(126, _ => 'x') + "-2"
    ensures WellFormed(base) && |base| == MAX_SLUG_LENGTH && AppendSlugSuffix(base, 2) == base
  {
    assert Decimal(2) == "2";
    assert Prefix(base, 126) == seq(126, _ => 'x');
  }
}
