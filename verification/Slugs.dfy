/** Organisation slugs: the normaliser and the numbered candidates of the uniqueness search. */
module Slugs {
  import opened Text

  predicate IsWord(c: char) {
    IsLowerLetter(c) || IsUpperLetter(c) || IsDigit(c) || c == '_'
  }

  predicate IsBreak(c: char) { IsSpace(c) || c == '_' || c == '-' }

  predicate IsDash(c: char) { c == '-' }

  /** `re.sub(r"[^\w\s-]", "", s)` */
  function DropOthers(s: string): (r: string)
    ensures forall i :: 0 <= i < |r| ==> IsWord(r[i]) || IsBreak(r[i])
    ensures (forall i :: 0 <= i < |s| ==> !IsUpperLetter(s[i])) ==> forall i :: 0 <= i < |r| ==> !IsUpperLetter(r[i])
  {
    if s == "" then ""
    else if IsWord(s[0]) || IsBreak(s[0]) then [s[0]] + DropOthers(s[1..])
    else DropOthers(s[1..])
  }

  /** `re.sub(r"[\s_-]+", "-", s)`: a dash stands for each maximal run of breaks. */
  function CollapseBreaks(s: string): string {
    if s == "" then ""
    else if !IsBreak(s[0]) then [s[0]] + CollapseBreaks(s[1..])
    else if |s| > 1 && IsBreak(s[1]) then CollapseBreaks(s[1..])
    else ['-'] + CollapseBreaks(s[1..])
  }

  /** `_slugify` */
  function Slugify(name: string): string {
    StripBoth(CollapseBreaks(DropOthers(Strip(Lower(name)))), IsDash)
  }

  predicate IsSlugChar(c: char) { IsLowerLetter(c) || IsDigit(c) || c == '-' }

  ghost predicate NoDoubleDash(s: string) {
    forall i, j :: 0 <= i < |s| && 0 <= j < |s| && j == i + 1 ==> s[i] != '-' || s[j] != '-'
  }

  /** Lower-case letters and digits, in groups separated by single dashes. */
  ghost predicate IsSlug(s: string) {
    && (forall i :: 0 <= i < |s| ==> IsSlugChar(s[i]))
    && NoDoubleDash(s)
    && (s != "" ==> s[0] != '-' && s[|s| - 1] != '-')
  }

  lemma {:induction false} CollapsedShape(s: string)
    requires forall i :: 0 <= i < |s| ==> !IsUpperLetter(s[i]) && (IsWord(s[i]) || IsBreak(s[i]))
    ensures var r := CollapseBreaks(s);
      && (forall i :: 0 <= i < |r| ==> IsSlugChar(r[i]))
      && NoDoubleDash(r)
      && (s != "" && !IsBreak(s[0]) ==> r != "" && r[0] != '-')
  {
    if s == "" {
    } else {
      CollapsedShape(s[1..]);
    }
  }

  lemma {:induction false} StripGivesSlug(s: string)
    requires forall i :: 0 <= i < |s| ==> IsSlugChar(s[i])
    requires NoDoubleDash(s)
    ensures IsSlug(StripBoth(s, IsDash))
  {
    var a := StripIsSlice(s, IsDash);
    var r := StripBoth(s, IsDash);
    assert forall i :: 0 <= i < |r| ==> r[i] == s[a + i];
  }

  lemma {:induction false} LowerStripped(name: string)
    ensures var r := Strip(Lower(name)); forall i :: 0 <= i < |r| ==> !IsUpperLetter(r[i])
  {
    var lower := Lower(name);
    assert forall i :: 0 <= i < |lower| ==> !IsUpperLetter(lower[i]);
    var a := StripIsSlice(lower, IsSpace);
  }

  /** Every name is turned into a slug. */
  lemma {:induction false} SlugifyGivesSlug(name: string)
    ensures IsSlug(Slugify(name))
  {
    LowerStripped(name);
    CollapsedShape(DropOthers(Strip(Lower(name))));
    StripGivesSlug(CollapseBreaks(DropOthers(Strip(Lower(name)))));
  }

  lemma {:induction false} SlugSurvivesCleaning(s: string)
    requires forall i :: 0 <= i < |s| ==> IsSlugChar(s[i])
    requires NoDoubleDash(s)
    ensures DropOthers(s) == s && CollapseBreaks(s) == s
  {
    if s == "" {
    } else {
      SlugSurvivesCleaning(s[1..]);
      assert s == [s[0]] + s[1..];
    }
  }

  /** The slugs are exactly the names the normaliser leaves alone, so it is idempotent. */
  lemma {:induction false} SlugifyFixedPoints(s: string)
    ensures IsSlug(s) <==> Slugify(s) == s
    ensures Slugify(Slugify(s)) == Slugify(s)
  {
    SlugifyGivesSlug(s);
    FixedPoint(Slugify(s));
    if IsSlug(s) { FixedPoint(s); }
  }

  lemma {:induction false} LowerKeepsSlug(s: string)
    requires forall i :: 0 <= i < |s| ==> IsSlugChar(s[i])
    ensures Lower(s) == s
  {
  }

  lemma {:induction false} FixedPoint(s: string)
    requires IsSlug(s)
    ensures Slugify(s) == s
  {
    hide StripBoth, DropOthers, CollapseBreaks;
    LowerKeepsSlug(s);
    SlugSurvivesCleaning(s);
    assert s != "" ==> IsSlugChar(s[0]) && IsSlugChar(s[|s| - 1]);
    assert Strip(s) == s;
  }

  /** The k-th slug the uniqueness search tries. */
  function Candidate(base: string, k: nat): string {
    if k == 0 then base else base + "-" + Decimal(k)
  }

  /** The base itself, then the base, a dash and the suffix in plain decimals. */
  lemma {:induction false} CandidateIs(base: string, k: nat)
    ensures var c, n := Candidate(base, k), |base|;
      if k == 0 then c == base
      else
        && |c| > n + 1 && c[..n] == base && c[n] == '-' && c[n + 1] != '0'
        && (forall i :: n < i < |c| ==> IsDigit(c[i]))
        && DecimalValue(c[n + 1..]) == k
  {
    if k > 0 {
      var c, n := Candidate(base, k), |base|;
      DecimalRoundTrip(k);
      NoLeadingZero(k);
      assert c[n + 1..] == Decimal(k) && c[..n] == base;
      assert forall i :: n < i < |c| ==> c[i] == Decimal(k)[i - n - 1];
      hide Decimal, DecimalValue;
    }
  }

  lemma {:induction false} CandidatesDiffer(base: string, j: nat, k: nat)
    requires j != k
    ensures Candidate(base, j) != Candidate(base, k)
  {
    DecimalRoundTrip(j);
    DecimalRoundTrip(k);
    if j > 0 && k > 0 {
      assert Candidate(base, j)[|base| + 1..] == Decimal(j);
      assert Candidate(base, k)[|base| + 1..] == Decimal(k);
    }
  }

  ghost function FirstCandidates(base: string, n: nat): set<string> {
    if n == 0 then {} else FirstCandidates(base, n - 1) + {Candidate(base, n - 1)}
  }

  lemma {:induction false} FirstCandidatesCount(base: string, n: nat, taken: set<string>)
    requires forall k :: 0 <= k < n ==> Candidate(base, k) in taken
    ensures FirstCandidates(base, n) <= taken && |FirstCandidates(base, n)| == n
  {
    if n == 0 {
    } else {
      FirstCandidatesCount(base, n - 1, taken);
      NotAmongFirst(base, n - 1, n - 1);
    }
  }

  lemma {:induction false} NotAmongFirst(base: string, n: nat, m: nat)
    requires n <= m
    ensures Candidate(base, m) !in FirstCandidates(base, n)
  {
    if n == 0 {
    } else {
      NotAmongFirst(base, n - 1, m);
      CandidatesDiffer(base, n - 1, m);
    }
  }

  /** Pigeonhole: N stored slugs cannot cover the first N + 1 candidates. */
  lemma {:induction false} SomeCandidateFree(base: string, taken: set<string>, n: nat)
    requires forall k :: 0 <= k < n ==> Candidate(base, k) in taken
    ensures n <= |taken|
  {
    FirstCandidatesCount(base, n, taken);
    CardinalityMonotone(FirstCandidates(base, n), taken);
  }

  lemma {:induction false} CardinalityMonotone<T>(a: set<T>, b: set<T>)
    requires a <= b
    ensures |a| <= |b|
  {
    if a == {} {
    } else {
      var x :| x in a;
      CardinalityMonotone(a - {x}, b - {x});
    }
  }

  /** The least free number at or after `k`: what the search loop computes. */
  function SearchFrom(base: string, taken: set<string>, k: nat): (n: nat)
    requires forall j :: 0 <= j < k ==> Candidate(base, j) in taken
    ensures Candidate(base, n) !in taken
    ensures forall j :: 0 <= j < n ==> Candidate(base, j) in taken
    ensures n <= |taken|
    decreases |taken| - k
  {
    SomeCandidateFree(base, taken, k);
    if Candidate(base, k) !in taken then k
    else
      SomeCandidateFree(base, taken, k + 1);
      SearchFrom(base, taken, k + 1)
  }

  function UniqueSlug(base: string, taken: set<string>): string {
    Candidate(base, SearchFrom(base, taken, 0))
  }

  lemma {:induction false} DecimalIsSlug(n: nat)
    ensures IsSlug(Decimal(n))
  {
    var s := Decimal(n);
    assert forall i :: 0 <= i < |s| ==> IsDigit(s[i]);
  }

  lemma {:induction false} JoinedIsSlug(base: string, d: string)
    requires IsSlug(base) && base != "" && IsSlug(d) && d != ""
    ensures IsSlug(base + "-" + d)
  {
    var c := base + "-" + d;
    assert forall i :: 0 <= i < |base| ==> c[i] == base[i];
    assert c[|base|] == '-';
    assert forall i :: |base| < i < |c| ==> c[i] == d[i - |base| - 1];
  }

  /** The allotted slug is in normal form unless the base is empty and already taken ("-1", "-2", ...). */
  lemma {:induction false} UniqueSlugIsSlug(name: string, taken: set<string>)
    ensures IsSlug(UniqueSlug(Slugify(name), taken)) <==> (Slugify(name) != "" || "" !in taken)
  {
    var base := Slugify(name);
    SlugifyGivesSlug(name);
    var n := SearchFrom(base, taken, 0);
    if n > 0 {
      assert Candidate(base, 0) in taken;
      DecimalIsSlug(n);
      if base == "" {
        assert Candidate(base, n)[0] == '-';
      } else {
        JoinedIsSlug(base, Decimal(n));
      }
    }
  }
}
