/** The string operations the services use, on ASCII text. */
module Text {

  /** What `str.strip` and `\s` treat as whitespace among the ASCII characters. */
  predicate IsSpace(c: char) {
    9 as char <= c <= 13 as char || 28 as char <= c <= 32 as char
  }

  predicate IsLowerLetter(c: char) { 'a' <= c <= 'z' }

  predicate IsUpperLetter(c: char) { 'A' <= c <= 'Z' }

  predicate IsDigit(c: char) { '0' <= c <= '9' }

  function LowerChar(c: char): char {
    if IsUpperLetter(c) then (c as int + 32) as char else c
  }

  function UpperChar(c: char): char {
    if IsLowerLetter(c) then (c as int - 32) as char else c
  }

  function Lower(s: string): (r: string)
    ensures |r| == |s|
    ensures forall i :: 0 <= i < |s| ==> r[i] == LowerChar(s[i])
  {
    seq(|s|, i requires 0 <= i < |s| => LowerChar(s[i]))
  }

  function Upper(s: string): (r: string)
    ensures |r| == |s|
    ensures forall i :: 0 <= i < |s| ==> r[i] == UpperChar(s[i])
  {
    seq(|s|, i requires 0 <= i < |s| => UpperChar(s[i]))
  }

  function StripLeft(s: string, drop: char -> bool): (r: string)
    ensures |r| <= |s|
    ensures r != "" ==> !drop(r[0])
  {
    if s != "" && drop(s[0]) then StripLeft(s[1..], drop) else s
  }

  function StripRight(s: string, drop: char -> bool): (r: string)
    ensures |r| <= |s|
    ensures r != "" ==> !drop(r[|r| - 1]) && r[0] == s[0]
  {
    if s != "" && drop(s[|s| - 1]) then StripRight(s[..|s| - 1], drop) else s
  }

  /** `str.strip` with a set of characters to remove at both ends. */
  function StripBoth(s: string, drop: char -> bool): (r: string)
    ensures r != "" ==> !drop(r[0]) && !drop(r[|r| - 1])
    ensures |r| <= |s|
    ensures (s == "" || (!drop(s[0]) && !drop(s[|s| - 1]))) ==> r == s
  {
    StripRight(StripLeft(s, drop), drop)
  }

  lemma {:induction false} StripLeftIsSuffix(s: string, drop: char -> bool)
    ensures StripLeft(s, drop) == s[|s| - |StripLeft(s, drop)|..]
  {
    if s != "" && drop(s[0]) { StripLeftIsSuffix(s[1..], drop); }
  }

  lemma {:induction false} StripRightIsPrefix(s: string, drop: char -> bool)
    ensures StripRight(s, drop) == s[..|StripRight(s, drop)|]
  {
    if s != "" && drop(s[|s| - 1]) { StripRightIsPrefix(s[..|s| - 1], drop); }
  }

  lemma {:induction false} StripIsSlice(s: string, drop: char -> bool) returns (a: nat)
    ensures var r := StripBoth(s, drop); a + |r| <= |s| && r == s[a..a + |r|]
  {
    var l := StripLeft(s, drop);
    a := |s| - |l|;
    var r := StripBoth(s, drop);
    StripLeftIsSuffix(s, drop);
    StripRightIsPrefix(l, drop);
    assert r == l[..|r|] == s[a..][..|r|];
  }

  ghost predicate All(s: string, p: char -> bool) {
    forall i :: 0 <= i < |s| ==> p(s[i])
  }

  lemma {:induction false} StripLeftExact(w: string, x: string, drop: char -> bool)
    requires All(w, drop) && (x == "" || !drop(x[0]))
    ensures StripLeft(w + x, drop) == x
  {
    if w == "" {
      assert w + x == x;
    } else {
      assert (w + x)[1..] == w[1..] + x && (w + x)[0] == w[0];
      StripLeftExact(w[1..], x, drop);
    }
  }

  lemma {:induction false} StripRightExact(x: string, v: string, drop: char -> bool)
    requires All(v, drop) && (x == "" || !drop(x[|x| - 1]))
    ensures StripRight(x + v, drop) == x
  {
    if v == "" {
      assert x + v == x;
    } else {
      var s := x + v;
      assert s[..|s| - 1] == x + v[..|v| - 1] && s[|s| - 1] == v[|v| - 1];
      StripRightExact(x, v[..|v| - 1], drop);
    }
  }

  /** Stripping removes exactly the droppable characters at both ends. */
  lemma {:induction false} StripExact(w: string, x: string, v: string, drop: char -> bool)
    requires All(w, drop) && All(v, drop)
    requires x != "" && !drop(x[0]) && !drop(x[|x| - 1])
    ensures StripBoth(w + x + v, drop) == x
  {
    assert w + x + v == w + (x + v);
    hide All;
    StripLeftExact(w, x + v, drop);
    StripRightExact(x, v, drop);
  }

  lemma {:induction false} StripLeftRemoves(s: string, drop: char -> bool)
    ensures All(s[..|s| - |StripLeft(s, drop)|], drop)
  {
    if s == "" || !drop(s[0]) {
    } else {
      StripLeftRemoves(s[1..], drop);
      var n := |s| - |StripLeft(s, drop)|;
      assert s[1..][..n - 1] == s[1..n];
      assert forall i :: 1 <= i < n ==> s[i] == s[1..n][i - 1];
    }
  }

  lemma {:induction false} StripRightRemoves(s: string, drop: char -> bool)
    ensures All(s[|StripRight(s, drop)|..], drop)
  {
    if s == "" || !drop(s[|s| - 1]) {
    } else {
      var before := s[..|s| - 1];
      StripRightRemoves(before, drop);
      var n := |StripRight(s, drop)|;
      assert s[n..] == before[n..] + [s[|s| - 1]];
    }
  }

  /** What stripping took off at either end. */
  lemma {:induction false} StripParts(s: string, drop: char -> bool) returns (w: string, v: string)
    ensures s == w + StripBoth(s, drop) + v && All(w, drop) && All(v, drop)
  {
    var l := StripLeft(s, drop);
    StripLeftIsSuffix(s, drop);
    StripLeftRemoves(s, drop);
    StripRightIsPrefix(l, drop);
    StripRightRemoves(l, drop);
    w, v := s[..|s| - |l|], l[|StripRight(l, drop)|..];
    hide All;
    assert l == StripRight(l, drop) + v;
    assert s == w + l;
  }

  lemma {:induction false} StripAll(s: string, drop: char -> bool)
    requires All(s, drop)
    ensures StripBoth(s, drop) == ""
  {
    assert s + "" == s;
    StripLeftExact(s, "", drop);
  }

  function Strip(s: string): string {
    StripBoth(s, IsSpace)
  }

  function DigitChar(d: nat): (c: char)
    requires d < 10
    ensures IsDigit(c) && c as int - '0' as int == d
  {
    ('0' as int + d) as char
  }

  /** The decimal rendering of a number. */
  function Decimal(n: nat): (s: string)
    ensures s != "" && forall i :: 0 <= i < |s| ==> IsDigit(s[i])
  {
    if n < 10 then [DigitChar(n)] else Decimal(n / 10) + [DigitChar(n % 10)]
  }

  function DecimalValue(s: string): int {
    if s == "" then 0
    else 10 * DecimalValue(s[..|s| - 1]) + (s[|s| - 1] as int - '0' as int)
  }

  lemma {:induction false} NoLeadingZero(n: nat)
    requires n > 0
    ensures Decimal(n)[0] != '0'
  {
    if n < 10 {
    } else {
      NoLeadingZero(n / 10);
    }
  }

  /** Reading a rendered number back gives the number, so rendering is injective. */
  lemma {:induction false} DecimalRoundTrip(n: nat)
    ensures DecimalValue(Decimal(n)) == n
  {
    var s := Decimal(n);
    if n < 10 {
      assert s[..|s| - 1] == "";
    } else {
      assert s[..|s| - 1] == Decimal(n / 10);
      DecimalRoundTrip(n / 10);
    }
  }
}
