/** What the slug normaliser does to the words of a name. */
module SlugWords {
  import opened Text
  import opened Slugs

  /** The breaks: ASCII whitespace with its separator controls, underscore and dash. */
  lemma {:induction false} BreaksAre(c: char)
    ensures IsBreak(c) <==>
      c == '_' || c == '-' || c == ' ' || c == '\t' || c == '\n' || c == '\r' || c as int in {11, 12, 28, 29, 30, 31}
  {
    assert '\t' as int == 9 && '\n' as int == 10 && '\r' as int == 13;
  }

  lemma {:induction false} DropConcat(a: string, b: string)
    ensures DropOthers(a + b) == DropOthers(a) + DropOthers(b)
  {
    if a == "" {
      assert a + b == b;
    } else {
      assert (a + b)[1..] == a[1..] + b && (a + b)[0] == a[0];
      DropConcat(a[1..], b);
    }
  }

  lemma {:induction false} DropKeepsBreaks(w: string)
    requires All(w, IsBreak)
    ensures DropOthers(w) == w && Lower(w) == w
  {
    if w == "" {
    } else {
      DropKeepsBreaks(w[1..]);
      assert w == [w[0]] + w[1..];
      assert forall i :: 0 <= i < |w| ==> LowerChar(w[i]) == w[i];
    }
  }

  /** The text between the first and the last character that is no break. */
  function Core(s: string): string { StripBoth(s, IsBreak) }

  lemma {:induction false} AllConcat(a: string, b: string, p: char -> bool)
    requires All(a, p) && All(b, p)
    ensures All(a + b, p)
  {
  }

  lemma {:induction false} CoreIgnores(w: string, m: string, v: string)
    requires All(w, IsBreak) && All(v, IsBreak)
    ensures Core(w + m + v) == Core(m)
  {
    var p, q := StripParts(m, IsBreak);
    var c := Core(m);
    assert w + m + v == (w + p) + c + (q + v);
    AllConcat(w, p, IsBreak);
    AllConcat(q, v, IsBreak);
    hide All;
    if c == "" {
      assert (w + p) + c + (q + v) == (w + p) + (q + v);
      AllConcat(w + p, q + v, IsBreak);
      StripAll((w + p) + (q + v), IsBreak);
    } else {
      StripExact(w + p, c, q + v, IsBreak);
    }
  }

  /** Text that ends in no break is collapsed apart from what follows it. */
  lemma {:induction false} CollapseSplit(x: string, rest: string)
    requires x == "" || !IsBreak(x[|x| - 1])
    ensures CollapseBreaks(x + rest) == CollapseBreaks(x) + CollapseBreaks(rest)
  {
    if x == "" {
      assert x + rest == rest;
    } else {
      var all := x + rest;
      assert all[1..] == x[1..] + rest && all[0] == x[0];
      assert |x| > 1 ==> all[1] == x[1];
      CollapseSplit(x[1..], rest);
      hide IsBreak;
    }
  }

  /** A run of breaks becomes one dash. */
  lemma {:induction false} CollapseRun(w: string, y: string)
    requires w != "" && All(w, IsBreak) && (y == "" || !IsBreak(y[0]))
    ensures CollapseBreaks(w + y) == "-" + CollapseBreaks(y)
  {
    var all := w + y;
    assert all[0] == w[0] && all[1..] == w[1..] + y;
    if |w| == 1 {
      assert w[1..] + y == y;
    } else {
      assert all[1] == w[1];
      CollapseRun(w[1..], y);
    }
  }

  lemma {:induction false} CollapseEnds(c: string)
    requires c != "" && !IsBreak(c[0]) && !IsBreak(c[|c| - 1])
    ensures var r := CollapseBreaks(c); r != "" && r[0] == c[0] && r[|r| - 1] == c[|c| - 1]
  {
    var last := c[|c| - 1..];
    assert c == c[..|c| - 1] + last;
    LastStays(c);
  }

  lemma {:induction false} LastStays(c: string)
    requires c != "" && !IsBreak(c[|c| - 1])
    ensures var r := CollapseBreaks(c); r != "" && r[|r| - 1] == c[|c| - 1]
  {
    if |c| == 1 {
      assert c[1..] == "";
    } else {
      LastStays(c[1..]);
    }
  }

  /** What a run of breaks, possibly empty, is collapsed to. */
  function Dash(w: string): string { if w == "" then "" else "-" }

  lemma {:induction false} RunBefore(w: string, y: string)
    requires All(w, IsBreak) && (y == "" || !IsBreak(y[0]))
    ensures CollapseBreaks(w + y) == Dash(w) + CollapseBreaks(y)
  {
    if w == "" {
      assert w + y == y;
      hide CollapseBreaks;
    } else {
      hide CollapseBreaks, All;
      CollapseRun(w, y);
    }
  }

  lemma {:induction false} RunAlone(w: string)
    requires All(w, IsBreak)
    ensures CollapseBreaks(w) == Dash(w) && StripBoth(Dash(w), IsDash) == ""
  {
    RunBefore(w, "");
    assert w + "" == w && CollapseBreaks("") == "" && Dash(w) + "" == Dash(w);
    StripAll(Dash(w), IsDash);
  }

  /** Trimming the dashes of collapsed text leaves the collapsed core. */
  lemma {:induction false} TrimIsCore(s: string)
    ensures StripBoth(CollapseBreaks(s), IsDash) == CollapseBreaks(Core(s))
  {
    if Core(s) == "" {
      CoreEnds(s);
      RunAlone(s);
    } else {
      TrimLeavesCore(s);
    }
  }

  lemma {:induction false} TrimLeavesCore(s: string)
    requires Core(s) != ""
    ensures StripBoth(CollapseBreaks(s), IsDash) == CollapseBreaks(Core(s))
  {
    CoreIs(s);
    hide *;
    var w, v := StripParts(s, IsBreak);
    var c := Core(s);
    CoreEnds(s);
    CollapseEnds(c);
    CollapseSplit(c, v);
    RunAlone(v);
    assert s == w + (c + v);
    RunBefore(w, c + v);
    TrimDashes(w, CollapseBreaks(c), v);
  }

  lemma {:induction false} TrimDashes(w: string, middle: string, v: string)
    requires middle != "" && !IsBreak(middle[0]) && !IsBreak(middle[|middle| - 1])
    ensures StripBoth(Dash(w) + (middle + Dash(v)), IsDash) == middle
  {
    assert Dash(w) + (middle + Dash(v)) == Dash(w) + middle + Dash(v);
    StripExact(Dash(w), middle, Dash(v), IsDash);
  }

  lemma {:induction false} CoreIs(s: string)
    ensures Core(s) == StripBoth(s, IsBreak)
  {
    hide StripBoth;
  }

  lemma {:induction false} CoreEnds(s: string)
    ensures var c := Core(s); c != "" ==> !IsBreak(c[0]) && !IsBreak(c[|c| - 1])
    ensures Core(s) == "" ==> All(s, IsBreak)
    ensures Core(s) == "" <==> CollapseBreaks(Core(s)) == ""
  {
    var w, v := StripParts(s, IsBreak);
    if Core(s) == "" {
      assert s == w + v;
    } else {
      CollapseEnds(Core(s));
    }
  }

  /** The characters a slug is made from. */
  function Kept(name: string): string { DropOthers(Lower(name)) }

  /** The first whitespace trimming makes no difference. */
  lemma {:induction false} SlugifyIs(name: string)
    ensures Slugify(name) == CollapseBreaks(Core(Kept(name)))
  {
    var t := Lower(name);
    var w, v := StripParts(t, IsSpace);
    var u := Strip(t);
    assert All(w, IsBreak) && All(v, IsBreak);
    DropKeepsBreaks(w);
    DropKeepsBreaks(v);
    DropConcat(w + u, v);
    DropConcat(w, u);
    hide *;
    CoreIgnores(w, DropOthers(u), v);
    TrimIsCore(DropOthers(u));
    Unfolded(name);
  }

  lemma {:induction false} Unfolded(name: string)
    ensures Slugify(name) == StripBoth(CollapseBreaks(DropOthers(Strip(Lower(name)))), IsDash)
    ensures Kept(name) == DropOthers(Lower(name))
  {
    hide StripBoth, CollapseBreaks, DropOthers, Strip, Lower;
  }

  lemma {:induction false} LowerConcat(a: string, b: string)
    ensures Lower(a + b) == Lower(a) + Lower(b)
  {
  }

  lemma {:induction false} KeptConcat(a: string, b: string)
    ensures Kept(a + b) == Kept(a) + Kept(b)
  {
    LowerConcat(a, b);
    DropConcat(Lower(a), Lower(b));
    hide Lower, DropOthers;
  }

  /** Cores joined by breaks: the breaks between them become one dash. */
  lemma {:induction false} CoreJoins(a: string, w: string, b: string)
    requires w != "" && All(w, IsBreak) && Core(a) != "" && Core(b) != ""
    ensures CollapseBreaks(Core(a + w + b)) == CollapseBreaks(Core(a)) + "-" + CollapseBreaks(Core(b))
  {
    hide *;
    CoreIs(a);
    CoreIs(b);
    CoreIs(a + w + b);
    CoreEnds(a);
    CoreEnds(b);
    var p, q := StripParts(a, IsBreak);
    var p', q' := StripParts(b, IsBreak);
    var c, d, mid := Core(a), Core(b), q + w + p';
    AllConcat(q, w, IsBreak);
    AllConcat(q + w, p', IsBreak);
    Regroup(p, c, q, w, p', d, q');
    Ends(c, mid, d);
    StripExact(p, c + (mid + d), q', IsBreak);
    CollapseSplit(c, mid + d);
    CollapseRun(mid, d);
    assert CollapseBreaks(c) + ("-" + CollapseBreaks(d)) == CollapseBreaks(c) + "-" + CollapseBreaks(d);
  }

  lemma {:induction false} Regroup(p: string, c: string, q: string, w: string, p': string, d: string, q': string)
    ensures (p + c + q) + w + (p' + d + q') == p + (c + ((q + w + p') + d)) + q'
  {
  }

  lemma {:induction false} Ends(c: string, mid: string, d: string)
    requires c != "" && d != ""
    ensures var all := c + (mid + d); all != "" && all[0] == c[0] && all[|all| - 1] == d[|d| - 1]
  {
  }

  /** Names joined by whitespace, underscores or dashes have their slugs joined by one dash, an empty one left out. */
  lemma {:induction false} SlugifyJoins(a: string, w: string, b: string)
    requires w != "" && All(w, IsBreak)
    ensures var x, y := Slugify(a), Slugify(b);
      Slugify(a + w + b) == if x == "" then y else if y == "" then x else x + "-" + y
  {
    DropKeepsBreaks(w);
    assert Kept(w) == w;
    hide *;
    SlugifyIs(a);
    SlugifyIs(b);
    SlugifyIs(a + w + b);
    KeptConcat(a + w, b);
    KeptConcat(a, w);
    JoinCores(Kept(a), w, Kept(b));
  }

  lemma {:induction false} JoinCores(a: string, w: string, b: string)
    requires w != "" && All(w, IsBreak)
    ensures var x, y := CollapseBreaks(Core(a)), CollapseBreaks(Core(b));
      CollapseBreaks(Core(a + w + b)) == if x == "" then y else if y == "" then x else x + "-" + y
  {
    hide *;
    CoreEnds(a);
    CoreEnds(b);
    if Core(a) == "" {
      AllConcat(a, w, IsBreak);
      CoreLeft(a + w, b);
    } else if Core(b) == "" {
      AllConcat(w, b, IsBreak);
      CoreRight(a, w + b);
      assert a + (w + b) == a + w + b;
    } else {
      CoreJoins(a, w, b);
    }
  }

  lemma {:induction false} CoreLeft(w: string, m: string)
    requires All(w, IsBreak)
    ensures Core(w + m) == Core(m)
  {
    assert w + m + "" == w + m;
    hide Core;
    CoreIgnores(w, m, "");
  }

  lemma {:induction false} CoreRight(m: string, v: string)
    requires All(v, IsBreak)
    ensures Core(m + v) == Core(m)
  {
    assert "" + m + v == m + v;
    hide Core;
    CoreIgnores("", m, v);
  }

  /** So two slugs with any run of breaks between them give both with one dash between. */
  lemma {:induction false} SlugsJoin(x: string, w: string, y: string)
    requires IsSlug(x) && IsSlug(y) && x != "" && y != "" && w != "" && All(w, IsBreak)
    ensures Slugify(x + w + y) == x + "-" + y
  {
    hide *;
    SlugifyFixedPoints(x);
    SlugifyFixedPoints(y);
    SlugifyJoins(x, w, y);
  }

  /** A character that is neither a word character nor a break might as well not be there. */
  lemma {:induction false} SlugifyDrops(a: string, c: char, b: string)
    requires !IsWord(c) && !IsBreak(c)
    ensures Slugify(a + [c] + b) == Slugify(a + b)
  {
    assert Lower([c]) == [c];
    assert DropOthers([c]) == DropOthers("") == "" by { assert [c][1..] == ""; }
    assert Kept([c]) == "";
    hide *;
    KeptConcat(a + [c], b);
    KeptConcat(a, [c]);
    KeptConcat(a, b);
    assert Kept(a) + "" == Kept(a);
    SlugifyIs(a + [c] + b);
    SlugifyIs(a + b);
  }

  /** Capitals do not matter. */
  lemma {:induction false} SlugifyIgnoresCase(name: string)
    ensures Slugify(Lower(name)) == Slugify(name)
  {
    assert Lower(Lower(name)) == Lower(name);
    hide DropOthers, CollapseBreaks, StripBoth;
  }
}
