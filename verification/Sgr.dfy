/** Select Graphic Rendition: how a parameter list changes colour and weight. */
module SgrState {
  import opened Primitives
  import opened Palette

  datatype Sgr = Sgr(fg: Option<u8>, bg: Option<u8>, bold: bool)

  const PLAIN := Sgr(None, None, false)

  predicate IndexOk(c: Option<u8>) {
    c.Some? ==> c.value < 16
  }

  predicate SgrOk(s: Sgr) {
    IndexOk(s.fg) && IndexOk(s.bg)
  }

  predicate IsExtended(p: u32) {
    p == 38 || p == 48
  }

  /** How many parameters the group at the head of `ps` spans. The span of an
      extended colour may reach past the end of the list. */
  function Span(ps: seq<u32>): (n: nat)
    requires ps != []
    ensures 1 <= n <= 5
  {
    if !IsExtended(ps[0]) || |ps| == 1 then 1
    else if ps[1] == 5 then 3
    else if ps[1] == 2 then 5
    else 1
  }

  function ParamOr0(ps: seq<u32>, i: nat): u32 {
    if i < |ps| then ps[i] else 0
  }

  function SetColor(s: Sgr, p: u32, c: Option<u8>): Sgr {
    if p == 38 then s.(fg := c) else s.(bg := c)
  }

  /** The effect of a group that is not an extended colour. */
  function Basic(p: u32, s: Sgr): Sgr {
    if p == 0 then PLAIN
    else if p == 1 then s.(bold := true)
    else if p == 22 then s.(bold := false)
    else if 30 <= p <= 37 then s.(fg := Some(p - 30))
    else if p == 39 then s.(fg := None)
    else if 40 <= p <= 47 then s.(bg := Some(p - 40))
    else if p == 49 then s.(bg := None)
    else if 90 <= p <= 97 then s.(fg := Some(p - 90 + 8))
    else if 100 <= p <= 107 then s.(bg := Some(p - 100 + 8))
    else s
  }

  /** A 256-colour index, truncated to a byte and reduced to the palette. */
  function Indexed(n: u32): u8 {
    Nearest16(Ansi256ToRgb(n % 0x100))
  }

  lemma IndexedIsIdentity(n: u32)
    requires n < 16
    ensures Indexed(n) == n
  {
    var m: u8 := n % 0x100;
    assert m == n;
    NearestIsIdentityOnPalette(m);
  }

  /** The effect of the group at the head of `ps`: an extended colour is
      truncated to bytes and reduced to the palette. */
  function Head(ps: seq<u32>, s: Sgr): Sgr
    requires ps != []
  {
    var p := ps[0];
    if !IsExtended(p) then Basic(p, s)
    else if Span(ps) == 3 then
      if |ps| > 2 then SetColor(s, p, Some(Indexed(ps[2]))) else s
    else if Span(ps) == 5 then
      SetColor(s, p, Some(Nearest16(Rgb(
        ParamOr0(ps, 2) % 0x100, ParamOr0(ps, 3) % 0x100, ParamOr0(ps, 4) % 0x100))))
    else s
  }

  /** Folds the groups of `ps` from left to right. */
  function Fold(ps: seq<u32>, s: Sgr): Sgr
    decreases |ps|
  {
    if ps == [] then s
    else Fold(ps[Min(Span(ps), |ps|)..], Head(ps, s))
  }

  /** The whole function; an empty list is a reset. */
  function Apply(ps: seq<u32>, s: Sgr): Sgr {
    if ps == [] then PLAIN else Fold(ps, s)
  }

  /** The same by index: from parameter `i` on. */
  function FoldAt(ps: seq<u32>, i: nat, s: Sgr): Sgr
    decreases |ps| - i
  {
    if i >= |ps| then s else FoldAt(ps, i + Span(ps[i..]), Head(ps[i..], s))
  }

  lemma {:induction false} FoldAtIsFold(ps: seq<u32>, i: nat, s: Sgr)
    requires i <= |ps|
    ensures FoldAt(ps, i, s) == Fold(ps[i..], s)
    decreases |ps| - i
  {
    if i < |ps| {
      var j := i + Span(ps[i..]);
      FoldFrom(ps, i, s);
      if j <= |ps| {
        FoldAtIsFold(ps, j, Head(ps[i..], s));
      }
    }
  }

  /** Folding from index `i` handles one group and goes on after it. */
  lemma FoldFrom(ps: seq<u32>, i: nat, s: Sgr)
    requires i < |ps|
    ensures var rest := ps[i..];
      Fold(rest, s) == Fold(ps[Min(i + Span(rest), |ps|)..], Head(rest, s))
  {
    var rest := ps[i..];
    assert rest[Min(Span(rest), |rest|)..] == ps[Min(i + Span(rest), |ps|)..];
  }

  lemma {:induction false} FoldKeepsIndices(ps: seq<u32>, s: Sgr)
    requires SgrOk(s)
    ensures SgrOk(Fold(ps, s))
    decreases |ps|
  {
    if ps != [] {
      FoldKeepsIndices(ps[Min(Span(ps), |ps|)..], Head(ps, s));
    }
  }

  lemma ApplyKeepsIndices(ps: seq<u32>, s: Sgr)
    requires SgrOk(s)
    ensures SgrOk(Apply(ps, s))
  {
    FoldKeepsIndices(ps, s);
  }

  /** No group of `ps` looks past its end: `ps` is a whole number of groups and
      does not end in a bare extended-colour introducer. */
  predicate Closed(ps: seq<u32>)
    decreases |ps|
  {
    ps == [] || (
      && (IsExtended(ps[0]) ==> |ps| > 1)
      && Span(ps) <= |ps|
      && Closed(ps[Span(ps)..])
    )
  }

  lemma {:induction false} FoldAppend(a: seq<u32>, b: seq<u32>, s: Sgr)
    requires Closed(a)
    ensures Fold(a + b, s) == Fold(b, Fold(a, s))
    decreases |a|
  {
    if a == [] {
      assert a + b == b;
    } else {
      var n := Span(a);
      assert Span(a + b) == n;
      assert (a + b)[n..] == a[n..] + b;
      assert Head(a + b, s) == Head(a, s);
      FoldAppend(a[n..], b, Head(a, s));
    }
  }

  /** For an unclosed list, a continuation that separates joining from sequencing:
      the parameter that would set or clear bold is swallowed as colour data. */
  function Separator(a: seq<u32>, s: Sgr): (b: seq<u32>)
    requires !Closed(a)
    ensures b != []
    decreases |a|
  {
    var toggle := if Fold(a, s).bold then 22 else 1;
    if |a| > Span(a) then Separator(a[Span(a)..], Head(a, s))
    else if |a| == 1 then [5, toggle]
    else [toggle]
  }

  lemma {:induction false} SeparatorSeparates(a: seq<u32>, s: Sgr)
    requires !Closed(a)
    ensures Fold(a + Separator(a, s), s).bold != Fold(Separator(a, s), Fold(a, s)).bold
    decreases |a|
  {
    var n := Span(a);
    var b := Separator(a, s);
    if |a| > n {
      SeparatorSeparates(a[n..], Head(a, s));
      HeadOfJoin(a, b, s);
    } else {
      UnfinishedGroup(a, s);
      JoinSwallows(a, b, s);
      SequenceToggles(b, Fold(a, s));
    }
  }

  lemma HeadOfJoin(a: seq<u32>, b: seq<u32>, s: Sgr)
    requires a != [] && |a| > Span(a)
    ensures Fold(a + b, s) == Fold(a[Span(a)..] + b, Head(a, s))
  {
    var n := Span(a);
    assert Span(a + b) == n;
    assert (a + b)[n..] == a[n..] + b;
    assert Head(a + b, s) == Head(a, s);
  }

  /** An unclosed list that is no longer than its first group keeps bold. */
  lemma UnfinishedGroup(a: seq<u32>, s: Sgr)
    requires !Closed(a) && |a| <= Span(a)
    ensures IsExtended(a[0])
    ensures |a| > 1 ==> (a[1] == 5 || a[1] == 2) && |a| < Span(a)
    ensures Fold(a, s).bold == s.bold
  {
  }

  /** Joined to an unfinished group, the whole of the separator is colour data. */
  lemma JoinSwallows(a: seq<u32>, b: seq<u32>, s: Sgr)
    requires a != [] && IsExtended(a[0]) && |a| <= Span(a)
    requires |a| == 1 ==> |b| == 2 && b[0] == 5
    requires |a| > 1 ==> |b| == 1 && (a[1] == 5 || a[1] == 2) && |a| < Span(a)
    ensures Fold(a + b, s).bold == s.bold
  {
  }

  lemma SequenceToggles(b: seq<u32>, t: Sgr)
    requires b == [if t.bold then 22 else 1] || b == [5, if t.bold then 22 else 1]
    ensures Fold(b, t).bold != t.bold
  {
  }

  ghost predicate Composes(a: seq<u32>) {
    forall b: seq<u32>, s: Sgr :: b != [] ==> Apply(a + b, s) == Apply(b, Apply(a, s))
  }

  /** One joined list acts like two lists in turn, for every continuation and every
      state, exactly when the first is nonempty and closed. */
  lemma ComposesExactlyWhenClosed(a: seq<u32>)
    ensures Composes(a) <==> a != [] && Closed(a)
  {
    if a != [] && Closed(a) {
      forall b: seq<u32>, s: Sgr | b != []
        ensures Apply(a + b, s) == Apply(b, Apply(a, s))
      {
        FoldAppend(a, b, s);
      }
    } else if a == [] {
      var s := PLAIN.(bold := true);
      assert [4] != [] && [4][1..] == [] && a + [4] == [4];
      assert Fold([4], s) == s;
      assert Fold([4], PLAIN) == PLAIN;
      assert Apply(a + [4], s) != Apply([4], Apply(a, s));
    } else {
      var b := Separator(a, PLAIN);
      SeparatorSeparates(a, PLAIN);
      assert Apply(a + b, PLAIN) != Apply(b, Apply(a, PLAIN));
    }
  }

  /** `38;5;N` and `48;5;N` with N below 16 are the plain colour codes. */
  lemma IndexedColorIsBasicColor(n: u32, s: Sgr)
    requires n < 16
    ensures Apply([38, 5, n], s) == Apply([if n < 8 then 30 + n else 90 + (n - 8)], s)
    ensures Apply([48, 5, n], s) == Apply([if n < 8 then 40 + n else 100 + (n - 8)], s)
  {
    IndexedActsAs(38, n, if n < 8 then 30 + n else 90 + (n - 8), s);
    IndexedActsAs(48, n, if n < 8 then 40 + n else 100 + (n - 8), s);
  }

  lemma IndexedActsAs(p: u32, n: u32, code: u32, s: Sgr)
    requires IsExtended(p) && n < 16 && !IsExtended(code) && Basic(code, s) == SetColor(s, p, Some(n))
    ensures Apply([p, 5, n], s) == Apply([code], s)
  {
    IndexedSelects(p, n, s);
    BasicGroup(code, s);
  }

  lemma IndexedSelects(p: u32, n: u32, s: Sgr)
    requires IsExtended(p) && n < 16
    ensures Apply([p, 5, n], s) == SetColor(s, p, Some(n))
  {
    IndexedGroup(p, n, s);
    IndexedIsIdentity(n);
  }

  /** From `s` to `t` the foreground or background becomes the lowest palette index
      nearest to `c`, and nothing else changes. */
  predicate SelectsNearest(s: Sgr, t: Sgr, c: u32, foreground: bool) {
    var chosen := if foreground then t.fg else t.bg;
    && chosen.Some? && IsNearest(c, chosen.value)
    && t == if foreground then s.(fg := chosen) else s.(bg := chosen)
  }

  lemma SetsNearest(s: Sgr, c: u32, n: u8)
    requires IsNearest(c, n)
    ensures SelectsNearest(s, SetColor(s, 38, Some(n)), c, true)
    ensures SelectsNearest(s, SetColor(s, 48, Some(n)), c, false)
  {
  }

  /** `38;2;R;G;B` and `48;2;R;G;B` select the lowest palette index nearest to the
      24-bit colour of the parameters truncated to bytes, and change nothing else. */
  lemma TrueColorIsNearest(r: u32, g: u32, b: u32, s: Sgr)
    ensures var c := Rgb(r % 0x100, g % 0x100, b % 0x100);
      && SelectsNearest(s, Apply([38, 2, r, g, b], s), c, true)
      && SelectsNearest(s, Apply([48, 2, r, g, b], s), c, false)
  {
    var c := Rgb(r % 0x100, g % 0x100, b % 0x100);
    NearestIsLowestMinimum(c);
    TrueColorGroup(38, r, g, b, s);
    TrueColorGroup(48, r, g, b, s);
    SetsNearest(s, c, Nearest16(c));
  }

  lemma TrueColorGroup(p: u32, r: u32, g: u32, b: u32, s: Sgr)
    requires IsExtended(p)
    ensures Apply([p, 2, r, g, b], s) == SetColor(s, p, Some(Nearest16(Rgb(r % 0x100, g % 0x100, b % 0x100))))
  {
    TrueColorHead([p, 2, r, g, b], s);
    OneGroup([p, 2, r, g, b], s);
  }

  lemma TrueColorHead(ps: seq<u32>, s: Sgr)
    requires |ps| == 5 && IsExtended(ps[0]) && ps[1] == 2
    ensures Head(ps, s) == SetColor(s, ps[0], Some(Nearest16(Rgb(ps[2] % 0x100, ps[3] % 0x100, ps[4] % 0x100))))
  {
  }

  lemma IndexedGroup(p: u32, n: u32, s: Sgr)
    requires IsExtended(p)
    ensures Apply([p, 5, n], s) == SetColor(s, p, Some(Indexed(n)))
  {
    OneGroup([p, 5, n], s);
  }

  lemma BasicGroup(p: u32, s: Sgr)
    requires !IsExtended(p)
    ensures Apply([p], s) == Basic(p, s)
  {
    OneGroup([p], s);
  }

  lemma OneGroup(ps: seq<u32>, s: Sgr)
    requires ps != [] && Span(ps) >= |ps|
    ensures Apply(ps, s) == Head(ps, s)
  {
    var rest := ps[Min(Span(ps), |ps|)..];
    assert rest == [];
    assert Fold(rest, Head(ps, s)) == Head(ps, s);
  }

  /** `38;5;N` and `48;5;N`, for every N, select the lowest palette index nearest to entry
      N modulo 256 of the xterm palette, and change nothing else. */
  lemma IndexedColorIsNearest(n: u32, s: Sgr)
    ensures var c := Ansi256ToRgb(n % 0x100);
      && SelectsNearest(s, Apply([38, 5, n], s), c, true)
      && SelectsNearest(s, Apply([48, 5, n], s), c, false)
  {
    NearestIsLowestMinimum(Ansi256ToRgb(n % 0x100));
    IndexedGroup(38, n, s);
    IndexedGroup(48, n, s);
    SetsNearest(s, Ansi256ToRgb(n % 0x100), Indexed(n));
  }

  // ----- Codes of one parameter -----

  /** Reset, bold on and off, the sixteen colours and the default, of either kind. */
  lemma PlainCodes(s: Sgr, n: u32)
    requires n < 8
    ensures Apply([], s) == Apply([0], s) == Sgr(None, None, false)
    ensures Apply([1], s) == s.(bold := true) && Apply([22], s) == s.(bold := false)
    ensures Apply([30 + n], s) == s.(fg := Some(n)) && Apply([90 + n], s) == s.(fg := Some(n + 8))
    ensures Apply([40 + n], s) == s.(bg := Some(n)) && Apply([100 + n], s) == s.(bg := Some(n + 8))
    ensures Apply([39], s) == s.(fg := None) && Apply([49], s) == s.(bg := None)
  {
    BasicGroup(0, s);
    BasicGroup(1, s);
    BasicGroup(22, s);
    BasicGroup(39, s);
    BasicGroup(49, s);
    BasicGroup(30 + n, s);
    BasicGroup(90 + n, s);
    BasicGroup(40 + n, s);
    BasicGroup(100 + n, s);
  }

  /** A lone introducer and every other code change nothing. */
  lemma OtherCodes(p: u32, s: Sgr)
    requires p !in {0, 1, 22, 39, 49}
    requires !(30 <= p <= 37) && !(40 <= p <= 47) && !(90 <= p <= 97) && !(100 <= p <= 107)
    ensures Apply([p], s) == s
  {
    OneGroup([p], s);
  }

  // ----- Extended colours that are cut short -----

  /** An introducer not followed by 2 or 5 is ignored, the rest is not. */
  lemma IntroducerAlone(p: u32, k: u32, rest: seq<u32>, s: Sgr)
    requires p in {38, 48} && k != 2 && k != 5
    ensures Apply([p] + ([k] + rest), s) == Apply([k] + rest, s)
  {
    var ps := [p] + ([k] + rest);
    assert ps[0] == p && ps[1] == k;
    assert ps[1..] == [k] + rest;
  }

  /** Without an index nothing is selected; missing channels are zero. */
  lemma ShortColors(p: u32, cs: seq<u32>, s: Sgr)
    requires p in {38, 48} && |cs| < 3
    ensures Apply([p, 5], s) == s
    ensures Apply([p, 2] + cs, s) == Apply([p, 2] + (cs + [0]), s)
  {
    OneGroup([p, 5], s);
    var a, b := [p, 2] + cs, [p, 2] + (cs + [0]);
    MissingIsZero(a, b, s);
    OneGroup(a, s);
    OneGroup(b, s);
  }

  lemma MissingIsZero(a: seq<u32>, b: seq<u32>, s: Sgr)
    requires 2 <= |a| < 5 && IsExtended(a[0]) && a[1] == 2 && b == a + [0]
    ensures Head(a, s) == Head(b, s)
  {
    assert ParamOr0(a, 2) == ParamOr0(b, 2);
    assert ParamOr0(a, 3) == ParamOr0(b, 3);
    assert ParamOr0(a, 4) == ParamOr0(b, 4);
  }
}
