/** The 16-colour console palette and the reduction of 256-colour and
    24-bit colours onto it. */
module Palette {
  import opened Primitives

  const FG: u32 := 0x00C0C0C0
  const BG: u32 := 0x00101014

  const PALETTE: seq<u32> := [
    0x00000000, 0x00AA0000, 0x0000AA00, 0x00AA5500,
    0x000000AA, 0x00AA00AA, 0x0000AAAA, 0x00AAAAAA,
    0x00555555, 0x00FF5555, 0x0055FF55, 0x00FFFF55,
    0x005555FF, 0x00FF55FF, 0x0055FFFF, 0x00FFFFFF
  ]

  /** The channel of a VGA colour: on or off, and lighter with intensity. */
  function VgaLevel(on: bool, k: nat): nat {
    (if on then 0xAA else 0) + (if k >= 8 then 0x55 else 0)
  }

  /** The sixteen colours are those of a VGA text console: bits 0, 1 and 2 of the index are
      red, green and blue, bit 3 is intensity, and dark yellow is brown. */
  lemma PaletteIsVga(k: nat)
    requires k < 16
    ensures Red(PALETTE[k]) == VgaLevel(k % 2 == 1, k)
    ensures Green(PALETTE[k]) == if k == 3 then 0x55 else VgaLevel(k / 2 % 2 == 1, k)
    ensures Blue(PALETTE[k]) == VgaLevel(k / 4 % 2 == 1, k)
    ensures PALETTE[k] < 0x100_0000
  {
    PaletteRed(k);
    PaletteGreen(k);
    PaletteBlue(k);
    PaletteIs24Bit(k);
  }

  lemma PaletteRed(k: nat)
    requires k < 16
    ensures Red(PALETTE[k]) == VgaLevel(k % 2 == 1, k)
  {
  }

  lemma PaletteGreen(k: nat)
    requires k < 16
    ensures Green(PALETTE[k]) == if k == 3 then 0x55 else VgaLevel(k / 2 % 2 == 1, k)
  {
  }

  lemma PaletteBlue(k: nat)
    requires k < 16
    ensures Blue(PALETTE[k]) == VgaLevel(k / 4 % 2 == 1, k)
  {
  }

  function Red(color: u32): u8 {
    (color / 0x1_0000) % 0x100
  }

  function Green(color: u32): u8 {
    (color / 0x100) % 0x100
  }

  function Blue(color: u32): u8 {
    color % 0x100
  }

  function Rgb(r: u8, g: u8, b: u8): u32 {
    r * 0x1_0000 + g * 0x100 + b
  }

  const LEVELS: seq<u8> := [0, 95, 135, 175, 215, 255]

  /** The xterm-256 palette: 16 console colours, a 6x6x6 cube, 24 greys. */
  function Ansi256ToRgb(idx: u8): u32 {
    if idx < 16 then PALETTE[idx]
    else if idx < 232 then
      var i := idx - 16;
      Rgb(LEVELS[i / 36 % 6], LEVELS[i / 6 % 6], LEVELS[i % 6])
    else
      var v := 8 + (idx - 232) * 10;
      Rgb(v, v, v)
  }

  /** A level of the colour cube. */
  function Level(k: nat): u8
    requires k < 6
  {
    if k == 0 then 0 else 55 + 40 * k
  }

  /** An entry of the cube has the levels of the base-6 digits of its index, red first. */
  lemma CubeEntry(idx: u8, r: nat, g: nat, b: nat)
    requires 16 <= idx < 232
    requires r == (idx - 16) / 36 && g == (idx - 16) / 6 % 6 && b == (idx - 16) % 6
    ensures r < 6 && g < 6 && b < 6
    ensures idx == 16 + 36 * r + 6 * g + b
    ensures Ansi256ToRgb(idx) == Rgb(Level(r), Level(g), Level(b))
  {
    CubeDigits(idx - 16);
    LevelEntry(r);
    LevelEntry(g);
    LevelEntry(b);
  }

  lemma CubeDigits(i: nat)
    requires i < 216
    ensures i / 36 < 6 && i / 36 % 6 == i / 36
    ensures i == 36 * (i / 36) + 6 * (i / 6 % 6) + i % 6
  {
    var q := i / 6;
    assert i / 36 == q / 6;
  }

  lemma LevelEntry(k: nat)
    requires k < 6
    ensures LEVELS[k] == Level(k)
  {
  }

  /** The greys run from 8 in steps of 10. */
  lemma GreyEntry(step: nat)
    requires step < 24
    ensures var v := 8 + 10 * step; Ansi256ToRgb(232 + step) == Rgb(v, v, v)
  {
  }

  lemma LowByte(high: nat, low: u8)
    ensures (high * 0x100 + low) / 0x100 == high && (high * 0x100 + low) % 0x100 == low
  {
  }

  lemma DivideTwice(c: nat)
    ensures c / 0x1_0000 == c / 0x100 / 0x100
  {
  }

  /** Packing and unpacking a colour. */
  lemma RgbChannels(r: u8, g: u8, b: u8)
    ensures Red(Rgb(r, g, b)) == r && Green(Rgb(r, g, b)) == g && Blue(Rgb(r, g, b)) == b
  {
    var c, high := Rgb(r, g, b), r * 0x100 + g;
    assert c == high * 0x100 + b;
    LowByte(high, b);
    LowByte(r, g);
    DivideTwice(c);
  }

  function Square(d: int): (s: nat)
    requires -255 <= d <= 255
    ensures s <= 65025
    ensures s == 0 <==> d == 0
  {
    SquareBound(d);
    d * d
  }

  lemma SquareBound(d: int)
    requires -255 <= d <= 255
    ensures 0 <= d * d <= 65025
    ensures d * d == 0 <==> d == 0
  {
    if d < 0 {
      ProductBound(-d, -d);
      assert d * d == -d * -d;
    } else {
      ProductBound(d, d);
    }
  }

  lemma {:induction false} ProductBound(a: nat, b: nat)
    requires b <= 255
    ensures 0 <= a * b <= 255 * a
    ensures a > 0 && b > 0 ==> a * b > 0
  {
    if a > 0 {
      ProductBound(a - 1, b);
      var c := a - 1;
      assert a * b == c * b + b;
    }
  }

  /** Squared distance of two colours. */
  function Distance(c: u32, p: u32): (d: nat)
    ensures d <= 195075
    ensures d == 0 <==> Red(c) == Red(p) && Green(c) == Green(p) && Blue(c) == Blue(p)
  {
    Square(Red(c) - Red(p)) + Square(Green(c) - Green(p)) + Square(Blue(c) - Blue(p))
  }

  /** The distance is the sum of the squares of the differences of the channels. */
  lemma DistanceOfChannels(r: u8, g: u8, b: u8, r': u8, g': u8, b': u8)
    ensures Distance(Rgb(r, g, b), Rgb(r', g', b'))
         == (r - r') * (r - r') + (g - g') * (g - g') + (b - b') * (b - b')
  {
    RgbChannels(r, g, b);
    RgbChannels(r', g', b');
  }

  /** The lowest of the first `n` arguments at which `d` is least. */
  predicate IsLowest(d: nat -> nat, n: nat, best: nat) {
    && best < n
    && (forall j: nat :: j < n ==> d(best) <= d(j))
    && (forall j: nat :: j < best ==> d(best) < d(j))
  }

  /** One more argument: the old best stays unless the new one is strictly lower. */
  lemma LowestStep(d: nat -> nat, n: nat, b: nat)
    requires IsLowest(d, n, b)
    ensures IsLowest(d, n + 1, if d(n) < d(b) then n else b)
  {
  }

  /** The distance of a colour to each palette entry. */
  function Distances(color: u32): nat -> nat {
    (i: nat) => if i < 16 then Distance(color, PALETTE[i]) else 0
  }

  /** `best` is the lowest palette index at the least distance. */
  predicate IsNearest(color: u32, best: nat) {
    IsLowest(Distances(color), 16, best)
  }

  function NearestAmong(color: u32, n: nat): (best: nat)
    requires 1 <= n <= 16
    ensures best < n
  {
    if n == 1 then 0
    else
      var b := NearestAmong(color, n - 1);
      if Distances(color)(n - 1) < Distances(color)(b) then n - 1 else b
  }

  function Nearest16(color: u32): (best: u8)
    ensures best < 16
  {
    NearestAmong(color, 16)
  }

  lemma {:induction false} NearestAmongIsLowest(color: u32, n: nat)
    requires 1 <= n <= 16
    ensures IsLowest(Distances(color), n, NearestAmong(color, n))
  {
    if n > 1 {
      NearestAmongIsLowest(color, n - 1);
      LowestStep(Distances(color), n - 1, NearestAmong(color, n - 1));
    }
  }

  /** The reduced colour is the lowest palette index at the least squared distance. */
  lemma NearestIsLowestMinimum(color: u32)
    ensures IsNearest(color, Nearest16(color))
  {
    NearestAmongIsLowest(color, 16);
  }

  const I32_MAX := 0x7FFF_FFFF

  /** The scan of the palette; the running minimum starts at the largest i32. */
  method NearestScan(color: u32) returns (best: u8)
    ensures best == Nearest16(color)
  {
    best := 0;
    var bestDist := I32_MAX;
    for i := 0 to 16
      invariant i == 0 ==> best == 0 && bestDist == I32_MAX
      invariant i > 0 ==> best == NearestAmong(color, i) && bestDist == Distance(color, PALETTE[best])
    {
      var dist := Distance(color, PALETTE[i]);
      if dist < bestDist {
        bestDist, best := dist, i;
      }
    }
  }

  lemma PaletteDistinct(i: nat, j: nat)
    requires i < 16 && j < 16
    requires PALETTE[i] == PALETTE[j]
    ensures i == j
  {
  }

  lemma ChannelsDetermineColor(c: u32, p: u32)
    requires c < 0x100_0000 && p < 0x100_0000
    requires Red(c) == Red(p) && Green(c) == Green(p) && Blue(c) == Blue(p)
    ensures c == p
  {
    Recompose(c);
    Recompose(p);
  }

  lemma Recompose(c: u32)
    requires c < 0x100_0000
    ensures c == Rgb(Red(c), Green(c), Blue(c))
  {
    var high := c / 0x100;
    assert high / 0x100 == Red(c);
  }

  lemma PaletteIs24Bit(i: nat)
    requires i < 16
    ensures PALETTE[i] < 0x100_0000
  {
  }

  lemma SelfDistance(c: u32, p: u32)
    ensures Distance(c, c) == 0
    ensures c < 0x100_0000 && p < 0x100_0000 && Distance(c, p) == 0 ==> c == p
  {
    if c < 0x100_0000 && p < 0x100_0000 && Distance(c, p) == 0 {
      ChannelsDetermineColor(c, p);
    }
  }

  /** Reduction is the identity on the palette itself. */
  lemma NearestIsIdentityOnPalette(i: nat)
    requires i < 16
    ensures Nearest16(PALETTE[i]) == i
    ensures Nearest16(Ansi256ToRgb(i)) == i
  {
    var c := PALETTE[i];
    var b := Nearest16(c);
    NearestIsLowestMinimum(c);
    assert Distances(c)(b) <= Distances(c)(i);
    var p := PALETTE[b];
    assert Distance(c, p) <= Distance(c, c);
    PaletteIs24Bit(i);
    PaletteIs24Bit(b);
    SelfDistance(c, p);
    PaletteDistinct(i, b);
  }
}
