/** The brightness the light HAL computes from an AARRGGBB colour, in 32-bit unsigned arithmetic. */
module LedColor {
  import opened CTypes

  const WORD := 0x1_0000_0000

  /** The largest LED maximum for which no product overflows: 2^32 - 1 divided by 255. */
  const LARGEST_MAX := 16843009

  /** Unsigned arithmetic keeps 32 bits. */
  function Wrap(n: nat): uint32 {
    if n < WORD then n else n % WORD
  }

  function Alpha(color: uint32): byte { color / 0x100_0000 }
  function Red(color: uint32): byte { color / 0x1_0000 % 0x100 }
  function Green(color: uint32): byte { color / 0x100 % 0x100 }
  function Blue(color: uint32): byte { color % 0x100 }

  /** `color & 0x00ffffff` is not zero. */
  predicate IsLit(color: uint32) {
    color % 0x100_0000 != 0
  }

  /** A channel after the user's brightness has been applied; the code skips this when alpha is 0xFF. */
  function Channel(x: byte, alpha: byte): uint32 {
    if alpha != 0xFF then Wrap(x * alpha) / 0xFF else x
  }

  function Luma(r: uint32, g: uint32, b: uint32): uint32 {
    Wrap(77 * r + 150 * g + 29 * b) / 0x100
  }

  function Brightness(a: byte, r: byte, g: byte, b: byte): uint32 {
    Luma(Channel(r, a), Channel(g, a), Channel(b, a))
  }

  function RgbaToBrightness(color: uint32): uint32 {
    Brightness(Alpha(color), Red(color), Green(color), Blue(color))
  }

  /** The two-argument form: scaled to the LED's maximum. */
  function Scaled(v: uint32, max: uint32): uint32 {
    Wrap(v * max) / 0xFF
  }

  function ScaledBrightness(color: uint32, max: uint32): uint32 {
    Scaled(RgbaToBrightness(color), max)
  }

  // ----- products -----

  lemma ProductMonotone(x: nat, a: nat, y: nat, b: nat)
    requires x <= y && a <= b
    ensures x * a <= y * b
  {
    assert x * a <= y * a;
    assert y * a <= y * b;
  }

  lemma WeightedProduct(r: nat, g: nat, b: nat, a: nat)
    ensures (77 * r + 150 * g + 29 * b) * a == 77 * (r * a) + 150 * (g * a) + 29 * (b * a)
  {
  }

  // ----- without wrap-around -----

  /** The short cut for alpha 0xFF is the general formula, nothing wraps, and no channel grows. */
  lemma ChannelExact(x: byte, alpha: byte)
    ensures Channel(x, alpha) == x * alpha / 0xFF <= x
  {
    ProductMonotone(x, alpha, 0xFF, 0xFF);
    ProductMonotone(x, alpha, x, 0xFF);
  }

  lemma LumaExact(r: uint32, g: uint32, b: uint32)
    requires r <= 0xFF && g <= 0xFF && b <= 0xFF
    ensures Luma(r, g, b) == (77 * r + 150 * g + 29 * b) / 0x100 <= 0xFF
  {
  }

  lemma BrightnessRange(a: byte, r: byte, g: byte, b: byte)
    ensures Brightness(a, r, g, b) <= 0xFF
  {
    ChannelExact(r, a);
    ChannelExact(g, a);
    ChannelExact(b, a);
  }

  lemma WhiteIsFull()
    ensures RgbaToBrightness(0xFFFF_FFFF) == 0xFF
  {
    var white: uint32 := 0xFFFF_FFFF;
    assert Alpha(white) == 0xFF && Red(white) == 0xFF && Green(white) == 0xFF && Blue(white) == 0xFF;
    LumaExact(0xFF, 0xFF, 0xFF);
  }

  lemma ScaledExact(v: uint32, max: uint32)
    requires v <= 0xFF && max <= LARGEST_MAX
    ensures v * max < WORD
    ensures Scaled(v, max) == v * max / 0xFF <= max
  {
    ProductMonotone(v, max, 0xFF, LARGEST_MAX);
    ProductMonotone(v, max, 0xFF, max);
  }

  predicate NoOverflow(color: uint32, max: uint32) {
    RgbaToBrightness(color) * max < WORD
  }

  /** The product cannot overflow for any colour exactly when the LED's maximum is at most 16843009. */
  lemma NoOverflowIff(max: uint32)
    ensures (forall color: uint32 :: NoOverflow(color, max)) <==> max <= LARGEST_MAX
  {
    if max <= LARGEST_MAX {
      forall color: uint32 ensures NoOverflow(color, max) {
        BrightnessRange(Alpha(color), Red(color), Green(color), Blue(color));
        ScaledExact(RgbaToBrightness(color), max);
      }
    } else {
      WhiteIsFull();
      assert !NoOverflow(0xFFFF_FFFF, max);
    }
  }

  /** Then the brightness lies between 0 and the maximum, and opaque white gives the maximum. */
  lemma ScaledRange(color: uint32, max: uint32)
    requires max <= LARGEST_MAX
    ensures 0 <= ScaledBrightness(color, max) <= max
    ensures ScaledBrightness(0xFFFF_FFFF, max) == max
  {
    BrightnessRange(Alpha(color), Red(color), Green(color), Blue(color));
    ScaledExact(RgbaToBrightness(color), max);
    WhiteIsFull();
    ScaledExact(0xFF, max);
  }

  // ----- monotonicity -----

  lemma ChannelMonotone(x: byte, alpha: byte, y: byte, beta: byte)
    requires x <= y && alpha <= beta
    ensures Channel(x, alpha) <= Channel(y, beta) <= 0xFF
  {
    ChannelExact(x, alpha);
    ChannelExact(y, beta);
    ProductMonotone(x, alpha, y, beta);
    var p, q := x * alpha, y * beta;
    assert p / 0xFF <= q / 0xFF;
  }

  lemma LumaMonotone(r: uint32, g: uint32, b: uint32, r1: uint32, g1: uint32, b1: uint32)
    requires r <= r1 <= 0xFF && g <= g1 <= 0xFF && b <= b1 <= 0xFF
    ensures Luma(r, g, b) <= Luma(r1, g1, b1) <= 0xFF
  {
  }

  lemma ScaledMonotone(v: uint32, w: uint32, max: uint32)
    requires v <= w <= 0xFF && max <= LARGEST_MAX
    ensures Scaled(v, max) <= Scaled(w, max)
  {
    ScaledExact(v, max);
    ScaledExact(w, max);
    ProductMonotone(v, max, w, max);
    var p, q := v * max, w * max;
    assert p / 0xFF <= q / 0xFF;
  }

  /** Raising alpha or any channel never lowers the brightness. */
  lemma BrightnessMonotone(c: uint32, d: uint32, max: uint32)
    requires max <= LARGEST_MAX
    requires Alpha(c) <= Alpha(d) && Red(c) <= Red(d) && Green(c) <= Green(d) && Blue(c) <= Blue(d)
    ensures ScaledBrightness(c, max) <= ScaledBrightness(d, max)
  {
    var a, a1 := Alpha(c), Alpha(d);
    ChannelMonotone(Red(c), a, Red(d), a1);
    ChannelMonotone(Green(c), a, Green(d), a1);
    ChannelMonotone(Blue(c), a, Blue(d), a1);
    LumaMonotone(Channel(Red(c), a), Channel(Green(c), a), Channel(Blue(c), a),
                 Channel(Red(d), a1), Channel(Green(d), a1), Channel(Blue(d), a1));
    ScaledMonotone(RgbaToBrightness(c), RgbaToBrightness(d), max);
  }

  // ----- how far rounding takes it from the exact value -----

  /** The channels times alpha over 255, weighted over 256, with no rounding. */
  function ExactBrightness(a: byte, r: byte, g: byte, b: byte): real {
    ((77 * r + 150 * g + 29 * b) * a) as real / 65280.0
  }

  /** Each channel loses less than 1 and the shift less than 256, so less than 2 in all. */
  lemma BrightnessError(a: byte, r: byte, g: byte, b: byte)
    ensures var v := Brightness(a, r, g, b);
      v * 65280 <= (77 * r + 150 * g + 29 * b) * a < (v + 2) * 65280
  {
    ChannelExact(r, a);
    ChannelExact(g, a);
    ChannelExact(b, a);
    WeightedProduct(r, g, b, a);
    LumaExact(Channel(r, a), Channel(g, a), Channel(b, a));
    RoundingError(r * a, g * a, b * a);
  }

  lemma RoundingError(p: nat, q: nat, s: nat)
    ensures var v := (77 * (p / 0xFF) + 150 * (q / 0xFF) + 29 * (s / 0xFF)) / 0x100;
      v * 65280 <= 77 * p + 150 * q + 29 * s < (v + 2) * 65280
  {
  }

  lemma AsQuotient(n: nat, v: nat)
    requires v * 65280 <= n < (v + 2) * 65280
    ensures v as real <= n as real / 65280.0 < v as real + 2.0
  {
  }

  /** The error of the brightness grows with the maximum, and the last division loses less than 1. */
  lemma ScaleError(v: nat, w: real, max: nat, s: nat, exact: real)
    requires v as real <= w < v as real + 2.0
    requires s == v * max / 0xFF && exact == w * max as real / 255.0
    ensures s as real <= exact < s as real + 2.0 * max as real / 255.0 + 1.0
  {
    var m, p := max as real, v * max;
    RealProduct(v as real, w, v as real + 2.0, m);
    assert p as real == v as real * m;
    assert (v as real + 2.0) * m == v as real * m + 2.0 * m;
    assert w * m <= p as real + 2.0 * m;
    assert 0xFF * s <= p < 0xFF * s + 0xFF;
    var e := w * m;
    assert exact == e / 255.0;
  }

  lemma RealProduct(a: real, b: real, c: real, m: real)
    requires a <= b <= c && 0.0 <= m
    ensures a * m <= b * m <= c * m
  {
  }

  /** The result is never above the exact value, and below it by less than 2 max / 255 + 1. */
  lemma BrightnessAccurate(a: byte, r: byte, g: byte, b: byte, max: uint32)
    requires max <= LARGEST_MAX
    ensures var s, exact := Scaled(Brightness(a, r, g, b), max) as real, ExactBrightness(a, r, g, b) * max as real / 255.0;
      s <= exact < s + 2.0 * max as real / 255.0 + 1.0
  {
    BrightnessRange(a, r, g, b);
    WeightedError(a, r, g, b);
    AccurateFrom(Brightness(a, r, g, b), ExactBrightness(a, r, g, b), max);
  }

  lemma AccurateFrom(v: uint32, w: real, max: uint32)
    requires v <= 0xFF && max <= LARGEST_MAX && v as real <= w < v as real + 2.0
    ensures Scaled(v, max) as real <= w * max as real / 255.0 < Scaled(v, max) as real + 2.0 * max as real / 255.0 + 1.0
  {
    ScaledExact(v, max);
    ScaleError(v, w, max, Scaled(v, max), w * max as real / 255.0);
  }

  lemma WeightedError(a: byte, r: byte, g: byte, b: byte)
    ensures var v := Brightness(a, r, g, b) as real; v <= ExactBrightness(a, r, g, b) < v + 2.0
  {
    BrightnessError(a, r, g, b);
    AsQuotient((77 * r + 150 * g + 29 * b) * a, Brightness(a, r, g, b));
  }

  // ----- colours -----

  /** The colour with these four channels. */
  function Argb(a: byte, r: byte, g: byte, b: byte): uint32 {
    0x100_0000 * a + 0x1_0000 * r + 0x100 * g + b
  }

  lemma ChannelsOf(a: byte, r: byte, g: byte, b: byte)
    ensures var color := Argb(a, r, g, b);
      Alpha(color) == a && Red(color) == r && Green(color) == g && Blue(color) == b
  {
    var color: int := Argb(a, r, g, b);
    assert color / 0x1_0000 == 0x100 * a + r;
    assert color / 0x100 == 0x1_0000 * a + 0x100 * r + g;
    assert color / 0x100 % 0x100 == g by {
      ModByte(0x100 * a + r, g);
    }
  }

  lemma ModByte(high: nat, low: byte)
    ensures (0x100 * high + low) % 0x100 == low
  {
  }

  lemma ChannelsDetermine(color: uint32)
    ensures color == Argb(Alpha(color), Red(color), Green(color), Blue(color))
  {
    assert color / 0x100_0000 == color / 0x1_0000 / 0x100;
  }

  /** A colour is lit exactly if one of its three channels is not 0, whatever its alpha. */
  lemma LitIff(a: byte, r: byte, g: byte, b: byte)
    ensures IsLit(Argb(a, r, g, b)) <==> r != 0 || g != 0 || b != 0
  {
    var low := 0x1_0000 * r + 0x100 * g + b;
    assert low < 0x100_0000 && Argb(a, r, g, b) == 0x100_0000 * a + low;
    assert Argb(a, r, g, b) % 0x100_0000 == low;
  }

  lemma BlackIsZero(a: byte, max: uint32)
    ensures Brightness(a, 0, 0, 0) == 0 && Scaled(0, max) == 0
  {
    ChannelExact(0, a);
    LumaExact(0, 0, 0);
  }

  /** A colour that is not lit gives brightness 0. */
  lemma DarkIsZero(color: uint32, max: uint32)
    requires !IsLit(color)
    ensures ScaledBrightness(color, max) == 0
  {
    hide Brightness, Scaled, Alpha, Red, Green, Blue, Argb, IsLit;
    ChannelsDetermine(color);
    LitIff(Alpha(color), Red(color), Green(color), Blue(color));
    BlackIsZero(Alpha(color), max);
  }

  /** The channels times alpha over 255, weighted over 256 and scaled by `max` over 255, with no rounding. */
  function ExactScaled(a: byte, r: byte, g: byte, b: byte, max: uint32): real {
    ((77 * r + 150 * g + 29 * b) * a) as real / 65280.0 * max as real / 255.0
  }

  lemma ExactScaledIs(a: byte, r: byte, g: byte, b: byte, max: uint32)
    ensures ExactScaled(a, r, g, b, max) == ExactBrightness(a, r, g, b) * max as real / 255.0
  {
  }

  /** The error bound, for the colour with given channels. */
  lemma ColorAccurate(a: byte, r: byte, g: byte, b: byte, max: uint32)
    requires max <= LARGEST_MAX
    ensures var s, exact := ScaledBrightness(Argb(a, r, g, b), max) as real, ExactScaled(a, r, g, b, max);
      s <= exact < s + 2.0 * max as real / 255.0 + 1.0
  {
    hide Brightness, Scaled, Alpha, Red, Green, Blue, Argb, ExactScaled, ExactBrightness;
    ChannelsOf(a, r, g, b);
    BrightnessAccurate(a, r, g, b, max);
    ExactScaledIs(a, r, g, b, max);
  }
}
