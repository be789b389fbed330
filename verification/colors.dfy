/** The part of System.Drawing.Color this library observes: the `Empty`
    sentinel and colours built from a packed 32-bit ARGB value, plus the two
    colour helpers `CalcIsColorLight` and `CalcTransparentColor`, which
    WinFormsFluentLib.cs and EvoraLib.cs define with identical bodies. */
module Colors {

  /** A .NET `Color`. `Empty` is the default struct value; it is not equal to
      `FromArgb(0)` (transparent black) even though both pack to 0. */
  datatype Color = Empty | Packed(argb: bv32)

  /** `Color.ToArgb()`: the packed value, 0 for `Empty`. */
  function ToArgb(c: Color): bv32 {
    match c
    case Empty => 0
    case Packed(v) => v
  }

  /** `Color.FromArgb(int)`: every one of the 32 bits is kept. */
  function FromArgb(v: bv32): (c: Color)
    ensures c != Empty
    ensures ToArgb(c) == v
  {
    Packed(v)
  }

  function A(c: Color): bv8 { ((ToArgb(c) >> 24) & 0xFF) as bv8 }
  function R(c: Color): bv8 { ((ToArgb(c) >> 16) & 0xFF) as bv8 }
  function G(c: Color): bv8 { ((ToArgb(c) >> 8) & 0xFF) as bv8 }
  function B(c: Color): bv8 { (ToArgb(c) & 0xFF) as bv8 }

  /** `Color.FromArgb(r, g, b)`: an opaque colour (alpha 255). */
  function FromRgb(r: bv8, g: bv8, b: bv8): (c: Color)
    ensures c != Empty
    ensures A(c) == 0xFF && R(c) == r && G(c) == g && B(c) == b
  {
    Packed(0xFF00_0000 | ((r as bv32) << 16) | ((g as bv32) << 8) | (b as bv32))
  }

  /** The weighted sum both libraries compare against 8 * 128. */
  function Luminance(c: Color): nat {
    Weighted(R(c), G(c), B(c))
  }

  function Weighted(r: bv8, g: bv8, b: bv8): nat {
    5 * (g as nat) + 2 * (r as nat) + (b as nat)
  }

  const LightThreshold: nat := 8 * 128

  /** `CalcIsColorLight`: a strict comparison, so a luminance of exactly
      1024 counts as dark. */
  function IsColorLight(c: Color): bool {
    Luminance(c) > LightThreshold
  }

  /** `CalcTransparentColor`: colours whose red and blue channels differ come
      back unchanged; otherwise the packed value has its lowest bit set. The
      source ORs the signed `int` from `ToArgb()` with 1, which on the
      two's-complement pattern is the bit-vector OR used here. */
  function TransparentColor(c: Color): Color {
    if R(c) != B(c) then c else FromArgb(ToArgb(c) | 1)
  }

  /** A colour that `TransparentColor` cannot confuse with a grey: either its
      red and blue channels differ or its blue channel is odd. */
  predicate KeySafe(c: Color) {
    R(c) != B(c) || B(c) & 1 == 1
  }

  /** The classification is monotone: brightening any channel of a light
      colour keeps it light. */
  lemma LightIsMonotone(c: Color, d: Color)
    requires R(c) <= R(d) && G(c) <= G(d) && B(c) <= B(d)
    ensures IsColorLight(c) ==> IsColorLight(d)
    ensures !IsColorLight(d) ==> !IsColorLight(c)
  {
    WeightedMonotone(R(c), G(c), B(c), R(d), G(d), B(d));
  }

  lemma WeightedMonotone(r: bv8, g: bv8, b: bv8, r': bv8, g': bv8, b': bv8)
    requires r <= r' && g <= g' && b <= b'
    ensures Weighted(r, g, b) <= Weighted(r', g', b')
  {
    ByteOrder(r, r');
    ByteOrder(g, g');
    ByteOrder(b, b');
  }

  lemma ByteOrder(x: bv8, y: bv8)
    requires x <= y
    ensures x as nat <= y as nat
  {
  }

  /** The threshold sits between mid-grey (128, 128, 128), whose luminance is
      exactly 1024 and which is dark, and the same grey one step bluer. */
  lemma ThresholdBoundary()
    ensures Luminance(FromRgb(128, 128, 128)) == LightThreshold
    ensures !IsColorLight(FromRgb(128, 128, 128))
    ensures IsColorLight(FromRgb(128, 128, 129))
    ensures !IsColorLight(Empty) && !IsColorLight(FromArgb(0))
    ensures IsColorLight(FromRgb(255, 255, 255))
  {
  }

  /** `TransparentColor` keeps alpha, red and green and can only set the
      lowest bit of blue; when red and blue differ it changes nothing. */
  lemma TransparentColorChannels(c: Color)
    ensures A(TransparentColor(c)) == A(c)
    ensures R(TransparentColor(c)) == R(c)
    ensures G(TransparentColor(c)) == G(c)
    ensures B(TransparentColor(c)) == B(c) | 1 || B(TransparentColor(c)) == B(c)
    ensures ToArgb(TransparentColor(c)) == ToArgb(c) || ToArgb(TransparentColor(c)) == ToArgb(c) | 1
    ensures R(c) != B(c) ==> TransparentColor(c) == c
    ensures R(c) == B(c) ==> ToArgb(TransparentColor(c)) == ToArgb(c) | 1
  {
    if R(c) == B(c) {
      var v := ToArgb(c);
      var t := TransparentColor(c);
      assert ToArgb(t) == v | 1;
      SetLowBit(v);
      assert A(t) == A(c) && R(t) == R(c) && G(t) == G(c);
      assert B(t) == B(c) | 1;
    }
  }

  /** Bit-level facts about `v | 1`, stated on the packed value alone. */
  lemma SetLowBit(v: bv32)
    ensures ((v | 1) >> 24) & 0xFF == (v >> 24) & 0xFF
    ensures ((v | 1) >> 16) & 0xFF == (v >> 16) & 0xFF
    ensures ((v | 1) >> 8) & 0xFF == (v >> 8) & 0xFF
    ensures ((v | 1) & 0xFF) as bv8 == (v & 0xFF) as bv8 | 1
    ensures (v & 0xFF) as bv8 & 1 == 1 ==> v | 1 == v
  {
  }

  /** Every result of `TransparentColor` is key-safe, and the colours it
      leaves alone are exactly the non-empty key-safe ones (and those whose
      red and blue differ, `Empty` never among them). */
  lemma TransparentColorIsKeySafe(c: Color)
    ensures KeySafe(TransparentColor(c))
    ensures TransparentColor(c) == c <==> R(c) != B(c) || (c != Empty && B(c) & 1 == 1)
  {
    var t := TransparentColor(c);
    if R(c) == B(c) {
      TransparentColorChannels(c);
      SetLowBit(ToArgb(c));
      assert B(t) == B(c) | 1;
      OrOneIsOdd(B(c));
      if c != Empty && B(c) & 1 == 1 {
        assert ToArgb(c) | 1 == ToArgb(c);
      }
      if t == c {
        OddAbsorbsOne(B(c));
      }
    }
  }

  lemma OrOneIsOdd(x: bv8)
    ensures (x | 1) & 1 == 1
  {
  }

  lemma OddAbsorbsOne(x: bv8)
    ensures x == x | 1 <==> x & 1 == 1
  {
  }

  /** Applying `TransparentColor` a second time changes nothing. */
  lemma {:induction false} TransparentColorIdempotent(c: Color)
    ensures TransparentColor(TransparentColor(c)) == TransparentColor(c)
  {
    TransparentColorIsKeySafe(c);
    var t := TransparentColor(c);
    TransparentColorChannels(c);
    if R(t) == B(t) {
      assert B(t) & 1 == 1;
      assert t != Empty;
      assert ToArgb(t) | 1 == ToArgb(t);
    }
  }
}
