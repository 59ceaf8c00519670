/**
 `GLShape.toColorFloatArray`: a packed 32-bit colour is split into four
 8-bit channels (red in the top byte, alpha in the bottom byte) and each
 channel is scaled into [0, 1] by dividing by 255.

 A Java `int` is represented by its 32-bit two's-complement pattern (`bv32`).
 */
module PackedColor {

  /** The four 8-bit channels of a packed colour, in the order the shape uses them. */
  datatype Channels = Channels(r: bv8, g: bv8, b: bv8, a: bv8)

  /** Java's signed shift `x >> k` on an `int`: the vacated high bits are copies of the sign bit. */
  function Sar(x: bv32, k: bv32): (y: bv32)
    requires k < 32
    ensures x & 0x8000_0000 == 0 ==> y == x >> k
    ensures x & 0x8000_0000 != 0 ==> y == (x >> k) | !(0xFFFF_FFFF >> k)
  {
    if x & 0x8000_0000 == 0 then x >> k else !((!x) >> k)
  }

  /** `0xff & (x >> k)`: the byte of `x` that starts at bit `k`. */
  function Channel(x: bv32, k: bv32): (c: bv8)
    requires k < 32
  {
    (0xFF & Sar(x, k)) as bv8
  }

  /** The channels `toColorFloatArray` extracts with shifts of 24, 16, 8 and 0. */
  function Unpack(x: bv32): (c: Channels)
    ensures c.r as bv32 == x >> 24
    ensures c.g as bv32 == (x >> 16) & 0xFF
    ensures c.b as bv32 == (x >> 8) & 0xFF
    ensures c.a as bv32 == x & 0xFF
  {
    SignExtensionMasked(x, 24);
    SignExtensionMasked(x, 16);
    SignExtensionMasked(x, 8);
    SignExtensionMasked(x, 0);
    Channels(Channel(x, 24), Channel(x, 16), Channel(x, 8), Channel(x, 0))
  }

  /** `r << 24 | g << 16 | b << 8 | a`: the packing that `Unpack` undoes. */
  function Pack(c: Channels): (x: bv32)
    ensures x >> 24 == c.r as bv32
    ensures x & 0xFF == c.a as bv32
  {
    (c.r as bv32 << 24) | (c.g as bv32 << 16) | (c.b as bv32 << 8) | c.a as bv32
  }

  /** `channel / (float) 0xff`, computed exactly (float rounding is not modelled). */
  function Scale(c: bv8): (f: real)
    ensures 0.0 <= f <= 1.0
    ensures f == 0.0 <==> c == 0
    ensures f == 1.0 <==> c == 0xFF
    ensures f * 255.0 == (c as int) as real
  {
    (c as int) as real / 255.0
  }

  /** `toColorFloatArray(colorInt)`: the four channels, each scaled into [0, 1]. */
  function ToColorFloatArray(x: bv32): (rgba: seq<real>)
    ensures |rgba| == 4
    ensures forall i :: 0 <= i < 4 ==> 0.0 <= rgba[i] <= 1.0
    ensures rgba[0] == 1.0 <==> x >> 24 == 0xFF
    ensures rgba[3] == 0.0 <==> x & 0xFF == 0
  {
    var c := Unpack(x);
    [Scale(c.r), Scale(c.g), Scale(c.b), Scale(c.a)]
  }

  /** Each component is its byte of the packed value divided by 255: red from bits 24-31, alpha from bits 0-7. */
  lemma ColorComponents(x: bv32)
    ensures ToColorFloatArray(x)[0] * 255.0 == (((x >> 24) as bv8) as int) as real
    ensures ToColorFloatArray(x)[1] * 255.0 == ((((x >> 16) & 0xFF) as bv8) as int) as real
    ensures ToColorFloatArray(x)[2] * 255.0 == ((((x >> 8) & 0xFF) as bv8) as int) as real
    ensures ToColorFloatArray(x)[3] * 255.0 == (((x & 0xFF) as bv8) as int) as real
  {
    assert Unpack(x).r == (x >> 24) as bv8;
    assert Unpack(x).g == ((x >> 16) & 0xFF) as bv8;
    assert Unpack(x).b == ((x >> 8) & 0xFF) as bv8;
    assert Unpack(x).a == (x & 0xFF) as bv8;
  }

  /** The inverse of `Scale` on its range: recovers the channel from its scaled value. */
  function Unscale(f: real): (c: bv8)
    requires 0.0 <= f <= 1.0
  {
    var n := (f * 255.0).Floor;
    if n < 0 then 0 else if n > 255 then 0xFF else n as bv8
  }

  /** Re-packs a colour from four components in [0, 1]. */
  function FromColorFloatArray(rgba: seq<real>): (x: bv32)
    requires |rgba| == 4
    requires forall i :: 0 <= i < 4 ==> 0.0 <= rgba[i] <= 1.0
  {
    Pack(Channels(Unscale(rgba[0]), Unscale(rgba[1]), Unscale(rgba[2]), Unscale(rgba[3])))
  }

  /** For the four shift amounts `toColorFloatArray` uses, sign extension never reaches the masked byte. */
  lemma SignExtensionMasked(x: bv32, k: bv32)
    requires k == 0 || k == 8 || k == 16 || k == 24
    ensures Channel(x, k) as bv32 == (x >> k) & 0xFF
  {
  }

  /** Reassembling the extracted channels gives back the packed value. */
  lemma PackUnpack(x: bv32)
    ensures Pack(Unpack(x)) == x
  {
  }

  /** Extracting the channels of a packed value gives back the channels. */
  lemma UnpackPack(c: Channels)
    ensures Unpack(Pack(c)) == c
  {
  }

  lemma ScaleUnscale(c: bv8)
    ensures Unscale(Scale(c)) == c
  {
  }

  /** The float array loses nothing: re-packing it yields the original colour. */
  lemma ColorFloatRoundTrip(x: bv32)
    ensures FromColorFloatArray(ToColorFloatArray(x)) == x
  {
    var c := Unpack(x);
    ScaleUnscale(c.r);
    ScaleUnscale(c.g);
    ScaleUnscale(c.b);
    ScaleUnscale(c.a);
    PackUnpack(x);
  }
}
