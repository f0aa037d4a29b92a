/**
 * The fixed 16-colour palette of the animation, the packing of a colour
 * triple into a 24-bit key and back, and the exact-match key -> slot lookup
 * the quantiser uses.
 */
module Palette {
  import opened Pixels

  /** The palette, slot by slot; slot 0 is the background colour. */
  const PALETTE: seq<int> := [
    0x0f172a, 0x111827, 0x1f2937, 0x334155,
    0x3b82f6, 0x0b1020, 0xe2e8f0, 0x94a3b8,
    0x38bdf8, 0x1e293b, 0xf8fafc, 0x0f766e,
    0x22c55e, 0xf59e0b, 0xef4444, 0x64748b
  ]

  /** One past the largest 24-bit key. */
  const KEY_LIMIT: int := 0x100_0000

  /** The palette has 16 slots and each holds a 24-bit colour key. */
  lemma PaletteShape()
    ensures |PALETTE| == 16
    ensures forall i :: 0 <= i < |PALETTE| ==> 0 <= PALETTE[i] < KEY_LIMIT
  {
  }

  /** No colour occupies two slots, so a slot is identified by its colour. */
  lemma PaletteDistinct()
    ensures forall i, j :: 0 <= i < j < |PALETTE| ==> PALETTE[i] != PALETTE[j]
  {
  }

  /**
   * `(r << 16) | (g << 8) | b` on bytes: the three shifted fields do not
   * overlap, so the bitwise or is the sum below.
   */
  function RgbToKey(r: byte, g: byte, b: byte): (key: int)
    ensures 0 <= key < KEY_LIMIT
    ensures KeyToRgb(key) == Rgb(r, g, b)
  {
    var key := r * 0x1_0000 + g * 0x100 + b;
    assert key / 0x1_0000 == r;
    assert key / 0x100 == r * 0x100 + g;
    assert (r * 0x100 + g) % 0x100 == g;
    key
  }

  /**
   * `[(key >> 16) & 0xff, (key >> 8) & 0xff, key & 0xff]`. On an integer key
   * the 32-bit truncation before the shift keeps bits 0..31, and the masks
   * keep bits 0..23 only, so floor division and a non-negative remainder
   * give the same bytes for every integer key.
   */
  function KeyToRgb(key: int): Rgb {
    Rgb((key / 0x1_0000) % 0x100, (key / 0x100) % 0x100, key % 0x100)
  }

  /** Packing a byte triple is injective. */
  lemma RgbToKeyInjective(r: byte, g: byte, b: byte, r': byte, g': byte, b': byte)
    requires RgbToKey(r, g, b) == RgbToKey(r', g', b')
    ensures r == r' && g == g' && b == b'
  {
    assert KeyToRgb(RgbToKey(r, g, b)) == KeyToRgb(RgbToKey(r', g', b'));
  }

  /** Unpacking a 24-bit key and packing it again gives the key back. */
  lemma KeyRoundTrip(key: int)
    requires 0 <= key < KEY_LIMIT
    ensures var c := KeyToRgb(key); RgbToKey(c.r, c.g, c.b) == key
  {
    var hi, mid, lo := key / 0x1_0000, (key / 0x100) % 0x100, key % 0x100;
    assert key / 0x100 == hi * 0x100 + mid;
    assert key == (key / 0x100) * 0x100 + lo;
  }

  /**
   * `makeColorIndexMap`: the map from each palette colour to its slot. It
   * has exactly the palette colours as keys.
   */
  method MakeColorIndexMap() returns (m: map<int, nat>)
    ensures m.Keys == set i | 0 <= i < |PALETTE| :: PALETTE[i]
    ensures forall i :: 0 <= i < |PALETTE| ==> m[PALETTE[i]] == i
  {
    PaletteDistinct();
    m := map[];
    var i := 0;
    while i < |PALETTE|
      invariant 0 <= i <= |PALETTE|
      invariant m.Keys == set j | 0 <= j < i :: PALETTE[j]
      invariant forall j :: 0 <= j < i ==> m[PALETTE[j]] == j
    {
      m := m[PALETTE[i] := i];
      i := i + 1;
    }
  }

  /**
   * The slot the quantiser assigns to a colour key: `map.get(key)`, or 0
   * when the key is not a palette colour.
   */
  function SlotOf(key: int): (slot: nat)
    ensures slot < |PALETTE|
    ensures key in PALETTE ==> PALETTE[slot] == key
    ensures key !in PALETTE ==> slot == 0
  {
    SlotFrom(key, 0)
  }

  /** Linear search for `key` among the slots from `k` on. */
  function SlotFrom(key: int, k: nat): (slot: nat)
    requires k <= |PALETTE|
    ensures slot < |PALETTE|
    ensures key in PALETTE[k..] ==> k <= slot && PALETTE[slot] == key
    ensures key !in PALETTE[k..] ==> slot == 0
    decreases |PALETTE| - k
  {
    if k == |PALETTE| then 0
    else if PALETTE[k] == key then k
    else
      assert PALETTE[k..] == [PALETTE[k]] + PALETTE[k + 1..];
      SlotFrom(key, k + 1)
  }

  /** Each palette colour quantises to its own slot. */
  lemma SlotOfPalette(i: nat)
    requires i < |PALETTE|
    ensures SlotOf(PALETTE[i]) == i
  {
    PaletteDistinct();
  }

  /** `paletteToArray`: a fresh copy of the palette; writing to it cannot alter PALETTE. */
  method PaletteToArray() returns (a: array<int>)
    ensures fresh(a)
    ensures a[..] == PALETTE
  {
    a := new int[|PALETTE|](i requires 0 <= i < |PALETTE| => PALETTE[i]);
  }
}
