/** Collision-mask construction for a game object's physics layer.

    The engine's pairwise "ignore collision" table is not visible here; it is
    passed in as the function `ignores(layer, other)`. The mask is a 32-bit
    word: bit `i` is set exactly when layer `i` is NOT ignored. The source
    returns it as a signed 32-bit `int`, so bit 31 is the sign bit; the model
    keeps the word as a `bv32` and gives its signed reading separately. */
module CollisionMask {

  /** The layer argument's default: "use the object's own layer". */
  const DefaultLayer: int := -1

  /** True when bit `i` of `m` is set. */
  predicate Bit(m: bv32, i: bv32)
    requires i < 32
  {
    (m >> i) & 1 == 1
  }

  /** True when the engine lets `layer` collide with layer `i`. */
  predicate Collides(ignores: (int, int) -> bool, layer: int, i: bv32)
  {
    !ignores(layer, i as int)
  }

  /** The layer the mask is computed for: the object's own layer when the
      caller passed the default -1, otherwise the layer passed. */
  function EffectiveLayer(objectLayer: int, layer: int): (l: int)
    ensures layer == DefaultLayer ==> l == objectLayer
    ensures layer != DefaultLayer ==> l == layer
  {
    if layer == DefaultLayer then objectLayer else layer
  }

  /** The value of the word as the source's signed 32-bit `int`: negative
      exactly when bit 31 is set. */
  function AsInt32(m: bv32): (r: int)
    ensures r < 0 <==> Bit(m, 31)
  {
    if m < 0x8000_0000 then m as int else m as int - 0x1_0000_0000
  }

  /** Setting bit `i` with `|` leaves every other bit as it was. */
  lemma OrBit(m: bv32, b: bv32, i: bv32, j: bv32)
    requires i < 32 && j < 32 && b <= 1
    ensures Bit(m | (b << i), j) <==> Bit(m, j) || (j == i && b == 1)
  {
  }

  /** The computed mask: bit `i` (for every one of the 32 layers) is set
      exactly when `ignores(l, i)` is false, where `l` is the effective
      layer; nothing ignored gives all ones (-1 as an `int`), everything
      ignored gives 0. */
  method GetCollisionMask(objectLayer: int, ignores: (int, int) -> bool, layer: int := DefaultLayer)
    returns (mask: bv32)
    ensures forall i: bv32 :: i < 32 ==>
      (Bit(mask, i) <==> Collides(ignores, EffectiveLayer(objectLayer, layer), i))
    ensures (forall i: bv32 :: i < 32 ==> Collides(ignores, EffectiveLayer(objectLayer, layer), i))
      ==> mask == 0xFFFF_FFFF && AsInt32(mask) == -1
    ensures (forall i: bv32 :: i < 32 ==> !Collides(ignores, EffectiveLayer(objectLayer, layer), i))
      ==> mask == 0 && AsInt32(mask) == 0
  {
    var l := layer;
    if l == DefaultLayer {
      l := objectLayer;
    }
    mask := 0;
    var i: bv32 := 0;
    while i < 32
      invariant i <= 32
      invariant forall j: bv32 :: j < i ==> (Bit(mask, j) <==> Collides(ignores, l, j))
      invariant forall j: bv32 :: i <= j < 32 ==> !Bit(mask, j)
    {
      var b: bv32 := if ignores(l, i as int) then 0 else 1;
      assert b == 1 <==> Collides(ignores, l, i);
      forall j: bv32 | j < 32
        ensures Bit(mask | (b << i), j) <==> Bit(mask, j) || (j == i && b == 1)
      {
        OrBit(mask, b, i, j);
      }
      mask := mask | (b << i);
      i := i + 1;
    }
    AllBitsSet(mask);
    NoBitsSet(mask);
  }

  /** A word agrees with `w` on its low `n` bits. */
  ghost predicate AgreeBelow(m: bv32, w: bv32, n: bv32)
    requires n <= 32
  {
    forall j: bv32 :: j < n ==> (Bit(m, j) <==> Bit(w, j))
  }

  /** Two words that agree on their low `n` bits are equal once the higher
      bits are masked off. */
  lemma {:induction false} AgreeBelowMasked(m: bv32, w: bv32, n: bv32)
    requires n <= 32
    requires AgreeBelow(m, w, n)
    ensures m & ((1 << n) - 1) == w & ((1 << n) - 1)
    decreases n
  {
    if n > 0 {
      AgreeBelowMasked(m, w, n - 1);
      assert Bit(m, n - 1) <==> Bit(w, n - 1);
      LowMaskStep(m, w, n);
    }
  }

  /** One more agreeing bit extends the masked equality by one position. */
  lemma LowMaskStep(m: bv32, w: bv32, n: bv32)
    requires 0 < n <= 32
    requires m & ((1 << (n - 1)) - 1) == w & ((1 << (n - 1)) - 1)
    requires Bit(m, n - 1) <==> Bit(w, n - 1)
    ensures m & ((1 << n) - 1) == w & ((1 << n) - 1)
  {
  }

  /** A word whose 32 bits are all set is all ones. */
  lemma AllBitsSet(m: bv32)
    ensures (forall i: bv32 :: i < 32 ==> Bit(m, i)) ==> m == 0xFFFF_FFFF
  {
    if forall i: bv32 :: i < 32 ==> Bit(m, i) {
      AgreeBelowMasked(m, 0xFFFF_FFFF, 32);
    }
  }

  /** A word with no bit set is zero. */
  lemma NoBitsSet(m: bv32)
    ensures (forall i: bv32 :: i < 32 ==> !Bit(m, i)) ==> m == 0
  {
    if forall i: bv32 :: i < 32 ==> !Bit(m, i) {
      AgreeBelowMasked(m, 0, 32);
    }
  }
}
