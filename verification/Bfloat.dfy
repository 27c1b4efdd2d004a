/** bfloat16 at the level of bits: the upper half of a 32-bit float. */
module Bfloat {
  function FromBf16(w: bv16): bv32 {
    (w as bv32) << 16
  }

  function ToBf16(bits: bv32): bv16 {
    var bias := 0x7FFF + ((bits >> 16) & 1);
    (((bits + bias) >> 16) & 0xFFFF) as bv16
  }

  /** Every word, infinities and NaNs included, survives being widened and narrowed. */
  lemma WidenNarrow(w: bv16)
    ensures ToBf16(FromBf16(w)) == w
  {
  }

  /** Short of the wrap at the top of the range, rounding goes to the nearest word, and to the even
      one of two that are equally near. */
  lemma RoundsToNearest(bits: bv32)
    requires bits < 0xFFFF_8000
    ensures var r := FromBf16(ToBf16(bits));
            && (if r <= bits then bits - r <= 0x8000 else r - bits <= 0x8000)
            && (bits & 0xFFFF == 0x8000 ==> ToBf16(bits) & 1 == 0)
  {
  }

  /** Above it the sum wraps around: the negative NaNs up there narrow to plus zero, like the
      smallest positive floats. */
  lemma NarrowsToZero(bits: bv32)
    ensures ToBf16(bits) == 0 <==> bits <= 0x8000 || bits >= 0xFFFF_8000
  {
  }

  predicate IsZero(bits: bv32) {
    bits == 0 || bits == 0x8000_0000
  }

  /** The 32-bit floats: the pattern of a value and the value of a pattern. */
  datatype Float32 = Float32(encode: real -> bv32, decode: bv32 -> real)
  {
    /** A pattern is found again from its value, but for the sign of zero. An infinity or a NaN stands for
        a real of its own, about which nothing else is said. */
    ghost predicate Valid() {
      && decode(0) == decode(0x8000_0000)
      && forall bits :: encode(decode(bits)) == bits || (IsZero(encode(decode(bits))) && IsZero(bits))
    }

    function ToWord(v: real): bv16 {
      ToBf16(encode(v))
    }

    function FromWord(w: bv16): real {
      decode(FromBf16(w))
    }
  }

  lemma ZeroNarrows(bits: bv32)
    requires IsZero(bits)
    ensures IsZero(FromBf16(ToBf16(bits)))
  {
  }

  /** A value that was a word once does not change when it is stored again. */
  lemma RoundTwice(f: Float32, v: real)
    requires f.Valid()
    ensures f.FromWord(f.ToWord(f.FromWord(f.ToWord(v)))) == f.FromWord(f.ToWord(v))
  {
    var w := f.ToWord(v);
    var bits := FromBf16(w);
    WidenNarrow(w);
    var again := f.encode(f.decode(bits));
    if again != bits {
      ZeroNarrows(again);
    }
  }
}
