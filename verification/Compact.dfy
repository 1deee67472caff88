/** Compact targets: a size byte and a 23-bit word standing for a 256-bit number. */
module Compact {

  const SIGN: nat := 0x80_0000
  const BYTE3: nat := 0x100_0000

  /** Shift left by k bytes. */
  function Shl(n: nat, k: nat): nat {
    if k == 0 then n else 256 * Shl(n, k - 1)
  }

  /** Shift right by k bytes. */
  function Shr(n: nat, k: nat): nat {
    if k == 0 then n else Shr(n, k - 1) / 256
  }

  function BitLen(n: nat): nat {
    if n == 0 then 0 else BitLen(n / 2) + 1
  }

  function Size(n: nat): nat {
    (BitLen(n) + 7) / 8
  }

  /** Two to the 255: numbers below it have no sign trouble. */
  const LIMIT: nat := Shl(0x80, 31)

  datatype Encoding = Encoding(bits: nat, ok: bool)

  datatype Decoding = Decoding(value: nat, negative: bool, overflow: bool)

  /** The top three bytes of the number. */
  function Top(n: nat): nat {
    if Size(n) <= 3 then Shl(n, 3 - Size(n)) else Shr(n, Size(n) - 3)
  }

  /** The number as size and word, the word shifted once more when its sign bit is set. */
  function Parts(n: nat): (nat, nat) {
    if (Top(n) / SIGN) % 2 == 1 then (Size(n) + 1, Top(n) / 256) else (Size(n), Top(n))
  }

  function GetCompact(n: nat): Encoding {
    var (size, word) := Parts(n);
    if word >= SIGN || size > 256 then Encoding(0, false) else Encoding(word + (size * BYTE3) % 0x1_0000_0000, true)
  }

  /** The overflow test reads the shifted value, which shares its memory with the word. */
  function SetCompact(bits: nat): Decoding {
    var size, word := bits / BYTE3, bits % SIGN;
    var u := if size <= 3 then Shr(word, 3 - size) else Shl(word, size - 3);
    Decoding(u, u != 0 && (bits / SIGN) % 2 == 1,
             u != 0 && (size > 34 || (u > 0xff && size > 33) || (u > 0xffff && size > 32)))
  }

  // ----- Shifts

  lemma {:induction false} ShlTwice(n: nat, a: nat, b: nat)
    ensures Shl(Shl(n, a), b) == Shl(n, a + b)
  {
    if b > 0 { ShlTwice(n, a, b - 1); }
  }

  lemma {:induction false} ShlPlus(n: nat, m: nat, k: nat)
    ensures Shl(n + m, k) == Shl(n, k) + Shl(m, k)
  {
    if k > 0 { ShlPlus(n, m, k - 1); }
  }

  lemma {:induction false} ShlOrder(n: nat, m: nat, k: nat)
    ensures n <= m <==> Shl(n, k) <= Shl(m, k)
  {
    if k > 0 { ShlOrder(n, m, k - 1); }
  }

  lemma {:induction false} ShlMore(n: nat, a: nat, b: nat)
    requires a <= b
    ensures Shl(n, a) <= Shl(n, b)
  {
    if a < b { ShlMore(n, a, b - 1); }
  }

  lemma {:induction false} ShlScaled(n: nat, k: nat)
    ensures Shl(0x8000 * n, k) == 0x8000 * Shl(n, k)
  {
    if k > 0 { ShlScaled(n, k - 1); }
  }

  lemma ShlByte(n: nat, k: nat)
    ensures Shl(256 * n, k) == Shl(n, k + 1)
  {
    ShlTwice(n, 1, k);
    assert Shl(n, 1) == 256 * Shl(n, 0);
  }

  lemma {:induction false} ShrBounds(n: nat, k: nat)
    ensures Shl(Shr(n, k), k) <= n < Shl(Shr(n, k) + 1, k)
  {
    if k > 0 {
      ShrBounds(n, k - 1);
      var q := Shr(n, k - 1);
      ShlByte(q / 256, k - 1);
      ShlByte(q / 256 + 1, k - 1);
      ShlOrder(256 * (q / 256), q, k - 1);
      ShlOrder(q + 1, 256 * (q / 256 + 1), k - 1);
    }
  }

  lemma {:induction false} ShrShl(n: nat, k: nat)
    ensures Shr(Shl(n, k), k) == n
  {
    ShrBounds(Shl(n, k), k);
    ShlOrder(Shr(Shl(n, k), k), n, k);
    ShlOrder(Shr(Shl(n, k), k) + 1, n, k);
  }

  // ----- Sizes

  lemma {:induction false} BitLenBelow(n: nat, p: nat, k: nat)
    requires k <= 8 && n < p == [1, 2, 4, 8, 16, 32, 64, 128, 256][k]
    ensures BitLen(n) <= k
  {
    if k > 0 && n > 0 {
      BitLenBelow(n / 2, p / 2, k - 1);
    }
  }

  lemma {:induction false} BitLenByte(n: nat)
    requires n >= 256
    ensures BitLen(n) == BitLen(n / 256) + 8
  {
    assert BitLen(n) == BitLen(n / 2) + 1 == BitLen(n / 2 / 2) + 2 == BitLen(n / 2 / 2 / 2) + 3;
    assert n / 2 / 2 / 2 == n / 8 && n / 8 / 2 / 2 / 2 == n / 64 && n / 64 / 2 / 2 == n / 256;
    assert BitLen(n / 8) == BitLen(n / 8 / 2) + 1 == BitLen(n / 8 / 2 / 2) + 2 == BitLen(n / 8 / 2 / 2 / 2) + 3;
    assert BitLen(n / 64) == BitLen(n / 64 / 2) + 1 == BitLen(n / 64 / 2 / 2) + 2;
  }

  /** A number fills exactly as many bytes as its size says. */
  lemma {:induction false} SizeBounds(n: nat)
    ensures n < Shl(1, Size(n)) && (n > 0 ==> Size(n) > 0 && Shl(1, Size(n) - 1) <= n)
    decreases n
  {
    if n >= 256 {
      BitLenByte(n);
      SizeBounds(n / 256);
      assert Size(n) == Size(n / 256) + 1;
    } else {
      BitLenBelow(n, 256, 8);
      assert n > 0 ==> Size(n) == 1;
      assert Shl(1, 0) == 1 && Shl(1, 1) == 256;
    }
  }

  // ----- Size and word

  /** The number, shifted by three bytes, lies between its word and the next one at their size. */
  ghost predicate Between(n: nat, size: nat, word: nat) {
    Shl(word, size) <= Shl(n, 3) < Shl(word + 1, size)
  }

  lemma {:induction false} TopBetween(n: nat)
    ensures Between(n, Size(n), Top(n))
  {
    var s := Size(n);
    if s <= 3 {
      ShlTwice(n, 3 - s, s);
      ShlOrder(Top(n) + 1, Top(n), s);
    } else {
      ShrBounds(n, s - 3);
      ShlTwice(Top(n), s - 3, 3);
      ShlTwice(Top(n) + 1, s - 3, 3);
      ShlOrder(Shl(Top(n), s - 3), n, 3);
      ShlOrder(Shl(Top(n) + 1, s - 3), n, 3);
    }
  }

  lemma {:induction false} TopRange(n: nat)
    ensures Top(n) < BYTE3 && (n > 0 ==> Top(n) >= 0x10000)
  {
    var s := Size(n);
    TopBetween(n);
    SizeBounds(n);
    ShlOrder(n, Shl(1, s), 3);
    ShlOrder(Shl(1, s), n, 3);
    ShlTwice(1, s, 3);
    ShlTwice(1, 3, s);
    assert Shl(1, 3) == BYTE3;
    ShlOrder(BYTE3, Top(n), s);
    if n > 0 {
      ShlOrder(Shl(1, s - 1), n, 3);
      ShlTwice(1, s - 1, 3);
      ShlTwice(1, 2, s);
      assert Shl(1, 2) == 0x10000;
      ShlOrder(Top(n) + 1, 0x10000, s);
    }
  }

  lemma {:induction false} ByteLess(n: nat, s: nat, top: nat)
    requires Between(n, s, top)
    ensures Between(n, s + 1, top / 256)
  {
    var w := top / 256;
    ShlByte(w, s);
    ShlByte(w + 1, s);
    ShlOrder(256 * w, top, s);
    ShlOrder(top + 1, 256 * (w + 1), s);
  }

  /** What size and word say about the number. */
  lemma {:induction false} PartsFacts(n: nat)
    ensures
      var (size, word) := Parts(n);
      && Between(n, size, word) && word < SIGN && (n > 0 ==> word >= 0x8000)
      && (size < 3 ==> word == Shl(n, 3 - size))
  {
    var s, top := Size(n), Top(n);
    TopBetween(n);
    TopRange(n);
    if top >= SIGN {
      ByteLess(n, s, top);
      if s + 1 < 3 {
        assert Shl(n, 3 - s) == 256 * Shl(n, 3 - s - 1);
      }
    }
  }

  // ----- Round trip

  lemma {:induction false} BitsOf(size: nat, word: nat)
    requires size <= 255 && word < SIGN
    ensures
      var bits := word + (size * BYTE3) % 0x1_0000_0000;
      bits == word + size * BYTE3 && bits / BYTE3 == size && bits % SIGN == word && (bits / SIGN) % 2 == 0
  {
  }

  lemma {:induction false} UnpackParts(n: nat, size: nat, word: nat)
    requires size < 3 ==> word == Shl(n, 3 - size)
    ensures
      var u := if size <= 3 then Shr(word, 3 - size) else Shl(word, size - 3);
      Shl(u, 3) == Shl(word, size)
  {
    if size < 3 {
      ShrShl(n, 3 - size);
      ShlTwice(n, 3 - size, size);
    } else {
      ShlTwice(word, size - 3, 3);
      assert size == 3 ==> Shr(word, 3 - size) == Shl(word, size - 3) == word;
    }
  }

  /** Decoding size and word gives the word shifted to its size. */
  lemma {:induction false} DecodeParts(n: nat, size: nat, word: nat)
    requires Parts(n) == (size, word) && size <= 255
    ensures
      var e := GetCompact(n);
      && e.ok && e.bits == word + size * BYTE3 && e.bits / BYTE3 == size
      && Shl(SetCompact(e.bits).value, 3) == Shl(word, size) && !SetCompact(e.bits).negative
  {
    PartsFacts(n);
    BitsOf(size, word);
    UnpackParts(n, size, word);
  }

  /** Sizes stay within 32 bytes exactly below the limit. */
  lemma {:induction false} SizeWithinIff(n: nat)
    ensures Parts(n).0 <= 32 <==> n < LIMIT
  {
    var (size, word) := Parts(n);
    PartsFacts(n);
    if n == 0 {
      assert Size(0) == 0 && Top(0) == Shl(0, 3) == 0;
      ShlMore(0x80, 0, 31);
    } else {
      WithinIff(n, size, word, 31);
    }
  }

  lemma {:induction false} WithinIff(n: nat, size: nat, word: nat, k: nat)
    requires Between(n, size, word) && 0x8000 <= word < SIGN
    ensures size <= k + 1 <==> n < Shl(0x80, k)
  {
    ShlTwice(0x80, k, 3);
    ShlByte(0x80, k + 2);
    ShlOrder(Shl(0x80, k), n, 3);
    if size > k + 1 {
      ShlMore(word, k + 2, size);
      ShlOrder(0x8000, word, k + 2);
    } else {
      Jump(word + 1, size, 0x8000, k + 2);
    }
  }

  lemma {:induction false} SizeWithin(n: nat, k: nat)
    requires n < Shl(0x80, k)
    ensures Parts(n).0 <= k + 1
  {
    if n == 0 {
      assert Size(0) == 0 && Top(0) == Shl(0, 3) == 0;
    } else {
      var (size, word) := Parts(n);
      PartsFacts(n);
      WithinIff(n, size, word, k);
    }
  }

  lemma {:induction false} LargeValue(word: nat, k: nat)
    requires word > 0 && k >= 3
    ensures Shl(word, k) > 0xffff
  {
    ShlMore(word, 3, k);
    ShlOrder(1, word, 3);
    assert Shl(1, 3) == BYTE3;
  }

  /** A decoded value overflows exactly when it is not zero and its size byte is above 32. */
  lemma {:induction false} OverflowIff(bits: nat)
    ensures SetCompact(bits).overflow <==> SetCompact(bits).value != 0 && bits / BYTE3 > 32
  {
    var size, word := bits / BYTE3, bits % SIGN;
    if size > 32 {
      if word > 0 {
        LargeValue(word, size - 3);
      } else {
        ShlPlus(0, 0, size - 3);
      }
    }
  }

  /** Size byte, sign bit and word put together decode to the word shifted by the size, and are negative exactly if the
      sign is set and that is not zero. */
  lemma {:induction false} FieldsDecode(size: nat, sign: bool, word: nat)
    requires word < 0x80_0000
    ensures
      var d := SetCompact(size * 0x100_0000 + (if sign then 0x80_0000 else 0) + word);
      && d.value == (if size <= 3 then Shr(word, 3 - size) else Shl(word, size - 3))
      && (d.negative <==> sign && d.value != 0)
  {
    var low := (if sign then 0x80_0000 else 0) + word;
    var bits := size * 0x100_0000 + low;
    assert bits / 0x100_0000 == size && bits % 0x100_0000 == low;
    assert bits / 0x80_0000 == 2 * size + (if sign then 1 else 0) && bits % 0x80_0000 == word;
  }

  lemma {:induction false} WordWithin(word: nat, size: nat, k: nat)
    requires word < SIGN && size <= k
    ensures Shl(word, size) < Shl(0x80, k + 2)
  {
    ShlByte(0x80, k + 1);
    ShlByte(0x8000, k);
    ShlOrder(SIGN, word, k);
    ShlMore(word, size, k);
  }

  /** A decoded value without the overflow flag is below two to the 255. */
  lemma {:induction false} ValueWithin(bits: nat)
    requires !SetCompact(bits).overflow
    ensures SetCompact(bits).value < LIMIT
  {
    var size, word, k := bits / BYTE3, bits % SIGN, 29;
    OverflowIff(bits);
    if size <= 3 {
      ShrBounds(word, 3 - size);
      ShlMore(SetCompact(bits).value, 0, 3 - size);
      WordWithin(word, 0, k);
    } else if size <= 32 {
      WordWithin(word, size - 3, k);
    } else {
      ShlMore(0x80, 0, k + 2);
    }
  }

  lemma {:induction false} Loss(n: nat, d: nat, size: nat, word: nat)
    requires Between(n, size, word) && 0x8000 <= word && Shl(d, 3) == Shl(word, size)
    ensures d <= n && 0x8000 * (n - d) <= d
  {
    ShlOrder(d, n, 3);
    var lost := n - d;
    ShlPlus(d, lost, 3);
    ShlPlus(word, 1, size);
    ShlScaled(lost, 3);
    ShlScaled(1, size);
    ShlOrder(0x8000, word, size);
    ShlOrder(0x8000 * lost, d, 3);
  }

  lemma {:induction false} ZeroCompact(n: nat)
    requires n == 0
    ensures GetCompact(n) == Encoding(0, true) && SetCompact(n) == Decoding(0, false, false)
  {
    assert Size(n) == 0;
    ShrShl(n, 3);
    ShlPlus(n, n, 3);
    assert Top(n) == Shl(n, 3) == 0;
  }

  /** Below two to the 255 the compact form decodes without a flag to at most the number, and not further below it
      than one part in 2^15. */
  lemma {:induction false} RoundTrip(n: nat)
    requires n < LIMIT
    ensures
      var d := SetCompact(GetCompact(n).bits);
      GetCompact(n).ok && !d.negative && !d.overflow && d.value <= n && 0x8000 * (n - d.value) <= d.value
  {
    if n == 0 {
      ZeroCompact(n);
    } else {
      var (size, word) := Parts(n);
      PartsFacts(n);
      SizeWithinIff(n);
      DecodeParts(n, size, word);
      OverflowIff(GetCompact(n).bits);
      Loss(n, SetCompact(GetCompact(n).bits).value, size, word);
    }
  }

  /** Whatever encodes to a size byte: decoding raises a flag exactly from two to the 255 on. */
  lemma {:induction false} FlagsIff(n: nat)
    requires Parts(n).0 <= 255
    ensures
      var d := SetCompact(GetCompact(n).bits);
      d.negative || d.overflow <==> n >= LIMIT
  {
    var (size, word) := Parts(n);
    PartsFacts(n);
    DecodeParts(n, size, word);
    SizeWithinIff(n);
    var bits := GetCompact(n).bits;
    OverflowIff(bits);
    if n >= LIMIT {
      ShlOrder(0x8000, word, size);
      ShlMore(0x8000, 0, size);
      ShlOrder(SetCompact(bits).value, 0, 3);
      assert n > 0 by { ShlMore(0x80, 0, 31); }
      assert Shl(0, 3) == 0;
    }
  }

  /** A value that came out of decoding goes through encoding unchanged. */
  lemma {:induction false} DecodedIsExact(bits: nat)
    requires SetCompact(bits).value < LIMIT
    ensures SetCompact(GetCompact(SetCompact(bits).value).bits).value == SetCompact(bits).value
  {
    var d, size0, word0 := SetCompact(bits).value, bits / BYTE3, bits % SIGN;
    var w, k := if size0 <= 3 then d else word0, if size0 <= 3 then 0 else size0 - 3;
    if size0 <= 3 {
      ShrBounds(word0, 3 - size0);
      ShlMore(d, 0, 3 - size0);
    }
    assert d == Shl(w, k) && w < SIGN;
    ShiftedIsExact(w, k, d);
  }

  lemma {:induction false} ShiftedIsExact(w: nat, k: nat, d: nat)
    requires d == Shl(w, k) && w < SIGN && d < LIMIT
    ensures SetCompact(GetCompact(d).bits).value == d
  {
    var (size, word) := Parts(d);
    PartsFacts(d);
    SizeWithinIff(d);
    DecodeParts(d, size, word);
    var back := SetCompact(GetCompact(d).bits).value;
    if d == 0 {
      ShlOrder(back, 0, 3);
    } else {
      if k + 3 < size {
        ShlMore(word, k + 4, size);
        ShlOrder(0x8000, word, k + 4);
        ShlByte(0x8000, k + 3);
        ShlTwice(w, k, 3);
        ShlOrder(SIGN, w, k + 3);
      }
      var x := Shl(w, k + 3 - size);
      ShlTwice(w, k, 3);
      ShlTwice(w, k + 3 - size, size);
      ShlOrder(word, x, size);
      ShlOrder(word + 1, x, size);
      ShlOrder(back, d, 3);
      ShlOrder(d, back, 3);
    }
  }

  /** Encoding, and decoding what was encoded, keep the order of numbers. */
  lemma {:induction false} OrderKept(n: nat, m: nat)
    requires n <= m < LIMIT
    ensures GetCompact(n).bits <= GetCompact(m).bits
    ensures SetCompact(GetCompact(n).bits).value <= SetCompact(GetCompact(m).bits).value
  {
    var (sn, wn) := Parts(n);
    var (sm, wm) := Parts(m);
    PartsFacts(n);
    PartsFacts(m);
    SizeWithinIff(n);
    SizeWithinIff(m);
    DecodeParts(n, sn, wn);
    DecodeParts(m, sm, wm);
    var dn, dm := SetCompact(GetCompact(n).bits).value, SetCompact(GetCompact(m).bits).value;
    ShlOrder(dn, dm, 3);
    ShlOrder(n, m, 3);
    if n == 0 {
      assert Size(0) == 0 && Top(0) == Shl(0, 3) == 0;
      ShlOrder(0, wm, sm);
      ShlPlus(0, 0, sn);
      ShlPlus(0, 0, sm);
    } else {
      SizesOrdered(n, m, sn, wn, sm, wm);
    }
  }

  lemma {:induction false} SizesOrdered(n: nat, m: nat, sn: nat, wn: nat, sm: nat, wm: nat)
    requires n <= m && Between(n, sn, wn) && Between(m, sm, wm) && 0x8000 <= wn < SIGN && 0x8000 <= wm < SIGN
    ensures Shl(wn, sn) <= Shl(wm, sm) && (sn < sm || (sn == sm && wn <= wm))
  {
    ShlOrder(n, m, 3);
    if sn > sm {
      Jump(wm + 1, sm, wn, sn);
      assert false;
    } else if sn < sm {
      Jump(wn, sn, wm, sm);
    } else {
      ShlOrder(wm + 1, wn, sn);
      ShlOrder(wn, wm, sn);
    }
  }

  /** A word at a larger size is worth at least any word at a smaller one. */
  lemma {:induction false} Jump(small: nat, s: nat, large: nat, l: nat)
    requires small <= SIGN && 0x8000 <= large && s < l
    ensures Shl(small, s) <= Shl(large, l)
  {
    ShlOrder(small, SIGN, s);
    ShlByte(0x8000, s);
    ShlMore(large, s + 1, l);
    ShlOrder(0x8000, large, s + 1);
  }
}
