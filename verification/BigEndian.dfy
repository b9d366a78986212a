/** Big-endian byte strings as the numbers they spell, whatever their length, and
    words as fields placed side by side. */
module BigEndian {
  import opened Arithmetic
  import opened Bytes

  // ---- bytes --------------------------------------------------------------

  /** Numbers that `n` bytes can spell. */
  function Power(n: nat): (p: nat)
    ensures p > 0
  {
    if n == 0 then 1 else 256 * Power(n - 1)
  }

  /** The number a byte string spells, most significant byte first. */
  function Number(d: seq<u8>): nat {
    if d == [] then 0 else 256 * Number(d[..|d| - 1]) + d[|d| - 1]
  }

  /** The low `n` bytes of a number, most significant first. */
  function Spelled(v: nat, n: nat): (d: seq<u8>)
    ensures |d| == n
  {
    if n == 0 then [] else Spelled(v / 256, n - 1) + [v % 256]
  }

  /** Spelling keeps a number modulo what the bytes can hold. */
  lemma {:induction false} NumberOfSpelled(v: nat, n: nat)
    ensures Number(Spelled(v, n)) == v % Power(n)
  {
    if n > 0 {
      NumberOfSpelled(v / 256, n - 1);
      var d := Spelled(v, n);
      assert d[..n - 1] == Spelled(v / 256, n - 1) && d[n - 1] == v % 256;
      SpellStep(v, Power(n - 1));
    }
  }

  lemma SpellStep(v: nat, p: nat)
    requires p > 0
    ensures v % (256 * p) == 256 * (v / 256 % p) + v % 256
  {
    var q := v / 256;
    assert q == p * (q / p) + q % p;
    assert 256 * (p * (q / p)) == (256 * p) * (q / p);
    DivModUnique(v, 256 * p, q / p, 256 * (q % p) + v % 256);
  }

  /** And every byte string is spelled by its number. */
  lemma {:induction false} SpelledOfNumber(d: seq<u8>)
    ensures Spelled(Number(d), |d|) == d
  {
    if d != [] {
      SpelledOfNumber(d[..|d| - 1]);
      DivModUnique(Number(d), 256, Number(d[..|d| - 1]), d[|d| - 1]);
      assert d == d[..|d| - 1] + [d[|d| - 1]];
    }
  }

  lemma SmallPowers()
    ensures Power(0) == 1 && Power(1) == 0x100 && Power(2) == 0x1_0000 && Power(3) == 0x100_0000 && Power(4) == WORD
  {
  }

  lemma NumberOf1(d: seq<u8>)
    requires |d| == 1
    ensures Number(d) == d[0]
  {
  }

  /** The fixed-width readers read the numbers their bytes spell. */
  lemma ReadersAre(d: seq<u8>)
    ensures |d| >= 2 ==> Be16(d) == Number(d[..2])
    ensures |d| >= 3 ==> Be24(d) == Number(d[..3])
    ensures |d| >= 4 ==> Be32(d) == Number(d[..4])
  {
    if |d| >= 2 {
      assert d[..2][..1] == d[..1];
      NumberOf1(d[..1]);
    }
    if |d| >= 3 {
      assert d[..3][..2] == d[..2];
    }
    if |d| >= 4 {
      assert d[..4][..3] == d[..3];
    }
  }

  /** Read over write: what is spelled in front of a stream is read back. */
  lemma ReadBack(v: nat, n: nat, rest: seq<u8>)
    requires n == 2 || n == 3 || n == 4
    ensures var d := Spelled(v, n) + rest;
            && (n == 2 ==> Be16(d) == v % 0x1_0000) && (n == 3 ==> Be24(d) == v % 0x100_0000) && (n == 4 ==> Be32(d) == v % WORD)
  {
    var d := Spelled(v, n) + rest;
    assert d[..n] == Spelled(v, n);
    ReadersAre(d);
    NumberOfSpelled(v, n);
    SmallPowers();
    hide Number, Spelled, Power, Be16, Be24, Be32;
  }

  // ---- fields -------------------------------------------------------------

  /** Values a field of `n` bits can hold. */
  function Twice(n: nat): (p: nat)
    ensures p > 0
  {
    if n == 0 then 1 else 2 * Twice(n - 1)
  }

  /** Bit `from` of a word and the `width - 1` bits above it. */
  function Bits(v: nat, from: nat, width: nat): (r: nat)
    ensures r < Twice(width)
  {
    v / Twice(from) % Twice(width)
  }

  /** A word made of fields of the given widths, the first one lowest. */
  function Joined(fields: seq<nat>, widths: seq<nat>): nat
    requires |fields| == |widths|
  {
    if fields == [] then 0 else fields[0] + Twice(widths[0]) * Joined(fields[1..], widths[1..])
  }

  predicate Fitting(fields: seq<nat>, widths: seq<nat>) {
    |fields| == |widths| && forall i :: 0 <= i < |fields| ==> fields[i] < Twice(widths[i])
  }

  function Below(widths: seq<nat>, i: nat): nat
    requires i <= |widths|
  {
    if i == 0 then 0 else widths[0] + Below(widths[1..], i - 1)
  }

  lemma {:induction false} TwiceAdds(a: nat, b: nat)
    ensures Twice(a + b) == Twice(a) * Twice(b)
  {
    if a > 0 {
      TwiceAdds(a - 1, b);
    }
  }

  lemma DivTwice(v: nat, a: nat, b: nat)
    ensures v / Twice(a + b) == v / Twice(a) / Twice(b)
  {
    TwiceAdds(a, b);
    hide Twice;
    var x, y := Twice(a), Twice(b);
    var q, r := v / x, v % x;
    assert v == x * q + r && q == y * (q / y) + q % y;
    assert v == (x * y) * (q / y) + (x * (q % y) + r) by {
      assert x * (y * (q / y)) == (x * y) * (q / y);
      assert x * q == x * (y * (q / y)) + x * (q % y);
    }
    assert x * (q % y) + r < x * y by {
      assert q % y <= y - 1;
      assert x * (q % y) <= x * (y - 1) by { MulLess(x, q % y, y - 1); }
    }
    DivModUnique(v, x * y, q / y, x * (q % y) + r);
  }

  lemma MulLess(x: nat, a: nat, b: nat)
    requires a <= b
    ensures x * a <= x * b
  {
  }

  /** PLACED FIELDS.  Field `i` is read back at the sum of the widths before it,
      whatever the other fields hold. */
  lemma {:induction false} FieldIsPlaced(fields: seq<nat>, widths: seq<nat>, i: nat)
    requires Fitting(fields, widths) && i < |fields|
    ensures Bits(Joined(fields, widths), Below(widths, i), widths[i]) == fields[i]
    decreases i
  {
    var v, w, rest := Joined(fields, widths), widths[0], Joined(fields[1..], widths[1..]);
    DivModUnique(v, Twice(w), rest, fields[0]);
    if i > 0 {
      FieldIsPlaced(fields[1..], widths[1..], i - 1);
      DivTwice(v, w, Below(widths[1..], i - 1));
    } else {
      assert v / 1 == v;
    }
  }

  function Low(v: nat, width: nat): nat {
    v % Twice(width)
  }

  function Quotient(v: nat, d: nat): nat
    requires d > 0
  {
    v / d
  }

  function High(v: nat, width: nat): nat {
    Quotient(v, Twice(width))
  }

  /** The fields of a word. */
  function Parted(v: nat, widths: seq<nat>): (fields: seq<nat>)
    ensures |fields| == |widths|
    decreases |widths|
  {
    if widths == [] then [] else [Low(v, widths[0])] + Parted(High(v, widths[0]), widths[1..])
  }

  lemma LowAndHigh(v: nat, w: nat, n: nat)
    ensures Low(v, w) + Twice(w) * High(v, w) == v && Low(v, w) < Twice(w)
    ensures v < Twice(w + n) ==> High(v, w) < Twice(n)
  {
    TwiceAdds(w, n);
    hide Twice;
    if v < Twice(w + n) {
      DivBelow(v, Twice(w), Twice(n));
    }
  }

  /** Every word of the widths' total size is made of fields that fit. */
  lemma {:induction false} EveryWordIsJoined(v: nat, widths: seq<nat>)
    requires v < Twice(Below(widths, |widths|))
    ensures Fitting(Parted(v, widths), widths) && Joined(Parted(v, widths), widths) == v
    decreases |widths|
  {
    if widths != [] {
      var w, f := widths[0], Parted(v, widths);
      LowAndHigh(v, w, Below(widths[1..], |widths| - 1));
      EveryWordIsJoined(High(v, w), widths[1..]);
      hide Twice, Low, High;
      assert f[1..] == Parted(High(v, w), widths[1..]);
      forall i | 0 <= i < |f|
        ensures f[i] < Twice(widths[i])
      {
        if i > 0 {
          assert f[i] == f[1..][i - 1] && widths[i] == widths[1..][i - 1];
        }
      }
    }
  }

  lemma DivBelow(v: nat, x: nat, y: nat)
    requires x > 0 && v < x * y
    ensures v / x < y
  {
    assert v == x * (v / x) + v % x;
    if v / x >= y {
      MulLess(x, y, v / x);
    }
  }

  lemma SmallTwices()
    ensures Twice(0) == 1 && Twice(1) == 2 && Twice(2) == 4 && Twice(3) == 8 && Twice(4) == 16 && Twice(5) == 32
    ensures Twice(6) == 0x40 && Twice(7) == 0x80 && Twice(8) == 0x100 && Twice(9) == 0x200 && Twice(10) == 0x400
    ensures Twice(11) == 0x800 && Twice(12) == 0x1000 && Twice(13) == 0x2000 && Twice(14) == 0x4000 && Twice(15) == 0x8000
    ensures Twice(16) == 0x1_0000
  {
    assert Twice(8) == 0x100;
    assert Twice(12) == 0x1000;
  }

  lemma LargeTwices()
    ensures Twice(17) == 0x2_0000 && Twice(18) == 0x4_0000 && Twice(19) == 0x8_0000 && Twice(20) == 0x10_0000
    ensures Twice(21) == 0x20_0000 && Twice(22) == 0x40_0000 && Twice(23) == 0x80_0000 && Twice(24) == 0x100_0000
    ensures Twice(25) == 0x200_0000 && Twice(26) == 0x400_0000 && Twice(27) == 0x800_0000 && Twice(28) == 0x1000_0000
    ensures Twice(29) == 0x2000_0000 && Twice(30) == 0x4000_0000 && Twice(31) == 0x8000_0000 && Twice(32) == WORD
  {
    SmallTwices();
    hide Twice;
    TwiceStep(16);
    TwiceStep(17);
    TwiceStep(18);
    TwiceStep(19);
    TwiceStep(20);
    TwiceStep(21);
    TwiceStep(22);
    TwiceStep(23);
    TwiceStep(24);
    TwiceStep(25);
    TwiceStep(26);
    TwiceStep(27);
    TwiceStep(28);
    TwiceStep(29);
    TwiceStep(30);
    TwiceStep(31);
  }

  lemma TwiceStep(n: nat)
    ensures Twice(n + 1) == 2 * Twice(n)
  {
  }
}
