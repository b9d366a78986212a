/** Machine integers and the big-endian byte views shared by the GameCube
    devices modelled here.  All integers are unbounded in Dafny, so a width is
    always written out. */
module Bytes {
  const WORD := 0x1_0000_0000

  type u8 = x: int | 0 <= x < 256
  type u16 = x: int | 0 <= x < 0x1_0000
  type u32 = x: int | 0 <= x < 0x1_0000_0000

  /** `size` values of a field of `v` whose lowest bit has weight `weight`. */
  function Field(v: nat, weight: nat, size: nat): (r: nat)
    requires weight > 0 && size > 0
    ensures r < size
  {
    v / weight % size
  }

  function Be16(d: seq<u8>): u16
    requires |d| >= 2
  {
    256 * (d[0] as int) + d[1] as int
  }

  function Be24(d: seq<u8>): u32
    requires |d| >= 3
  {
    0x1_0000 * (d[0] as int) + 256 * (d[1] as int) + d[2] as int
  }

  function Be32(d: seq<u8>): u32
    requires |d| >= 4
  {
    0x100_0000 * (d[0] as int) + 0x1_0000 * (d[1] as int) + 256 * (d[2] as int) + d[3] as int
  }

  function BeWords(d: seq<u8>): seq<u32> {
    if |d| < 4 then [] else [Be32(d)] + BeWords(d[4..])
  }

  /** `data` with `chunk` stored from `at` on. */
  function Overwrite(data: seq<u8>, at: nat, chunk: seq<u8>): (r: seq<u8>)
    requires at + |chunk| <= |data|
    ensures |r| == |data|
  {
    data[..at] + chunk + data[at + |chunk|..]
  }

  /** Concatenation of a list of byte strings. */
  function Flatten(parts: seq<seq<u8>>): seq<u8> {
    if parts == [] then [] else parts[0] + Flatten(parts[1..])
  }

  lemma {:induction false} FlattenAppend(xs: seq<seq<u8>>, ys: seq<seq<u8>>)
    ensures Flatten(xs + ys) == Flatten(xs) + Flatten(ys)
  {
    if xs == [] {
      assert xs + ys == ys;
    } else {
      assert (xs + ys)[1..] == xs[1..] + ys;
      FlattenAppend(xs[1..], ys);
    }
  }
}
