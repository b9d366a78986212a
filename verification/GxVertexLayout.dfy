/** Where the vertex descriptor and the attribute tables keep their fields: the
    size of a vertex told from the fields themselves, placed side by side. */
module GxVertexLayout {
  import opened Arithmetic
  import opened BigEndian
  import opened Bytes
  import opened GxDecode

  /** Nine matrix indices, then the kinds of position, normal and two colours. */
  const VCD_LO: seq<nat> := [1, 1, 1, 1, 1, 1, 1, 1, 1, 2, 2, 2, 2, 15]

  /** The kinds of the eight texture coordinates. */
  const VCD_HI: seq<nat> := [2, 2, 2, 2, 2, 2, 2, 2, 16]

  /** Elements, format and shift of the position; elements and format of normal
      and colours; those and the shift of texture coordinate 0; then dequantise
      and whether an indexed normal has three indices. */
  const VAT_A: seq<nat> := [1, 3, 5, 1, 3, 1, 3, 1, 3, 1, 3, 5, 1, 1]

  /** Texture coordinates 1 to 3, elements and format of 4, and the cache bit. */
  const VAT_B: seq<nat> := [1, 3, 5, 1, 3, 5, 1, 3, 5, 1, 3, 1]

  /** The shift of texture coordinate 4, then 5 to 7. */
  const VAT_C: seq<nat> := [5, 1, 3, 5, 1, 3, 5, 1, 3, 5]

  function Sum(ns: seq<nat>): nat {
    if ns == [] then 0 else ns[0] + Sum(ns[1..])
  }

  /** The size of a vertex with these fields in the five registers. */
  function SizeOf(lo: seq<nat>, hi: seq<nat>, a: seq<nat>, b: seq<nat>, c: seq<nat>): nat
    requires |lo| == |VCD_LO| && |hi| == |VCD_HI| && |a| == |VAT_A| && |b| == |VAT_B| && |c| == |VAT_C|
  {
    Sum(lo[..9])
    + PosSize(lo[9], a[1], a[0]) + NormSize(lo[10], a[4], a[3], a[13])
    + ColorSize(lo[11], a[6]) + ColorSize(lo[12], a[8])
    + TexSize(hi[0], a[10], a[9])
    + TexSize(hi[1], b[1], b[0]) + TexSize(hi[2], b[4], b[3]) + TexSize(hi[3], b[7], b[6])
    + TexSize(hi[4], b[10], b[9])
    + TexSize(hi[5], c[2], c[1]) + TexSize(hi[6], c[5], c[4]) + TexSize(hi[7], c[8], c[7])
  }

  /** `at` is where each field starts. */
  predicate Starts(widths: seq<nat>, at: seq<nat>) {
    && |at| == |widths| && (at != [] ==> at[0] == 0)
    && forall i :: 0 <= i < |at| - 1 ==> at[i + 1] == at[i] + widths[i]
  }

  lemma {:induction false} BelowIs(widths: seq<nat>, at: seq<nat>, i: nat)
    requires Starts(widths, at) && i < |widths|
    ensures Below(widths, i) == at[i]
  {
    if i > 0 {
      BelowIs(widths, at, i - 1);
      BelowSnoc(widths, i - 1);
    }
  }

  lemma {:induction false} BelowSnoc(widths: seq<nat>, i: nat)
    requires i < |widths|
    ensures Below(widths, i + 1) == Below(widths, i) + widths[i]
    decreases i
  {
    if i > 0 {
      BelowSnoc(widths[1..], i - 1);
    }
  }

  lemma AllPlaced(fields: seq<nat>, widths: seq<nat>, at: seq<nat>)
    requires Fitting(fields, widths) && Starts(widths, at)
    ensures forall i :: 0 <= i < |fields| ==> Bits(Joined(fields, widths), at[i], widths[i]) == fields[i]
  {
    forall i | 0 <= i < |fields|
      ensures Bits(Joined(fields, widths), at[i], widths[i]) == fields[i]
    {
      BelowIs(widths, at, i);
      FieldIsPlaced(fields, widths, i);
    }
  }

  /** Bit positions of the fields. */
  const AT_LO: seq<nat> := [0, 1, 2, 3, 4, 5, 6, 7, 8, 9, 11, 13, 15, 17]
  const AT_HI: seq<nat> := [0, 2, 4, 6, 8, 10, 12, 14, 16]
  const AT_A: seq<nat> := [0, 1, 4, 9, 10, 13, 14, 17, 18, 21, 22, 25, 30, 31]
  const AT_B: seq<nat> := [0, 1, 4, 9, 10, 13, 18, 19, 22, 27, 28, 31]
  const AT_C: seq<nat> := [0, 5, 6, 9, 14, 15, 18, 23, 24, 27]

  lemma StartsAre()
    ensures Starts(VCD_LO, AT_LO) && Starts(VCD_HI, AT_HI)
    ensures Starts(VAT_A, AT_A) && Starts(VAT_B, AT_B) && Starts(VAT_C, AT_C)
  {
  }

  /** Fields of one bit count as the ones among them. */
  lemma {:induction false} OnesCount(fields: seq<nat>, widths: seq<nat>, n: nat)
    requires Fitting(fields, widths) && n <= |fields| && forall i :: 0 <= i < n ==> widths[i] == 1
    ensures PopCount(Joined(fields, widths), n) == Sum(fields[..n])
    decreases n
  {
    if n > 0 {
      var v, rest := Joined(fields, widths), Joined(fields[1..], widths[1..]);
      assert Twice(1) == 2 && fields[0] < Twice(widths[0]);
      DivModUnique(v, 2, rest, fields[0]);
      OnesCount(fields[1..], widths[1..], n - 1);
      assert fields[..n][0] == fields[0] && fields[..n][1..] == fields[1..][..n - 1];
    }
  }

  /** A field as the decoder reads it. */
  lemma FieldIsBits(v: nat, from: nat, width: nat, weight: nat, size: nat)
    requires weight == Twice(from) && size == Twice(width)
    ensures Field(v, weight, size) == Bits(v, from, width)
  {
  }

  lemma {:induction false} Pow4IsTwice(i: nat)
    ensures Pow4(i) == Twice(2 * i)
  {
    if i > 0 {
      Pow4IsTwice(i - 1);
    }
  }

  /** The five registers that size a vertex hold these fields. */
  ghost predicate Holds(cp: CpRegs, vat: nat, lo: seq<nat>, hi: seq<nat>, a: seq<nat>, b: seq<nat>, c: seq<nat>) {
    && vat < 8
    && Fitting(lo, VCD_LO) && Fitting(hi, VCD_HI) && Fitting(a, VAT_A) && Fitting(b, VAT_B) && Fitting(c, VAT_C)
    && cp.vcdLo == Joined(lo, VCD_LO) && cp.vcdHi == Joined(hi, VCD_HI)
    && cp.vatA[vat] == Joined(a, VAT_A) && cp.vatB[vat] == Joined(b, VAT_B) && cp.vatC[vat] == Joined(c, VAT_C)
  }

  lemma Read(v: nat, fields: seq<nat>, widths: seq<nat>, at: seq<nat>, i: nat, weight: nat, size: nat)
    requires Fitting(fields, widths) && Starts(widths, at) && v == Joined(fields, widths) && i < |fields|
    requires weight == Twice(at[i]) && size == Twice(widths[i])
    ensures Field(v, weight, size) == fields[i]
  {
    AllPlaced(fields, widths, at);
    FieldIsBits(v, at[i], widths[i], weight, size);
    hide Field, Bits, Twice, Joined, Fitting, Starts;
  }

  lemma EntriesA()
    ensures AT_A[0] == 0 && AT_A[1] == 1 && AT_A[3] == 9 && AT_A[4] == 10 && AT_A[6] == 14 && AT_A[8] == 18
    ensures AT_A[9] == 21 && AT_A[10] == 22 && AT_A[13] == 31
    ensures VAT_A[0] == VAT_A[3] == VAT_A[9] == VAT_A[13] == 1
    ensures VAT_A[1] == VAT_A[4] == VAT_A[6] == VAT_A[8] == VAT_A[10] == 3
  {
  }

  lemma EntriesBC()
    ensures AT_B[0] == 0 && AT_B[1] == 1 && AT_B[3] == 9 && AT_B[4] == 10 && AT_B[6] == 18 && AT_B[7] == 19
    ensures AT_B[9] == 27 && AT_B[10] == 28
    ensures VAT_B[0] == VAT_B[3] == VAT_B[6] == VAT_B[9] == 1 && VAT_B[1] == VAT_B[4] == VAT_B[7] == VAT_B[10] == 3
    ensures AT_C[1] == 5 && AT_C[2] == 6 && AT_C[4] == 14 && AT_C[5] == 15 && AT_C[7] == 23 && AT_C[8] == 24
    ensures VAT_C[1] == VAT_C[4] == VAT_C[7] == 1 && VAT_C[2] == VAT_C[5] == VAT_C[8] == 3
  {
  }

  lemma EntriesHi()
    ensures forall i :: 0 <= i < 8 ==> AT_HI[i] == 2 * i && VCD_HI[i] == 2
  {
  }

  lemma LoFields(v: nat, f: seq<nat>)
    requires Fitting(f, VCD_LO) && v == Joined(f, VCD_LO)
    ensures Field(v, 0x200, 4) == f[9] && Field(v, 0x800, 4) == f[10]
    ensures Field(v, 0x2000, 4) == f[11] && Field(v, 0x8000, 4) == f[12]
    ensures PopCount(v, 9) == Sum(f[..9])
  {
    OnesCount(f, VCD_LO, 9);
    StartsAre();
    SmallTwices();
    assert |f| == 14;
    hide Field, Twice, Starts, Joined, Fitting, PopCount, Sum;
    Read(v, f, VCD_LO, AT_LO, 9, 0x200, 4);
    Read(v, f, VCD_LO, AT_LO, 10, 0x800, 4);
    Read(v, f, VCD_LO, AT_LO, 11, 0x2000, 4);
    Read(v, f, VCD_LO, AT_LO, 12, 0x8000, 4);
  }

  lemma AFields(v: nat, f: seq<nat>)
    requires Fitting(f, VAT_A) && v == Joined(f, VAT_A)
    ensures Field(v, 1, 2) == f[0] && Field(v, 2, 8) == f[1] && Field(v, 0x200, 2) == f[3] && Field(v, 0x400, 8) == f[4]
    ensures Field(v, 0x4000, 8) == f[6] && Field(v, 0x4_0000, 8) == f[8] && Field(v, 0x8000_0000, 2) == f[13]
    ensures Field(v, 0x20_0000, 2) == f[9] && Field(v, 0x40_0000, 8) == f[10]
  {
    EntriesA();
    StartsAre();
    SmallTwices();
    LargeTwices();
    assert |f| == 14;
    hide Field, Twice, Starts, Joined, Fitting;
    Read(v, f, VAT_A, AT_A, 0, 1, 2);
    Read(v, f, VAT_A, AT_A, 1, 2, 8);
    Read(v, f, VAT_A, AT_A, 3, 0x200, 2);
    Read(v, f, VAT_A, AT_A, 4, 0x400, 8);
    Read(v, f, VAT_A, AT_A, 6, 0x4000, 8);
    Read(v, f, VAT_A, AT_A, 8, 0x4_0000, 8);
    Read(v, f, VAT_A, AT_A, 9, 0x20_0000, 2);
    Read(v, f, VAT_A, AT_A, 10, 0x40_0000, 8);
    Read(v, f, VAT_A, AT_A, 13, 0x8000_0000, 2);
  }

  lemma BFields(v: nat, f: seq<nat>)
    requires Fitting(f, VAT_B) && v == Joined(f, VAT_B)
    ensures Field(v, 1, 2) == f[0] && Field(v, 2, 8) == f[1] && Field(v, 0x200, 2) == f[3] && Field(v, 0x400, 8) == f[4]
    ensures Field(v, 0x4_0000, 2) == f[6] && Field(v, 0x8_0000, 8) == f[7]
    ensures Field(v, 0x800_0000, 2) == f[9] && Field(v, 0x1000_0000, 8) == f[10]
  {
    EntriesBC();
    StartsAre();
    SmallTwices();
    LargeTwices();
    assert |f| == 12;
    hide Field, Twice, Starts, Joined, Fitting;
    Read(v, f, VAT_B, AT_B, 0, 1, 2);
    Read(v, f, VAT_B, AT_B, 1, 2, 8);
    Read(v, f, VAT_B, AT_B, 3, 0x200, 2);
    Read(v, f, VAT_B, AT_B, 4, 0x400, 8);
    Read(v, f, VAT_B, AT_B, 6, 0x4_0000, 2);
    Read(v, f, VAT_B, AT_B, 7, 0x8_0000, 8);
    Read(v, f, VAT_B, AT_B, 9, 0x800_0000, 2);
    Read(v, f, VAT_B, AT_B, 10, 0x1000_0000, 8);
  }

  lemma CFields(v: nat, f: seq<nat>)
    requires Fitting(f, VAT_C) && v == Joined(f, VAT_C)
    ensures Field(v, 0x20, 2) == f[1] && Field(v, 0x40, 8) == f[2] && Field(v, 0x4000, 2) == f[4] && Field(v, 0x8000, 8) == f[5]
    ensures Field(v, 0x80_0000, 2) == f[7] && Field(v, 0x100_0000, 8) == f[8]
  {
    EntriesBC();
    StartsAre();
    SmallTwices();
    LargeTwices();
    assert |f| == 10;
    hide Field, Twice, Starts, Joined, Fitting;
    Read(v, f, VAT_C, AT_C, 1, 0x20, 2);
    Read(v, f, VAT_C, AT_C, 2, 0x40, 8);
    Read(v, f, VAT_C, AT_C, 4, 0x4000, 2);
    Read(v, f, VAT_C, AT_C, 5, 0x8000, 8);
    Read(v, f, VAT_C, AT_C, 7, 0x80_0000, 2);
    Read(v, f, VAT_C, AT_C, 8, 0x100_0000, 8);
  }

  lemma HiField(v: nat, f: seq<nat>, i: nat)
    requires Fitting(f, VCD_HI) && v == Joined(f, VCD_HI) && i < 8
    ensures Field(v, Pow4(i), 4) == f[i]
  {
    assert |f| == 9;
    hide Field, Twice, Starts, Joined, Fitting, Pow4;
    StartsAre();
    SmallTwices();
    Pow4IsTwice(i);
    EntriesHi();
    Read(v, f, VCD_HI, AT_HI, i, Pow4(i), 4);
  }

  /** Texture coordinate `i` has the size of its own three fields. */
  lemma OneCoordinate(cp: CpRegs, vat: nat, lo: seq<nat>, hi: seq<nat>, a: seq<nat>, b: seq<nat>, c: seq<nat>)
    requires Holds(cp, vat, lo, hi, a, b, c)
    ensures OneTexSize(cp, vat, 0) == TexSize(hi[0], a[10], a[9]) && OneTexSize(cp, vat, 1) == TexSize(hi[1], b[1], b[0])
    ensures OneTexSize(cp, vat, 2) == TexSize(hi[2], b[4], b[3]) && OneTexSize(cp, vat, 3) == TexSize(hi[3], b[7], b[6])
    ensures OneTexSize(cp, vat, 4) == TexSize(hi[4], b[10], b[9]) && OneTexSize(cp, vat, 5) == TexSize(hi[5], c[2], c[1])
    ensures OneTexSize(cp, vat, 6) == TexSize(hi[6], c[5], c[4]) && OneTexSize(cp, vat, 7) == TexSize(hi[7], c[8], c[7])
  {
    AFields(cp.vatA[vat], a);
    BFields(cp.vatB[vat], b);
    CFields(cp.vatC[vat], c);
    HiField(cp.vcdHi, hi, 0);
    HiField(cp.vcdHi, hi, 1);
    HiField(cp.vcdHi, hi, 2);
    HiField(cp.vcdHi, hi, 3);
    HiField(cp.vcdHi, hi, 4);
    HiField(cp.vcdHi, hi, 5);
    HiField(cp.vcdHi, hi, 6);
    HiField(cp.vcdHi, hi, 7);
    hide Field, Pow4, TexSize, Holds;
  }

  lemma EightCoordinates(cp: CpRegs, vat: nat)
    requires vat < 8
    ensures TexSizes(cp, vat, 8)
            == OneTexSize(cp, vat, 0) + OneTexSize(cp, vat, 1) + OneTexSize(cp, vat, 2) + OneTexSize(cp, vat, 3)
               + OneTexSize(cp, vat, 4) + OneTexSize(cp, vat, 5) + OneTexSize(cp, vat, 6) + OneTexSize(cp, vat, 7)
  {
    NextCoordinate(cp, vat, 0);
    hide OneTexSize, TexSizes;
    NextCoordinate(cp, vat, 1);
    NextCoordinate(cp, vat, 2);
    NextCoordinate(cp, vat, 3);
    NextCoordinate(cp, vat, 4);
    NextCoordinate(cp, vat, 5);
    NextCoordinate(cp, vat, 6);
    NextCoordinate(cp, vat, 7);
  }

  lemma NextCoordinate(cp: CpRegs, vat: nat, i: nat)
    requires vat < 8
    ensures TexSizes(cp, vat, i + 1) == TexSizes(cp, vat, i) + OneTexSize(cp, vat, i)
    ensures TexSizes(cp, vat, 0) == 0
  {
  }

  /** PLACED ATTRIBUTES.  With its fields placed side by side in the registers, a
      vertex has the size of its attributes, each told from its own kind, format
      and elements, whatever stands in the fields beside them. */
  lemma PlacedVertexSize(cp: CpRegs, vat: nat, lo: seq<nat>, hi: seq<nat>, a: seq<nat>, b: seq<nat>, c: seq<nat>)
    requires Holds(cp, vat, lo, hi, a, b, c)
    ensures VertexSize(cp, vat) == SizeOf(lo, hi, a, b, c)
  {
    OneCoordinate(cp, vat, lo, hi, a, b, c);
    EightCoordinates(cp, vat);
    LoFields(cp.vcdLo, lo);
    AFields(cp.vatA[vat], a);
    hide Field, TexSizes, OneTexSize, PosSize, NormSize, ColorSize, TexSize, PopCount, Sum, Holds;
  }

  lemma WidthsAre()
    ensures Below(VCD_LO, |VCD_LO|) == Below(VCD_HI, |VCD_HI|) == 32
    ensures Below(VAT_A, |VAT_A|) == Below(VAT_B, |VAT_B|) == Below(VAT_C, |VAT_C|) == 32
  {
    StartsAre();
    hide Below;
    BelowIs(VCD_LO, AT_LO, 13);
    BelowSnoc(VCD_LO, 13);
    BelowIs(VCD_HI, AT_HI, 8);
    BelowSnoc(VCD_HI, 8);
    BelowIs(VAT_A, AT_A, 13);
    BelowSnoc(VAT_A, 13);
    BelowIs(VAT_B, AT_B, 11);
    BelowSnoc(VAT_B, 11);
    BelowIs(VAT_C, AT_C, 9);
    BelowSnoc(VAT_C, 9);
  }

  /** The size told from the fields the five registers are made of. */
  function FieldsSize(cp: CpRegs, vat: nat): nat
    requires vat < 8
  {
    SizeOf(Parted(cp.vcdLo, VCD_LO), Parted(cp.vcdHi, VCD_HI),
           Parted(cp.vatA[vat], VAT_A), Parted(cp.vatB[vat], VAT_B), Parted(cp.vatC[vat], VAT_C))
  }

  /** That is so of every state of the registers: the widths part each of them
      without a rest. */
  lemma EveryVertexSize(cp: CpRegs, vat: nat)
    requires vat < 8
    ensures VertexSize(cp, vat) == FieldsSize(cp, vat)
  {
    WidthsAre();
    LargeTwices();
    hide Below, Twice, Parted, Joined, Fitting, VertexSize, SizeOf;
    EveryWordIsJoined(cp.vcdLo, VCD_LO);
    EveryWordIsJoined(cp.vcdHi, VCD_HI);
    EveryWordIsJoined(cp.vatA[vat], VAT_A);
    EveryWordIsJoined(cp.vatB[vat], VAT_B);
    EveryWordIsJoined(cp.vatC[vat], VAT_C);
    PlacedVertexSize(cp, vat, Parted(cp.vcdLo, VCD_LO), Parted(cp.vcdHi, VCD_HI),
                     Parted(cp.vatA[vat], VAT_A), Parted(cp.vatB[vat], VAT_B), Parted(cp.vatC[vat], VAT_C));
  }

  /** A direct colour of a format that does not exist takes no bytes. */
  lemma NoSuchColour(fmt: nat)
    requires fmt > 5
    ensures ColorSize(1, fmt) == 0 && ColorSize(2, fmt) == 1 && ColorSize(3, fmt) == 2
  {
  }

  /** FORMATS FROM THE STREAM.  Loads of the five registers size the vertices
      drawn afterwards by the fields placed in the words loaded. */
  lemma LoadedFormats(cp: CpRegs, vat: nat, lo: seq<nat>, hi: seq<nat>, a: seq<nat>, b: seq<nat>, c: seq<nat>)
    requires vat < 8
    requires Fitting(lo, VCD_LO) && Fitting(hi, VCD_HI) && Fitting(a, VAT_A) && Fitting(b, VAT_B) && Fitting(c, VAT_C)
    requires Joined(lo, VCD_LO) < WORD && Joined(hi, VCD_HI) < WORD
    requires Joined(a, VAT_A) < WORD && Joined(b, VAT_B) < WORD && Joined(c, VAT_C) < WORD
    ensures var cp1 := LoadCp(LoadCp(cp, 0x50, Joined(lo, VCD_LO)), 0x60, Joined(hi, VCD_HI));
            var cp2 := LoadCp(LoadCp(LoadCp(cp1, 0x70 + vat, Joined(a, VAT_A)), 0x80 + vat, Joined(b, VAT_B)), 0x90 + vat, Joined(c, VAT_C));
            VertexSize(cp2, vat) == SizeOf(lo, hi, a, b, c)
  {
    FiveLoads(cp, vat, Joined(lo, VCD_LO), Joined(hi, VCD_HI), Joined(a, VAT_A), Joined(b, VAT_B), Joined(c, VAT_C));
    hide Joined, Fitting, LoadCp, VertexSize, SizeOf;
    var cp1 := LoadCp(LoadCp(cp, 0x50, Joined(lo, VCD_LO)), 0x60, Joined(hi, VCD_HI));
    var cp2 := LoadCp(LoadCp(LoadCp(cp1, 0x70 + vat, Joined(a, VAT_A)), 0x80 + vat, Joined(b, VAT_B)), 0x90 + vat, Joined(c, VAT_C));
    PlacedVertexSize(cp2, vat, lo, hi, a, b, c);
  }

  lemma FiveLoads(cp: CpRegs, vat: nat, lo: u32, hi: u32, a: u32, b: u32, c: u32)
    requires vat < 8
    ensures var cp1 := LoadCp(LoadCp(cp, 0x50, lo), 0x60, hi);
            var cp2 := LoadCp(LoadCp(LoadCp(cp1, 0x70 + vat, a), 0x80 + vat, b), 0x90 + vat, c);
            && cp2.vcdLo == lo && cp2.vcdHi == hi && cp2.vatA[vat] == a && cp2.vatB[vat] == b && cp2.vatC[vat] == c
  {
  }
}
