/** The offline FIFO decoder (`gx_fifo_decode.py`, without a memory span), and
    its agreement with the runtime's decoder on where commands end. */
module OfflineDecoder {
  import opened Arithmetic
  import opened BigEndian
  import opened Bytes
  import opened GxDecode
  import opened GxStream
  import opened Wrappers
  import L = GxDisplayLists
  import V = GxVertexLayout

  // ---- vertex sizes from tables -------------------------------------------

  /** Sizes of a directly stored component by format, for its two element counts. */
  const POS_DIRECT := [(2, 3), (2, 3), (4, 6), (4, 6), (8, 12), (8, 12), (8, 12), (8, 12)]
  const TEX_DIRECT := [(1, 2), (1, 2), (2, 4), (2, 4), (4, 8), (4, 8), (4, 8), (4, 8)]
  const NORMAL_DIRECT := [3, 3, 6, 6, 12, 12, 12, 12]
  const COLOR_DIRECT := [2, 3, 4, 2, 3, 4]

  function Pick(pair: (nat, nat), second: nat): nat {
    if second == 0 then pair.0 else pair.1
  }

  function TablePos(kind: nat, fmt: nat, elements: nat): nat
    requires kind < 4 && fmt < 8
  {
    if kind == 0 then 0 else if kind == 1 then Pick(POS_DIRECT[fmt], elements) else if kind == 2 then 1 else 2
  }

  function TableTex(kind: nat, fmt: nat, elements: nat): nat
    requires kind < 4 && fmt < 8
  {
    if kind == 0 then 0 else if kind == 1 then Pick(TEX_DIRECT[fmt], elements) else if kind == 2 then 1 else 2
  }

  function TableNormal(kind: nat, fmt: nat, elements: nat, index3: nat): nat
    requires kind < 4 && fmt < 8
  {
    if kind == 0 then 0
    else if kind == 1 then (if elements == 0 then NORMAL_DIRECT[fmt] else NORMAL_DIRECT[fmt] * 3)
    else if kind == 2 then (if elements == 0 then 1 else if index3 != 0 then 3 else 1)
    else (if elements == 0 then 2 else if index3 != 0 then 6 else 2)
  }

  /** A colour format above 5 is an error unless the colour is absent. */
  function TableColor(kind: nat, fmt: nat): Option<nat>
    requires kind < 4
  {
    if kind == 0 then Some(0)
    else if fmt > 5 then None
    else Some(if kind == 1 then COLOR_DIRECT[fmt] else if kind == 2 then 1 else 2)
  }

  lemma TablesAgree(kind: nat, fmt: nat, elements: nat, index3: nat)
    requires kind < 4 && fmt < 8 && elements < 2
    ensures TablePos(kind, fmt, elements) == PosSize(kind, fmt, elements)
    ensures TableTex(kind, fmt, elements) == TexSize(kind, fmt, elements)
    ensures TableNormal(kind, fmt, elements, index3) == NormSize(kind, fmt, elements, index3)
    ensures TableColor(kind, fmt).Some? ==> TableColor(kind, fmt).value == ColorSize(kind, fmt)
  {
    assert fmt == 0 || fmt == 1 || fmt == 2 || fmt == 3 || fmt == 4 || fmt == 5 || fmt == 6 || fmt == 7;
  }

  /** The registers the offline decoder keeps. */
  datatype Formats = Formats(vcdLo: u32, vcdHi: u32, vatA: File8, vatB: File8, vatC: File8)

  function FormatsOf(cp: CpRegs): Formats {
    Formats(cp.vcdLo, cp.vcdHi, cp.vatA, cp.vatB, cp.vatC)
  }

  /** Ones in a word's binary numeral. */
  function Ones(v: nat): nat {
    if v == 0 then 0 else v % 2 + Ones(v / 2)
  }

  /** Format and elements of texture coordinate `i`, where the three words of the
      attribute table hold them. */
  function TexFields(g0: u32, g1: u32, g2: u32, i: nat): (r: (nat, nat))
    ensures r.0 < 8 && r.1 < 2
  {
    EightAndTwo();
    match i
    case 0 => (Bits(g0, 22, 3), Bits(g0, 21, 1))
    case 1 => (Bits(g1, 1, 3), Bits(g1, 0, 1))
    case 2 => (Bits(g1, 10, 3), Bits(g1, 9, 1))
    case 3 => (Bits(g1, 19, 3), Bits(g1, 18, 1))
    case 4 => (Bits(g1, 28, 3), Bits(g1, 27, 1))
    case 5 => (Bits(g2, 6, 3), Bits(g2, 5, 1))
    case 6 => (Bits(g2, 15, 3), Bits(g2, 14, 1))
    case _ => (Bits(g2, 24, 3), Bits(g2, 23, 1))
  }

  lemma EightAndTwo()
    ensures Twice(3) == 8 && Twice(2) == 4 && Twice(1) == 2
  {
  }

  function TableTexAt(f: Formats, vat: nat, i: nat): nat
    requires vat < 8
  {
    EightAndTwo();
    var (fmt, elements) := TexFields(f.vatA[vat], f.vatB[vat], f.vatC[vat], i);
    TableTex(Bits(f.vcdHi, 2 * i, 2), fmt, elements)
  }

  function TableTexes(f: Formats, vat: nat, count: nat): nat
    requires vat < 8
  {
    if count == 0 then 0 else TableTexes(f, vat, count - 1) + TableTexAt(f, vat, count - 1)
  }

  function TableVertexSize(f: Formats, vat: nat): Option<nat>
    requires vat < 8
  {
    EightAndTwo();
    var lo, g0 := f.vcdLo, f.vatA[vat];
    var c0 := TableColor(Bits(lo, 13, 2), Bits(g0, 14, 3));
    var c1 := TableColor(Bits(lo, 15, 2), Bits(g0, 18, 3));
    if c0.None? || c1.None? then None
    else
      Some(Ones(lo % 0x200)
           + TablePos(Bits(lo, 9, 2), Bits(g0, 1, 3), Bits(g0, 0, 1))
           + TableNormal(Bits(lo, 11, 2), Bits(g0, 10, 3), Bits(g0, 9, 1), Bits(g0, 31, 1))
           + c0.value + c1.value + TableTexes(f, vat, 8))
  }

  /** Counting nine bits one by one counts the ones of what they spell. */
  lemma {:induction false} OnesAre(v: nat, n: nat)
    ensures Ones(v % Twice(n)) == PopCount(v, n)
    decreases n
  {
    if n > 0 {
      OnesAre(v / 2, n - 1);
      HalfOf(v, Twice(n - 1));
    }
  }

  lemma HalfOf(v: nat, p: nat)
    requires p > 0
    ensures v % (2 * p) % 2 == v % 2 && v % (2 * p) / 2 == v / 2 % p
  {
    var q := v / 2;
    assert q == p * (q / p) + q % p;
    assert 2 * (p * (q / p)) == (2 * p) * (q / p);
    DivModUnique(v, 2 * p, q / p, 2 * (q % p) + v % 2);
  }

  /** Both read texture coordinate `i` at the same places. */
  lemma TexPlaces(cp: CpRegs, vat: nat, i: nat)
    requires vat < 8 && i < 8
    ensures var (group, weight) := TexField(cp, vat, i);
            TexFields(cp.vatA[vat], cp.vatB[vat], cp.vatC[vat], i) == (Field(group, 2 * weight, 8), Field(group, weight, 2))
    ensures Bits(cp.vcdHi, 2 * i, 2) == Field(cp.vcdHi, Pow4(i), 4)
  {
    V.Pow4IsTwice(i);
    EightAndTwo();
    SmallTwices();
    LargeTwices();
    hide Twice, Pow4;
  }

  lemma {:induction false} TexesAgree(cp: CpRegs, vat: nat, count: nat)
    requires vat < 8 && count <= 8
    ensures TableTexes(FormatsOf(cp), vat, count) == TexSizes(cp, vat, count)
  {
    if count > 0 {
      TexesAgree(cp, vat, count - 1);
      TexPlaces(cp, vat, count - 1);
      EightAndTwo();
      var (group, weight) := TexField(cp, vat, count - 1);
      hide Pow4, TexSize, TableTex, Field, TexField, TexFields, Bits, Twice;
      TablesAgree(Field(cp.vcdHi, Pow4(count - 1), 4), Field(group, 2 * weight, 8), Field(group, weight, 2), 0);
    }
  }

  lemma FixedPlaces(lo: nat, a: nat)
    ensures Ones(lo % 0x200) == PopCount(lo, 9)
    ensures Bits(lo, 9, 2) == Field(lo, 0x200, 4) && Bits(lo, 11, 2) == Field(lo, 0x800, 4)
    ensures Bits(lo, 13, 2) == Field(lo, 0x2000, 4) && Bits(lo, 15, 2) == Field(lo, 0x8000, 4)
    ensures Bits(a, 0, 1) == Field(a, 0x1, 2) && Bits(a, 1, 3) == Field(a, 0x2, 8)
    ensures Bits(a, 9, 1) == Field(a, 0x200, 2) && Bits(a, 10, 3) == Field(a, 0x400, 8) && Bits(a, 31, 1) == Field(a, 0x8000_0000, 2)
    ensures Bits(a, 14, 3) == Field(a, 0x4000, 8) && Bits(a, 18, 3) == Field(a, 0x4_0000, 8)
  {
    OnesAre(lo, 9);
    EightAndTwo();
    SmallTwices();
    LargeTwices();
    hide Twice, Ones, PopCount;
  }

  /** TABLES ARE ARITHMETIC.  On every format the offline decoder accepts, its
      table lookup gives the vertex size the runtime computes. */
  lemma VertexSizesAgree(cp: CpRegs, vat: nat)
    requires vat < 8
    ensures var t := TableVertexSize(FormatsOf(cp), vat); t.Some? ==> t.value == VertexSize(cp, vat)
  {
    var lo, a := cp.vcdLo, cp.vatA[vat];
    TexesAgree(cp, vat, 8);
    FixedPlaces(lo, a);
    EightAndTwo();
    hide Field, Bits, Twice, PosSize, NormSize, ColorSize, TablePos, TableNormal, TableColor, TexSizes, TableTexes, PopCount, Ones;
    TablesAgree(Field(lo, 0x200, 4), Field(a, 0x2, 8), Field(a, 0x1, 2), 0);
    TablesAgree(Field(lo, 0x800, 4), Field(a, 0x400, 8), Field(a, 0x200, 2), Field(a, 0x80000000, 2));
    TablesAgree(Field(lo, 0x2000, 4), Field(a, 0x4000, 8), 0, 0);
    TablesAgree(Field(lo, 0x8000, 4), Field(a, 0x40000, 8), 0, 0);
  }

  // ---- walking a stream ---------------------------------------------------

  function Load(f: Formats, cmd: u8, value: u32): Formats {
    match cmd / 16
    case 5 => f.(vcdLo := value)
    case 6 => f.(vcdHi := value)
    case 7 => f.(vatA := f.vatA[cmd % 8 := value])
    case 8 => f.(vatB := f.vatB[cmd % 8 := value])
    case 9 => f.(vatC := f.vatC[cmd % 8 := value])
    case _ => f
  }

  /** One command: its size, a truncated end, or a refusal. */
  datatype Step = Took(n: nat) | Truncated | Refused

  function DecodeOne(f: Formats, d: seq<u8>): (s: Step)
    requires |d| > 0
    ensures s.Took? ==> 0 < s.n <= |d| && HeaderLength(d[0]) <= s.n
  {
    var op := d[0];
    if op == OP_NOP then Took(NopRun(d))
    else if op == OP_LOAD_CP then (if |d| < 6 then Truncated else Took(6))
    else if op == OP_LOAD_XF then
      if |d| < 5 then Truncated
      else if Be32(d[1..]) / 0x1_0000 >= 16 then Refused
      else if |d| < XfLength(d) then Truncated
      else Took(XfLength(d))
    else if IsIndexed(op) then (if |d| < 5 then Truncated else Took(5))
    else if op == OP_CALL_DL then (if |d| < 9 then Truncated else Took(9))
    else if op == OP_METRICS || op == OP_INVL_VC then Took(1)
    else if op == OP_LOAD_BP then (if |d| < 5 then Truncated else Took(5))
    else if IsPrim(op) then
      if |d| < 3 then Truncated
      else
        var vsize := TableVertexSize(f, op % 8);
        if vsize.None? then Refused
        else
          var total := 3 + DrawBytes(Be16(d[1..]), vsize.value);
          if |d| < total then Truncated else Took(total)
    else Refused
  }

  function Next(f: Formats, d: seq<u8>): Formats
    requires |d| > 0 && DecodeOne(f, d).Took?
  {
    if d[0] == OP_LOAD_CP then Load(f, d[1], Be32(d[2..])) else f
  }

  /** Command sizes in order, unless the stream is refused. */
  function Walk(f: Formats, d: seq<u8>): Option<seq<nat>>
    decreases |d|
  {
    if d == [] then Some([])
    else
      match DecodeOne(f, d)
      case Truncated => Some([])
      case Refused => None
      case Took(n) =>
        var rest := Walk(Next(f, d), d[n..]);
        if rest.None? then None else Some([n] + rest.value)
  }

  /** The same of the runtime's decoder. */
  ghost function Boundaries(g: Gx, d: seq<u8>): seq<nat>
    decreases |d|
  {
    var n := CommandSize(g.cp, d);
    if n == 0 then [] else [n] + Boundaries(Apply(g, d[..n]), d[n..])
  }

  /** The runtime's registers after a whole command, the list of a call included. */
  function RegsAfter(r: L.Regs, mem: seq<u8>, cmd: seq<u8>): L.Regs
    requires L.IsCommand(cmd)
  {
    if cmd[0] == OP_CALL_DL then L.ListRegs(r, L.Called(mem, cmd)) else L.StepRegs(r, cmd)
  }

  /** The memory calls see: a list runs no lists of its own. */
  function Callable(g: Gx): seq<u8> {
    if g.depth == 0 then g.mem else []
  }

  /** At a draw: empty, or whole here and there with vertices of one size that is
      not zero, or whole neither here nor there. */
  predicate DrawAgrees(f: Formats, cp: CpRegs, d: seq<u8>)
    requires |d| > 0
  {
    |d| >= 3 && IsPrim(d[0]) && TableVertexSize(f, d[0] % 8).Some? ==>
      var count, here, there := Be16(d[1..]), TableVertexSize(f, d[0] % 8).value, VertexSize(cp, d[0] % 8);
      || count == 0
      || if 3 + DrawBytes(count, here) <= |d| then here == there > 0
         else there == 0 || 3 + DrawBytes(count, there) > |d|
  }

  /** The same at every draw the offline decoder comes to, the runtime's
      registers moving on with it and through the lists it does not see. */
  predicate DrawsAgree(f: Formats, r: L.Regs, mem: seq<u8>, d: seq<u8>)
    decreases |d|
  {
    d == [] ||
    (&& DrawAgrees(f, r.cp, d)
     && (DecodeOne(f, d).Took? ==>
           var n := DecodeOne(f, d).n;
           DrawsAgree(Next(f, d), RegsAfter(r, mem, d[..n]), mem, d[n..])))
  }

  /** No list called on the way leaves other vertex formats behind. */
  predicate ListsKeep(f: Formats, r: L.Regs, mem: seq<u8>, d: seq<u8>)
    decreases |d|
  {
    d == [] ||
    (DecodeOne(f, d).Took? ==>
       var n := DecodeOne(f, d).n;
       var next := RegsAfter(r, mem, d[..n]);
       && (d[0] == OP_CALL_DL ==> FormatsOf(next.cp) == FormatsOf(r.cp))
       && ListsKeep(Next(f, d), next, mem, d[n..]))
  }

  /** No draw on the way has vertices, all of size zero: formats and stream
      decide it. */
  predicate NoZeroDraw(f: Formats, d: seq<u8>)
    decreases |d|
  {
    d == [] ||
    (&& (|d| >= 3 && IsPrim(d[0]) && Be16(d[1..]) > 0 ==> TableVertexSize(f, d[0] % 8) != Some(0))
     && (DecodeOne(f, d).Took? ==> NoZeroDraw(Next(f, d), d[DecodeOne(f, d).n..])))
  }

  lemma LoadsAgree(cp: CpRegs, cmd: u8, value: u32)
    ensures FormatsOf(LoadCp(cp, cmd, value)) == Load(FormatsOf(cp), cmd, value)
  {
  }

  /** One command is split alike exactly if it is not a draw they see differently. */
  lemma OneAgrees(f: Formats, cp: CpRegs, d: seq<u8>)
    requires |d| > 0
    ensures match DecodeOne(f, d)
            case Took(n) => CommandSize(cp, d) == n <==> DrawAgrees(f, cp, d)
            case Truncated => CommandSize(cp, d) == 0 <==> DrawAgrees(f, cp, d)
            case Refused => true
  {
    hide VertexSize, TableVertexSize, DrawBytes;
    if |d| >= 3 && IsPrim(d[0]) && TableVertexSize(f, d[0] % 8).Some? {
      var count, here, there := Be16(d[1..]), TableVertexSize(f, d[0] % 8).value, VertexSize(cp, d[0] % 8);
      DrawBytesDiffer(count, here, there);
    }
  }

  lemma DrawBytesDiffer(count: nat, a: nat, b: nat)
    ensures DrawBytes(count, a) == DrawBytes(count, b) <==> count == 0 || a == b
    ensures DrawBytes(count, a) == 0 <==> count == 0 || a == 0
  {
    if count > 0 && a != b {
      assert count * (a - b) != 0;
      assert count * a - count * b == count * (a - b);
    }
  }

  lemma RegsFollow(g: Gx, cmd: seq<u8>)
    requires L.IsCommand(cmd)
    ensures L.RegsOf(Apply(g, cmd)) == RegsAfter(L.RegsOf(g), Callable(g), cmd)
    ensures Callable(Apply(g, cmd)) == Callable(g)
  {
    hide Apply, L.StepRegs, L.ListRegs, L.Tells;
    if cmd[0] != OP_CALL_DL || g.depth > 0 {
      L.CommandTells(g, cmd);
    } else {
      L.CallSays(g, cmd);
    }
    if cmd[0] == OP_CALL_DL && g.depth > 0 {
      NestedCall(L.RegsOf(g), cmd);
    }
  }

  lemma NestedCall(r: L.Regs, cmd: seq<u8>)
    requires L.IsCommand(cmd) && cmd[0] == OP_CALL_DL
    ensures RegsAfter(r, [], cmd) == r == L.StepRegs(r, cmd)
  {
    hide CommandSize;
    NothingWhole(r.cp);
    assert L.Called([], cmd) == [];
  }

  lemma NothingWhole(cp: CpRegs)
    ensures CommandSize(cp, []) == 0
  {
  }

  lemma WalkStep(f: Formats, d: seq<u8>)
    requires |d| > 0
    ensures Walk(f, d) == match DecodeOne(f, d)
                          case Truncated => Some([])
                          case Refused => None
                          case Took(n) =>
                            var rest := Walk(Next(f, d), d[n..]);
                            if rest.None? then None else Some([n] + rest.value)
  {
  }

  lemma NoDraws(f: Formats, r: L.Regs, mem: seq<u8>)
    ensures DrawsAgree(f, r, mem, []) && NoZeroDraw(f, [])
  {
  }

  lemma DrawsStep(f: Formats, r: L.Regs, mem: seq<u8>, d: seq<u8>)
    requires |d| > 0
    ensures DrawsAgree(f, r, mem, d) <==>
              && DrawAgrees(f, r.cp, d)
              && (DecodeOne(f, d).Took? ==>
                    var n := DecodeOne(f, d).n;
                    DrawsAgree(Next(f, d), RegsAfter(r, mem, d[..n]), mem, d[n..]))
  {
  }

  lemma HeadAndRest(n: nat, a: seq<nat>, m: nat, b: seq<nat>)
    ensures [n] + a == [m] + b <==> n == m && a == b
  {
    assert ([n] + a)[0] == n && ([n] + a)[1..] == a;
    assert ([m] + b)[0] == m && ([m] + b)[1..] == b;
  }

  /** SAME BOUNDARIES.  A stream the offline decoder accepts is split by the
      runtime at the same places and to the same end if and only if every draw on
      the way is seen alike, whatever formats either starts from. */
  lemma {:induction false} SameBoundaries(f: Formats, g: Gx, d: seq<u8>)
    requires Walk(f, d).Some?
    ensures Walk(f, d).value == Boundaries(g, d) <==> DrawsAgree(f, L.RegsOf(g), Callable(g), d)
    decreases |d|
  {
    hide DecodeOne, CommandSize, Apply, Next, DrawAgrees, DrawsAgree, RegsAfter;
    if d == [] {
      NothingWhole(g.cp);
      NoDraws(f, L.RegsOf(g), Callable(g));
    } else {
      OneAgrees(f, g.cp, d);
      WalkStep(f, d);
      DrawsStep(f, L.RegsOf(g), Callable(g), d);
      match DecodeOne(f, d)
      case Took(n) =>
        var ours := Walk(Next(f, d), d[n..]).value;
        var m := CommandSize(g.cp, d);
        if m > 0 {
          HeadAndRest(n, ours, m, Boundaries(Apply(g, d[..m]), d[m..]));
        }
        if m == n {
          RegsFollow(g, d[..n]);
          SameBoundaries(Next(f, d), Apply(g, d[..n]), d[n..]);
        }
      case Truncated =>
      case Refused =>
    }
  }

  function Total(ns: seq<nat>): nat {
    if ns == [] then 0 else ns[0] + Total(ns[1..])
  }

  lemma {:induction false} BoundariesCoverRun(g: Gx, d: seq<u8>)
    ensures Total(Boundaries(g, d)) == Run(g, d).used
    decreases |d|
  {
    hide CommandSize, Apply;
    RunStep(g, d);
    var n := CommandSize(g.cp, d);
    if n > 0 {
      BoundariesCoverRun(Apply(g, d[..n]), d[n..]);
      assert Boundaries(g, d)[1..] == Boundaries(Apply(g, d[..n]), d[n..]);
    }
  }

  // ---- the two ways they part ---------------------------------------------

  lemma FormatsFollow(f: Formats, r: L.Regs, d: seq<u8>)
    requires |d| > 0 && DecodeOne(f, d).Took? && FormatsOf(r.cp) == f && d[0] != OP_CALL_DL
    ensures FormatsOf(L.StepRegs(r, d[..DecodeOne(f, d).n]).cp) == Next(f, d)
  {
    hide DecodeOne, LoadCp, Load, L.StoreBp;
    if d[0] == OP_LOAD_CP {
      LoadsAgree(r.cp, d[1], Be32(d[2..]));
      assert d[..DecodeOne(f, d).n][2..][..4] == d[2..][..4];
    }
  }

  /** From the same formats a draw is seen differently only if its vertices have
      size zero. */
  lemma SameFormats(cp: CpRegs, d: seq<u8>)
    requires |d| > 0
    ensures DrawAgrees(FormatsOf(cp), cp, d) <==>
              !(|d| >= 3 && IsPrim(d[0]) && Be16(d[1..]) > 0 && TableVertexSize(FormatsOf(cp), d[0] % 8) == Some(0))
  {
    hide VertexSize, TableVertexSize;
    VertexSizesAgree(cp, d[0] % 8);
  }

  lemma PartsStep(f: Formats, r: L.Regs, mem: seq<u8>, d: seq<u8>)
    requires |d| > 0
    ensures NoZeroDraw(f, d) <==>
              && !(|d| >= 3 && IsPrim(d[0]) && Be16(d[1..]) > 0 && TableVertexSize(f, d[0] % 8) == Some(0))
              && (DecodeOne(f, d).Took? ==> NoZeroDraw(Next(f, d), d[DecodeOne(f, d).n..]))
    ensures ListsKeep(f, r, mem, d) && DecodeOne(f, d).Took? ==>
              var n := DecodeOne(f, d).n;
              var next := RegsAfter(r, mem, d[..n]);
              && (d[0] == OP_CALL_DL ==> FormatsOf(next.cp) == FormatsOf(r.cp))
              && ListsKeep(Next(f, d), next, mem, d[n..])
  {
    hide DecodeOne, RegsAfter, Next, TableVertexSize;
  }

  lemma {:induction false} ZeroDrawsPart(f: Formats, r: L.Regs, mem: seq<u8>, d: seq<u8>)
    requires FormatsOf(r.cp) == f && ListsKeep(f, r, mem, d)
    ensures DrawsAgree(f, r, mem, d) <==> NoZeroDraw(f, d)
    decreases |d|
  {
    hide DecodeOne, TableVertexSize, DrawAgrees, ListsKeep, DrawsAgree, NoZeroDraw, L.StepRegs, L.ListRegs, L.Called, Load;
    if d == [] {
      NoDraws(f, r, mem);
    } else {
      DrawsStep(f, r, mem, d);
      PartsStep(f, r, mem, d);
      SameFormats(r.cp, d);
      if DecodeOne(f, d).Took? {
        var n := DecodeOne(f, d).n;
        if d[0] != OP_CALL_DL {
          FormatsFollow(f, r, d);
        }
        ZeroDrawsPart(Next(f, d), RegsAfter(r, mem, d[..n]), mem, d[n..]);
      }
    }
  }

  /** DRAWS OF SIZE ZERO.  Started from the runtime's formats, on a stream whose
      lists leave them as they are, the two split alike if and only if no draw
      has vertices that all have size zero. */
  lemma SameUnlessZeroSize(g: Gx, d: seq<u8>)
    requires Walk(FormatsOf(g.cp), d).Some? && ListsKeep(FormatsOf(g.cp), L.RegsOf(g), Callable(g), d)
    ensures Walk(FormatsOf(g.cp), d).value == Boundaries(g, d) <==> NoZeroDraw(FormatsOf(g.cp), d)
  {
    hide Walk, Boundaries, ListsKeep, DrawsAgree, NoZeroDraw;
    SameBoundaries(FormatsOf(g.cp), g, d);
    ZeroDrawsPart(FormatsOf(g.cp), L.RegsOf(g), Callable(g), d);
  }

  lemma NoField(weight: nat)
    requires weight > 0
    ensures Field(0, weight, 4) == 0
  {
  }

  lemma {:induction false} NoTextures(cp: CpRegs, vat: nat, count: nat)
    requires vat < 8 && cp.vcdHi == 0
    ensures TexSizes(cp, vat, count) == 0
  {
    if count > 0 {
      NoTextures(cp, vat, count - 1);
      NoField(Pow4(count - 1));
      hide Field;
    }
  }

  lemma NothingStored(lo: nat)
    requires lo < 4
    ensures Field(lo, 0x200, 4) == Field(lo, 0x800, 4) == Field(lo, 0x2000, 4) == Field(lo, 0x8000, 4) == 0
  {
  }

  /** Matrix indices only, one byte each. */
  lemma IndexBytes(cp: CpRegs)
    requires cp.vcdHi == 0 && cp.vcdLo < 4
    ensures VertexSize(cp, 0) == cp.vcdLo % 2 + cp.vcdLo / 2
    ensures TableVertexSize(FormatsOf(cp), 0) == Some(VertexSize(cp, 0))
  {
    hide TexSizes, TableTexes, PopCount, Field;
    NothingStored(cp.vcdLo);
    NoTextures(cp, 0, 8);
    SmallCount(cp.vcdLo);
    hide TablePos, TableNormal;
    VertexSizesAgree(cp, 0);
  }

  lemma SmallCount(v: nat)
    requires v < 4
    ensures PopCount(v, 9) == v % 2 + v / 2
  {
    NoBits(7);
    assert PopCount(v / 2, 8) == v / 2 % 2 + PopCount(v / 2 / 2, 7);
  }

  lemma {:induction false} NoBits(bits: nat)
    ensures PopCount(0, bits) == 0
  {
    if bits > 0 {
      NoBits(bits - 1);
    }
  }

  /** FINDING.  A draw of vertices of size zero separates them: with the formats
      of a machine after reset, the offline decoder steps over the header of a
      draw of one vertex and the runtime stops in front of it. */
  lemma ZeroSizeDrawsDiffer(g: Gx, d: seq<u8>)
    requires g.cp.vcdLo == 0 && g.cp.vcdHi == 0 && d == [0x80, 0, 1]
    ensures Walk(FormatsOf(g.cp), d) == Some([3]) && Boundaries(g, d) == []
  {
    hide VertexSize, TableVertexSize, Walk, Apply;
    IndexBytes(g.cp);
    var f := FormatsOf(g.cp);
    assert d[1..] == [0, 1] && d[3..] == [];
    assert DecodeOne(f, d) == Took(3) && Next(f, d) == f;
    assert CommandSize(g.cp, d) == 0;
    WalkStep(f, d);
    EmptyWalk(f);
    assert [3] + [] == [3];
  }

  /** A list that makes a vertex two bytes instead of one, and a stream that
      calls it and draws one vertex. */
  const WIDENS: seq<u8> := [OP_LOAD_CP, 0x50, 0, 0, 0, 3] + seq(26, _ => OP_NOP)
  const CALL: seq<u8> := [OP_CALL_DL, 0, 0, 0, 0, 0, 0, 0, 0x20]
  const DRAW_ONE: seq<u8> := [0x80, 0, 1, 0, 0]

  lemma WidensSays(r: L.Regs)
    ensures L.ListRegs(r, WIDENS).cp == r.cp.(vcdLo := 3)
  {
    assert WIDENS[..6][2..] == [0, 0, 0, 3];
    assert Be32(WIDENS[..6][2..]) == 3;
    assert LoadCp(r.cp, 0x50, 3) == r.cp.(vcdLo := 3);
    hide LoadCp;
    L.ListStep(r, WIDENS);
    var s := L.StepRegs(r, WIDENS[..6]);
    var nops := WIDENS[6..];
    assert |nops| == 26 && forall i :: 0 <= i < 26 ==> nops[i] == OP_NOP;
    assert NopRun(nops) == 26;
    L.ListStep(s, nops);
    assert nops[26..] == [];
    L.NoList(s);
  }

  /** A whole command, and then what follows. */
  lemma CallFirst(f: Formats, g: Gx, rest: seq<u8>)
    ensures var w := Walk(f, rest); Walk(f, CALL + rest) == if w.None? then None else Some([9] + w.value)
    ensures Boundaries(g, CALL + rest) == [9] + Boundaries(Apply(g, CALL), rest)
  {
    hide Apply, DecodeOne, CommandSize, Next, Walk;
    var d := CALL + rest;
    assert d[..9] == CALL && d[9..] == rest;
    HeadOfCall(f, g.cp, d);
    WalkStep(f, d);
  }

  /** The call widens the vertices, unseen. */
  lemma CallWidens(g: Gx)
    requires g.depth == 0 && g.mem == WIDENS
    ensures Apply(g, CALL).cp == g.cp.(vcdLo := 3)
  {
    hide Apply, L.ListRegs;
    RegsFollow(g, CALL);
    assert CALL[1..] == [0, 0, 0, 0, 0, 0, 0, 0x20] && CALL[5..] == [0, 0, 0, 0x20];
    assert WIDENS[0..32] == WIDENS;
    assert L.Called(WIDENS, CALL) == WIDENS;
    WidensSays(L.RegsOf(g));
  }

  /** FINDING.  Lists part them too: one that widens the vertices makes the
      runtime take all of a draw of which the offline decoder, which does not see
      into lists, takes a part, the last byte passing for a command. */
  lemma ListsPart(g: Gx, d: seq<u8>)
    requires g.depth == 0 && g.mem == WIDENS && g.cp.vcdLo == 1 && g.cp.vcdHi == 0
    requires d == CALL + DRAW_ONE
    ensures Walk(FormatsOf(g.cp), d) == Some([9, 4, 1]) && Boundaries(g, d) == [9, 5]
  {
    hide Walk, Boundaries, Apply, VertexSize, TableVertexSize, Be16, Be32;
    var draw := d[9..];
    assert draw == DRAW_ONE && d == CALL + draw;
    CallWidens(g);
    CallFirst(FormatsOf(g.cp), g, draw);
    IndexBytes(g.cp);
    IndexBytes(Apply(g, CALL).cp);
    OfflineSplit(FormatsOf(g.cp), draw);
    RuntimeSplit(Apply(g, CALL), draw);
    assert [9] + [4, 1] == [9, 4, 1] && [9] + [5] == [9, 5];
  }

  lemma HeadOfCall(f: Formats, cp: CpRegs, d: seq<u8>)
    requires |d| >= 9 && d[0] == OP_CALL_DL
    ensures DecodeOne(f, d) == Took(9) && Next(f, d) == f && CommandSize(cp, d) == 9
  {
  }

  lemma OfflineSplit(f: Formats, d: seq<u8>)
    requires TableVertexSize(f, 0) == Some(1) && d == DRAW_ONE
    ensures Walk(f, d) == Some([4, 1])
  {
    hide TableVertexSize, Walk;
    var last := d[4..];
    assert d[1..] == [0, 1, 0, 0] && last == [0] && last[1..] == [];
    assert DecodeOne(f, d) == Took(4);
    assert NopRun(last) == 1;
    assert DecodeOne(f, last) == Took(1);
    WalkStep(f, d);
    WalkStep(f, last);
    EmptyWalk(f);
    assert [4] + [1] == [4, 1] && [1] + [] == [1];
  }

  lemma RuntimeSplit(g: Gx, d: seq<u8>)
    requires VertexSize(g.cp, 0) == 2 && d == DRAW_ONE
    ensures Boundaries(g, d) == [5]
  {
    hide VertexSize, Apply;
    assert d[1..] == [0, 1, 0, 0];
    assert CommandSize(g.cp, d) == 5;
    assert d[5..] == [];
  }

  // ---- the decoder object -------------------------------------------------

  class Decoder {
    var cp: Formats

    constructor ()
      ensures cp == Formats(0, 0, seq(8, _ => 0), seq(8, _ => 0), seq(8, _ => 0))
    {
      cp := Formats(0, 0, seq(8, _ => 0), seq(8, _ => 0), seq(8, _ => 0));
    }

    /** What the runtime's load does to the formats, whatever else the runtime's
        registers hold. */
    method LoadRegister(cmd: u8, value: u32)
      modifies this
      ensures forall regs: CpRegs :: FormatsOf(regs) == old(cp) ==> cp == FormatsOf(LoadCp(regs, cmd, value))
      ensures cp == Load(old(cp), cmd, value)
    {
      forall regs: CpRegs | FormatsOf(regs) == cp
        ensures FormatsOf(LoadCp(regs, cmd, value)) == Load(cp, cmd, value)
      {
        LoadsAgree(regs, cmd, value);
      }
      var group, low := cmd / 16, cmd % 16;
      if group == 5 {
        cp := cp.(vcdLo := value);
      } else if group == 6 {
        cp := cp.(vcdHi := value);
      } else if group == 7 {
        cp := cp.(vatA := cp.vatA[low % 8 := value]);
      } else if group == 8 {
        cp := cp.(vatB := cp.vatB[low % 8 := value]);
      } else if group == 9 {
        cp := cp.(vatC := cp.vatC[low % 8 := value]);
      }
    }

    /** Advance through the stream command by command. */
    method WalkStream(data: seq<u8>) returns (sizes: Option<seq<nat>>, end: nat)
      modifies this
      ensures sizes == Walk(old(cp), data)
      ensures sizes.Some? ==> end == Total(sizes.value)
    {
      hide DecodeOne, Load, Walk, Total, Next;
      EmptyWalk(cp);
      var found: seq<nat> := [];
      end := 0;
      assert data[0..] == data;
      assert Walk(cp, data).Some? ==> found + Walk(cp, data).value == Walk(cp, data).value;
      while end < |data|
        invariant end <= |data| && end == Total(found)
        invariant var rest := Walk(cp, data[end..]);
                  Walk(old(cp), data) == if rest.None? then None else Some(found + rest.value)
        decreases |data| - end
      {
        WalkStep(cp, data[end..]);
        match DecodeOne(cp, data[end..]) {
          case Truncated =>
            assert found + [] == found;
            return Some(found), end;
          case Refused =>
            return None, end;
          case Took(n) =>
            ghost var rest := Walk(Next(cp, data[end..]), data[end..][n..]);
            assert data[end..][n..] == data[end + n..];
            if rest.Some? {
              assert found + ([n] + rest.value) == (found + [n]) + rest.value;
            }
            NextIs(cp, data[end..]);
            if data[end] == OP_LOAD_CP {
              assert data[end..][2..] == data[end + 2..];
              LoadRegister(data[end + 1], Be32(data[end + 2..]));
            }
            TotalSnoc(found, n);
            found := found + [n];
            end := end + n;
        }
      }
      assert data[end..] == [] && found + [] == found;
      EmptyWalk(cp);
      return Some(found), end;
    }
  }

  lemma NextIs(f: Formats, d: seq<u8>)
    requires |d| > 0 && DecodeOne(f, d).Took?
    ensures d[0] == OP_LOAD_CP ==> |d| >= 6 && Next(f, d) == Load(f, d[1], Be32(d[2..]))
    ensures d[0] != OP_LOAD_CP ==> Next(f, d) == f
  {
    hide TableVertexSize, Load;
  }

  lemma EmptyWalk(f: Formats)
    ensures Walk(f, []) == Some([]) && Total([]) == 0
  {
  }

  lemma {:induction false} TotalSnoc(ns: seq<nat>, n: nat)
    ensures Total(ns + [n]) == Total(ns) + n
  {
    if ns != [] {
      assert (ns + [n])[1..] == ns[1..] + [n];
      TotalSnoc(ns[1..], n);
    }
  }
}
