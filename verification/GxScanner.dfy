/** The producer-side scanner (`gx_scan_command`, the loop of `gx_scan_chunk`).

    It walks the same bytes as the decoder without the decoder's registers: it
    sizes every top-level command except draws, gives up ("poison") at a draw,
    and notes where the commands end that the pixel engine can observe. */
module GxScanner {
  import opened Bytes
  import opened GxDecode
  import opened GxStream

  datatype Sized = Whole(size: nat, fence: bool) | Partial | Poison

  predicate IsFenceRegister(reg: u8) {
    reg == BP_DRAW_DONE || reg == BP_TOKEN || reg == BP_TOKEN_INT
  }

  function ScanCommand(d: seq<u8>): (r: Sized)
    ensures r.Whole? ==> 0 < r.size <= |d|
  {
    if |d| == 0 then Partial
    else if d[0] == OP_NOP then Whole(NopRun(d), false)
    else if d[0] == OP_LOAD_CP then (if |d| < 6 then Partial else Whole(6, false))
    else if d[0] == OP_LOAD_XF then
      (if |d| < 5 || |d| < XfLength(d) then Partial else Whole(XfLength(d), false))
    else if IsIndexed(d[0]) then (if |d| < 5 then Partial else Whole(5, false))
    else if d[0] == OP_CALL_DL then (if |d| < 9 then Partial else Whole(9, false))
    else if d[0] == OP_LOAD_BP then (if |d| < 5 then Partial else Whole(5, IsFenceRegister(d[1])))
    else if IsPrim(d[0]) then Poison
    else Whole(1, false)
  }

  /** Outcome of the scan loop: bytes of whole commands passed, end of the last
      fence command among them (relative to the front, 0 if there is none), and
      whether it stopped at a draw. */
  datatype Scanned = Scanned(used: nat, fence: nat, poison: bool)

  function Scan(d: seq<u8>): (r: Scanned)
    ensures r.used <= |d| && r.fence <= r.used
    decreases |d|
  {
    match ScanCommand(d)
    case Partial => Scanned(0, 0, false)
    case Poison => Scanned(0, 0, true)
    case Whole(n, f) =>
      var rest := Scan(d[n..]);
      Scanned(n + rest.used,
              if rest.fence != 0 then n + rest.fence else if f then n else 0,
              rest.poison)
  }

  /** Stream offsets at which the fence commands of `d` end, `d` starting at `pos`. */
  ghost function FenceEnds(d: seq<u8>, pos: int): set<int>
    decreases |d|
  {
    match ScanCommand(d)
    case Whole(n, f) => (if f then {pos + n} else {}) + FenceEnds(d[n..], pos + n)
    case _ => {}
  }

  ghost predicate Sizable(d: seq<u8>) {
    !Scan(d).poison
  }

  /** The scanner sizes every command exactly as the decoder does, whatever the
      decoder's registers hold. */
  lemma ScanAgrees(cp: CpRegs, d: seq<u8>)
    ensures ScanCommand(d).Whole? ==> CommandSize(cp, d) == ScanCommand(d).size
    ensures ScanCommand(d).Partial? ==> CommandSize(cp, d) == 0
  {
  }

  lemma ScanStep(d: seq<u8>)
    ensures !ScanCommand(d).Whole? ==> Scan(d) == Scanned(0, 0, ScanCommand(d).Poison?)
    ensures ScanCommand(d).Whole? ==>
              var n := ScanCommand(d).size;
              var rest := Scan(d[n..]);
              Scan(d) == Scanned(n + rest.used,
                                 if rest.fence != 0 then n + rest.fence
                                 else if ScanCommand(d).fence then n else 0,
                                 rest.poison)
  {
    hide ScanCommand;
  }

  lemma FenceStep(d: seq<u8>, pos: int)
    ensures !ScanCommand(d).Whole? ==> FenceEnds(d, pos) == {}
    ensures ScanCommand(d).Whole? ==>
              var n := ScanCommand(d).size;
              FenceEnds(d, pos)
              == (if ScanCommand(d).fence then {pos + n} else {}) + FenceEnds(d[n..], pos + n)
  {
    hide ScanCommand;
  }

  /** Up to its first draw, a stream is consumed alike by scanner and decoder. */
  lemma {:induction false} ScanFollowsRun(g: Gx, d: seq<u8>)
    requires Sizable(d)
    ensures Run(g, d).used == Scan(d).used
    decreases |d|
  {
    hide Run, Apply, CommandSize, ScanCommand, Scan;
    ScanAgrees(g.cp, d);
    RunStep(g, d);
    ScanStep(d);
    match ScanCommand(d)
    case Whole(n, _) => ScanFollowsRun(Apply(g, d[..n]), d[n..]);
    case _ =>
  }

  lemma ScanStable(a: seq<u8>, b: seq<u8>)
    requires |a| > 0 && a[0] != OP_NOP && !ScanCommand(a).Partial?
    ensures ScanCommand(a + b) == ScanCommand(a)
  {
    assert (a + b)[0] == a[0];
    if a[0] == OP_LOAD_XF {
      assert (a + b)[1..][..4] == a[1..][..4];
    } else if a[0] == OP_LOAD_BP {
      assert (a + b)[1] == a[1];
    }
  }

  /** A run of NOPs scans like its NOPs one at a time. */
  lemma ScanNopPeel(d: seq<u8>, pos: int)
    requires |d| > 0 && d[0] == OP_NOP
    ensures var rest := Scan(d[1..]);
            Scan(d) == Scanned(1 + rest.used, if rest.fence != 0 then 1 + rest.fence else 0, rest.poison)
    ensures FenceEnds(d, pos) == FenceEnds(d[1..], pos + 1)
  {
    hide Scan, FenceEnds;
    ScanStep(d);
    FenceStep(d, pos);
    var n := NopRun(d);
    assert ScanCommand(d) == Whole(n, false);
    if n > 1 {
      NopRunShift(d);
      ScanStep(d[1..]);
      FenceStep(d[1..], pos + 1);
      assert ScanCommand(d[1..]) == Whole(n - 1, false);
      SlicesCompose(d, 1, n - 1);
    }
  }

  /** Scanning `a`, then its leftover with `b` appended, is scanning `a + b`. */
  lemma {:induction false} ScanInPieces(a: seq<u8>, b: seq<u8>, pos: int)
    ensures Scan(a).poison ==> Scan(a + b).poison
    ensures Sizable(a) ==>
              var k := Scan(a).used;
              && Scan(a + b).used == k + Scan(a[k..] + b).used
              && Scan(a + b).poison == Scan(a[k..] + b).poison
              && FenceEnds(a + b, pos) == FenceEnds(a, pos) + FenceEnds(a[k..] + b, pos + k)
    decreases |a|
  {
    hide ScanCommand, Scan, FenceEnds, NopRun;
    ScanStep(a);
    FenceStep(a, pos);
    if !ScanCommand(a).Partial? {
      if |a| > 0 && a[0] == OP_NOP {
        ScanNopPeel(a, pos);
        ScanNopPeel(a + b, pos);
        assert (a + b)[1..] == a[1..] + b;
        ScanInPieces(a[1..], b, pos + 1);
        SlicesCompose(a, 1, Scan(a[1..]).used);
      } else {
        ScanNonEmpty(a);
        ScanStable(a, b);
        ScanStep(a + b);
        FenceStep(a + b, pos);
        if ScanCommand(a).Whole? {
          var n := ScanCommand(a).size;
          assert (a + b)[n..] == a[n..] + b;
          ScanInPieces(a[n..], b, pos + n);
          SlicesCompose(a, n, Scan(a[n..]).used);
        }
      }
    }
  }

  lemma ScanNonEmpty(a: seq<u8>)
    requires !ScanCommand(a).Partial?
    ensures |a| > 0
  {
  }

  /** The longest command the scanner can size is a 16-word XF load. */
  lemma {:induction false} ScanLeftover(d: seq<u8>)
    requires Sizable(d)
    ensures |d| - Scan(d).used <= 68
    ensures ScanCommand(d[Scan(d).used..]).Partial?
    decreases |d|
  {
    ScanStep(d);
    hide Scan;
    match ScanCommand(d)
    case Whole(n, _) =>
      ScanLeftover(d[n..]);
      SlicesCompose(d, n, Scan(d[n..]).used);
    case Partial =>
      assert d[0..] == d;
    case Poison =>
  }

  /** The scan's fence is the greatest fence end, 0 standing for "none". */
  lemma {:induction false} FenceIsLast(d: seq<u8>, pos: int)
    ensures Scan(d).fence == 0 <==> FenceEnds(d, pos) == {}
    ensures Scan(d).fence != 0 ==> pos + Scan(d).fence in FenceEnds(d, pos)
    ensures forall f :: f in FenceEnds(d, pos) ==> pos < f <= pos + Scan(d).fence
    decreases |d|
  {
    hide ScanCommand, Scan, FenceEnds;
    ScanStep(d);
    FenceStep(d, pos);
    match ScanCommand(d)
    case Whole(n, _) => FenceIsLast(d[n..], pos + n);
    case _ =>
  }

  /** Behind a partial command `c`, every fence of `c + b` ends inside `b`. */
  lemma FencesAreNew(c: seq<u8>, b: seq<u8>, pos: int)
    requires ScanCommand(c).Partial?
    ensures forall f :: f in FenceEnds(c + b, pos) ==> pos + |c| < f
  {
    hide Scan;
    FenceStep(c + b, pos);
    match ScanCommand(c + b) {
      case Whole(n, _) =>
        if |c| > 0 && n <= |c| {
          PrefixWhole(c, b);
        }
        FenceIsLast((c + b)[n..], pos + n);
      case _ =>
    }
  }

  lemma PrefixWhole(c: seq<u8>, b: seq<u8>)
    requires |c| > 0 && ScanCommand(c + b).Whole? && ScanCommand(c + b).size <= |c|
    ensures !ScanCommand(c).Partial?
  {
    assert (c + b)[0] == c[0];
    if c[0] == OP_LOAD_XF && |c| >= 5 {
      assert (c + b)[1..][..4] == c[1..][..4];
    }
  }

  // ---- what fences are for ------------------------------------------------

  predicate IsFence(cmd: seq<u8>) {
    |cmd| >= 2 && cmd[0] == OP_LOAD_BP && IsFenceRegister(cmd[1])
  }

  /** The pixel-engine writes among the commands of a log. */
  function Fences(log: seq<seq<u8>>): seq<seq<u8>> {
    if log == [] then []
    else (if IsFence(log[0]) then [log[0]] else []) + Fences(log[1..])
  }

  lemma {:induction false} FencesAppend(xs: seq<seq<u8>>, ys: seq<seq<u8>>)
    ensures Fences(xs + ys) == Fences(xs) + Fences(ys)
  {
    if xs == [] {
      assert xs + ys == ys;
    } else {
      assert (xs + ys)[1..] == xs[1..] + ys;
      FencesAppend(xs[1..], ys);
    }
  }

  lemma {:induction false} NoFencesInNops(n: nat)
    ensures Fences(seq(n, _ => [OP_NOP])) == []
  {
    if n > 0 {
      assert seq(n, _ => [OP_NOP])[1..] == seq(n - 1, _ => [OP_NOP]);
      NoFencesInNops(n - 1);
    }
  }

  lemma EntriesFences(d: seq<u8>)
    requires ScanCommand(d).Whole?
    ensures var n := ScanCommand(d).size;
            Fences(Entries(d[..n])) == if ScanCommand(d).fence then Entries(d[..n]) else []
  {
    var n := ScanCommand(d).size;
    if d[0] == OP_NOP {
      NoFencesInNops(n);
    } else {
      assert [d[..n]][1..] == [];
    }
  }

  /** When no fence is noted in a sizable stretch, executing it performs no
      top-level pixel-engine write. */
  lemma {:induction false} NoFenceNoWrite(g: Gx, d: seq<u8>, pos: int)
    requires g.depth == 0 && Sizable(d) && FenceEnds(d, pos) == {}
    ensures Fences(Run(g, d).g.log) == Fences(g.log)
    decreases |d|
  {
    hide Run, Apply, CommandSize, ScanCommand, Scan, FenceEnds, Entries, Fences;
    RunStep(g, d);
    ScanStep(d);
    FenceStep(d, pos);
    ScanAgrees(g.cp, d);
    match ScanCommand(d)
    case Whole(n, f) =>
      assert !f;
      EntriesFences(d);
      FencesAppend(g.log, Entries(d[..n]));
      NoFenceNoWrite(Apply(g, d[..n]), d[n..], pos + n);
    case _ =>
  }
}
