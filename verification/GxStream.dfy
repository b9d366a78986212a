/** The decoder on a byte stream that arrives in pieces.

    Staging always holds the bytes of one partial command; new bytes are
    appended and the decoder runs again.  The results here say that where the
    pieces are cut does not matter, and that the log accounts for every byte. */
module GxStream {
  import opened Bytes
  import opened GxDecode

  /** A whole command other than NOP keeps its size when more bytes follow. */
  lemma SizeStable(cp: CpRegs, a: seq<u8>, b: seq<u8>)
    requires CommandSize(cp, a) > 0 && a[0] != OP_NOP
    ensures CommandSize(cp, a + b) == CommandSize(cp, a)
  {
    assert (a + b)[0] == a[0];
    if a[0] == OP_LOAD_XF {
      assert (a + b)[1..][..4] == a[1..][..4];
    } else if IsPrim(a[0]) {
      assert (a + b)[1..][..2] == a[1..][..2];
    }
  }

  lemma NopHeader()
    ensures HeaderLength([OP_NOP][0]) == 1
  {
  }

  lemma RunStep(g: Gx, d: seq<u8>)
    ensures var n := CommandSize(g.cp, d);
            if n == 0 then Run(g, d) == Ran(g, 0)
            else
              var rest := Run(Apply(g, d[..n]), d[n..]);
              Run(g, d) == Ran(rest.g, n + rest.used)
  {
    hide Apply, CommandSize;
  }

  lemma ApplyNops(g: Gx, cmd: seq<u8>)
    requires |cmd| > 0 && forall i :: 0 <= i < |cmd| ==> cmd[i] == OP_NOP
    ensures HeaderLength(cmd[0]) == 1
    ensures Apply(g, cmd) == g.(log := if g.depth == 0 then g.log + seq(|cmd|, _ => [OP_NOP]) else g.log)
  {
  }

  lemma NopRunShift(d: seq<u8>)
    requires NopRun(d) > 1
    ensures d[1..][0] == OP_NOP && NopRun(d[1..]) == NopRun(d) - 1
  {
  }

  lemma EntriesShift(log: seq<seq<u8>>, n: nat)
    requires n > 1
    ensures log + seq(n, _ => [OP_NOP]) == log + seq(1, _ => [OP_NOP]) + seq(n - 1, _ => [OP_NOP])
  {
  }

  /** A run of NOPs executes like its NOPs one at a time. */
  lemma NopPeel(g: Gx, d: seq<u8>)
    requires |d| > 0 && d[0] == OP_NOP
    ensures HeaderLength([OP_NOP][0]) == 1
    ensures var rest := Run(Apply(g, [OP_NOP]), d[1..]);
            Run(g, d) == Ran(rest.g, 1 + rest.used)
  {
    hide *;
    var n := CommandSize(g.cp, d);
    RunStep(g, d);
    ApplyNops(g, [OP_NOP]);
    ApplyNops(g, d[..n]);
    var one := Apply(g, [OP_NOP]);
    if n > 1 {
      NopRunShift(d);
      RunStep(one, d[1..]);
      ApplyNops(one, d[1..][..n - 1]);
      EntriesShift(g.log, n);
      SlicesCompose(d, 1, n - 1);
    } else {
      assert d[..1] == [OP_NOP];
    }
  }

  lemma SlicesCompose(d: seq<u8>, i: nat, j: nat)
    requires i + j <= |d|
    ensures d[i..][j..] == d[i + j..]
    ensures d[..i] + d[i..][..j] == d[..i + j]
  {
  }

  /** Running on `a` and then on the leftover with `b` appended is running on
      `a + b`: same commands, same registers, same leftover. */
  lemma {:induction false} DecodeInPieces(g: Gx, a: seq<u8>, b: seq<u8>)
    ensures var first := Run(g, a);
            var second := Run(first.g, a[first.used..] + b);
            Run(g, a + b) == Ran(second.g, first.used + second.used)
    decreases |a|
  {
    hide *;
    var n := CommandSize(g.cp, a);
    RunStep(g, a);
    if n > 0 {
      var m, next := n, Apply(g, a[..n]);
      if a[0] == OP_NOP {
        NopHeader();
        m, next := 1, Apply(g, [OP_NOP]);
        NopPeel(g, a);
        NopPeel(g, a + b);
      } else {
        SizeStable(g.cp, a, b);
        RunStep(g, a + b);
        assert (a + b)[..n] == a[..n];
      }
      assert (a + b)[m..] == a[m..] + b;
      DecodeInPieces(next, a[m..], b);
      SlicesCompose(a, m, Run(next, a[m..]).used);
    }
  }

  lemma DropAppend(a: seq<u8>, b: seq<u8>, i: nat, j: nat)
    requires i <= |a| && j <= |a| - i + |b|
    ensures (a[i..] + b)[j..] == (a + b)[i + j..]
  {
  }

  lemma LeftoverInPieces(g: Gx, a: seq<u8>, b: seq<u8>)
    ensures Run(g, a + b).g == Run(Run(g, a).g, Leftover(g, a) + b).g
    ensures Leftover(g, a + b) == Leftover(Run(g, a).g, Leftover(g, a) + b)
  {
    hide Run, Apply, CommandSize, CallList;
    DecodeInPieces(g, a, b);
    var first := Run(g, a);
    DropAppend(a, b, first.used, Run(first.g, a[first.used..] + b).used);
  }

  /** What a run leaves holds no further whole command. */
  lemma LeftoverIsPartial(g: Gx, d: seq<u8>)
    ensures Run(Run(g, d).g, Leftover(g, d)) == Ran(Run(g, d).g, 0)
  {
    DecodeInPieces(g, d, []);
    assert d + [] == d;
    assert Leftover(g, d) + [] == Leftover(g, d);
    var again := Run(Run(g, d).g, Leftover(g, d));
    assert again.used == 0;
  }

  lemma {:induction false} FlattenNops(n: nat)
    ensures Flatten(seq(n, _ => [OP_NOP])) == seq(n, _ => OP_NOP)
  {
    if n > 0 {
      assert seq(n, _ => [OP_NOP])[1..] == seq(n - 1, _ => [OP_NOP]);
      FlattenNops(n - 1);
    }
  }

  lemma FlattenEntries(cmd: seq<u8>)
    requires |cmd| > 0
    requires cmd[0] == OP_NOP ==> forall i :: 0 <= i < |cmd| ==> cmd[i] == OP_NOP
    ensures Flatten(Entries(cmd)) == cmd
  {
    if cmd[0] == OP_NOP {
      FlattenNops(|cmd|);
    } else {
      assert [cmd][1..] == [];
    }
  }

  /** No byte is lost or repeated: the commands executed by a top-level run,
      put end to end, are exactly the bytes it took. */
  lemma {:induction false} LogIsTheBytesTaken(g: Gx, d: seq<u8>)
    requires g.depth == 0
    ensures Flatten(Run(g, d).g.log) == Flatten(g.log) + d[..Run(g, d).used]
    decreases |d|
  {
    hide *;
    var n := CommandSize(g.cp, d);
    RunStep(g, d);
    if n > 0 {
      FlattenEntries(d[..n]);
      var next := Apply(g, d[..n]);
      LogIsTheBytesTaken(next, d[n..]);
      FlattenAppend(g.log, Entries(d[..n]));
      SlicesCompose(d, n, Run(next, d[n..]).used);
    }
  }

  /** `later` has seen everything `earlier` has, in the same order. */
  ghost predicate Extends(later: Gx, earlier: Gx) {
    earlier.log <= later.log && earlier.pe <= later.pe && earlier.effects <= later.effects
  }

  lemma {:induction false} ApplyExtends(g: Gx, cmd: seq<u8>)
    requires |cmd| > 0 && |cmd| >= HeaderLength(cmd[0])
    ensures Extends(Apply(g, cmd), g)
    decreases if g.depth == 0 then 1 else 0, |cmd|, 0
  {
    if cmd[0] == OP_CALL_DL {
      var h := if g.depth == 0 then g.(log := g.log + Entries(cmd)) else g;
      var addr, length := Be32(cmd[1..]), Be32(cmd[5..]);
      var start := (addr - addr % 32) % 0x2000_0000;
      var size := length - length % 32;
      if g.depth == 0 && 0 < size && start + size <= |g.mem| {
        RunExtends(h.(depth := 1), g.mem[start..start + size]);
      }
    }
  }

  /** Decoding only ever adds to what has been done. */
  lemma {:induction false} RunExtends(g: Gx, d: seq<u8>)
    ensures Extends(Run(g, d).g, g)
    decreases if g.depth == 0 then 1 else 0, |d|, 1
  {
    var n := CommandSize(g.cp, d);
    if n > 0 {
      ApplyExtends(g, d[..n]);
      RunExtends(Apply(g, d[..n]), d[n..]);
    }
  }
}
