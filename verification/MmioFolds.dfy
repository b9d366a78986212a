/** Two more folds of access traces: polls of a counter, kept by their exit
    value, and the streaming fold of a whole trace file. */
module MmioFolds {
  import opened Bytes
  import opened MmioEvents

  // ---- counter polls ------------------------------------------------------

  /** Reads of one register from one place in the guest program. */
  predicate SamePoll(a: Event, b: Event) {
    IsRead(a) && IsRead(b) && a.addr == b.addr && a.size == b.size && a.pc == b.pc
  }

  function PollPrefix(es: seq<Event>, e: Event): (n: nat)
    ensures n <= |es|
  {
    if es != [] && SamePoll(e, es[0]) then 1 + PollPrefix(es[1..], e) else 0
  }

  /** Length of the maximal poll at the front, 1 for anything else. */
  function PollRun(es: seq<Event>): (n: nat)
    requires es != []
    ensures 0 < n <= |es|
  {
    1 + PollPrefix(es[1..], es[0])
  }

  function Polled(es: seq<Event>): seq<Event>
    decreases |es|
  {
    if es == [] then [] else [es[PollRun(es) - 1]] + Polled(es[PollRun(es)..])
  }

  function PollFolds(es: seq<Event>): nat
    decreases |es|
  {
    if es == [] then 0 else (if PollRun(es) >= 2 then 1 else 0) + PollFolds(es[PollRun(es)..])
  }

  lemma {:induction false} PrefixAt(es: seq<Event>, e: Event, k: nat)
    ensures k < PollPrefix(es, e) ==> SamePoll(e, es[k])
    ensures k == PollPrefix(es, e) < |es| ==> !SamePoll(e, es[k])
    decreases k
  {
    if k > 0 && es != [] && SamePoll(e, es[0]) {
      PrefixAt(es[1..], e, k - 1);
    }
  }

  lemma {:induction false} PrefixCut(es: seq<Event>, e: Event, n: nat)
    requires n <= |es| && forall k :: 0 <= k < n ==> SamePoll(e, es[k])
    ensures PollPrefix(es, e) == n + PollPrefix(es[n..], e)
  {
    if n > 0 {
      PrefixCut(es[1..], e, n - 1);
      assert es[1..][n - 1..] == es[n..];
    } else {
      assert es[0..] == es;
    }
  }

  /** Where the poll that starts at `i` ends. */
  method PollEnd(es: seq<Event>, i: nat) returns (j: nat)
    requires i < |es|
    ensures i < j <= |es| && es[i..] != [] && j - i == PollRun(es[i..])
  {
    var e := es[i];
    j := i + 1;
    if IsRead(e) {
      while j < |es| && IsRead(es[j]) && es[j].addr == e.addr && es[j].size == e.size && es[j].pc == e.pc
        invariant i + 1 <= j <= |es|
        invariant forall k :: i < k < j ==> SamePoll(e, es[k])
      {
        j := j + 1;
      }
    }
    FrontRun(es, i, j);
  }

  lemma PolledStep(es: seq<Event>)
    requires es != []
    ensures Polled(es) == [es[PollRun(es) - 1]] + Polled(es[PollRun(es)..])
    ensures PollFolds(es) == (if PollRun(es) >= 2 then 1 else 0) + PollFolds(es[PollRun(es)..])
  {
    hide PollRun;
  }

  method CollapseCounterPolls(es: seq<Event>) returns (out: seq<Event>, folds: nat, folded: nat)
    ensures out == Polled(es) && folds == PollFolds(es)
    ensures folded + |out| == |es|
  {
    hide Polled, PollFolds, PollRun;
    out, folds, folded := [], 0, 0;
    var i := 0;
    assert es[0..] == es;
    while i < |es|
      invariant i <= |es| && folded + |out| == i
      invariant Polled(es) == out + Polled(es[i..])
      invariant folds + PollFolds(es[i..]) == PollFolds(es)
    {
      var j := PollEnd(es, i);
      PolledStep(es[i..]);
      assert es[i..][j - i..] == es[j..];
      if j - i >= 2 {
        folds := folds + 1;
        folded := folded + (j - i - 1);
        out := out + [es[j - 1]];
      } else {
        out := out + [es[i]];
      }
      i := j;
    }
    NothingPolled();
    assert es[i..] == [];
  }

  lemma NothingPolled()
    ensures Polled([]) == [] && PollFolds([]) == 0
  {
  }

  lemma FrontRun(es: seq<Event>, i: nat, j: nat)
    requires i < j <= |es|
    requires forall k :: i < k < j ==> SamePoll(es[i], es[k])
    requires j < |es| ==> !SamePoll(es[i], es[j])
    ensures es[i..] != [] && PollRun(es[i..]) == j - i
  {
    var tail := es[i..][1..];
    forall k | 0 <= k < j - i - 1
      ensures SamePoll(es[i], tail[k])
    {
      assert tail[k] == es[i + 1 + k];
    }
    PrefixCut(tail, es[i], j - i - 1);
    assert tail[j - i - 1..] == es[j..];
  }

  lemma {:induction false} PrefixHasNoWrites(es: seq<Event>, e: Event, n: nat)
    requires n <= PollPrefix(es, e)
    ensures Writes(es[..n]) == []
  {
    if n > 0 {
      PrefixAt(es, e, n - 1);
      assert es[..n][..n - 1] == es[..n - 1];
      PrefixHasNoWrites(es, e, n - 1);
    }
  }

  /** A poll never swallows a write. */
  lemma {:induction false} PolledKeepsWrites(es: seq<Event>)
    ensures Writes(Polled(es)) == Writes(es)
    decreases |es|
  {
    hide Polled, Writes, PollRun;
    if es == [] {
      NothingPolled();
    } else {
      PollWrites(es);
      PolledStep(es);
      var n := PollRun(es);
      PolledKeepsWrites(es[n..]);
      WritesAppend([es[n - 1]], Polled(es[n..]));
      WritesAppend(es[..n], es[n..]);
      assert es == es[..n] + es[n..];
    }
  }

  lemma PollWrites(es: seq<Event>)
    requires es != []
    ensures Writes(es[..PollRun(es)]) == Writes([es[PollRun(es) - 1]])
  {
    var n := PollRun(es);
    assert es[..n][..n - 1] == es[..n - 1];
    if n > 1 {
      PrefixAt(es[1..], es[0], 0);
      PrefixAt(es[1..], es[0], n - 2);
      PrefixHasNoWrites(es[1..], es[0], n - 2);
      assert es[..n - 1] == [es[0]] + es[1..][..n - 2];
      WritesAppend([es[0]], es[1..][..n - 2]);
      assert [es[0]][..0] == [];
    } else {
      assert es[..1] == [es[0]];
    }
  }

  predicate NoPolls(es: seq<Event>) {
    forall i :: 0 <= i < |es| - 1 ==> !SamePoll(es[i], es[i + 1])
  }

  /** The fold is final: what it leaves holds no poll, and folding again changes
      nothing. */
  lemma {:induction false} PolledHasNoPolls(es: seq<Event>)
    ensures NoPolls(Polled(es))
    decreases |es|
  {
    if es != [] {
      var n := PollRun(es);
      var rest := Polled(es[n..]);
      PolledHasNoPolls(es[n..]);
      PrefixAt(es[1..], es[0], n - 1);
      if n >= 2 {
        PrefixAt(es[1..], es[0], n - 2);
      }
      if rest != [] {
        var m := PollRun(es[n..]);
        if m >= 2 {
          PrefixAt(es[n..][1..], es[n], m - 2);
        }
        assert rest[0] == es[n..][m - 1];
        assert !SamePoll(es[n - 1], rest[0]);
      }
      assert forall i :: 0 < i < |rest| ==> Polled(es)[i] == rest[i - 1] && Polled(es)[i + 1] == rest[i];
    }
  }

  lemma {:induction false} NoPollsUnchanged(es: seq<Event>)
    requires NoPolls(es)
    ensures Polled(es) == es && PollFolds(es) == 0
    decreases |es|
  {
    if es != [] {
      if |es| > 1 {
        assert !SamePoll(es[0], es[0 + 1]);
      }
      assert PollRun(es) == 1;
      NoPollsUnchanged(es[1..]);
    }
  }

  lemma PolledIdempotent(es: seq<Event>)
    ensures Polled(Polled(es)) == Polled(es) && PollFolds(Polled(es)) == 0
  {
    PolledHasNoPolls(es);
    NoPollsUnchanged(Polled(es));
  }

  /** The last read, from one place in the program, of one register. */
  function LastReadAt(es: seq<Event>, addr: u32, size: u8, pc: u32): seq<Event> {
    if es == [] then []
    else
      var e := es[|es| - 1];
      if e.write == 0 && e.addr == addr && e.size == size && e.pc == pc then [e]
      else LastReadAt(es[..|es| - 1], addr, size, pc)
  }

  lemma {:induction false} LastReadJoins(a: seq<Event>, b: seq<Event>, addr: u32, size: u8, pc: u32)
    ensures LastReadAt(a + b, addr, size, pc)
            == if LastReadAt(b, addr, size, pc) != [] then LastReadAt(b, addr, size, pc) else LastReadAt(a, addr, size, pc)
    decreases |b|
  {
    if b == [] {
      assert a + b == a;
    } else {
      assert (a + b)[..|a + b| - 1] == a + b[..|b| - 1];
      LastReadJoins(a, b[..|b| - 1], addr, size, pc);
    }
  }

  /** A run of polls ends with the last read of its register, and of no other. */
  lemma {:induction false} LastReadOfRun(es: seq<Event>, n: nat, addr: u32, size: u8, pc: u32)
    requires 0 < n <= |es| && forall k :: 0 < k < n ==> SamePoll(es[0], es[k])
    ensures LastReadAt(es[..n], addr, size, pc) == LastReadAt([es[n - 1]], addr, size, pc)
  {
    assert es[..n][..n - 1] == es[..n - 1];
    assert [es[n - 1]][..0] == [];
    if n > 1 {
      LastReadOfRun(es, n - 1, addr, size, pc);
      assert [es[n - 2]][..0] == [];
      assert n > 2 ==> SamePoll(es[0], es[n - 2]);
    }
  }

  /** WHAT A POLL ENDED WITH IS KEPT.  The last value that any place in the program
      read from any register is the same after the fold: polls are told apart by
      register, width and place, and kept by their exit value. */
  lemma {:induction false} PolledKeepsLastReads(es: seq<Event>, addr: u32, size: u8, pc: u32)
    ensures LastReadAt(Polled(es), addr, size, pc) == LastReadAt(es, addr, size, pc)
    decreases |es|
  {
    hide Polled, PollRun, LastReadAt, PollPrefix;
    if es == [] {
      NothingPolled();
    } else {
      PolledStep(es);
      var n := PollRun(es);
      var rest := Polled(es[n..]);
      PolledKeepsLastReads(es[n..], addr, size, pc);
      RunIsPolls(es);
      LastReadOfRun(es, n, addr, size, pc);
      LastReadJoins([es[n - 1]], rest, addr, size, pc);
      LastReadJoins(es[..n], es[n..], addr, size, pc);
      assert es[..n] + es[n..] == es;
    }
  }

  lemma RunIsPolls(es: seq<Event>)
    requires es != []
    ensures forall k :: 0 < k < PollRun(es) ==> SamePoll(es[0], es[k])
  {
    forall k | 0 < k < PollRun(es)
      ensures SamePoll(es[0], es[k])
    {
      PrefixAt(es[1..], es[0], k - 1);
    }
  }

  // ---- folding a trace file -----------------------------------------------

  /** A trace record; everything but device accesses is carried along. */
  datatype Record = Access(event: Event) | Other(kind: u16, payload: seq<u8>)

  function Accesses(rs: seq<Record>): seq<Event> {
    if rs == [] then []
    else Accesses(rs[..|rs| - 1]) + (if rs[|rs| - 1].Access? then [rs[|rs| - 1].event] else [])
  }

  function Others(rs: seq<Record>): seq<Record> {
    if rs == [] then []
    else Others(rs[..|rs| - 1]) + (if rs[|rs| - 1].Access? then [] else [rs[|rs| - 1]])
  }

  function FoldFile(rs: seq<Record>): seq<Record> {
    if rs == [] then []
    else
      var out, r := FoldFile(rs[..|rs| - 1]), rs[|rs| - 1];
      if r.Access? && Folds(Accesses(out), r.event) then out else out + [r]
  }

  datatype LastRead = Nothing | Last(key: Key)

  function LastOf(es: seq<Event>): LastRead {
    if es != [] && IsRead(es[|es| - 1]) then Last(KeyOf(es[|es| - 1])) else Nothing
  }

  lemma AddRecord(out: seq<Record>, r: Record)
    ensures Accesses(out + [r]) == Accesses(out) + if r.Access? then [r.event] else []
    ensures Others(out + [r]) == Others(out) + if r.Access? then [] else [r]
  {
    assert (out + [r])[..|out|] == out;
  }

  /** The streaming fold remembers only the last surviving read. */
  method FoldTrace(rs: seq<Record>) returns (out: seq<Record>, kept: nat, folded: nat)
    ensures out == FoldFile(rs)
    ensures kept == |out| && kept + folded == |rs|
  {
    out, kept, folded := [], 0, 0;
    var last := Nothing;
    for i := 0 to |rs|
      invariant out == FoldFile(rs[..i]) && last == LastOf(Accesses(out))
      invariant kept == |out| && kept + folded == i
    {
      assert rs[..i + 1][..i] == rs[..i];
      var r := rs[i];
      AddRecord(out, r);
      if r.Access? {
        if r.event.write == 0 {
          var key := KeyOf(r.event);
          if last == Last(key) {
            folded := folded + 1;
            continue;
          }
          last := Last(key);
        } else {
          last := Nothing;
        }
      }
      out := out + [r];
      kept := kept + 1;
    }
    assert rs[..|rs|] == rs;
  }

  lemma CollapseSnoc(es: seq<Event>, e: Event)
    ensures Collapse(es + [e]) == Kept(Collapse(es), e)
  {
    assert (es + [e])[..|es|] == es;
  }

  /** Folding the file and then projecting is projecting and then folding; the
      other records are untouched and in order. */
  lemma {:induction false} FoldCommutes(rs: seq<Record>)
    ensures Accesses(FoldFile(rs)) == Collapse(Accesses(rs))
    ensures Others(FoldFile(rs)) == Others(rs)
  {
    if rs != [] {
      var z, r := rs[..|rs| - 1], rs[|rs| - 1];
      assert z + [r] == rs;
      FoldSnoc(z, r);
      hide FoldFile, Accesses, Others, Collapse;
      FoldCommutes(z);
      AddRecord(FoldFile(z), r);
      AddRecord(z, r);
      assert Accesses(z) + [] == Accesses(z) && Others(z) + [] == Others(z);
      if r.Access? {
        CollapseSnoc(Accesses(z), r.event);
      }
    }
  }

  lemma FoldSnoc(z: seq<Record>, r: Record)
    ensures FoldFile(z + [r])
            == if r.Access? && Folds(Accesses(FoldFile(z)), r.event) then FoldFile(z) else FoldFile(z) + [r]
  {
    assert (z + [r])[..|z|] == z;
  }

  /** `out` is `rs` with some device reads left out and nothing moved. */
  ghost predicate Thinned(rs: seq<Record>, out: seq<Record>) {
    if rs == [] then out == []
    else
      var z, r := rs[..|rs| - 1], rs[|rs| - 1];
      || (out != [] && out[|out| - 1] == r && Thinned(z, out[..|out| - 1]))
      || (r.Access? && IsRead(r.event) && Thinned(z, out))
  }

  lemma {:induction false} FoldOnlyThins(rs: seq<Record>)
    ensures Thinned(rs, FoldFile(rs))
  {
    if rs != [] {
      FoldOnlyThins(rs[..|rs| - 1]);
      var out := FoldFile(rs[..|rs| - 1]);
      assert (out + [rs[|rs| - 1]])[..|out|] == out;
    }
  }
}
