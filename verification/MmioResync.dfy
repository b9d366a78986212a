/** The resynchronising comparison of two access traces (`find_resync`,
    `report_resync`) and why it cannot hide a write. */
module MmioResync {
  import opened Bytes
  import opened MmioEvents
  import opened MmioFolds

  /** Two reads of one register from one place that saw different values. */
  predicate Benign(a: Event, b: Event) {
    SamePoll(a, b) && a.value != b.value
  }

  // ---- candidates ---------------------------------------------------------

  predicate ReadsOnly(es: seq<Event>, from: nat, count: nat) {
    from + count <= |es| && forall j :: from <= j < from + count ==> IsRead(es[j])
  }

  /** The `t`-th pair behind the landing: out of range, equal, or benign. */
  predicate PairHolds(a: seq<Event>, b: seq<Event>, pa: nat, pb: nat, t: nat) {
    pa + t < |a| && pb + t < |b| ==> Same(a[pa + t], b[pb + t]) || Benign(a[pa + t], b[pb + t])
  }

  predicate Confirmed(a: seq<Event>, b: seq<Event>, pa: nat, pb: nat, confirm: int) {
    forall t :: 1 <= t < confirm ==> PairHolds(a, b, pa, pb, t)
  }

  predicate Candidate(a: seq<Event>, b: seq<Event>, ia: nat, ib: nat, sa: nat, sb: nat, confirm: int) {
    && ReadsOnly(a, ia, sa) && ReadsOnly(b, ib, sb)
    && ia + sa < |a| && ib + sb < |b| && Same(a[ia + sa], b[ib + sb])
    && Confirmed(a, b, ia + sa, ib + sb, confirm)
  }

  method SkipsReads(es: seq<Event>, from: nat, count: nat) returns (ok: bool)
    requires from <= |es|
    ensures ok == ReadsOnly(es, from, count)
  {
    for j := from to from + count
      invariant j <= |es|
      invariant forall k :: from <= k < j ==> IsRead(es[k])
    {
      if j >= |es| || es[j].write != 0 {
        return false;
      }
    }
    return true;
  }

  method CandidateValid(a: seq<Event>, b: seq<Event>, ia: nat, ib: nat, sa: nat, sb: nat, confirm: int)
    returns (ok: bool)
    requires ia <= |a| && ib <= |b|
    ensures ok == Candidate(a, b, ia, ib, sa, sb, confirm)
  {
    ok := SkipsReads(a, ia, sa);
    if !ok {
      return false;
    }
    ok := SkipsReads(b, ib, sb);
    if !ok {
      return false;
    }
    var pa, pb := ia + sa, ib + sb;
    if pa >= |a| || pb >= |b| || !Same(a[pa], b[pb]) {
      return false;
    }
    var t := 1;
    while t < confirm
      invariant t >= 1
      invariant forall k :: 1 <= k < t ==> PairHolds(a, b, pa, pb, k)
    {
      if pa + t >= |a| || pb + t >= |b| {
        assert forall k :: t <= k < confirm ==> PairHolds(a, b, pa, pb, k);
        return true;
      }
      if !(Same(a[pa + t], b[pb + t]) || Benign(a[pa + t], b[pb + t])) {
        assert !PairHolds(a, b, pa, pb, t);
        return false;
      }
      t := t + 1;
    }
    return true;
  }

  // ---- the search ---------------------------------------------------------

  datatype Skip = None | Some(sa: nat, sb: nat)

  /** The skips in the order they are tried: by total, then by the first trace's
      share; `window` bounds each share. */
  function Search(a: seq<Event>, b: seq<Event>, ia: nat, ib: nat, window: int, confirm: int, total: nat, sa: nat): Skip
    requires ia <= |a| && ib <= |b|
    decreases 2 * window + 1 - total, total + 1 - sa
  {
    if total > 2 * window then None
    else if sa > total || sa > window then Search(a, b, ia, ib, window, confirm, total + 1, 0)
    else if total - sa <= window && Candidate(a, b, ia, ib, sa, total - sa, confirm) then Some(sa, total - sa)
    else Search(a, b, ia, ib, window, confirm, total, sa + 1)
  }

  function Find(a: seq<Event>, b: seq<Event>, ia: nat, ib: nat, window: int, confirm: int): Skip
    requires ia <= |a| && ib <= |b|
  {
    Search(a, b, ia, ib, window, confirm, 1, 0)
  }

  method FindResync(a: seq<Event>, b: seq<Event>, ia: nat, ib: nat, window: int, confirm: int) returns (r: Skip)
    requires ia <= |a| && ib <= |b|
    ensures r == Find(a, b, ia, ib, window, confirm)
  {
    hide Candidate;
    var total := 1;
    while total <= 2 * window
      invariant total >= 1
      invariant Search(a, b, ia, ib, window, confirm, total, 0) == Find(a, b, ia, ib, window, confirm)
      decreases 2 * window + 1 - total
    {
      var sa := 0;
      while sa <= total && sa <= window
        invariant sa >= 0
        invariant Search(a, b, ia, ib, window, confirm, total, sa) == Find(a, b, ia, ib, window, confirm)
        decreases total + 1 - sa
      {
        var sb := total - sa;
        if sb <= window {
          var ok := CandidateValid(a, b, ia, ib, sa, sb, confirm);
          if ok {
            return Some(sa, sb);
          }
        }
        sa := sa + 1;
      }
      total := total + 1;
    }
    return None;
  }

  predicate InWindow(sa: nat, sb: nat, window: int) {
    sa <= window && sb <= window
  }

  /** Skip `(sa, sb)` is tried at or after `(total, from)`. */
  predicate Tried(total: nat, from: nat, sa: nat, sb: nat) {
    sa + sb > total || (sa + sb == total && sa >= from)
  }

  lemma {:induction false} SearchFinds(a: seq<Event>, b: seq<Event>, ia: nat, ib: nat, window: int, confirm: int,
                                       total: nat, sa: nat)
    requires ia <= |a| && ib <= |b|
    ensures var r := Search(a, b, ia, ib, window, confirm, total, sa);
            && (r.Some? ==> Tried(total, sa, r.sa, r.sb) && InWindow(r.sa, r.sb, window)
                            && Candidate(a, b, ia, ib, r.sa, r.sb, confirm))
            && (forall x: nat, y: nat ::
                  Tried(total, sa, x, y) && InWindow(x, y, window) && Candidate(a, b, ia, ib, x, y, confirm) ==>
                    r.Some? && (r.sa + r.sb < x + y || (r.sa + r.sb == x + y && r.sa <= x)))
    decreases 2 * window + 1 - total, total + 1 - sa
  {
    hide Candidate;
    if total > 2 * window {
    } else if sa > total || sa > window {
      SearchFinds(a, b, ia, ib, window, confirm, total + 1, 0);
    } else if total - sa <= window && Candidate(a, b, ia, ib, sa, total - sa, confirm) {
    } else {
      SearchFinds(a, b, ia, ib, window, confirm, total, sa + 1);
    }
  }

  /** MINIMALITY.  The search returns a valid skip of the least total, the least
      share of the first trace breaking ties, and nothing exactly when no skip
      in the window is valid. */
  lemma FindIsLeast(a: seq<Event>, b: seq<Event>, ia: nat, ib: nat, window: int, confirm: int)
    requires ia < |a| && ib < |b| && !Same(a[ia], b[ib])
    ensures var r := Find(a, b, ia, ib, window, confirm);
            && (r.None? <==> forall x: nat, y: nat :: InWindow(x, y, window) ==> !Candidate(a, b, ia, ib, x, y, confirm))
            && (r.Some? ==>
                  && r.sa + r.sb > 0 && InWindow(r.sa, r.sb, window) && Candidate(a, b, ia, ib, r.sa, r.sb, confirm)
                  && forall x: nat, y: nat :: InWindow(x, y, window) && Candidate(a, b, ia, ib, x, y, confirm) ==>
                       r.sa + r.sb < x + y || (r.sa + r.sb == x + y && r.sa <= x))
  {
    SearchFinds(a, b, ia, ib, window, confirm, 1, 0);
    assert !Candidate(a, b, ia, ib, 0, 0, confirm);
    hide Candidate, Search;
  }

  // ---- the comparison -----------------------------------------------------

  datatype Verdict = Clean | Gate | NoWindow | Exhausted

  datatype Report = Report(verdict: Verdict, ia: nat, ib: nat, matched: nat, resyncs: nat, skippedA: nat, skippedB: nat)

  function FindFrom(a: seq<Event>, b: seq<Event>, ia: nat, ib: nat, window: int, confirm: int): (r: Skip)
    requires ia < |a| && ib < |b| && !Same(a[ia], b[ib])
    ensures r.Some? ==>
              r.sa + r.sb > 0 && ia + r.sa < |a| && ib + r.sb < |b| && ReadsOnly(a, ia, r.sa) && ReadsOnly(b, ib, r.sb)
              && Same(a[ia + r.sa], b[ib + r.sb])
  {
    FindIsLeast(a, b, ia, ib, window, confirm);
    Find(a, b, ia, ib, window, confirm)
  }

  function Align(a: seq<Event>, b: seq<Event>, ia: nat, ib: nat, window: int, confirm: int): (r: Report)
    requires ia <= |a| && ib <= |b|
    ensures ia <= r.ia <= |a| && ib <= r.ib <= |b|
    decreases |a| - ia + |b| - ib
  {
    if ia < |a| && ib < |b| then
      if Same(a[ia], b[ib]) then
        var r := Align(a, b, ia + 1, ib + 1, window, confirm);
        r.(matched := r.matched + 1)
      else if !Benign(a[ia], b[ib]) then Report(Gate, ia, ib, 0, 0, 0, 0)
      else
        match FindFrom(a, b, ia, ib, window, confirm)
        case None => Report(NoWindow, ia, ib, 0, 0, 0, 0)
        case Some(sa, sb) =>
          var r := Align(a, b, ia + sa, ib + sb, window, confirm);
          r.(resyncs := r.resyncs + 1, skippedA := r.skippedA + sa, skippedB := r.skippedB + sb)
    else Report(if ia < |a| || ib < |b| then Exhausted else Clean, ia, ib, 0, 0, 0, 0)
  }

  /** `r`, with what has been counted before it. */
  function Plus(r: Report, matched: nat, resyncs: nat, skippedA: nat, skippedB: nat): Report {
    r.(matched := r.matched + matched, resyncs := r.resyncs + resyncs,
       skippedA := r.skippedA + skippedA, skippedB := r.skippedB + skippedB)
  }

  method ReportResync(a: seq<Event>, b: seq<Event>, window: int, confirm: int) returns (r: Report)
    ensures r == Align(a, b, 0, 0, window, confirm)
    ensures r.ia == r.matched + r.skippedA && r.ib == r.matched + r.skippedB
    ensures Keys(Writes(a[..r.ia])) == Keys(Writes(b[..r.ib]))
  {
    hide Find, Candidate, Align, Writes;
    NoWrites(a, b);
    var ia: nat, ib: nat, matched: nat, resyncs: nat, skippedA: nat, skippedB: nat := 0, 0, 0, 0, 0, 0;
    while ia < |a| && ib < |b|
      invariant ia <= |a| && ib <= |b|
      invariant ia == matched + skippedA && ib == matched + skippedB
      invariant Plus(Align(a, b, ia, ib, window, confirm), matched, resyncs, skippedA, skippedB)
                == Align(a, b, 0, 0, window, confirm)
      invariant Keys(Writes(a[..ia])) == Keys(Writes(b[..ib]))
      decreases |a| - ia + |b| - ib
    {
      AlignStep(a, b, ia, ib, window, confirm);
      if Same(a[ia], b[ib]) {
        MatchedWrites(a, b, ia, ib);
        matched := matched + 1;
        ia, ib := ia + 1, ib + 1;
        continue;
      }
      if !Benign(a[ia], b[ib]) {
        return Report(Gate, ia, ib, matched, resyncs, skippedA, skippedB);
      }
      var skip := FindResync(a, b, ia, ib, window, confirm);
      assert skip == FindFrom(a, b, ia, ib, window, confirm);
      if skip.None? {
        return Report(NoWindow, ia, ib, matched, resyncs, skippedA, skippedB);
      }
      SkippedReads(a, ia, skip.sa);
      SkippedReads(b, ib, skip.sb);
      resyncs := resyncs + 1;
      skippedA, skippedB := skippedA + skip.sa, skippedB + skip.sb;
      ia, ib := ia + skip.sa, ib + skip.sb;
    }
    AlignEnd(a, b, ia, ib, window, confirm);
    r := Report(if ia < |a| || ib < |b| then Exhausted else Clean, ia, ib, matched, resyncs, skippedA, skippedB);
  }

  lemma NoWrites(a: seq<Event>, b: seq<Event>)
    ensures Keys(Writes(a[..0])) == Keys(Writes(b[..0]))
  {
    assert a[..0] == [] && b[..0] == [];
  }

  lemma AlignEnd(a: seq<Event>, b: seq<Event>, ia: nat, ib: nat, window: int, confirm: int)
    requires ia <= |a| && ib <= |b| && (ia == |a| || ib == |b|)
    ensures Align(a, b, ia, ib, window, confirm)
            == Report(if ia < |a| || ib < |b| then Exhausted else Clean, ia, ib, 0, 0, 0, 0)
  {
  }

  lemma MatchedWrites(a: seq<Event>, b: seq<Event>, ia: nat, ib: nat)
    requires ia < |a| && ib < |b| && Same(a[ia], b[ib])
    requires Keys(Writes(a[..ia])) == Keys(Writes(b[..ib]))
    ensures Keys(Writes(a[..ia + 1])) == Keys(Writes(b[..ib + 1]))
  {
    WritesOfOne(a[..ia], a[ia]);
    WritesOfOne(b[..ib], b[ib]);
    assert a[..ia + 1] == a[..ia] + [a[ia]] && b[..ib + 1] == b[..ib] + [b[ib]];
    hide Writes;
    var wa, wb := Writes(a[..ia]), Writes(b[..ib]);
    if !IsRead(a[ia]) {
      assert Keys(wa + [a[ia]]) == Keys(wa) + [KeyOf(a[ia])];
      assert Keys(wb + [b[ib]]) == Keys(wb) + [KeyOf(b[ib])];
    } else {
      assert wa + [] == wa && wb + [] == wb;
    }
  }

  lemma {:induction false} SkippedReads(es: seq<Event>, from: nat, count: nat)
    requires ReadsOnly(es, from, count)
    ensures Writes(es[..from + count]) == Writes(es[..from])
  {
    if count > 0 {
      SkippedReads(es, from, count - 1);
      assert es[..from + count] == es[..from + count - 1] + [es[from + count - 1]];
      WritesOfOne(es[..from + count - 1], es[from + count - 1]);
    }
  }

  // ---- what a clean verdict means -----------------------------------------

  /** `m` is the accesses of `es` with some reads left out and nothing moved. */
  ghost predicate Thins(es: seq<Event>, m: seq<Key>) {
    if es == [] then m == []
    else
      var z, e := es[..|es| - 1], es[|es| - 1];
      || (m != [] && m[|m| - 1] == KeyOf(e) && Thins(z, m[..|m| - 1]))
      || (IsRead(e) && Thins(z, m))
  }

  lemma ThinsKeep(es: seq<Event>, m: seq<Key>, e: Event)
    requires Thins(es, m)
    ensures Thins(es + [e], m + [KeyOf(e)])
    ensures IsRead(e) ==> Thins(es + [e], m)
  {
    assert (es + [e])[..|es|] == es;
    assert (m + [KeyOf(e)])[..|m|] == m;
  }

  lemma {:induction false} ThinsAppend(x: seq<Event>, m: seq<Key>, y: seq<Event>, n: seq<Key>)
    requires Thins(x, m) && Thins(y, n)
    ensures Thins(x + y, m + n)
    decreases |y|
  {
    if y == [] {
      assert x + y == x && m + n == m;
    } else {
      var z, e := y[..|y| - 1], y[|y| - 1];
      assert x + y == (x + z) + [e];
      if n != [] && n[|n| - 1] == KeyOf(e) && Thins(z, n[..|n| - 1]) {
        ThinsAppend(x, m, z, n[..|n| - 1]);
        ThinsKeep(x + z, m + n[..|n| - 1], e);
        assert m + n == (m + n[..|n| - 1]) + [n[|n| - 1]];
      } else {
        ThinsAppend(x, m, z, n);
        ThinsKeep(x + z, m + n, e);
      }
    }
  }

  lemma {:induction false} ThinsSplit(x: seq<Event>, y: seq<Event>, m: seq<Key>) returns (k: nat)
    requires Thins(x + y, m)
    ensures k <= |m| && Thins(x, m[..k]) && Thins(y, m[k..])
    decreases |y|
  {
    if y == [] {
      assert x + y == x;
      k := |m|;
      assert m[..k] == m;
    } else {
      var z, e := y[..|y| - 1], y[|y| - 1];
      assert (x + y)[..|x + y| - 1] == x + z;
      assert y == z + [e];
      if m != [] && m[|m| - 1] == KeyOf(e) && Thins(x + z, m[..|m| - 1]) {
        k := ThinsSplit(x, z, m[..|m| - 1]);
        assert m[..|m| - 1][..k] == m[..k];
        ThinsKeep(z, m[..|m| - 1][k..], e);
        assert m[..|m| - 1][k..] + [m[|m| - 1]] == m[k..];
      } else {
        k := ThinsSplit(x, z, m);
        ThinsKeep(z, m[k..], e);
      }
    }
  }

  function WriteKeys(m: seq<Key>): seq<Key> {
    if m == [] then []
    else WriteKeys(m[..|m| - 1]) + (if m[|m| - 1].write == 0 then [] else [m[|m| - 1]])
  }

  lemma {:induction false} ThinsKeepsWrites(es: seq<Event>, m: seq<Key>)
    requires Thins(es, m)
    ensures Keys(Writes(es)) == WriteKeys(m)
  {
    if es != [] {
      var z, e := es[..|es| - 1], es[|es| - 1];
      if m != [] && m[|m| - 1] == KeyOf(e) && Thins(z, m[..|m| - 1]) {
        ThinsKeepsWrites(z, m[..|m| - 1]);
        assert Keys(Writes(z) + [e]) == Keys(Writes(z)) + [KeyOf(e)];
      } else {
        ThinsKeepsWrites(z, m);
      }
    }
  }

  lemma AlignStep(a: seq<Event>, b: seq<Event>, ia: nat, ib: nat, window: int, confirm: int)
    requires ia < |a| && ib < |b|
    ensures var r := Align(a, b, ia, ib, window, confirm);
            && (Same(a[ia], b[ib]) ==>
                  var s := Align(a, b, ia + 1, ib + 1, window, confirm);
                  r == s.(matched := s.matched + 1))
            && (!Same(a[ia], b[ib]) && Benign(a[ia], b[ib]) && FindFrom(a, b, ia, ib, window, confirm).Some? ==>
                  var f := FindFrom(a, b, ia, ib, window, confirm);
                  var s := Align(a, b, ia + f.sa, ib + f.sb, window, confirm);
                  r == s.(resyncs := s.resyncs + 1, skippedA := s.skippedA + f.sa, skippedB := s.skippedB + f.sb))
            && (!Same(a[ia], b[ib]) && !(Benign(a[ia], b[ib]) && FindFrom(a, b, ia, ib, window, confirm).Some?) ==>
                  r == Report(if Benign(a[ia], b[ib]) then NoWindow else Gate, ia, ib, 0, 0, 0, 0))
  {
    hide FindFrom;
  }

  lemma SkipThins(es: seq<Event>, from: nat, count: nat)
    requires ReadsOnly(es, from, count)
    ensures Thins(es[from..from + count], [])
  {
    if count > 0 {
      SkipThins(es, from, count - 1);
      assert es[from..from + count] == es[from..from + count - 1] + [es[from + count - 1]];
      ThinsKeep(es[from..from + count - 1], [], es[from + count - 1]);
    } else {
      assert es[from..from] == [];
    }
  }

  lemma NothingThins()
    ensures Thins([], [])
  {
  }

  lemma SliceJoin(es: seq<Event>, i: nat, j: nat, k: nat)
    requires i <= j <= k <= |es|
    ensures es[i..j] + es[j..k] == es[i..k]
  {
  }

  lemma CoreSkip(es: seq<Event>, i: nat, count: nat, end: nat, m: seq<Key>)
    requires ReadsOnly(es, i, count) && i + count <= end <= |es| && Thins(es[i + count..end], m)
    ensures Thins(es[i..end], m)
  {
    hide Thins;
    SkipThins(es, i, count);
    ThinsAppend(es[i..i + count], [], es[i + count..end], m);
    SliceJoin(es, i, i + count, end);
    assert [] + m == m;
  }

  lemma CoreMatch(es: seq<Event>, i: nat, end: nat, m: seq<Key>)
    requires i < end <= |es| && Thins(es[i + 1..end], m)
    ensures Thins(es[i..end], [KeyOf(es[i])] + m)
  {
    hide Thins;
    NothingThins();
    ThinsKeep([], [], es[i]);
    assert [] + [es[i]] == es[i..i + 1] && [] + [KeyOf(es[i])] == [KeyOf(es[i])];
    ThinsAppend(es[i..i + 1], [KeyOf(es[i])], es[i + 1..end], m);
    SliceJoin(es, i, i + 1, end);
  }

  lemma CoreEmpty(es: seq<Event>, i: nat)
    requires i <= |es|
    ensures Thins(es[i..i], [])
  {
    assert es[i..i] == [];
  }

  /** Whatever the verdict, up to where the comparison stopped both traces are
      one list of matched accesses with reads of their own put in. */
  lemma {:induction false} AlignCore(a: seq<Event>, b: seq<Event>, ia: nat, ib: nat, window: int, confirm: int)
    returns (m: seq<Key>)
    requires ia <= |a| && ib <= |b|
    ensures var r := Align(a, b, ia, ib, window, confirm);
            && Thins(a[ia..r.ia], m) && Thins(b[ib..r.ib], m) && |m| == r.matched
            && r.ia == ia + r.matched + r.skippedA && r.ib == ib + r.matched + r.skippedB
    decreases |a| - ia + |b| - ib
  {
    hide Align, Find, Thins;
    var r := Align(a, b, ia, ib, window, confirm);
    CoreEmpty(a, ia);
    CoreEmpty(b, ib);
    m := [];
    if ia < |a| && ib < |b| {
      AlignStep(a, b, ia, ib, window, confirm);
      if Same(a[ia], b[ib]) {
        var rest := AlignCore(a, b, ia + 1, ib + 1, window, confirm);
        m := [KeyOf(a[ia])] + rest;
        CoreMatch(a, ia, r.ia, rest);
        CoreMatch(b, ib, r.ib, rest);
      } else if Benign(a[ia], b[ib]) && FindFrom(a, b, ia, ib, window, confirm).Some? {
        var f := FindFrom(a, b, ia, ib, window, confirm);
        m := AlignCore(a, b, ia + f.sa, ib + f.sb, window, confirm);
        CoreSkip(a, ia, f.sa, r.ia, m);
        CoreSkip(b, ib, f.sb, r.ib, m);
      }
    } else {
      AlignEnd(a, b, ia, ib, window, confirm);
    }
  }

  /** What each verdict says about the place where the comparison stopped. */
  lemma {:induction false} VerdictMeaning(a: seq<Event>, b: seq<Event>, ia: nat, ib: nat, window: int, confirm: int)
    requires ia <= |a| && ib <= |b|
    ensures var r := Align(a, b, ia, ib, window, confirm);
            && (r.verdict.Clean? <==> r.ia == |a| && r.ib == |b|)
            && (r.verdict.Exhausted? <==> (r.ia == |a|) != (r.ib == |b|))
            && (r.ia < |a| && r.ib < |b| ==> !Same(a[r.ia], b[r.ib]))
            && (r.verdict.Gate? <==> r.ia < |a| && r.ib < |b| && !Benign(a[r.ia], b[r.ib]))
            && (r.verdict.NoWindow? ==>
                  r.ia < |a| && r.ib < |b|
                  && forall x: nat, y: nat :: InWindow(x, y, window) ==> !Candidate(a, b, r.ia, r.ib, x, y, confirm))
    decreases |a| - ia + |b| - ib
  {
    if ia < |a| && ib < |b| {
      AlignStep(a, b, ia, ib, window, confirm);
      hide Align, Find, Candidate;
      if Same(a[ia], b[ib]) {
        VerdictMeaning(a, b, ia + 1, ib + 1, window, confirm);
      } else {
        FindIsLeast(a, b, ia, ib, window, confirm);
        if Benign(a[ia], b[ib]) && FindFrom(a, b, ia, ib, window, confirm).Some? {
          var f := FindFrom(a, b, ia, ib, window, confirm);
          VerdictMeaning(a, b, ia + f.sa, ib + f.sb, window, confirm);
        }
      }
    }
  }

  /** Two accesses that agree in register, width, direction and value. */
  predicate Alike(a: Event, b: Event) {
    a.addr == b.addr && a.size == b.size && a.write == b.write && a.value == b.value
  }

  /** Two reads of one register, of one width, from one place in the program. */
  predicate OnePoll(a: Event, b: Event) {
    a.write == 0 && b.write == 0 && a.addr == b.addr && a.size == b.size && a.pc == b.pc
  }

  predicate StillAgrees(a: seq<Event>, b: seq<Event>, pa: nat, pb: nat, t: nat) {
    pa + t < |a| && pb + t < |b| ==> Alike(a[pa + t], b[pb + t]) || OnePoll(a[pa + t], b[pb + t])
  }

  /** WHAT A RESYNCHRONISATION SKIPS.  Reads only; it lands on two accesses that are
      alike, and behind them, as far as both traces go, `confirm - 1` pairs more are
      alike or two reads of one poll. */
  lemma ResyncMeans(a: seq<Event>, b: seq<Event>, ia: nat, ib: nat, window: int, confirm: int)
    requires ia < |a| && ib < |b| && !Alike(a[ia], b[ib])
    ensures var r := Find(a, b, ia, ib, window, confirm);
            r.Some? ==>
              var pa, pb := ia + r.sa, ib + r.sb;
              && pa < |a| && pb < |b| && Alike(a[pa], b[pb]) && r.sa <= window && r.sb <= window && r.sa + r.sb > 0
              && (forall j :: ia <= j < pa ==> a[j].write == 0) && (forall j :: ib <= j < pb ==> b[j].write == 0)
              && (forall t :: 1 <= t < confirm ==> StillAgrees(a, b, pa, pb, t))
  {
    FindIsLeast(a, b, ia, ib, window, confirm);
    hide Find;
    var r := Find(a, b, ia, ib, window, confirm);
    if r.Some? {
      var pa, pb := ia + r.sa, ib + r.sb;
      forall t | 1 <= t < confirm
        ensures StillAgrees(a, b, pa, pb, t)
      {
        assert PairHolds(a, b, pa, pb, t);
      }
    }
  }

  /** WHERE IT GIVES UP.  It stops at the gate if and only if it has come to two
      accesses that are neither alike nor reads of one poll. */
  lemma GateMeans(a: seq<Event>, b: seq<Event>, window: int, confirm: int)
    ensures var r := Align(a, b, 0, 0, window, confirm);
            && (r.verdict.Gate? <==> r.ia < |a| && r.ib < |b| && !Alike(a[r.ia], b[r.ib]) && !OnePoll(a[r.ia], b[r.ib]))
            && (r.verdict.NoWindow? <==> r.ia < |a| && r.ib < |b| && !Alike(a[r.ia], b[r.ib]) && OnePoll(a[r.ia], b[r.ib]))
  {
    VerdictMeaning(a, b, 0, 0, window, confirm);
    hide Align, Candidate;
  }

  lemma {:induction false} CollapseThins(es: seq<Event>, m: seq<Key>)
    requires Thins(Collapse(es), m)
    ensures Thins(es, m)
  {
    if es != [] {
      var z, e := es[..|es| - 1], es[|es| - 1];
      var c := Collapse(z);
      assert z + [e] == es && (c + [e])[..|c|] == c;
      if Folds(c, e) {
        CollapseThins(z, m);
        ThinsKeep(z, m, e);
      } else if m != [] && m[|m| - 1] == KeyOf(e) && Thins(c, m[..|m| - 1]) {
        CollapseThins(z, m[..|m| - 1]);
        ThinsKeep(z, m[..|m| - 1], e);
        assert m[..|m| - 1] + [m[|m| - 1]] == m;
      } else {
        CollapseThins(z, m);
        ThinsKeep(z, m, e);
      }
    }
  }

  lemma PollThins(es: seq<Event>, n: nat, m: seq<Key>)
    requires es != [] && n == PollRun(es) && Thins([es[n - 1]], m)
    ensures Thins(es[..n], m)
  {
    PollReads(es);
    SkipThins(es, 0, n - 1);
    ThinsAppend(es[0..n - 1], [], [es[n - 1]], m);
    assert es[0..n - 1] + [es[n - 1]] == es[..n];
    assert [] + m == m;
  }

  lemma PollReads(es: seq<Event>)
    requires es != []
    ensures forall k :: 0 <= k < PollRun(es) - 1 ==> IsRead(es[k])
  {
    forall k | 0 <= k < PollRun(es) - 1
      ensures IsRead(es[k])
    {
      PrefixAt(es[1..], es[0], if k == 0 then 0 else k - 1);
    }
  }

  lemma {:induction false} PolledThins(es: seq<Event>, m: seq<Key>)
    requires Thins(Polled(es), m)
    ensures Thins(es, m)
    decreases |es|
  {
    hide Thins, Polled, PollRun, PollPrefix, Writes;
    if es == [] {
      NothingPolled();
    } else {
      PolledStep(es);
      var n := PollRun(es);
      var last, rest := [es[n - 1]], Polled(es[n..]);
      var k := ThinsSplit(last, rest, m);
      PolledThins(es[n..], m[k..]);
      PollThins(es, n, m[..k]);
      ThinsAppend(es[..n], m[..k], es[n..], m[k..]);
      assert es[..n] + es[n..] == es && m[..k] + m[k..] == m;
    }
  }

  /** What the comparison is run on: identical reads folded, and counter polls
      too if asked for. */
  function Prepared(raw: seq<Event>, polls: bool): seq<Event> {
    if polls then Polled(Collapse(raw)) else Collapse(raw)
  }

  lemma PreparedThins(raw: seq<Event>, polls: bool, m: seq<Key>)
    requires Thins(Prepared(raw, polls), m)
    ensures Thins(raw, m)
  {
    if polls {
      PolledThins(Collapse(raw), m);
    }
    CollapseThins(raw, m);
  }

  /** A CLEAN VERDICT CANNOT LIE.  When the comparison reports no hard
      divergence, the two raw traces are the same list of accesses up to reads:
      some common list is left of either by deleting reads only.  In particular
      they write the same values to the same registers in the same order. */
  lemma CleanMeansSameWrites(rawA: seq<Event>, rawB: seq<Event>, polls: bool, window: int, confirm: int)
    returns (m: seq<Key>)
    requires Align(Prepared(rawA, polls), Prepared(rawB, polls), 0, 0, window, confirm).verdict.Clean?
    ensures Thins(rawA, m) && Thins(rawB, m)
    ensures Keys(Writes(rawA)) == Keys(Writes(rawB))
  {
    var a, b := Prepared(rawA, polls), Prepared(rawB, polls);
    VerdictMeaning(a, b, 0, 0, window, confirm);
    m := AlignCore(a, b, 0, 0, window, confirm);
    assert a[0..|a|] == a && b[0..|b|] == b;
    PreparedThins(rawA, polls, m);
    PreparedThins(rawB, polls, m);
    ThinsKeepsWrites(rawA, m);
    ThinsKeepsWrites(rawB, m);
  }

  // ---- strict mode --------------------------------------------------------

  datatype Index = At(i: nat) | Nowhere

  /** The two traces agree as far as the shorter one goes. */
  predicate AgreesWhileBothLast(a: seq<Event>, b: seq<Event>) {
    Keys(a) <= Keys(b) || Keys(b) <= Keys(a)
  }

  /** First position, within both traces, at which they differ. */
  method FirstStrictDiff(a: seq<Event>, b: seq<Event>) returns (d: Index)
    ensures d.At? ==> d.i < |a| && d.i < |b| && !Same(a[d.i], b[d.i]) && Keys(a[..d.i]) == Keys(b[..d.i])
    ensures d.Nowhere? <==> AgreesWhileBothLast(a, b)
  {
    var i := 0;
    while i < |a| && i < |b|
      invariant i <= |a| && i <= |b|
      invariant Keys(a[..i]) == Keys(b[..i])
    {
      if !Same(a[i], b[i]) {
        assert Keys(a)[i] != Keys(b)[i];
        return At(i);
      }
      assert Keys(a[..i + 1]) == Keys(a[..i]) + [KeyOf(a[i])];
      assert Keys(b[..i + 1]) == Keys(b[..i]) + [KeyOf(b[i])];
      i := i + 1;
    }
    assert Keys(a)[..i] == Keys(a[..i]) && Keys(b)[..i] == Keys(b[..i]);
    return Nowhere;
  }

  /** What the longer trace holds beyond the length of the shorter one. */
  function Tail(a: seq<Event>, b: seq<Event>): seq<Event> {
    if |a| <= |b| then b[|a|..] else a[|b|..]
  }

  lemma {:induction false} WritesOfSameKeys(a: seq<Event>, b: seq<Event>)
    requires Keys(a) == Keys(b)
    ensures Keys(Writes(a)) == Keys(Writes(b))
  {
    if a != [] {
      var n := |a| - 1;
      assert Keys(a[..n]) == Keys(a)[..n] && Keys(b[..n]) == Keys(b)[..n];
      WritesOfSameKeys(a[..n], b[..n]);
      assert KeyOf(a[n]) == Keys(a)[n] == Keys(b)[n] == KeyOf(b[n]);
      assert Keys(Writes(a[..n]) + [a[n]]) == Keys(Writes(a[..n])) + [KeyOf(a[n])];
      assert Keys(Writes(b[..n]) + [b[n]]) == Keys(Writes(b[..n])) + [KeyOf(b[n])];
      assert IsRead(a[n]) == IsRead(b[n]);
      assert Writes(a[..n]) + [] == Writes(a[..n]) && Writes(b[..n]) + [] == Writes(b[..n]);
    }
  }

  /** The writes of a trace are those of its front, then those of its tail. */
  lemma PrefixWrites(a: seq<Event>, b: seq<Event>)
    requires Keys(a) <= Keys(b)
    ensures Keys(Writes(b)) == Keys(Writes(a)) + Keys(Writes(b[|a|..]))
  {
    var front, tail := b[..|a|], b[|a|..];
    assert front + tail == b;
    assert Keys(front) == Keys(b)[..|a|] == Keys(a);
    WritesOfSameKeys(a, front);
    WritesAppend(front, tail);
    assert Keys(Writes(front) + Writes(tail)) == Keys(Writes(front)) + Keys(Writes(tail));
  }

  /** Equal as far as both go, the comparison walks to the end of the shorter. */
  lemma {:induction false} AlignWalks(a: seq<Event>, b: seq<Event>, i: nat, window: int, confirm: int)
    requires i <= |a| && i <= |b| && AgreesWhileBothLast(a, b)
    ensures Align(a, b, i, i, window, confirm).verdict == if |a| == |b| then Clean else Exhausted
    decreases |a| - i
  {
    hide Align, Find, Candidate;
    if i < |a| && i < |b| {
      assert KeyOf(a[i]) == Keys(a)[i] == Keys(b)[i] == KeyOf(b[i]);
      AlignStep(a, b, i, i, window, confirm);
      AlignWalks(a, b, i + 1, window, confirm);
    } else {
      AlignEnd(a, b, i, i, window, confirm);
    }
  }

  /** FINDING, EXACT CONDITION.  Strict mode looks no further than the shorter
      trace.  When it finds no difference the traces are the same accesses if
      and only if neither has a tail beyond the other, and make the same writes
      if and only if that tail holds no write; the resynchronising comparison
      says which: it reports the tail as one side exhausted. */
  lemma StrictMissesTheTail(a: seq<Event>, b: seq<Event>, window: int, confirm: int)
    requires AgreesWhileBothLast(a, b)
    ensures Keys(a) == Keys(b) <==> Tail(a, b) == []
    ensures Keys(Writes(a)) == Keys(Writes(b)) <==> forall e :: e in Tail(a, b) ==> IsRead(e)
    ensures Align(a, b, 0, 0, window, confirm).verdict == if Tail(a, b) == [] then Clean else Exhausted
  {
    AlignWalks(a, b, 0, window, confirm);
    if |a| <= |b| {
      PrefixWrites(a, b);
      NoWritesInReads(b[|a|..]);
    } else {
      PrefixWrites(b, a);
      NoWritesInReads(a[|b|..]);
    }
  }

  lemma {:induction false} NoWritesInReads(es: seq<Event>)
    ensures Keys(Writes(es)) == [] <==> forall e :: e in es ==> IsRead(e)
  {
    if es != [] {
      var n := |es| - 1;
      NoWritesInReads(es[..n]);
      assert es == es[..n] + [es[n]];
      assert es[n] in es;
    }
  }

  /** A trace cut short before a write: strict mode matches all of it. */
  lemma CutBeforeWrite(a: seq<Event>, w: Event)
    requires !IsRead(w)
    ensures AgreesWhileBothLast(a, a + [w]) && Keys(Writes(a)) != Keys(Writes(a + [w]))
  {
    assert Keys(a + [w])[..|a|] == Keys(a);
    assert Tail(a, a + [w]) == [w];
    assert w in Tail(a, a + [w]);
    StrictMissesTheTail(a, a + [w], 0, 0);
  }
}
