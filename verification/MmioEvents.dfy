/** Device-access traces and the folding of busy-wait reads
    (`collapse_reads`, `collapse_counter_polls`, and the file fold). */
module MmioEvents {
  import opened Bytes

  datatype Event = Event(addr: u32, size: u8, write: u8, value: u32, block: u8, pc: u32)

  /** What events are compared on. */
  datatype Key = Key(addr: u32, size: u8, write: u8, value: u32)

  function KeyOf(e: Event): Key {
    Key(e.addr, e.size, e.write, e.value)
  }

  predicate IsRead(e: Event) {
    e.write == 0
  }

  predicate Same(a: Event, b: Event) {
    KeyOf(a) == KeyOf(b)
  }

  function Keys(es: seq<Event>): (ks: seq<Key>)
    ensures |ks| == |es|
  {
    seq(|es|, i requires 0 <= i < |es| => KeyOf(es[i]))
  }

  function Writes(es: seq<Event>): seq<Event> {
    if es == [] then []
    else Writes(es[..|es| - 1]) + (if IsRead(es[|es| - 1]) then [] else [es[|es| - 1]])
  }

  lemma {:induction false} WritesAppend(a: seq<Event>, b: seq<Event>)
    ensures Writes(a + b) == Writes(a) + Writes(b)
    decreases |b|
  {
    if b == [] {
      assert a + b == a;
    } else {
      assert (a + b)[..|a + b| - 1] == a + b[..|b| - 1];
      WritesAppend(a, b[..|b| - 1]);
    }
  }

  // ---- identical reads ----------------------------------------------------

  /** `e` repeats the read that `out` ends with. */
  predicate Folds(out: seq<Event>, e: Event) {
    IsRead(e) && out != [] && IsRead(out[|out| - 1]) && Same(out[|out| - 1], e)
  }

  function Kept(out: seq<Event>, e: Event): seq<Event> {
    if Folds(out, e) then out else out + [e]
  }

  function Collapse(es: seq<Event>): seq<Event> {
    if es == [] then [] else Kept(Collapse(es[..|es| - 1]), es[|es| - 1])
  }

  method CollapseReads(es: seq<Event>) returns (out: seq<Event>)
    ensures out == Collapse(es)
  {
    out := [];
    for i := 0 to |es|
      invariant out == Collapse(es[..i])
    {
      assert es[..i + 1][..i] == es[..i];
      var e := es[i];
      if !(IsRead(e) && out != [] && IsRead(out[|out| - 1]) && Same(out[|out| - 1], e)) {
        out := out + [e];
      }
    }
    assert es[..|es|] == es;
  }

  /** No event repeats the read before it. */
  predicate NoRepeats(es: seq<Event>) {
    forall i :: 0 <= i < |es| - 1 ==> !(IsRead(es[i]) && Same(es[i], es[i + 1]))
  }

  lemma {:induction false} CollapsedHasNoRepeats(es: seq<Event>)
    ensures NoRepeats(Collapse(es))
  {
    if es != [] {
      CollapsedHasNoRepeats(es[..|es| - 1]);
    }
  }

  lemma {:induction false} NoRepeatsUnchanged(es: seq<Event>)
    requires NoRepeats(es)
    ensures Collapse(es) == es
  {
    if es != [] {
      NoRepeatsUnchanged(es[..|es| - 1]);
      assert es == es[..|es| - 1] + [es[|es| - 1]];
      if |es| > 1 {
        assert !(IsRead(es[|es| - 2]) && Same(es[|es| - 2], es[|es| - 1]));
      }
    }
  }

  lemma CollapseIdempotent(es: seq<Event>)
    ensures Collapse(Collapse(es)) == Collapse(es)
  {
    CollapsedHasNoRepeats(es);
    NoRepeatsUnchanged(Collapse(es));
  }

  lemma WritesOfOne(out: seq<Event>, e: Event)
    ensures Writes(out + [e]) == Writes(out) + if IsRead(e) then [] else [e]
  {
    assert (out + [e])[..|out|] == out;
  }

  /** Writes survive whole, in order, with their program counters. */
  lemma {:induction false} CollapseKeepsWrites(es: seq<Event>)
    ensures Writes(Collapse(es)) == Writes(es)
  {
    if es != [] {
      CollapseKeepsWrites(es[..|es| - 1]);
      WritesOfOne(Collapse(es[..|es| - 1]), es[|es| - 1]);
    }
  }

  // ---- a canonical form ---------------------------------------------------

  predicate KeyFolds(out: seq<Key>, k: Key) {
    k.write == 0 && out != [] && out[|out| - 1] == k
  }

  function CollapseKeys(ks: seq<Key>): seq<Key> {
    if ks == [] then []
    else
      var out, k := CollapseKeys(ks[..|ks| - 1]), ks[|ks| - 1];
      if KeyFolds(out, k) then out else out + [k]
  }

  lemma {:induction false} CollapseOnKeys(es: seq<Event>)
    ensures Keys(Collapse(es)) == CollapseKeys(Keys(es))
  {
    if es != [] {
      CollapseOnKeys(es[..|es| - 1]);
      assert Keys(es)[..|es| - 1] == Keys(es[..|es| - 1]);
    }
  }

  /** `b` is `a` with one read repeated right after itself. */
  ghost predicate RepeatedAt(a: seq<Key>, b: seq<Key>, i: nat) {
    i < |a| && a[i].write == 0 && b == a[..i + 1] + [a[i]] + a[i + 1..]
  }

  ghost predicate OneApart(a: seq<Key>, b: seq<Key>) {
    (exists i: nat :: RepeatedAt(a, b, i)) || (exists i: nat :: RepeatedAt(b, a, i))
  }

  /** `path` leads from `a` to `b`, repeating or unrepeating one read a step. */
  ghost predicate Leads(path: seq<seq<Key>>, a: seq<Key>, b: seq<Key>) {
    && path != [] && path[0] == a && path[|path| - 1] == b
    && forall i :: 0 <= i < |path| - 1 ==> OneApart(path[i], path[i + 1])
  }

  ghost predicate Linked(a: seq<Key>, b: seq<Key>) {
    exists path :: Leads(path, a, b)
  }

  lemma AppendApart(a: seq<Key>, b: seq<Key>, k: Key)
    requires OneApart(a, b)
    ensures OneApart(a + [k], b + [k])
  {
    if i: nat :| RepeatedAt(a, b, i) {
      assert a + [k] == a[..i + 1] + (a[i + 1..] + [k]);
      assert RepeatedAt(a + [k], b + [k], i);
    } else {
      var i: nat :| RepeatedAt(b, a, i);
      assert b + [k] == b[..i + 1] + (b[i + 1..] + [k]);
      assert RepeatedAt(b + [k], a + [k], i);
    }
  }

  function AppendAll(path: seq<seq<Key>>, k: Key): (r: seq<seq<Key>>)
    ensures |r| == |path|
  {
    seq(|path|, i requires 0 <= i < |path| => path[i] + [k])
  }

  lemma PathAppend(path: seq<seq<Key>>, a: seq<Key>, b: seq<Key>, k: Key)
    requires Leads(path, a, b)
    ensures Leads(AppendAll(path, k), a + [k], b + [k])
  {
    var r := AppendAll(path, k);
    forall i | 0 <= i < |r| - 1
      ensures OneApart(r[i], r[i + 1])
    {
      AppendApart(path[i], path[i + 1], k);
    }
  }

  lemma PathExtend(path: seq<seq<Key>>, a: seq<Key>, b: seq<Key>, c: seq<Key>)
    requires Leads(path, a, b) && OneApart(b, c)
    ensures Leads(path + [c], a, c)
  {
  }

  lemma PathJoin(p: seq<seq<Key>>, q: seq<seq<Key>>, a: seq<Key>, b: seq<Key>, c: seq<Key>)
    requires Leads(p, a, b) && Leads(q, b, c)
    ensures Leads(p + q[1..], a, c)
  {
    var r := p + q[1..];
    forall i | 0 <= i < |r| - 1
      ensures OneApart(r[i], r[i + 1])
    {
      if i < |p| - 1 {
        assert OneApart(p[i], p[i + 1]);
      } else {
        assert r[i] == q[i - |p| + 1] && r[i + 1] == q[i - |p| + 2];
      }
    }
  }

  function Backwards(p: seq<seq<Key>>): (r: seq<seq<Key>>)
    ensures |r| == |p|
  {
    seq(|p|, i requires 0 <= i < |p| => p[|p| - 1 - i])
  }

  lemma PathBack(p: seq<seq<Key>>, a: seq<Key>, b: seq<Key>)
    requires Leads(p, a, b)
    ensures Leads(Backwards(p), b, a)
  {
    var r := Backwards(p);
    forall i | 0 <= i < |r| - 1
      ensures OneApart(r[i], r[i + 1])
    {
      assert OneApart(p[|p| - 2 - i], p[|p| - 2 - i + 1]);
    }
  }

  /** Folding is a sequence of unrepeatings. */
  lemma {:induction false} CollapsePath(ks: seq<Key>) returns (path: seq<seq<Key>>)
    ensures Leads(path, ks, CollapseKeys(ks))
  {
    if ks == [] {
      path := [[]];
    } else {
      var z, k := ks[..|ks| - 1], ks[|ks| - 1];
      var p := CollapsePath(z);
      PathAppend(p, z, CollapseKeys(z), k);
      path := AppendAll(p, k);
      assert z + [k] == ks;
      if KeyFolds(CollapseKeys(z), k) {
        var c := CollapseKeys(z);
        assert c[..|c| - 1 + 1] == c && c[|c|..] == [] && c + [k] + [] == c + [k];
        assert RepeatedAt(c, c + [k], |c| - 1);
        PathExtend(path, ks, c + [k], c);
        path := path + [c];
      }
    }
  }

  lemma {:induction false} RepeatCollapses(p: seq<Key>, r: Key, q: seq<Key>)
    requires r.write == 0
    ensures CollapseKeys(p + [r] + [r] + q) == CollapseKeys(p + [r] + q)
    decreases |q|
  {
    if q == [] {
      assert p + [r] + [r] + q == p + [r] + [r] && p + [r] + q == p + [r];
      assert (p + [r] + [r])[..|p| + 1] == p + [r];
      assert (p + [r])[..|p|] == p;
    } else {
      var z, k := q[..|q| - 1], q[|q| - 1];
      RepeatCollapses(p, r, z);
      assert (p + [r] + [r] + q)[..|p| + 1 + |q|] == p + [r] + [r] + z;
      assert (p + [r] + q)[..|p| + |q|] == p + [r] + z;
    }
  }

  lemma RepeatedCollapsesAlike(a: seq<Key>, b: seq<Key>, i: nat)
    requires RepeatedAt(a, b, i)
    ensures CollapseKeys(a) == CollapseKeys(b)
  {
    hide CollapseKeys;
    var p, r, q := a[..i], a[i], a[i + 1..];
    RepeatCollapses(p, r, q);
    assert p + [r] == a[..i + 1];
    assert p + [r] + q == a;
  }

  lemma ApartCollapsesAlike(a: seq<Key>, b: seq<Key>)
    requires OneApart(a, b)
    ensures CollapseKeys(a) == CollapseKeys(b)
  {
    hide CollapseKeys, RepeatedAt;
    if i: nat :| RepeatedAt(a, b, i) {
      RepeatedCollapsesAlike(a, b, i);
    } else {
      var i: nat :| RepeatedAt(b, a, i);
      RepeatedCollapsesAlike(b, a, i);
    }
  }

  lemma {:induction false} PathCollapsesAlike(path: seq<seq<Key>>, a: seq<Key>, b: seq<Key>)
    requires Leads(path, a, b)
    ensures CollapseKeys(a) == CollapseKeys(b)
    decreases |path|
  {
    if |path| > 1 {
      assert OneApart(path[0], path[0 + 1]);
      ApartCollapsesAlike(path[0], path[1]);
      var tail := path[1..];
      forall i | 0 <= i < |tail| - 1
        ensures OneApart(tail[i], tail[i + 1])
      {
        assert OneApart(path[i + 1], path[i + 1 + 1]);
      }
      PathCollapsesAlike(tail, path[1], b);
    }
  }

  /** CANONICAL FORM.  Two traces collapse to the same accesses if and only if
      they differ by nothing but repetitions of adjacent identical reads. */
  lemma CollapseIsCanonical(a: seq<Event>, b: seq<Event>)
    ensures Keys(Collapse(a)) == Keys(Collapse(b)) <==> Linked(Keys(a), Keys(b))
  {
    CollapseOnKeys(a);
    CollapseOnKeys(b);
    if Keys(Collapse(a)) == Keys(Collapse(b)) {
      var p := CollapsePath(Keys(a));
      var q := CollapsePath(Keys(b));
      PathBack(q, Keys(b), CollapseKeys(Keys(b)));
      PathJoin(p, Backwards(q), Keys(a), CollapseKeys(Keys(a)), Keys(b));
    }
    if Linked(Keys(a), Keys(b)) {
      var path :| Leads(path, Keys(a), Keys(b));
      PathCollapsesAlike(path, Keys(a), Keys(b));
    }
  }
}
