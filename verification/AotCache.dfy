/** Content verification of natively compiled chunks, cached per chunk
    (`aot_module.c`): the cache answers as a fresh hash of guest RAM would, as
    long as RAM changes are followed by an invalidation that covers them. */
module AotCache {
  import opened Bytes
  import opened Wrappers

  const MEM1 := 0x180_0000
  const BASE := 0x8000_0000
  const UNCACHED := 0xC000_0000

  datatype State = Unverified | Verified | Failed

  datatype Range = Range(start: u32, end: u32)

  function Mix(hash: bv64, b: u8): bv64 {
    (hash ^ (b as bv64)) * 0x100_0000_01B3
  }

  /** 64-bit FNV-1a. */
  function Fnv(data: seq<u8>): bv64 {
    if data == [] then 0xCBF2_9CE4_8422_2325 else Mix(Fnv(data[..|data| - 1]), data[|data| - 1])
  }

  /** The hash is the published one: of nothing, and of the letter a. */
  lemma FnvVectors(data: seq<u8>)
    ensures data == [] ==> Fnv(data) == 0xCBF2_9CE4_8422_2325
    ensures data == [0x61] ==> Fnv(data) == 0xAF63_DC4C_8601_EC8C
  {
    LetterA(0x61);
    hide Mix;
    if data == [0x61] {
      assert data[..0] == [] && Fnv(data[..0]) == 0xCBF2_9CE4_8422_2325;
    }
  }

  lemma LetterA(b: u8)
    requires b == 0x61
    ensures Mix(0xCBF2_9CE4_8422_2325, b) == 0xAF63_DC4C_8601_EC8C
  {
    assert (b as bv64) == 0x61;
  }

  method Fnv1a64(data: seq<u8>) returns (hash: bv64)
    ensures hash == Fnv(data)
  {
    hide Mix;
    hash := 0xCBF2_9CE4_8422_2325;
    for i := 0 to |data|
      invariant hash == Fnv(data[..i])
    {
      assert data[..i + 1][..i] == data[..i];
      hash := Mix(hash, data[i]);
    }
    assert data[..|data|] == data;
  }

  /** The cached alias of a main-memory address, which has three. */
  function Canonical(address: u32): (r: Option<u32>)
    ensures r.Some? ==> BASE <= r.value < BASE + MEM1
  {
    if address < MEM1 then Some(address + BASE)
    else if BASE <= address < BASE + MEM1 then Some(address)
    else if UNCACHED <= address < UNCACHED + MEM1 then Some(address - UNCACHED + BASE)
    else None
  }

  /** ALIASES.  Three windows of the address space show main memory; the canonical
      address is that of the same byte in the cached one. */
  lemma CanonicalIsAlias(address: u32)
    ensures var byte, window := address % 0x2000_0000, address / 0x2000_0000;
            && (Canonical(address).Some? <==> byte < 0x180_0000 && (window == 0 || window == 4 || window == 6))
            && (Canonical(address).Some? ==> Canonical(address).value == 0x8000_0000 + byte)
  {
  }

  predicate Sorted(chunks: seq<Range>) {
    && (forall i :: 0 <= i < |chunks| ==> chunks[i].start <= chunks[i].end)
    && (forall i, j :: 0 <= i < j < |chunks| ==> chunks[i].end <= chunks[j].start)
  }

  predicate Contains(r: Range, address: u32) {
    r.start <= address < r.end
  }

  /** FIND.  The chunk that contains the address, if there is one. */
  method FindChunk(chunks: seq<Range>, address: u32) returns (found: Option<nat>)
    requires Sorted(chunks)
    ensures found == Lookup(chunks, address)
  {
    var lo, hi := 0, |chunks|;
    while lo < hi
      invariant 0 <= lo <= hi <= |chunks|
      invariant forall i :: 0 <= i < lo ==> chunks[i].end <= address
      invariant forall i :: hi <= i < |chunks| ==> address < chunks[i].start
    {
      var mid := lo + (hi - lo) / 2;
      if address < chunks[mid].start {
        hi := mid;
      } else if address >= chunks[mid].end {
        lo := mid + 1;
      } else {
        OnlyOne(chunks, address, mid, Lookup(chunks, address).value);
        return Some(mid);
      }
    }
    assert forall i :: 0 <= i < |chunks| ==> !Contains(chunks[i], address);
    return None;
  }

  lemma OnlyOne(chunks: seq<Range>, address: u32, i: nat, j: nat)
    requires Sorted(chunks) && i < |chunks| && j < |chunks|
    requires Contains(chunks[i], address) && Contains(chunks[j], address)
    ensures i == j
  {
  }

  /** The first chunk that contains the address, by looking at all of them. */
  function Lookup(chunks: seq<Range>, address: u32): (r: Option<nat>)
    ensures r.Some? ==> r.value < |chunks| && Contains(chunks[r.value], address)
    ensures r.None? ==> forall i :: 0 <= i < |chunks| ==> !Contains(chunks[i], address)
  {
    if chunks == [] then None
    else
      var n := |chunks| - 1;
      var r := Lookup(chunks[..n], address);
      if r.Some? then r
      else if Contains(chunks[n], address) then Some(n)
      else
        assert forall i :: 0 <= i < n ==> chunks[i] == chunks[..n][i];
        None
  }

  /** What the cache remembers: is the chunk's RAM what was compiled? */
  predicate InRam(r: Range, size: nat) {
    r.start >= BASE && r.start - BASE < size && r.end - r.start <= size - (r.start - BASE)
  }

  predicate Matches(r: Range, hash: bv64, ram: seq<u8>) {
    r.start <= r.end && InRam(r, |ram|) && Fnv(ram[r.start - BASE..r.end - BASE]) == hash
  }

  /** A chunk matches if its addresses are main memory that is there and the bytes
      at them, no more and no fewer, have its hash. */
  lemma MatchesExactly(r: Range, hash: bv64, ram: seq<u8>)
    requires r.start < r.end
    ensures Matches(r, hash, ram) <==>
              && 0x8000_0000 <= r.start && r.end - 0x8000_0000 <= |ram|
              && Fnv(ram[r.start - 0x8000_0000..r.end - 0x8000_0000]) == hash
  {
    hide Fnv;
  }

  function Count(states: seq<State>, what: State): nat {
    if states == [] then 0 else Count(states[..|states| - 1], what) + if states[|states| - 1] == what then 1 else 0
  }

  lemma {:induction false} CountUpdate(states: seq<State>, i: nat, s: State, what: State)
    requires i < |states|
    ensures Count(states[i := s], what)
            == Count(states, what) - (if states[i] == what then 1 else 0) + if s == what then 1 else 0
  {
    var n := |states| - 1;
    if i == n {
      assert states[i := s][..n] == states[..n];
    } else {
      assert states[i := s][..n] == states[..n][i := s];
      CountUpdate(states[..n], i, s, what);
    }
  }

  lemma {:induction false} CountMember(states: seq<State>, i: nat)
    requires i < |states|
    ensures Count(states, states[i]) > 0
  {
    if i < |states| - 1 {
      CountMember(states[..|states| - 1], i);
    }
  }

  /** Does the half-open range of `size` bytes from `from` meet the chunk, by the
      test the invalidation uses? */
  predicate Meets(r: Range, from: u32, size: u32) {
    from < r.end && r.start < from + size
  }

  /** A range that is not empty meets a chunk that is not empty if and only if some
      address lies in both. */
  lemma MeetsExactly(r: Range, from: u32, size: u32)
    requires size > 0 && r.start < r.end
    ensures Meets(r, from, size) <==> exists a: nat :: Contained(r, a) && from <= a < from + size
  {
    if Meets(r, from, size) {
      var a := if from < r.start then r.start else from;
      assert Contained(r, a);
    }
  }

  predicate Contained(r: Range, a: nat) {
    r.start <= a < r.end
  }

  function Invalidated(chunks: seq<Range>, states: seq<State>, from: u32, size: u32): (r: seq<State>)
    requires |chunks| == |states|
    ensures |r| == |states|
  {
    seq(|states|, i requires 0 <= i < |states| => if Meets(chunks[i], from, size) then Unverified else states[i])
  }

  /** The chunk a query is about. */
  function Asked(chunks: seq<Range>, address: u32): (r: Option<nat>)
    ensures r.Some? ==> r.value < |chunks|
  {
    if Canonical(address).None? then None else Lookup(chunks, Canonical(address).value)
  }

  function Verdict(r: Range, hash: bv64, s: State, ram: seq<u8>): State {
    if !s.Unverified? then s else if Matches(r, hash, ram) then Verified else Failed
  }

  function Answer(chunks: seq<Range>, hashes: seq<bv64>, states: seq<State>, ram: seq<u8>, address: u32): bool
    requires |chunks| == |hashes| == |states|
  {
    var i := Asked(chunks, address);
    i.Some? && Verdict(chunks[i.value], hashes[i.value], states[i.value], ram).Verified?
  }

  function Remembered(chunks: seq<Range>, hashes: seq<bv64>, states: seq<State>, ram: seq<u8>, address: u32): (r: seq<State>)
    requires |chunks| == |hashes| == |states|
    ensures |r| == |states|
  {
    var i := Asked(chunks, address);
    if i.None? then states
    else states[i.value := Verdict(chunks[i.value], hashes[i.value], states[i.value], ram)]
  }

  /** The check without a cache. */
  ghost predicate Native(chunks: seq<Range>, hashes: seq<bv64>, ram: seq<u8>, address: u32)
    requires |chunks| == |hashes|
  {
    && Canonical(address).Some?
    && exists i :: 0 <= i < |chunks| && Contains(chunks[i], Canonical(address).value) && Matches(chunks[i], hashes[i], ram)
  }

  class Module {
    const chunks: seq<Range>
    const hashes: seq<bv64>
    const states: array<State>
    var verified: nat
    var failed: nat
    var verifications: nat
    var invalidations: nat

    ghost predicate Valid()
      reads this, states
    {
      && |chunks| == |hashes| == states.Length && Sorted(chunks)
      && verified == Count(states[..], Verified) && failed == Count(states[..], Failed)
    }

    constructor (chunks: seq<Range>, hashes: seq<bv64>)
      requires |chunks| == |hashes| && Sorted(chunks)
      ensures Valid() && fresh(states) && this.chunks == chunks && this.hashes == hashes
      ensures forall i :: 0 <= i < |chunks| ==> states[i].Unverified?
    {
      this.chunks, this.hashes := chunks, hashes;
      states := new State[|chunks|](i => Unverified);
      verified, failed, verifications, invalidations := 0, 0, 0, 0;
      new;
      NothingCounted(states[..], Verified);
      NothingCounted(states[..], Failed);
    }

    method Mark(i: nat, s: State)
      requires Valid() && i < states.Length && states[i].Unverified? && !s.Unverified?
      modifies states, `verified, `failed
      ensures Valid() && states[..] == old(states[..])[i := s]
    {
      CountUpdate(states[..], i, s, Verified);
      CountUpdate(states[..], i, s, Failed);
      states[i] := s;
      if s.Verified? {
        verified := verified + 1;
      } else {
        failed := failed + 1;
      }
    }

    /** May the code at `address` run natively?  A chunk not verified yet is
        hashed now and the verdict remembered. */
    method Dispatchable(address: u32, ram: seq<u8>) returns (native: bool, chunk: Option<nat>)
      requires Valid()
      modifies states, `verified, `failed, `verifications
      ensures Valid()
      ensures native == Answer(chunks, hashes, old(states[..]), ram, address)
      ensures states[..] == Remembered(chunks, hashes, old(states[..]), ram, address)
      ensures chunk == if Canonical(address).Some? then Lookup(chunks, Canonical(address).value) else None
    {
      hide Fnv;
      var canonical := Canonical(address);
      if canonical.None? {
        return false, None;
      }
      chunk := FindChunk(chunks, canonical.value);
      if chunk.None? {
        return false, None;
      }
      var i := chunk.value;
      if states[i].Verified? {
        return true, chunk;
      }
      if states[i].Failed? {
        return false, chunk;
      }
      var start, length := chunks[i].start, chunks[i].end - chunks[i].start;
      verifications := verifications + 1;
      var ok := start >= BASE && start - BASE < |ram| && length <= |ram| - (start - BASE);
      if ok {
        var hash := Fnv1a64(ram[start - BASE..start - BASE + length]);
        ok := hash == hashes[i];
      }
      Mark(i, if ok then Verified else Failed);
      return ok, chunk;
    }

    /** Forget chunk `i`. */
    method Forget(i: nat)
      requires Valid() && i < states.Length
      modifies states, `verified, `failed
      ensures Valid() && states[..] == old(states[..])[i := Unverified]
    {
      CountUpdate(states[..], i, Unverified, Verified);
      CountUpdate(states[..], i, Unverified, Failed);
      CountMember(states[..], i);
      if states[i].Verified? {
        verified := verified - 1;
      } else if states[i].Failed? {
        failed := failed - 1;
      }
      states[i] := Unverified;
    }

    /** Forget every chunk the range meets, and no other; the counters follow. */
    method Invalidate(address: u32, size: u32)
      requires Valid()
      modifies states, `verified, `failed, `invalidations
      ensures Valid()
      ensures states[..] == if size == 0 || Canonical(address).None? then old(states[..])
                            else Invalidated(chunks, old(states[..]), Canonical(address).value, size)
    {
      var canonical := Canonical(address);
      if size == 0 || canonical.None? {
        return;
      }
      var from := canonical.value;
      for i := 0 to |chunks|
        invariant Valid()
        invariant forall k :: 0 <= k < i ==>
                    states[k] == if Meets(chunks[k], from, size) then Unverified else old(states[k])
        invariant forall k :: i <= k < |chunks| ==> states[k] == old(states[k])
      {
        if chunks[i].end <= from {
          continue;
        }
        if chunks[i].start >= from + size {
          break;
        }
        Forget(i);
        invalidations := invalidations + 1;
      }
    }
  }

  lemma {:induction false} NothingCounted(states: seq<State>, what: State)
    requires forall i :: 0 <= i < |states| ==> states[i] != what
    ensures Count(states, what) == 0
  {
    if states != [] {
      NothingCounted(states[..|states| - 1], what);
    }
  }

  // ---- runs of stores, invalidations and queries --------------------------

  /** RAM offsets of a chunk, as far as it lies above the base. */
  predicate Covers(r: Range, offset: int) {
    r.start <= BASE + offset < r.end
  }

  function Span(at: nat, n: nat): (s: set<int>)
    ensures forall o :: o in s <==> at <= o < at + n
  {
    if n == 0 then {} else Span(at, n - 1) + {at + n - 1}
  }

  ghost predicate Clean(r: Range, stale: set<int>) {
    forall o :: o in stale ==> !Covers(r, o)
  }

  ghost predicate True(r: Range, hash: bv64, s: State, ram: seq<u8>) {
    && (s.Verified? ==> Matches(r, hash, ram))
    && (s.Failed? ==> !Matches(r, hash, ram))
  }

  /** `stale` holds every RAM offset written since an invalidation covered it:
      what is remembered of a chunk that has none of them is true. */
  ghost predicate Coherent(chunks: seq<Range>, hashes: seq<bv64>, states: seq<State>, ram: seq<u8>, stale: set<int>) {
    && |chunks| == |hashes| == |states|
    && forall i :: 0 <= i < |chunks| ==> Clean(chunks[i], stale) ==> True(chunks[i], hashes[i], states[i], ram)
  }

  lemma MatchesUntouched(r: Range, hash: bv64, ram: seq<u8>, at: nat, bytes: seq<u8>)
    requires at + |bytes| <= |ram|
    requires forall o :: at <= o < at + |bytes| ==> !Covers(r, o)
    ensures Matches(r, hash, ram) == Matches(r, hash, Overwrite(ram, at, bytes))
  {
    var after := Overwrite(ram, at, bytes);
    if r.start <= r.end && InRam(r, |ram|) {
      var a, b := ram[r.start - BASE..r.end - BASE], after[r.start - BASE..r.end - BASE];
      forall k | 0 <= k < |a|
        ensures a[k] == b[k]
      {
        assert Covers(r, r.start - BASE + k);
      }
      assert a == b;
    }
  }

  /** A store makes the offsets it writes stale. */
  lemma StoreKeepsCoherent(chunks: seq<Range>, hashes: seq<bv64>, states: seq<State>, ram: seq<u8>, stale: set<int>,
                           at: nat, bytes: seq<u8>)
    requires Coherent(chunks, hashes, states, ram, stale) && at + |bytes| <= |ram|
    ensures Coherent(chunks, hashes, states, Overwrite(ram, at, bytes),
                     stale + Span(at, |bytes|))
  {
    var added := Span(at, |bytes|);
    forall i | 0 <= i < |chunks| && Clean(chunks[i], stale + added)
      ensures True(chunks[i], hashes[i], states[i], Overwrite(ram, at, bytes))
    {
      assert Clean(chunks[i], stale);
      forall o | at <= o < at + |bytes|
        ensures !Covers(chunks[i], o)
      {
        assert o in stale + added;
      }
      MatchesUntouched(chunks[i], hashes[i], ram, at, bytes);
    }
  }

  /** An invalidation makes the offsets it covers fresh again. */
  lemma InvalidateFreshens(chunks: seq<Range>, hashes: seq<bv64>, states: seq<State>, ram: seq<u8>, stale: set<int>,
                           address: u32, size: u32)
    requires Coherent(chunks, hashes, states, ram, stale) && Canonical(address).Some?
    ensures var from := Canonical(address).value;
            Coherent(chunks, hashes, Invalidated(chunks, states, from, size), ram,
                     set o | o in stale && !(from - BASE <= o < from - BASE + size))
  {
    var from := Canonical(address).value;
    var left := set o | o in stale && !(from - BASE <= o < from - BASE + size);
    forall i | 0 <= i < |chunks| && Clean(chunks[i], left)
      ensures True(chunks[i], hashes[i], Invalidated(chunks, states, from, size)[i], ram)
    {
      if !Meets(chunks[i], from, size) {
        forall o | o in stale
          ensures !Covers(chunks[i], o)
        {
          if o in left {
          }
        }
      }
    }
  }

  /** A query leaves only true verdicts behind if it found one. */
  lemma QueryKeepsCoherent(chunks: seq<Range>, hashes: seq<bv64>, states: seq<State>, ram: seq<u8>, stale: set<int>, address: u32)
    requires Coherent(chunks, hashes, states, ram, stale)
    ensures Coherent(chunks, hashes, Remembered(chunks, hashes, states, ram, address), ram, stale)
  {
    hide Fnv, Lookup;
  }

  /** CACHED IS FRESH.  While no byte of the chunk concerned is stale, the cache
      answers as hashing RAM again would. */
  lemma CachedIsFresh(chunks: seq<Range>, hashes: seq<bv64>, states: seq<State>, ram: seq<u8>, stale: set<int>, address: u32)
    requires Sorted(chunks) && Coherent(chunks, hashes, states, ram, stale)
    requires Asked(chunks, address).Some? ==> Clean(chunks[Asked(chunks, address).value], stale)
    ensures Answer(chunks, hashes, states, ram, address) == Native(chunks, hashes, ram, address)
  {
    hide Fnv, Lookup, Matches;
    if Canonical(address).Some? {
      var a := Canonical(address).value;
      var i := Lookup(chunks, a);
      forall j | i.Some? && 0 <= j < |chunks| && Contains(chunks[j], a)
        ensures j == i.value
      {
        OnlyOne(chunks, a, i.value, j);
      }
    }
  }

  // ---- whole runs ---------------------------------------------------------

  datatype Op = Store(at: nat, bytes: seq<u8>) | Invalidate(address: u32, size: u32) | Query(address: u32)

  datatype Cache = Cache(states: seq<State>, ram: seq<u8>, stale: set<int>)

  ghost predicate Possible(c: Cache, op: Op) {
    op.Store? ==> op.at + |op.bytes| <= |c.ram|
  }

  ghost function Step(chunks: seq<Range>, hashes: seq<bv64>, c: Cache, op: Op): (r: Cache)
    requires |chunks| == |hashes| == |c.states| && Possible(c, op)
    ensures |r.states| == |chunks|
  {
    match op
    case Store(at, bytes) =>
      Cache(c.states, Overwrite(c.ram, at, bytes), c.stale + Span(at, |bytes|))
    case Invalidate(address, size) =>
      if size == 0 || Canonical(address).None? then c
      else
        var from := Canonical(address).value;
        Cache(Invalidated(chunks, c.states, from, size), c.ram,
              set o | o in c.stale && !(from - BASE <= o < from - BASE + size))
    case Query(address) => c.(states := Remembered(chunks, hashes, c.states, c.ram, address))
  }

  /** The run answers every query about a chunk with no stale byte as the
      uncached check would at that moment. */
  ghost predicate AnswersFreshly(chunks: seq<Range>, hashes: seq<bv64>, c: Cache, ops: seq<Op>)
    requires |chunks| == |hashes| == |c.states|
    decreases |ops|
  {
    ops != [] && Possible(c, ops[0]) ==>
      && (ops[0].Query? && (Asked(chunks, ops[0].address).Some? ==> Clean(chunks[Asked(chunks, ops[0].address).value], c.stale)) ==>
            Answer(chunks, hashes, c.states, c.ram, ops[0].address) == Native(chunks, hashes, c.ram, ops[0].address))
      && AnswersFreshly(chunks, hashes, Step(chunks, hashes, c, ops[0]), ops[1..])
  }

  lemma StepKeepsCoherent(chunks: seq<Range>, hashes: seq<bv64>, c: Cache, op: Op)
    requires Coherent(chunks, hashes, c.states, c.ram, c.stale) && Possible(c, op)
    ensures var d := Step(chunks, hashes, c, op); Coherent(chunks, hashes, d.states, d.ram, d.stale)
  {
    hide Coherent, Remembered;
    Sizes(chunks, hashes, c);
    match op
    case Store(at, bytes) => StoreKeepsCoherent(chunks, hashes, c.states, c.ram, c.stale, at, bytes);
    case Invalidate(address, size) =>
      if size != 0 && Canonical(address).Some? {
        InvalidateFreshens(chunks, hashes, c.states, c.ram, c.stale, address, size);
      }
    case Query(address) => QueryKeepsCoherent(chunks, hashes, c.states, c.ram, c.stale, address);
  }

  lemma Sizes(chunks: seq<Range>, hashes: seq<bv64>, c: Cache)
    requires Coherent(chunks, hashes, c.states, c.ram, c.stale)
    ensures |chunks| == |hashes| == |c.states|
  {
  }

  /** WHOLE RUNS.  From any state in which the cache is right about the bytes that
      are not stale, over any run of stores, invalidations and queries. */
  lemma {:induction false} EveryRunAnswersFreshly(chunks: seq<Range>, hashes: seq<bv64>, c: Cache, ops: seq<Op>)
    requires Sorted(chunks) && Coherent(chunks, hashes, c.states, c.ram, c.stale)
    ensures AnswersFreshly(chunks, hashes, c, ops)
    decreases |ops|
  {
    hide Coherent, Step, Answer, Native, Asked, Clean;
    Sizes(chunks, hashes, c);
    if ops != [] && Possible(c, ops[0]) {
      if ops[0].Query? && (Asked(chunks, ops[0].address).Some? ==> Clean(chunks[Asked(chunks, ops[0].address).value], c.stale)) {
        CachedIsFresh(chunks, hashes, c.states, c.ram, c.stale, ops[0].address);
      }
      StepKeepsCoherent(chunks, hashes, c, ops[0]);
      EveryRunAnswersFreshly(chunks, hashes, Step(chunks, hashes, c, ops[0]), ops[1..]);
    }
  }

  lemma FreshModuleIsCoherent(chunks: seq<Range>, hashes: seq<bv64>, states: seq<State>, ram: seq<u8>)
    requires |chunks| == |hashes| == |states| && forall i :: 0 <= i < |states| ==> states[i].Unverified?
    ensures Coherent(chunks, hashes, states, ram, {})
  {
  }

  /** From a module nothing of which has been verified, whatever memory holds. */
  lemma FreshModuleAnswersFreshly(chunks: seq<Range>, hashes: seq<bv64>, states: seq<State>, ram: seq<u8>, ops: seq<Op>)
    requires Sorted(chunks) && |chunks| == |hashes| == |states|
    requires forall i :: 0 <= i < |states| ==> states[i].Unverified?
    ensures AnswersFreshly(chunks, hashes, Cache(states, ram, {}), ops)
  {
    hide AnswersFreshly, Coherent;
    FreshModuleIsCoherent(chunks, hashes, states, ram);
    EveryRunAnswersFreshly(chunks, hashes, Cache(states, ram, {}), ops);
  }
}
