/** The two-pass assembler (class `Asm`): labels may be used before they are
    defined; `finish` patches every word that waited for one. */
module Assembler {
  import opened Bytes
  import opened PpcEncoding
  import opened Wrappers

  /** What a program is made of: a label, a finished word, or a word that needs a
      label's address. */
  datatype Item =
    | Define(name: string)
    | Plain(word: u32)
    | LoadHigh(rd: int, name: string)
    | LoadLow(rd: int, name: string)
    | Jump(name: string, lk: nat)
    | CondJump(bo: int, bi: int, name: string, lk: nat)

  datatype Slot = Waiting | Filled(word: u32)

  datatype Fixup = Fixup(slot: nat, item: Item, addr: int)

  predicate Waits(item: Item) {
    !item.Define? && !item.Plain?
  }

  /** A link bit is one bit. */
  predicate Legal(item: Item) {
    item.Jump? || item.CondJump? ==> item.lk < 2
  }

  /** The word of an item at `addr`, once its label is known to be at `target`. */
  function Resolve(item: Item, addr: int, target: int): u32
    requires Waits(item) && Legal(item)
  {
    match item
    case LoadHigh(rd, _) => EncLis(rd, target / 0x1_0000 % 0x1_0000)
    case LoadLow(rd, _) => EncOri(rd, rd, target % 0x1_0000)
    case Jump(_, lk) => EncB(target, addr, lk)
    case CondJump(bo, bi, _, lk) => EncBc(bo, bi, target, addr, lk)
  }

  // ---- the program as a list ----------------------------------------------

  /** Words the items take. */
  function Size(items: seq<Item>): nat {
    if items == [] then 0 else Size(items[..|items| - 1]) + if items[|items| - 1].Define? then 0 else 1
  }

  function AddressOf(base: int, items: seq<Item>): int {
    base + 4 * Size(items)
  }

  function Labels(base: int, items: seq<Item>): map<string, int> {
    if items == [] then map[]
    else
      var z, item := items[..|items| - 1], items[|items| - 1];
      if item.Define? then Labels(base, z)[item.name := AddressOf(base, z)] else Labels(base, z)
  }

  /** No label is defined twice. */
  predicate Unique(base: int, items: seq<Item>) {
    items == [] ||
    (Unique(base, items[..|items| - 1])
     && (items[|items| - 1].Define? ==> items[|items| - 1].name !in Labels(base, items[..|items| - 1])))
  }

  predicate AllLegal(items: seq<Item>) {
    forall i :: 0 <= i < |items| ==> Legal(items[i])
  }

  /** Every label used is defined somewhere. */
  predicate Linked(items: seq<Item>, labels: map<string, int>) {
    forall i :: 0 <= i < |items| && Waits(items[i]) ==> items[i].name in labels
  }

  function Slots(items: seq<Item>): (s: seq<Slot>)
    ensures |s| == Size(items)
  {
    if items == [] then []
    else
      var item := items[|items| - 1];
      Slots(items[..|items| - 1])
      + (if item.Define? then [] else if item.Plain? then [Filled(item.word)] else [Waiting])
  }

  function Fixups(base: int, items: seq<Item>): seq<Fixup> {
    if items == [] then []
    else
      var z, item := items[..|items| - 1], items[|items| - 1];
      Fixups(base, z) + if Waits(item) then [Fixup(Size(z), item, AddressOf(base, z))] else []
  }

  /** The finished program: every item's word, all labels known. */
  function Image(base: int, items: seq<Item>, labels: map<string, int>): (ws: seq<u32>)
    requires AllLegal(items) && Linked(items, labels)
    ensures |ws| == Size(items)
  {
    if items == [] then []
    else
      var z, item := items[..|items| - 1], items[|items| - 1];
      Image(base, z, labels)
      + (if item.Define? then [] else if item.Plain? then [item.word]
         else [Resolve(item, AddressOf(base, z), labels[item.name])])
  }

  lemma SizeSnoc(items: seq<Item>, item: Item)
    ensures Size(items + [item]) == Size(items) + if item.Define? then 0 else 1
  {
    assert (items + [item])[..|items|] == items;
  }

  lemma {:induction false} SizeOfPrefix(items: seq<Item>, i: nat)
    requires i <= |items|
    ensures Size(items[..i]) <= Size(items)
    ensures i < |items| && !items[i].Define? ==> Size(items[..i]) < Size(items)
  {
    if i < |items| {
      assert items[..|items| - 1][..i] == items[..i];
      SizeOfPrefix(items[..|items| - 1], i);
    } else {
      assert items[..i] == items;
    }
  }

  /** The word of item `i` stands where the items before it end. */
  lemma {:induction false} ImageAt(base: int, items: seq<Item>, labels: map<string, int>, i: nat)
    requires AllLegal(items) && Linked(items, labels) && i < |items| && !items[i].Define?
    ensures Size(items[..i]) < Size(items)
    ensures Image(base, items, labels)[Size(items[..i])]
            == if items[i].Plain? then items[i].word
               else Resolve(items[i], AddressOf(base, items[..i]), labels[items[i].name])
  {
    SizeOfPrefix(items, i);
    if i < |items| - 1 {
      assert items[..|items| - 1][..i] == items[..i];
      ImageAt(base, items[..|items| - 1], labels, i);
    }
  }

  /** A label stands for the address of what follows its definition. */
  lemma {:induction false} LabelAt(base: int, items: seq<Item>, i: nat)
    requires Unique(base, items) && i < |items| && items[i].Define?
    ensures items[i].name in Labels(base, items) && Labels(base, items)[items[i].name] == AddressOf(base, items[..i])
  {
    if i < |items| - 1 {
      assert items[..|items| - 1][..i] == items[..i];
      LabelAt(base, items[..|items| - 1], i);
    }
  }

  lemma {:induction false} LabelsAreWordAddresses(base: int, items: seq<Item>, name: string)
    requires name in Labels(base, items)
    ensures (Labels(base, items)[name] - base) % 4 == 0
  {
    if items != [] {
      var z, item := items[..|items| - 1], items[|items| - 1];
      if !(item.Define? && item.name == name) {
        LabelsAreWordAddresses(base, z, name);
      }
    }
  }

  // ---- what the program does ----------------------------------------------

  /** BRANCHES LAND.  In the finished program every branch goes to its label,
      forward or backward, exactly if the displacement fits the field, and it is
      the branch asked for: opcode, condition and link bit. */
  lemma BranchesLand(base: int, items: seq<Item>, i: nat)
    requires AllLegal(items) && Linked(items, Labels(base, items)) && i < |items|
    requires items[i].Jump? || items[i].CondJump?
    ensures Size(items[..i]) < Size(items)
    ensures var labels, addr := Labels(base, items), AddressOf(base, items[..i]);
            var w, reach := Image(base, items, labels)[Size(items[..i])], if items[i].Jump? then 0x200_0000 else 0x8000;
            && (BranchTarget(w, addr) == labels[items[i].name] <==> -reach <= labels[items[i].name] - addr < reach)
            && Field(w, 1, 2) == items[i].lk && Field(w, 2, 2) == 0
            && (items[i].Jump? ==> Field(w, 0x400_0000, 64) == 18)
            && (items[i].CondJump? ==>
                  && Field(w, 0x400_0000, 64) == 16
                  && Field(w, 0x20_0000, 32) == items[i].bo % 32 && Field(w, 0x1_0000, 32) == items[i].bi % 32)
  {
    hide Field, EncB, EncBc, BranchTarget, Image, Labels;
    var labels, addr := Labels(base, items), AddressOf(base, items[..i]);
    ImageAt(base, items, labels, i);
    LabelsAreWordAddresses(base, items, items[i].name);
    var target := labels[items[i].name];
    assert (target - addr) % 4 == 0;
    match items[i]
    case Jump(_, lk) => JumpWord(target, addr, lk);
    case CondJump(bo, bi, _, lk) => CondWord(bo, bi, target, addr, lk);
  }

  lemma JumpWord(target: int, addr: int, lk: nat)
    requires lk < 2 && (target - addr) % 4 == 0
    ensures var w := EncB(target, addr, lk);
            && (BranchTarget(w, addr) == target <==> -0x200_0000 <= target - addr < 0x200_0000)
            && Field(w, 0x400_0000, 64) == 18 && Field(w, 1, 2) == lk && Field(w, 2, 2) == 0
  {
    BranchReaches(target, addr, lk);
    IFormInverse((target - addr) / 4, lk);
    hide Field, IForm, BranchTarget;
  }

  lemma CondWord(bo: int, bi: int, target: int, addr: int, lk: nat)
    requires lk < 2 && (target - addr) % 4 == 0
    ensures var w := EncBc(bo, bi, target, addr, lk);
            && (BranchTarget(w, addr) == target <==> -0x8000 <= target - addr < 0x8000)
            && Field(w, 0x400_0000, 64) == 16 && Field(w, 0x20_0000, 32) == bo % 32 && Field(w, 0x1_0000, 32) == bi % 32
            && Field(w, 1, 2) == lk && Field(w, 2, 2) == 0
  {
    CondBranchReaches(bo, bi, target, addr, lk);
    BFormInverse(bo, bi, (target - addr) / 4, lk);
    hide Field, BForm, BranchTarget;
  }

  /** A high/low pair loads its label's address, into the register named. */
  lemma PairsLoadLabels(base: int, items: seq<Item>, i: nat, rd: int, name: string)
    requires AllLegal(items) && Linked(items, Labels(base, items)) && i + 1 < |items|
    requires items[i] == LoadHigh(rd, name) && items[i + 1] == LoadLow(rd, name)
    ensures Size(items[..i]) + 1 < Size(items)
    ensures var labels := Labels(base, items);
            var ws, at := Image(base, items, labels), Size(items[..i]);
            && Loaded(ws[at], ws[at + 1]) == labels[name] % WORD
            && Field(ws[at], 0x400_0000, 64) == 15 && Field(ws[at], 0x20_0000, 32) == rd % 32 && Field(ws[at], 0x1_0000, 32) == 0
            && Field(ws[at + 1], 0x400_0000, 64) == 24
            && Field(ws[at + 1], 0x20_0000, 32) == Field(ws[at + 1], 0x1_0000, 32) == rd % 32
  {
    var labels := Labels(base, items);
    ImageAt(base, items, labels, i);
    ImageAt(base, items, labels, i + 1);
    assert items[..i + 1] == items[..i] + [items[i]];
    SizeSnoc(items[..i], items[i]);
    PairLoads(rd, labels[name]);
  }

  // ---- patching -----------------------------------------------------------

  ghost predicate Patchable(slots: seq<Slot>, fs: seq<Fixup>, labels: map<string, int>) {
    forall k :: 0 <= k < |fs| ==>
      fs[k].slot < |slots| && Waits(fs[k].item) && Legal(fs[k].item) && fs[k].item.name in labels
  }

  /** Apply fixups in order. */
  ghost function Patched(slots: seq<Slot>, fs: seq<Fixup>, labels: map<string, int>): (r: seq<Slot>)
    requires Patchable(slots, fs, labels)
    ensures |r| == |slots|
  {
    if fs == [] then slots
    else
      var f := fs[|fs| - 1];
      Patched(slots, fs[..|fs| - 1], labels)[f.slot := Filled(Resolve(f.item, f.addr, labels[f.item.name]))]
  }

  lemma {:induction false} PatchedAppend(slots: seq<Slot>, x: seq<Slot>, fs: seq<Fixup>, labels: map<string, int>)
    requires Patchable(slots, fs, labels) && Patchable(slots + x, fs, labels)
    ensures Patched(slots + x, fs, labels) == Patched(slots, fs, labels) + x
  {
    if fs != [] {
      PatchedAppend(slots, x, fs[..|fs| - 1], labels);
    }
  }

  function Fill(ws: seq<u32>): (r: seq<Slot>)
    ensures |r| == |ws|
  {
    seq(|ws|, i requires 0 <= i < |ws| => Filled(ws[i]))
  }

  lemma {:induction false} FixupsFit(base: int, items: seq<Item>, labels: map<string, int>)
    requires AllLegal(items) && Linked(items, labels)
    ensures Patchable(Slots(items), Fixups(base, items), labels)
  {
    if items != [] {
      FixupsFit(base, items[..|items| - 1], labels);
    }
  }

  /** Patching the words that waited gives the finished program. */
  lemma {:induction false} PatchingFinishes(base: int, items: seq<Item>, labels: map<string, int>)
    requires AllLegal(items) && Linked(items, labels)
    ensures Patchable(Slots(items), Fixups(base, items), labels)
    ensures Patched(Slots(items), Fixups(base, items), labels) == Fill(Image(base, items, labels))
  {
    FixupsFit(base, items, labels);
    if items != [] {
      var z, item := items[..|items| - 1], items[|items| - 1];
      FixupsFit(base, z, labels);
      PatchingFinishes(base, z, labels);
      PatchLast(base, z, item, labels);
      assert z + [item] == items;
    }
  }

  /** What one more item adds to the words, the fixups and the image. */
  lemma LayoutSnoc(base: int, z: seq<Item>, item: Item, labels: map<string, int>)
    requires AllLegal(z) && Legal(item) && Linked(z, labels) && (Waits(item) ==> item.name in labels)
    ensures AllLegal(z + [item]) && Linked(z + [item], labels)
    ensures Slots(z + [item])
            == Slots(z) + (if item.Define? then [] else if item.Plain? then [Filled(item.word)] else [Waiting])
    ensures Fixups(base, z + [item])
            == Fixups(base, z) + if Waits(item) then [Fixup(Size(z), item, AddressOf(base, z))] else []
    ensures Image(base, z + [item], labels)
            == Image(base, z, labels)
               + (if item.Define? then [] else if item.Plain? then [item.word]
                  else [Resolve(item, AddressOf(base, z), labels[item.name])])
  {
    hide Resolve;
    assert (z + [item])[..|z|] == z;
  }

  lemma NothingPatched(slots: seq<Slot>, labels: map<string, int>)
    ensures Patchable(slots, [], labels) && Patched(slots, [], labels) == slots
  {
  }

  lemma PatchedSnoc(slots: seq<Slot>, fs: seq<Fixup>, f: Fixup, labels: map<string, int>)
    requires Patchable(slots, fs, labels)
    requires f.slot < |slots| && Waits(f.item) && Legal(f.item) && f.item.name in labels
    ensures Patchable(slots, fs + [f], labels)
    ensures Patched(slots, fs + [f], labels)
            == Patched(slots, fs, labels)[f.slot := Filled(Resolve(f.item, f.addr, labels[f.item.name]))]
  {
    assert (fs + [f])[..|fs|] == fs;
  }

  lemma PatchLast(base: int, z: seq<Item>, item: Item, labels: map<string, int>)
    requires AllLegal(z) && Legal(item) && Linked(z, labels) && (Waits(item) ==> item.name in labels)
    requires Patchable(Slots(z), Fixups(base, z), labels)
    requires Patched(Slots(z), Fixups(base, z), labels) == Fill(Image(base, z, labels))
    ensures AllLegal(z + [item]) && Linked(z + [item], labels)
    ensures Patchable(Slots(z + [item]), Fixups(base, z + [item]), labels)
    ensures Patched(Slots(z + [item]), Fixups(base, z + [item]), labels) == Fill(Image(base, z + [item], labels))
  {
    LayoutSnoc(base, z, item, labels);
    FixupsFit(base, z + [item], labels);
    hide Slots, Fixups, Image, Patched, Resolve, Size, AddressOf, Linked, AllLegal;
    var slots, fs := Slots(z), Fixups(base, z);
    if item.Define? {
      assert slots + [] == slots && fs + [] == fs;
      assert Image(base, z, labels) + [] == Image(base, z, labels);
    } else if item.Plain? {
      assert fs + [] == fs;
      PatchedAppend(slots, [Filled(item.word)], fs, labels);
    } else {
      PatchedSnoc(slots + [Waiting], fs, Fixup(Size(z), item, AddressOf(base, z)), labels);
      PatchedAppend(slots, [Waiting], fs, labels);
    }
  }

  // ---- the assembler object -----------------------------------------------

  class Asm {
    const base: int
    var words: seq<Slot>
    var labels: map<string, int>
    var fixups: seq<Fixup>
    ghost var items: seq<Item>

    ghost predicate Valid()
      reads this
    {
      && AllLegal(items) && Unique(base, items)
      && words == Slots(items) && labels == Labels(base, items) && fixups == Fixups(base, items)
    }

    constructor (base: int)
      ensures Valid() && items == [] && this.base == base
    {
      this.base := base;
      words, labels, fixups, items := [], map[], [], [];
    }

    /** A label may be defined once only. */
    method Label(name: string) returns (ok: bool)
      requires Valid()
      modifies this
      ensures Valid() && ok == (name !in old(labels))
      ensures items == if ok then old(items) + [Define(name)] else old(items)
    {
      if name in labels {
        return false;
      }
      assert (items + [Define(name)])[..|items|] == items;
      labels := labels[name := base + 4 * |words|];
      items := items + [Define(name)];
      return true;
    }

    /** A word of which only the low 32 bits are kept. */
    method Emit(word: int)
      requires Valid()
      modifies this
      ensures Valid() && items == old(items) + [Plain(word % WORD)]
    {
      assert (items + [Plain(word % WORD)])[..|items|] == items;
      words := words + [Filled(word % WORD)];
      items := items + [Plain(word % WORD)];
    }

    method Defer(item: Item)
      requires Valid() && Waits(item) && Legal(item)
      modifies this
      ensures Valid() && items == old(items) + [item]
    {
      assert (items + [item])[..|items|] == items;
      fixups := fixups + [Fixup(|words|, item, base + 4 * |words|)];
      words := words + [Waiting];
      items := items + [item];
    }

    method LoadLabel32(rd: int, name: string)
      requires Valid()
      modifies this
      ensures Valid() && items == old(items) + [LoadHigh(rd, name), LoadLow(rd, name)]
    {
      Defer(LoadHigh(rd, name));
      Defer(LoadLow(rd, name));
    }

    method B(name: string, lk: nat)
      requires Valid() && lk < 2
      modifies this
      ensures Valid() && items == old(items) + [Jump(name, lk)]
    {
      Defer(Jump(name, lk));
    }

    method Bne(name: string, bi: int, lk: nat)
      requires Valid() && lk < 2
      modifies this
      ensures Valid() && items == old(items) + [CondJump(4, bi, name, lk)]
    {
      Defer(CondJump(4, bi, name, lk));
    }

    method Beq(name: string, bi: int, lk: nat)
      requires Valid() && lk < 2
      modifies this
      ensures Valid() && items == old(items) + [CondJump(12, bi, name, lk)]
    {
      Defer(CondJump(12, bi, name, lk));
    }

    /** Patch what waits.  A label that was never defined is an error. */
    method Finish() returns (image: Option<seq<u32>>)
      requires Valid()
      modifies `words
      ensures image.Some? <==> Linked(items, labels)
      ensures image.Some? ==> image.value == Image(base, items, labels)
    {
      AllDefined(base, items, labels);
      FixupsShape(base, items);
      hide Image, Resolve, Slots, Fixups, Linked, Labels, Size, Unique, Fill, AddressOf, Patched, Patchable;
      ghost var slots := words;
      NothingPatched(slots, labels);
      assert fixups[..0] == [];
      for k := 0 to |fixups|
        invariant forall i :: 0 <= i < k ==> Known(fixups[i], labels)
        invariant Patchable(slots, fixups[..k], labels)
        invariant words == Patched(slots, fixups[..k], labels)
      {
        var f := fixups[k];
        assert f in fixups && Fits(f, Size(items));
        if f.item.name !in labels {
          assert !Known(fixups[k], labels);
          return None;
        }
        PatchedSnoc(slots, fixups[..k], f, labels);
        assert fixups[..k + 1] == fixups[..k] + [f];
        words := words[f.slot := Filled(Resolve(f.item, f.addr, labels[f.item.name]))];
      }
      assert fixups[..|fixups|] == fixups;
      PatchingFinishes(base, items, labels);
      FillInverse(Image(base, items, labels));
      return Some(WordsOf(words));
    }
  }

  function WordOf(s: Slot): u32
    requires s.Filled?
  {
    s.word
  }

  function WordsOf(slots: seq<Slot>): (ws: seq<u32>)
    requires forall i :: 0 <= i < |slots| ==> slots[i].Filled?
    ensures |ws| == |slots|
  {
    seq(|slots|, i requires 0 <= i < |slots| => WordOf(slots[i]))
  }

  lemma FillInverse(ws: seq<u32>)
    ensures forall i :: 0 <= i < |ws| ==> Fill(ws)[i].Filled?
    ensures WordsOf(Fill(ws)) == ws
  {
  }

  predicate Known(f: Fixup, labels: map<string, int>) {
    Waits(f.item) && f.item.name in labels
  }

  /** Finishing needs exactly the labels the program uses. */
  lemma {:induction false} AllDefined(base: int, items: seq<Item>, labels: map<string, int>)
    ensures (forall k :: 0 <= k < |Fixups(base, items)| ==> Known(Fixups(base, items)[k], labels)) <==> Linked(items, labels)
  {
    if items != [] {
      var z, item := items[..|items| - 1], items[|items| - 1];
      var f, g := Fixups(base, z), Fixups(base, items);
      AllDefined(base, z, labels);
      assert forall k :: 0 <= k < |f| ==> g[k] == f[k];
      if Waits(item) {
        assert g[|f|].item == item;
      }
    }
  }

  predicate Fits(f: Fixup, size: nat) {
    f.slot < size && Waits(f.item) && Legal(f.item)
  }

  lemma {:induction false} FixupsShape(base: int, items: seq<Item>)
    requires AllLegal(items)
    ensures forall f :: f in Fixups(base, items) ==> Fits(f, Size(items))
  {
    if items != [] {
      var z, item := items[..|items| - 1], items[|items| - 1];
      FixupsShape(base, z);
      assert z + [item] == items;
      SizeSnoc(z, item);
    }
  }
}
