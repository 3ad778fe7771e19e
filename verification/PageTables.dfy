/** Page tables in allocated physical pages: walking, growing and freeing them. */
module PageTables {
  import opened Arith
  import opened PageAllocator
  import opened PhysicalMemory
  import opened Sv39
  import opened Wrappers

  /** A page-table entry in memory, named by table page and index. */
  datatype Slot = Slot(page: nat, index: nat)

  /** Every table page is a one-page block of its own. */
  ghost predicate TablesOwned(blk: Blocks, tables: Tables) {
    forall q :: q in tables ==> OneBlock(blk, tables[q])
  }

  ghost predicate OneBlock(blk: Blocks, p: nat) {
    p in blk && blk[p] == p && (forall r :: r in blk && blk[r] == p ==> r == p)
  }

  /** Every mapped page is allocated and is no table page. */
  ghost predicate LeavesOwned(ram: Ram, blk: Blocks, tables: Tables) {
    forall v: nat :: v < VPNS && PteOf(ram, tables, v) != 0 ==>
      LeafPage(blk, tables, PtePpn(PteOf(ram, tables, v)))
  }

  ghost predicate LeafPage(blk: Blocks, tables: Tables, p: nat) {
    p in blk && p !in tables.Values
  }

  /** One step or many in which a tree only gained table pages that were free:
      no page already in use changed hands, and only its own tables were written. */
  ghost predicate Grown(ram: Ram, blk: Blocks, tables: Tables, ram': Ram, blk': Blocks, tables': Tables) {
    && ram'.Keys == ram.Keys
    && (forall p :: p in blk ==> p in blk' && blk'[p] == blk[p])
    && (forall p :: p in blk' && p !in blk ==> p in tables'.Values)
    && (forall q :: q in tables ==> q in tables' && tables'[q] == tables[q])
    && (forall p :: p in tables'.Values ==> p in tables.Values || p !in blk)
    && (forall p :: p in blk && p in ram && p !in tables.Values ==> ram'[p] == ram[p])
  }

  lemma GrownReflexive(ram: Ram, blk: Blocks, tables: Tables)
    ensures Grown(ram, blk, tables, ram, blk, tables)
  {}

  lemma GrownTransitive(ram0: Ram, blk0: Blocks, t0: Tables, ram1: Ram, blk1: Blocks, t1: Tables,
                        ram2: Ram, blk2: Blocks, t2: Tables)
    requires Grown(ram0, blk0, t0, ram1, blk1, t1) && Grown(ram1, blk1, t1, ram2, blk2, t2)
    ensures Grown(ram0, blk0, t0, ram2, blk2, t2)
  {
    forall p | p in t1.Values ensures p in t2.Values {
      var q :| q in t1 && t1[q] == p;
      assert t2[q] == p;
    }
  }

  lemma GrownKeepsLeaves(ram: Ram, blk: Blocks, tables: Tables, ram': Ram, blk': Blocks, tables': Tables)
    requires Grown(ram, blk, tables, ram', blk', tables')
    requires forall v: nat :: v < VPNS ==> PteOf(ram', tables', v) == PteOf(ram, tables, v)
    requires LeavesOwned(ram, blk, tables)
    ensures LeavesOwned(ram', blk', tables')
  {
    forall v: nat | v < VPNS && PteOf(ram', tables', v) != 0
      ensures LeafPage(blk', tables', PtePpn(PteOf(ram', tables', v)))
    {
      assert LeafPage(blk, tables, PtePpn(PteOf(ram, tables, v)));
    }
  }

  lemma {:induction false} LinkGrown(ram: Ram, blk: Blocks, spare: set<nat>, root: nat, tables: Tables, q: Pos, i: nat, p: nat)
    requires Tree(ram, root, tables) && TablesOwned(blk, tables)
    requires Consistent(ram.Keys, blk, spare)
    requires q in tables && q.level > 0 && i < SLOTS && Child(q, i) !in tables
    requires p in ram && p < PPNS && p !in blk
    ensures p !in tables.Values
    ensures var blk', tables' := blk[p := p], tables[Child(q, i) := p];
            && Grown(ram, blk, tables, Linked(ram, tables, q, i, p), blk', tables')
            && TablesOwned(blk', tables')
  {
    var blk', tables' := blk[p := p], tables[Child(q, i) := p];
    assert p !in tables.Values;
    assert tables'.Values == tables.Values + {p} by {
      assert tables'[Child(q, i)] == p;
      forall r | r in tables ensures tables[r] in tables'.Values { assert tables'[r] == tables[r]; }
    }
    assert tables[q] in tables.Values;
    forall r | r in tables' ensures OneBlock(blk', tables'[r]) {
      if r in tables { assert OneBlock(blk, tables[r]); }
    }
  }

  lemma DirEntry(ram: Ram, root: nat, tables: Tables, q: Pos, i: nat)
    requires Tree(ram, root, tables) && q in tables && q.level > 0 && i < SLOTS
    ensures var e := Entry(ram, tables[q], i);
            && (PteValid(e) <==> Child(q, i) in tables)
            && (PteValid(e) ==> PtePpn(e) == tables[Child(q, i)])
  {
    assert DirSlot(ram, tables, q, i);
    if Child(q, i) in tables { DirPteFacts(tables[Child(q, i)]); }
  }

  lemma EmptyTree(ram: Ram, root: nat)
    requires root in ram && root < PPNS && ram[root] == ZeroPage()
    ensures Tree(ram, root, map[ROOT := root])
  {
    var tables: Tables := map[ROOT := root];
    forall i | 0 <= i < SLOTS ensures DirSlot(ram, tables, ROOT, i) {
      WordOfZeroPage(i);
    }
    assert Placed(ram, tables);
  }

  // ------------------------------------------------------------ teardown

  /** r lies in the subtree below q (or is q). */
  predicate Under(q: Pos, r: Pos) {
    if r.level == q.level then r == q
    else if r.level + 1 == q.level then r.prefix / 512 == q.prefix
    else r.level + 2 == q.level && r.prefix / 512 / 512 == q.prefix
  }

  /** Which slot of q leads to r. */
  function Branch(q: Pos, r: Pos): nat {
    if r.level + 1 == q.level then r.prefix % 512 else r.prefix / 512 % 512
  }

  function SubPages(tables: Tables, q: Pos): set<nat> {
    set r | r in tables && Under(q, r) :: tables[r]
  }

  /** Pages below the first i slots of q. */
  function BelowSlots(tables: Tables, q: Pos, i: nat): set<nat> {
    set r | r in tables && Under(q, r) && r != q && Branch(q, r) < i :: tables[r]
  }

  ghost predicate Shape(tables: Tables) {
    && NoSharing(tables)
    && (forall q :: q in tables ==> InRange(q))
    && (forall q :: q in tables && q.level < 2 ==> Parent(q) in tables)
  }

  ghost predicate TableAt(ram: Ram, blk: Blocks, tables: Tables, r: Pos)
    requires r in tables
  {
    && tables[r] in ram
    && OneBlock(blk, tables[r])
    && (r.level > 0 ==> forall i :: 0 <= i < SLOTS ==> DirSlot(ram, tables, r, i))
    && (r.level == 0 ==> forall i :: 0 <= i < SLOTS ==> LeafEntry(Entry(ram, tables[r], i)))
  }

  ghost predicate SubTree(ram: Ram, blk: Blocks, tables: Tables, q: Pos) {
    forall r :: r in tables && Under(q, r) ==> TableAt(ram, blk, tables, r)
  }

  lemma UnderChild(q: Pos, j: nat, r: Pos)
    requires InRange(q) && InRange(r) && q.level > 0 && j < SLOTS
    ensures Under(Child(q, j), r) <==> Under(q, r) && r != q && Branch(q, r) == j
  {
  }

  /** One more slot uncovers exactly the subtree below it. */
  lemma NextSlotPages(tables: Tables, q: Pos, i: nat)
    requires Shape(tables) && q in tables && q.level > 0 && i < SLOTS
    ensures BelowSlots(tables, q, i + 1) == BelowSlots(tables, q, i) + SubPages(tables, Child(q, i))
    ensures Child(q, i) !in tables ==> SubPages(tables, Child(q, i)) == {}
  {
    var c := Child(q, i);
    forall r | r in tables
      ensures Under(c, r) <==> Under(q, r) && r != q && Branch(q, r) == i
      ensures Under(c, r) ==> c in tables
    {
      UnderChild(q, i, r);
      if Under(c, r) && r != c {
        assert Parent(r) in tables && Parent(r) == c;
      }
    }
  }

  lemma AllSlotPages(tables: Tables, q: Pos)
    requires Shape(tables) && q in tables
    ensures SubPages(tables, q) == BelowSlots(tables, q, SLOTS) + {tables[q]}
    ensures tables[q] !in BelowSlots(tables, q, SLOTS)
    ensures BelowSlots(tables, q, 0) == {}
  {
    assert Under(q, q);
  }

  /** A subtree survives changes to pages outside it. */
  lemma SubTreeFrame(ram: Ram, blk: Blocks, ram': Ram, blk': Blocks, tables: Tables, q: Pos, gone: set<nat>)
    requires SubTree(ram, blk, tables, q)
    requires blk' == blk - gone && gone !! SubPages(tables, q)
    requires forall p :: p in SubPages(tables, q) && p in ram ==> p in ram' && ram'[p] == ram[p]
    ensures SubTree(ram', blk', tables, q)
  {
    forall r | r in tables && Under(q, r) ensures TableAt(ram', blk', tables, r) {
      assert TableAt(ram, blk, tables, r);
      assert tables[r] in SubPages(tables, q);
      forall i | 0 <= i < SLOTS ensures Entry(ram', tables[r], i) == Entry(ram, tables[r], i) {}
      if r.level > 0 {
        forall i | 0 <= i < SLOTS ensures DirSlot(ram', tables, r, i) {
          assert DirSlot(ram, tables, r, i);
        }
      }
    }
  }

  lemma DisjointBranches(tables: Tables, q: Pos, i: nat)
    requires Shape(tables) && q in tables && q.level > 0 && i < SLOTS
    ensures BelowSlots(tables, q, i) !! SubPages(tables, Child(q, i))
    ensures tables[q] !in SubPages(tables, Child(q, i))
    ensures SubPages(tables, Child(q, i)) <= SubPages(tables, q)
  {
    forall r | r in tables
      ensures Under(Child(q, i), r) <==> Under(q, r) && r != q && Branch(q, r) == i
    {
      UnderChild(q, i, r);
    }
  }

  lemma OwnPage(ram: Ram, blk: Blocks, spare: set<nat>, tables: Tables, q: Pos)
    requires Consistent(ram.Keys, blk, spare) && q in tables && SubTree(ram, blk, tables, q)
    ensures tables[q] in ram && tables[q] in blk
    ensures forall gone, sp :: tables[q] !in gone && Consistent(ram.Keys, blk - gone, sp) ==> tables[q] !in sp
    ensures forall gone :: tables[q] !in gone ==> BlockOf(blk - gone, tables[q]) == {tables[q]}
  {
    assert Under(q, q);
    assert TableAt(ram, blk, tables, q);
  }

  /** freewalk recurses exactly where the tree has a child. */
  lemma SlotFacts(ram: Ram, blk: Blocks, tables: Tables, q: Pos, i: nat)
    requires q in tables && SubTree(ram, blk, tables, q) && Shape(tables) && i < SLOTS
    ensures var e := Entry(ram, tables[q], i);
            && (PteValid(e) && PteIsDir(e) <==> q.level > 0 && Child(q, i) in tables)
            && (PteValid(e) && PteIsDir(e) ==> PtePpn(e) == tables[Child(q, i)])
    ensures q.level == 0 || Child(q, i) !in tables ==> BelowSlots(tables, q, i + 1) == BelowSlots(tables, q, i)
    ensures q.level > 0 && Child(q, i) in tables ==>
              BelowSlots(tables, q, i + 1) == BelowSlots(tables, q, i) + SubPages(tables, Child(q, i))
  {
    hide BelowSlots, SubPages, SubTree, Shape, Entry, PteValid, PteIsDir, PtePpn;
    SlotEntry(ram, blk, tables, q, i);
    if q.level > 0 { NextSlotPages(tables, q, i); } else { NothingBelow(tables, q, i); }
  }

  lemma NothingBelow(tables: Tables, q: Pos, i: nat)
    requires Shape(tables) && q in tables && q.level == 0
    ensures BelowSlots(tables, q, i + 1) == BelowSlots(tables, q, i)
  {}

  lemma SlotEntry(ram: Ram, blk: Blocks, tables: Tables, q: Pos, i: nat)
    requires q in tables && SubTree(ram, blk, tables, q) && Shape(tables) && i < SLOTS
    ensures var e := Entry(ram, tables[q], i);
            && (PteValid(e) && PteIsDir(e) <==> q.level > 0 && Child(q, i) in tables)
            && (PteValid(e) && PteIsDir(e) ==> PtePpn(e) == tables[Child(q, i)])
  {
    hide Entry, OneBlock, Shape, PtePpn;
    assert Under(q, q);
    assert TableAt(ram, blk, tables, q);
    if q.level > 0 {
      assert DirSlot(ram, tables, q, i);
      if Child(q, i) in tables { DirPteFacts(tables[Child(q, i)]); }
    }
  }

  lemma DirIsValid(e: nat)
    ensures PteIsDir(e) ==> PteValid(e)
  {}

  lemma ClearSlot(ram1: Ram, ram2: Ram, page: nat, i: nat)
    requires page in ram1 && page in ram2 && ram2[page] == ram1[page] && i < SLOTS
    ensures forall j :: 0 <= j < SLOTS && j != i ==> Entry(SetEntry(ram2, page, i, 0), page, j) == Entry(ram1, page, j)
    ensures !PteIsDir(Entry(SetEntry(ram2, page, i, 0), page, i))
  {
    EntryOfSetEntry(ram2, page, i, 0, page, i);
    forall j | 0 <= j < SLOTS && j != i
      ensures Entry(SetEntry(ram2, page, i, 0), page, j) == Entry(ram1, page, j)
    {
      EntryOfSetEntry(ram2, page, i, 0, page, j);
    }
  }

  /** The child's subtree, as freewalk finds it when the slots before i are done. */
  lemma BranchIntact(ram: Ram, blk: Blocks, ram': Ram, blk': Blocks, tables: Tables, q: Pos, i: nat)
    requires Shape(tables) && q in tables && q.level > 0 && i < SLOTS
    requires SubTree(ram, blk, tables, q)
    requires blk' == blk - BelowSlots(tables, q, i) && ram'.Keys == ram.Keys
    requires forall p :: p in ram && p !in BelowSlots(tables, q, i) && p != tables[q] ==> ram'[p] == ram[p]
    ensures SubTree(ram', blk', tables, Child(q, i))
  {
    var c := Child(q, i);
    DisjointBranches(tables, q, i);
    forall r | r in tables && Under(c, r) ensures TableAt(ram, blk, tables, r) {
      UnderChild(q, i, r);
    }
    SubTreeFrame(ram, blk, ram', blk', tables, c, BelowSlots(tables, q, i));
  }

  lemma AllHardware(ram: Ram, root: nat, tables: Tables)
    requires Tree(ram, root, tables)
    ensures forall v: nat :: v < VPNS ==> HwPte(ram, root, v) == PteOf(ram, tables, v)
    ensures forall v: nat :: v < VPNS ==> (DirsPresent(ram, root, v) <==> Pos(0, v / 512) in tables)
  {
    forall v: nat | v < VPNS
      ensures HwPte(ram, root, v) == PteOf(ram, tables, v)
      ensures DirsPresent(ram, root, v) <==> Pos(0, v / 512) in tables
    {
      HardwareSeesTree(ram, root, tables, v);
    }
  }

  lemma RootPlaced(ram: Ram, root: nat, tables: Tables)
    requires Tree(ram, root, tables)
    ensures ROOT in tables && tables[ROOT] == root
    ensures forall q :: q in tables && q.level < 2 ==> Parent(q) in tables
  {}

  lemma LeafSlot(ram: Ram, root: nat, tables: Tables, v: nat)
    requires Tree(ram, root, tables) && v < VPNS
    ensures LeafEntry(PteOf(ram, tables, v))
    ensures Pos(0, v / 512) in tables ==> PteOf(ram, tables, v) == Entry(ram, tables[Pos(0, v / 512)], v % 512)
  {}

  lemma WholeTree(ram: Ram, blk: Blocks, root: nat, tables: Tables)
    requires Tree(ram, root, tables) && TablesOwned(blk, tables)
    ensures Shape(tables) && SubTree(ram, blk, tables, ROOT)
    ensures SubPages(tables, ROOT) == tables.Values
  {
    forall r | r in tables ensures Under(ROOT, r) && TableAt(ram, blk, tables, r) {
      if r.level > 0 {
        forall i | 0 <= i < SLOTS ensures DirSlot(ram, tables, r, i) {}
      }
    }
  }

  /** The virtual page that the three index fields of an address name. */
  function Vpn(va: nat): (v: nat)
    ensures v < VPNS && (va / PAGE_SIZE < VPNS ==> v == va / PAGE_SIZE)
  {
    va / PAGE_SIZE % VPNS
  }

  lemma VpnMask(va: nat)
    ensures var x, v := va / PAGE_SIZE, Vpn(va);
            x / 0x4_0000 % 512 == v / 0x4_0000 % 512 && x / 512 % 512 == v / 512 % 512 && x % 512 == v % 512
  {
    var x, v := va / PAGE_SIZE, Vpn(va);
    assert x == VPNS * (x / VPNS) + v;
    Field(x, v, x / VPNS, 0x4_0000, 1);
    Field(x, v, x / VPNS, 512, 512);
    Field(x, v, x / VPNS, 1, 0x4_0000);
  }

  /** A 9-bit field does not see what lies 27 bits up. */
  lemma Field(x: nat, v: nat, hi: nat, unit: nat, rest: nat)
    requires unit > 0 && unit * (512 * rest) == VPNS && x == VPNS * hi + v
    ensures x / unit % 512 == v / unit % 512
  {
    var y := v / unit;
    var up := 512 * rest * hi;
    assert x == unit * (up + y) + v % unit by {
      assert VPNS * hi == unit * (512 * rest) * hi;
      assert unit * (512 * rest) * hi == unit * up;
      assert unit * (up + y) == unit * up + unit * y;
    }
    DivModUnique(x, unit, up + y, v % unit);
    assert up + y == 512 * (rest * hi + y / 512) + y % 512 by { assert up == 512 * (rest * hi); }
    DivModUnique(up + y, 512, rest * hi + y / 512, y % 512);
  }

  class PageTable {
    const mem: Memory
    var base: nat
    ghost var tables: Tables

    /** set_base on a zero-filled page that nothing else uses. */
    constructor (mem: Memory, root: nat)
      requires mem.Valid() && OneBlock(mem.blk, root) && mem.ram[root] == ZeroPage()
      ensures this.mem == mem && base == root && tables == map[ROOT := root]
      ensures Valid() && Owned()
      ensures forall v: nat :: v < VPNS ==> HwPte(mem.ram, base, v) == 0
    {
      this.mem := mem;
      base := root;
      tables := map[ROOT := root];
      new;
      EmptyTree(mem.ram, root);
      AllHardware(mem.ram, root, tables);
    }

    ghost predicate Valid()
      reads this, mem
    {
      mem.Valid() && Tree(mem.ram, base, tables) && TablesOwned(mem.blk, tables)
    }

    ghost predicate Owned()
      reads this, mem
    {
      LeavesOwned(mem.ram, mem.blk, tables)
    }

    /** The allocating half of _walk_to_next_level: a cleared page becomes the next
        table and slot i of the table at q points to it. */
    method AddTable(ghost q: Pos, page: nat, i: nat) returns (r: Wrap<nat>)
      requires Valid() && q in tables && q.level > 0 && page == tables[q] && i < SLOTS
      requires Child(q, i) !in tables
      modifies this`tables, mem
      ensures Valid()
      ensures Grown(old(mem.ram), old(mem.blk), old(tables), mem.ram, mem.blk, tables)
      ensures forall v: nat :: v < VPNS ==> PteOf(mem.ram, tables, v) == old(PteOf(mem.ram, tables, v))
      ensures r.Just? ==> Child(q, i) in tables && tables[Child(q, i)] == r.value
      ensures r.Nothing? ==> mem.ram == old(mem.ram) && mem.blk == old(mem.blk) && mem.spare == old(mem.spare)
                             && tables == old(tables)
      ensures r.Nothing? <==> old(mem.Full())
      ensures mem.refused == old(mem.refused) + if r.Nothing? then 1 else 0
    {
      hide Tree, Grown, TablesOwned, PteOf, SetWord, PteSetData, MakePte, PteValid, PteIsDir, PteUser, PteToPa, PtePpn, PteFlags, Consistent;
      r := mem.AllocPage();
      if r.Just? {
        var p := r.value;
        PteRoundTrip(p * PAGE_SIZE, PTE_V);
        LinkGrown(old(mem.ram), old(mem.blk), old(mem.spare), base, tables, q, i, p);
        LinkTable(old(mem.ram), base, tables, q, i, p);
        var cleared := mem.ram[p := ZeroPage()];
        assert cleared == old(mem.ram)[p := ZeroPage()];
        var ram' := SetEntry(cleared, page, i, PteSetData(p * PAGE_SIZE + PTE_V));
        ghost var tables' := tables[Child(q, i) := p];
        assert Tree(ram', base, tables') && TablesOwned(mem.blk, tables') && ram'.Keys == old(mem.ram.Keys);
        mem.ram := ram';
        tables := tables';
      } else {
        GrownReflexive(mem.ram, mem.blk, tables);
      }
    }

    /** _walk_to_next_level: follow slot i of the table at q, allocating the next
        table if it is absent and alloc is set. */
    method NextLevel(ghost q: Pos, page: nat, i: nat, alloc: bool) returns (r: Wrap<nat>)
      requires Valid() && q in tables && q.level > 0 && page == tables[q] && i < SLOTS
      modifies this`tables, mem
      ensures Valid()
      ensures Grown(old(mem.ram), old(mem.blk), old(tables), mem.ram, mem.blk, tables)
      ensures forall v: nat :: v < VPNS ==> PteOf(mem.ram, tables, v) == old(PteOf(mem.ram, tables, v))
      ensures r.Just? ==> Child(q, i) in tables && tables[Child(q, i)] == r.value
      ensures r.Nothing? ==> Child(q, i) !in tables
      ensures !alloc || Child(q, i) in old(tables) || r.Nothing? ==>
                mem.ram == old(mem.ram) && mem.blk == old(mem.blk) && mem.spare == old(mem.spare) && tables == old(tables)
      ensures r.Nothing? <==> Child(q, i) !in old(tables) && (!alloc || old(mem.Full()))
      ensures mem.refused == old(mem.refused) + if alloc && r.Nothing? then 1 else 0
    {
      DirEntry(mem.ram, base, tables, q, i);
      var e := Entry(mem.ram, page, i);
      if PteValid(e) {
        r := Just(PtePpn(e));
      } else if !alloc {
        r := Nothing;
      } else {
        r := AddTable(q, page, i);
      }
    }

    /** walk: the slot of va's leaf entry; bits of va above the three indices are ignored. Nothing stands for
        a kernel panic. */
    method Walk(va: nat, alloc: bool) returns (r: Wrap<Slot>)
      requires Valid()
      modifies this`tables, mem
      ensures Valid()
      ensures Grown(old(mem.ram), old(mem.blk), old(tables), mem.ram, mem.blk, tables)
      ensures SameOutside(old(mem.ram), mem.ram, base, 0, 0)
      ensures old(Owned()) ==> Owned()
      ensures r.Just? ==> DirsPresent(mem.ram, base, Vpn(va))
                          && Pos(0, Vpn(va) / 512) in tables
                          && r.value == Slot(tables[Pos(0, Vpn(va) / 512)], Vpn(va) % 512)
                          && Entry(mem.ram, r.value.page, r.value.index) == HwPte(mem.ram, base, Vpn(va))
      ensures LeafEntry(HwPte(mem.ram, base, Vpn(va)))
      ensures !alloc ==> mem.ram == old(mem.ram) && mem.blk == old(mem.blk) && mem.spare == old(mem.spare) && tables == old(tables)
      ensures !alloc ==> (r.Just? <==> DirsPresent(mem.ram, base, Vpn(va)))
      ensures old(DirsPresent(mem.ram, base, Vpn(va))) ==> r.Just?
      ensures alloc && r.Nothing? ==> mem.Full()
      ensures mem.refused == old(mem.refused) + if alloc && r.Nothing? then 1 else 0
    {
      hide Tree, TablesOwned, LeavesOwned, Grown, HwPte, PteOf, DirsPresent, LeafEntry, Vpn;
      ghost var v := Vpn(va);
      VpnMask(va);
      VpnIndices(v);
      RootPlaced(mem.ram, base, tables);
      AllHardware(mem.ram, base, tables);
      GrownReflexive(mem.ram, mem.blk, tables);
      ghost var q1 := Child(ROOT, v / 0x4_0000);
      assert Parent(Pos(0, v / 512)) == q1;
      var pud := va / PAGE_SIZE / 0x4_0000 % 512;
      var mid := NextLevel(ROOT, base, pud, alloc);
      if mid.Just? {
        ghost var ram1, blk1, t1 := mem.ram, mem.blk, tables;
        var pmd := va / PAGE_SIZE / 512 % 512;
        assert Child(q1, pmd) == Pos(0, v / 512);
        var low := NextLevel(q1, mid.value, pmd, alloc);
        GrownTransitive(old(mem.ram), old(mem.blk), old(tables), ram1, blk1, t1, mem.ram, mem.blk, tables);
        if low.Just? {
          r := Just(Slot(low.value, va / PAGE_SIZE % 512));
        } else {
          r := Nothing;
        }
      } else {
        r := Nothing;
      }
      AllHardware(mem.ram, base, tables);
      LeafSlot(mem.ram, base, tables, v);
      if old(Owned()) {
        GrownKeepsLeaves(old(mem.ram), old(mem.blk), old(tables), mem.ram, mem.blk, tables);
      }
    }

    /** set_data or clear_data through the slot that a walk to page v returned. */
    method SetLeaf(ghost v: nat, slot: Slot, e: nat)
      requires Valid() && v < VPNS && Pos(0, v / 512) in tables
      requires slot == Slot(tables[Pos(0, v / 512)], v % 512)
      requires LeafEntry(e) && e < 0x1_0000_0000_0000_0000
      modifies mem`ram
      ensures Valid()
      ensures Grown(old(mem.ram), mem.blk, tables, mem.ram, mem.blk, tables)
      ensures SameOutside(old(mem.ram), mem.ram, base, v, v + 1) && HwPte(mem.ram, base, v) == e
      ensures old(Owned()) && (e == 0 || LeafPage(mem.blk, tables, PtePpn(e))) ==> Owned()
      ensures mem.ram.Keys == old(mem.ram.Keys)
      ensures forall p :: p in mem.ram && p !in tables.Values ==> mem.ram[p] == old(mem.ram[p])
      ensures forall w: nat :: w < VPNS ==> (DirsPresent(mem.ram, base, w) <==> old(DirsPresent(mem.ram, base, w)))
    {
      ghost var ram0 := mem.ram;
      AllHardware(ram0, base, tables);
      WriteLeaf(ram0, base, tables, v, e);
      mem.ram := SetEntry(mem.ram, slot.page, slot.index, e);
      assert slot.page in tables.Values;
      AllHardware(mem.ram, base, tables);
    }

    /** freewalk on the table at q: frees the subtree's table pages bottom-up, each
        once, and leaves mapped pages alone. */
    method FreeTable(ghost q: Pos, page: nat)
      requires mem.Valid() && Shape(tables) && q in tables && page == tables[q]
      requires SubTree(mem.ram, mem.blk, tables, q)
      modifies mem
      ensures mem.Valid() && mem.ram.Keys == old(mem.ram.Keys)
      ensures mem.blk == old(mem.blk) - SubPages(tables, q)
      ensures forall p :: p in mem.ram && p !in SubPages(tables, q) ==> mem.ram[p] == old(mem.ram[p])
      ensures mem.refused == old(mem.refused)
      ensures forall j :: 0 <= j < SLOTS ==> !PteIsDir(Entry(mem.ram, page, j))
      decreases q.level
    {
      hide DirSlot, LeafEntry, OneBlock, Shape, SubTree, SetWord, Word, PageNumbers, Consistent, BlockOf, BelowSlots, SubPages, PteIsDir, PteValid, PtePpn;
      AllSlotPages(tables, q);
      OwnPage(mem.ram, mem.blk, mem.spare, tables, q);
      var i := 0;
      while i < SLOTS
        invariant 0 <= i <= SLOTS
        invariant mem.Valid() && mem.ram.Keys == old(mem.ram.Keys) && mem.refused == old(mem.refused)
        invariant mem.blk == old(mem.blk) - BelowSlots(tables, q, i)
        invariant forall p :: p in mem.ram && p !in BelowSlots(tables, q, i) && p != page ==> mem.ram[p] == old(mem.ram[p])
        invariant forall j :: i <= j < SLOTS ==> Entry(mem.ram, page, j) == old(Entry(mem.ram, page, j))
        invariant forall j :: 0 <= j < i ==> !PteIsDir(Entry(mem.ram, page, j))
      {
        var e := Entry(mem.ram, page, i);
        DirIsValid(e);
        SlotFacts(old(mem.ram), old(mem.blk), tables, q, i);
        if PteValid(e) && PteIsDir(e) {
          ghost var c, ram1 := Child(q, i), mem.ram;
          BranchIntact(old(mem.ram), old(mem.blk), mem.ram, mem.blk, tables, q, i);
          DisjointBranches(tables, q, i);
          FreeTable(c, PtePpn(e));
          MinusMinus(old(mem.blk), BelowSlots(tables, q, i), SubPages(tables, c));
          ClearSlot(ram1, mem.ram, page, i);
          assert SetEntry(mem.ram, page, i, 0).Keys == mem.ram.Keys;
          mem.ram := SetEntry(mem.ram, page, i, 0);
        }
        i := i + 1;
      }
      mem.FreePages(page);
      MinusMinus(old(mem.blk), BelowSlots(tables, q, SLOTS), {page});
    }

    /** freewalk on the whole tree: every table page is freed, nothing else is. */
    method FreeWalk()
      requires Valid()
      modifies this`tables, mem
      ensures mem.Valid() && mem.ram.Keys == old(mem.ram.Keys)
      ensures mem.blk == old(mem.blk) - old(tables.Values)
      ensures forall p :: p in mem.ram && p !in old(tables.Values) ==> mem.ram[p] == old(mem.ram[p])
      ensures tables == map[] && mem.refused == old(mem.refused)
    {
      WholeTree(mem.ram, mem.blk, base, tables);
      FreeTable(ROOT, base);
      tables := map[];
    }
  }
}
