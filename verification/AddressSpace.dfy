/** Growing and shrinking an address space: vm_alloc and vm_dealloc. */
module AddressSpace {
  import opened Arith
  import opened PageAllocator
  import opened PhysicalMemory
  import opened PageTables
  import opened Sv39
  import opened Wrappers
  import opened VirtualMemory

  /** Number of pages that x bytes take. */
  function UpPages(x: nat): (n: nat)
    ensures x <= n * PAGE_SIZE < x + PAGE_SIZE
  {
    (x + PAGE_SIZE - 1) / PAGE_SIZE
  }

  /** page_round_up. */
  function RoundUp(x: nat): nat {
    UpPages(x) * PAGE_SIZE
  }

  /** Pages between two sizes. */
  function PagesBetween(lo: nat, hi: nat): (n: nat)
    requires lo <= hi
    ensures UpPages(lo) + n == UpPages(hi)
    ensures RoundUp(hi) - RoundUp(lo) == n * PAGE_SIZE
  {
    UpPages(hi) - UpPages(lo)
  }

  /** Nothing that was allocated before was freed, reassigned or, outside the own
      tables, overwritten. */
  ghost predicate Kept(ram: Ram, blk: Blocks, tables: Tables, ram': Ram, blk': Blocks) {
    && ram'.Keys == ram.Keys
    && (forall p :: p in blk ==> p in blk' && blk'[p] == blk[p])
    && (forall p :: p in blk && p in ram && p !in tables.Values ==> ram'[p] == ram[p])
  }

  /** All newly allocated pages are table pages. */
  ghost predicate OnlyTablesNew(blk: Blocks, blk': Blocks, tables': Tables) {
    forall p :: p in blk' && p !in blk ==> p in tables'.Values
  }

  /** Allocating pages touches neither trees nor translations. */
  lemma AllocFrame(ram: Ram, blk: Blocks, root: nat, tables: Tables, ram': Ram, blk': Blocks, h: nat, n: nat)
    requires Tree(ram, root, tables) && TablesOwned(blk, tables)
    requires n > 0 && Allocated(ram.Keys, blk, h, n, blk') && ram' == ram + map p | p in Run(h, n) :: ZeroPage()
    ensures Tree(ram', root, tables) && TablesOwned(blk', tables)
    ensures SameOutside(ram, ram', root, 0, 0)
    ensures LeavesOwned(ram, blk, tables) ==> LeavesOwned(ram', blk', tables)
    ensures forall p :: h <= p < h + n ==> LeafPage(blk', tables, p) && blk'[p] == h && p in ram && ram'[p] == ZeroPage()
    ensures Kept(ram, blk, tables, ram', blk')
  {
    hide LeavesOwned, Allocated, Run, PteOf, LeafPage, TablesOwned, DirSlot, LeafEntry, NoSharing;
    AllocBlocks(ram, blk, tables, ram', blk', h, n);
    TreeFrame(ram, ram', root, tables);
    AllHardware(ram, root, tables);
    AllHardware(ram', root, tables);
    if LeavesOwned(ram, blk, tables) { AllocLeaves(ram, blk, tables, ram', blk', h, n); }
  }

  lemma AllocBlocks(ram: Ram, blk: Blocks, tables: Tables, ram': Ram, blk': Blocks, h: nat, n: nat)
    requires TablesOwned(blk, tables)
    requires n > 0 && Allocated(ram.Keys, blk, h, n, blk') && ram' == ram + map p | p in Run(h, n) :: ZeroPage()
    ensures TablesOwned(blk', tables) && forall q :: q in tables && tables[q] in ram ==> tables[q] in ram' && ram'[tables[q]] == ram[tables[q]]
    ensures forall p :: h <= p < h + n ==> LeafPage(blk', tables, p) && blk'[p] == h && p in ram && ram'[p] == ZeroPage()
    ensures Kept(ram, blk, tables, ram', blk')
  {
    assert h in Run(h, n);
    forall q | q in tables ensures OneBlock(blk', tables[q]) && tables[q] !in Run(h, n) {
      assert OneBlock(blk, tables[q]);
    }
  }

  lemma AllocLeaves(ram: Ram, blk: Blocks, tables: Tables, ram': Ram, blk': Blocks, h: nat, n: nat)
    requires Allocated(ram.Keys, blk, h, n, blk') && LeavesOwned(ram, blk, tables)
    requires forall v: nat :: v < VPNS ==> PteOf(ram', tables, v) == PteOf(ram, tables, v)
    ensures LeavesOwned(ram', blk', tables)
  {
    hide PteOf, PtePpn, Run;
    forall v: nat | v < VPNS && PteOf(ram', tables, v) != 0
      ensures LeafPage(blk', tables, PtePpn(PteOf(ram', tables, v)))
    {
      assert LeafPage(blk, tables, PtePpn(PteOf(ram, tables, v)));
    }
  }

  /** Table pages were only added, on pages that were free. */
  ghost predicate TablesAdded(blk: Blocks, tables: Tables, tables': Tables) {
    && (forall q :: q in tables ==> q in tables' && tables'[q] == tables[q])
    && (forall p :: p in tables'.Values ==> p in tables.Values || p !in blk)
  }

  lemma TablesStay(t: Tables, t': Tables)
    requires forall q :: q in t ==> q in t' && t'[q] == t[q]
    ensures forall p :: p in t.Values ==> p in t'.Values
  {
    forall p | p in t.Values ensures p in t'.Values {
      var q :| q in t && t[q] == p;
      assert t'[q] == p;
    }
  }

  /** A block of l fresh pages from h on; whatever else is new is a table page. */
  ghost predicate FreshBlock(blk0: Blocks, ram: Ram, blk: Blocks, tables: Tables, h: nat, l: nat) {
    && (forall p :: h <= p < h + l ==> p in ram && p !in blk0 && LeafPage(blk, tables, p) && blk[p] == h)
    && (forall p :: p in blk && p !in blk0 ==> p in tables.Values || h <= p < h + l)
  }

  ghost predicate ZeroBlock(ram: Ram, h: nat, l: nat) {
    forall p :: h <= p < h + l ==> p in ram && ram[p] == ZeroPage()
  }

  lemma GrownIsKept(ram: Ram, blk: Blocks, t: Tables, ram': Ram, blk': Blocks, t': Tables)
    requires Grown(ram, blk, t, ram', blk', t')
    ensures Kept(ram, blk, t, ram', blk') && TablesAdded(blk, t, t') && OnlyTablesNew(blk, blk', t')
  {}

  lemma KeptReflexive(ram: Ram, blk: Blocks, tables: Tables, root: nat)
    ensures Kept(ram, blk, tables, ram, blk) && TablesAdded(blk, tables, tables) && OnlyTablesNew(blk, blk, tables)
    ensures forall lo, hi :: SameOutside(ram, ram, root, lo, hi)
  {}

  lemma AfterMap(ram0: Ram, blk0: Blocks, t0: Tables, ram1: Ram, blk1: Blocks, ram2: Ram, blk2: Blocks, t2: Tables,
                 h: nat, l: nat)
    requires l > 0 && Allocated(ram0.Keys, blk0, h, l, blk1) && Kept(ram0, blk0, t0, ram1, blk1)
    requires Grown(ram1, blk1, t0, ram2, blk2, t2)
    requires forall p :: h <= p < h + l ==> LeafPage(blk1, t0, p) && blk1[p] == h && p in ram0 && ram1[p] == ZeroPage()
    ensures FreshBlock(blk0, ram2, blk2, t2, h, l) && ZeroBlock(ram2, h, l) && h in blk2 && h !in t2.Values
    ensures Kept(ram0, blk0, t0, ram2, blk2) && TablesAdded(blk0, t0, t2)
  {
    hide Allocated, Run, LeafPage;
    AllocatedFacts(ram0.Keys, blk0, h, l, blk1);
    assert h in blk1;
    forall p | h <= p < h + l ensures LeafPage(blk2, t2, p) {
      GrownLeafPage(ram1, blk1, t0, ram2, blk2, t2, p);
    }
    LeafPageFacts(blk2, t2, h);
    LeafPagesFacts(blk1, t0, h, l);
  }

  lemma AllocatedFacts(pages: set<nat>, blk: Blocks, h: nat, l: nat, blk': Blocks)
    requires Allocated(pages, blk, h, l, blk')
    ensures forall p :: h <= p < h + l ==> p !in blk && p in blk'
    ensures forall p :: p in blk' && p !in blk ==> h <= p < h + l
  {}

  lemma LeafPageFacts(blk: Blocks, tables: Tables, p: nat)
    requires LeafPage(blk, tables, p)
    ensures p in blk && p !in tables.Values
  {}

  lemma LeafPagesFacts(blk: Blocks, tables: Tables, h: nat, l: nat)
    requires forall p :: h <= p < h + l ==> LeafPage(blk, tables, p)
    ensures forall p :: h <= p < h + l ==> p in blk && p !in tables.Values
  {
    forall p | h <= p < h + l ensures p in blk && p !in tables.Values {
      assert LeafPage(blk, tables, p);
    }
  }

  /** Taking back a block that was not there at the start. */
  lemma UndoBlock(ram: Ram, blk: Blocks, tables: Tables, spare: set<nat>, ram1: Ram, blk1: Blocks, spare1: set<nat>,
                  tables1: Tables, h: nat, l: nat, blk2: Blocks, spare2: set<nat>)
    requires Consistent(ram.Keys, blk, spare) && l > 0
    requires Kept(ram, blk, tables, ram1, blk1) && Freed(blk1, spare1, h, blk2, spare2)
    requires FreshBlock(blk, ram1, blk1, tables1, h, l)
    ensures Kept(ram, blk, tables, ram1, blk2) && OnlyTablesNew(blk, blk2, tables1)
    ensures forall p :: h <= p < h + l ==> p !in blk2
  {}

  lemma NotSpare(pages: set<nat>, blk: Blocks, spare: set<nat>, p: nat)
    requires Consistent(pages, blk, spare) && p in blk
    ensures p in pages && p !in spare
  {}

  /** With the translations of the start, ownership is that of the start. */
  lemma RestoredOwned(ram: Ram, blk: Blocks, root: nat, tables: Tables, ram': Ram, blk': Blocks, tables': Tables)
    requires Tree(ram, root, tables) && Tree(ram', root, tables') && LeavesOwned(ram, blk, tables)
    requires SameOutside(ram, ram', root, 0, 0) && Kept(ram, blk, tables, ram', blk') && TablesAdded(blk, tables, tables')
    ensures LeavesOwned(ram', blk', tables')
  {
    forall v: nat | v < VPNS && PteOf(ram', tables', v) != 0
      ensures LeafPage(blk', tables', PtePpn(PteOf(ram', tables', v)))
    {
      HardwareSeesTree(ram, root, tables, v);
      HardwareSeesTree(ram', root, tables', v);
      assert LeafPage(blk, tables, PtePpn(PteOf(ram, tables, v)));
    }
  }

  /** Allocate l pages, clear them and map them at virtual page v. */
  method AllocAndMap(pt: PageTable, v: nat, l: nat, flags: nat) returns (r: Outcome, mem: Wrap<nat>, ghost done: nat)
    requires pt.Valid() && pt.Owned() && PowerOfTwo(l) && v + l <= VPNS && LeafFlags(flags)
    modifies pt`tables, pt.mem
    ensures pt.Valid() && pt.Owned()
    ensures Kept(old(pt.mem.ram), old(pt.mem.blk), old(pt.tables), pt.mem.ram, pt.mem.blk)
    ensures TablesAdded(old(pt.mem.blk), old(pt.tables), pt.tables)
    ensures SameOutside(old(pt.mem.ram), pt.mem.ram, pt.base, v, v + done)
    ensures mem.Nothing? ==> r.Failed? && done == 0 && OnlyTablesNew(old(pt.mem.blk), pt.mem.blk, pt.tables)
    ensures mem.Just? ==> FreshBlock(old(pt.mem.blk), pt.mem.ram, pt.mem.blk, pt.tables, mem.value, l) && ZeroBlock(pt.mem.ram, mem.value, l)
    ensures mem.Just? ==> FilledBy(old(pt.mem.ram), pt.mem.ram, pt.base, v, v + done, mem.value, flags)
    ensures mem.Just? ==> mem.value in pt.mem.blk && mem.value !in pt.tables.Values
    ensures done <= l && (r.Done? <==> done == l)
    ensures mem.Just? && r.Failed? ==> PteValid(HwPte(old(pt.mem.ram), pt.base, v + done))
    ensures r.Panic? ==> pt.mem.Full()
    ensures pt.mem.refused == old(pt.mem.refused) + if mem.Nothing? || r.Panic? then 1 else 0
  {
    hide Tree, TablesOwned, LeavesOwned, HwPte, Consistent, PageNumbers, PteValid, PteIsDir, Grown, Allocated, Kept, BlockOf;
    hide FreshBlock, ZeroBlock, OnlyTablesNew, TablesAdded, MakePte, SameOutside, FilledBy, LeafPage, Run, RoundPow;
    mem := pt.mem.AllocPages(l);
    if mem.Nothing? {
      KeptReflexive(pt.mem.ram, pt.mem.blk, pt.tables, pt.base);
      return Failed, mem, 0;
    }
    ghost var h := mem.value;
    AllocFrame(old(pt.mem.ram), old(pt.mem.blk), pt.base, pt.tables, pt.mem.ram, pt.mem.blk, h, l);
    var va, size, pa := v * PAGE_SIZE, l * PAGE_SIZE, mem.value * PAGE_SIZE;
    assert va / PAGE_SIZE == v && pa / PAGE_SIZE == h && PageCount(va, size) == l;
    PagesFit(pt.mem.ram.Keys, old(pt.mem.blk), h, l, pt.mem.blk);
    assert LeafPages(pt.mem.blk, pt.tables, h, l);
    label mapping:
    r, done := MapPages(pt, va, size, pa, flags);
    AfterMap(old(pt.mem.ram), old(pt.mem.blk), old(pt.tables), old@mapping(pt.mem.ram), old@mapping(pt.mem.blk),
             pt.mem.ram, pt.mem.blk, pt.tables, h, l);
    FillAfter(old(pt.mem.ram), old@mapping(pt.mem.ram), pt.mem.ram, pt.base, v, v + done, h, flags);
  }

  lemma PagesFit(pages: set<nat>, blk: Blocks, h: nat, l: nat, blk': Blocks)
    requires PageNumbers(pages) && Allocated(pages, blk, h, l, blk') && l > 0
    ensures h + l <= PPNS
  {
    assert h + l - 1 in Run(h, l);
  }

  lemma FillAfter(ram0: Ram, ram1: Ram, ram2: Ram, root: nat, lo: nat, hi: nat, h: nat, flags: nat)
    requires SameOutside(ram0, ram1, root, 0, 0) && hi <= VPNS
    requires SameOutside(ram1, ram2, root, lo, hi) && FilledBy(ram1, ram2, root, lo, hi, h, flags)
    ensures SameOutside(ram0, ram2, root, lo, hi) && FilledBy(ram0, ram2, root, lo, hi, h, flags)
    ensures hi < VPNS ==> HwPte(ram1, root, hi) == HwPte(ram0, root, hi)
  {
    forall w: nat | lo <= w < hi
      ensures !PteValid(HwPte(ram0, root, w)) && HwPte(ram2, root, w) == MakePte(h + w - lo, flags)
    {
      assert HwPte(ram1, root, w) == HwPte(ram0, root, w);
    }
  }

  /** One block of vm_alloc. When a page of the range turns out to be mapped already,
      the block is handed back, but the done entries written before that page stay. */
  method AllocBlock(pt: PageTable, v: nat, l: nat, flags: nat) returns (r: Outcome, ghost oom: bool, ghost h: nat, ghost done: nat)
    requires pt.Valid() && pt.Owned() && PowerOfTwo(l) && v + l <= VPNS && LeafFlags(flags)
    modifies pt`tables, pt.mem
    ensures pt.Valid()
    ensures Kept(old(pt.mem.ram), old(pt.mem.blk), old(pt.tables), pt.mem.ram, pt.mem.blk)
    ensures TablesAdded(old(pt.mem.blk), old(pt.tables), pt.tables)
    ensures SameOutside(old(pt.mem.ram), pt.mem.ram, pt.base, v, v + done)
    ensures FilledBy(old(pt.mem.ram), pt.mem.ram, pt.base, v, v + done, h, flags)
    ensures r.Done? ==> done == l && pt.Owned() && FreshBlock(old(pt.mem.blk), pt.mem.ram, pt.mem.blk, pt.tables, h, l) && ZeroBlock(pt.mem.ram, h, l)
    ensures r.Failed? ==> done < l && OnlyTablesNew(old(pt.mem.blk), pt.mem.blk, pt.tables)
    ensures r.Failed? && done == 0 ==> pt.Owned()
    ensures r.Failed? ==> forall p :: h <= p < h + done ==> p !in pt.mem.blk
    ensures r.Failed? ==> if oom then done == 0 else PteValid(HwPte(old(pt.mem.ram), pt.base, v + done))
    ensures (r.Panic? ==> pt.mem.Full()) && (oom ==> r.Failed?)
    ensures pt.mem.refused == old(pt.mem.refused) + if oom || r.Panic? then 1 else 0
  {
    hide Tree, TablesOwned, LeavesOwned, HwPte, Consistent, PageNumbers, PteValid, Kept, Freed;
    hide FreshBlock, ZeroBlock, OnlyTablesNew, TablesAdded, SameOutside, FilledBy;
    var mem;
    r, mem, done := AllocAndMap(pt, v, l, flags);
    if mem.Nothing? {
      FilledNone(old(pt.mem.ram), pt.mem.ram, pt.base, v, flags);
      return r, true, 0, 0;
    }
    oom, h := false, mem.value;
    if r.Failed? {
      NotSpare(pt.mem.ram.Keys, pt.mem.blk, pt.mem.spare, h);
      ghost var blk1, spare1 := pt.mem.blk, pt.mem.spare;
      TablesOutliveFree(blk1, spare1, pt.tables, h);
      pt.mem.FreePages(mem.value);
      UndoBlock(old(pt.mem.ram), old(pt.mem.blk), old(pt.tables), old(pt.mem.spare), pt.mem.ram, blk1, spare1, pt.tables,
                h, l, pt.mem.blk, pt.mem.spare);
      if done == 0 {
        SameNowhere(old(pt.mem.ram), pt.mem.ram, pt.base, v);
        RestoredOwned(old(pt.mem.ram), old(pt.mem.blk), pt.base, old(pt.tables), pt.mem.ram, pt.mem.blk, pt.tables);
      }
    }
  }

  lemma FilledNone(ram: Ram, ram': Ram, root: nat, v: nat, flags: nat)
    ensures FilledBy(ram, ram', root, v, v, 0, flags)
  {}

  lemma SameNowhere(ram: Ram, ram': Ram, root: nat, v: nat)
    requires SameOutside(ram, ram', root, v, v)
    ensures SameOutside(ram, ram', root, 0, 0)
  {}

  // ------------------------------------------------------------- vm_alloc

  /** What a mapping is meant to have: flags and page contents. */
  datatype Leaf = Leaf(flags: nat, page: Page)

  /** A page of the grown range: it was unmapped, and now maps a page that was free,
      with the flags and contents that like lists for it. */
  ghost predicate FreshMapping(ram0: Ram, blk0: Blocks, ram: Ram, root: nat, o: nat, like: seq<Leaf>, w: nat)
    requires o <= w < o + |like|
  {
    var e, leaf := HwPte(ram, root, w), like[w - o];
    && !PteValid(HwPte(ram0, root, w))
    && PteValid(e) && PteFlags(e) == leaf.flags
    && PtePpn(e) in ram && PtePpn(e) !in blk0 && ram[PtePpn(e)] == leaf.page
  }

  /** The block that backs page w starts on the physical page of w or of an earlier page. */
  ghost predicate HeadBelow(ram: Ram, blk: Blocks, root: nat, o: nat, w: nat) {
    PtePpn(HwPte(ram, root, w)) in blk &&
    exists u: nat :: o <= u <= w && PtePpn(HwPte(ram, root, u)) == blk[PtePpn(HwPte(ram, root, w))]
  }

  /** n pages from o on were added, as like prescribes: fresh, pairwise distinct, and every page that is
      allocated now but was not before is a table page or lies in a block that starts on
      one of them. */
  ghost predicate Grew(ram0: Ram, blk0: Blocks, ram: Ram, blk: Blocks, root: nat, tables: Tables, o: nat, n: nat, like: seq<Leaf>) {
    && n <= |like|
    && (forall w: nat :: o <= w < o + n ==> FreshMapping(ram0, blk0, ram, root, o, like, w))
    && (forall w: nat :: o <= w < o + n ==> HeadBelow(ram, blk, root, o, w))
    && DistinctPages(ram, root, o, n)
    && (forall p :: p in blk && p !in blk0 ==> p in tables.Values || blk[p] in RangePpns(ram, root, o, n))
  }

  lemma GrewNothing(ram: Ram, blk: Blocks, root: nat, tables: Tables, o: nat, like: seq<Leaf>)
    ensures Grew(ram, blk, ram, blk, root, tables, o, 0, like)
  {}

  lemma GrewNew(ram0: Ram, blk0: Blocks, ram: Ram, blk: Blocks, root: nat, tables: Tables, o: nat, n: nat, like: seq<Leaf>)
    requires Grew(ram0, blk0, ram, blk, root, tables, o, n, like)
    ensures forall p :: p in blk && p !in blk0 ==> p in tables.Values || blk[p] in RangePpns(ram, root, o, n)
  {
    hide HwPte, RangePpns, FreshMapping, HeadBelow, DistinctPages;
  }

  lemma NothingGrew(ram0: Ram, blk0: Blocks, ram: Ram, blk: Blocks, root: nat, tables: Tables, o: nat, like: seq<Leaf>)
    requires OnlyTablesNew(blk0, blk, tables)
    ensures Grew(ram0, blk0, ram, blk, root, tables, o, 0, like)
  {}

  lemma {:induction false} RangePpnsGrow(ram: Ram, ram': Ram, root: nat, o: nat, n: nat, l: nat)
    requires SameOutside(ram, ram', root, o + n, o + n + l) && o + n + l <= VPNS
    ensures RangePpns(ram, root, o, n) <= RangePpns(ram', root, o, n + l)
  {
    hide HwPte, PtePpn, RangePpns;
    forall p | p in RangePpns(ram, root, o, n) ensures p in RangePpns(ram', root, o, n + l) {
      RangePpnsMember(ram, root, o, n, p);
      var v: nat :| o <= v < o + n && PtePpn(HwPte(ram, root, v)) == p;
      assert PtePpn(HwPte(ram', root, v)) == p;
      RangePpnsMember(ram', root, o, n + l, p);
    }
  }

  lemma OwnedRange(ram: Ram, blk: Blocks, root: nat, tables: Tables, first: nat, n: nat)
    requires Tree(ram, root, tables) && LeavesOwned(ram, blk, tables) && first + n <= VPNS
    ensures RangeOwned(ram, blk, root, tables, first, n)
  {
    forall v: nat | first <= v < first + n && PteValid(HwPte(ram, root, v))
      ensures LeafPage(blk, tables, PtePpn(HwPte(ram, root, v)))
    {
      HardwareSeesTree(ram, root, tables, v);
    }
  }

  /** The step from n to n + l pages. */
  ghost predicate BlockStep(ram1: Ram, blk1: Blocks, t1: Tables, ram2: Ram, blk2: Blocks, t2: Tables, root: nat,
                            v: nat, l: nat, h: nat, flags: nat, like: seq<Leaf>) {
    && Kept(ram1, blk1, t1, ram2, blk2) && TablesAdded(blk1, t1, t2)
    && SameOutside(ram1, ram2, root, v, v + l) && FilledBy(ram1, ram2, root, v, v + l, h, flags)
    && FreshBlock(blk1, ram2, blk2, t2, h, l)
    && |like| == l && (forall p :: h <= p < h + l ==> like[p - h] == Leaf(flags, ram2[p]))
  }

  lemma {:induction false} GrewMoreMappings(ram0: Ram, blk0: Blocks, ram1: Ram, blk1: Blocks, t1: Tables, ram2: Ram, blk2: Blocks,
                         t2: Tables, root: nat, o: nat, n: nat, h: nat, l: nat, flags: nat, like: seq<Leaf>, w: nat)
    requires (forall p :: p in blk0 ==> p in blk1) && SameOutside(ram0, ram1, root, o, o + n)
    requires RangeOwned(ram1, blk1, root, t1, o, n)
    requires n + l <= |like| && o <= w < o + n + l
    requires w < o + n ==> FreshMapping(ram0, blk0, ram1, root, o, like, w)
    requires BlockStep(ram1, blk1, t1, ram2, blk2, t2, root, o + n, l, h, flags, like[n..n + l])
    requires o + n + l <= VPNS && LeafFlags(flags)
    ensures FreshMapping(ram0, blk0, ram2, root, o, like, w)
    ensures w < o + n ==> HwPte(ram2, root, w) == HwPte(ram1, root, w) && PtePpn(HwPte(ram2, root, w)) in blk1
    ensures w >= o + n ==> PtePpn(HwPte(ram2, root, w)) == h + w - (o + n) && PtePpn(HwPte(ram2, root, w)) !in blk1
  {
    hide HwPte, PteValid, PteIsDir, PteFlags, PtePpn, MakePte;
    if w < o + n {
      assert HwPte(ram2, root, w) == HwPte(ram1, root, w);
      assert LeafPage(blk1, t1, PtePpn(HwPte(ram1, root, w)));
    } else {
      assert HwPte(ram1, root, w) == HwPte(ram0, root, w);
      var p := h + w - (o + n);
      assert HwPte(ram2, root, w) == MakePte(p, flags);
      assert p in ram2 && like[n..n + l][p - h] == Leaf(flags, ram2[p]);
      assert like[n..n + l][p - h] == like[w - o];
      PteParts(p, flags);
    }
  }

  lemma {:induction false} GrewMoreHeads(ram1: Ram, blk1: Blocks, t1: Tables, ram2: Ram, blk2: Blocks, t2: Tables, root: nat,
                      o: nat, n: nat, h: nat, l: nat, flags: nat, like: seq<Leaf>, w: nat)
    requires o <= w < o + n ==> HeadBelow(ram1, blk1, root, o, w)
    requires BlockStep(ram1, blk1, t1, ram2, blk2, t2, root, o + n, l, h, flags, like)
    requires o + n + l <= VPNS && LeafFlags(flags) && o <= w < o + n + l
    ensures HeadBelow(ram2, blk2, root, o, w)
  {
    hide HwPte, PteValid, PteIsDir, PteFlags;
    if w < o + n {
      var u: nat :| o <= u <= w && PtePpn(HwPte(ram1, root, u)) == blk1[PtePpn(HwPte(ram1, root, w))];
      assert HwPte(ram2, root, u) == HwPte(ram1, root, u) && HwPte(ram2, root, w) == HwPte(ram1, root, w);
    } else {
      assert HwPte(ram2, root, w) == MakePte(h + w - (o + n), flags);
      assert HwPte(ram2, root, o + n) == MakePte(h + (o + n) - (o + n), flags);
      PteParts(h + w - (o + n), flags);
      PteParts(h, flags);
    }
  }

  lemma {:induction false} GrewMoreBlocks(blk0: Blocks, ram1: Ram, blk1: Blocks, t1: Tables, ram2: Ram, blk2: Blocks,
                       t2: Tables, root: nat, o: nat, n: nat, h: nat, l: nat, flags: nat, like: seq<Leaf>, p: nat)
    requires p in blk1 && p !in blk0 ==> p in t1.Values || blk1[p] in RangePpns(ram1, root, o, n)
    requires BlockStep(ram1, blk1, t1, ram2, blk2, t2, root, o + n, l, h, flags, like)
    requires o + n + l <= VPNS && l > 0 && LeafFlags(flags)
    requires p in blk2 && p !in blk0
    ensures p in t2.Values || blk2[p] in RangePpns(ram2, root, o, n + l)
  {
    hide RangePpns, HwPte, MakePte, PteValid, PteIsDir, PtePpn;
    if p in blk1 {
      if p in t1.Values {
        var q :| q in t1 && t1[q] == p;
        assert t2[q] == p;
      } else {
        RangePpnsGrow(ram1, ram2, root, o, n, l);
      }
    } else if p !in t2.Values {
      HeadInRange(ram1, ram2, root, o, n, l, h, flags);
    }
  }

  lemma {:induction false} HeadInRange(ram1: Ram, ram2: Ram, root: nat, o: nat, n: nat, l: nat, h: nat, flags: nat)
    requires FilledBy(ram1, ram2, root, o + n, o + n + l, h, flags) && l > 0 && flags < 1024
    ensures h in RangePpns(ram2, root, o, n + l)
  {
    hide HwPte, PteValid, PteIsDir, PtePpn, PteFlags, PteUser, MakePte, RangePpns;
    var w := o + n;
    assert HwPte(ram2, root, w) == MakePte(h + w - w, flags);
    PteParts(h, flags);
    RangePpnsMember(ram2, root, o, n + l, h);
  }

  lemma {:induction false} GrewMore(ram0: Ram, blk0: Blocks, t0: Tables, ram1: Ram, blk1: Blocks, t1: Tables, ram2: Ram, blk2: Blocks,
                 t2: Tables, root: nat, o: nat, n: nat, h: nat, l: nat, flags: nat, like: seq<Leaf>)
    requires Kept(ram0, blk0, t0, ram1, blk1) && TablesAdded(blk0, t0, t1) && SameOutside(ram0, ram1, root, o, o + n)
    requires RangeOwned(ram1, blk1, root, t1, o, n) && Grew(ram0, blk0, ram1, blk1, root, t1, o, n, like)
    requires n + l <= |like| && BlockStep(ram1, blk1, t1, ram2, blk2, t2, root, o + n, l, h, flags, like[n..n + l])
    requires o + n + l <= VPNS && l > 0 && LeafFlags(flags)
    ensures Grew(ram0, blk0, ram2, blk2, root, t2, o, n + l, like)
    ensures SameOutside(ram0, ram2, root, o, o + (n + l))
    ensures Kept(ram0, blk0, t0, ram2, blk2) && TablesAdded(blk0, t0, t2)
  {
    hide FreshBlock, RangeOwned, TablesAdded, RangePpns, Kept, FreshMapping, HeadBelow, FilledBy, PteValid, PtePpn, HwPte, MakePte, LeafFlags;
    KeptTrans(ram0, blk0, t0, ram1, blk1, t1, ram2, blk2, t2);
    assert SameOutside(ram0, ram2, root, o, o + (n + l));
    forall w: nat | o <= w < o + (n + l)
      ensures FreshMapping(ram0, blk0, ram2, root, o, like, w)
      ensures w < o + n ==> HwPte(ram2, root, w) == HwPte(ram1, root, w) && PtePpn(HwPte(ram2, root, w)) in blk1
      ensures w >= o + n ==> PtePpn(HwPte(ram2, root, w)) == h + w - (o + n) && PtePpn(HwPte(ram2, root, w)) !in blk1
    {
      GrewMoreMappings(ram0, blk0, ram1, blk1, t1, ram2, blk2, t2, root, o, n, h, l, flags, like, w);
    }
    forall w: nat | o <= w < o + (n + l) ensures HeadBelow(ram2, blk2, root, o, w) {
      GrewMoreHeads(ram1, blk1, t1, ram2, blk2, t2, root, o, n, h, l, flags, like[n..n + l], w);
    }
    assert DistinctPages(ram2, root, o, n + l);
    forall p | p in blk2 && p !in blk0
      ensures p in t2.Values || blk2[p] in RangePpns(ram2, root, o, n + l)
    {
      GrewMoreBlocks(blk0, ram1, blk1, t1, ram2, blk2, t2, root, o, n, h, l, flags, like[n..n + l], p);
    }
  }

  lemma KeptTrans(ram0: Ram, blk0: Blocks, t0: Tables, ram1: Ram, blk1: Blocks, t1: Tables, ram2: Ram, blk2: Blocks, t2: Tables)
    requires Kept(ram0, blk0, t0, ram1, blk1) && TablesAdded(blk0, t0, t1)
    requires Kept(ram1, blk1, t1, ram2, blk2) && TablesAdded(blk1, t1, t2)
    ensures Kept(ram0, blk0, t0, ram2, blk2) && TablesAdded(blk0, t0, t2)
    ensures forall p :: p in blk0 ==> p in blk1
  {}

  /** A failed step adds table pages and, at most, stale entries behind the range. */
  lemma {:induction false} GrewKept(ram0: Ram, blk0: Blocks, ram1: Ram, blk1: Blocks, t1: Tables, ram2: Ram, blk2: Blocks,
                 t2: Tables, root: nat, o: nat, n: nat, hi: nat, like: seq<Leaf>)
    requires RangeOwned(ram1, blk1, root, t1, o, n) && Grew(ram0, blk0, ram1, blk1, root, t1, o, n, like)
    requires Kept(ram1, blk1, t1, ram2, blk2) && TablesAdded(blk1, t1, t2) && OnlyTablesNew(blk1, blk2, t2)
    requires SameOutside(ram1, ram2, root, o + n, hi) && o + n <= hi <= VPNS
    ensures Grew(ram0, blk0, ram2, blk2, root, t2, o, n, like) && RangeOwned(ram2, blk2, root, t2, o, n)
  {
    hide RangePpns, HwPte, PteValid, PtePpn, PteFlags;
    assert forall w: nat :: o <= w < o + n ==> HwPte(ram2, root, w) == HwPte(ram1, root, w);
    forall w: nat | o <= w < o + n
      ensures FreshMapping(ram0, blk0, ram2, root, o, like, w)
      ensures LeafPage(blk2, t2, PtePpn(HwPte(ram2, root, w)))
    {
      assert FreshMapping(ram0, blk0, ram1, root, o, like, w);
      assert LeafPage(blk1, t1, PtePpn(HwPte(ram1, root, w)));
    }
    forall w: nat | o <= w < o + n ensures HeadBelow(ram2, blk2, root, o, w) {
      assert HeadBelow(ram1, blk1, root, o, w);
      var u: nat :| o <= u <= w && PtePpn(HwPte(ram1, root, u)) == blk1[PtePpn(HwPte(ram1, root, w))];
      assert HwPte(ram2, root, u) == HwPte(ram1, root, u);
    }
    assert DistinctPages(ram2, root, o, n);
    SameOutsideNarrow(ram1, ram2, root, o + n, hi);
    RangePpnsKept(ram1, ram2, root, o, n);
    forall p | p in t1.Values ensures p in t2.Values {
      var q :| q in t1 && t1[q] == p;
      assert t2[q] == p;
    }
  }

  lemma SameOutsideNarrow(ram: Ram, ram': Ram, root: nat, lo: nat, hi: nat)
    requires SameOutside(ram, ram', root, lo, hi) && lo <= hi <= VPNS
    ensures forall w: nat :: w < lo ==> HwPte(ram', root, w) == HwPte(ram, root, w)
  {}

  lemma {:induction false} RangePpnsKept(ram: Ram, ram': Ram, root: nat, o: nat, n: nat)
    requires forall w: nat :: o <= w < o + n ==> HwPte(ram', root, w) == HwPte(ram, root, w)
    ensures RangePpns(ram', root, o, n) == RangePpns(ram, root, o, n)
  {
    if n > 0 { RangePpnsKept(ram, ram', root, o, n - 1); }
  }

  /** Unmapping the n fresh pages takes the address space back to where it started,
      up to new table pages and the stale entries [o + n, hi). */
  lemma {:induction false} Rollback(ram0: Ram, blk0: Blocks, spare0: set<nat>, t0: Tables, ram2: Ram, blk2: Blocks, t2: Tables,
                 ram3: Ram, blk3: Blocks, root: nat, o: nat, n: nat, hi: nat, like: seq<Leaf>)
    requires Tree(ram0, root, t0) && Consistent(ram0.Keys, blk0, spare0)
    requires Kept(ram0, blk0, t0, ram2, blk2) && TablesAdded(blk0, t0, t2) && Grew(ram0, blk0, ram2, blk2, root, t2, o, n, like)
    requires SameOutside(ram0, ram2, root, o, hi) && o + n <= hi <= VPNS
    requires blk3 == AfterFree(ram2, blk2, root, o, n) && ram3.Keys == ram2.Keys
    requires SameOutside(ram2, ram3, root, o, o + n) && Cleared(ram2, ram3, root, o, o + n)
    requires forall p :: p in ram3 && p !in t2.Values ==> ram3[p] == ram2[p]
    ensures Kept(ram0, blk0, t0, ram3, blk3) && OnlyTablesNew(blk0, blk3, t2)
    ensures SameOutside(ram0, ram3, root, o + n, hi)
  {
    hide RangePpns, HwPte, PteValid, PtePpn, PteFlags, Tree;
    forall p | p in blk0 ensures p in blk3 && blk3[p] == blk0[p] {
      assert blk0[p] in blk0;
      RangeIsFresh(ram0, blk0, ram2, blk2, root, t2, o, n, like, blk0[p]);
    }
    forall w: nat | w < VPNS && !(o + n <= w < hi) ensures HwPte(ram3, root, w) == HwPte(ram0, root, w) {
      if o <= w < o + n {
        assert FreshMapping(ram0, blk0, ram2, root, o, like, w);
        UnmappedIsZero(ram0, root, t0, w);
      }
    }
  }

  lemma UnmappedIsZero(ram: Ram, root: nat, tables: Tables, w: nat)
    requires Tree(ram, root, tables) && w < VPNS && !PteValid(HwPte(ram, root, w))
    ensures HwPte(ram, root, w) == 0
  {
    HardwareSeesTree(ram, root, tables, w);
    LeafSlot(ram, root, tables, w);
  }

  lemma {:induction false} RangeIsFresh(ram0: Ram, blk0: Blocks, ram: Ram, blk: Blocks, root: nat, tables: Tables, o: nat, n: nat, like: seq<Leaf>, p: nat)
    requires Grew(ram0, blk0, ram, blk, root, tables, o, n, like) && p in blk0
    ensures p !in RangePpns(ram, root, o, n)
  {
    hide HwPte, PtePpn, RangePpns, PteValid;
    RangePpnsMember(ram, root, o, n, p);
    forall v: nat | o <= v < o + n ensures PtePpn(HwPte(ram, root, v)) != p {
      assert FreshMapping(ram0, blk0, ram, root, o, like, v);
    }
  }

  /** vm_dealloc: unmaps and frees the pages from round_up(newSz) to round_up(oldSz). */
  method VmDealloc(pt: PageTable, oldSz: nat, newSz: nat) returns (r: Outcome, size: nat, ghost done: nat)
    requires pt.Valid() && UpPages(oldSz) <= VPNS
    requires newSz < oldSz ==>
               var first, n := UpPages(newSz), PagesBetween(newSz, oldSz);
               RangeOwned(pt.mem.ram, pt.mem.blk, pt.base, pt.tables, first, n) && DistinctPages(pt.mem.ram, pt.base, first, n)
    modifies pt`tables, pt.mem
    ensures pt.Valid() && pt.tables == old(pt.tables) && pt.mem.ram.Keys == old(pt.mem.ram.Keys)
    ensures newSz >= oldSz ==> r.Done? && size == oldSz && pt.mem.ram == old(pt.mem.ram) && pt.mem.blk == old(pt.mem.blk)
    ensures newSz < oldSz ==>
              var first, n := UpPages(newSz), PagesBetween(newSz, oldSz);
              && size == newSz && done <= n && (r.Done? <==> done == n) && !r.Failed?
              && (r.Panic? ==> !PteValid(HwPte(old(pt.mem.ram), pt.base, first + done)))
              && SameOutside(old(pt.mem.ram), pt.mem.ram, pt.base, first, first + done)
              && Cleared(old(pt.mem.ram), pt.mem.ram, pt.base, first, first + done)
              && pt.mem.blk == AfterFree(old(pt.mem.ram), old(pt.mem.blk), pt.base, first, done)
              && (r.Done? && old(pt.Owned()) ==> (pt.Owned() <==> WholeBlocks(old(pt.mem.ram), old(pt.mem.blk), pt.base, first, n)))
    ensures pt.mem.refused == old(pt.mem.refused)
    ensures forall p :: p in pt.mem.ram && p !in pt.tables.Values ==> pt.mem.ram[p] == old(pt.mem.ram[p])
  {
    hide Tree, TablesOwned, LeavesOwned, RangeOwned, DistinctPages, HwPte, PteValid, WholeBlocks, AfterFree, UpPages;
    done := 0;
    if newSz >= oldSz {
      return Done, oldSz, 0;
    }
    var na, oa := RoundUp(newSz), RoundUp(oldSz);
    assert na / PAGE_SIZE == UpPages(newSz) && na % PAGE_SIZE == 0;
    assert oa - na == PagesBetween(newSz, oldSz) * PAGE_SIZE;
    r := Done;
    SameRefl(pt.mem.ram, pt.base, UpPages(newSz));
    FreeNext(pt.mem.ram, pt.mem.blk, pt.base, UpPages(newSz), 0);
    if pt.Owned() { WholeNothing(pt.mem.ram, pt.mem.blk, pt.base, pt.tables, UpPages(newSz)); }
    if na < oa {
      r, done := VmUnmap(pt, na, (oa - na) / PAGE_SIZE, true);
    }
    size := newSz;
  }

  lemma WholeNothing(ram: Ram, blk: Blocks, root: nat, tables: Tables, first: nat)
    requires Tree(ram, root, tables) && LeavesOwned(ram, blk, tables)
    ensures WholeBlocks(ram, blk, root, first, 0)
  {
    hide Tree, HwPte, PtePpn, PteOf;
    forall w: nat | w < VPNS && HwPte(ram, root, w) != 0 ensures PtePpn(HwPte(ram, root, w)) in blk {
      HardwareSeesTree(ram, root, tables, w);
      assert LeafPage(blk, tables, PtePpn(PteOf(ram, tables, w)));
    }
  }

  /** The entry lets pages be read; written unless they are for code alone; executed if they are for code; and reached by
      user mode if they are the user's. */
  predicate Permits(e: nat, executable: bool, writeable: bool, forUser: bool) {
    && PteRead(e) && (PteWrite(e) <==> !executable || writeable) && (PteExec(e) <==> executable)
    && (PteUser(e) <==> forUser)
  }

  /** Flags that vm_alloc passes to map_pages. */
  function AllocFlags(executable: bool, writeable: bool, forUser: bool): (f: nat)
    ensures LeafFlags(f) && Permits(f, executable, writeable, forUser)
  {
    (if !executable then PTE_V + PTE_R + PTE_W
     else if writeable then PTE_V + PTE_R + PTE_W + PTE_X
     else PTE_V + PTE_R + PTE_X)
    + (if forUser then PTE_U else 0)
  }

  /** Entries that a failed vm_alloc leaves behind: len of them from page start on, in a
      block of the given size. */
  datatype Residue = Residue(start: nat, len: nat, block: nat)

  /** Where the residue comes from: page start + len is the first page of the range that
      was mapped before the call, and start is where its block begins in the power-of-two
      decomposition of npg. */
  ghost predicate Explained(ram0: Ram, root: nat, o: nat, npg: nat, res: Residue) {
    && PowerOfTwo(res.block) && npg / res.block % 2 == 1 && res.len < res.block
    && res.start == o + npg % res.block
    && PteValid(HwPte(ram0, root, res.start + res.len))
    && (forall w: nat :: o <= w < res.start + res.len ==> !PteValid(HwPte(ram0, root, w)))
  }

  /** The failing exit of vm_alloc, after has pages were added and the next block failed. */
  method RollBackGrowth(pt: PageTable, o: nat, has: nat, ghost hi: nat, ghost like: seq<Leaf>, ghost ram0: Ram, ghost blk0: Blocks,
                        ghost spare0: set<nat>, ghost t0: Tables)
    requires pt.Valid() && o + has <= hi <= VPNS && Tree(ram0, pt.base, t0) && Consistent(ram0.Keys, blk0, spare0)
    requires Kept(ram0, blk0, t0, pt.mem.ram, pt.mem.blk) && TablesAdded(blk0, t0, pt.tables)
    requires Grew(ram0, blk0, pt.mem.ram, pt.mem.blk, pt.base, pt.tables, o, has, like)
    requires RangeOwned(pt.mem.ram, pt.mem.blk, pt.base, pt.tables, o, has)
    requires SameOutside(ram0, pt.mem.ram, pt.base, o, hi)
    modifies pt`tables, pt.mem
    ensures pt.Valid() && pt.tables == old(pt.tables)
    ensures Kept(ram0, blk0, t0, pt.mem.ram, pt.mem.blk) && OnlyTablesNew(blk0, pt.mem.blk, pt.tables)
    ensures SameOutside(ram0, pt.mem.ram, pt.base, o + has, hi)
    ensures SameOutside(old(pt.mem.ram), pt.mem.ram, pt.base, o, o + has)
    ensures forall p :: p in pt.mem.blk ==> p in old(pt.mem.blk)
    ensures pt.mem.refused == old(pt.mem.refused)
  {
    hide Tree, TablesOwned, LeavesOwned, RangeOwned, HwPte, PteValid, AfterFree, Kept, TablesAdded, OnlyTablesNew, SameOutside, Cleared;
    hide FreshMapping, Consistent, PageNumbers, WholeBlocks;
    ghost var ram2, blk2 := pt.mem.ram, pt.mem.blk;
    var oa, top := o * PAGE_SIZE, (o + has) * PAGE_SIZE;
    assert UpPages(oa) == o && UpPages(top) == o + has;
    var r, size;
    ghost var done;
    r, size, done := VmDealloc(pt, top, oa);
    if has == 0 {
      SameRefl(pt.mem.ram, pt.base, o);
      FreeNext(ram2, blk2, pt.base, o, 0);
    } else if done < has {
      AllFresh(ram0, blk0, ram2, blk2, pt.base, pt.tables, o, has, like, o + done);
      assert false;
    }
    Rollback(ram0, blk0, spare0, t0, ram2, blk2, pt.tables, pt.mem.ram, pt.mem.blk, pt.base, o, has, hi, like);
    FreeingOnlyFrees(ram2, blk2, pt.base, o, has);
  }

  lemma FreeingOnlyFrees(ram: Ram, blk: Blocks, root: nat, first: nat, n: nat)
    ensures forall p :: p in AfterFree(ram, blk, root, first, n) ==> p in blk
  {}

  lemma AllFresh(ram0: Ram, blk0: Blocks, ram: Ram, blk: Blocks, root: nat, tables: Tables, o: nat, n: nat, like: seq<Leaf>, w: nat)
    requires Grew(ram0, blk0, ram, blk, root, tables, o, n, like) && o <= w < o + n
    ensures PteValid(HwPte(ram, root, w)) && !PteValid(HwPte(ram0, root, w))
  {
    assert FreshMapping(ram0, blk0, ram, root, o, like, w);
  }

  lemma SameJoin(ram0: Ram, ram1: Ram, ram2: Ram, root: nat, lo: nat, mid: nat, hi: nat)
    requires lo <= mid <= hi
    requires SameOutside(ram0, ram1, root, lo, mid) && SameOutside(ram1, ram2, root, mid, hi)
    ensures SameOutside(ram0, ram2, root, lo, hi)
  {}

  /** Why the entries [o + n, o + n + len) are there. */
  lemma {:induction false} ExplainResidue(ram0: Ram, blk0: Blocks, ram1: Ram, blk1: Blocks, t1: Tables, ram2: Ram, ram3: Ram, blk3: Blocks, root: nat,
                       o: nat, n: nat, npg: nat, h: nat, res: Residue, flags: nat, like: seq<Leaf>)
    requires SameOutside(ram0, ram1, root, o, o + n) && Grew(ram0, blk0, ram1, blk1, root, t1, o, n, like)
    requires PowerOfTwo(res.block) && res.start == o + n && n == npg % res.block && npg / res.block % 2 == 1
    requires res.len < res.block && o + n + res.block <= VPNS && LeafFlags(flags)
    requires FilledBy(ram1, ram2, root, o + n, o + n + res.len, h, flags)
    requires PteValid(HwPte(ram1, root, o + n + res.len)) && SameOutside(ram2, ram3, root, o, o + n)
    requires forall p :: h <= p < h + res.len ==> p !in blk3
    ensures Explained(ram0, root, o, npg, res)
    ensures Stale(ram0, ram3, blk3, root, res)
  {
    hide HwPte, PteFlags, PteIsDir, PtePpn, MakePte, PteValid, PteUser;
    forall w: nat | o <= w < res.start + res.len ensures !PteValid(HwPte(ram0, root, w)) {
      if w < o + n {
        AllFresh(ram0, blk0, ram1, blk1, root, t1, o, n, like, w);
      } else {
        assert HwPte(ram1, root, w) == HwPte(ram0, root, w);
      }
    }
    forall w: nat | res.start <= w < res.start + res.len
      ensures PteValid(HwPte(ram3, root, w)) && PtePpn(HwPte(ram3, root, w)) == h + w - (o + n)
    {
      assert HwPte(ram2, root, w) == MakePte(h + w - (o + n), flags);
      PteParts(h + w - (o + n), flags);
      assert HwPte(ram3, root, w) == HwPte(ram2, root, w);
    }
  }

  /** The residue's entries: unmapped before; now mapped to consecutive frames, all of them free. */
  ghost predicate Stale(ram0: Ram, ram: Ram, blk: Blocks, root: nat, res: Residue) {
    forall w: nat :: res.start <= w < res.start + res.len ==> StaleEntry(ram0, ram, blk, root, res.start, w)
  }

  ghost predicate StaleEntry(ram0: Ram, ram: Ram, blk: Blocks, root: nat, start: nat, w: nat) {
    && !PteValid(HwPte(ram0, root, w)) && PteValid(HwPte(ram, root, w))
    && PtePpn(HwPte(ram, root, w)) == PtePpn(HwPte(ram, root, start)) + w - start
    && PtePpn(HwPte(ram, root, w)) !in blk
  }

  /** The failing exit of vm_alloc: block l at has could not be added. */
  method GiveUp(pt: PageTable, o: nat, has: nat, ghost npg: nat, ghost oom: bool, ghost h: nat, ghost res: Residue, ghost flags: nat,
                ghost like: seq<Leaf>, ghost ram0: Ram, ghost blk0: Blocks, ghost spare0: set<nat>, ghost t0: Tables,
                ghost ram1: Ram, ghost blk1: Blocks, ghost t1: Tables)
    requires pt.Valid() && Tree(ram0, pt.base, t0) && Consistent(ram0.Keys, blk0, spare0) && LeavesOwned(ram0, blk0, t0)
    requires Kept(ram0, blk0, t0, pt.mem.ram, pt.mem.blk) && TablesAdded(blk0, t0, pt.tables)
    requires RangeOwned(ram1, blk1, pt.base, t1, o, has) && Grew(ram0, blk0, ram1, blk1, pt.base, t1, o, has, like)
    requires SameOutside(ram0, ram1, pt.base, o, o + has)
    requires Kept(ram1, blk1, t1, pt.mem.ram, pt.mem.blk) && TablesAdded(blk1, t1, pt.tables) && OnlyTablesNew(blk1, pt.mem.blk, pt.tables)
    requires PowerOfTwo(res.block) && res.start == o + has && has == npg % res.block && npg / res.block % 2 == 1
    requires res.len < res.block && o + has + res.block <= VPNS && LeafFlags(flags)
    requires SameOutside(ram1, pt.mem.ram, pt.base, o + has, o + has + res.len)
    requires FilledBy(ram1, pt.mem.ram, pt.base, o + has, o + has + res.len, h, flags)
    requires forall p :: h <= p < h + res.len ==> p !in pt.mem.blk
    requires if oom then res.len == 0 else PteValid(HwPte(ram1, pt.base, o + has + res.len))
    modifies pt`tables, pt.mem
    ensures pt.Valid() && pt.tables == old(pt.tables)
    ensures Kept(ram0, blk0, t0, pt.mem.ram, pt.mem.blk) && OnlyTablesNew(blk0, pt.mem.blk, pt.tables)
    ensures SameOutside(ram0, pt.mem.ram, pt.base, res.start, res.start + res.len)
    ensures Stale(ram0, pt.mem.ram, pt.mem.blk, pt.base, res)
    ensures res.len == 0 ==> pt.Owned()
    ensures !oom ==> Explained(ram0, pt.base, o, npg, res)
    ensures pt.mem.refused == old(pt.mem.refused)
  {
    hide Tree, TablesOwned, LeavesOwned, RangeOwned, HwPte, Kept, TablesAdded, OnlyTablesNew, SameOutside, FilledBy;
    hide Grew, Consistent, PageNumbers, PteValid, Explained, Stale, LeafFlags;
    ghost var ram2, hi := pt.mem.ram, o + has + res.len;
    GrewKept(ram0, blk0, ram1, blk1, t1, pt.mem.ram, pt.mem.blk, pt.tables, pt.base, o, has, hi, like);
    SameJoin(ram0, ram1, pt.mem.ram, pt.base, o, o + has, hi);
    RollBackGrowth(pt, o, has, hi, like, ram0, blk0, spare0, t0);
    if res.len == 0 {
      SameNowhere(ram0, pt.mem.ram, pt.base, o + has);
      RestoredOwned(ram0, blk0, pt.base, t0, pt.mem.ram, pt.mem.blk, pt.tables);
      NothingStale(ram0, pt.mem.ram, pt.mem.blk, pt.base, res);
    }
    if !oom {
      ExplainResidue(ram0, blk0, ram1, blk1, t1, ram2, pt.mem.ram, pt.mem.blk, pt.base, o, has, npg, h, res, flags, like);
    }
  }

  /** vm_alloc: adds the pages from round_up(oldSz) to round_up(newSz) in power-of-two
      blocks, smallest first. On failure everything is as before except for new table
      pages and the residue. */
  method VmAlloc(pt: PageTable, oldSz: nat, newSz: nat, executable: bool, writeable: bool, forUser: bool)
      returns (r: Outcome, size: nat, ghost oom: bool, ghost res: Residue)
    requires pt.Valid() && pt.Owned() && UpPages(newSz) <= VPNS
    modifies pt`tables, pt.mem
    ensures pt.Valid()
    ensures Kept(old(pt.mem.ram), old(pt.mem.blk), old(pt.tables), pt.mem.ram, pt.mem.blk)
    ensures TablesAdded(old(pt.mem.blk), old(pt.tables), pt.tables)
    ensures newSz < oldSz ==> r.Done? && size == oldSz && pt.mem.ram == old(pt.mem.ram) && pt.mem.blk == old(pt.mem.blk)
                              && pt.tables == old(pt.tables)
    ensures r.Done? ==> pt.Owned()
    ensures r.Done? && newSz >= oldSz ==>
              var o, npg := UpPages(oldSz), PagesBetween(oldSz, newSz);
              && size == newSz
              && SameOutside(old(pt.mem.ram), pt.mem.ram, pt.base, o, o + npg)
              && Grew(old(pt.mem.ram), old(pt.mem.blk), pt.mem.ram, pt.mem.blk, pt.base, pt.tables, o, npg,
                      ZeroLeaves(npg, AllocFlags(executable, writeable, forUser)))
              && Decomposed(pt.mem.ram, pt.mem.blk, pt.base, o, npg, npg + 1)
              && AllPermit(pt.mem.ram, pt.base, o, npg, executable, writeable, forUser)
    ensures (r.Panic? ==> newSz >= oldSz && pt.mem.Full()) && (oom ==> r.Failed?)
    ensures pt.mem.refused == old(pt.mem.refused) + if oom || r.Panic? then 1 else 0
    ensures newSz >= oldSz && pt.mem.refused == old(pt.mem.refused) ==>
              r == if RangeFree(old(pt.mem.ram), pt.base, UpPages(oldSz), PagesBetween(oldSz, newSz)) then Done else Failed
    ensures r.Failed? ==>
              && size == 0 && newSz >= oldSz
              && OnlyTablesNew(old(pt.mem.blk), pt.mem.blk, pt.tables)
              && SameOutside(old(pt.mem.ram), pt.mem.ram, pt.base, res.start, res.start + res.len)
              && Stale(old(pt.mem.ram), pt.mem.ram, pt.mem.blk, pt.base, res)
              && (res.len == 0 ==> pt.Owned())
              && (oom ==> res.len == 0)
              && (!oom ==> Explained(old(pt.mem.ram), pt.base, UpPages(oldSz), PagesBetween(oldSz, newSz), res))
  {
    hide Tree, TablesOwned, LeavesOwned, RangeOwned, HwPte, Kept, TablesAdded, OnlyTablesNew, SameOutside, FilledBy, FreshBlock, ZeroBlock, ZeroLeaves;
    hide Grew, Consistent, PageNumbers, PteValid, Explained, Stale, LeafFlags, AllocFlags, UpPages, Permits, AllPermit, RangeFree, Decomposed;
    ghost var ram0, blk0, spare0, t0 := pt.mem.ram, pt.mem.blk, pt.mem.spare, pt.tables;
    KeptReflexive(ram0, blk0, t0, pt.base);
    oom, res := false, Residue(0, 0, 0);
    if newSz < oldSz {
      return Done, oldSz, oom, res;
    }
    var oa, na := RoundUp(oldSz), RoundUp(newSz);
    var o, npg, has := oa / PAGE_SIZE, (na - oa) / PAGE_SIZE, 0;
    assert o == UpPages(oldSz) && npg == PagesBetween(oldSz, newSz);
    var flags := AllocFlags(executable, writeable, forUser);
    ghost var like := ZeroLeaves(npg, flags);
    GrewNothing(ram0, blk0, pt.base, t0, o, like);
    NothingDecomposed(ram0, blk0, pt.base, o, npg);
    var l := 1;
    while l <= npg
      invariant PowerOfTwo(l) && has == npg % l && has <= npg && o + npg <= VPNS && pt.mem.refused == old(pt.mem.refused) && !oom
      invariant pt.Valid() && pt.Owned()
      invariant Kept(ram0, blk0, t0, pt.mem.ram, pt.mem.blk) && TablesAdded(blk0, t0, pt.tables)
      invariant SameOutside(ram0, pt.mem.ram, pt.base, o, o + has)
      invariant Grew(ram0, blk0, pt.mem.ram, pt.mem.blk, pt.base, pt.tables, o, has, like)
      invariant Decomposed(pt.mem.ram, pt.mem.blk, pt.base, o, npg, l)
      decreases npg - l
    {
      NextBit(npg, l);
      if npg / l % 2 == 1 {
        OwnedRange(pt.mem.ram, pt.mem.blk, pt.base, pt.tables, o, has);
        ghost var ram1, blk1, t1 := pt.mem.ram, pt.mem.blk, pt.tables;
        ghost var h, done;
        r, oom, h, done := AllocBlock(pt, o + has, l, flags);
        KeptTrans(ram0, blk0, t0, ram1, blk1, t1, pt.mem.ram, pt.mem.blk, pt.tables);
        if r.Panic? {
          return Panic, 0, oom, res;
        }
        if r.Failed? {
          res := Residue(o + has, done, l);
          GiveUp(pt, o, has, npg, oom, h, res, flags, like, ram0, blk0, spare0, t0, ram1, blk1, t1);
          if !oom { ExplainedIsTaken(ram0, pt.base, o, npg, res); }
          return Failed, 0, oom, res;
        }
        ZeroLike(pt.mem.ram, h, l, npg, has, flags);
        GrewMore(ram0, blk0, t0, ram1, blk1, t1, pt.mem.ram, pt.mem.blk, pt.tables, pt.base, o, has, h, l, flags, like);
        DecomposedMore(ram1, blk1, t1, pt.mem.ram, pt.mem.blk, pt.tables, pt.base, o, npg, l, h, flags, like[has..has + l]);
        has := has + l;
      } else {
        DecomposedSkip(pt.mem.ram, pt.mem.blk, pt.base, o, npg, l);
      }
      l := 2 * l;
    }
    NextBit(npg, l);
    DecomposedAll(pt.mem.ram, pt.mem.blk, pt.base, o, npg, l);
    GrewWasFree(ram0, blk0, pt.mem.ram, pt.mem.blk, pt.base, pt.tables, o, npg, like);
    GrewPermits(ram0, blk0, pt.mem.ram, pt.mem.blk, pt.base, pt.tables, o, npg, executable, writeable, forUser);
    return Done, newSz, oom, res;
  }

  /** No page of the range is mapped. */
  ghost predicate RangeFree(ram: Ram, root: nat, o: nat, n: nat) {
    forall w: nat :: o <= w < o + n ==> !PteValid(HwPte(ram, root, w))
  }

  ghost predicate AllPermit(ram: Ram, root: nat, o: nat, n: nat, executable: bool, writeable: bool, forUser: bool) {
    forall w: nat :: o <= w < o + n ==> Permits(HwPte(ram, root, w), executable, writeable, forUser)
  }

  lemma GrewWasFree(ram0: Ram, blk0: Blocks, ram: Ram, blk: Blocks, root: nat, tables: Tables, o: nat, n: nat, like: seq<Leaf>)
    requires Grew(ram0, blk0, ram, blk, root, tables, o, n, like)
    ensures RangeFree(ram0, root, o, n)
  {
    hide PteValid, HwPte, PteFlags, PtePpn;
    forall w: nat | o <= w < o + n ensures !PteValid(HwPte(ram0, root, w)) {
      assert FreshMapping(ram0, blk0, ram, root, o, like, w);
    }
  }

  /** What vm_alloc added has the permissions asked for. */
  lemma GrewPermits(ram0: Ram, blk0: Blocks, ram: Ram, blk: Blocks, root: nat, tables: Tables, o: nat, n: nat,
                    executable: bool, writeable: bool, forUser: bool)
    requires Grew(ram0, blk0, ram, blk, root, tables, o, n, ZeroLeaves(n, AllocFlags(executable, writeable, forUser)))
    ensures AllPermit(ram, root, o, n, executable, writeable, forUser)
  {
    hide PteValid, HwPte, PteFlags, PtePpn, PteRead, PteWrite, PteExec, PteUser;
    var like := ZeroLeaves(n, AllocFlags(executable, writeable, forUser));
    forall w: nat | o <= w < o + n ensures Permits(HwPte(ram, root, w), executable, writeable, forUser) {
      assert FreshMapping(ram0, blk0, ram, root, o, like, w);
      PermissionBits(HwPte(ram, root, w));
    }
  }

  lemma ExplainedIsTaken(ram0: Ram, root: nat, o: nat, npg: nat, res: Residue)
    requires Explained(ram0, root, o, npg, res)
    ensures !RangeFree(ram0, root, o, npg)
  {
    if RangeFree(ram0, root, o, npg) { AtomicWhenUnmapped(ram0, root, o, npg, res); }
  }

  /** b pages from v on lie on consecutive frames that form one block. */
  ghost predicate OneRun(ram: Ram, blk: Blocks, root: nat, v: nat, b: nat) {
    forall w: nat :: v <= w < v + b ==>
      && PtePpn(HwPte(ram, root, w)) == PtePpn(HwPte(ram, root, v)) + w - v
      && PtePpn(HwPte(ram, root, w)) in blk && blk[PtePpn(HwPte(ram, root, w))] == PtePpn(HwPte(ram, root, v))
  }

  /** For every bit b < l of npg, the b pages behind the lower bits' pages are one block. */
  ghost predicate Decomposed(ram: Ram, blk: Blocks, root: nat, o: nat, npg: nat, l: nat) {
    forall b: nat :: PowerOfTwo(b) && b < l && npg / b % 2 == 1 ==> OneRun(ram, blk, root, o + npg % b, b)
  }

  lemma {:induction false} DecomposedKept(ram1: Ram, blk1: Blocks, ram2: Ram, blk2: Blocks, root: nat, o: nat, npg: nat, l: nat, hi: nat)
    requires Decomposed(ram1, blk1, root, o, npg, l) && PowerOfTwo(l)
    requires SameOutside(ram1, ram2, root, o + npg % l, hi) && o + npg % l <= VPNS
    requires forall p :: p in blk1 ==> p in blk2 && blk2[p] == blk1[p]
    ensures Decomposed(ram2, blk2, root, o, npg, l)
  {
    hide HwPte, PtePpn;
    forall b: nat | PowerOfTwo(b) && b < l && npg / b % 2 == 1 ensures OneRun(ram2, blk2, root, o + npg % b, b) {
      LowBitsGrow(npg, b, l);
      var v := o + npg % b;
      assert OneRun(ram1, blk1, root, v, b);
      forall w: nat | v <= w < v + b ensures HwPte(ram2, root, w) == HwPte(ram1, root, w) {}
    }
  }

  lemma {:induction false} DecomposedMore(ram1: Ram, blk1: Blocks, t1: Tables, ram2: Ram, blk2: Blocks, t2: Tables, root: nat,
                       o: nat, npg: nat, l: nat, h: nat, flags: nat, like: seq<Leaf>)
    requires Decomposed(ram1, blk1, root, o, npg, l) && PowerOfTwo(l) && npg / l % 2 == 1 && LeafFlags(flags)
    requires BlockStep(ram1, blk1, t1, ram2, blk2, t2, root, o + npg % l, l, h, flags, like) && o + npg % l + l <= VPNS
    ensures Decomposed(ram2, blk2, root, o, npg, 2 * l)
  {
    hide HwPte, PtePpn, MakePte, PteValid, PteIsDir, PteFlags, LeafFlags, OneRun;
    DecomposedKept(ram1, blk1, ram2, blk2, root, o, npg, l, o + npg % l + l);
    NewRun(ram1, blk1, t1, ram2, blk2, t2, root, o + npg % l, l, h, flags, like);
    forall b: nat | PowerOfTwo(b) && b < 2 * l && npg / b % 2 == 1 ensures OneRun(ram2, blk2, root, o + npg % b, b) {
      PowersApart(b, l);
    }
  }

  lemma {:induction false} NewRun(ram1: Ram, blk1: Blocks, t1: Tables, ram2: Ram, blk2: Blocks, t2: Tables, root: nat,
                       v: nat, l: nat, h: nat, flags: nat, like: seq<Leaf>)
    requires BlockStep(ram1, blk1, t1, ram2, blk2, t2, root, v, l, h, flags, like) && LeafFlags(flags)
    ensures OneRun(ram2, blk2, root, v, l)
  {
    hide HwPte, PtePpn, MakePte, PteValid, PteIsDir, PteFlags, PteUser;
    forall w: nat | v <= w < v + l ensures PtePpn(HwPte(ram2, root, w)) == h + w - v {
      assert HwPte(ram2, root, w) == MakePte(h + w - v, flags);
      PteParts(h + w - v, flags);
    }
    forall p | h <= p < h + l ensures p in blk2 && blk2[p] == h {
      assert LeafPage(blk2, t2, p);
    }
  }

  lemma {:induction false} DecomposedSkip(ram: Ram, blk: Blocks, root: nat, o: nat, npg: nat, l: nat)
    requires Decomposed(ram, blk, root, o, npg, l) && PowerOfTwo(l) && npg / l % 2 == 0
    ensures Decomposed(ram, blk, root, o, npg, 2 * l)
  {
    hide OneRun;
    forall b: nat | PowerOfTwo(b) && b < 2 * l && npg / b % 2 == 1 ensures OneRun(ram, blk, root, o + npg % b, b) {
      PowersApart(b, l);
    }
  }

  lemma DecomposedAll(ram: Ram, blk: Blocks, root: nat, o: nat, npg: nat, l: nat)
    requires Decomposed(ram, blk, root, o, npg, l) && npg < l
    ensures Decomposed(ram, blk, root, o, npg, npg + 1)
  {
    hide OneRun;
  }

  lemma NothingDecomposed(ram: Ram, blk: Blocks, root: nat, o: nat, npg: nat)
    ensures Decomposed(ram, blk, root, o, npg, 1)
  {}

  /** n zeroed pages with the same flags. */
  ghost function ZeroLeaves(n: nat, flags: nat): (s: seq<Leaf>)
    ensures |s| == n
  {
    seq(n, _ => Leaf(flags, ZeroPage()))
  }

  lemma ZeroLike(ram: Ram, h: nat, l: nat, npg: nat, has: nat, flags: nat)
    requires ZeroBlock(ram, h, l) && has + l <= npg
    ensures var like := ZeroLeaves(npg, flags)[has..has + l];
            forall p :: h <= p < h + l ==> like[p - h] == Leaf(flags, ram[p])
  {}

  lemma NothingStale(ram0: Ram, ram: Ram, blk: Blocks, root: nat, res: Residue)
    requires res.len == 0
    ensures Stale(ram0, ram, blk, root, res)
  {}

  /** Offset c begins a block of vm_alloc's decomposition of npg. */
  ghost predicate BlockStart(npg: nat, c: nat) {
    exists b: nat :: PowerOfTwo(b) && npg / b % 2 == 1 && c == npg % b
  }

  lemma {:induction false} LowBitsGrow(npg: nat, a: nat, b: nat)
    requires PowerOfTwo(a) && PowerOfTwo(b) && a <= b
    ensures npg % a <= npg % b
    ensures a < b && npg / a % 2 == 1 ==> npg % a + a <= npg % b
    decreases b
  {
    if a < b {
      assert b == 2 * (b / 2);
      NextBit(npg, b / 2);
      if a == b / 2 {
      } else {
        PowersApart(a, b / 2);
        LowBitsGrow(npg, a, b / 2);
      }
    }
  }

  lemma {:induction false} PowersApart(a: nat, b: nat)
    requires PowerOfTwo(a) && PowerOfTwo(b) && a < 2 * b
    ensures a <= b
    decreases b
  {
    if b > 1 && a > 1 { PowersApart(a / 2, b / 2); }
  }

  /** A failed vm_alloc that met a mapped page restores every translation exactly when
      that page begins a block of the decomposition. */
  lemma RestoredExactly(ram0: Ram, root: nat, o: nat, npg: nat, res: Residue)
    requires Explained(ram0, root, o, npg, res)
    ensures res.len == 0 <==> BlockStart(npg, res.start + res.len - o)
  {
    if res.len > 0 && BlockStart(npg, res.start + res.len - o) {
      var b: nat :| PowerOfTwo(b) && npg / b % 2 == 1 && res.start + res.len - o == npg % b;
      if b <= res.block { LowBitsGrow(npg, b, res.block); } else { LowBitsGrow(npg, res.block, b); }
    }
  }

  /** Over a range that was unmapped, vm_alloc is all or nothing. */
  lemma AtomicWhenUnmapped(ram0: Ram, root: nat, o: nat, npg: nat, res: Residue)
    requires RangeFree(ram0, root, o, npg)
    ensures !Explained(ram0, root, o, npg, res)
  {
    if PowerOfTwo(res.block) { NextBit(npg, res.block); }
  }

  /** The residue is real: growing by two pages over an unmapped page followed by a mapped one never succeeds,
      and unless the allocator refuses a request it fails and leaves the first page mapped to a frame that was handed back. */
  method ResidueExample(pt: PageTable, o: nat) returns (r: Outcome, ghost oom: bool)
    requires pt.Valid() && pt.Owned() && o + 2 <= VPNS
    requires !PteValid(HwPte(pt.mem.ram, pt.base, o)) && PteValid(HwPte(pt.mem.ram, pt.base, o + 1))
    modifies pt`tables, pt.mem
    ensures !r.Done? && (pt.mem.refused == old(pt.mem.refused) ==> r.Failed? && !oom)
    ensures r.Failed? && !oom ==> PteValid(HwPte(pt.mem.ram, pt.base, o)) && PtePpn(HwPte(pt.mem.ram, pt.base, o)) !in pt.mem.blk
    ensures !BlockStart(2, 1)
  {
    hide Tree, TablesOwned, LeavesOwned, HwPte, PteValid, PtePpn, Kept, TablesAdded, OnlyTablesNew, SameOutside, Grew, Decomposed;
    hide Consistent, PageNumbers, Explained, Stale, ZeroLeaves, AllocFlags, BlockStart;
    ghost var ram0, blk0, root := pt.mem.ram, pt.mem.blk, pt.base;
    var oldSz, newSz := o * PAGE_SIZE, (o + 2) * PAGE_SIZE;
    assert UpPages(oldSz) == o && UpPages(newSz) == o + 2;
    var size;
    ghost var res;
    r, size, oom, res := VmAlloc(pt, oldSz, newSz, false, false, true);
    if r.Done? {
      AllFresh(ram0, blk0, pt.mem.ram, pt.mem.blk, root, pt.tables, o, 2, ZeroLeaves(2, AllocFlags(false, false, true)), o + 1);
      assert false;
    }
    TwoPages(ram0, root, o);
    if r.Failed? && !oom {
      TwoPagesResidue(ram0, root, o, res);
      StaleAt(ram0, pt.mem.ram, pt.mem.blk, root, res, o);
    }
  }

  lemma StaleAt(ram0: Ram, ram: Ram, blk: Blocks, root: nat, res: Residue, w: nat)
    requires Stale(ram0, ram, blk, root, res) && res.start <= w < res.start + res.len
    ensures PteValid(HwPte(ram, root, w)) && PtePpn(HwPte(ram, root, w)) !in blk
  {
    assert StaleEntry(ram0, ram, blk, root, res.start, w);
  }

  lemma TwoPages(ram0: Ram, root: nat, o: nat)
    requires !PteValid(HwPte(ram0, root, o)) && PteValid(HwPte(ram0, root, o + 1))
    ensures !BlockStart(2, 1)
  {
    hide HwPte, PteValid;
    RestoredExactly(ram0, root, o, 2, Residue(o, 1, 2));
  }

  lemma TwoPagesResidue(ram0: Ram, root: nat, o: nat, res: Residue)
    requires Explained(ram0, root, o, 2, res) && !PteValid(HwPte(ram0, root, o))
    ensures res == Residue(o, 1, 2)
  {
    hide HwPte, PteValid;
    var b := res.block;
    if b > 2 { DivModUnique(2, b, 0, 2); }
  }
}
