/** The virtual memory manager: mapping and unmapping. */
module VirtualMemory {
  import opened PageAllocator
  import opened PhysicalMemory
  import opened PageTables
  import opened Sv39

  /** Failed is an error return; Panic stands for a call of log_panic, which never returns. */
  datatype Outcome = Done | Failed | Panic

  /** The physical pages behind n virtual pages from first on. */
  ghost function RangePpns(ram: Ram, root: nat, first: nat, n: nat): set<nat> {
    if n == 0 then {} else RangePpns(ram, root, first, n - 1) + {PtePpn(HwPte(ram, root, first + n - 1))}
  }

  lemma RangePpnsMember(ram: Ram, root: nat, first: nat, n: nat, p: nat)
    ensures p in RangePpns(ram, root, first, n) <==>
            exists v: nat :: first <= v < first + n && PtePpn(HwPte(ram, root, v)) == p
  {
    if n > 0 {
      RangePpnsMember(ram, root, first, n - 1, p);
    }
  }

  /** No two mapped pages of the range share a physical page. */
  ghost predicate DistinctPages(ram: Ram, root: nat, first: nat, n: nat) {
    forall v: nat, w: nat :: first <= v < w < first + n && PteValid(HwPte(ram, root, v)) && PteValid(HwPte(ram, root, w)) ==>
      PtePpn(HwPte(ram, root, v)) != PtePpn(HwPte(ram, root, w))
  }

  /** No page mapped outside the range belongs to a block that starts inside it. */
  ghost predicate WholeBlocks(ram: Ram, blk: Blocks, root: nat, first: nat, n: nat) {
    forall w: nat :: w < VPNS && !(first <= w < first + n) && HwPte(ram, root, w) != 0 ==>
      PtePpn(HwPte(ram, root, w)) in blk &&
      blk[PtePpn(HwPte(ram, root, w))] !in RangePpns(ram, root, first, n)
  }

  /** Every page mapped in the range is allocated and is no table page. */
  ghost predicate RangeOwned(ram: Ram, blk: Blocks, root: nat, tables: Tables, first: nat, n: nat) {
    forall v: nat :: first <= v < first + n && PteValid(HwPte(ram, root, v)) ==>
      LeafPage(blk, tables, PtePpn(HwPte(ram, root, v)))
  }

  lemma GrownLeafPage(ram: Ram, blk: Blocks, tables: Tables, ram': Ram, blk': Blocks, tables': Tables, p: nat)
    requires Grown(ram, blk, tables, ram', blk', tables') && LeafPage(blk, tables, p)
    ensures LeafPage(blk', tables', p)
  {}

  /** n pages from p on are allocated and no table pages. */
  ghost predicate LeafPages(blk: Blocks, tables: Tables, p: nat, n: nat) {
    forall q :: p <= q < p + n ==> LeafPage(blk, tables, q)
  }

  lemma LeafPageAt(blk: Blocks, tables: Tables, p: nat, n: nat, q: nat)
    requires LeafPages(blk, tables, p, n) && p <= q < p + n
    ensures LeafPage(blk, tables, q)
  {}

  /** Pages that a request for [va, va + size) touches. */
  function PageCount(va: nat, size: nat): (n: nat)
    requires size > 0
    ensures n > 0 && (va / PAGE_SIZE + n) * PAGE_SIZE >= va + size > (va / PAGE_SIZE + n - 1) * PAGE_SIZE
  {
    (va + size - 1) / PAGE_SIZE - va / PAGE_SIZE + 1
  }

  /** map_pages: maps the pages of [va, va + size) to consecutive physical pages,
      stopping at the first page that is already mapped; done counts the pages mapped. */
  method MapPages(pt: PageTable, va: nat, size: nat, pa: nat, flags: nat) returns (r: Outcome, ghost done: nat)
    requires pt.Valid() && size > 0 && va + size <= VPNS * PAGE_SIZE && LeafFlags(flags)
    requires pa / PAGE_SIZE + PageCount(va, size) <= PPNS
    modifies pt`tables, pt.mem
    ensures pt.Valid()
    ensures old(pt.Owned() && LeafPages(pt.mem.blk, pt.tables, pa / PAGE_SIZE, PageCount(va, size))) ==> pt.Owned()
    ensures Grown(old(pt.mem.ram), old(pt.mem.blk), old(pt.tables), pt.mem.ram, pt.mem.blk, pt.tables)
    ensures done <= PageCount(va, size) && (r.Done? <==> done == PageCount(va, size))
    ensures r.Failed? <==> done < PageCount(va, size) && PteValid(HwPte(old(pt.mem.ram), pt.base, va / PAGE_SIZE + done))
    ensures r.Panic? ==> pt.mem.Full()
    ensures pt.mem.refused == old(pt.mem.refused) + if r.Panic? then 1 else 0
    ensures SameOutside(old(pt.mem.ram), pt.mem.ram, pt.base, va / PAGE_SIZE, va / PAGE_SIZE + done)
    ensures FilledBy(old(pt.mem.ram), pt.mem.ram, pt.base, va / PAGE_SIZE, va / PAGE_SIZE + done, pa / PAGE_SIZE, flags)
  {
    hide Tree, TablesOwned, LeavesOwned, HwPte, DirsPresent, PteIsDir, PteValid, PtePpn, PageCount, SameOutside, FilledBy, Grown, LeafPage, LeafPages;
    ghost var first, n, ppn := va / PAGE_SIZE, PageCount(va, size), pa / PAGE_SIZE;
    ghost var owned := pt.Owned() && LeafPages(pt.mem.blk, pt.tables, ppn, n);
    var a, last, pa' := va - va % PAGE_SIZE, (va + size - 1) - (va + size - 1) % PAGE_SIZE, pa;
    done := 0;
    GrownReflexive(pt.mem.ram, pt.mem.blk, pt.tables);
    SameRefl(pt.mem.ram, pt.base, first);
    while true
      invariant 0 <= done < n && a == (first + done) * PAGE_SIZE && last == (first + n - 1) * PAGE_SIZE
      invariant pa' / PAGE_SIZE == ppn + done
      invariant pt.Valid() && (owned ==> pt.Owned()) && pt.mem.refused == old(pt.mem.refused)
      invariant Grown(old(pt.mem.ram), old(pt.mem.blk), old(pt.tables), pt.mem.ram, pt.mem.blk, pt.tables)
      invariant SameOutside(old(pt.mem.ram), pt.mem.ram, pt.base, first, first + done)
      invariant FilledBy(old(pt.mem.ram), pt.mem.ram, pt.base, first, first + done, ppn, flags)
      decreases n - done
    {
      label step:
      if owned {
        LeafPageAt(old(pt.mem.blk), old(pt.tables), ppn, n, ppn + done);
        GrownLeafPage(old(pt.mem.ram), old(pt.mem.blk), old(pt.tables), pt.mem.ram, pt.mem.blk, pt.tables, ppn + done);
      }
      r := MapOne(pt, a, pa', flags);
      GrownTransitive(old(pt.mem.ram), old(pt.mem.blk), old(pt.tables),
                      old@step(pt.mem.ram), old@step(pt.mem.blk), old@step(pt.tables), pt.mem.ram, pt.mem.blk, pt.tables);
      if r != Done {
        SameAfterNone(old(pt.mem.ram), old@step(pt.mem.ram), pt.mem.ram, pt.base, first, first + done, ppn, flags);
        return;
      }
      FillNext(old(pt.mem.ram), old@step(pt.mem.ram), pt.mem.ram, pt.base, first, first + done, first + done + 1, ppn, flags);
      done := done + 1;
      if a == last {
        return;
      }
      a := a + PAGE_SIZE;
      pa' := pa' + PAGE_SIZE;
    }
  }

  lemma SameAfterNone(ram0: Ram, ram1: Ram, ram2: Ram, root: nat, lo: nat, hi: nat, h: nat, flags: nat)
    requires SameOutside(ram0, ram1, root, lo, hi) && FilledBy(ram0, ram1, root, lo, hi, h, flags)
    requires SameOutside(ram1, ram2, root, 0, 0) && hi <= VPNS
    ensures SameOutside(ram0, ram2, root, lo, hi) && FilledBy(ram0, ram2, root, lo, hi, h, flags)
    ensures hi < VPNS ==> HwPte(ram1, root, hi) == HwPte(ram0, root, hi)
  {
    forall w: nat | lo <= w < hi
      ensures !PteValid(HwPte(ram0, root, w)) && HwPte(ram2, root, w) == MakePte(h + w - lo, flags)
    {
      assert HwPte(ram2, root, w) == HwPte(ram1, root, w);
    }
  }

  /** One round of the map_pages loop. */
  method MapOne(pt: PageTable, a: nat, pa: nat, flags: nat) returns (r: Outcome)
    requires pt.Valid() && a / PAGE_SIZE < VPNS && LeafFlags(flags)
    requires pa / PAGE_SIZE < PPNS
    modifies pt`tables, pt.mem
    ensures pt.Valid()
    ensures old(pt.Owned() && LeafPage(pt.mem.blk, pt.tables, pa / PAGE_SIZE)) ==> pt.Owned()
    ensures Grown(old(pt.mem.ram), old(pt.mem.blk), old(pt.tables), pt.mem.ram, pt.mem.blk, pt.tables)
    ensures r.Failed? <==> PteValid(HwPte(old(pt.mem.ram), pt.base, a / PAGE_SIZE))
    ensures r.Panic? ==> pt.mem.Full() && !DirsPresent(old(pt.mem.ram), pt.base, a / PAGE_SIZE)
    ensures pt.mem.refused == old(pt.mem.refused) + if r.Panic? then 1 else 0
    ensures r.Done? ==> SameOutside(old(pt.mem.ram), pt.mem.ram, pt.base, a / PAGE_SIZE, a / PAGE_SIZE + 1)
    ensures r.Done? ==> FilledBy(old(pt.mem.ram), pt.mem.ram, pt.base, a / PAGE_SIZE, a / PAGE_SIZE + 1, pa / PAGE_SIZE, flags)
    ensures !r.Done? ==> SameOutside(old(pt.mem.ram), pt.mem.ram, pt.base, 0, 0)
  {
    hide Tree, TablesOwned, LeavesOwned, HwPte, DirsPresent, PteIsDir, PteValid, PtePpn, PteSetData, MakePte, LeafEntry, LeafFlags, Grown, LeafPage;
    var slot := pt.Walk(a, true);
    if slot.Nothing? {
      AbsentIsUnmapped(old(pt.mem.ram), pt.base, a / PAGE_SIZE);
      return Panic;
    }
    if PteValid(Entry(pt.mem.ram, slot.value.page, slot.value.index)) {
      return Failed;
    }
    EntryFor(pa, flags);
    if old(LeafPage(pt.mem.blk, pt.tables, pa / PAGE_SIZE)) {
      GrownLeafPage(old(pt.mem.ram), old(pt.mem.blk), old(pt.tables), pt.mem.ram, pt.mem.blk, pt.tables, pa / PAGE_SIZE);
    }
    label write:
    pt.SetLeaf(a / PAGE_SIZE, slot.value, PteSetData(pa - pa % PAGE_SIZE + flags));
    GrownTransitive(old(pt.mem.ram), old(pt.mem.blk), old(pt.tables),
                    old@write(pt.mem.ram), old@write(pt.mem.blk), old@write(pt.tables), pt.mem.ram, pt.mem.blk, pt.tables);
    return Done;
  }

  /** The entry that map_pages writes. */
  lemma EntryFor(pa: nat, flags: nat)
    requires pa / PAGE_SIZE < PPNS && LeafFlags(flags)
    ensures var e := PteSetData(pa - pa % PAGE_SIZE + flags);
            LeafEntry(e) && e != 0 && e < 0x1_0000_0000_0000_0000 && e == MakePte(pa / PAGE_SIZE, flags) && PtePpn(e) == pa / PAGE_SIZE
  {
    hide PteSetData, MakePte, PtePpn;
    var a := pa - pa % PAGE_SIZE;
    assert a % PAGE_SIZE == 0 && a / PAGE_SIZE == pa / PAGE_SIZE;
    PteRoundTrip(a, flags);
  }

  /** What is left of the allocation state after the blocks that start in the range are freed. */
  ghost function AfterFree(ram: Ram, blk: Blocks, root: nat, first: nat, n: nat): Blocks {
    blk - BlocksOf(blk, RangePpns(ram, root, first, n))
  }

  lemma FreeNext(ram: Ram, blk: Blocks, root: nat, first: nat, n: nat)
    ensures var p := PtePpn(HwPte(ram, root, first + n));
            var b := AfterFree(ram, blk, root, first, n);
            b - BlockOf(b, p) == AfterFree(ram, blk, root, first, n + 1)
    ensures AfterFree(ram, blk, root, first, 0) == blk
    ensures RangePpns(ram, root, first, n + 1) == RangePpns(ram, root, first, n) + {PtePpn(HwPte(ram, root, first + n))}
  {
  }

  lemma TablesOutliveFree(blk: Blocks, spare: set<nat>, tables: Tables, p: nat)
    requires TablesOwned(blk, tables) && p !in tables.Values
    ensures forall blk', spare' :: Freed(blk, spare, p, blk', spare') ==> TablesOwned(blk', tables)
  {
    forall q | q in tables ensures OneBlock(blk - BlockOf(blk, p), tables[q]) {
      assert OneBlock(blk, tables[q]) && tables[q] in tables.Values;
    }
  }

  /** The page behind entry e may be handed back: it is no table page and its block
      was not yet freed by this call. */
  lemma MayFree(ram: Ram, blk: Blocks, spare: set<nat>, root: nat, tables: Tables, first: nat, n: nat, i: nat, spare': set<nat>)
    requires RangeOwned(ram, blk, root, tables, first, n) && Consistent(ram.Keys, blk, spare)
    requires i < n && first + n <= VPNS && DistinctPages(ram, root, first, n)
    requires forall v: nat :: first <= v < first + i ==> PteValid(HwPte(ram, root, v))
    requires PteValid(HwPte(ram, root, first + i))
    requires spare' <= spare + RangePpns(ram, root, first, i)
    ensures var p := PtePpn(HwPte(ram, root, first + i));
            p in ram && p !in spare' && p !in tables.Values
  {
    var p := PtePpn(HwPte(ram, root, first + i));
    assert LeafPage(blk, tables, p);
    RangePpnsMember(ram, root, first, i, p);
  }

  /** If ownership survives freeing a range, no block that starts in it had a page mapped outside. */
  lemma {:induction false} UntornBlocks(ram: Ram, blk: Blocks, ram': Ram, blk': Blocks, root: nat, tables: Tables, first: nat, n: nat)
    requires Tree(ram, root, tables) && Tree(ram', root, tables) && LeavesOwned(ram, blk, tables) && LeavesOwned(ram', blk', tables)
    requires SameOutside(ram, ram', root, first, first + n) && blk' == AfterFree(ram, blk, root, first, n)
    ensures WholeBlocks(ram, blk, root, first, n)
  {
    hide Tree, HwPte, PtePpn, PteOf, RangePpns;
    forall w: nat | w < VPNS && !(first <= w < first + n) && HwPte(ram, root, w) != 0
      ensures PtePpn(HwPte(ram, root, w)) in blk && blk[PtePpn(HwPte(ram, root, w))] !in RangePpns(ram, root, first, n)
    {
      HardwareSeesTree(ram, root, tables, w);
      HardwareSeesTree(ram', root, tables, w);
      assert LeafPage(blk, tables, PtePpn(PteOf(ram, tables, w)));
      assert LeafPage(blk', tables, PtePpn(PteOf(ram', tables, w)));
    }
  }

  /** Ownership survives exactly if no block is torn. */
  lemma UnmapKeepsOwned(ram: Ram, blk: Blocks, ram': Ram, blk': Blocks, root: nat, tables: Tables, first: nat, n: nat, doFree: bool)
    requires Tree(ram, root, tables) && Tree(ram', root, tables)
    requires SameOutside(ram, ram', root, first, first + n) && Cleared(ram, ram', root, first, first + n)
    requires blk' == if doFree then AfterFree(ram, blk, root, first, n) else blk
    ensures LeavesOwned(ram, blk, tables) ==>
              (LeavesOwned(ram', blk', tables) <==> (doFree ==> WholeBlocks(ram, blk, root, first, n)))
  {
    if LeavesOwned(ram, blk, tables) && LeavesOwned(ram', blk', tables) && doFree {
      UntornBlocks(ram, blk, ram', blk', root, tables, first, n);
    }
    if LeavesOwned(ram, blk, tables) && (doFree ==> WholeBlocks(ram, blk, root, first, n)) {
      forall v: nat | v < VPNS && PteOf(ram', tables, v) != 0
        ensures LeafPage(blk', tables, PtePpn(PteOf(ram', tables, v)))
      {
        HardwareSeesTree(ram, root, tables, v);
        HardwareSeesTree(ram', root, tables, v);
        assert LeafPage(blk, tables, PtePpn(PteOf(ram, tables, v)));
      }
    }
  }

  /** vm_unmap: clears the leaf entries of npages pages from va on and, if doFree, hands
      their pages back; panics at the first page that is not mapped. */
  method VmUnmap(pt: PageTable, va: nat, npages: nat, doFree: bool) returns (r: Outcome, ghost done: nat)
    requires pt.Valid() && va % PAGE_SIZE == 0 && va / PAGE_SIZE + npages <= VPNS
    requires doFree ==> RangeOwned(pt.mem.ram, pt.mem.blk, pt.base, pt.tables, va / PAGE_SIZE, npages)
                        && DistinctPages(pt.mem.ram, pt.base, va / PAGE_SIZE, npages)
    modifies pt`tables, pt.mem
    ensures pt.Valid() && pt.tables == old(pt.tables) && pt.mem.ram.Keys == old(pt.mem.ram.Keys)
    ensures done <= npages && (r.Done? <==> done == npages) && !r.Failed?
    ensures r.Panic? ==> !PteValid(HwPte(old(pt.mem.ram), pt.base, va / PAGE_SIZE + done))
    ensures SameOutside(old(pt.mem.ram), pt.mem.ram, pt.base, va / PAGE_SIZE, va / PAGE_SIZE + done)
    ensures Cleared(old(pt.mem.ram), pt.mem.ram, pt.base, va / PAGE_SIZE, va / PAGE_SIZE + done)
    ensures pt.mem.blk == if doFree then AfterFree(old(pt.mem.ram), old(pt.mem.blk), pt.base, va / PAGE_SIZE, done)
                          else old(pt.mem.blk)
    ensures forall p :: p in pt.mem.ram && p !in pt.tables.Values ==> pt.mem.ram[p] == old(pt.mem.ram[p])
    ensures pt.mem.refused == old(pt.mem.refused)
    ensures r.Done? && old(pt.Owned()) ==>
              (pt.Owned() <==> (doFree ==> old(WholeBlocks(pt.mem.ram, pt.mem.blk, pt.base, va / PAGE_SIZE, npages))))
  {
    hide Tree, TablesOwned, LeavesOwned, HwPte, DirsPresent, DistinctPages, RangeOwned, RangePpns, AfterFree, WholeBlocks, Consistent, PageNumbers;
    hide PteValid, PtePpn, PteIsDir;
    ghost var first := va / PAGE_SIZE;
    ghost var ram0, blk0, spare0 := pt.mem.ram, pt.mem.blk, pt.mem.spare;
    FreeNext(ram0, blk0, pt.base, first, 0);
    SameRefl(ram0, pt.base, first);
    var a := va;
    done := 0;
    while a < va + npages * PAGE_SIZE
      invariant done <= npages && a == (first + done) * PAGE_SIZE
      invariant pt.Valid() && pt.tables == old(pt.tables) && pt.mem.ram.Keys == ram0.Keys && pt.mem.refused == old(pt.mem.refused)
      invariant SameOutside(ram0, pt.mem.ram, pt.base, first, first + done)
      invariant Cleared(ram0, pt.mem.ram, pt.base, first, first + done)
      invariant pt.mem.blk == if doFree then AfterFree(ram0, blk0, pt.base, first, done) else blk0
      invariant pt.mem.spare <= spare0 + RangePpns(ram0, pt.base, first, done)
      invariant forall p :: p in pt.mem.ram && p !in pt.tables.Values ==> pt.mem.ram[p] == ram0[p]
    {
      FreeNext(ram0, blk0, pt.base, first, done);
      assert HwPte(pt.mem.ram, pt.base, first + done) == HwPte(ram0, pt.base, first + done);
      if doFree && PteValid(HwPte(ram0, pt.base, first + done)) {
        MayFree(ram0, blk0, spare0, pt.base, pt.tables, first, npages, done, pt.mem.spare);
      }
      ghost var ram1 := pt.mem.ram;
      r := UnmapOne(pt, a, doFree);
      if r != Done {
        return;
      }
      ClearNext(ram0, ram1, pt.mem.ram, pt.base, first, first + done, first + done + 1);
      a := a + PAGE_SIZE;
      done := done + 1;
    }
    r := Done;
    assert done == npages;
    UnmapKeepsOwned(ram0, blk0, pt.mem.ram, pt.mem.blk, pt.base, pt.tables, first, npages, doFree);
  }

  /** One round of the vm_unmap loop. */
  method UnmapOne(pt: PageTable, a: nat, doFree: bool) returns (r: Outcome)
    requires pt.Valid() && a / PAGE_SIZE < VPNS
    requires doFree && PteValid(HwPte(pt.mem.ram, pt.base, a / PAGE_SIZE)) ==>
               var p := PtePpn(HwPte(pt.mem.ram, pt.base, a / PAGE_SIZE)); p in pt.mem.ram && p !in pt.mem.spare && p !in pt.tables.Values
    modifies pt`tables, pt.mem
    ensures pt.Valid() && pt.tables == old(pt.tables) && pt.mem.ram.Keys == old(pt.mem.ram.Keys)
    ensures r == if PteValid(HwPte(old(pt.mem.ram), pt.base, a / PAGE_SIZE)) then Done else Panic
    ensures r.Done? ==> SameOutside(old(pt.mem.ram), pt.mem.ram, pt.base, a / PAGE_SIZE, a / PAGE_SIZE + 1)
    ensures r.Done? ==> Cleared(old(pt.mem.ram), pt.mem.ram, pt.base, a / PAGE_SIZE, a / PAGE_SIZE + 1)
    ensures doFree && r.Done? ==>
              Freed(old(pt.mem.blk), old(pt.mem.spare), PtePpn(HwPte(old(pt.mem.ram), pt.base, a / PAGE_SIZE)),
                    pt.mem.blk, pt.mem.spare)
    ensures !doFree || !r.Done? ==> pt.mem.blk == old(pt.mem.blk) && pt.mem.spare == old(pt.mem.spare)
    ensures !r.Done? ==> pt.mem.ram == old(pt.mem.ram)
    ensures pt.mem.refused == old(pt.mem.refused)
    ensures forall p :: p in pt.mem.ram && p !in pt.tables.Values ==> pt.mem.ram[p] == old(pt.mem.ram[p])
  {
    hide Tree, TablesOwned, LeavesOwned, HwPte, DirsPresent, PteValid, PtePpn, PteIsDir, Consistent, PageNumbers, Freed;
    var slot := pt.Walk(a, false);
    if slot.Nothing? {
      AbsentIsUnmapped(pt.mem.ram, pt.base, a / PAGE_SIZE);
      return Panic;
    }
    var e := Entry(pt.mem.ram, slot.value.page, slot.value.index);
    if !PteValid(e) {
      return Panic;
    }
    LeafIsNotDir(e);
    if PteIsDir(e) {
      assert false;  // the third panic of the loop cannot be reached
    }
    if doFree {
      TablesOutliveFree(pt.mem.blk, pt.mem.spare, pt.tables, PtePpn(e));
      pt.mem.FreePages(PtePpn(e));
    }
    pt.SetLeaf(a / PAGE_SIZE, slot.value, 0);
    return Done;
  }

  lemma AbsentIsUnmapped(ram: Ram, root: nat, v: nat)
    requires !DirsPresent(ram, root, v)
    ensures HwPte(ram, root, v) == 0 && !PteValid(0)
  {}

  lemma LeafIsNotDir(e: nat)
    requires LeafEntry(e) && PteValid(e)
    ensures !PteIsDir(e)
  {}
}
