/** Copying an address space for fork. */
module Fork {
  import opened Arith
  import opened AddressSpace
  import opened PageAllocator
  import opened PhysicalMemory
  import opened PageTables
  import opened Sv39
  import opened VirtualMemory

  /** All physical pages that an address space uses: its tables and what it maps. */
  ghost function Footprint(ram: Ram, root: nat, tables: Tables): set<nat> {
    tables.Values + set v: nat | v < VPNS && PteValid(HwPte(ram, root, v)) :: PtePpn(HwPte(ram, root, v))
  }

  /** Two address spaces share no physical page. */
  ghost predicate Isolated(ram: Ram, root: nat, tables: Tables, root': nat, tables': Tables) {
    Footprint(ram, root, tables) !! Footprint(ram, root', tables')
  }

  lemma FootprintOwned(ram: Ram, blk: Blocks, root: nat, tables: Tables)
    requires Tree(ram, root, tables) && TablesOwned(blk, tables) && LeavesOwned(ram, blk, tables)
    ensures Footprint(ram, root, tables) <= blk.Keys
  {
    forall p | p in Footprint(ram, root, tables) ensures p in blk {
      if p in tables.Values {
        var q :| q in tables && tables[q] == p;
        assert OneBlock(blk, tables[q]);
      } else {
        var v: nat :| v < VPNS && PteValid(HwPte(ram, root, v)) && PtePpn(HwPte(ram, root, v)) == p;
        HardwareSeesTree(ram, root, tables, v);
        assert LeafPage(blk, tables, p);
      }
    }
  }

  /** The own tree, its ownership and its translations survive whatever another address
      space does, as long as that touches only its own tables and free pages. */
  lemma BystanderKept(ram: Ram, blk: Blocks, root: nat, tables: Tables, other: Tables, ram': Ram, blk': Blocks)
    requires Tree(ram, root, tables) && TablesOwned(blk, tables) && LeavesOwned(ram, blk, tables)
    requires tables.Values !! other.Values && Kept(ram, blk, other, ram', blk')
    requires forall p :: p in blk' && p !in blk ==> blk'[p] !in blk
    ensures Tree(ram', root, tables) && TablesOwned(blk', tables) && LeavesOwned(ram', blk', tables)
    ensures SameOutside(ram, ram', root, 0, 0)
    ensures Footprint(ram', root, tables) == Footprint(ram, root, tables)
  {
    forall q | q in tables
      ensures OneBlock(blk', tables[q]) && tables[q] in ram' && ram'[tables[q]] == ram[tables[q]]
    {
      assert OneBlock(blk, tables[q]) && tables[q] in tables.Values;
    }
    TreeFrame(ram, ram', root, tables);
    AllHardware(ram, root, tables);
    AllHardware(ram', root, tables);
    forall v: nat | v < VPNS && PteOf(ram', tables, v) != 0
      ensures LeafPage(blk', tables, PtePpn(PteOf(ram', tables, v)))
    {
      assert LeafPage(blk, tables, PtePpn(PteOf(ram, tables, v)));
    }
    assert SameOutside(ram, ram', root, 0, 0);
  }

  /** Growing with free pages only cannot break isolation. */
  lemma IsolationKept(ram: Ram, blk: Blocks, ram': Ram, root: nat, tables: Tables, root': nat, tables0: Tables, tables': Tables)
    requires Isolated(ram, root, tables, root', tables0) && Footprint(ram, root, tables) <= blk.Keys
    requires Footprint(ram', root, tables) == Footprint(ram, root, tables)
    requires forall p :: p in Footprint(ram', root', tables') ==> p in Footprint(ram, root', tables0) || p !in blk
    ensures Isolated(ram', root, tables, root', tables')
  {}

  // --------------------------------------------------------------- vm_copy

  /** What page v of an address space looks like: flags and contents. */
  ghost function LeafOf(ram: Ram, root: nat, v: nat): Leaf {
    var e := HwPte(ram, root, v);
    Leaf(PteFlags(e), if PtePpn(e) in ram then ram[PtePpn(e)] else ZeroPage())
  }

  ghost function LeavesOf(ram: Ram, root: nat, first: nat, n: nat): (s: seq<Leaf>)
    ensures |s| == n && forall i :: 0 <= i < n ==> s[i] == LeafOf(ram, root, first + i)
  {
    seq(n, i requires 0 <= i < n => LeafOf(ram, root, first + i))
  }

  lemma LowBits(k: nat, d: nat)
    ensures (1024 * k + d) % 2 == d % 2 && (1024 * k + d) % 16 == d % 16
    ensures (1024 * k + d) / 16 % 2 == d / 16 % 2
  {
    DivModUnique(64 * k + d / 16, 2, 32 * k + d / 16 / 2, d / 16 % 2);
    DivModUnique(1024 * k + d, 2, 512 * k + d / 2, d % 2);
    DivModUnique(1024 * k + d, 16, 64 * k + d / 16, d % 16);
  }

  lemma FlagsOfLeaf(e: nat)
    requires LeafEntry(e) && PteValid(e)
    ensures LeafFlags(PteFlags(e))
  {
    LowBits(e / 1024, e % 1024);
  }

  /** A page taken from the allocator and filled is visible in no tree. */
  lemma StoreFresh(ram: Ram, blk: Blocks, root: nat, tables: Tables, h: nat, data: Page)
    requires Tree(ram, root, tables) && TablesOwned(blk, tables) && LeavesOwned(ram, blk, tables)
    requires h in ram && h !in blk
    ensures var ram', blk' := ram[h := data], blk[h := h];
            && Tree(ram', root, tables) && TablesOwned(blk', tables) && LeavesOwned(ram', blk', tables)
            && SameOutside(ram, ram', root, 0, 0) && Kept(ram, blk, tables, ram', blk') && LeafPage(blk', tables, h)
  {
    var ram', blk' := ram[h := data], blk[h := h];
    forall q | q in tables ensures OneBlock(blk', tables[q]) && ram'[tables[q]] == ram[tables[q]] && tables[q] != h {
      assert OneBlock(blk, tables[q]);
    }
    TreeFrame(ram, ram', root, tables);
    AllHardware(ram, root, tables);
    AllHardware(ram', root, tables);
    forall v: nat | v < VPNS && PteOf(ram', tables, v) != 0
      ensures LeafPage(blk', tables, PtePpn(PteOf(ram', tables, v)))
    {
      assert LeafPage(blk, tables, PtePpn(PteOf(ram, tables, v)));
    }
  }

  lemma AfterCopy(ram: Ram, blk: Blocks, t: Tables, h: nat, data: Page, ram': Ram, blk': Blocks, t': Tables)
    requires h in ram && h !in blk && LeafPage(blk[h := h], t, h)
    requires Grown(ram[h := data], blk[h := h], t, ram', blk', t')
    ensures FreshBlock(blk, ram', blk', t', h, 1) && ram'[h] == data && h in blk' && h !in t'.Values
    ensures Kept(ram, blk, t, ram', blk') && TablesAdded(blk, t, t')
  {}

  /** The outcome of copying n pages when the allocator refuses nothing: decided by the first page that the parent does not map
      or the child maps already. */
  ghost function CopyVerdict(ram: Ram, root: nat, root': nat, first: nat, n: nat): Outcome {
    if n == 0 then Done
    else
      var before := CopyVerdict(ram, root, root', first, n - 1);
      if before != Done then before
      else if !PteValid(HwPte(ram, root, first + n - 1)) then Panic
      else if PteValid(HwPte(ram, root', first + n - 1)) then Failed
      else Done
  }

  lemma {:induction false} VerdictStands(ram: Ram, root: nat, root': nat, first: nat, k: nat, n: nat)
    requires k <= n && CopyVerdict(ram, root, root', first, k) != Done
    ensures CopyVerdict(ram, root, root', first, n) == CopyVerdict(ram, root, root', first, k)
  {
    hide HwPte, PteValid;
    if k < n { VerdictStands(ram, root, root', first, k, n - 1); }
  }

  /** A copy can succeed exactly if the parent maps the whole range and the child nothing of it. */
  lemma {:induction false} VerdictMeans(ram: Ram, root: nat, root': nat, first: nat, n: nat)
    ensures CopyVerdict(ram, root, root', first, n).Done? <==>
            RangeFree(ram, root', first, n) && forall v: nat :: first <= v < first + n ==> PteValid(HwPte(ram, root, v))
  {
    hide HwPte, PteValid;
    if n > 0 { VerdictMeans(ram, root, root', first, n - 1); }
  }

  /** One round of vm_copy's loop: duplicate the page that parent maps at va. */
  method CopyOne(parent: PageTable, child: PageTable, va: nat) returns (r: Outcome, ghost h: nat)
    requires parent != child && parent.mem == child.mem && parent.Valid() && parent.Owned() && child.Valid() && child.Owned()
    requires va % PAGE_SIZE == 0 && va / PAGE_SIZE < VPNS
    modifies parent`tables, child`tables, child.mem
    ensures parent.tables == old(parent.tables) && child.Valid() && child.Owned()
    ensures Kept(old(child.mem.ram), old(child.mem.blk), old(child.tables), child.mem.ram, child.mem.blk)
    ensures TablesAdded(old(child.mem.blk), old(child.tables), child.tables)
    ensures r.Done? ==> PteValid(HwPte(old(child.mem.ram), parent.base, va / PAGE_SIZE))
    ensures r.Done? ==> LeafFlags(PteFlags(HwPte(old(child.mem.ram), parent.base, va / PAGE_SIZE)))
    ensures r.Done? ==> BlockStep(old(child.mem.ram), old(child.mem.blk), old(child.tables), child.mem.ram, child.mem.blk, child.tables,
                                  child.base, va / PAGE_SIZE, 1, h, PteFlags(HwPte(old(child.mem.ram), parent.base, va / PAGE_SIZE)),
                                  [LeafOf(old(child.mem.ram), parent.base, va / PAGE_SIZE)])
    ensures r.Failed? ==> OnlyTablesNew(old(child.mem.blk), child.mem.blk, child.tables)
    ensures r.Failed? ==> SameOutside(old(child.mem.ram), child.mem.ram, child.base, 0, 0)
    ensures old(child.mem.refused) <= child.mem.refused && (r.Done? ==> child.mem.refused == old(child.mem.refused))
    ensures !PteValid(HwPte(old(child.mem.ram), parent.base, va / PAGE_SIZE)) ==> child.mem.refused == old(child.mem.refused)
    ensures child.mem.refused == old(child.mem.refused) ==>
              r == if !PteValid(HwPte(old(child.mem.ram), parent.base, va / PAGE_SIZE)) then Panic
                   else if PteValid(HwPte(old(child.mem.ram), child.base, va / PAGE_SIZE)) then Failed else Done
    ensures old(child.mem.Full()) && PteValid(HwPte(old(child.mem.ram), parent.base, va / PAGE_SIZE)) ==> r.Failed?
    ensures r.Panic? ==> !PteValid(HwPte(old(child.mem.ram), parent.base, va / PAGE_SIZE)) || child.mem.Full()
  {
    hide Tree, TablesOwned, LeavesOwned, HwPte, DirsPresent, Consistent, PageNumbers, PteValid, PtePpn, PteFlags, PteIsDir, Kept, Freed, Grown;
    hide FreshBlock, OnlyTablesNew, TablesAdded, SameOutside, FilledBy, LeafPage, LeafFlags;
    h := 0;
    var mem := child.mem;
    ghost var ram0, blk0, spare0, t0, v := mem.ram, mem.blk, mem.spare, child.tables, va / PAGE_SIZE;
    KeptReflexive(ram0, blk0, t0, child.base);
    var slot := parent.Walk(va, false);
    if slot.Nothing? {
      AbsentIsUnmapped(ram0, parent.base, v);
      return Panic, h;
    }
    var e := Entry(mem.ram, slot.value.page, slot.value.index);
    if !PteValid(e) {
      return Panic, h;
    }
    FlagsOfLeaf(e);
    ParentPage(ram0, blk0, mem.spare, parent.base, parent.tables, v);
    var flags := PteFlags(e);
    var page := mem.AllocPage();
    if page.Nothing? {
      return Failed, h;
    }
    h := page.value;
    ghost var data := ram0[PtePpn(e)];
    mem.ram := mem.ram[page.value := mem.ram[PtePpn(e)]];
    assert mem.ram == ram0[h := data];
    StoreFresh(ram0, blk0, child.base, t0, h, data);
    FrameFits(mem.ram.Keys, h);
    assert child.Valid();
    r := MapCopy(child, va, page.value, flags, ram0, blk0, spare0, data);
  }

  /** The second half of the round: map the filled page, or hand it back. */
  method MapCopy(child: PageTable, va: nat, h: nat, flags: nat, ghost ram0: Ram, ghost blk0: Blocks, ghost spare0: set<nat>, ghost data: Page)
      returns (r: Outcome)
    requires child.Valid() && child.Owned() && h in ram0 && h !in blk0 && h < PPNS
    requires child.mem.ram == ram0[h := data] && child.mem.blk == blk0[h := h] && LeafPage(child.mem.blk, child.tables, h)
    requires Tree(ram0, child.base, child.tables) && LeavesOwned(ram0, blk0, child.tables) && Consistent(ram0.Keys, blk0, spare0)
    requires SameOutside(ram0, child.mem.ram, child.base, 0, 0)
    requires va % PAGE_SIZE == 0 && va / PAGE_SIZE < VPNS && LeafFlags(flags)
    modifies child`tables, child.mem
    ensures child.Valid() && child.Owned()
    ensures Kept(ram0, blk0, old(child.tables), child.mem.ram, child.mem.blk) && TablesAdded(blk0, old(child.tables), child.tables)
    ensures r.Done? ==> BlockStep(ram0, blk0, old(child.tables), child.mem.ram, child.mem.blk, child.tables,
                                  child.base, va / PAGE_SIZE, 1, h, flags, [Leaf(flags, data)])
    ensures r.Failed? ==> OnlyTablesNew(blk0, child.mem.blk, child.tables) && SameOutside(ram0, child.mem.ram, child.base, 0, 0)
    ensures child.mem.refused == old(child.mem.refused) + if r.Panic? then 1 else 0
    ensures r.Panic? ==> child.mem.Full()
    ensures r.Failed? <==> PteValid(HwPte(ram0, child.base, va / PAGE_SIZE))
  {
    hide Tree, TablesOwned, LeavesOwned, HwPte, DirsPresent, Consistent, PageNumbers, PteValid, PtePpn, PteFlags, PteIsDir, Kept, Freed, Grown;
    hide FreshBlock, OnlyTablesNew, TablesAdded, SameOutside, FilledBy, LeafPage, LeafFlags;
    var mem := child.mem;
    ghost var t0, v := child.tables, va / PAGE_SIZE;
    ghost var done;
    OnePage(va, h);
    OneLeafPage(mem.blk, child.tables, h);
    SameAt(ram0, mem.ram, child.base, v);
    r, done := MapPages(child, va, PAGE_SIZE, h * PAGE_SIZE, flags);
    AfterCopy(ram0, blk0, t0, h, data, mem.ram, mem.blk, child.tables);
    FillAfter(ram0, ram0[h := data], mem.ram, child.base, v, v + done, h, flags);
    if r.Failed? {
      ghost var blk1, spare1 := mem.blk, mem.spare;
      NotSpare(mem.ram.Keys, mem.blk, mem.spare, h);
      TablesOutliveFree(blk1, spare1, child.tables, h);
      mem.FreePages(h);
      UndoBlock(ram0, blk0, t0, spare0, mem.ram, blk1, spare1, child.tables, h, 1, mem.blk, mem.spare);
      SameNowhere(ram0, mem.ram, child.base, v);
      RestoredOwned(ram0, blk0, child.base, t0, mem.ram, mem.blk, child.tables);
    }
  }

  lemma FrameFits(pages: set<nat>, p: nat)
    requires PageNumbers(pages) && p in pages
    ensures p < PPNS
  {}

  lemma OneLeafPage(blk: Blocks, tables: Tables, p: nat)
    requires LeafPage(blk, tables, p)
    ensures LeafPages(blk, tables, p, 1)
  {}

  lemma OnePage(va: nat, h: nat)
    requires va % PAGE_SIZE == 0
    ensures PageCount(va, PAGE_SIZE) == 1 && h * PAGE_SIZE / PAGE_SIZE == h
  {}

  lemma ParentPage(ram: Ram, blk: Blocks, spare: set<nat>, root: nat, tables: Tables, v: nat)
    requires Tree(ram, root, tables) && LeavesOwned(ram, blk, tables) && Consistent(ram.Keys, blk, spare)
    requires v < VPNS && PteValid(HwPte(ram, root, v))
    ensures PtePpn(HwPte(ram, root, v)) in ram && PtePpn(HwPte(ram, root, v)) in blk
  {
    HardwareSeesTree(ram, root, tables, v);
    assert LeafPage(blk, tables, PtePpn(PteOf(ram, tables, v)));
  }

  /** Whatever the child gained on free pages, the parent is as it was. */
  lemma {:induction false} ParentKept(ram0: Ram, blk0: Blocks, root: nat, tables: Tables, root': nat, t0: Tables,
                   ram: Ram, blk: Blocks, t: Tables, o: nat, n: nat, like: seq<Leaf>)
    requires Tree(ram0, root, tables) && TablesOwned(blk0, tables) && LeavesOwned(ram0, blk0, tables)
    requires Isolated(ram0, root, tables, root', t0) && TablesOwned(blk, t)
    requires Kept(ram0, blk0, t0, ram, blk) && TablesAdded(blk0, t0, t) && Grew(ram0, blk0, ram, blk, root', t, o, n, like)
    ensures Tree(ram, root, tables) && TablesOwned(blk, tables) && LeavesOwned(ram, blk, tables)
    ensures SameOutside(ram0, ram, root, 0, 0) && Footprint(ram, root, tables) == Footprint(ram0, root, tables)
  {
    hide Tree, LeavesOwned, HwPte, PtePpn, PteValid;
    forall p | p in blk && p !in blk0 ensures blk[p] !in blk0 {
      if p in t.Values {
        var q :| q in t && t[q] == p;
        assert OneBlock(blk, t[q]);
      } else if blk[p] in blk0 {
        RangeIsFresh(ram0, blk0, ram, blk, root', t, o, n, like, blk[p]);
      }
    }
    BystanderKept(ram0, blk0, root, tables, t0, ram, blk);
  }

  /** The copied pages of the parent, seen later. */
  lemma LeafKept(ram0: Ram, blk0: Blocks, spare0: set<nat>, root: nat, tables: Tables, root': nat, t0: Tables, ram: Ram, blk: Blocks, v: nat)
    requires Tree(ram0, root, tables) && LeavesOwned(ram0, blk0, tables) && Consistent(ram0.Keys, blk0, spare0)
    requires Isolated(ram0, root, tables, root', t0) && Kept(ram0, blk0, t0, ram, blk)
    requires SameOutside(ram0, ram, root, 0, 0) && v < VPNS && PteValid(HwPte(ram, root, v))
    ensures LeafOf(ram, root, v) == LeafOf(ram0, root, v)
  {
    hide Tree, LeavesOwned, HwPte, PtePpn, PteFlags;
    assert HwPte(ram, root, v) == HwPte(ram0, root, v);
    ParentPage(ram0, blk0, spare0, root, tables, v);
    assert PtePpn(HwPte(ram0, root, v)) in Footprint(ram0, root, tables);
  }

  /** A child that grew on free pages shares none with the parent. */
  lemma {:induction false} StillIsolated(ram0: Ram, blk0: Blocks, root: nat, tables: Tables, root': nat, t0: Tables,
                      ram: Ram, blk: Blocks, t: Tables, o: nat, n: nat, like: seq<Leaf>)
    requires Isolated(ram0, root, tables, root', t0) && Footprint(ram0, root, tables) <= blk0.Keys
    requires Footprint(ram, root, tables) == Footprint(ram0, root, tables) && TablesAdded(blk0, t0, t)
    requires SameOutside(ram0, ram, root', o, o + n) && Grew(ram0, blk0, ram, blk, root', t, o, n, like)
    ensures Isolated(ram, root, tables, root', t)
  {
    hide HwPte, PtePpn, PteValid;
    forall p | p in Footprint(ram, root', t) ensures p in Footprint(ram0, root', t0) || p !in blk0 {
      if p !in t.Values {
        var v: nat :| v < VPNS && PteValid(HwPte(ram, root', v)) && PtePpn(HwPte(ram, root', v)) == p;
        if o <= v < o + n {
          assert FreshMapping(ram0, blk0, ram, root', o, like, v);
        } else {
          assert HwPte(ram, root', v) == HwPte(ram0, root', v);
        }
      }
    }
    IsolationKept(ram0, blk0, ram, root, tables, root', t0, t);
  }

  /** Removes the n pages that a failed copy had added. */
  method UndoCopies(child: PageTable, first: nat, n: nat, ghost like: seq<Leaf>, ghost ram0: Ram, ghost blk0: Blocks,
                    ghost spare0: set<nat>, ghost t0: Tables)
    requires child.Valid() && first + n <= VPNS && Tree(ram0, child.base, t0) && Consistent(ram0.Keys, blk0, spare0)
    requires LeavesOwned(ram0, blk0, t0)
    requires Kept(ram0, blk0, t0, child.mem.ram, child.mem.blk) && TablesAdded(blk0, t0, child.tables)
    requires Grew(ram0, blk0, child.mem.ram, child.mem.blk, child.base, child.tables, first, n, like)
    requires RangeOwned(child.mem.ram, child.mem.blk, child.base, child.tables, first, n)
    requires SameOutside(ram0, child.mem.ram, child.base, first, first + n)
    modifies child`tables, child.mem
    ensures child.Valid() && child.Owned() && child.tables == old(child.tables)
    ensures Kept(ram0, blk0, t0, child.mem.ram, child.mem.blk) && OnlyTablesNew(blk0, child.mem.blk, child.tables)
    ensures SameOutside(ram0, child.mem.ram, child.base, 0, 0) && child.mem.refused == old(child.mem.refused)
  {
    hide Tree, TablesOwned, LeavesOwned, RangeOwned, HwPte, PteValid, AfterFree, Kept, TablesAdded, OnlyTablesNew, SameOutside, Cleared;
    hide FreshMapping, Consistent, PageNumbers, WholeBlocks;
    ghost var ram2, blk2 := child.mem.ram, child.mem.blk;
    assert first * PAGE_SIZE / PAGE_SIZE == first;
    var r;
    ghost var done;
    r, done := VmUnmap(child, first * PAGE_SIZE, n, true);
    if done < n {
      AllFresh(ram0, blk0, ram2, blk2, child.base, child.tables, first, n, like, first + done);
      assert false;
    }
    Rollback(ram0, blk0, spare0, t0, ram2, blk2, child.tables, child.mem.ram, child.mem.blk, child.base, first, n, first + n, like);
    SameNowhere(ram0, child.mem.ram, child.base, first + n);
    RestoredOwned(ram0, blk0, child.base, t0, child.mem.ram, child.mem.blk, child.tables);
  }

  /** Everything that copying for fork relies on and keeps. */
  ghost predicate Pair(parent: PageTable, child: PageTable)
    reads parent, child, parent.mem, child.mem
  {
    && parent != child && parent.mem == child.mem
    && parent.Valid() && parent.Owned() && child.Valid() && child.Owned()
    && Isolated(parent.mem.ram, parent.base, parent.tables, child.base, child.tables)
  }

  /** vm_copy: gives the child its own copy of size bytes of the parent from start on, or nothing. */
  method VmCopy(parent: PageTable, child: PageTable, start: nat, size: nat) returns (r: Outcome)
    requires Pair(parent, child) && start + size <= VPNS * PAGE_SIZE
    modifies parent`tables, child`tables, child.mem
    ensures parent.tables == old(parent.tables)
    ensures start % PAGE_SIZE != 0 || size % PAGE_SIZE != 0 ==> r.Panic?
    ensures !r.Panic? ==> Pair(parent, child)
    ensures !r.Panic? ==> SameOutside(old(child.mem.ram), child.mem.ram, parent.base, 0, 0)
    ensures Kept(old(child.mem.ram), old(child.mem.blk), old(child.tables), child.mem.ram, child.mem.blk)
    ensures TablesAdded(old(child.mem.blk), old(child.tables), child.tables)
    ensures r.Done? ==>
              var first, n := start / PAGE_SIZE, size / PAGE_SIZE;
              && SameOutside(old(child.mem.ram), child.mem.ram, child.base, first, first + n)
              && Grew(old(child.mem.ram), old(child.mem.blk), child.mem.ram, child.mem.blk, child.base, child.tables,
                      first, n, LeavesOf(old(child.mem.ram), parent.base, first, n))
              && (forall v: nat :: first <= v < first + n ==> PteValid(HwPte(old(child.mem.ram), parent.base, v)))
    ensures r.Failed? ==> OnlyTablesNew(old(child.mem.blk), child.mem.blk, child.tables)
    ensures r.Failed? ==> SameOutside(old(child.mem.ram), child.mem.ram, child.base, 0, 0)
    ensures old(child.mem.refused) <= child.mem.refused && (r.Done? ==> child.mem.refused == old(child.mem.refused))
    ensures start % PAGE_SIZE == 0 && size % PAGE_SIZE == 0 && child.mem.refused == old(child.mem.refused) ==>
              r == CopyVerdict(old(child.mem.ram), parent.base, child.base, start / PAGE_SIZE, size / PAGE_SIZE)
    ensures r.Panic? && child.mem.refused != old(child.mem.refused) ==> child.mem.Full()
  {
    hide Tree, TablesOwned, LeavesOwned, RangeOwned, HwPte, PteValid, PteFlags, Kept, TablesAdded, OnlyTablesNew, SameOutside, Isolated;
    hide Grew, Consistent, PageNumbers, LeafFlags, LeafOf, BlockStep, Footprint;
    var mem := child.mem;
    ghost var ram0, blk0, spare0, t0 := mem.ram, mem.blk, mem.spare, child.tables;
    KeptReflexive(ram0, blk0, t0, child.base);
    if start % PAGE_SIZE != 0 || size % PAGE_SIZE != 0 {
      return Panic;
    }
    ghost var first, n := start / PAGE_SIZE, size / PAGE_SIZE;
    ghost var like := LeavesOf(ram0, parent.base, first, n);
    GrewNothing(ram0, blk0, child.base, t0, first, like);
    SameRefl(ram0, child.base, first);
    SameRefl(ram0, parent.base, 0);
    FootprintOwned(ram0, blk0, parent.base, parent.tables);
    ghost var done := 0;
    var va := start;
    while va < start + size
      invariant va == (first + done) * PAGE_SIZE && 0 <= done <= n && mem.refused == old(child.mem.refused)
      invariant CopyVerdict(ram0, parent.base, child.base, first, done).Done?
      invariant parent.tables == old(parent.tables) && Pair(parent, child)
      invariant Kept(ram0, blk0, t0, mem.ram, mem.blk) && TablesAdded(blk0, t0, child.tables)
      invariant SameOutside(ram0, mem.ram, parent.base, 0, 0)
      invariant SameOutside(ram0, mem.ram, child.base, first, first + done)
      invariant Grew(ram0, blk0, mem.ram, mem.blk, child.base, child.tables, first, done, like)
      invariant forall v: nat :: first <= v < first + done ==> PteValid(HwPte(ram0, parent.base, v))
    {
      ghost var ram1, blk1, t1 := mem.ram, mem.blk, child.tables;
      OwnedRange(ram1, blk1, child.base, t1, first, done);
      ghost var h;
      SameAt(ram0, ram1, parent.base, first + done);
      SameJustAbove(ram0, ram1, child.base, first, first + done);
      r, h := CopyOne(parent, child, va);
      if r != Done && mem.refused == old(child.mem.refused) {
        VerdictStands(ram0, parent.base, child.base, first, done + 1, n);
      }
      KeptTrans(ram0, blk0, t0, ram1, blk1, t1, mem.ram, mem.blk, child.tables);
      if r.Panic? {
        return;
      }
      if r.Failed? {
        GrewKept(ram0, blk0, ram1, blk1, t1, mem.ram, mem.blk, child.tables, child.base, first, done, first + done, like)
          by { SameWiderAt(ram1, mem.ram, child.base, first + done); }
        SameJoin(ram0, ram1, mem.ram, child.base, first, first + done, first + done)
          by { SameWiderAt(ram1, mem.ram, child.base, first + done); }
        UndoCopies(child, start / PAGE_SIZE, (va - start) / PAGE_SIZE, like, ram0, blk0, spare0, t0);
        NothingGrew(ram0, blk0, mem.ram, mem.blk, child.base, child.tables, first, like);
        SameWiderAt(ram0, mem.ram, child.base, first);
        ParentKept(ram0, blk0, parent.base, parent.tables, child.base, t0, mem.ram, mem.blk, child.tables, first, 0, like);
        StillIsolated(ram0, blk0, parent.base, parent.tables, child.base, t0, mem.ram, mem.blk, child.tables, first, 0, like);
        return;
      }
      LeafKept(ram0, blk0, spare0, parent.base, parent.tables, child.base, t0, ram1, blk1, first + done);
      assert like[done..done + 1] == [LeafOf(ram1, parent.base, first + done)];
      ghost var flags := PteFlags(HwPte(ram1, parent.base, first + done));
      GrewMore(ram0, blk0, t0, ram1, blk1, t1, mem.ram, mem.blk, child.tables, child.base, first, done, h, 1, flags, like);
      done := done + 1;
      ParentKept(ram0, blk0, parent.base, parent.tables, child.base, t0, mem.ram, mem.blk, child.tables, first, done, like);
      StillIsolated(ram0, blk0, parent.base, parent.tables, child.base, t0, mem.ram, mem.blk, child.tables, first, done, like);
      va := va + PAGE_SIZE;
    }
    r := Done;
  }

  lemma SameWiderAt(ram: Ram, ram': Ram, root: nat, v: nat)
    requires SameOutside(ram, ram', root, 0, 0)
    ensures SameOutside(ram, ram', root, v, v)
  {}

  lemma SameJustAbove(ram: Ram, ram': Ram, root: nat, lo: nat, v: nat)
    requires SameOutside(ram, ram', root, lo, v) && v < VPNS
    ensures HwPte(ram', root, v) == HwPte(ram, root, v)
  {}

  lemma SameAt(ram: Ram, ram': Ram, root: nat, v: nat)
    requires SameOutside(ram, ram', root, 0, 0) && v < VPNS
    ensures HwPte(ram', root, v) == HwPte(ram, root, v)
  {}

  /** The child reads what the parent read. */
  lemma ForkedBytes(ram0: Ram, blk0: Blocks, ram: Ram, blk: Blocks, root: nat, root': nat, tables': Tables, first: nat, n: nat, x: nat)
    requires Grew(ram0, blk0, ram, blk, root', tables', first, n, LeavesOf(ram0, root, first, n))
    requires first <= x / PAGE_SIZE < first + n && PteValid(HwPte(ram0, root, x / PAGE_SIZE))
    requires PtePpn(HwPte(ram0, root, x / PAGE_SIZE)) in ram0
    ensures UserByte(ram, root', x) == UserByte(ram0, root, x)
  {
    hide HwPte, PteValid, PtePpn, PteFlags, PteUser;
    var v := x / PAGE_SIZE;
    assert FreshMapping(ram0, blk0, ram, root', first, LeavesOf(ram0, root, first, n), v);
    assert LeavesOf(ram0, root, first, n)[v - first] == LeafOf(ram0, root, v);
    UserFromFlags(HwPte(ram, root', v), HwPte(ram0, root, v));
  }

  lemma UserFromFlags(e: nat, e': nat)
    requires PteFlags(e) == PteFlags(e')
    ensures PteUser(e) == PteUser(e')
  {
    LowBits(e / 1024, e % 1024);
    LowBits(e' / 1024, e' % 1024);
  }

  // ---------------------------------------------------------- fork's memory

  /** A stretch of the parent that fork copies: a program segment, the heap, the stack or a mapped file. */
  datatype Range = Range(start: nat, size: nat)

  ghost predicate InSome(ranges: seq<Range>, k: nat, x: nat)
    requires k <= |ranges|
  {
    exists i :: 0 <= i < k && ranges[i].start <= x < ranges[i].start + ranges[i].size
  }

  /** At address x the child has its own mapping and reads what the parent read at the start. */
  ghost predicate Copied(ram0: Ram, root: nat, ram: Ram, root': nat, x: nat) {
    PteValid(HwPte(ram, root', x / PAGE_SIZE)) && UserByte(ram, root', x) == UserByte(ram0, root, x)
  }

  /** The next copy leaves earlier ones alone. */
  lemma CopiedStays(ram0: Ram, root: nat, ram1: Ram, blk1: Blocks, spare1: set<nat>, t1: Tables, ram2: Ram, blk2: Blocks, t2: Tables,
                    root': nat, first: nat, n: nat, like: seq<Leaf>, x: nat)
    requires Copied(ram0, root, ram1, root', x) && x / PAGE_SIZE < VPNS
    requires Tree(ram1, root', t1) && LeavesOwned(ram1, blk1, t1) && Consistent(ram1.Keys, blk1, spare1)
    requires Kept(ram1, blk1, t1, ram2, blk2) && SameOutside(ram1, ram2, root', first, first + n)
    requires Grew(ram1, blk1, ram2, blk2, root', t2, first, n, like)
    ensures Copied(ram0, root, ram2, root', x)
  {
    hide HwPte, PteValid, PtePpn, PteUser, Tree, PteFlags;
    var v := x / PAGE_SIZE;
    if first <= v < first + n {
      assert FreshMapping(ram1, blk1, ram2, root', first, like, v);
    }
    HardwareSeesTree(ram1, root', t1, v);
    LeafOfValid(ram1, root', t1, v);
    assert LeafPage(blk1, t1, PtePpn(HwPte(ram1, root', v)));
    assert HwPte(ram2, root', v) == HwPte(ram1, root', v);
  }

  lemma LeafOfValid(ram: Ram, root: nat, tables: Tables, v: nat)
    requires PteValid(HwPte(ram, root, v))
    ensures HwPte(ram, root, v) != 0
  {}

  /** The parent reads the same bytes after the child grew. */
  lemma ParentReads(ram0: Ram, blk0: Blocks, spare0: set<nat>, root: nat, tables: Tables, root': nat, t0: Tables, ram: Ram, blk: Blocks, x: nat)
    requires Tree(ram0, root, tables) && LeavesOwned(ram0, blk0, tables) && Consistent(ram0.Keys, blk0, spare0)
    requires Isolated(ram0, root, tables, root', t0) && Kept(ram0, blk0, t0, ram, blk)
    requires SameOutside(ram0, ram, root, 0, 0) && x / PAGE_SIZE < VPNS
    ensures UserByte(ram, root, x) == UserByte(ram0, root, x)
  {
    hide HwPte, PteValid, PtePpn, PteUser, Tree, LeavesOwned, PteFlags;
    var v := x / PAGE_SIZE;
    assert HwPte(ram, root, v) == HwPte(ram0, root, v);
    if PteValid(HwPte(ram, root, v)) {
      LeafKept(ram0, blk0, spare0, root, tables, root', t0, ram, blk, v);
      ParentPage(ram0, blk0, spare0, root, tables, v);
    }
  }

  /** What fork's k-th vm_copy adds to the picture. */
  lemma CopiedMore(ranges: seq<Range>, k: nat, ram0: Ram, ram1: Ram, blk1: Blocks, spare1: set<nat>, root: nat, tables: Tables,
                   root': nat, t1: Tables, ram2: Ram, blk2: Blocks, t2: Tables)
    requires k < |ranges|
    requires ranges[k].start + ranges[k].size <= VPNS * PAGE_SIZE && ranges[k].start % PAGE_SIZE == 0 && ranges[k].size % PAGE_SIZE == 0
    requires Consistent(ram1.Keys, blk1, spare1) && Isolated(ram1, root, tables, root', t1)
    requires Tree(ram1, root, tables) && LeavesOwned(ram1, blk1, tables)
    requires Tree(ram1, root', t1) && LeavesOwned(ram1, blk1, t1)
    requires Kept(ram1, blk1, t1, ram2, blk2) && SameOutside(ram1, ram2, root, 0, 0)
    requires var first, n := ranges[k].start / PAGE_SIZE, ranges[k].size / PAGE_SIZE;
             && SameOutside(ram1, ram2, root', first, first + n)
             && Grew(ram1, blk1, ram2, blk2, root', t2, first, n, LeavesOf(ram1, root, first, n))
             && (forall v: nat :: first <= v < first + n ==> PteValid(HwPte(ram1, root, v)))
    requires forall x: nat :: x < VPNS * PAGE_SIZE ==> UserByte(ram1, root, x) == UserByte(ram0, root, x)
    requires forall x: nat :: x < VPNS * PAGE_SIZE && InSome(ranges, k, x) ==> Copied(ram0, root, ram1, root', x)
    ensures forall x: nat :: x < VPNS * PAGE_SIZE && InSome(ranges, k + 1, x) ==> Copied(ram0, root, ram2, root', x)
    ensures forall x: nat :: x < VPNS * PAGE_SIZE ==> UserByte(ram2, root, x) == UserByte(ram0, root, x)
  {
    hide HwPte, PteValid, PtePpn, PteUser, Tree, LeavesOwned, UserByte, Isolated, Grew, Kept, SameOutside, Consistent;
    var first, n := ranges[k].start / PAGE_SIZE, ranges[k].size / PAGE_SIZE;
    var like := LeavesOf(ram1, root, first, n);
    forall x: nat | x < VPNS * PAGE_SIZE && InSome(ranges, k + 1, x) ensures Copied(ram0, root, ram2, root', x) {
      if InSome(ranges, k, x) {
        CopiedStays(ram0, root, ram1, blk1, spare1, t1, ram2, blk2, t2, root', first, n, like, x);
      } else {
        ParentPage(ram1, blk1, spare1, root, tables, x / PAGE_SIZE);
        ForkedBytes(ram1, blk1, ram2, blk2, root, root', t2, first, n, x);
        AllFresh(ram1, blk1, ram2, blk2, root', t2, first, n, like, x / PAGE_SIZE);
      }
    }
    forall x: nat | x < VPNS * PAGE_SIZE ensures UserByte(ram2, root, x) == UserByte(ram0, root, x) {
      ParentReads(ram1, blk1, spare1, root, tables, root', t1, ram2, blk2, x);
    }
  }
}
