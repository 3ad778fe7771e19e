/** An address space from vm_create to freewalk, and where its pages go. */
module Lifecycle {
  import opened AddressSpace
  import opened Arith
  import opened Fork
  import opened PageAllocator
  import opened PageTables
  import opened PhysicalMemory
  import opened Sv39
  import opened VirtualMemory

  /** vm_create: an empty address space on one fresh page. */
  method VmCreate(mem: Memory) returns (r: Outcome, pt: PageTable?)
    requires mem.Valid()
    modifies mem
    ensures mem.Valid() && mem.ram.Keys == old(mem.ram.Keys)
    ensures r.Done? <==> pt != null
    ensures r == if old(mem.Full()) then Panic else Done
    ensures r.Panic? ==> mem.ram == old(mem.ram) && mem.blk == old(mem.blk)
    ensures mem.refused == old(mem.refused) + if r.Panic? then 1 else 0
    ensures pt != null ==> fresh(pt) && pt.mem == mem && pt.Valid() && pt.Owned() && pt.tables.Values == {pt.base}
    ensures pt != null ==> pt.base !in old(mem.blk) && mem.blk == old(mem.blk)[pt.base := pt.base]
    ensures pt != null ==> mem.ram == old(mem.ram)[pt.base := ZeroPage()]
    ensures pt != null ==> forall v: nat :: v < VPNS ==> HwPte(mem.ram, pt.base, v) == 0
    ensures pt != null ==> Accounted(old(mem.blk), Space(mem.ram, mem.blk, pt.tables), pt.base)
  {
    var page := mem.AllocPage();
    if page.Nothing? {
      return Panic, null;
    }
    assert forall p :: p in old(mem.blk) ==> old(mem.blk)[p] in old(mem.blk);
    pt := new PageTable(mem, page.value);
    assert pt.tables.Values == {pt.base} by { assert pt.tables[ROOT] == pt.base; }
    AccountStart(old(mem.ram), old(mem.blk), old(mem.spare), mem.ram, pt.base, pt.tables);
    r := Done;
  }

  // ------------------------------------------------------------- accounting

  /** What an address space and the allocator look like between two steps. */
  datatype Space = Space(ram: Ram, blk: Blocks, tables: Tables)

  /** Virtual page v maps physical page p. */
  ghost predicate Shows(ram: Ram, root: nat, v: nat, p: nat) {
    v < VPNS && PteValid(HwPte(ram, root, v)) && PtePpn(HwPte(ram, root, v)) == p
  }

  ghost predicate Behind(ram: Ram, root: nat, p: nat) {
    exists v: nat :: Shows(ram, root, v, p)
  }

  /** Page accounting against the allocation state blk0 from before the address space existed. Pages of blk0 that
      it maps are foreign to it: the trampoline, for example. */
  ghost predicate Accounted(blk0: Blocks, s: Space, root: nat) {
    OldSafe(blk0, s.blk, s.tables) && NewKnown(blk0, s, root) && OnceEach(blk0, s.ram, root)
  }

  /** Nothing of blk0 changed hands. */
  ghost predicate OldSafe(blk0: Blocks, blk: Blocks, tables: Tables) {
    forall p :: p in blk0 ==> p in blk && blk[p] == blk0[p] && blk0[p] in blk0 && p !in tables.Values
  }

  /** What is new is a table page, or lies in a new block whose first page is mapped. */
  ghost predicate NewKnown(blk0: Blocks, s: Space, root: nat) {
    forall p :: p in s.blk && p !in blk0 ==> s.blk[p] !in blk0 && (p in s.tables.Values || Behind(s.ram, root, s.blk[p]))
  }

  /** Only foreign pages may be mapped twice. */
  ghost predicate OnceEach(blk0: Blocks, ram: Ram, root: nat) {
    forall v: nat, w: nat, p: nat :: Shows(ram, root, v, p) && Shows(ram, root, w, p) && p !in blk0 ==> v == w
  }

  /** The address space itself is in order. */
  ghost predicate Sound(s: Space, root: nat) {
    && Tree(s.ram, root, s.tables) && TablesOwned(s.blk, s.tables) && LeavesOwned(s.ram, s.blk, s.tables)
    && (exists spare :: Consistent(s.ram.Keys, s.blk, spare))
  }

  lemma SelfHeads(s: Space, root: nat)
    requires Sound(s, root)
    ensures forall p :: p in s.blk ==> s.blk[p] in s.blk && s.blk[s.blk[p]] == s.blk[p]
  {}

  lemma AccountStart(ram0: Ram, blk0: Blocks, spare0: set<nat>, ram: Ram, root: nat, tables: Tables)
    requires Consistent(ram0.Keys, blk0, spare0) && root !in blk0 && tables.Values == {root}
    requires forall v: nat :: v < VPNS ==> HwPte(ram, root, v) == 0
    ensures Accounted(blk0, Space(ram, blk0[root := root], tables), root)
  {}

  lemma TableBlocks(blk: Blocks, t: Tables)
    requires TablesOwned(blk, t)
    ensures forall p :: p in t.Values ==> p in blk && blk[p] == p
  {
    forall p | p in t.Values ensures p in blk && blk[p] == p {
      var q :| q in t && t[q] == p;
      assert OneBlock(blk, t[q]);
    }
  }

  lemma ShownIsOwned(ram: Ram, blk: Blocks, root: nat, tables: Tables)
    requires Tree(ram, root, tables) && LeavesOwned(ram, blk, tables)
    ensures forall v: nat, p: nat :: Shows(ram, root, v, p) ==> p in blk && p !in tables.Values
  {
    forall v: nat, p: nat | Shows(ram, root, v, p) ensures p in blk && p !in tables.Values {
      HardwareSeesTree(ram, root, tables, v);
      assert LeafPage(blk, tables, p);
    }
  }

  // ---------------------------------------------------------------- adding

  /** n pages from o on were added on fresh blocks; n is 0 when the step failed. */
  ghost predicate Added(s: Space, s': Space, root: nat, o: nat, n: nat, like: seq<Leaf>) {
    && Kept(s.ram, s.blk, s.tables, s'.ram, s'.blk) && TablesAdded(s.blk, s.tables, s'.tables)
    && SameOutside(s.ram, s'.ram, root, o, o + n) && o + n <= VPNS
    && Grew(s.ram, s.blk, s'.ram, s'.blk, root, s'.tables, o, n, like)
  }

  /** Entries of a grown space: the old ones, and the new ones on frames that were free. */
  lemma {:induction false} AddedShown(s: Space, s': Space, root: nat, o: nat, n: nat, like: seq<Leaf>)
    requires Added(s, s', root, o, n, like)
    ensures forall v: nat, p: nat :: Shows(s.ram, root, v, p) ==> Shows(s'.ram, root, v, p) && !(o <= v < o + n)
    ensures forall v: nat, p: nat :: Shows(s'.ram, root, v, p) && !(o <= v < o + n) ==> Shows(s.ram, root, v, p)
    ensures forall v: nat, p: nat :: Shows(s'.ram, root, v, p) && o <= v < o + n ==> p !in s.blk
    ensures forall v: nat, w: nat, p: nat :: Shows(s'.ram, root, v, p) && Shows(s'.ram, root, w, p) && o <= v < o + n && o <= w < o + n ==> v == w
    ensures forall p :: p in RangePpns(s'.ram, root, o, n) ==> p !in s.blk && Behind(s'.ram, root, p)
  {
    hide HwPte, PtePpn, PteValid, PteFlags, RangePpns, HeadBelow;
    forall v: nat | v < VPNS && !(o <= v < o + n) ensures HwPte(s'.ram, root, v) == HwPte(s.ram, root, v) {}
    forall v: nat | o <= v < o + n
      ensures !PteValid(HwPte(s.ram, root, v)) && PteValid(HwPte(s'.ram, root, v)) && PtePpn(HwPte(s'.ram, root, v)) !in s.blk
    {
      assert FreshMapping(s.ram, s.blk, s'.ram, root, o, like, v);
    }
    forall p | p in RangePpns(s'.ram, root, o, n) ensures p !in s.blk && Behind(s'.ram, root, p) {
      RangePpnsMember(s'.ram, root, o, n, p);
      var v: nat :| o <= v < o + n && PtePpn(HwPte(s'.ram, root, v)) == p;
      assert Shows(s'.ram, root, v, p);
    }
  }

  lemma {:induction false} AddedAccounts(blk0: Blocks, s: Space, s': Space, root: nat, o: nat, n: nat, like: seq<Leaf>)
    requires Accounted(blk0, s, root) && Sound(s, root) && Added(s, s', root, o, n, like) && TablesOwned(s'.blk, s'.tables)
    ensures Accounted(blk0, s', root)
  {
    hide Tree, LeavesOwned, TablesOwned, Shows, RangePpns, Consistent, NewKnown, OnceEach, Added, Behind;
    AddedBlocks(s, s', root, o, n, like);
    AddedShown(s, s', root, o, n, like);
    ShownIsOwned(s.ram, s.blk, root, s.tables);
    TablesStay(s.tables, s'.tables);
    TableBlocks(s'.blk, s'.tables);
    AddedKnown(blk0, s, s', root, o, n);
    AddedOnce(blk0, s, s', root, o, n);
  }

  lemma AddedBlocks(s: Space, s': Space, root: nat, o: nat, n: nat, like: seq<Leaf>)
    requires Added(s, s', root, o, n, like)
    ensures Kept(s.ram, s.blk, s.tables, s'.ram, s'.blk) && TablesAdded(s.blk, s.tables, s'.tables)
    ensures forall p :: p in s'.blk && p !in s.blk ==> p in s'.tables.Values || s'.blk[p] in RangePpns(s'.ram, root, o, n)
  {
    hide Kept, TablesAdded, SameOutside, Grew, RangePpns;
    GrewNew(s.ram, s.blk, s'.ram, s'.blk, root, s'.tables, o, n, like);
  }

  lemma {:induction false} AddedOnce(blk0: Blocks, s: Space, s': Space, root: nat, o: nat, n: nat)
    requires OnceEach(blk0, s.ram, root)
    requires forall v: nat, p: nat :: Shows(s.ram, root, v, p) ==> p in s.blk
    requires forall v: nat, p: nat :: Shows(s'.ram, root, v, p) && !(o <= v < o + n) ==> Shows(s.ram, root, v, p)
    requires forall v: nat, p: nat :: Shows(s'.ram, root, v, p) && o <= v < o + n ==> p !in s.blk
    requires forall v: nat, w: nat, p: nat :: Shows(s'.ram, root, v, p) && Shows(s'.ram, root, w, p) && o <= v < o + n && o <= w < o + n ==> v == w
    ensures OnceEach(blk0, s'.ram, root)
  {
    hide Shows;
  }

  lemma {:induction false} AddedKnown(blk0: Blocks, s: Space, s': Space, root: nat, o: nat, n: nat)
    requires OldSafe(blk0, s.blk, s.tables) && NewKnown(blk0, s, root) && Kept(s.ram, s.blk, s.tables, s'.ram, s'.blk)
    requires forall p :: p in s.tables.Values ==> p in s'.tables.Values
    requires forall p :: p in s'.tables.Values ==> p in s'.blk && s'.blk[p] == p
    requires forall v: nat, p: nat :: Shows(s.ram, root, v, p) ==> Shows(s'.ram, root, v, p)
    requires forall p :: p in s'.blk && p !in s.blk ==> p in s'.tables.Values || s'.blk[p] in RangePpns(s'.ram, root, o, n)
    requires forall p :: p in RangePpns(s'.ram, root, o, n) ==> p !in s.blk && Behind(s'.ram, root, p)
    ensures NewKnown(blk0, s', root)
  {
    hide Shows, RangePpns;
    forall p | p in s'.blk && p !in blk0
      ensures s'.blk[p] !in blk0 && (p in s'.tables.Values || Behind(s'.ram, root, s'.blk[p]))
    {
      if p in s.blk && p !in s.tables.Values {
        var v: nat :| Shows(s.ram, root, v, s.blk[p]);
        assert Shows(s'.ram, root, v, s.blk[p]);
      }
    }
  }

  // -------------------------------------------------------------- removing

  /** The entries of n mapped pages from first on were cleared; free tells whether their blocks were freed. */
  ghost predicate Removed(s: Space, s': Space, root: nat, first: nat, n: nat, free: bool) {
    && s'.tables == s.tables && s'.ram.Keys == s.ram.Keys && first + n <= VPNS
    && SameOutside(s.ram, s'.ram, root, first, first + n) && Cleared(s.ram, s'.ram, root, first, first + n)
    && s'.blk == (if free then AfterFree(s.ram, s.blk, root, first, n) else s.blk)
    && (forall p :: p in s'.ram && p !in s.tables.Values ==> s'.ram[p] == s.ram[p])
  }

  /** A freeing unmap must not tear a block apart nor name the first page of a foreign block. */
  ghost predicate MayFreeRange(blk0: Blocks, s: Space, root: nat, first: nat, n: nat) {
    && WholeBlocks(s.ram, s.blk, root, first, n)
    && forall p :: p in RangePpns(s.ram, root, first, n) && p in blk0 ==> blk0[p] != p
  }

  /** An unmap without free must not name the first page of a new block. */
  ghost predicate MayDropRange(blk0: Blocks, s: Space, root: nat, first: nat, n: nat) {
    forall p :: p in RangePpns(s.ram, root, first, n) && p in s.blk && p !in blk0 ==> s.blk[p] != p
  }

  lemma RemovedShown(s: Space, s': Space, root: nat, first: nat, n: nat, free: bool)
    requires Removed(s, s', root, first, n, free)
    ensures forall w: nat, p: nat :: Shows(s'.ram, root, w, p) <==> Shows(s.ram, root, w, p) && !(first <= w < first + n)
    ensures forall p: nat :: p in RangePpns(s.ram, root, first, n) <==> exists v: nat :: first <= v < first + n && Shows(s.ram, root, v, p)
  {
    hide HwPte, PtePpn, RangePpns;
    forall p: nat
      ensures p in RangePpns(s.ram, root, first, n) <==> exists v: nat :: first <= v < first + n && Shows(s.ram, root, v, p)
    {
      RangePpnsMember(s.ram, root, first, n, p);
      assert forall v: nat :: first <= v < first + n && PtePpn(HwPte(s.ram, root, v)) == p ==> Shows(s.ram, root, v, p);
    }
  }

  /** After a freeing unmap the accounts and the ownership are in order exactly if it was allowed. */
  lemma {:induction false} FreedAccounts(blk0: Blocks, s: Space, s': Space, root: nat, first: nat, n: nat)
    requires Accounted(blk0, s, root) && Sound(s, root) && Removed(s, s', root, first, n, true) && Tree(s'.ram, root, s'.tables)
    ensures Accounted(blk0, s', root) && LeavesOwned(s'.ram, s'.blk, s'.tables) <==> MayFreeRange(blk0, s, root, first, n)
  {
    hide Tree, LeavesOwned, TablesOwned, Shows, RangePpns, SameOutside, Cleared, Consistent, WholeBlocks;
    RemovedShown(s, s', root, first, n, true);
    UnmapKeepsOwned(s.ram, s.blk, s'.ram, s'.blk, root, s.tables, first, n, true);
    FreedKnown(blk0, s, s', root, first, n);
    assert OnceEach(blk0, s'.ram, root);
    FreedOld(blk0, s, s', root, first, n) by { SelfHeads(s, root); }
  }

  lemma FreedOld(blk0: Blocks, s: Space, s': Space, root: nat, first: nat, n: nat)
    requires OldSafe(blk0, s.blk, s.tables) && s'.tables == s.tables && s'.blk == AfterFree(s.ram, s.blk, root, first, n)
    requires forall p :: p in s.blk ==> s.blk[p] in s.blk && s.blk[s.blk[p]] == s.blk[p]
    ensures OldSafe(blk0, s'.blk, s'.tables) <==> forall p :: p in RangePpns(s.ram, root, first, n) && p in blk0 ==> blk0[p] != p
  {
    hide RangePpns;
    var gone := RangePpns(s.ram, root, first, n);
    if OldSafe(blk0, s'.blk, s'.tables) {
      forall p | p in gone && p in blk0 ensures blk0[p] != p {
        assert p in s'.blk;
      }
    }
    if forall p :: p in gone && p in blk0 ==> blk0[p] != p {
      forall p | p in blk0 ensures p in s'.blk {
        var h := blk0[p];
        assert h in blk0 && s.blk[h] == h;
      }
    }
  }

  lemma {:induction false} FreedKnown(blk0: Blocks, s: Space, s': Space, root: nat, first: nat, n: nat)
    requires NewKnown(blk0, s, root) && s'.tables == s.tables && s'.blk == AfterFree(s.ram, s.blk, root, first, n)
    requires forall w: nat, p: nat :: Shows(s'.ram, root, w, p) <==> Shows(s.ram, root, w, p) && !(first <= w < first + n)
    requires forall p: nat :: p in RangePpns(s.ram, root, first, n) <==> exists v: nat :: first <= v < first + n && Shows(s.ram, root, v, p)
    ensures NewKnown(blk0, s', root)
  {
    hide Shows, RangePpns;
    forall p | p in s'.blk && p !in blk0 && p !in s.tables.Values ensures Behind(s'.ram, root, s'.blk[p]) {
      var w: nat :| Shows(s.ram, root, w, s.blk[p]);
      assert Shows(s'.ram, root, w, s.blk[p]);
    }
  }

  /** After an unmap without free the accounts are in order exactly if it was allowed. */
  lemma {:induction false} DroppedAccounts(blk0: Blocks, s: Space, s': Space, root: nat, first: nat, n: nat)
    requires Accounted(blk0, s, root) && Sound(s, root) && Removed(s, s', root, first, n, false)
    ensures Accounted(blk0, s', root) <==> MayDropRange(blk0, s, root, first, n)
  {
    hide Tree, LeavesOwned, TablesOwned, Shows, RangePpns, SameOutside, Cleared, Consistent;
    RemovedShown(s, s', root, first, n, false);
    ShownIsOwned(s.ram, s.blk, root, s.tables);
    SelfHeads(s, root);
    assert OnceEach(blk0, s'.ram, root);
    DroppedKnown(blk0, s, s', root, first, n);
  }

  lemma {:induction false} DroppedKnown(blk0: Blocks, s: Space, s': Space, root: nat, first: nat, n: nat)
    requires NewKnown(blk0, s, root) && OnceEach(blk0, s.ram, root) && s'.tables == s.tables && s'.blk == s.blk
    requires forall p :: p in s.blk ==> s.blk[p] in s.blk && s.blk[s.blk[p]] == s.blk[p]
    requires forall v: nat, p: nat :: Shows(s.ram, root, v, p) ==> p !in s.tables.Values
    requires forall w: nat, p: nat :: Shows(s'.ram, root, w, p) <==> Shows(s.ram, root, w, p) && !(first <= w < first + n)
    requires forall p: nat :: p in RangePpns(s.ram, root, first, n) <==> exists v: nat :: first <= v < first + n && Shows(s.ram, root, v, p)
    ensures NewKnown(blk0, s', root) <==> MayDropRange(blk0, s, root, first, n)
  {
    hide Shows, RangePpns;
    if MayDropRange(blk0, s, root, first, n) {
      forall p | p in s.blk && p !in blk0 && p !in s.tables.Values ensures Behind(s'.ram, root, s.blk[p]) {
        var w: nat :| Shows(s.ram, root, w, s.blk[p]);
        assert Shows(s'.ram, root, w, s.blk[p]);
      }
    }
    if NewKnown(blk0, s', root) {
      forall p: nat | p in RangePpns(s.ram, root, first, n) && p in s.blk && p !in blk0 ensures s.blk[p] != p {
        var v: nat :| first <= v < first + n && Shows(s.ram, root, v, p);
      }
    }
  }

  // ---------------------------------------------------------- foreign pages

  /** Page v was mapped to frame p, which was allocated before; nothing else but table pages was added. */
  ghost predicate Lent(s: Space, s': Space, root: nat, v: nat, p: nat, flags: nat) {
    && Grown(s.ram, s.blk, s.tables, s'.ram, s'.blk, s'.tables) && v < VPNS && LeafFlags(flags)
    && SameOutside(s.ram, s'.ram, root, v, v + 1) && FilledBy(s.ram, s'.ram, root, v, v + 1, p, flags)
  }

  lemma LentShown(s: Space, s': Space, root: nat, v: nat, p: nat, flags: nat)
    requires Lent(s, s', root, v, p, flags)
    ensures forall w: nat, q: nat :: Shows(s'.ram, root, w, q) <==> Shows(s.ram, root, w, q) || (w == v && q == p)
    ensures forall q: nat :: !Shows(s.ram, root, v, q)
  {
    hide HwPte, PtePpn, MakePte, PteFlags, PteIsDir;
    assert HwPte(s'.ram, root, v) == MakePte(p + v - v, flags);
    PteParts(p, flags);
    forall w: nat, q: nat
      ensures Shows(s'.ram, root, w, q) <==> Shows(s.ram, root, w, q) || (w == v && q == p)
    {
      if w < VPNS && w != v { assert HwPte(s'.ram, root, w) == HwPte(s.ram, root, w); }
    }
  }

  /** Mapping a page keeps the accounts exactly if it is foreign or not mapped yet. */
  lemma {:induction false} LentAccounts(blk0: Blocks, s: Space, s': Space, root: nat, v: nat, p: nat, flags: nat)
    requires Accounted(blk0, s, root) && Sound(s, root) && Lent(s, s', root, v, p, flags) && TablesOwned(s'.blk, s'.tables)
    ensures Accounted(blk0, s', root) <==> p in blk0 || !Behind(s.ram, root, p)
  {
    hide Tree, LeavesOwned, TablesOwned, Shows, SameOutside, FilledBy, Consistent, NewKnown, LeafFlags, OnceEach;
    LentShown(s, s', root, v, p, flags);
    TablesStay(s.tables, s'.tables);
    TableBlocks(s'.blk, s'.tables);
    LentKnown(blk0, s, s', root);
    LentOnce(blk0, s, s', root, v, p);
  }

  lemma {:induction false} LentKnown(blk0: Blocks, s: Space, s': Space, root: nat)
    requires OldSafe(blk0, s.blk, s.tables) && NewKnown(blk0, s, root) && Grown(s.ram, s.blk, s.tables, s'.ram, s'.blk, s'.tables)
    requires forall p :: p in s.tables.Values ==> p in s'.tables.Values
    requires forall p :: p in s'.tables.Values ==> p in s'.blk && s'.blk[p] == p
    requires forall w: nat, q: nat :: Shows(s.ram, root, w, q) ==> Shows(s'.ram, root, w, q)
    ensures NewKnown(blk0, s', root)
  {
    hide Shows;
    forall p | p in s'.blk && p !in blk0
      ensures s'.blk[p] !in blk0 && (p in s'.tables.Values || Behind(s'.ram, root, s'.blk[p]))
    {
      if p in s.blk && p !in s.tables.Values {
        var w: nat :| Shows(s.ram, root, w, s.blk[p]);
        assert Shows(s'.ram, root, w, s.blk[p]);
      }
    }
  }

  lemma {:induction false} LentOnce(blk0: Blocks, s: Space, s': Space, root: nat, v: nat, p: nat)
    requires OnceEach(blk0, s.ram, root) && forall q: nat :: !Shows(s.ram, root, v, q)
    requires forall w: nat, q: nat :: Shows(s'.ram, root, w, q) <==> Shows(s.ram, root, w, q) || (w == v && q == p)
    ensures OnceEach(blk0, s'.ram, root) <==> p in blk0 || !Behind(s.ram, root, p)
  {
    hide Shows;
    assert Shows(s'.ram, root, v, p);
    assert forall w: nat :: Shows(s.ram, root, w, p) ==> Shows(s'.ram, root, w, p) && w != v;
  }

  // ----------------------------------------------------------------- runs

  /** What happens to an address space. Sizes and addresses are in bytes for the steps that take them so. */
  datatype Step =
    | MapFresh(page: nat, flags: nat)                          // alloc_page and map_pages
    | Alloc(oldSz: nat, newSz: nat, executable: bool, writeable: bool, forUser: bool)
    | Dealloc(oldSz: nat, newSz: nat)
    | Copy(from: nat, start: nat, size: nat)                   // vm_copy from the address space rooted at from
    | MapForeign(page: nat, frame: nat, flags: nat)            // map_pages on a page that is not its own
    | Unmap(page: nat, npages: nat, free: bool)

  ghost predicate Legal(st: Step) {
    match st
    case MapFresh(v, flags) => v < VPNS && LeafFlags(flags)
    case Alloc(_, newSz, _, _, _) => UpPages(newSz) <= VPNS
    case Dealloc(oldSz, _) => UpPages(oldSz) <= VPNS
    case Copy(_, start, size) => start % PAGE_SIZE == 0 && size % PAGE_SIZE == 0 && start + size <= VPNS * PAGE_SIZE
    case MapForeign(v, p, flags) => v < VPNS && p < PPNS && LeafFlags(flags)
    case Unmap(v, n, _) => v + n <= VPNS
  }

  /** The first page of the range that is mapped, if any, begins a block of vm_alloc's decomposition. */
  ghost predicate NoResidue(ram: Ram, root: nat, o: nat, npg: nat) {
    forall w: nat :: o <= w < o + npg && FirstMapped(ram, root, o, w) ==> BlockStart(npg, w - o)
  }

  ghost predicate FirstMapped(ram: Ram, root: nat, o: nat, w: nat) {
    PteValid(HwPte(ram, root, w)) && forall u: nat :: o <= u < w ==> !PteValid(HwPte(ram, root, u))
  }

  /** What a caller has to see to before a step. */
  ghost predicate Allowed(blk0: Blocks, s: Space, st: Step, root: nat) {
    match st
    case MapFresh(_, _) => true
    case Alloc(oldSz, newSz, _, _, _) => newSz < oldSz || NoResidue(s.ram, root, UpPages(oldSz), PagesBetween(oldSz, newSz))
    case Dealloc(oldSz, newSz) => newSz >= oldSz || MayFreeRange(blk0, s, root, UpPages(newSz), PagesBetween(newSz, oldSz))
    case Copy(_, _, _) => true
    case MapForeign(_, p, _) => LeafPage(s.blk, s.tables, p) && (p in blk0 || !Behind(s.ram, root, p))
    case Unmap(v, n, free) => if free then MayFreeRange(blk0, s, root, v, n) else MayDropRange(blk0, s, root, v, n)
  }

  /** s' is what the step can make of s, on success or on an error return. */
  ghost predicate Happens(s: Space, st: Step, s': Space, root: nat) {
    && Tree(s'.ram, root, s'.tables) && TablesOwned(s'.blk, s'.tables) && (exists spare :: Consistent(s'.ram.Keys, s'.blk, spare))
    && (AddsOwned(s, st) ==> LeavesOwned(s'.ram, s'.blk, s'.tables))
    && match st
       case MapFresh(v, flags) => AddedOrNot(s, s', root, v, 1, [Leaf(flags, ZeroPage())])
       case Alloc(oldSz, newSz, executable, writeable, forUser) =>
         if newSz < oldSz then s' == s
         else var npg := PagesBetween(oldSz, newSz);
           AddedOrNot(s, s', root, UpPages(oldSz), npg, ZeroLeaves(npg, AllocFlags(executable, writeable, forUser)))
       case Dealloc(oldSz, newSz) =>
         if newSz >= oldSz then s' == s else Removed(s, s', root, UpPages(newSz), PagesBetween(newSz, oldSz), true)
       case Copy(from, start, size) =>
         AddedOrNot(s, s', root, start / PAGE_SIZE, size / PAGE_SIZE, LeavesOf(s.ram, from, start / PAGE_SIZE, size / PAGE_SIZE))
       case MapForeign(v, p, flags) => Lent(s, s', root, v, p, flags) || Added(s, s', root, v, 0, [])
       case Unmap(v, n, free) => Removed(s, s', root, v, n, free)
  }

  ghost predicate AddedOrNot(s: Space, s': Space, root: nat, o: nat, n: nat, like: seq<Leaf>) {
    Added(s, s', root, o, n, like) || Added(s, s', root, o, 0, like)
  }

  /** Steps that map only pages the address space may own. */
  ghost predicate AddsOwned(s: Space, st: Step) {
    !st.Unmap? && !st.Dealloc? && (st.MapForeign? ==> LeafPage(s.blk, s.tables, st.frame))
  }

  /** An allowed step keeps the address space and its accounts in order. */
  lemma {:induction false} StepAccounts(blk0: Blocks, s: Space, st: Step, s': Space, root: nat)
    requires Accounted(blk0, s, root) && Sound(s, root) && Happens(s, st, s', root) && Allowed(blk0, s, st, root)
    ensures Accounted(blk0, s', root) && Sound(s', root)
  {
    hide Tree, LeavesOwned, TablesOwned, Accounted, Added, Removed, Lent, Consistent, MayFreeRange, MayDropRange, NoResidue, LeavesOf, ZeroLeaves, LeafPage, UpPages;
    match st
    case MapFresh(v, flags) => AddedOrNotAccounts(blk0, s, s', root, v, 1, [Leaf(flags, ZeroPage())]);
    case Alloc(oldSz, newSz, executable, writeable, forUser) =>
      if newSz >= oldSz {
        var npg := PagesBetween(oldSz, newSz);
        AddedOrNotAccounts(blk0, s, s', root, UpPages(oldSz), npg, ZeroLeaves(npg, AllocFlags(executable, writeable, forUser)));
      }
    case Dealloc(oldSz, newSz) =>
      if newSz < oldSz { FreedAccounts(blk0, s, s', root, UpPages(newSz), PagesBetween(newSz, oldSz)); }
    case Copy(from, start, size) =>
      AddedOrNotAccounts(blk0, s, s', root, start / PAGE_SIZE, size / PAGE_SIZE, LeavesOf(s.ram, from, start / PAGE_SIZE, size / PAGE_SIZE));
    case MapForeign(v, p, flags) =>
      if Lent(s, s', root, v, p, flags) {
        LentAccounts(blk0, s, s', root, v, p, flags);
      } else {
        AddedAccounts(blk0, s, s', root, v, 0, []);
      }
    case Unmap(v, n, free) =>
      if free {
        FreedAccounts(blk0, s, s', root, v, n);
      } else {
        DroppedAccounts(blk0, s, s', root, v, n);
        UnmapOwned(s, s', root, v, n);
      }
  }

  lemma AddedOrNotAccounts(blk0: Blocks, s: Space, s': Space, root: nat, o: nat, n: nat, like: seq<Leaf>)
    requires Accounted(blk0, s, root) && Sound(s, root) && AddedOrNot(s, s', root, o, n, like) && TablesOwned(s'.blk, s'.tables)
    ensures Accounted(blk0, s', root)
  {
    hide Tree, LeavesOwned, TablesOwned, Accounted, Added, Consistent;
    if Added(s, s', root, o, n, like) {
      AddedAccounts(blk0, s, s', root, o, n, like);
    } else {
      AddedAccounts(blk0, s, s', root, o, 0, like);
    }
  }

  lemma UnmapOwned(s: Space, s': Space, root: nat, v: nat, n: nat)
    requires Sound(s, root) && Removed(s, s', root, v, n, false) && Tree(s'.ram, root, s'.tables)
    ensures LeavesOwned(s'.ram, s'.blk, s'.tables)
  {
    hide Tree, LeavesOwned, TablesOwned, Consistent, SameOutside, Cleared, WholeBlocks;
    UnmapKeepsOwned(s.ram, s.blk, s'.ram, s'.blk, root, s.tables, v, n, false);
  }

  /** Pages that were in use before the address space existed keep their contents. */
  ghost predicate Unwritten(blk0: Blocks, ram0: Ram, ram: Ram) {
    ram.Keys == ram0.Keys && forall p :: p in blk0 && p in ram ==> ram[p] == ram0[p]
  }

  /** Pages in use that are not tables keep their contents. */
  ghost predicate SameLeaves(s: Space, s': Space) {
    s'.ram.Keys == s.ram.Keys && forall p :: p in s.blk && p in s.ram && p !in s.tables.Values ==> s'.ram[p] == s.ram[p]
  }

  lemma AddedLeaves(s: Space, s': Space, root: nat, o: nat, n: nat, like: seq<Leaf>)
    requires AddedOrNot(s, s', root, o, n, like)
    ensures SameLeaves(s, s')
  {
    hide Grew, SameOutside, TablesAdded;
  }

  lemma NotAdded(s: Space, s': Space, root: nat, o: nat, like: seq<Leaf>)
    requires Added(s, s', root, o, 0, like)
    ensures AddedOrNot(s, s', root, o, 0, like)
  {
    hide Added;
  }

  lemma RemovedLeaves(s: Space, s': Space, root: nat, first: nat, n: nat, free: bool)
    requires Removed(s, s', root, first, n, free)
    ensures SameLeaves(s, s')
  {
    hide SameOutside, Cleared, AfterFree;
  }

  lemma LentLeaves(s: Space, s': Space, root: nat, v: nat, p: nat, flags: nat)
    requires Lent(s, s', root, v, p, flags)
    ensures SameLeaves(s, s')
  {
    hide SameOutside, FilledBy;
  }

  lemma StepUnwritten(blk0: Blocks, ram0: Ram, s: Space, st: Step, s': Space, root: nat)
    requires Accounted(blk0, s, root) && Happens(s, st, s', root) && Unwritten(blk0, ram0, s.ram)
    ensures Unwritten(blk0, ram0, s'.ram)
  {
    hide Tree, TablesOwned, LeavesOwned, NewKnown, OnceEach, Consistent, LeavesOf, ZeroLeaves, LeafPage, UpPages, Added, AddedOrNot, Removed, Lent;
    match st
    case MapFresh(v, flags) => AddedLeaves(s, s', root, v, 1, [Leaf(flags, ZeroPage())]);
    case Alloc(oldSz, newSz, executable, writeable, forUser) =>
      if newSz >= oldSz {
        var npg := PagesBetween(oldSz, newSz);
        AddedLeaves(s, s', root, UpPages(oldSz), npg, ZeroLeaves(npg, AllocFlags(executable, writeable, forUser)));
      }
    case Dealloc(oldSz, newSz) =>
      if newSz < oldSz { RemovedLeaves(s, s', root, UpPages(newSz), PagesBetween(newSz, oldSz), true); }
    case Copy(from, start, size) =>
      AddedLeaves(s, s', root, start / PAGE_SIZE, size / PAGE_SIZE, LeavesOf(s.ram, from, start / PAGE_SIZE, size / PAGE_SIZE));
    case MapForeign(v, p, flags) =>
      if Lent(s, s', root, v, p, flags) {
        LentLeaves(s, s', root, v, p, flags);
      } else {
        NotAdded(s, s', root, v, []);
        AddedLeaves(s, s', root, v, 0, []);
      }
    case Unmap(v, n, free) => RemovedLeaves(s, s', root, v, n, free);
  }

  /** In any run of allowed steps, some of which may fail, the accounts stay in order. */
  lemma {:induction false} RunAccounts(blk0: Blocks, ss: seq<Space>, sts: seq<Step>, root: nat, k: nat)
    requires |ss| == |sts| + 1 && Accounted(blk0, ss[0], root) && Sound(ss[0], root) && k < |ss|
    requires forall i :: 0 <= i < |sts| ==> Happens(ss[i], sts[i], ss[i + 1], root) && Allowed(blk0, ss[i], sts[i], root)
    ensures Accounted(blk0, ss[k], root) && Sound(ss[k], root) && Unwritten(blk0, ss[0].ram, ss[k].ram)
  {
    hide Accounted, Sound, Happens, Allowed;
    if k > 0 {
      RunAccounts(blk0, ss, sts, root, k - 1);
      assert Happens(ss[k - 1], sts[k - 1], ss[k - 1 + 1], root);
      StepAccounts(blk0, ss[k - 1], sts[k - 1], ss[k], root);
      StepUnwritten(blk0, ss[0].ram, ss[k - 1], sts[k - 1], ss[k], root);
    }
  }

  // ------------------------------------------------- the steps, carried out

  ghost function SpaceOf(pt: PageTable): Space
    reads pt, pt.mem
  {
    Space(pt.mem.ram, pt.mem.blk, pt.tables)
  }

  lemma {:induction false} FreshAdded(s: Space, s': Space, root: nat, v: nat, h: nat, flags: nat)
    requires Tree(s.ram, root, s.tables) && LeavesOwned(s.ram, s.blk, s.tables) && v < VPNS && LeafFlags(flags)
    requires Kept(s.ram, s.blk, s.tables, s'.ram, s'.blk) && TablesAdded(s.blk, s.tables, s'.tables)
    requires SameOutside(s.ram, s'.ram, root, v, v + 1) && FilledBy(s.ram, s'.ram, root, v, v + 1, h, flags)
    requires FreshBlock(s.blk, s'.ram, s'.blk, s'.tables, h, 1) && ZeroBlock(s'.ram, h, 1)
    ensures Added(s, s', root, v, 1, [Leaf(flags, ZeroPage())])
  {
    hide Tree, LeavesOwned, HwPte, PteValid, PtePpn, Kept, TablesAdded, SameOutside, FilledBy, Grew, FreshBlock, LeafFlags;
    var like := [Leaf(flags, ZeroPage())];
    GrewNothing(s.ram, s.blk, root, s.tables, v, like);
    KeptReflexive(s.ram, s.blk, s.tables, root);
    OwnedRange(s.ram, s.blk, root, s.tables, v, 0);
    assert like[0..1] == like;
    assert forall p :: h <= p < h + 1 ==> like[p - h] == Leaf(flags, s'.ram[p]);
    GrewMore(s.ram, s.blk, s.tables, s.ram, s.blk, s.tables, s'.ram, s'.blk, s'.tables, root, v, 0, h, 1, flags, like);
  }

  lemma NothingAdded(s: Space, s': Space, root: nat, o: nat, like: seq<Leaf>)
    requires Kept(s.ram, s.blk, s.tables, s'.ram, s'.blk) && TablesAdded(s.blk, s.tables, s'.tables) && OnlyTablesNew(s.blk, s'.blk, s'.tables)
    requires SameOutside(s.ram, s'.ram, root, 0, 0) && o <= VPNS
    ensures Added(s, s', root, o, 0, like)
  {
    hide HwPte, Kept, TablesAdded;
    NothingGrew(s.ram, s.blk, s'.ram, s'.blk, root, s'.tables, o, like);
  }

  /** Without the risk of a residue, a failed vm_alloc leaves none. */
  lemma ResidueFree(ram: Ram, root: nat, o: nat, npg: nat, res: Residue)
    requires NoResidue(ram, root, o, npg) && Explained(ram, root, o, npg, res)
    ensures res.len == 0
  {
    hide HwPte, PteValid;
    var w := res.start + res.len;
    assert w < o + npg by { BlockFits(npg, res.block); }
    assert FirstMapped(ram, root, o, w);
    RestoredExactly(ram, root, o, npg, res);
  }

  lemma BlockFits(npg: nat, b: nat)
    requires PowerOfTwo(b) && npg / b % 2 == 1
    ensures npg % b + b <= npg
  {
    NextBit(npg, b);
  }

  method DoMapFresh(pt: PageTable, v: nat, flags: nat) returns (r: Outcome)
    requires pt.Valid() && pt.Owned() && Legal(MapFresh(v, flags))
    modifies pt`tables, pt.mem
    ensures pt.Valid()
    ensures !r.Panic? ==> Happens(old(SpaceOf(pt)), MapFresh(v, flags), SpaceOf(pt), pt.base)
    ensures r.Done? ==> Added(old(SpaceOf(pt)), SpaceOf(pt), pt.base, v, 1, [Leaf(flags, ZeroPage())])
    ensures old(pt.mem.refused) <= pt.mem.refused && (r.Done? ==> pt.mem.refused == old(pt.mem.refused))
    ensures pt.mem.refused == old(pt.mem.refused) ==> r == if PteValid(HwPte(old(pt.mem.ram), pt.base, v)) then Failed else Done
  {
    hide Tree, TablesOwned, LeavesOwned, HwPte, PteValid, PtePpn, Kept, TablesAdded, OnlyTablesNew, SameOutside, FilledBy, FreshBlock, ZeroBlock;
    hide Consistent, PageNumbers, Added, LeafFlags;
    ghost var s := SpaceOf(pt);
    ghost var oom, h, done;
    r, oom, h, done := AllocBlock(pt, v, 1, flags);
    if r.Done? {
      FreshAdded(s, SpaceOf(pt), pt.base, v, h, flags);
      FilledWasFree(s.ram, pt.mem.ram, pt.base, v, h, flags);
    } else if r.Failed? {
      SameNowhere(s.ram, pt.mem.ram, pt.base, v);
      NothingAdded(s, SpaceOf(pt), pt.base, v, [Leaf(flags, ZeroPage())]);
    }
  }

  method DoAlloc(pt: PageTable, oldSz: nat, newSz: nat, executable: bool, writeable: bool, forUser: bool) returns (r: Outcome)
    requires pt.Valid() && pt.Owned() && UpPages(newSz) <= VPNS
    requires newSz >= oldSz ==> NoResidue(pt.mem.ram, pt.base, UpPages(oldSz), PagesBetween(oldSz, newSz))
    modifies pt`tables, pt.mem
    ensures pt.Valid()
    ensures !r.Panic? ==> Happens(old(SpaceOf(pt)), Alloc(oldSz, newSz, executable, writeable, forUser), SpaceOf(pt), pt.base)
    ensures r.Done? && newSz >= oldSz ==> Added(old(SpaceOf(pt)), SpaceOf(pt), pt.base, UpPages(oldSz), PagesBetween(oldSz, newSz),
                                                ZeroLeaves(PagesBetween(oldSz, newSz), AllocFlags(executable, writeable, forUser)))
    ensures old(pt.mem.refused) <= pt.mem.refused && (r.Done? ==> pt.mem.refused == old(pt.mem.refused))
    ensures newSz < oldSz ==> r.Done?
    ensures newSz >= oldSz && pt.mem.refused == old(pt.mem.refused) ==>
              r == if RangeFree(old(pt.mem.ram), pt.base, UpPages(oldSz), PagesBetween(oldSz, newSz)) then Done else Failed
  {
    hide Tree, TablesOwned, LeavesOwned, HwPte, PteValid, PtePpn, Kept, TablesAdded, OnlyTablesNew, SameOutside, Grew;
    hide Consistent, PageNumbers, Explained, Stale, NoResidue, ZeroLeaves, AllocFlags, UpPages, Decomposed, RangeFree, AllPermit;
    ghost var s := SpaceOf(pt);
    var size;
    ghost var oom, res;
    r, size, oom, res := VmAlloc(pt, oldSz, newSz, executable, writeable, forUser);
    if r.Failed? {
      ghost var o, npg := UpPages(oldSz), PagesBetween(oldSz, newSz);
      if !oom { ResidueFree(s.ram, pt.base, o, npg, res); }
      SameNowhere(s.ram, pt.mem.ram, pt.base, res.start);
      NothingAdded(s, SpaceOf(pt), pt.base, o, ZeroLeaves(npg, AllocFlags(executable, writeable, forUser)));
    }
  }

  method DoMapForeign(pt: PageTable, v: nat, p: nat, flags: nat) returns (r: Outcome)
    requires pt.Valid() && pt.Owned() && Legal(MapForeign(v, p, flags))
    modifies pt`tables, pt.mem
    ensures pt.Valid()
    ensures !r.Panic? ==> Happens(old(SpaceOf(pt)), MapForeign(v, p, flags), SpaceOf(pt), pt.base)
    ensures r.Done? ==> Lent(old(SpaceOf(pt)), SpaceOf(pt), pt.base, v, p, flags)
    ensures r.Failed? <==> PteValid(HwPte(old(pt.mem.ram), pt.base, v))
    ensures pt.mem.refused == old(pt.mem.refused) + if r.Panic? then 1 else 0
  {
    hide Tree, TablesOwned, LeavesOwned, HwPte, PteValid, PtePpn, SameOutside, FilledBy, Grown, Consistent, PageNumbers, LeafPage, LeafFlags, Added;
    ghost var s := SpaceOf(pt);
    ghost var done;
    var va := v * PAGE_SIZE;
    assert va / PAGE_SIZE == v && va % PAGE_SIZE == 0;
    OnePage(va, p);
    if LeafPage(s.blk, s.tables, p) { OneLeafPage(s.blk, s.tables, p); }
    r, done := MapPages(pt, va, PAGE_SIZE, p * PAGE_SIZE, flags);
    if r.Failed? {
      SameNowhere(s.ram, pt.mem.ram, pt.base, v);
      GrownIsKept(s.ram, s.blk, s.tables, pt.mem.ram, pt.mem.blk, pt.tables);
      NothingAdded(s, SpaceOf(pt), pt.base, v, []);
    } else if r.Done? {
      FilledWasFree(s.ram, pt.mem.ram, pt.base, v, p, flags);
    }
  }

  method DoUnmap(pt: PageTable, v: nat, n: nat, free: bool) returns (r: Outcome)
    requires pt.Valid() && pt.Owned() && v + n <= VPNS && (free ==> DistinctPages(pt.mem.ram, pt.base, v, n))
    modifies pt`tables, pt.mem
    ensures pt.Valid()
    ensures r.Done? ==> Happens(old(SpaceOf(pt)), Unmap(v, n, free), SpaceOf(pt), pt.base)
    ensures r == if AllMapped(old(pt.mem.ram), pt.base, v, n) then Done else Panic
    ensures pt.mem.refused == old(pt.mem.refused)
  {
    hide Tree, TablesOwned, LeavesOwned, HwPte, PteValid, PtePpn, SameOutside, Cleared, Consistent, PageNumbers, RangeOwned, DistinctPages, WholeBlocks, AfterFree;
    assert v * PAGE_SIZE / PAGE_SIZE == v;
    OwnedRange(pt.mem.ram, pt.mem.blk, pt.base, pt.tables, v, n);
    ghost var done;
    ghost var ram0 := pt.mem.ram;
    r, done := VmUnmap(pt, v * PAGE_SIZE, n, free);
    if r.Done? { ClearedWasMapped(ram0, pt.mem.ram, pt.base, v, n); } else { NotAllMapped(ram0, pt.base, v, n, v + done); }
  }

  ghost predicate AllMapped(ram: Ram, root: nat, v: nat, n: nat) {
    forall w: nat :: v <= w < v + n ==> PteValid(HwPte(ram, root, w))
  }

  lemma NotAllMapped(ram: Ram, root: nat, v: nat, n: nat, w: nat)
    requires v <= w < v + n && !PteValid(HwPte(ram, root, w))
    ensures !AllMapped(ram, root, v, n)
  {}

  lemma ClearedWasMapped(ram: Ram, ram': Ram, root: nat, v: nat, n: nat)
    requires Cleared(ram, ram', root, v, v + n)
    ensures AllMapped(ram, root, v, n)
  {}

  lemma FilledWasFree(ram: Ram, ram': Ram, root: nat, v: nat, h: nat, flags: nat)
    requires FilledBy(ram, ram', root, v, v + 1, h, flags)
    ensures !PteValid(HwPte(ram, root, v))
  {}

  method DoDealloc(pt: PageTable, oldSz: nat, newSz: nat) returns (r: Outcome)
    requires pt.Valid() && pt.Owned() && UpPages(oldSz) <= VPNS
    requires newSz < oldSz ==> DistinctPages(pt.mem.ram, pt.base, UpPages(newSz), PagesBetween(newSz, oldSz))
    modifies pt`tables, pt.mem
    ensures pt.Valid()
    ensures r.Done? ==> Happens(old(SpaceOf(pt)), Dealloc(oldSz, newSz), SpaceOf(pt), pt.base)
    ensures newSz >= oldSz ==> r.Done?
    ensures newSz < oldSz ==> r == if AllMapped(old(pt.mem.ram), pt.base, UpPages(newSz), PagesBetween(newSz, oldSz)) then Done else Panic
    ensures pt.mem.refused == old(pt.mem.refused)
  {
    hide Tree, TablesOwned, LeavesOwned, HwPte, PteValid, PtePpn, SameOutside, Cleared, Consistent, PageNumbers, RangeOwned, DistinctPages, WholeBlocks, AfterFree, UpPages;
    if newSz < oldSz { OwnedRange(pt.mem.ram, pt.mem.blk, pt.base, pt.tables, UpPages(newSz), PagesBetween(newSz, oldSz)); }
    var size;
    ghost var done;
    ghost var ram0 := pt.mem.ram;
    r, size, done := VmDealloc(pt, oldSz, newSz);
    if newSz < oldSz {
      ghost var v, n := UpPages(newSz), PagesBetween(newSz, oldSz);
      if r.Done? { ClearedWasMapped(ram0, pt.mem.ram, pt.base, v, n); } else { NotAllMapped(ram0, pt.base, v, n, v + done); }
    }
  }

  method DoCopy(parent: PageTable, child: PageTable, start: nat, size: nat) returns (r: Outcome)
    requires Pair(parent, child) && Legal(Copy(parent.base, start, size))
    modifies parent`tables, child`tables, child.mem
    ensures !r.Panic? ==> Pair(parent, child) && Happens(old(SpaceOf(child)), Copy(parent.base, start, size), SpaceOf(child), child.base)
    ensures r.Done? ==> Added(old(SpaceOf(child)), SpaceOf(child), child.base, start / PAGE_SIZE, size / PAGE_SIZE,
                              LeavesOf(old(child.mem.ram), parent.base, start / PAGE_SIZE, size / PAGE_SIZE))
    ensures start % PAGE_SIZE == 0 && size % PAGE_SIZE == 0 && child.mem.refused == old(child.mem.refused) ==>
              r == CopyVerdict(old(child.mem.ram), parent.base, child.base, start / PAGE_SIZE, size / PAGE_SIZE)
  {
    hide Tree, TablesOwned, LeavesOwned, HwPte, PteValid, PtePpn, Kept, TablesAdded, OnlyTablesNew, SameOutside, Grew, Isolated, Consistent, PageNumbers, LeavesOf;
    ghost var s := SpaceOf(child);
    r := VmCopy(parent, child, start, size);
    if r.Failed? {
      NothingAdded(s, SpaceOf(child), child.base, start / PAGE_SIZE, LeavesOf(s.ram, parent.base, start / PAGE_SIZE, size / PAGE_SIZE));
    }
  }

  // --------------------------------------------------------------- teardown

  /** Pages of new blocks whose first page is still mapped. */
  ghost function LeftOver(blk0: Blocks, s: Space, root: nat): set<nat> {
    set p | p in s.blk && p !in blk0 && Behind(s.ram, root, s.blk[p])
  }

  lemma TornDown(blk0: Blocks, s: Space, root: nat)
    requires Accounted(blk0, s, root) && Sound(s, root)
    ensures (s.blk - s.tables.Values).Keys == blk0.Keys + LeftOver(blk0, s, root)
    ensures LeftOver(blk0, s, root) !! blk0.Keys
    ensures (forall v: nat, p: nat :: Shows(s.ram, root, v, p) ==> p in blk0) ==> s.blk - s.tables.Values == blk0
  {
    hide Tree, LeavesOwned, TablesOwned, Shows, Consistent, OnceEach, LeftOver;
    ShownIsOwned(s.ram, s.blk, root, s.tables);
    LeftOverFacts(blk0, s, root);
    SplitKeys(blk0, s.blk, s.tables.Values, LeftOver(blk0, s, root));
  }

  lemma LeftOverFacts(blk0: Blocks, s: Space, root: nat)
    requires NewKnown(blk0, s, root) && TablesOwned(s.blk, s.tables)
    requires forall v: nat, p: nat :: Shows(s.ram, root, v, p) ==> p in s.blk && p !in s.tables.Values
    ensures forall p :: p in LeftOver(blk0, s, root) ==> p in s.blk && p !in s.tables.Values && p !in blk0
    ensures forall p :: p in s.blk && p !in blk0 ==> p in s.tables.Values || p in LeftOver(blk0, s, root)
    ensures (forall v: nat, p: nat :: Shows(s.ram, root, v, p) ==> p in blk0) ==> LeftOver(blk0, s, root) == {}
  {
    hide TablesOwned, Shows;
    TableBlocks(s.blk, s.tables);
    forall p | p in LeftOver(blk0, s, root) ensures p !in s.tables.Values {
      var v: nat :| Shows(s.ram, root, v, s.blk[p]);
    }
  }

  lemma SplitKeys(blk0: Blocks, blk: Blocks, gone: set<nat>, left: set<nat>)
    requires forall p :: p in blk0 ==> p in blk && blk[p] == blk0[p] && p !in gone
    requires forall p :: p in left ==> p in blk && p !in gone && p !in blk0
    requires forall p :: p in blk && p !in blk0 ==> p in gone || p in left
    ensures (blk - gone).Keys == blk0.Keys + left && left !! blk0.Keys
    ensures left == {} ==> blk - gone == blk0
  {}

  /** freewalk at the end of such a life: exactly the new blocks whose first page is still mapped stay allocated.
      With none but foreign pages mapped, the allocation state is that from before vm_create. */
  method Teardown(pt: PageTable, ghost blk0: Blocks)
    requires pt.Valid() && pt.Owned() && Accounted(blk0, SpaceOf(pt), pt.base)
    modifies pt`tables, pt.mem
    ensures pt.mem.Valid() && Unwritten(blk0, old(pt.mem.ram), pt.mem.ram)
    ensures pt.mem.blk.Keys == blk0.Keys + old(LeftOver(blk0, SpaceOf(pt), pt.base))
    ensures forall p :: p in pt.mem.blk ==> pt.mem.blk[p] == old(pt.mem.blk)[p]
    ensures old(forall v: nat, p: nat :: Shows(pt.mem.ram, pt.base, v, p) ==> p in blk0) ==> pt.mem.blk == blk0
    ensures pt.mem.refused == old(pt.mem.refused)
  {
    hide Tree, TablesOwned, LeavesOwned, HwPte, PteValid, PtePpn, NewKnown, OnceEach, Consistent, PageNumbers, LeftOver, Shows;
    TornDown(blk0, SpaceOf(pt), pt.base);
    pt.FreeWalk();
  }

  // ------------------------------------------------------- when freeing is safe

  /** A mapped stretch that may be unmapped and freed as a whole. */
  ghost predicate Segment(blk0: Blocks, s: Space, root: nat, first: nat, n: nat) {
    && first + n <= VPNS && (forall v: nat :: first <= v < first + n ==> PteValid(HwPte(s.ram, root, v)))
    && DistinctPages(s.ram, root, first, n) && MayFreeRange(blk0, s, root, first, n)
  }

  /** What a step added is a segment. */
  lemma {:induction false} AddedSegment(blk0: Blocks, s: Space, s': Space, root: nat, o: nat, n: nat, like: seq<Leaf>)
    requires Accounted(blk0, s, root) && Sound(s, root) && Added(s, s', root, o, n, like)
    ensures Segment(blk0, s', root, o, n)
  {
    hide Tree, LeavesOwned, TablesOwned, HwPte, PteValid, PtePpn, RangePpns, Consistent, NewKnown, OnceEach, HeadBelow, PteFlags;
    AddedShown(s, s', root, o, n, like);
    ShownIsOwned(s.ram, s.blk, root, s.tables);
    SelfHeads(s, root);
    forall v: nat | o <= v < o + n ensures PteValid(HwPte(s'.ram, root, v)) {
      assert FreshMapping(s.ram, s.blk, s'.ram, root, o, like, v);
    }
    forall w: nat | w < VPNS && !(o <= w < o + n) && HwPte(s'.ram, root, w) != 0
      ensures PtePpn(HwPte(s'.ram, root, w)) in s'.blk && s'.blk[PtePpn(HwPte(s'.ram, root, w))] !in RangePpns(s'.ram, root, o, n)
    {
      assert HwPte(s'.ram, root, w) == HwPte(s.ram, root, w);
      EntryIsShown(s, root, w);
    }
  }

  lemma EntryIsShown(s: Space, root: nat, w: nat)
    requires Tree(s.ram, root, s.tables) && w < VPNS && HwPte(s.ram, root, w) != 0
    ensures Shows(s.ram, root, w, PtePpn(HwPte(s.ram, root, w)))
  {
    if !PteValid(HwPte(s.ram, root, w)) { UnmappedIsZero(s.ram, root, s.tables, w); }
  }

  /** Adding elsewhere leaves a segment one. */
  lemma {:induction false} SegmentKept(blk0: Blocks, s: Space, s': Space, root: nat, first: nat, n: nat, o: nat, m: nat, like: seq<Leaf>)
    requires Sound(s, root) && Added(s, s', root, o, m, like) && Segment(blk0, s, root, first, n)
    requires first + n <= o || o + m <= first
    ensures Segment(blk0, s', root, first, n)
  {
    hide Tree, LeavesOwned, TablesOwned, HwPte, PteValid, PtePpn, RangePpns, Consistent, PteFlags;
    AddedShown(s, s', root, o, m, like);
    ShownIsOwned(s.ram, s.blk, root, s.tables);
    forall v: nat | first <= v < first + n ensures HwPte(s'.ram, root, v) == HwPte(s.ram, root, v) {}
    RangePpnsKept(s.ram, s'.ram, root, first, n);
    RangeInBlk(s, root, first, n);
    forall w: nat | w < VPNS && !(first <= w < first + n) && HwPte(s'.ram, root, w) != 0
      ensures PtePpn(HwPte(s'.ram, root, w)) in s'.blk && s'.blk[PtePpn(HwPte(s'.ram, root, w))] !in RangePpns(s'.ram, root, first, n)
    {
      if o <= w < o + m {
        assert HeadBelow(s'.ram, s'.blk, root, o, w);
        var u: nat :| o <= u <= w && PtePpn(HwPte(s'.ram, root, u)) == s'.blk[PtePpn(HwPte(s'.ram, root, w))];
        assert FreshMapping(s.ram, s.blk, s'.ram, root, o, like, u);
      } else {
        assert HwPte(s'.ram, root, w) == HwPte(s.ram, root, w);
      }
    }
    assert DistinctPages(s'.ram, root, first, n);
  }

  lemma {:induction false} RangeInBlk(s: Space, root: nat, first: nat, n: nat)
    requires Tree(s.ram, root, s.tables) && LeavesOwned(s.ram, s.blk, s.tables) && first + n <= VPNS
    requires forall v: nat :: first <= v < first + n ==> PteValid(HwPte(s.ram, root, v))
    ensures forall p :: p in RangePpns(s.ram, root, first, n) ==> p in s.blk
  {
    hide Tree, LeavesOwned, HwPte, PteValid, PtePpn, RangePpns;
    ShownIsOwned(s.ram, s.blk, root, s.tables);
    forall p | p in RangePpns(s.ram, root, first, n) ensures p in s.blk {
      RangePpnsMember(s.ram, root, first, n, p);
      var v: nat :| first <= v < first + n && PtePpn(HwPte(s.ram, root, v)) == p;
      assert Shows(s.ram, root, v, p);
    }
  }

  /** So does unmapping and freeing elsewhere. */
  lemma {:induction false} SegmentLeft(blk0: Blocks, s: Space, s': Space, root: nat, first: nat, n: nat, o: nat, m: nat)
    requires Removed(s, s', root, o, m, true) && Segment(blk0, s, root, first, n) && Sound(s', root)
    requires first + n <= o || o + m <= first
    ensures Segment(blk0, s', root, first, n)
  {
    hide Tree, LeavesOwned, TablesOwned, HwPte, PteValid, PtePpn, RangePpns, Consistent, Cleared;
    forall v: nat | first <= v < first + n ensures HwPte(s'.ram, root, v) == HwPte(s.ram, root, v) {}
    RangePpnsKept(s.ram, s'.ram, root, first, n);
    ShownIsOwned(s'.ram, s'.blk, root, s'.tables);
    forall w: nat | w < VPNS && !(first <= w < first + n) && HwPte(s'.ram, root, w) != 0
      ensures PtePpn(HwPte(s'.ram, root, w)) in s'.blk && s'.blk[PtePpn(HwPte(s'.ram, root, w))] !in RangePpns(s'.ram, root, first, n)
    {
      EntryIsShown(s', root, w);
      ClearedIsZero(s, s', root, o, m, w);
    }
    assert DistinctPages(s'.ram, root, first, n);
  }

  lemma ClearedIsZero(s: Space, s': Space, root: nat, o: nat, m: nat, w: nat)
    requires Removed(s, s', root, o, m, true) && w < VPNS && HwPte(s'.ram, root, w) != 0
    ensures HwPte(s'.ram, root, w) == HwPte(s.ram, root, w)
  {
    hide HwPte;
  }

  /** And mapping a foreign page elsewhere. */
  lemma {:induction false} SegmentLent(blk0: Blocks, s: Space, s': Space, root: nat, first: nat, n: nat, v: nat, p: nat, flags: nat)
    requires Accounted(blk0, s, root) && Sound(s, root) && Lent(s, s', root, v, p, flags) && Segment(blk0, s, root, first, n) && p in blk0
    requires v < first || first + n <= v
    ensures Segment(blk0, s', root, first, n)
  {
    hide Tree, LeavesOwned, TablesOwned, HwPte, PteValid, PtePpn, RangePpns, Consistent, MakePte, PteFlags, Accounted, LeafFlags, FilledBy;
    forall w: nat | first <= w < first + n ensures HwPte(s'.ram, root, w) == HwPte(s.ram, root, w) {}
    RangePpnsKept(s.ram, s'.ram, root, first, n);
    forall w: nat | w < VPNS && !(first <= w < first + n) && HwPte(s'.ram, root, w) != 0
      ensures PtePpn(HwPte(s'.ram, root, w)) in s'.blk && s'.blk[PtePpn(HwPte(s'.ram, root, w))] !in RangePpns(s'.ram, root, first, n)
    {
      if w == v {
        LentFrame(s, s', root, v, p, flags);
        ForeignHead(blk0, s, root, first, n, p);
      } else {
        assert HwPte(s'.ram, root, w) == HwPte(s.ram, root, w);
      }
    }
    assert DistinctPages(s'.ram, root, first, n);
  }

  lemma ForeignHead(blk0: Blocks, s: Space, root: nat, first: nat, n: nat, p: nat)
    requires Accounted(blk0, s, root) && Sound(s, root) && MayFreeRange(blk0, s, root, first, n) && p in blk0
    ensures p in s.blk && s.blk[p] !in RangePpns(s.ram, root, first, n)
  {
    hide Tree, LeavesOwned, TablesOwned, RangePpns, NewKnown, OnceEach, WholeBlocks;
    SelfHeads(s, root);
    var h := blk0[p];
    assert h in blk0 && s.blk[h] == h;
  }

  lemma LentFrame(s: Space, s': Space, root: nat, v: nat, p: nat, flags: nat)
    requires Lent(s, s', root, v, p, flags)
    ensures PtePpn(HwPte(s'.ram, root, v)) == p
  {
    hide HwPte, MakePte, PtePpn, PteValid, PteIsDir;
    assert HwPte(s'.ram, root, v) == MakePte(p + v - v, flags);
    PteParts(p, flags);
  }
}
