/** The memory of a process from alloc_proc to freeproc, and what a careless unmap does to it. */
module ProcessLife {
  import opened AddressSpace
  import opened Isolation
  import opened Lifecycle
  import opened PageAllocator
  import opened PageTables
  import opened PhysicalMemory
  import opened Sv39
  import opened VirtualMemory
  import opened Wrappers

  /** The virtual page of the trap frame, right below 64 GiB. */
  const TRAP_FRAME: nat := 0xff_ffff

  /** A stretch of pages that a process maps and later frees as a whole: a program segment, the stack, the heap. */
  datatype Part = Part(first: nat, npages: nat)

  predicate Apart(a: Part, b: Part) {
    a.first + a.npages <= b.first || b.first + b.npages <= a.first
  }

  predicate Separate(parts: seq<Part>) {
    forall i, j :: 0 <= i < j < |parts| ==> Apart(parts[i], parts[j])
  }

  predicate Covers(parts: seq<Part>, v: nat) {
    exists i :: 0 <= i < |parts| && parts[i].first <= v < parts[i].first + parts[i].npages
  }

  /** The address space maps exactly the parts, each freeable as a whole, and the trampoline if lent. */
  ghost predicate Alive(blk0: Blocks, ram0: Ram, s: Space, root: nat, parts: seq<Part>, lent: bool, frame: nat) {
    && Accounted(blk0, s, root) && Sound(s, root) && Unwritten(blk0, ram0, s.ram) && Separate(parts) && frame in blk0
    && (forall i :: 0 <= i < |parts| ==> Segment(blk0, s, root, parts[i].first, parts[i].npages))
    && (forall v: nat :: v < VPNS && PteValid(HwPte(s.ram, root, v)) ==> Covers(parts, v) || (lent && v == TRAMPOLINE))
    && (lent ==> Shows(s.ram, root, TRAMPOLINE, frame))
  }

  lemma {:induction false} AliveAdded(blk0: Blocks, ram0: Ram, s: Space, st: Step, s': Space, root: nat, parts: seq<Part>, lent: bool, frame: nat,
                   o: nat, n: nat, like: seq<Leaf>)
    requires Alive(blk0, ram0, s, root, parts, lent, frame) && Happens(s, st, s', root) && Allowed(blk0, s, st, root)
    requires Added(s, s', root, o, n, like) && Separate(parts + [Part(o, n)])
    ensures Alive(blk0, ram0, s', root, parts + [Part(o, n)], lent, frame)
  {
    hide HwPte, PteValid, PtePpn, Accounted, Sound, Happens, Allowed, Segment, Unwritten;
    var parts' := parts + [Part(o, n)];
    StepAccounts(blk0, s, st, s', root);
    StepUnwritten(blk0, ram0, s, st, s', root);
    AddedSegment(blk0, s, s', root, o, n, like);
    forall i | 0 <= i < |parts'| ensures Segment(blk0, s', root, parts'[i].first, parts'[i].npages) {
      if i < |parts| {
        assert Apart(parts'[i], parts'[|parts|]);
        SegmentKept(blk0, s, s', root, parts[i].first, parts[i].npages, o, n, like);
      }
    }
    AddedShown(s, s', root, o, n, like);
    forall v: nat | v < VPNS && PteValid(HwPte(s'.ram, root, v)) ensures Covers(parts', v) || (lent && v == TRAMPOLINE) {
      assert Shows(s'.ram, root, v, PtePpn(HwPte(s'.ram, root, v)));
      if o <= v < o + n {
        assert parts'[|parts|].first <= v;
      } else if Covers(parts, v) {
        var i :| 0 <= i < |parts| && parts[i].first <= v < parts[i].first + parts[i].npages;
        assert parts'[i] == parts[i];
      }
    }
  }

  lemma {:induction false} AliveLent(blk0: Blocks, ram0: Ram, s: Space, st: Step, s': Space, root: nat, parts: seq<Part>, frame: nat, flags: nat)
    requires Alive(blk0, ram0, s, root, parts, false, frame) && Happens(s, st, s', root) && Allowed(blk0, s, st, root)
    requires Lent(s, s', root, TRAMPOLINE, frame, flags) && Separate(parts + [Part(TRAMPOLINE, 1)])
    ensures Alive(blk0, ram0, s', root, parts, true, frame)
  {
    hide HwPte, PteValid, PtePpn, Accounted, Sound, Happens, Allowed, Segment, Unwritten, Lent;
    StepAccounts(blk0, s, st, s', root);
    StepUnwritten(blk0, ram0, s, st, s', root);
    LentShown(s, s', root, TRAMPOLINE, frame, flags);
    forall i | 0 <= i < |parts| ensures Segment(blk0, s', root, parts[i].first, parts[i].npages) {
      var parts' := parts + [Part(TRAMPOLINE, 1)];
      assert Apart(parts'[i], parts'[|parts|]);
      SegmentLent(blk0, s, s', root, parts[i].first, parts[i].npages, TRAMPOLINE, frame, flags);
    }
    forall v: nat | v < VPNS && PteValid(HwPte(s'.ram, root, v)) ensures Covers(parts, v) || v == TRAMPOLINE {
      assert Shows(s'.ram, root, v, PtePpn(HwPte(s'.ram, root, v)));
    }
  }

  lemma {:induction false} AliveFreed(blk0: Blocks, ram0: Ram, s: Space, st: Step, s': Space, root: nat, parts: seq<Part>, lent: bool, frame: nat)
    requires Alive(blk0, ram0, s, root, parts, lent, frame) && Happens(s, st, s', root) && |parts| > 0
    requires st == Unmap(parts[0].first, parts[0].npages, true)
    requires lent ==> !Covers(parts, TRAMPOLINE)
    ensures Alive(blk0, ram0, s', root, parts[1..], lent, frame)
  {
    hide HwPte, PteValid, PtePpn, Accounted, Sound, Unwritten, Removed, Tree, TablesOwned, LeavesOwned, Consistent, DistinctPages, MayFreeRange;
    var o, m, rest := parts[0].first, parts[0].npages, parts[1..];
    assert Segment(blk0, s, root, o, m);
    assert Allowed(blk0, s, st, root) && Removed(s, s', root, o, m, true);
    StepAccounts(blk0, s, st, s', root);
    StepUnwritten(blk0, ram0, s, st, s', root);
    RemovedShown(s, s', root, o, m, true);
    hide Segment, Happens, Allowed;
    forall i | 0 <= i < |rest| ensures Segment(blk0, s', root, rest[i].first, rest[i].npages) {
      assert rest[i] == parts[i + 1] && Apart(parts[0], parts[i + 1]);
      SegmentLeft(blk0, s, s', root, rest[i].first, rest[i].npages, o, m);
    }
    forall v: nat | v < VPNS && PteValid(HwPte(s'.ram, root, v)) ensures Covers(rest, v) || (lent && v == TRAMPOLINE) {
      assert Shows(s'.ram, root, v, PtePpn(HwPte(s'.ram, root, v)));
      if Covers(parts, v) {
        var i :| 0 <= i < |parts| && parts[i].first <= v < parts[i].first + parts[i].npages;
        assert i > 0 && rest[i - 1] == parts[i];
      }
    }
    if lent {
      assert !(o <= TRAMPOLINE < o + m) by { assert o <= TRAMPOLINE < o + m ==> Covers(parts, TRAMPOLINE); }
    }
  }

  lemma {:induction false} AliveDropped(blk0: Blocks, ram0: Ram, s: Space, s': Space, root: nat, frame: nat)
    requires Alive(blk0, ram0, s, root, [], true, frame) && Happens(s, Unmap(TRAMPOLINE, 1, false), s', root)
    ensures Alive(blk0, ram0, s', root, [], false, frame)
    ensures forall v: nat, p: nat :: !Shows(s'.ram, root, v, p)
  {
    hide HwPte, PteValid, PtePpn, Sound, Unwritten, Removed, Accounted, Tree, TablesOwned, LeavesOwned, Consistent, RangePpns, Segment;
    var st := Unmap(TRAMPOLINE, 1, false);
    RemovedShown(s, s', root, TRAMPOLINE, 1, false);
    forall p | p in RangePpns(s.ram, root, TRAMPOLINE, 1) ensures p in blk0 {
      var v: nat :| TRAMPOLINE <= v < TRAMPOLINE + 1 && Shows(s.ram, root, v, p);
    }
    assert Allowed(blk0, s, st, root);
    hide Happens, Allowed, Shows;
    StepAccounts(blk0, s, st, s', root);
    StepUnwritten(blk0, ram0, s, st, s', root);
    DroppedAll(s, s', root);
  }

  lemma DroppedAll(s: Space, s': Space, root: nat)
    requires forall v: nat :: v < VPNS && PteValid(HwPte(s.ram, root, v)) ==> Covers([], v) || v == TRAMPOLINE
    requires forall w: nat, p: nat :: Shows(s'.ram, root, w, p) <==> Shows(s.ram, root, w, p) && !(TRAMPOLINE <= w < TRAMPOLINE + 1)
    ensures forall v: nat, p: nat :: !Shows(s'.ram, root, v, p)
    ensures forall v: nat :: v < VPNS ==> !PteValid(HwPte(s'.ram, root, v))
  {
    hide HwPte, PteValid, PtePpn;
    assert forall v: nat :: v < VPNS && PteValid(HwPte(s'.ram, root, v)) ==> Shows(s'.ram, root, v, PtePpn(HwPte(s'.ram, root, v)));
  }

  lemma AliveStart(blk0: Blocks, ram0: Ram, s: Space, root: nat, frame: nat)
    requires Accounted(blk0, s, root) && Sound(s, root) && Unwritten(blk0, ram0, s.ram) && frame in blk0
    requires forall v: nat :: v < VPNS ==> HwPte(s.ram, root, v) == 0
    ensures Alive(blk0, ram0, s, root, [], false, frame)
  {
    hide HwPte, Accounted, Sound;
    assert !PteValid(0);
  }

  /** A range that no part covers is unmapped, so vm_alloc cannot leave a residue there. */
  lemma ClearToGrow(blk0: Blocks, ram0: Ram, s: Space, root: nat, parts: seq<Part>, lent: bool, frame: nat, o: nat, n: nat)
    requires Alive(blk0, ram0, s, root, parts, lent, frame) && Separate(parts + [Part(o, n)]) && o + n <= TRAMPOLINE
    ensures RangeFree(s.ram, root, o, n) && NoResidue(s.ram, root, o, n)
  {
    hide HwPte, PteValid, Accounted, Sound, Segment, Unwritten, Shows;
    var parts' := parts + [Part(o, n)];
    forall i | 0 <= i < |parts| ensures Apart(parts[i], Part(o, n)) {
      assert Apart(parts'[i], parts'[|parts|]);
    }
    assert forall w: nat :: o <= w < o + n ==> !Covers(parts, w);
    assert forall w: nat :: o <= w < o + n ==> !PteValid(HwPte(s.ram, root, w));
  }

  lemma SeparatePrefix(parts: seq<Part>, k: nat)
    requires Separate(parts) && k < |parts|
    ensures Separate(parts[..k] + [parts[k]]) && parts[..k] + [parts[k]] == parts[..k + 1]
  {}

  /** The parts of a process: the trap frame's page, and below it everything that vm_alloc provides. */
  predicate Layout(parts: seq<Part>) {
    && |parts| > 0 && parts[0] == Part(TRAP_FRAME, 1) && Separate(parts)
    && forall i :: 0 < i < |parts| ==> parts[i].first + parts[i].npages <= TRAP_FRAME
  }

  lemma LayoutFacts(parts: seq<Part>, k: nat)
    requires Layout(parts) && k <= |parts|
    ensures !Covers(parts[k..], TRAMPOLINE) && Separate(parts[..k] + [Part(TRAMPOLINE, 1)])
  {}

  method GrowParts(pt: PageTable, parts: seq<Part>, ghost blk0: Blocks, ghost ram0: Ram, ghost frame: nat) returns (r: Outcome)
    requires pt.Valid() && pt.Owned() && Layout(parts) && Alive(blk0, ram0, SpaceOf(pt), pt.base, parts[..1], true, frame)
    modifies pt`tables, pt.mem
    ensures pt.Valid()
    ensures r.Done? ==> pt.Owned() && Alive(blk0, ram0, SpaceOf(pt), pt.base, parts, true, frame)
    ensures old(pt.mem.refused) <= pt.mem.refused && (r.Done? <==> pt.mem.refused == old(pt.mem.refused))
  {
    hide Alive, Accounted, Sound, Happens, Added, NoResidue, HwPte, Tree, TablesOwned, LeavesOwned, Consistent, PageNumbers;
    var k := 1;
    while k < |parts|
      invariant 1 <= k <= |parts| && pt.Valid() && pt.Owned() && pt.mem.refused == old(pt.mem.refused)
      invariant Alive(blk0, ram0, SpaceOf(pt), pt.base, parts[..k], true, frame)
    {
      ghost var s, o, n := SpaceOf(pt), parts[k].first, parts[k].npages;
      SeparatePrefix(parts, k);
      ClearToGrow(blk0, ram0, s, pt.base, parts[..k], true, frame, o, n);
      var lo, hi := parts[k].first * PAGE_SIZE, (parts[k].first + parts[k].npages) * PAGE_SIZE;
      assert UpPages(lo) == o && UpPages(hi) == o + n;
      r := DoAlloc(pt, lo, hi, false, false, true);
      if r != Done {
        return;
      }
      AliveAdded(blk0, ram0, s, Alloc(lo, hi, false, false, true), SpaceOf(pt), pt.base, parts[..k], true, frame, o, n,
                 ZeroLeaves(n, AllocFlags(false, false, true)));
      AliveSound(blk0, ram0, SpaceOf(pt), pt.base, parts[..k + 1], true, frame);
      k := k + 1;
    }
    assert parts[..|parts|] == parts;
    r := Done;
  }

  lemma AliveSound(blk0: Blocks, ram0: Ram, s: Space, root: nat, parts: seq<Part>, lent: bool, frame: nat)
    requires Alive(blk0, ram0, s, root, parts, lent, frame)
    ensures LeavesOwned(s.ram, s.blk, s.tables) && Accounted(blk0, s, root) && Unwritten(blk0, ram0, s.ram)
    ensures |parts| > 0 ==> DistinctPages(s.ram, root, parts[0].first, parts[0].npages) && parts[0].first + parts[0].npages <= VPNS
    ensures |parts| > 0 ==> AllMapped(s.ram, root, parts[0].first, parts[0].npages)
    ensures lent ==> AllMapped(s.ram, root, TRAMPOLINE, 1)
  {
    hide HwPte, Accounted, LeavesOwned, DistinctPages, MayFreeRange, Unwritten;
    if |parts| > 0 { assert Segment(blk0, s, root, parts[0].first, parts[0].npages); }
  }

  /** freeproc's unmapping: part after part, then the trampoline without freeing it. It cannot fail. */
  method FreeParts(pt: PageTable, parts: seq<Part>, ghost blk0: Blocks, ghost ram0: Ram, ghost frame: nat) returns (r: Outcome)
    requires pt.Valid() && pt.Owned() && Layout(parts) && Alive(blk0, ram0, SpaceOf(pt), pt.base, parts, true, frame)
    modifies pt`tables, pt.mem
    ensures r.Done? && pt.Valid() && pt.Owned() && Alive(blk0, ram0, SpaceOf(pt), pt.base, [], false, frame)
    ensures forall v: nat, p: nat :: !Shows(pt.mem.ram, pt.base, v, p)
    ensures pt.mem.refused == old(pt.mem.refused)
  {
    hide Alive, Accounted, Sound, Happens, Removed, HwPte, Tree, TablesOwned, LeavesOwned, Consistent, PageNumbers, DistinctPages, Shows;
    var k := 0;
    assert parts[0..] == parts;
    while k < |parts|
      invariant 0 <= k <= |parts| && pt.Valid() && pt.Owned() && pt.mem.refused == old(pt.mem.refused)
      invariant Alive(blk0, ram0, SpaceOf(pt), pt.base, parts[k..], true, frame)
    {
      ghost var s := SpaceOf(pt);
      AliveSound(blk0, ram0, s, pt.base, parts[k..], true, frame);
      r := DoUnmap(pt, parts[k].first, parts[k].npages, true);
      LayoutFacts(parts, k);
      AliveFreed(blk0, ram0, s, Unmap(parts[k].first, parts[k].npages, true), SpaceOf(pt), pt.base, parts[k..], true, frame);
      assert parts[k..][1..] == parts[k + 1..];
      AliveSound(blk0, ram0, SpaceOf(pt), pt.base, parts[k + 1..], true, frame);
      k := k + 1;
    }
    assert parts[|parts|..] == [];
    ghost var s := SpaceOf(pt);
    AliveSound(blk0, ram0, s, pt.base, [], true, frame);
    r := DoUnmap(pt, TRAMPOLINE, 1, false);
    AliveDropped(blk0, ram0, s, SpaceOf(pt), pt.base, frame);
    AliveSound(blk0, ram0, SpaceOf(pt), pt.base, [], false, frame);
  }

  /** alloc_proc and proc_init: a new address space with a trap frame of its own and the trampoline's frame, which it shares
      with all other processes. */
  method Born(mem: Memory, trampoline: nat) returns (r: Outcome, pt: PageTable?)
    requires mem.Valid() && trampoline in mem.blk
    modifies mem
    ensures old(mem.refused) <= mem.refused && (r.Done? <==> mem.refused == old(mem.refused))
    ensures r.Done? ==> pt != null && fresh(pt) && pt.mem == mem && pt.Valid() && pt.Owned()
    ensures r.Done? ==> Alive(old(mem.blk), old(mem.ram), SpaceOf(pt), pt.base, [Part(TRAP_FRAME, 1)], true, trampoline)
    ensures r.Done? ==> Permits(HwPte(mem.ram, pt.base, TRAP_FRAME), false, false, false)
                        && Permits(HwPte(mem.ram, pt.base, TRAMPOLINE), true, false, false)
  {
    hide Alive, Accounted, Sound, Happens, Added, Lent, HwPte, Tree, TablesOwned, LeavesOwned, Consistent, PageNumbers, Shows, LeafFlags, Permits;
    ghost var ram0, blk0 := mem.ram, mem.blk;
    r, pt := VmCreate(mem);
    if r != Done {
      return;
    }
    ghost var s0, root := SpaceOf(pt), pt.base;
    StartSound(pt, ram0, blk0, trampoline);
    FrameKnown(mem.ram.Keys, blk0, old(mem.spare), trampoline);
    assert LeafFlags(PTE_V + PTE_R + PTE_W) && LeafFlags(PTE_V + PTE_R + PTE_X) by { FlagsAreLeaves(); }
    assert !PteValid(0);
    r := DoMapFresh(pt, TRAP_FRAME, PTE_V + PTE_R + PTE_W);
    if r != Done {
      return;
    }
    ghost var s1, parts := SpaceOf(pt), [Part(TRAP_FRAME, 1)];
    assert [] + parts == parts;
    AliveAdded(blk0, ram0, s0, MapFresh(TRAP_FRAME, PTE_V + PTE_R + PTE_W), s1, root, [], false, trampoline,
               TRAP_FRAME, 1, [Leaf(PTE_V + PTE_R + PTE_W, ZeroPage())]);
    AliveSound(blk0, ram0, s1, root, parts, false, trampoline);
    MayLend(blk0, ram0, s1, root, parts, trampoline);
    NotYetLent(blk0, ram0, s1, root, trampoline);
    r := DoMapForeign(pt, TRAMPOLINE, trampoline, PTE_V + PTE_R + PTE_X);
    if r != Done {
      return;
    }
    AliveLent(blk0, ram0, s1, MapForeign(TRAMPOLINE, trampoline, PTE_V + PTE_R + PTE_X), SpaceOf(pt), root, parts, trampoline,
              PTE_V + PTE_R + PTE_X);
    AliveSound(blk0, ram0, SpaceOf(pt), root, parts, true, trampoline);
    KernelEntries(s0, s1, SpaceOf(pt), root, trampoline);
  }

  /** User mode reaches neither the trap frame nor the trampoline. */
  lemma KernelEntries(s0: Space, s1: Space, s2: Space, root: nat, frame: nat)
    requires Added(s0, s1, root, TRAP_FRAME, 1, [Leaf(PTE_V + PTE_R + PTE_W, ZeroPage())])
    requires Lent(s1, s2, root, TRAMPOLINE, frame, PTE_V + PTE_R + PTE_X)
    ensures Permits(HwPte(s2.ram, root, TRAP_FRAME), false, false, false) && Permits(HwPte(s2.ram, root, TRAMPOLINE), true, false, false)
  {
    hide HwPte, PtePpn, PteValid, PteFlags, Kept, TablesAdded, Grown, HeadBelow, DistinctPages, PteIsDir;
    var data, code := PTE_V + PTE_R + PTE_W, PTE_V + PTE_R + PTE_X;
    var e, c := HwPte(s2.ram, root, TRAP_FRAME), HwPte(s2.ram, root, TRAMPOLINE);
    assert FreshMapping(s0.ram, s0.blk, s1.ram, root, TRAP_FRAME, [Leaf(data, ZeroPage())], TRAP_FRAME);
    assert e == HwPte(s1.ram, root, TRAP_FRAME);
    FilledHere(s1.ram, s2.ram, root, TRAMPOLINE, frame, code);
    PteParts(frame, code);
    hide PteRead, PteWrite, PteExec, PteUser, MakePte;
    FlagPermits();
    PermissionBits(e);
    PermissionBits(c);
  }

  lemma FlagPermits()
    ensures Permits(PTE_V + PTE_R + PTE_W, false, false, false) && Permits(PTE_V + PTE_R + PTE_X, true, false, false)
  {}

  lemma NotYetLent(blk0: Blocks, ram0: Ram, s: Space, root: nat, frame: nat)
    requires Alive(blk0, ram0, s, root, [Part(TRAP_FRAME, 1)], false, frame)
    ensures !PteValid(HwPte(s.ram, root, TRAMPOLINE))
  {
    hide HwPte, PteValid, Segment, Sound, Accounted, Unwritten, Shows;
    assert !Covers([Part(TRAP_FRAME, 1)], TRAMPOLINE);
  }

  /** alloc_proc, proc_init, any program segments, stack and heap, freeproc: every page comes back, and no page that
      was in use before has changed. Only a refusal of the allocator can cut it short. */
  method WholeLife(mem: Memory, trampoline: nat, parts: seq<Part>) returns (r: Outcome)
    requires mem.Valid() && trampoline in mem.blk && Layout(parts)
    modifies mem
    ensures r.Done? ==> mem.Valid() && mem.blk == old(mem.blk) && Unwritten(old(mem.blk), old(mem.ram), mem.ram)
    ensures r.Done? <==> mem.refused == old(mem.refused)
  {
    hide Alive, Accounted, HwPte, Tree, TablesOwned, LeavesOwned, Consistent, PageNumbers, Shows, AllMapped, DistinctPages;
    ghost var ram0, blk0 := mem.ram, mem.blk;
    var pt;
    r, pt := Born(mem, trampoline);
    if r != Done {
      return;
    }
    assert [Part(TRAP_FRAME, 1)] == parts[..1];
    r := GrowParts(pt, parts, blk0, ram0, trampoline);
    if r != Done {
      return;
    }
    r := FreeParts(pt, parts, blk0, ram0, trampoline);
    AliveSound(blk0, ram0, SpaceOf(pt), pt.base, [], false, trampoline);
    Teardown(pt, blk0);
  }

  lemma FlagsAreLeaves()
    ensures LeafFlags(PTE_V + PTE_R + PTE_W) && LeafFlags(PTE_V + PTE_R + PTE_X)
  {}

  lemma FrameKnown(pages: set<nat>, blk: Blocks, spare: set<nat>, p: nat)
    requires PageNumbers(pages) && Consistent(pages, blk, spare) && p in blk
    ensures p < PPNS
  {}

  lemma StartSound(pt: PageTable, ram0: Ram, blk0: Blocks, frame: nat)
    requires pt.Valid() && pt.Owned() && Accounted(blk0, SpaceOf(pt), pt.base) && frame in blk0
    requires pt.base !in blk0 && pt.base in ram0 && pt.mem.ram == ram0[pt.base := ZeroPage()]
    requires forall v: nat :: v < VPNS ==> HwPte(pt.mem.ram, pt.base, v) == 0
    ensures Alive(blk0, ram0, SpaceOf(pt), pt.base, [], false, frame)
  {
    hide HwPte, Accounted, Tree, TablesOwned, LeavesOwned, Consistent;
    AliveStart(blk0, ram0, SpaceOf(pt), pt.base, frame);
  }

  lemma MayLend(blk0: Blocks, ram0: Ram, s: Space, root: nat, parts: seq<Part>, frame: nat)
    requires Alive(blk0, ram0, s, root, parts, false, frame)
    ensures forall flags :: Allowed(blk0, s, MapForeign(TRAMPOLINE, frame, flags), root)
  {
    hide HwPte, Segment, Sound, NewKnown, OnceEach, Unwritten;
  }

  // -------------------------------------------------------- a torn block

  /** Unmapping and freeing the first page of a two-page block: the second stays mapped although its frame f is free. */
  method TornBlock(pt: PageTable, v: nat) returns (r: Outcome, ghost f: nat)
    requires pt.Valid() && pt.Owned() && v + 2 <= VPNS
    requires !PteValid(HwPte(pt.mem.ram, pt.base, v)) && !PteValid(HwPte(pt.mem.ram, pt.base, v + 1))
    modifies pt`tables, pt.mem
    ensures r.Done? ==> pt.Valid() && !pt.Owned() && Dangling(pt, v + 1, f)
    ensures pt.mem.refused == old(pt.mem.refused) ==> r.Done?
  {
    hide Tree, TablesOwned, LeavesOwned, HwPte, PteValid, PtePpn, Kept, TablesAdded, OnlyTablesNew, SameOutside, Grew, Decomposed, RangeOwned;
    hide Consistent, PageNumbers, Explained, Stale, ZeroLeaves, AllocFlags, Cleared, AfterFree, WholeBlocks, DistinctPages, RangeFree, AllPermit;
    ghost var ram0, blk0, root := pt.mem.ram, pt.mem.blk, pt.base;
    var lo, hi := v * PAGE_SIZE, (v + 2) * PAGE_SIZE;
    assert UpPages(lo) == v && UpPages(hi) == v + 2 && lo / PAGE_SIZE == v && lo % PAGE_SIZE == 0;
    f := 0;
    var size;
    ghost var oom, res;
    TwoFree(ram0, root, v);
    r, size, oom, res := VmAlloc(pt, lo, hi, false, false, true);
    if r != Done {
      return;
    }
    ghost var ram1, blk1, spare1, t := pt.mem.ram, pt.mem.blk, pt.mem.spare, pt.tables;
    f := PtePpn(HwPte(ram1, root, v + 1));
    AllFresh(ram0, blk0, ram1, blk1, root, t, v, 2, ZeroLeaves(2, AllocFlags(false, false, true)), v + 1);
    OwnedRange(ram1, blk1, root, t, v, 1);
    AllFresh(ram0, blk0, ram1, blk1, root, t, v, 2, ZeroLeaves(2, AllocFlags(false, false, true)), v);
    OnePageDistinct(ram1, root, v);
    ghost var done;
    r, done := VmUnmap(pt, lo, 1, true);
    TwoPageBlock(ram1, blk1, root, v);
    OwnedLeaf(ram1, blk1, spare1, root, t, v + 1);
    FreedTwo(ram1, blk1, pt.mem.ram, root, v);
    NotOwned(pt.mem.ram, pt.mem.blk, root, t, v + 1);
  }

  /** Page v maps frame f, which is free. */
  ghost predicate Dangling(pt: PageTable, v: nat, f: nat)
    reads pt, pt.mem
  {
    && v < VPNS && PteValid(HwPte(pt.mem.ram, pt.base, v)) && PtePpn(HwPte(pt.mem.ram, pt.base, v)) == f
    && f in pt.mem.ram && f !in pt.mem.blk && f !in pt.tables.Values
  }

  lemma TwoPageBlock(ram: Ram, blk: Blocks, root: nat, v: nat)
    requires Decomposed(ram, blk, root, v, 2, 3)
    ensures var h, f := PtePpn(HwPte(ram, root, v)), PtePpn(HwPte(ram, root, v + 1)); f == h + 1 && f in blk && blk[f] == h
  {
    hide HwPte, PtePpn;
    assert PowerOfTwo(1) && PowerOfTwo(2);
    assert OneRun(ram, blk, root, v + 2 % 2, 2);
  }

  lemma TwoFree(ram: Ram, root: nat, v: nat)
    requires !PteValid(HwPte(ram, root, v)) && !PteValid(HwPte(ram, root, v + 1))
    ensures RangeFree(ram, root, v, 2)
  {}

  lemma OnePageDistinct(ram: Ram, root: nat, v: nat)
    ensures DistinctPages(ram, root, v, 1)
  {}

  lemma OwnedLeaf(ram: Ram, blk: Blocks, spare: set<nat>, root: nat, tables: Tables, v: nat)
    requires Tree(ram, root, tables) && LeavesOwned(ram, blk, tables) && v < VPNS && PteValid(HwPte(ram, root, v))
    requires Consistent(ram.Keys, blk, spare)
    ensures PtePpn(HwPte(ram, root, v)) !in tables.Values && PtePpn(HwPte(ram, root, v)) in ram
  {
    HardwareSeesTree(ram, root, tables, v);
    assert LeafPage(blk, tables, PtePpn(PteOf(ram, tables, v)));
  }

  lemma FreedTwo(ram: Ram, blk: Blocks, ram': Ram, root: nat, v: nat)
    requires SameOutside(ram, ram', root, v, v + 1) && v + 1 < VPNS
    requires var h, f := PtePpn(HwPte(ram, root, v)), PtePpn(HwPte(ram, root, v + 1)); f in blk && blk[f] == h
    ensures HwPte(ram', root, v + 1) == HwPte(ram, root, v + 1)
    ensures PtePpn(HwPte(ram, root, v + 1)) !in AfterFree(ram, blk, root, v, 1)
  {
    hide HwPte, PtePpn, RangePpns;
    RangePpnsMember(ram, root, v, 1, PtePpn(HwPte(ram, root, v)));
  }

  lemma NotOwned(ram: Ram, blk: Blocks, root: nat, tables: Tables, v: nat)
    requires Tree(ram, root, tables) && v < VPNS && PteValid(HwPte(ram, root, v)) && PtePpn(HwPte(ram, root, v)) !in blk
    ensures !LeavesOwned(ram, blk, tables)
  {
    HardwareSeesTree(ram, root, tables, v);
    assert !LeafPage(blk, tables, PtePpn(PteOf(ram, tables, v)));
  }

  /** What then goes wrong: if the allocator hands frame f to someone else, unmapping page v frees it under its
      new owner, so conservation fails. */
  method StolenPage(pt: PageTable, v: nat, ghost f: nat) returns (r: Outcome, other: Wrap<nat>)
    requires pt.Valid() && Dangling(pt, v, f)
    modifies pt`tables, pt.mem
    ensures pt.Valid()
    ensures other == Just(f) ==> r.Done? && other.value !in pt.mem.blk
  {
    hide Tree, TablesOwned, LeavesOwned, HwPte, PteValid, PtePpn, SameOutside, RangeOwned, LeafEntry, DirsPresent, Grown;
    hide Consistent, PageNumbers, Cleared, AfterFree, WholeBlocks, DistinctPages, Allocated, Run, RoundPow, Kept, LeafPage;
    ghost var ram0, blk0, root := pt.mem.ram, pt.mem.blk, pt.base;
    var va := v * PAGE_SIZE;
    assert va / PAGE_SIZE == v && va % PAGE_SIZE == 0;
    r := Failed;
    assert PowerOfTwo(1);
    other := pt.mem.AllocPages(1);
    if other.Nothing? {
      return;
    }
    AllocFrame(ram0, blk0, root, pt.tables, pt.mem.ram, pt.mem.blk, other.value, 1);
    SameHere(ram0, pt.mem.ram, root, v);
    var slot := pt.Walk(va, false);
    if slot.Just? && other == Just(PtePpn(Entry(pt.mem.ram, slot.value.page, slot.value.index))) {
      OneOwned(pt.mem.ram, pt.mem.blk, root, pt.tables, v);
      OnePageDistinct(pt.mem.ram, root, v);
      ghost var ram1, blk1 := pt.mem.ram, pt.mem.blk;
      LeafPageFacts(blk1, pt.tables, other.value);
      ghost var done;
      r, done := VmUnmap(pt, va, 1, true);
      FreedOne(ram1, blk1, root, v);
    } else {
      if !DirsPresent(pt.mem.ram, root, v) { AbsentIsUnmapped(pt.mem.ram, root, v); }
    }
  }

  lemma SameHere(ram: Ram, ram': Ram, root: nat, v: nat)
    requires SameOutside(ram, ram', root, 0, 0) && v < VPNS
    ensures HwPte(ram', root, v) == HwPte(ram, root, v)
  {}

  lemma OneOwned(ram: Ram, blk: Blocks, root: nat, tables: Tables, v: nat)
    requires LeafPage(blk, tables, PtePpn(HwPte(ram, root, v)))
    ensures RangeOwned(ram, blk, root, tables, v, 1)
  {}

  lemma FreedOne(ram: Ram, blk: Blocks, root: nat, v: nat)
    requires var f := PtePpn(HwPte(ram, root, v)); f in blk && blk[f] == f
    ensures PtePpn(HwPte(ram, root, v)) !in AfterFree(ram, blk, root, v, 1)
  {
    hide HwPte, PtePpn, RangePpns;
    RangePpnsMember(ram, root, v, 1, PtePpn(HwPte(ram, root, v)));
  }
}
