/** The process heap: brk on top of vm_alloc and vm_dealloc. */
module Heap {
  import opened Arith
  import opened AddressSpace
  import opened PageAllocator
  import opened PhysicalMemory
  import opened PageTables
  import opened Sv39
  import opened VirtualMemory
  import opened Wrappers

  /** Of the pages [s, top) reserved for the heap exactly the first n are mapped; no two
      share a physical page, and whole allocator blocks belong to the heap, each starting
      on a page at or below the pages it backs. */
  ghost predicate HeapShape(ram: Ram, blk: Blocks, root: nat, s: nat, n: nat, top: nat) {
    && s + n <= top <= VPNS
    && (forall v: nat :: s <= v < top ==> (PteValid(HwPte(ram, root, v)) <==> v < s + n))
    && (forall v: nat :: s <= v < s + n ==> HeadBelow(ram, blk, root, s, v))
    && DistinctPages(ram, root, s, n)
    && WholeBlocks(ram, blk, root, s, n)
  }

  lemma {:induction false} HeadsAbove(ram: Ram, blk: Blocks, root: nat, s: nat, m: nat, n: nat, w: nat)
    requires m <= n && s <= w < s + m && HeadBelow(ram, blk, root, s, w) && DistinctPages(ram, root, s, n)
    requires forall v: nat :: s <= v < s + n ==> PteValid(HwPte(ram, root, v))
    ensures blk[PtePpn(HwPte(ram, root, w))] !in RangePpns(ram, root, s + m, n - m)
  {
    hide HwPte, PteValid, PtePpn, RangePpns;
    var u: nat :| s <= u <= w && PtePpn(HwPte(ram, root, u)) == blk[PtePpn(HwPte(ram, root, w))];
    RangePpnsMember(ram, root, s + m, n - m, PtePpn(HwPte(ram, root, u)));
  }

  lemma {:induction false} TailSubset(ram: Ram, root: nat, s: nat, m: nat, n: nat)
    requires m <= n
    ensures RangePpns(ram, root, s + m, n - m) <= RangePpns(ram, root, s, n)
  {
    forall p | p in RangePpns(ram, root, s + m, n - m) ensures p in RangePpns(ram, root, s, n) {
      RangePpnsMember(ram, root, s + m, n - m, p);
      RangePpnsMember(ram, root, s, n, p);
    }
  }

  /** The top of the heap can be cut off without tearing a block apart. */
  lemma {:induction false} TailIsWhole(ram: Ram, blk: Blocks, root: nat, s: nat, m: nat, n: nat, top: nat)
    requires HeapShape(ram, blk, root, s, n, top) && m <= n
    ensures WholeBlocks(ram, blk, root, s + m, n - m)
    ensures DistinctPages(ram, root, s + m, n - m)
  {
    hide HwPte, RangePpns, PtePpn, PteValid;
    TailSubset(ram, root, s, m, n);
    forall w: nat | w < VPNS && !(s + m <= w < s + m + (n - m)) && HwPte(ram, root, w) != 0
      ensures PtePpn(HwPte(ram, root, w)) in blk
      ensures blk[PtePpn(HwPte(ram, root, w))] !in RangePpns(ram, root, s + m, n - m)
    {
      if s <= w < s + m {
        assert HeadBelow(ram, blk, root, s, w);
        HeadsAbove(ram, blk, root, s, m, n, w);
      }
    }
  }

  lemma {:induction false} HeadsRemain(ram0: Ram, blk0: Blocks, ram: Ram, root: nat, s: nat, m: nat, n: nat, w: nat)
    requires SameOutside(ram0, ram, root, s + m, s + n) && m <= n && s + n <= VPNS
    requires WholeBlocks(ram0, blk0, root, s + m, n - m) && HeadBelow(ram0, blk0, root, s, w) && s <= w < s + m
    requires HwPte(ram0, root, w) != 0
    ensures HeadBelow(ram, AfterFree(ram0, blk0, root, s + m, n - m), root, s, w)
  {
    var blk := AfterFree(ram0, blk0, root, s + m, n - m);
    assert HwPte(ram, root, w) == HwPte(ram0, root, w);
    assert PtePpn(HwPte(ram, root, w)) in blk;
    var u: nat :| s <= u <= w && PtePpn(HwPte(ram0, root, u)) == blk0[PtePpn(HwPte(ram0, root, w))];
    assert HwPte(ram, root, u) == HwPte(ram0, root, u);
  }

  lemma {:induction false} Shrunk(ram0: Ram, blk0: Blocks, ram: Ram, root: nat, s: nat, m: nat, n: nat, top: nat)
    requires HeapShape(ram0, blk0, root, s, n, top) && m <= n
    requires SameOutside(ram0, ram, root, s + m, s + n) && Cleared(ram0, ram, root, s + m, s + n)
    ensures HeapShape(ram, AfterFree(ram0, blk0, root, s + m, n - m), root, s, m, top)
  {
    hide RangePpns, PtePpn;
    var blk := AfterFree(ram0, blk0, root, s + m, n - m);
    TailIsWhole(ram0, blk0, root, s, m, n, top);
    forall v: nat | s <= v < s + m ensures HeadBelow(ram, blk, root, s, v) && HwPte(ram, root, v) == HwPte(ram0, root, v) {
      HeadsRemain(ram0, blk0, ram, root, s, m, n, v);
    }
    assert forall v: nat :: s <= v < top ==> (PteValid(HwPte(ram, root, v)) <==> v < s + m) by {
      assert forall v: nat :: s + n <= v < top ==> HwPte(ram, root, v) == HwPte(ram0, root, v);
    }
    assert DistinctPages(ram, root, s, m);
    ShrunkWhole(ram0, blk0, ram, root, s, m, n);
  }

  lemma {:induction false} ShrunkWhole(ram0: Ram, blk0: Blocks, ram: Ram, root: nat, s: nat, m: nat, n: nat)
    requires m <= n && s + n <= VPNS && WholeBlocks(ram0, blk0, root, s, n) && WholeBlocks(ram0, blk0, root, s + m, n - m)
    requires SameOutside(ram0, ram, root, s + m, s + n) && Cleared(ram0, ram, root, s + m, s + n)
    ensures WholeBlocks(ram, AfterFree(ram0, blk0, root, s + m, n - m), root, s, m)
  {
    hide HwPte, RangePpns, PtePpn, PteValid;
    var blk := AfterFree(ram0, blk0, root, s + m, n - m);
    RangePpnsGrow(ram, ram0, root, s, m, n - m) by { SameSym(ram0, ram, root, s + m, s + n); }
    forall w: nat | w < VPNS && !(s <= w < s + m) && HwPte(ram, root, w) != 0
      ensures PtePpn(HwPte(ram, root, w)) in blk
      ensures blk[PtePpn(HwPte(ram, root, w))] !in RangePpns(ram, root, s, m)
    {
      assert !(s + m <= w < s + n);
      assert HwPte(ram, root, w) == HwPte(ram0, root, w);
    }
  }

  lemma SameSym(ram: Ram, ram': Ram, root: nat, lo: nat, hi: nat)
    requires SameOutside(ram, ram', root, lo, hi)
    ensures SameOutside(ram', ram, root, lo, hi)
  {}

  /** Facts about one page of a grown heap. */
  lemma {:induction false} GrownPage(ram0: Ram, blk0: Blocks, ram: Ram, blk: Blocks, root: nat, tables: Tables, s: nat, n: nat, k: nat,
                  top: nat, like: seq<Leaf>, v: nat)
    requires HeapShape(ram0, blk0, root, s, n, top) && s + n + k <= top && s <= v < s + n + k
    requires Grew(ram0, blk0, ram, blk, root, tables, s + n, k, like)
    requires SameOutside(ram0, ram, root, s + n, s + n + k) && (forall p :: p in blk0 ==> p in blk && blk[p] == blk0[p])
    ensures PteValid(HwPte(ram, root, v)) && HeadBelow(ram, blk, root, s, v)
    ensures v < s + n ==> HwPte(ram, root, v) == HwPte(ram0, root, v) && PtePpn(HwPte(ram, root, v)) in blk0
    ensures v >= s + n ==> PtePpn(HwPte(ram, root, v)) !in blk0
  {
    hide PtePpn, PteFlags, RangePpns;
    if v < s + n {
      assert HeadBelow(ram0, blk0, root, s, v);
      var u: nat :| s <= u <= v && PtePpn(HwPte(ram0, root, u)) == blk0[PtePpn(HwPte(ram0, root, v))];
      assert HwPte(ram, root, u) == HwPte(ram0, root, u) && HwPte(ram, root, v) == HwPte(ram0, root, v);
    } else {
      assert FreshMapping(ram0, blk0, ram, root, s + n, like, v) && HeadBelow(ram, blk, root, s + n, v);
      var u: nat :| s + n <= u <= v && PtePpn(HwPte(ram, root, u)) == blk[PtePpn(HwPte(ram, root, v))];
    }
  }

  lemma {:induction false} GrownWhole(ram0: Ram, blk0: Blocks, spare0: set<nat>, ram: Ram, blk: Blocks, root: nat, s: nat, n: nat, k: nat)
    requires WholeBlocks(ram0, blk0, root, s, n) && Consistent(ram0.Keys, blk0, spare0) && s + n + k <= VPNS
    requires SameOutside(ram0, ram, root, s + n, s + n + k) && (forall p :: p in blk0 ==> p in blk && blk[p] == blk0[p])
    requires forall v: nat :: s + n <= v < s + n + k ==> PtePpn(HwPte(ram, root, v)) !in blk0
    ensures WholeBlocks(ram, blk, root, s, n + k)
  {
    hide HwPte, PtePpn, RangePpns;
    forall w: nat | w < VPNS && !(s <= w < s + (n + k)) && HwPte(ram, root, w) != 0
      ensures PtePpn(HwPte(ram, root, w)) in blk
      ensures blk[PtePpn(HwPte(ram, root, w))] !in RangePpns(ram, root, s, n + k)
    {
      assert HwPte(ram, root, w) == HwPte(ram0, root, w);
      var hd := blk0[PtePpn(HwPte(ram, root, w))];
      assert hd in blk0;
      RangePpnsMember(ram, root, s, n + k, hd);
      RangePpnsMember(ram0, root, s, n, hd);
      forall v: nat | s <= v < s + (n + k) ensures PtePpn(HwPte(ram, root, v)) != hd {
        if v < s + n { assert HwPte(ram, root, v) == HwPte(ram0, root, v); }
      }
    }
  }

  lemma {:induction false} GrownHeap(ram0: Ram, blk0: Blocks, spare0: set<nat>, ram: Ram, blk: Blocks, root: nat, tables: Tables, s: nat,
                  n: nat, k: nat, top: nat, like: seq<Leaf>)
    requires HeapShape(ram0, blk0, root, s, n, top) && Consistent(ram0.Keys, blk0, spare0) && s + n + k <= top
    requires Grew(ram0, blk0, ram, blk, root, tables, s + n, k, like)
    requires SameOutside(ram0, ram, root, s + n, s + n + k) && (forall p :: p in blk0 ==> p in blk && blk[p] == blk0[p])
    ensures HeapShape(ram, blk, root, s, n + k, top)
  {
    hide HwPte, PtePpn, PteValid, HeadBelow, FreshMapping, RangePpns;
    forall v: nat | s <= v < s + (n + k)
      ensures PteValid(HwPte(ram, root, v)) && HeadBelow(ram, blk, root, s, v)
      ensures v < s + n ==> HwPte(ram, root, v) == HwPte(ram0, root, v) && PtePpn(HwPte(ram, root, v)) in blk0
      ensures v >= s + n ==> PtePpn(HwPte(ram, root, v)) !in blk0
    {
      GrownPage(ram0, blk0, ram, blk, root, tables, s, n, k, top, like, v);
    }
    assert forall v: nat :: s + n + k <= v < top ==> HwPte(ram, root, v) == HwPte(ram0, root, v);
    assert DistinctPages(ram, root, s, n + k);
    GrownWhole(ram0, blk0, spare0, ram, blk, root, s, n, k);
  }

  lemma {:induction false} SameHeap(ram0: Ram, blk0: Blocks, ram: Ram, blk: Blocks, root: nat, s: nat, n: nat, top: nat)
    requires HeapShape(ram0, blk0, root, s, n, top) && SameOutside(ram0, ram, root, 0, 0)
    requires forall p :: p in blk0 ==> p in blk && blk[p] == blk0[p]
    ensures HeapShape(ram, blk, root, s, n, top)
  {
    hide PtePpn, PteValid, RangePpns;
    RangePpnsKept(ram0, ram, root, s, n);
    forall v: nat | s <= v < s + n ensures HeadBelow(ram, blk, root, s, v) {
      assert HeadBelow(ram0, blk0, root, s, v);
      var u: nat :| s <= u <= v && PtePpn(HwPte(ram0, root, u)) == blk0[PtePpn(HwPte(ram0, root, v))];
      assert HwPte(ram, root, u) == HwPte(ram0, root, u);
    }
  }

  // ---------------------------------------------------------- page accounts

  /** Against the allocation state before: nothing of it changed, the heap's frames are none of it, and what is
      new is a table page or lies in a block that starts on a heap page. */
  ghost predicate HeapAccount(before: Blocks, ram: Ram, blk: Blocks, root: nat, tables: Tables, s: nat, n: nat) {
    Account(before, blk, tables.Values, RangePpns(ram, root, s, n))
  }

  ghost predicate Account(before: Blocks, blk: Blocks, tables: set<nat>, heap: set<nat>) {
    && (forall p :: p in before ==> p in blk && blk[p] == before[p] && before[p] in before)
    && (forall p :: p in heap ==> p !in before)
    && (forall p :: p in blk && p !in before ==> p in tables || blk[p] in heap)
  }

  lemma AccountMore(before: Blocks, blk0: Blocks, blk: Blocks, t0: set<nat>, t: set<nat>, heap: set<nat>, more: set<nat>)
    requires Account(before, blk0, t0, heap) && t0 <= t
    requires forall p :: p in blk0 ==> p in blk && blk[p] == blk0[p]
    requires forall p :: p in more ==> p !in blk0
    requires forall p :: p in blk && p !in blk0 ==> p in t || blk[p] in more
    ensures Account(before, blk, t, heap + more)
  {}

  lemma {:induction false} SplitRange(ram: Ram, root: nat, s: nat, m: nat, k: nat)
    ensures RangePpns(ram, root, s, m + k) == RangePpns(ram, root, s, m) + RangePpns(ram, root, s + m, k)
  {
    if k > 0 { SplitRange(ram, root, s, m, k - 1); }
  }

  lemma {:induction false} AccountGrown(before: Blocks, ram0: Ram, blk0: Blocks, t0: Tables, ram: Ram, blk: Blocks, t: Tables, root: nat,
                     s: nat, m: nat, k: nat, like: seq<Leaf>)
    requires HeapAccount(before, ram0, blk0, root, t0, s, m) && s + m + k <= VPNS
    requires Kept(ram0, blk0, t0, ram, blk) && TablesAdded(blk0, t0, t)
    requires SameOutside(ram0, ram, root, s + m, s + m + k) && Grew(ram0, blk0, ram, blk, root, t, s + m, k, like)
    ensures HeapAccount(before, ram, blk, root, t, s, m + k)
  {
    hide HwPte, PtePpn, RangePpns, Grew, SameOutside, Account;
    SplitRange(ram, root, s, m, k);
    HeapRangeKept(ram0, ram, root, s, m, s + m + k);
    forall p | p in RangePpns(ram, root, s + m, k) ensures p !in blk0 {
      if p in blk0 { RangeIsFresh(ram0, blk0, ram, blk, root, t, s + m, k, like, p); }
    }
    TablesStay(t0, t);
    GrewNew(ram0, blk0, ram, blk, root, t, s + m, k, like);
    AccountMore(before, blk0, blk, t0.Values, t.Values, RangePpns(ram0, root, s, m), RangePpns(ram, root, s + m, k));
  }

  lemma {:induction false} HeapRangeKept(ram0: Ram, ram: Ram, root: nat, s: nat, m: nat, hi: nat)
    requires SameOutside(ram0, ram, root, s + m, hi) && s + m <= VPNS
    ensures RangePpns(ram, root, s, m) == RangePpns(ram0, root, s, m)
  {
    hide HwPte, PtePpn, RangePpns;
    forall w: nat | s <= w < s + m ensures HwPte(ram, root, w) == HwPte(ram0, root, w) {}
    RangePpnsKept(ram0, ram, root, s, m);
  }

  lemma {:induction false} AccountShrunk(before: Blocks, ram0: Ram, blk0: Blocks, t: Tables, ram: Ram, root: nat, s: nat, m: nat, k: nat)
    requires HeapAccount(before, ram0, blk0, root, t, s, m + k) && s + m <= VPNS && SameOutside(ram0, ram, root, s + m, s + m + k)
    ensures HeapAccount(before, ram, AfterFree(ram0, blk0, root, s + m, k), root, t, s, m)
  {
    hide HwPte, PtePpn, RangePpns;
    SplitRange(ram0, root, s, m, k);
    HeapRangeKept(ram0, ram, root, s, m, s + m + k);
  }

  lemma {:induction false} AccountSame(before: Blocks, ram0: Ram, blk0: Blocks, t0: Tables, ram: Ram, blk: Blocks, t: Tables, root: nat, s: nat, m: nat)
    requires HeapAccount(before, ram0, blk0, root, t0, s, m) && s + m <= VPNS && Kept(ram0, blk0, t0, ram, blk) && TablesAdded(blk0, t0, t)
    requires OnlyTablesNew(blk0, blk, t) && SameOutside(ram0, ram, root, 0, 0)
    ensures HeapAccount(before, ram, blk, root, t, s, m)
  {
    hide HwPte, PtePpn, RangePpns, Account;
    forall w: nat | s <= w < s + m ensures HwPte(ram, root, w) == HwPte(ram0, root, w) {}
    RangePpnsKept(ram0, ram, root, s, m);
    TablesStay(t0, t);
    AccountMore(before, blk0, blk, t0.Values, t.Values, RangePpns(ram0, root, s, m), {});
    assert RangePpns(ram0, root, s, m) + {} == RangePpns(ram, root, s, m);
  }

  // --------------------------------------------------- what the program sees

  /** User mode reads the same bytes outside the pages from lo to hi. */
  ghost predicate SameBytes(ram: Ram, ram': Ram, root: nat, lo: nat, hi: nat) {
    forall x: nat :: x < VPNS * PAGE_SIZE && !(lo <= x / PAGE_SIZE < hi) ==> UserByte(ram', root, x) == UserByte(ram, root, x)
  }

  /** The pages from lo to hi read as zeros and may be written but not executed. */
  ghost predicate FreshBytes(ram: Ram, root: nat, lo: nat, hi: nat) {
    && (forall x: nat :: lo <= x / PAGE_SIZE < hi ==> UserByte(ram, root, x) == Just(0))
    && (forall v: nat :: lo <= v < hi ==> PteWrite(HwPte(ram, root, v)) && !PteExec(HwPte(ram, root, v)))
  }

  function Min(a: int, b: int): int { if a < b then a else b }

  function Max(a: int, b: int): int { if a < b then b else a }

  lemma BytesSame(ram: Ram, root: nat, lo: nat, hi: nat)
    ensures SameBytes(ram, ram, root, lo, hi)
  {}

  /** The frames behind unchanged entries keep their contents. */
  lemma BytesKept(ram: Ram, blk: Blocks, root: nat, tables: Tables, ram': Ram, lo: nat, hi: nat)
    requires Tree(ram, root, tables) && LeavesOwned(ram, blk, tables) && blk.Keys <= ram.Keys && SameOutside(ram, ram', root, lo, hi)
    requires forall p :: p in blk && p !in tables.Values ==> p in ram' && ram'[p] == ram[p]
    ensures SameBytes(ram, ram', root, lo, hi)
  {
    hide Tree, HwPte, PteUser, PtePpn, PteOf, PteValid;
    forall x: nat | x < VPNS * PAGE_SIZE && !(lo <= x / PAGE_SIZE < hi) ensures UserByte(ram', root, x) == UserByte(ram, root, x) {
      var v := x / PAGE_SIZE;
      assert HwPte(ram', root, v) == HwPte(ram, root, v);
      if PteValid(HwPte(ram, root, v)) {
        OwnedLeaf(ram, blk, root, tables, v);
      }
    }
  }

  lemma OwnedLeaf(ram: Ram, blk: Blocks, root: nat, tables: Tables, v: nat)
    requires Tree(ram, root, tables) && LeavesOwned(ram, blk, tables) && v < VPNS && PteValid(HwPte(ram, root, v))
    ensures var p := PtePpn(HwPte(ram, root, v)); p in blk && p !in tables.Values
  {
    HardwareSeesTree(ram, root, tables, v);
    assert LeafPage(blk, tables, PtePpn(PteOf(ram, tables, v)));
  }

  lemma GrownBytes(ram0: Ram, blk0: Blocks, spare0: set<nat>, t0: Tables, ram: Ram, blk: Blocks, tables: Tables, root: nat, o: nat, n: nat)
    requires Tree(ram0, root, t0) && LeavesOwned(ram0, blk0, t0) && Consistent(ram0.Keys, blk0, spare0)
    requires Kept(ram0, blk0, t0, ram, blk) && SameOutside(ram0, ram, root, o, o + n)
    requires Grew(ram0, blk0, ram, blk, root, tables, o, n, ZeroLeaves(n, AllocFlags(false, false, true)))
    requires AllPermit(ram, root, o, n, false, false, true)
    ensures SameBytes(ram0, ram, root, o, o + n) && FreshBytes(ram, root, o, o + n)
  {
    hide Tree, LeavesOwned, HwPte, PteUser, PtePpn, PteValid, PteFlags, SameOutside;
    BytesKept(ram0, blk0, root, t0, ram, o, o + n);
    forall x: nat | o <= x / PAGE_SIZE < o + n ensures UserByte(ram, root, x) == Just(0) {
      var w := x / PAGE_SIZE;
      assert FreshMapping(ram0, blk0, ram, root, o, ZeroLeaves(n, AllocFlags(false, false, true)), w);
      assert Permits(HwPte(ram, root, w), false, false, true);
    }
    forall v: nat | o <= v < o + n ensures PteWrite(HwPte(ram, root, v)) && !PteExec(HwPte(ram, root, v)) {
      assert Permits(HwPte(ram, root, v), false, false, true);
    }
  }

  lemma FailedBytes(ram0: Ram, blk0: Blocks, spare0: set<nat>, t0: Tables, ram: Ram, blk: Blocks, root: nat, res: Residue)
    requires Tree(ram0, root, t0) && LeavesOwned(ram0, blk0, t0) && Consistent(ram0.Keys, blk0, spare0)
    requires Kept(ram0, blk0, t0, ram, blk) && SameOutside(ram0, ram, root, res.start, res.start + res.len)
    ensures SameBytes(ram0, ram, root, res.start, res.start + res.len)
  {
    hide Tree, LeavesOwned, SameOutside;
    BytesKept(ram0, blk0, root, t0, ram, res.start, res.start + res.len);
  }

  lemma BlocksInRam(ram: Ram, blk: Blocks, spare: set<nat>)
    requires Consistent(ram.Keys, blk, spare)
    ensures blk.Keys <= ram.Keys
  {}

  lemma FreeToTop(ram: Ram, blk: Blocks, root: nat, s: nat, m: nat, k: nat, top: nat)
    requires HeapShape(ram, blk, root, s, m, top) && s + m + k <= VPNS && (top < VPNS ==> PteValid(HwPte(ram, root, top)))
    ensures RangeFree(ram, root, s + m, k) <==> s + m + k <= top
  {}

  // ------------------------------------------------------------------- brk

  /** The end of the heap after brk to n, given enough memory. */
  function EndAfter(ptr: nat, ns: seq<int>, top: nat): (e: nat) {
    if ns == [] then ptr
    else
      var n, e := ns[|ns| - 1], EndAfter(ptr, ns[..|ns| - 1], top);
      if n > 0 && UpPages(n) <= top then n else e
  }

  /** Growing from end q to end n, with the first foreign page above the heap at top, cannot leave stray entries. */
  ghost predicate Safe(q: nat, n: nat, top: nat) {
    q < n && UpPages(q) <= top ==> UpPages(n) <= top || BlockStart(PagesBetween(q, n), top - UpPages(q))
  }

  /** The heap fields of a process control block. top is the first page at or above the heap that something else
      maps (a memory-mapped file, the stack), or the end of the address range. */
  class UserHeap {
    const pt: PageTable
    const start: nat
    var ptr: nat
    ghost const top: nat
    ghost const before: Blocks

    constructor (pt: PageTable, start: nat, ghost top: nat)
      requires pt.Valid() && pt.Owned() && start % PAGE_SIZE == 0 && start / PAGE_SIZE <= top <= VPNS
      requires forall v: nat :: start / PAGE_SIZE <= v < top ==> !PteValid(HwPte(pt.mem.ram, pt.base, v))
      requires top < VPNS ==> PteValid(HwPte(pt.mem.ram, pt.base, top))
      ensures this.pt == pt && this.start == start && ptr == start && this.top == top && before == pt.mem.blk && Valid()
    {
      this.pt := pt;
      this.start := start;
      this.ptr := start;
      this.top := top;
      before := pt.mem.blk;
      new;
      EmptyHeap(pt.mem.ram, pt.mem.blk, pt.base, pt.tables, start / PAGE_SIZE, top);
    }

    /** The mapped heap pages are exactly those from start up to round_up(ptr), and the page accounts are in order. */
    ghost predicate Valid()
      reads this, pt, pt.mem
    {
      && pt.Valid() && pt.Owned()
      && start % PAGE_SIZE == 0 && start <= ptr
      && HeapShape(pt.mem.ram, pt.mem.blk, pt.base, start / PAGE_SIZE, PagesBetween(start, ptr), top)
      && HeapAccount(before, pt.mem.ram, pt.mem.blk, pt.base, pt.tables, start / PAGE_SIZE, PagesBetween(start, ptr))
      && (top < VPNS ==> PteValid(HwPte(pt.mem.ram, pt.base, top)))
    }

    /** Below top, exactly the pages up to round_up(ptr) are mapped. */
    ghost predicate Exact()
      reads this, pt, pt.mem
    {
      forall v: nat :: start / PAGE_SIZE <= v < top ==> (PteValid(HwPte(pt.mem.ram, pt.base, v)) <==> v < UpPages(ptr))
    }

    /** An empty heap has given back every page but table pages. */
    lemma AllGivenBack()
      requires Valid() && ptr == start
      ensures OnlyTablesNew(before, pt.mem.blk, pt.tables)
      ensures forall p :: p in before ==> p in pt.mem.blk && pt.mem.blk[p] == before[p]
    {
      hide Tree, TablesOwned, LeavesOwned, HeapShape, HwPte, Consistent, PageNumbers;
    }

    /** The shrinking branch of brk; vm_dealloc cannot fail on heap pages. */
    method ShrinkTo(n: nat)
      requires Valid() && start <= n < ptr
      modifies this`ptr, pt`tables, pt.mem
      ensures Valid() && ptr == n
      ensures SameOutside(old(pt.mem.ram), pt.mem.ram, pt.base, start / PAGE_SIZE, top)
      ensures SameBytes(old(pt.mem.ram), pt.mem.ram, pt.base, UpPages(n), UpPages(old(ptr))) && pt.mem.refused == old(pt.mem.refused)
    {
      hide Tree, TablesOwned, LeavesOwned, RangeOwned, DistinctPages, HwPte, PteValid, WholeBlocks, AfterFree, UpPages;
      hide SameOutside, Cleared, HeapShape, HeapAccount, Consistent, PageNumbers, SameBytes;
      ghost var s, m, k := start / PAGE_SIZE, PagesBetween(start, n), PagesBetween(n, ptr);
      BlocksInRam(pt.mem.ram, pt.mem.blk, pt.mem.spare);
      AlignedPages(start);
      HeapBound(pt.mem.ram, pt.mem.blk, pt.base, s, m + k, top);
      TailIsWhole(pt.mem.ram, pt.mem.blk, pt.base, s, m, m + k, top);
      OwnedRange(pt.mem.ram, pt.mem.blk, pt.base, pt.tables, s + m, k);
      ghost var ram0, blk0 := pt.mem.ram, pt.mem.blk;
      var r, size;
      ghost var done;
      r, size, done := VmDealloc(pt, ptr, n);
      HeapPagesMapped(ram0, blk0, pt.base, s, m + k, top, s + m + done);
      Shrunk(ram0, blk0, pt.mem.ram, pt.base, s, m, m + k, top);
      AccountShrunk(before, ram0, blk0, pt.tables, pt.mem.ram, pt.base, s, m, k);
      BytesKept(ram0, blk0, pt.base, pt.tables, pt.mem.ram, s + m, s + m + k);
      SameToTop(ram0, pt.mem.ram, pt.base, s, s + m, s + m + k, top);
      SameAbove(ram0, pt.mem.ram, pt.base, s + m, s + m + k, top);
      ptr := n;
    }

    /** The growing branch of brk. It fails when memory runs out or when it meets page top. Exactness, and with it the
        whole invariant, survives a failure exactly in the first case and when top begins a block of vm_alloc's
        decomposition; otherwise the pages from res.start up to top stay mapped to frames that are free. */
    method GrowTo(n: nat) returns (r: Outcome, ghost oom: bool, ghost res: Residue)
      requires Valid() && ptr < n && UpPages(n) <= VPNS
      modifies this`ptr, pt`tables, pt.mem
      ensures ptr == if r.Done? then n else old(ptr)
      ensures r.Done? ==> Valid() && UpPages(n) <= top
      ensures r.Done? ==> SameOutside(old(pt.mem.ram), pt.mem.ram, pt.base, start / PAGE_SIZE, top)
      ensures r.Failed? ==> (Valid() <==> oom || BlockStart(PagesBetween(ptr, n), top - UpPages(ptr)))
      ensures r.Failed? ==> (Exact() <==> oom || BlockStart(PagesBetween(ptr, n), top - UpPages(ptr)))
      ensures r.Failed? && !oom ==> UpPages(ptr) <= top < UpPages(n)
      ensures r.Failed? && !oom ==> Explained(old(pt.mem.ram), pt.base, UpPages(ptr), PagesBetween(ptr, n), res)
      ensures r.Failed? && Valid() ==> SameOutside(old(pt.mem.ram), pt.mem.ram, pt.base, 0, 0)
      ensures r.Failed? && !Valid() ==> UpPages(ptr) <= res.start < top == res.start + res.len
      ensures r.Failed? && !Valid() ==> Stale(old(pt.mem.ram), pt.mem.ram, pt.mem.blk, pt.base, res)
      ensures r.Failed? ==> SameOutside(old(pt.mem.ram), pt.mem.ram, pt.base, start / PAGE_SIZE, top)
      ensures r.Done? ==> SameBytes(old(pt.mem.ram), pt.mem.ram, pt.base, UpPages(old(ptr)), UpPages(n))
      ensures r.Done? ==> FreshBytes(pt.mem.ram, pt.base, UpPages(old(ptr)), UpPages(n))
      ensures r.Failed? ==> SameBytes(old(pt.mem.ram), pt.mem.ram, pt.base, res.start, res.start + res.len)
      ensures (r.Panic? ==> pt.mem.Full()) && (oom ==> r.Failed? && res.len == 0)
      ensures pt.mem.refused == old(pt.mem.refused) + if oom || r.Panic? then 1 else 0
      ensures pt.mem.refused == old(pt.mem.refused) ==> r == if UpPages(n) <= top then Done else Failed
    {
      hide Tree, TablesOwned, LeavesOwned, HwPte, PteValid, UpPages, AllocFlags, ZeroLeaves, BlockStart, Kept, Decomposed;
      hide SameBytes, FreshBytes, AllPermit, RangeFree;
      hide TablesAdded, OnlyTablesNew, SameOutside, Grew, HeapShape, HeapAccount, Explained, Stale, Consistent, PageNumbers;
      ghost var s, m, k := start / PAGE_SIZE, PagesBetween(start, ptr), PagesBetween(ptr, n);
      AlignedPages(start);
      HeapBound(pt.mem.ram, pt.mem.blk, pt.base, s, m, top);
      ghost var ram0, blk0, spare0, t0 := pt.mem.ram, pt.mem.blk, pt.mem.spare, pt.tables;
      FreeToTop(ram0, blk0, pt.base, s, m, k, top);
      var size;
      r, size, oom, res := VmAlloc(pt, ptr, n, false, false, true);
      if r.Failed? {
        FailedBytes(ram0, blk0, spare0, t0, pt.mem.ram, pt.mem.blk, pt.base, res);
        if !oom { MeetsTop(ram0, blk0, pt.base, s, m, k, top, res); }
        if res.len == 0 {
          SameNowhere(ram0, pt.mem.ram, pt.base, res.start);
          KeptBlocks(ram0, blk0, t0, pt.mem.ram, pt.mem.blk);
          SameHeap(ram0, blk0, pt.mem.ram, pt.mem.blk, pt.base, s, m, top);
          AccountSame(before, ram0, blk0, t0, pt.mem.ram, pt.mem.blk, pt.tables, pt.base, s, m);
          HeapExactly(pt.mem.ram, pt.mem.blk, pt.base, s, m, top);
          SameEverywhere(ram0, pt.mem.ram, pt.base, s, top);
        } else {
          Stray(ram0, pt.mem.ram, pt.mem.blk, pt.base, s, m, top, res);
          SameToTop(ram0, pt.mem.ram, pt.base, s, res.start, top, top);
        }
      } else if r.Done? {
        GrownBytes(ram0, blk0, spare0, t0, pt.mem.ram, pt.mem.blk, pt.tables, pt.base, s + m, k);
        GrownBelowTop(ram0, blk0, pt.mem.ram, pt.mem.blk, pt.base, pt.tables, s, m, k, top, ZeroLeaves(k, AllocFlags(false, false, true)));
        KeptBlocks(ram0, blk0, t0, pt.mem.ram, pt.mem.blk);
        GrownHeap(ram0, blk0, spare0, pt.mem.ram, pt.mem.blk, pt.base, pt.tables, s, m, k, top, ZeroLeaves(k, AllocFlags(false, false, true)));
        AccountGrown(before, ram0, blk0, t0, pt.mem.ram, pt.mem.blk, pt.tables, pt.base, s, m, k, ZeroLeaves(k, AllocFlags(false, false, true)));
        SameToTop(ram0, pt.mem.ram, pt.base, s, s + m, s + m + k, top);
        SameAbove(ram0, pt.mem.ram, pt.base, s + m, s + m + k, top);
        ptr := n;
      }
    }

    /** brk: n <= 0 asks for the current end; otherwise the heap is moved to end at n. A failure returns -1 and leaves
        the heap fields alone; whether the mapped pages are still exact is decided as in GrowTo. */
    method Brk(n: int) returns (r: Outcome, ret: int, ghost oom: bool)
      requires Valid() && (n > 0 ==> start <= n && UpPages(n) <= VPNS)
      modifies this`ptr, pt`tables, pt.mem
      ensures r.Done? ==> Valid() && Exact()
      ensures n <= 0 ==> r.Done? && ret == ptr == old(ptr)
      ensures n > 0 && r.Done? ==> ret == ptr == n
      ensures r.Failed? ==> ret == -1 && ptr == old(ptr) < n
      ensures 0 < n <= old(ptr) ==> r.Done?
      ensures r.Failed? ==> (Valid() <==> oom || BlockStart(PagesBetween(ptr, n), top - UpPages(ptr)))
      ensures r.Failed? ==> (Exact() <==> oom || BlockStart(PagesBetween(ptr, n), top - UpPages(ptr)))
      ensures r.Failed? && !oom ==> UpPages(ptr) <= top < UpPages(n)
      ensures !r.Panic? ==> SameOutside(old(pt.mem.ram), pt.mem.ram, pt.base, start / PAGE_SIZE, top)
      ensures r.Failed? && Valid() ==> SameOutside(old(pt.mem.ram), pt.mem.ram, pt.base, 0, 0)
      ensures r.Done? && n > 0 ==> SameBytes(old(pt.mem.ram), pt.mem.ram, pt.base, UpPages(Min(old(ptr), n)), UpPages(Max(old(ptr), n)))
      ensures r.Done? && n > old(ptr) ==> FreshBytes(pt.mem.ram, pt.base, UpPages(old(ptr)), UpPages(n))
      ensures (r.Panic? ==> pt.mem.Full()) && (oom ==> r.Failed?)
      ensures pt.mem.refused == old(pt.mem.refused) + if oom || r.Panic? then 1 else 0
      ensures pt.mem.refused == old(pt.mem.refused) ==> r == if n <= 0 || UpPages(n) <= top then Done else Failed
    {
      hide Tree, TablesOwned, LeavesOwned, HwPte, PteValid, UpPages, BlockStart, SameOutside, HeapShape, HeapAccount, Consistent, PageNumbers, Stale;
      hide SameBytes, FreshBytes, Explained;
      SameAll(pt.mem.ram, pt.base, start / PAGE_SIZE, top);
      BytesSame(pt.mem.ram, pt.base, UpPages(ptr), UpPages(ptr));
      HeapBound(pt.mem.ram, pt.mem.blk, pt.base, start / PAGE_SIZE, PagesBetween(start, ptr), top);
      if 0 < n <= ptr { assert UpPages(n) + PagesBetween(n, ptr) == UpPages(ptr); }
      AlignedPages(start);
      oom := false;
      if n > 0 {
        var differ := n - ptr;
        if differ < 0 {
          ShrinkTo(n);
        } else if differ > 0 {
          ghost var res;
          r, oom, res := GrowTo(n);
          if !r.Done? {
            return r, -1, oom;
          }
        }
      }
      HeapExactly(pt.mem.ram, pt.mem.blk, pt.base, start / PAGE_SIZE, PagesBetween(start, ptr), top);
      return Done, if n <= 0 then ptr else n, oom;
    }

    /** Every target is at or above the heap's start, and safe from wherever the heap may end by then. */
    ghost predicate SafeTargets(ns: seq<int>)
      reads this
    {
      forall i :: 0 <= i < |ns| && ns[i] > 0 ==>
        && start <= ns[i] && UpPages(ns[i]) <= VPNS && Safe(ptr, ns[i], top)
        && forall j :: 0 <= j < i && ns[j] > 0 ==> Safe(ns[j], ns[i], top)
    }

    /** After any sequence of such brk calls, failed ones included, the mapped heap pages are exactly those below the
        current end, and a heap that is empty again has given back all its pages. */
    method BrkAll(ns: seq<int>) returns (r: Outcome)
      requires Valid() && SafeTargets(ns)
      modifies this`ptr, pt`tables, pt.mem
      ensures r.Done? ==> Valid() && Exact()
      ensures r.Done? && ptr == start ==> OnlyTablesNew(before, pt.mem.blk, pt.tables)
      ensures r.Done? ==> SameOutside(old(pt.mem.ram), pt.mem.ram, pt.base, start / PAGE_SIZE, top)
      ensures pt.mem.refused == old(pt.mem.refused) ==> r.Done? && ptr == EndAfter(old(ptr), ns, top)
      ensures r.Done? || (r.Panic? && pt.mem.Full())
    {
      hide Tree, TablesOwned, LeavesOwned, HwPte, PteValid, UpPages, SameOutside, HeapShape, HeapAccount, Consistent, PageNumbers, BlockStart;
      hide SameBytes, FreshBytes;
      assert ns[..0] == [];
      ghost var ram0, ptr0 := pt.mem.ram, ptr;
      SameAll(ram0, pt.base, start / PAGE_SIZE, top);
      for i := 0 to |ns|
        invariant Valid() && (ptr == ptr0 || exists j :: 0 <= j < i && ns[j] > 0 && ptr == ns[j])
        invariant SameOutside(ram0, pt.mem.ram, pt.base, start / PAGE_SIZE, top)
        invariant old(pt.mem.refused) <= pt.mem.refused
        invariant pt.mem.refused == old(pt.mem.refused) ==> ptr == EndAfter(ptr0, ns[..i], top)
      {
        ghost var ram1 := pt.mem.ram;
        assert ns[..i + 1][..i] == ns[..i];
        assert ns[i] > 0 ==> Safe(ptr, ns[i], top);
        var ret;
        ghost var oom;
        r, ret, oom := Brk(ns[i]);
        if r.Panic? {
          return Panic;
        }
        SameTrans(ram0, ram1, pt.mem.ram, pt.base, start / PAGE_SIZE, top);
      }
      AlignedPages(start);
      assert ns[..|ns|] == ns;
      HeapExactly(pt.mem.ram, pt.mem.blk, pt.base, start / PAGE_SIZE, PagesBetween(start, ptr), top);
      if ptr == start { AllGivenBack(); }
      return Done;
    }
  }

  /** The unsafe case, as it comes about: a memory-mapped area 17 pages above an empty heap, because the kernel places it
      at the sum of the segment and stack sizes. Growing by 32 pages never succeeds, and unless the allocator refuses a
      request it leaves all 17 pages in between mapped, to frames that are free. */
  method BrkOverMmap(heap: UserHeap) returns (r: Outcome, ghost oom: bool)
    requires heap.Valid() && heap.ptr == heap.start > 0 && heap.top == heap.start / PAGE_SIZE + 17 && heap.start / PAGE_SIZE + 32 <= VPNS
    modifies heap`ptr, heap.pt`tables, heap.pt.mem
    ensures !r.Done? && heap.ptr == heap.start
    ensures heap.pt.mem.refused == old(heap.pt.mem.refused) ==> r.Failed? && !oom
    ensures r.Failed? && !oom ==> !heap.Valid() && !heap.Exact()
    ensures r.Failed? && !oom ==> forall v: nat :: heap.ptr / PAGE_SIZE <= v < heap.top ==>
              PteValid(HwPte(heap.pt.mem.ram, heap.pt.base, v)) && PtePpn(HwPte(heap.pt.mem.ram, heap.pt.base, v)) !in heap.pt.mem.blk
  {
    hide Tree, TablesOwned, LeavesOwned, HwPte, PteValid, PtePpn, UpPages, SameOutside, HeapShape, HeapAccount, Consistent, PageNumbers, Stale, BlockStart, Explained, PagesBetween, SameBytes, FreshBytes;
    ghost var ram0, root, s := heap.pt.mem.ram, heap.pt.base, heap.start / PAGE_SIZE;
    AlignedPages(heap.start);
    AlignedPages(heap.start + 32 * PAGE_SIZE);
    assert PagesBetween(heap.start, heap.start + 32 * PAGE_SIZE) == 32;
    NotAtSeventeen();
    ghost var res;
    r, oom, res := heap.GrowTo(heap.start + 32 * PAGE_SIZE);
    if r.Failed? && !oom {
      ThirtyTwo(ram0, root, res, s);
      forall v: nat | s <= v < heap.top
        ensures PteValid(HwPte(heap.pt.mem.ram, root, v)) && PtePpn(HwPte(heap.pt.mem.ram, root, v)) !in heap.pt.mem.blk
      {
        StaleAt(ram0, heap.pt.mem.ram, heap.pt.mem.blk, root, res, v);
      }
    }
  }

  lemma AlignedPages(x: nat)
    requires x % PAGE_SIZE == 0
    ensures UpPages(x) == x / PAGE_SIZE
  {}

  lemma HeapBound(ram: Ram, blk: Blocks, root: nat, s: nat, n: nat, top: nat)
    requires HeapShape(ram, blk, root, s, n, top)
    ensures s + n <= top <= VPNS
  {}

  lemma HeapExactly(ram: Ram, blk: Blocks, root: nat, s: nat, n: nat, top: nat)
    requires HeapShape(ram, blk, root, s, n, top)
    ensures forall v: nat :: s <= v < top ==> (PteValid(HwPte(ram, root, v)) <==> v < s + n)
  {}

  lemma HeapPagesMapped(ram: Ram, blk: Blocks, root: nat, s: nat, n: nat, top: nat, v: nat)
    requires HeapShape(ram, blk, root, s, n, top) && s <= v
    ensures v < s + n ==> PteValid(HwPte(ram, root, v))
  {}

  /** A failure that is not exhaustion is due to page top. */
  lemma MeetsTop(ram: Ram, blk: Blocks, root: nat, s: nat, m: nat, k: nat, top: nat, res: Residue)
    requires HeapShape(ram, blk, root, s, m, top) && Explained(ram, root, s + m, k, res) && s + m + k <= VPNS
    requires top < VPNS ==> PteValid(HwPte(ram, root, top))
    ensures res.start + res.len == top < s + m + k && s + m <= res.start
    ensures res.len == 0 <==> BlockStart(k, top - (s + m))
  {
    hide HwPte, PteValid, HeadBelow, DistinctPages, WholeBlocks;
    NextBit(k, res.block);
    RestoredExactly(ram, root, s + m, k, res);
  }

  lemma Stray(ram0: Ram, ram: Ram, blk: Blocks, root: nat, s: nat, m: nat, top: nat, res: Residue)
    requires Stale(ram0, ram, blk, root, res) && s + m <= res.start < top == res.start + res.len
    ensures PteValid(HwPte(ram, root, res.start))
    ensures forall blk' :: !HeapShape(ram, blk', root, s, m, top)
  {
    assert StaleEntry(ram0, ram, blk, root, res.start, res.start);
  }

  lemma GrownBelowTop(ram0: Ram, blk0: Blocks, ram: Ram, blk: Blocks, root: nat, tables: Tables, s: nat, m: nat, k: nat, top: nat, like: seq<Leaf>)
    requires Grew(ram0, blk0, ram, blk, root, tables, s + m, k, like) && s + m <= top <= VPNS && s + m + k <= VPNS
    requires top < VPNS ==> PteValid(HwPte(ram0, root, top))
    ensures s + m + k <= top
  {
    if top < s + m + k { AllFresh(ram0, blk0, ram, blk, root, tables, s + m, k, like, top); }
  }

  lemma KeptBlocks(ram0: Ram, blk0: Blocks, t0: Tables, ram: Ram, blk: Blocks)
    requires Kept(ram0, blk0, t0, ram, blk)
    ensures forall p :: p in blk0 ==> p in blk && blk[p] == blk0[p]
  {}

  lemma SameEverywhere(ram0: Ram, ram: Ram, root: nat, s: nat, top: nat)
    requires SameOutside(ram0, ram, root, 0, 0)
    ensures SameOutside(ram0, ram, root, s, top)
    ensures top < VPNS ==> HwPte(ram, root, top) == HwPte(ram0, root, top)
  {}

  lemma SameAbove(ram0: Ram, ram: Ram, root: nat, lo: nat, hi: nat, top: nat)
    requires SameOutside(ram0, ram, root, lo, hi) && hi <= top
    ensures top < VPNS ==> HwPte(ram, root, top) == HwPte(ram0, root, top)
  {}

  lemma {:induction false} Divides(b: nat)
    requires PowerOfTwo(b) && 32 / b % 2 == 1
    ensures b == 32
  {
    if b > 32 {
      DivModUnique(32, b, 0, 32);
    } else if b < 32 {
      assert b == 1 || b == 2 || b == 4 || b == 8 || b == 16 by { SmallPowers(b); }
    }
  }

  lemma SmallPowers(b: nat)
    requires PowerOfTwo(b) && b < 32
    ensures b == 1 || b == 2 || b == 4 || b == 8 || b == 16
  {
    if b > 1 {
      var c := b / 2;
      if c > 1 {
        var d := c / 2;
        if d > 1 {
          var e := d / 2;
          if e > 1 { assert PowerOfTwo(e / 2); }
        }
      }
    }
  }

  lemma NotAtSeventeen()
    ensures !BlockStart(32, 17)
  {
    forall b: nat | PowerOfTwo(b) && 32 / b % 2 == 1 ensures 17 != 32 % b {
      Divides(b);
    }
  }

  lemma ThirtyTwo(ram: Ram, root: nat, res: Residue, s: nat)
    requires Explained(ram, root, s, 32, res)
    ensures res.start == s
  {
    Divides(res.block);
  }

  lemma SameToTop(ram: Ram, ram': Ram, root: nat, s: nat, lo: nat, hi: nat, top: nat)
    requires SameOutside(ram, ram', root, lo, hi) && s <= lo && hi <= top
    ensures SameOutside(ram, ram', root, s, top)
  {}

  lemma SameAll(ram: Ram, root: nat, lo: nat, hi: nat)
    ensures SameOutside(ram, ram, root, lo, hi)
  {}

  lemma {:induction false} EmptyHeap(ram: Ram, blk: Blocks, root: nat, tables: Tables, s: nat, top: nat)
    requires Tree(ram, root, tables) && LeavesOwned(ram, blk, tables) && s <= top <= VPNS
    requires forall v: nat :: s <= v < top ==> !PteValid(HwPte(ram, root, v))
    ensures HeapShape(ram, blk, root, s, 0, top)
  {
    forall w: nat | w < VPNS && HwPte(ram, root, w) != 0 ensures PtePpn(HwPte(ram, root, w)) in blk {
      HardwareSeesTree(ram, root, tables, w);
    }
  }
}
