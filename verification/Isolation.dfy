/** What two running processes share, and what a store into one of them can do to the other. */
module Isolation {
  import opened AddressSpace
  import opened Bytes
  import opened Fork
  import opened PageAllocator
  import opened PageTables
  import opened PhysicalMemory
  import opened Sv39
  import opened UserCopy
  import opened VirtualMemory

  /** The virtual page of the trampoline, right below 2^38. */
  const TRAMPOLINE: nat := 0x3ff_ffff

  // ------------------------------------------------------- shared frames

  /** Frame p is mapped, if at all, out of reach of user mode. */
  ghost predicate KernelOnly(ram: Ram, root: nat, p: nat) {
    forall v: nat :: v < VPNS && PteValid(HwPte(ram, root, v)) && PtePpn(HwPte(ram, root, v)) == p ==> !PteUser(HwPte(ram, root, v))
  }

  /** The two address spaces have no frame in common but the shared ones, which are no tables and which both map
      for the kernel only. */
  ghost predicate IsolatedBut(ram: Ram, root: nat, tables: Tables, root': nat, tables': Tables, shared: set<nat>) {
    && (forall p :: p in Footprint(ram, root, tables) && p in Footprint(ram, root', tables') ==> p in shared)
    && shared !! tables.Values && shared !! tables'.Values
    && (forall p: nat :: p in shared ==> KernelOnly(ram, root, p) && KernelOnly(ram, root', p))
  }

  // ----------------------------------------------- stores across processes

  /** No address of the range lies on one of the frames. */
  ghost predicate Avoids(ram: Ram, root: nat, va: nat, n: nat, frames: set<nat>) {
    forall a: nat :: va <= a < va + n ==> PhysPage(ram, root, a) !in frames
  }

  ghost predicate SameFrames(ram: Ram, ram': Ram, frames: set<nat>) {
    forall p :: p in frames && p in ram ==> p in ram' && ram'[p] == ram[p]
  }

  /** Whatever n bytes are stored from va on, the frames keep their contents. */
  ghost predicate Harmless(ram: Ram, root: nat, va: nat, n: nat, frames: set<nat>) {
    forall data: seq<byte> :: |data| == n ==> SameFrames(ram, PokeAll(ram, ram, root, va, data), frames)
  }

  lemma {:induction false} AvoidedIsSame(ram: Ram, root: nat, va: nat, data: seq<byte>, frames: set<nat>)
    requires Avoids(ram, root, va, |data|, frames)
    ensures SameFrames(ram, PokeAll(ram, ram, root, va, data), frames)
  {
    hide PokeAll, PhysPage;
    forall p | p in frames && p in ram
      ensures p in PokeAll(ram, ram, root, va, data) && PokeAll(ram, ram, root, va, data)[p] == ram[p]
    {
      PokeAllFrame(ram, ram, root, va, data, p);
    }
  }

  predicate Constant(data: seq<byte>, b: byte) {
    forall i :: 0 <= i < |data| ==> data[i] == b
  }

  lemma {:induction false} StaysConstant(ram: Ram, tab: Ram, root: nat, va: nat, data: seq<byte>, b: byte, p: nat, o: nat)
    requires Constant(data, b) && p in ram && o < PAGE_SIZE && ram[p][o] == b
    ensures p in PokeAll(ram, tab, root, va, data) && PokeAll(ram, tab, root, va, data)[p][o] == b
    decreases |data|
  {
    hide PhysPage;
    if data != [] {
      StaysConstant(Poke(ram, PhysPage(tab, root, va), va % PAGE_SIZE, data[0]), tab, root, va + 1, data[1..], b, p, o);
    }
  }

  /** Storing the same byte everywhere puts it wherever an address of the range points. */
  lemma {:induction false} ConstantStore(ram: Ram, tab: Ram, root: nat, va: nat, data: seq<byte>, b: byte, a: nat)
    requires Constant(data, b) && va <= a < va + |data| && PhysPage(tab, root, a) in ram
    ensures var p := PhysPage(tab, root, a);
            p in PokeAll(ram, tab, root, va, data) && PokeAll(ram, tab, root, va, data)[p][a % PAGE_SIZE] == b
    decreases |data|
  {
    hide PhysPage;
    var ram1 := Poke(ram, PhysPage(tab, root, va), va % PAGE_SIZE, data[0]);
    if a == va {
      StaysConstant(ram1, tab, root, va + 1, data[1..], b, PhysPage(tab, root, a), a % PAGE_SIZE);
    } else {
      ConstantStore(ram1, tab, root, va + 1, data[1..], b, a);
    }
  }

  /** Stores into a range are harmless to a set of frames exactly if no address of it lies on one. */
  lemma HarmlessExactly(ram: Ram, root: nat, va: nat, n: nat, frames: set<nat>)
    requires frames <= ram.Keys
    ensures Harmless(ram, root, va, n, frames) <==> Avoids(ram, root, va, n, frames)
  {
    hide PokeAll, PhysPage;
    if Avoids(ram, root, va, n, frames) {
      forall data: seq<byte> | |data| == n ensures SameFrames(ram, PokeAll(ram, ram, root, va, data), frames) {
        AvoidedIsSame(ram, root, va, data, frames);
      }
    } else {
      var a: nat :| va <= a < va + n && PhysPage(ram, root, a) in frames;
      var p, o := PhysPage(ram, root, a), a % PAGE_SIZE;
      var b: byte := if ram[p][o] == 0 then 1 else 0;
      var data := seq(n, _ => b);
      ConstantStore(ram, ram, root, va, data, b, a);
      assert !SameFrames(ram, PokeAll(ram, ram, root, va, data), frames);
    }
  }

  /** Of two processes that are isolated but for the shared frames, stores into [va, va + n) of one can never change a
      frame of the other if and only if no page of the range is a shared one that the other maps. */
  lemma ForkIsolation(ram: Ram, root: nat, tables: Tables, root': nat, tables': Tables, shared: set<nat>, va: nat, n: nat)
    requires IsolatedBut(ram, root, tables, root', tables', shared) && Footprint(ram, root, tables) <= ram.Keys
    requires va + n <= VPNS * PAGE_SIZE && MappedRange(ram, root', va, n)
    ensures Harmless(ram, root', va, n, Footprint(ram, root, tables)) <==>
            Avoids(ram, root', va, n, shared * Footprint(ram, root, tables))
  {
    hide PokeAll, HwPte, PteValid, PtePpn;
    HarmlessExactly(ram, root', va, n, Footprint(ram, root, tables));
    forall a: nat | va <= a < va + n ensures PhysPage(ram, root', a) in Footprint(ram, root', tables') {
      assert PteValid(HwPte(ram, root', a / PAGE_SIZE));
    }
  }

  /** Stores into one process, wherever they go, change no translation of the other and no byte that user mode can
      read there; and the two stay isolated. */
  lemma StoresAreInvisible(ram: Ram, blk: Blocks, root: nat, tables: Tables, root': nat, tables': Tables, shared: set<nat>, va: nat, data: seq<byte>)
    requires Tree(ram, root, tables) && Tree(ram, root', tables') && LeavesOwned(ram, blk, tables')
    requires IsolatedBut(ram, root, tables, root', tables', shared)
    requires va + |data| <= VPNS * PAGE_SIZE && MappedRange(ram, root', va, |data|)
    ensures var ram' := PokeAll(ram, ram, root', va, data);
            && Tree(ram', root, tables) && SameOutside(ram, ram', root, 0, 0) && SameOutside(ram, ram', root', 0, 0)
            && (forall x: nat :: x < VPNS * PAGE_SIZE ==> UserByte(ram', root, x) == UserByte(ram, root, x))
            && IsolatedBut(ram', root, tables, root', tables', shared)
  {
    hide PokeAll, HwPte, PteValid, PtePpn, PteUser, Tree, LeavesOwned;
    var ram' := PokeAll(ram, ram, root', va, data);
    PokeAllKeys(ram, ram, root', va, data);
    StoresKeepTree(ram, blk, root', tables', va, data);
    OtherTreeKept(ram, root, tables, root', tables', shared, va, data);
    forall x: nat | x < VPNS * PAGE_SIZE ensures UserByte(ram', root, x) == UserByte(ram, root, x) {
      UserByteKept(ram, root, tables, root', tables', shared, va, data, x);
    }
    SameFootprint(ram, ram', root, tables);
    SameFootprint(ram, ram', root', tables');
    forall p: nat | p in shared ensures KernelOnly(ram', root, p) && KernelOnly(ram', root', p) {
      KernelOnlyKept(ram, ram', root, p);
      KernelOnlyKept(ram, ram', root', p);
    }
  }

  lemma SameFootprint(ram: Ram, ram': Ram, root: nat, tables: Tables)
    requires SameOutside(ram, ram', root, 0, 0)
    ensures Footprint(ram', root, tables) == Footprint(ram, root, tables)
  {
    hide HwPte, PteValid, PtePpn;
    assert forall v: nat :: v < VPNS ==> HwPte(ram', root, v) == HwPte(ram, root, v);
  }

  lemma KernelOnlyKept(ram: Ram, ram': Ram, root: nat, p: nat)
    requires SameOutside(ram, ram', root, 0, 0) && KernelOnly(ram, root, p)
    ensures KernelOnly(ram', root, p)
  {
    hide HwPte, PteValid, PtePpn, PteUser;
  }

  lemma TouchedFrames(ram: Ram, root: nat, tables: Tables, root': nat, tables': Tables, shared: set<nat>, va: nat, n: nat, a: nat)
    requires IsolatedBut(ram, root, tables, root', tables', shared) && MappedRange(ram, root', va, n) && va <= a < va + n
    requires va + n <= VPNS * PAGE_SIZE
    ensures PhysPage(ram, root', a) in Footprint(ram, root, tables) ==> PhysPage(ram, root', a) in shared
  {
    hide HwPte, PteValid, PtePpn;
    assert PteValid(HwPte(ram, root', a / PAGE_SIZE));
    assert PhysPage(ram, root', a) in Footprint(ram, root', tables');
  }

  lemma OtherTreeKept(ram: Ram, root: nat, tables: Tables, root': nat, tables': Tables, shared: set<nat>, va: nat, data: seq<byte>)
    requires Tree(ram, root, tables) && IsolatedBut(ram, root, tables, root', tables', shared)
    requires va + |data| <= VPNS * PAGE_SIZE && MappedRange(ram, root', va, |data|)
    ensures var ram' := PokeAll(ram, ram, root', va, data); Tree(ram', root, tables) && SameOutside(ram, ram', root, 0, 0)
  {
    hide PokeAll, HwPte, PteValid, PtePpn, PhysPage, LeafEntry, DirSlot;
    var ram' := PokeAll(ram, ram, root', va, data);
    PokeAllKeys(ram, ram, root', va, data);
    forall q | q in tables ensures tables[q] in ram' && ram'[tables[q]] == ram[tables[q]] {
      var p := tables[q];
      assert p in tables.Values && p in Footprint(ram, root, tables);
      forall a: nat | va <= a < va + |data| ensures PhysPage(ram, root', a) != p {
        TouchedFrames(ram, root, tables, root', tables', shared, va, |data|, a);
      }
      PokeAllFrame(ram, ram, root', va, data, p);
    }
    TreeFrame(ram, ram', root, tables);
    AllHardware(ram, root, tables);
    AllHardware(ram', root, tables);
  }

  lemma UserByteKept(ram: Ram, root: nat, tables: Tables, root': nat, tables': Tables, shared: set<nat>, va: nat, data: seq<byte>, x: nat)
    requires IsolatedBut(ram, root, tables, root', tables', shared) && x < VPNS * PAGE_SIZE
    requires va + |data| <= VPNS * PAGE_SIZE && MappedRange(ram, root', va, |data|)
    requires SameOutside(ram, PokeAll(ram, ram, root', va, data), root, 0, 0)
    ensures UserByte(PokeAll(ram, ram, root', va, data), root, x) == UserByte(ram, root, x)
  {
    hide PokeAll, HwPte, PteValid, PtePpn, PteUser;
    var ram', v := PokeAll(ram, ram, root', va, data), x / PAGE_SIZE;
    var e := HwPte(ram, root, v);
    PokeAllKeys(ram, ram, root', va, data);
    assert HwPte(ram', root, v) == e;
    if PteValid(e) && PteUser(e) && PtePpn(e) in ram {
      var p := PtePpn(e);
      assert p in Footprint(ram, root, tables);
      forall a: nat | va <= a < va + |data| ensures PhysPage(ram, root', a) != p {
        TouchedFrames(ram, root, tables, root', tables', shared, va, |data|, a);
        assert p in shared ==> KernelOnly(ram, root, p);
      }
      PokeAllFrame(ram, ram, root', va, data, p);
    }
  }

  /** The failing input: copyout tests neither the bound nor the user bit, so a copyout to the trampoline's address in
      one process changes the frame that all of them execute in the kernel. */
  method TrampolineStore(parent: PageTable, child: PageTable, frame: nat, b: byte) returns (r: Outcome)
    requires child.Valid() && child.Owned() && parent.mem == child.mem && frame in child.mem.ram && child.mem.ram[frame][0] != b
    requires MapsAt(child.mem.ram, child.base, TRAMPOLINE, frame) && MapsAt(child.mem.ram, parent.base, TRAMPOLINE, frame)
    modifies child`tables, child.mem
    ensures r.Done? && frame in child.mem.ram && child.mem.ram[frame][0] == b
    ensures !SameFrames(old(child.mem.ram), child.mem.ram, {PtePpn(HwPte(old(child.mem.ram), parent.base, TRAMPOLINE))})
  {
    hide Tree, TablesOwned, LeavesOwned, HwPte, PteValid, PtePpn, DirsPresent, Consistent, PageNumbers, PokeAll;
    ghost var ram0 := child.mem.ram;
    var va := TRAMPOLINE * PAGE_SIZE;
    assert va / PAGE_SIZE == TRAMPOLINE && va % PAGE_SIZE == 0;
    ghost var done;
    r, done := CopyOut(child, va, [b]);
    assert [b][..1] == [b] && Constant([b], b);
    ConstantStore(ram0, ram0, child.base, va, [b], b, va);
  }

  ghost predicate MapsAt(ram: Ram, root: nat, v: nat, p: nat) {
    PteValid(HwPte(ram, root, v)) && PtePpn(HwPte(ram, root, v)) == p
  }

  // ------------------------------------------------------- fork's memory

  /** Frame p can be lent to the address space: it is in use elsewhere, no table here, and not within user reach. */
  ghost predicate Lendable(ram: Ram, blk: Blocks, root: nat, tables: Tables, p: nat) {
    LeafPage(blk, tables, p) && KernelOnly(ram, root, p)
  }

  lemma {:induction false} LendableChild(ram0: Ram, blk0: Blocks, t0: Tables, ram: Ram, blk: Blocks, t: Tables, root: nat, p: nat, o: nat, n: nat, like: seq<Leaf>)
    requires Lendable(ram0, blk0, root, t0, p) && Kept(ram0, blk0, t0, ram, blk) && TablesAdded(blk0, t0, t)
    requires SameOutside(ram0, ram, root, o, o + n) && Grew(ram0, blk0, ram, blk, root, t, o, n, like)
    ensures Lendable(ram, blk, root, t, p)
  {
    hide HwPte, PteValid, PtePpn, PteUser, PteFlags, HeadBelow;
    forall v: nat | o <= v < o + n ensures PtePpn(HwPte(ram, root, v)) != p {
      assert FreshMapping(ram0, blk0, ram, root, o, like, v);
    }
    forall v: nat | v < VPNS && !(o <= v < o + n) ensures HwPte(ram, root, v) == HwPte(ram0, root, v) {}
  }

  lemma LendableParent(ram0: Ram, blk0: Blocks, ram: Ram, blk: Blocks, root: nat, tables: Tables, p: nat)
    requires Lendable(ram0, blk0, root, tables, p) && SameOutside(ram0, ram, root, 0, 0)
    requires forall q :: q in blk0 ==> q in blk && blk[q] == blk0[q]
    ensures Lendable(ram, blk, root, tables, p)
  {
    KernelOnlyKept(ram0, ram, root, p);
  }

  /** proc_init: maps the trampoline for the kernel; its result is not looked at. */
  method MapTrampoline(child: PageTable, frame: nat) returns (r: Outcome)
    requires child.Valid() && child.Owned() && Lendable(child.mem.ram, child.mem.blk, child.base, child.tables, frame)
    modifies child`tables, child.mem
    ensures child.Valid()
    ensures Grown(old(child.mem.ram), old(child.mem.blk), old(child.tables), child.mem.ram, child.mem.blk, child.tables)
    ensures r.Done? || (r.Panic? && child.mem.Full())
    ensures child.mem.refused == old(child.mem.refused) + if r.Panic? then 1 else 0
    ensures r.Done? ==> child.Owned() && PteValid(HwPte(child.mem.ram, child.base, TRAMPOLINE))
    ensures r.Done? ==> if PteValid(HwPte(old(child.mem.ram), child.base, TRAMPOLINE))
                        then SameOutside(old(child.mem.ram), child.mem.ram, child.base, 0, 0)
                        else SameOutside(old(child.mem.ram), child.mem.ram, child.base, TRAMPOLINE, TRAMPOLINE + 1)
                             && HwPte(child.mem.ram, child.base, TRAMPOLINE) == MakePte(frame, PTE_V + PTE_R + PTE_X)
  {
    hide Tree, TablesOwned, LeavesOwned, HwPte, PteValid, PtePpn, PteUser, DirsPresent, Consistent, PageNumbers, Grown, LeafPage, KernelOnly, SameOutside, FilledBy, MakePte, LeafFlags;
    ghost var ram0 := child.mem.ram;
    var va := TRAMPOLINE * PAGE_SIZE;
    assert va / PAGE_SIZE == TRAMPOLINE && va % PAGE_SIZE == 0;
    OnePage(va, frame);
    OneLeafPage(child.mem.blk, child.tables, frame);
    LeafFits(child.mem.ram.Keys, child.mem.blk, child.mem.spare, child.tables, frame);
    CodeFlags(frame);
    ghost var done;
    r, done := MapPages(child, va, PAGE_SIZE, frame * PAGE_SIZE, PTE_V + PTE_R + PTE_X);
    if r.Failed? {
      SameNowhere(ram0, child.mem.ram, child.base, TRAMPOLINE);
      SameAt(ram0, child.mem.ram, child.base, TRAMPOLINE);
      r := Done;
    } else if r.Done? {
      FilledHere(ram0, child.mem.ram, child.base, TRAMPOLINE, frame, PTE_V + PTE_R + PTE_X);
    }
  }

  lemma LeafFits(pages: set<nat>, blk: Blocks, spare: set<nat>, tables: Tables, p: nat)
    requires PageNumbers(pages) && Consistent(pages, blk, spare) && LeafPage(blk, tables, p)
    ensures p + 1 <= PPNS && p in pages
  {}

  lemma CodeFlags(frame: nat)
    ensures LeafFlags(PTE_V + PTE_R + PTE_X)
    ensures var e := MakePte(frame, PTE_V + PTE_R + PTE_X); PteValid(e) && !PteUser(e) && PtePpn(e) == frame
  {
    PteParts(frame, PTE_V + PTE_R + PTE_X);
  }

  lemma FilledHere(ram0: Ram, ram: Ram, root: nat, v: nat, p: nat, flags: nat)
    requires FilledBy(ram0, ram, root, v, v + 1, p, flags)
    ensures !PteValid(HwPte(ram0, root, v)) && HwPte(ram, root, v) == MakePte(p, flags)
  {
    hide HwPte, MakePte, PteValid;
    assert HwPte(ram, root, v) == MakePte(p + v - v, flags);
  }

  /** Two processes that may run: in order, on the same memory, and isolated but for the shared frames. */
  ghost predicate Neighbours(parent: PageTable, child: PageTable, shared: set<nat>)
    reads parent, child, parent.mem, child.mem
  {
    && parent != child && parent.mem == child.mem
    && parent.Valid() && parent.Owned() && child.Valid() && child.Owned()
    && IsolatedBut(parent.mem.ram, parent.base, parent.tables, child.base, child.tables, shared)
  }

  /** With the trampoline mapped, the two share it and nothing else. */
  lemma {:induction false} TrampolineShared(ram: Ram, blk: Blocks, root: nat, tables: Tables, root': nat, t: Tables, ram': Ram, blk': Blocks, t': Tables, frame: nat)
    requires Isolated(ram, root, tables, root', t) && Footprint(ram, root, tables) <= blk.Keys
    requires Footprint(ram', root, tables) == Footprint(ram, root, tables)
    requires Lendable(ram', blk', root, tables, frame) && Lendable(ram, blk, root', t, frame) && TablesAdded(blk, t, t')
    requires SameOutside(ram, ram', root', 0, 0) ||
             (SameOutside(ram, ram', root', TRAMPOLINE, TRAMPOLINE + 1) && HwPte(ram', root', TRAMPOLINE) == MakePte(frame, PTE_V + PTE_R + PTE_X))
    ensures IsolatedBut(ram', root, tables, root', t', {frame})
  {
    hide HwPte, PteValid, PtePpn, PteUser, MakePte, LeafFlags;
    CodeFlags(frame);
    forall v: nat | v < VPNS && PteValid(HwPte(ram', root', v))
      ensures HwPte(ram', root', v) == HwPte(ram, root', v) || (PtePpn(HwPte(ram', root', v)) == frame && !PteUser(HwPte(ram', root', v)))
    {}
    forall p | p in Footprint(ram', root', t') ensures p == frame || p in Footprint(ram, root', t) || p !in blk {
      if p !in t'.Values {
        var v: nat :| v < VPNS && PteValid(HwPte(ram', root', v)) && PtePpn(HwPte(ram', root', v)) == p;
      }
    }
  }

  /** Bytes copied before stay copied when the trampoline is mapped. */
  lemma CopiedUnderTrampoline(ram0: Ram, root: nat, ram1: Ram, blk1: Blocks, t1: Tables, ram2: Ram, blk2: Blocks, t2: Tables, root': nat, x: nat)
    requires Copied(ram0, root, ram1, root', x) && x / PAGE_SIZE < VPNS
    requires Tree(ram1, root', t1) && LeavesOwned(ram1, blk1, t1) && Grown(ram1, blk1, t1, ram2, blk2, t2)
    requires SameOutside(ram1, ram2, root', 0, 0) ||
             (SameOutside(ram1, ram2, root', TRAMPOLINE, TRAMPOLINE + 1) && !PteValid(HwPte(ram1, root', TRAMPOLINE)))
    ensures Copied(ram0, root, ram2, root', x)
  {
    hide HwPte, PteValid, PtePpn, PteUser, Tree, PteFlags;
    var v := x / PAGE_SIZE;
    HardwareSeesTree(ram1, root', t1, v);
    LeafOfValid(ram1, root', t1, v);
    assert LeafPage(blk1, t1, PtePpn(HwPte(ram1, root', v)));
    assert HwPte(ram2, root', v) == HwPte(ram1, root', v);
  }

  /** User mode reads the same bytes everywhere. */
  ghost predicate SameReading(ram0: Ram, ram: Ram, root: nat) {
    forall x: nat :: x < VPNS * PAGE_SIZE ==> UserByte(ram, root, x) == UserByte(ram0, root, x)
  }

  ghost predicate AllCopied(ram0: Ram, root: nat, ram: Ram, root': nat, ranges: seq<Range>, k: nat)
    requires k <= |ranges|
  {
    forall x: nat :: x < VPNS * PAGE_SIZE && InSome(ranges, k, x) ==> Copied(ram0, root, ram, root', x)
  }

  /** The child's trampoline page is as it was, unless a copied range contains it. */
  ghost predicate TrampolineFree(ram0: Ram, ram: Ram, root: nat, ranges: seq<Range>, k: nat)
    requires k <= |ranges|
  {
    InSome(ranges, k, TRAMPOLINE * PAGE_SIZE) || HwPte(ram, root, TRAMPOLINE) == HwPte(ram0, root, TRAMPOLINE)
  }

  /** Range k can be copied: it is aligned, the parent maps all of it, and the child nothing of it, neither from the start nor
      through an earlier range. */
  ghost predicate Copyable(ram: Ram, root: nat, root': nat, ranges: seq<Range>, k: nat)
    requires k < |ranges|
  {
    && ranges[k].start % PAGE_SIZE == 0 && ranges[k].size % PAGE_SIZE == 0
    && forall v: nat :: InPages(ranges[k], v) ==>
         PteValid(HwPte(ram, root, v)) && !PteValid(HwPte(ram, root', v)) && !InSome(ranges, k, v * PAGE_SIZE)
  }

  predicate InPages(range: Range, v: nat) {
    range.start / PAGE_SIZE <= v < range.start / PAGE_SIZE + range.size / PAGE_SIZE
  }

  /** The child maps what it mapped at the start and the first k ranges. */
  ghost predicate ChildMaps(ram0: Ram, ram: Ram, root: nat, ranges: seq<Range>, k: nat)
    requires k <= |ranges|
  {
    forall v: nat :: v < VPNS ==> (PteValid(HwPte(ram, root, v)) <==> PteValid(HwPte(ram0, root, v)) || InSome(ranges, k, v * PAGE_SIZE))
  }

  lemma NothingMapped(ram: Ram, root: nat, ranges: seq<Range>)
    ensures ChildMaps(ram, ram, root, ranges, 0)
  {}

  lemma {:induction false} RangeMapped(ram0: Ram, ram1: Ram, blk1: Blocks, ram2: Ram, blk2: Blocks, t2: Tables, root: nat, ranges: seq<Range>, k: nat, like: seq<Leaf>)
    requires k < |ranges| && ranges[k].start % PAGE_SIZE == 0 && ranges[k].size % PAGE_SIZE == 0 && ChildMaps(ram0, ram1, root, ranges, k)
    requires var first, n := ranges[k].start / PAGE_SIZE, ranges[k].size / PAGE_SIZE;
             SameOutside(ram1, ram2, root, first, first + n) && Grew(ram1, blk1, ram2, blk2, root, t2, first, n, like)
    ensures ChildMaps(ram0, ram2, root, ranges, k + 1)
  {
    hide HwPte, PteValid, Grew;
    var first, n := ranges[k].start / PAGE_SIZE, ranges[k].size / PAGE_SIZE;
    forall v: nat | v < VPNS
      ensures PteValid(HwPte(ram2, root, v)) <==> PteValid(HwPte(ram0, root, v)) || InSome(ranges, k + 1, v * PAGE_SIZE)
    {
      NextRange(ranges, k, v);
      if InPages(ranges[k], v) {
        AllFresh(ram1, blk1, ram2, blk2, root, t2, first, n, like, v);
      } else {
        assert HwPte(ram2, root, v) == HwPte(ram1, root, v);
      }
    }
  }

  lemma NextRange(ranges: seq<Range>, k: nat, v: nat)
    requires k < |ranges| && ranges[k].start % PAGE_SIZE == 0 && ranges[k].size % PAGE_SIZE == 0
    ensures InSome(ranges, k + 1, v * PAGE_SIZE) <==> InSome(ranges, k, v * PAGE_SIZE) || InPages(ranges[k], v)
  {
    PageInRange(ranges[k], v);
  }

  lemma PageInRange(range: Range, v: nat)
    requires range.start % PAGE_SIZE == 0 && range.size % PAGE_SIZE == 0
    ensures InPages(range, v) <==> range.start <= v * PAGE_SIZE < range.start + range.size
  {}

  /** What the copying loop finds is what Copyable says. */
  lemma VerdictCopyable(ram0: Ram, ram: Ram, root: nat, root': nat, ranges: seq<Range>, k: nat)
    requires k < |ranges| && ranges[k].start % PAGE_SIZE == 0 && ranges[k].size % PAGE_SIZE == 0
    requires ranges[k].start + ranges[k].size <= VPNS * PAGE_SIZE
    requires SameOutside(ram0, ram, root, 0, 0) && ChildMaps(ram0, ram, root', ranges, k)
    ensures CopyVerdict(ram, root, root', ranges[k].start / PAGE_SIZE, ranges[k].size / PAGE_SIZE).Done? <==> Copyable(ram0, root, root', ranges, k)
  {
    hide HwPte, PteValid, CopyVerdict, InSome;
    var first, n := ranges[k].start / PAGE_SIZE, ranges[k].size / PAGE_SIZE;
    VerdictMeans(ram, root, root', first, n);
    forall v: nat | InPages(ranges[k], v)
      ensures HwPte(ram, root, v) == HwPte(ram0, root, v)
      ensures PteValid(HwPte(ram, root', v)) <==> PteValid(HwPte(ram0, root', v)) || InSome(ranges, k, v * PAGE_SIZE)
    {
      assert v < VPNS;
    }
  }

  /** Fork's copies, range after range. */
  method CopyRanges(parent: PageTable, child: PageTable, ranges: seq<Range>, ghost frame: nat) returns (r: Outcome)
    requires Pair(parent, child)
    requires Lendable(parent.mem.ram, parent.mem.blk, parent.base, parent.tables, frame)
    requires Lendable(child.mem.ram, child.mem.blk, child.base, child.tables, frame)
    requires forall i :: 0 <= i < |ranges| ==> ranges[i].start + ranges[i].size <= VPNS * PAGE_SIZE
    modifies parent`tables, child`tables, child.mem
    ensures !r.Panic? ==> Pair(parent, child)
    ensures !r.Panic? ==> Lendable(parent.mem.ram, parent.mem.blk, parent.base, parent.tables, frame)
    ensures !r.Panic? ==> Lendable(child.mem.ram, child.mem.blk, child.base, child.tables, frame)
    ensures !r.Panic? ==> SameOutside(old(child.mem.ram), child.mem.ram, parent.base, 0, 0)
    ensures !r.Panic? ==> SameReading(old(child.mem.ram), child.mem.ram, parent.base)
    ensures r.Done? ==> AllCopied(old(child.mem.ram), parent.base, child.mem.ram, child.base, ranges, |ranges|)
    ensures r.Done? ==> TrampolineFree(old(child.mem.ram), child.mem.ram, child.base, ranges, |ranges|)
    ensures old(child.mem.refused) <= child.mem.refused && (r.Done? ==> child.mem.refused == old(child.mem.refused))
    ensures child.mem.refused == old(child.mem.refused) ==>
              (r.Done? <==> forall i :: 0 <= i < |ranges| ==> Copyable(old(child.mem.ram), parent.base, child.base, ranges, i))
  {
    hide Tree, TablesOwned, LeavesOwned, HwPte, PteValid, Kept, TablesAdded, OnlyTablesNew, SameOutside, Isolated, Grew, Consistent, PageNumbers;
    hide Lendable, SameReading, AllCopied, TrampolineFree, Copyable, ChildMaps, CopyVerdict;
    ghost var ram0 := child.mem.ram;
    NothingCopied(ram0, parent.base, child.base, ranges);
    NothingMapped(ram0, child.base, ranges);
    var k := 0;
    while k < |ranges|
      invariant 0 <= k <= |ranges| && Pair(parent, child)
      invariant Lendable(parent.mem.ram, parent.mem.blk, parent.base, parent.tables, frame)
      invariant Lendable(child.mem.ram, child.mem.blk, child.base, child.tables, frame)
      invariant SameOutside(ram0, child.mem.ram, parent.base, 0, 0) && SameReading(ram0, child.mem.ram, parent.base)
      invariant AllCopied(ram0, parent.base, child.mem.ram, child.base, ranges, k)
      invariant TrampolineFree(ram0, child.mem.ram, child.base, ranges, k) && ChildMaps(ram0, child.mem.ram, child.base, ranges, k)
      invariant child.mem.refused == old(child.mem.refused)
      invariant forall i :: 0 <= i < k ==> Copyable(ram0, parent.base, child.base, ranges, i)
    {
      ghost var ram1, blk1, spare1, t1 := child.mem.ram, child.mem.blk, child.mem.spare, child.tables;
      ghost var first, n := ranges[k].start / PAGE_SIZE, ranges[k].size / PAGE_SIZE;
      JudgeRange(ram0, ram1, parent.base, child.base, ranges, k);
      r := VmCopy(parent, child, ranges[k].start, ranges[k].size);
      assert child.mem.refused == old(child.mem.refused) ==> (r.Done? <==> Copyable(ram0, parent.base, child.base, ranges, k));
      if r.Panic? {
        return;
      }
      SameTrans(ram0, ram1, child.mem.ram, parent.base, 0, 0);
      KeptAll(ram1, blk1, t1, child.mem.ram, child.mem.blk);
      LendableParent(ram1, blk1, child.mem.ram, child.mem.blk, parent.base, parent.tables, frame);
      ReadingKept(ram0, ram1, blk1, spare1, parent.base, parent.tables, child.base, t1, child.mem.ram, child.mem.blk);
      if r.Failed? {
        NothingGrew(ram1, blk1, child.mem.ram, child.mem.blk, child.base, child.tables, 0, []);
        LendableChild(ram1, blk1, t1, child.mem.ram, child.mem.blk, child.tables, child.base, frame, 0, 0, []);
        return;
      }
      LendableChild(ram1, blk1, t1, child.mem.ram, child.mem.blk, child.tables, child.base, frame, first, n, LeavesOf(ram1, parent.base, first, n));
      AllCopiedMore(ranges, k, ram0, ram1, blk1, spare1, parent.base, parent.tables, child.base, t1, child.mem.ram, child.mem.blk, child.tables);
      TrampolineStill(ranges, k, ram0, ram1, child.mem.ram, child.base);
      RangeMapped(ram0, ram1, blk1, child.mem.ram, child.mem.blk, child.tables, child.base, ranges, k, LeavesOf(ram1, parent.base, first, n));
      k := k + 1;
    }
    r := Done;
  }

  /** Whether range k can be copied now, aligned or not. */
  lemma JudgeRange(ram0: Ram, ram: Ram, root: nat, root': nat, ranges: seq<Range>, k: nat)
    requires k < |ranges| && ranges[k].start + ranges[k].size <= VPNS * PAGE_SIZE
    requires SameOutside(ram0, ram, root, 0, 0) && ChildMaps(ram0, ram, root', ranges, k)
    ensures Copyable(ram0, root, root', ranges, k) ==> ranges[k].start % PAGE_SIZE == 0 && ranges[k].size % PAGE_SIZE == 0
    ensures ranges[k].start % PAGE_SIZE == 0 && ranges[k].size % PAGE_SIZE == 0 ==>
              (CopyVerdict(ram, root, root', ranges[k].start / PAGE_SIZE, ranges[k].size / PAGE_SIZE).Done? <==> Copyable(ram0, root, root', ranges, k))
  {
    hide CopyVerdict, ChildMaps, SameOutside;
    if ranges[k].start % PAGE_SIZE == 0 && ranges[k].size % PAGE_SIZE == 0 { VerdictCopyable(ram0, ram, root, root', ranges, k); }
  }

  lemma NothingCopied(ram: Ram, root: nat, root': nat, ranges: seq<Range>)
    ensures AllCopied(ram, root, ram, root', ranges, 0) && TrampolineFree(ram, ram, root', ranges, 0)
    ensures SameReading(ram, ram, root) && SameOutside(ram, ram, root, 0, 0)
  {}

  lemma KeptAll(ram0: Ram, blk0: Blocks, t0: Tables, ram: Ram, blk: Blocks)
    requires Kept(ram0, blk0, t0, ram, blk)
    ensures forall q :: q in blk0 ==> q in blk && blk[q] == blk0[q]
  {}

  lemma ReadingKept(ram0: Ram, ram1: Ram, blk1: Blocks, spare1: set<nat>, root: nat, tables: Tables, root': nat, t1: Tables, ram2: Ram, blk2: Blocks)
    requires SameReading(ram0, ram1, root) && Tree(ram1, root, tables) && LeavesOwned(ram1, blk1, tables) && Consistent(ram1.Keys, blk1, spare1)
    requires Isolated(ram1, root, tables, root', t1) && Kept(ram1, blk1, t1, ram2, blk2) && SameOutside(ram1, ram2, root, 0, 0)
    ensures SameReading(ram0, ram2, root)
  {
    hide Tree, LeavesOwned, Consistent, Isolated, Kept, SameOutside, UserByte;
    forall x: nat | x < VPNS * PAGE_SIZE ensures UserByte(ram2, root, x) == UserByte(ram0, root, x) {
      ParentReads(ram1, blk1, spare1, root, tables, root', t1, ram2, blk2, x);
    }
  }

  lemma AllCopiedMore(ranges: seq<Range>, k: nat, ram0: Ram, ram1: Ram, blk1: Blocks, spare1: set<nat>, root: nat, tables: Tables,
                      root': nat, t1: Tables, ram2: Ram, blk2: Blocks, t2: Tables)
    requires k < |ranges| && ranges[k].start + ranges[k].size <= VPNS * PAGE_SIZE
    requires ranges[k].start % PAGE_SIZE == 0 && ranges[k].size % PAGE_SIZE == 0
    requires Consistent(ram1.Keys, blk1, spare1) && Isolated(ram1, root, tables, root', t1)
    requires Tree(ram1, root, tables) && LeavesOwned(ram1, blk1, tables)
    requires Tree(ram1, root', t1) && LeavesOwned(ram1, blk1, t1)
    requires Kept(ram1, blk1, t1, ram2, blk2) && SameOutside(ram1, ram2, root, 0, 0)
    requires var first, n := ranges[k].start / PAGE_SIZE, ranges[k].size / PAGE_SIZE;
             && SameOutside(ram1, ram2, root', first, first + n)
             && Grew(ram1, blk1, ram2, blk2, root', t2, first, n, LeavesOf(ram1, root, first, n))
             && (forall v: nat :: first <= v < first + n ==> PteValid(HwPte(ram1, root, v)))
    requires SameReading(ram0, ram1, root) && AllCopied(ram0, root, ram1, root', ranges, k)
    ensures AllCopied(ram0, root, ram2, root', ranges, k + 1)
  {
    hide HwPte, PteValid, UserByte, Tree, LeavesOwned, Consistent, Isolated, Kept, SameOutside, Grew, LeavesOf, Copied;
    CopiedMore(ranges, k, ram0, ram1, blk1, spare1, root, tables, root', t1, ram2, blk2, t2);
  }

  lemma TrampolineStill(ranges: seq<Range>, k: nat, ram0: Ram, ram1: Ram, ram2: Ram, root: nat)
    requires k < |ranges| && ranges[k].start % PAGE_SIZE == 0 && ranges[k].size % PAGE_SIZE == 0
    requires TrampolineFree(ram0, ram1, root, ranges, k)
    requires SameOutside(ram1, ram2, root, ranges[k].start / PAGE_SIZE, ranges[k].start / PAGE_SIZE + ranges[k].size / PAGE_SIZE)
    ensures TrampolineFree(ram0, ram2, root, ranges, k + 1)
  {
    hide HwPte;
    var lo, hi := ranges[k].start, ranges[k].start + ranges[k].size;
    if InSome(ranges, k, TRAMPOLINE * PAGE_SIZE) {
    } else if lo <= TRAMPOLINE * PAGE_SIZE < hi {
      assert InSome(ranges, k + 1, TRAMPOLINE * PAGE_SIZE);
    } else {
      assert HwPte(ram2, root, TRAMPOLINE) == HwPte(ram1, root, TRAMPOLINE);
    }
  }

  /** The memory part of fork, up to proc_init: the child reads the parent's bytes in every copied range, the parent reads
      what it read, both map the trampoline, and apart from its frame they share no page. */
  method ForkMemory(parent: PageTable, child: PageTable, ranges: seq<Range>, trampoline: nat) returns (r: Outcome)
    requires Pair(parent, child)
    requires Lendable(parent.mem.ram, parent.mem.blk, parent.base, parent.tables, trampoline)
    requires Lendable(child.mem.ram, child.mem.blk, child.base, child.tables, trampoline)
    requires forall i :: 0 <= i < |ranges| ==> ranges[i].start + ranges[i].size <= VPNS * PAGE_SIZE
    modifies parent`tables, child`tables, child.mem
    ensures !r.Panic? ==> Neighbours(parent, child, {trampoline})
    ensures !r.Panic? ==> SameOutside(old(child.mem.ram), child.mem.ram, parent.base, 0, 0)
    ensures !r.Panic? ==> SameReading(old(child.mem.ram), child.mem.ram, parent.base)
    ensures r.Done? ==> AllCopied(old(child.mem.ram), parent.base, child.mem.ram, child.base, ranges, |ranges|)
    ensures r.Done? ==> PteValid(HwPte(child.mem.ram, child.base, TRAMPOLINE))
    ensures r.Done? && !PteValid(HwPte(old(child.mem.ram), child.base, TRAMPOLINE)) && !InSome(ranges, |ranges|, TRAMPOLINE * PAGE_SIZE) ==>
              MapsAt(child.mem.ram, child.base, TRAMPOLINE, trampoline)
    ensures old(child.mem.refused) <= child.mem.refused && (r.Done? ==> child.mem.refused == old(child.mem.refused))
    ensures child.mem.refused == old(child.mem.refused) ==>
              (r.Done? <==> forall i :: 0 <= i < |ranges| ==> Copyable(old(child.mem.ram), parent.base, child.base, ranges, i))
  {
    hide Tree, TablesOwned, LeavesOwned, HwPte, PteValid, Kept, TablesAdded, OnlyTablesNew, SameOutside, Isolated, Grew, Consistent, PageNumbers, Lendable, SameReading, Grown, MapsAt;
    hide AllCopied, TrampolineFree, Footprint, MakePte, IsolatedBut, Copyable;
    ghost var ram0, root, root' := child.mem.ram, parent.base, child.base;
    r := CopyRanges(parent, child, ranges, trampoline);
    if r.Panic? {
      return;
    }
    ghost var ram1, blk1, spare1, t1 := child.mem.ram, child.mem.blk, child.mem.spare, child.tables;
    FootprintOwned(ram1, blk1, root, parent.tables);
    if r.Failed? {
      NotYetShared(ram1, blk1, root, parent.tables, root', t1, trampoline);
      return;
    }
    r := MapTrampoline(child, trampoline);
    if r.Panic? {
      return;
    }
    GrownIsKept(ram1, blk1, t1, child.mem.ram, child.mem.blk, child.tables);
    KeptAll(ram1, blk1, t1, child.mem.ram, child.mem.blk);
    BystanderThere(ram1, blk1, root, parent.tables, root', t1, child.mem.ram, child.mem.blk, child.tables);
    SameTrans(ram0, ram1, child.mem.ram, root, 0, 0);
    LendableParent(ram1, blk1, child.mem.ram, child.mem.blk, root, parent.tables, trampoline);
    TrampolineShared(ram1, blk1, root, parent.tables, root', t1, child.mem.ram, child.mem.blk, child.tables, trampoline);
    ReadingKept(ram0, ram1, blk1, spare1, root, parent.tables, root', t1, child.mem.ram, child.mem.blk);
    AllStillCopied(ram0, root, ram1, blk1, t1, child.mem.ram, child.mem.blk, child.tables, root', ranges);
    TrampolineThere(ram0, ram1, child.mem.ram, root', ranges, trampoline);
  }

  lemma NotYetShared(ram: Ram, blk: Blocks, root: nat, tables: Tables, root': nat, t: Tables, frame: nat)
    requires Isolated(ram, root, tables, root', t) && Lendable(ram, blk, root, tables, frame) && Lendable(ram, blk, root', t, frame)
    ensures IsolatedBut(ram, root, tables, root', t, {frame})
  {
    hide Footprint, KernelOnly;
  }

  /** The parent is untouched when the child only gained table pages. */
  lemma BystanderThere(ram: Ram, blk: Blocks, root: nat, tables: Tables, root': nat, t: Tables, ram': Ram, blk': Blocks, t': Tables)
    requires Tree(ram, root, tables) && TablesOwned(blk, tables) && LeavesOwned(ram, blk, tables)
    requires Isolated(ram, root, tables, root', t) && TablesOwned(blk', t') && Kept(ram, blk, t, ram', blk') && OnlyTablesNew(blk, blk', t')
    ensures Tree(ram', root, tables) && TablesOwned(blk', tables) && LeavesOwned(ram', blk', tables)
    ensures SameOutside(ram, ram', root, 0, 0) && Footprint(ram', root, tables) == Footprint(ram, root, tables)
  {
    hide Tree, LeavesOwned, HwPte, PtePpn, PteValid;
    forall p | p in blk' && p !in blk ensures blk'[p] !in blk {
      var q :| q in t' && t'[q] == p;
      assert OneBlock(blk', t'[q]);
    }
    BystanderKept(ram, blk, root, tables, t, ram', blk');
  }

  lemma AllStillCopied(ram0: Ram, root: nat, ram1: Ram, blk1: Blocks, t1: Tables, ram2: Ram, blk2: Blocks, t2: Tables, root': nat, ranges: seq<Range>)
    requires AllCopied(ram0, root, ram1, root', ranges, |ranges|)
    requires Tree(ram1, root', t1) && LeavesOwned(ram1, blk1, t1) && Grown(ram1, blk1, t1, ram2, blk2, t2)
    requires SameOutside(ram1, ram2, root', 0, 0) ||
             (SameOutside(ram1, ram2, root', TRAMPOLINE, TRAMPOLINE + 1) && !PteValid(HwPte(ram1, root', TRAMPOLINE)))
    ensures AllCopied(ram0, root, ram2, root', ranges, |ranges|)
  {
    hide Tree, LeavesOwned, Grown, SameOutside, HwPte, PteValid, Copied;
    forall x: nat | x < VPNS * PAGE_SIZE && InSome(ranges, |ranges|, x) ensures Copied(ram0, root, ram2, root', x) {
      CopiedUnderTrampoline(ram0, root, ram1, blk1, t1, ram2, blk2, t2, root', x);
    }
  }

  lemma TrampolineThere(ram0: Ram, ram1: Ram, ram2: Ram, root: nat, ranges: seq<Range>, frame: nat)
    requires TrampolineFree(ram0, ram1, root, ranges, |ranges|)
    requires !PteValid(HwPte(ram1, root, TRAMPOLINE)) ==> HwPte(ram2, root, TRAMPOLINE) == MakePte(frame, PTE_V + PTE_R + PTE_X)
    ensures !PteValid(HwPte(ram0, root, TRAMPOLINE)) && !InSome(ranges, |ranges|, TRAMPOLINE * PAGE_SIZE) ==> MapsAt(ram2, root, TRAMPOLINE, frame)
  {
    hide HwPte, PteValid, PtePpn, MakePte, PteUser;
    CodeFlags(frame);
  }
}
