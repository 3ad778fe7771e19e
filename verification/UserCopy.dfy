/** Copying between the kernel and user address spaces, page by page. */
module UserCopy {
  import opened Bytes
  import opened PageAllocator
  import opened PhysicalMemory
  import opened PageTables
  import opened Sv39
  import opened Wrappers
  import opened VirtualMemory

  // ------------------------------------------------------------- flat view

  /** The physical place of virtual address va under the translations of tab. */
  function PhysPage(tab: Ram, root: nat, va: nat): nat { PtePpn(HwPte(tab, root, va / PAGE_SIZE)) }

  function Poke(ram: Ram, p: nat, o: nat, b: byte): Ram
    requires o < PAGE_SIZE
  {
    if p in ram then ram[p := ram[p][o := b]] else ram
  }

  /** Reference semantics of a copy: one byte store after the other, each through the
      translations of tab. */
  function PokeAll(ram: Ram, tab: Ram, root: nat, va: nat, data: seq<byte>): Ram
    decreases |data|
  {
    if data == [] then ram
    else PokeAll(Poke(ram, PhysPage(tab, root, va), va % PAGE_SIZE, data[0]), tab, root, va + 1, data[1..])
  }

  lemma {:induction false} PokeAllAppend(ram: Ram, tab: Ram, root: nat, va: nat, a: seq<byte>, b: seq<byte>)
    ensures PokeAll(ram, tab, root, va, a + b) == PokeAll(PokeAll(ram, tab, root, va, a), tab, root, va + |a|, b)
    decreases |a|
  {
    if a == [] {
      assert a + b == b;
    } else {
      assert (a + b)[0] == a[0] && (a + b)[1..] == a[1..] + b;
      PokeAllAppend(Poke(ram, PhysPage(tab, root, va), va % PAGE_SIZE, a[0]), tab, root, va + 1, a[1..], b);
    }
  }

  /** A memmove inside one page is the byte stores it stands for. */
  lemma {:induction false} ChunkIsPokes(ram: Ram, tab: Ram, root: nat, va: nat, data: seq<byte>)
    requires var p := PhysPage(tab, root, va); p in ram
    requires va % PAGE_SIZE + |data| <= PAGE_SIZE
    ensures var p, o := PhysPage(tab, root, va), va % PAGE_SIZE;
            PokeAll(ram, tab, root, va, data) == ram[p := ram[p][..o] + data + ram[p][o + |data|..]]
    decreases |data|
  {
    var p, o := PhysPage(tab, root, va), va % PAGE_SIZE;
    if data == [] {
      assert ram[p][..o] + data + ram[p][o..] == ram[p];
    } else {
      var ram1 := Poke(ram, p, o, data[0]);
      if |data| == 1 {
        assert data[1..] == [];
        assert ram[p][o := data[0]] == ram[p][..o] + data + ram[p][o + 1..];
      } else {
        assert (va + 1) / PAGE_SIZE == va / PAGE_SIZE && (va + 1) % PAGE_SIZE == o + 1;
        ChunkIsPokes(ram1, tab, root, va + 1, data[1..]);
        assert ram1[p][..o + 1] + data[1..] + ram1[p][o + |data|..] == ram[p][..o] + data + ram[p][o + |data|..];
      }
    }
  }

  lemma {:induction false} PokeAllFrame(ram: Ram, tab: Ram, root: nat, va: nat, data: seq<byte>, p: nat)
    requires p in ram
    requires forall a: nat :: va <= a < va + |data| ==> PhysPage(tab, root, a) != p
    ensures var r := PokeAll(ram, tab, root, va, data); p in r && r[p] == ram[p] && r.Keys == ram.Keys
    decreases |data|
  {
    if data != [] {
      PokeAllFrame(Poke(ram, PhysPage(tab, root, va), va % PAGE_SIZE, data[0]), tab, root, va + 1, data[1..], p);
    }
  }

  lemma {:induction false} PokeAllKeys(ram: Ram, tab: Ram, root: nat, va: nat, data: seq<byte>)
    ensures PokeAll(ram, tab, root, va, data).Keys == ram.Keys
    decreases |data|
  {
    if data != [] {
      var ram1 := Poke(ram, PhysPage(tab, root, va), va % PAGE_SIZE, data[0]);
      PokeAllKeys(ram1, tab, root, va + 1, data[1..]);
      assert ram1.Keys == ram.Keys;
    }
  }

  /** A byte at which no store is aimed keeps its value. */
  lemma {:induction false} Untouched(ram: Ram, tab: Ram, root: nat, va: nat, data: seq<byte>, p: nat, o: nat)
    requires p in ram && o < PAGE_SIZE
    requires forall a: nat :: va <= a < va + |data| ==> PhysPage(tab, root, a) != p || a % PAGE_SIZE != o
    ensures p in PokeAll(ram, tab, root, va, data) && PokeAll(ram, tab, root, va, data)[p][o] == ram[p][o]
    decreases |data|
  {
    if data != [] {
      Untouched(Poke(ram, PhysPage(tab, root, va), va % PAGE_SIZE, data[0]), tab, root, va + 1, data[1..], p, o);
    }
  }

  /** No two addresses of the range share a physical byte. */
  ghost predicate DistinctBytes(tab: Ram, root: nat, va: nat, n: nat) {
    forall a: nat, b: nat :: va <= a < b < va + n ==>
      PhysPage(tab, root, a) != PhysPage(tab, root, b) || a % PAGE_SIZE != b % PAGE_SIZE
  }

  /** With distinct targets every byte arrives. */
  lemma {:induction false} Arrives(ram: Ram, tab: Ram, root: nat, va: nat, data: seq<byte>, i: nat)
    requires i < |data| && DistinctBytes(tab, root, va, |data|) && PhysPage(tab, root, va + i) in ram
    ensures var p := PhysPage(tab, root, va + i);
            p in PokeAll(ram, tab, root, va, data) && PokeAll(ram, tab, root, va, data)[p][(va + i) % PAGE_SIZE] == data[i]
    decreases |data|
  {
    var ram1 := Poke(ram, PhysPage(tab, root, va), va % PAGE_SIZE, data[0]);
    if i == 0 {
      Untouched(ram1, tab, root, va + 1, data[1..], PhysPage(tab, root, va), va % PAGE_SIZE);
    } else {
      Arrives(ram1, tab, root, va + 1, data[1..], i - 1);
    }
  }

  /** All addresses of the range are mapped. */
  ghost predicate MappedRange(tab: Ram, root: nat, va: nat, n: nat) {
    forall a: nat :: va <= a < va + n ==> PteValid(HwPte(tab, root, a / PAGE_SIZE))
  }

  /** Stores to mapped pages leave every translation alone. */
  lemma {:induction false} StoresKeepTree(ram: Ram, blk: Blocks, root: nat, tables: Tables, va: nat, data: seq<byte>)
    requires Tree(ram, root, tables) && LeavesOwned(ram, blk, tables)
    requires va + |data| <= VPNS * PAGE_SIZE && MappedRange(ram, root, va, |data|)
    ensures var ram' := PokeAll(ram, ram, root, va, data);
            && Tree(ram', root, tables) && SameOutside(ram, ram', root, 0, 0)
            && LeavesOwned(ram', blk, tables) && ram'.Keys == ram.Keys
  {
    var ram' := PokeAll(ram, ram, root, va, data);
    PokeAllKeys(ram, ram, root, va, data);
    forall a: nat | va <= a < va + |data| ensures PhysPage(ram, root, a) !in tables.Values {
      HardwareSeesTree(ram, root, tables, a / PAGE_SIZE);
      assert LeafPage(blk, tables, PhysPage(ram, root, a));
    }
    forall q | q in tables ensures tables[q] in ram' && ram'[tables[q]] == ram[tables[q]] {
      assert tables[q] in tables.Values;
      PokeAllFrame(ram, ram, root, va, data, tables[q]);
    }
    TreeFrame(ram, ram', root, tables);
    AllHardware(ram, root, tables);
    AllHardware(ram', root, tables);
    forall v: nat | v < VPNS && PteOf(ram', tables, v) != 0
      ensures LeafPage(blk, tables, PtePpn(PteOf(ram', tables, v)))
    {
      assert LeafPage(blk, tables, PtePpn(PteOf(ram, tables, v)));
    }
  }

  // ------------------------------------------------------------------ copyout

  function Min(a: nat, b: nat): nat { if a <= b then a else b }

  /** copyout: stores data at va, one page-sized piece at a time. It does not ask whether
      a page is writable or belongs to user mode, only whether it is mapped. done counts
      the bytes stored. */
  method CopyOut(pt: PageTable, va: nat, data: seq<byte>) returns (r: Outcome, ghost done: nat)
    requires pt.Valid() && pt.Owned() && va + |data| <= VPNS * PAGE_SIZE
    modifies pt`tables, pt.mem
    ensures pt.Valid() && pt.Owned() && pt.tables == old(pt.tables) && pt.mem.blk == old(pt.mem.blk)
    ensures done <= |data| && MappedRange(old(pt.mem.ram), pt.base, va, done)
    ensures r.Done? <==> done == |data|
    ensures !r.Done? ==> !PteValid(HwPte(old(pt.mem.ram), pt.base, (va + done) / PAGE_SIZE))
    ensures r.Panic? <==> done < |data| && !DirsPresent(old(pt.mem.ram), pt.base, (va + done) / PAGE_SIZE)
    ensures pt.mem.ram == PokeAll(old(pt.mem.ram), old(pt.mem.ram), pt.base, va, data[..done])
    ensures SameOutside(old(pt.mem.ram), pt.mem.ram, pt.base, 0, 0)
  {
    hide Tree, TablesOwned, LeavesOwned, HwPte, DirsPresent, PteValid, PteIsDir, Consistent, PageNumbers, PokeAll, SameOutside, MappedRange;
    ghost var ram0 := pt.mem.ram;
    var at, rest := va, data;
    done := 0;
    assert data[..0] == [];
    PokeNothing(ram0, pt.base, va);
    SameRefl(ram0, pt.base, 0);
    while |rest| > 0
      invariant done <= |data| && rest == data[done..] && (rest == [] || at == va + done)
      invariant pt.Valid() && pt.Owned() && pt.tables == old(pt.tables) && pt.mem.blk == old(pt.mem.blk)
      invariant MappedRange(ram0, pt.base, va, done) && SameOutside(ram0, pt.mem.ram, pt.base, 0, 0)
      invariant pt.mem.ram == PokeAll(ram0, ram0, pt.base, va, data[..done])
      decreases |rest|
    {
      var a := at - at % PAGE_SIZE;
      var n := Min(PAGE_SIZE - (at - a), |rest|);
      ghost var ram1 := pt.mem.ram;
      SameEntry(ram0, ram1, pt.base, pt.tables, at / PAGE_SIZE);
      r := StorePiece(pt, at, rest[..n]);
      if !r.Done? {
        return;
      }
      assert data[..done] + rest[..n] == data[..done + n];
      PokeAllAppend(ram0, ram0, pt.base, va, data[..done], rest[..n]);
      PokeSameTab(ram1, ram0, ram1, pt.base, at, rest[..n]);
      SameTrans(ram0, ram1, pt.mem.ram, pt.base, 0, 0);
      ChunkMapped(ram0, pt.base, va, done, n);
      rest := rest[n..];
      done := done + n;
      at := a + PAGE_SIZE;
    }
    assert data[..done] == data;
    return Done, done;
  }

  /** One round of the copyout loop: a piece that lies within one page. */
  method StorePiece(pt: PageTable, at: nat, piece: seq<byte>) returns (r: Outcome)
    requires pt.Valid() && pt.Owned() && |piece| > 0 && at % PAGE_SIZE + |piece| <= PAGE_SIZE && at / PAGE_SIZE < VPNS
    modifies pt`tables, pt.mem
    ensures pt.Valid() && pt.Owned() && pt.tables == old(pt.tables) && pt.mem.blk == old(pt.mem.blk)
    ensures r.Done? <==> PteValid(HwPte(old(pt.mem.ram), pt.base, at / PAGE_SIZE))
    ensures r.Panic? <==> !DirsPresent(old(pt.mem.ram), pt.base, at / PAGE_SIZE)
    ensures pt.mem.ram == if r.Done? then PokeAll(old(pt.mem.ram), old(pt.mem.ram), pt.base, at, piece) else old(pt.mem.ram)
    ensures SameOutside(old(pt.mem.ram), pt.mem.ram, pt.base, 0, 0)
  {
    hide Tree, TablesOwned, LeavesOwned, HwPte, DirsPresent, PteValid, PteIsDir, Consistent, PageNumbers, PokeAll, SameOutside;
    var a := at - at % PAGE_SIZE;
    assert a / PAGE_SIZE == at / PAGE_SIZE;
    ghost var ram0 := pt.mem.ram;
    SameRefl(ram0, pt.base, 0);
    NullMeansUnmapped(pt.mem.ram, pt.mem.blk, pt.mem.spare, pt.base, pt.tables, at / PAGE_SIZE);
    var slot := pt.Walk(a, false);
    if slot.Nothing? {
      AbsentIsUnmapped(pt.mem.ram, pt.base, at / PAGE_SIZE);
      return Panic;
    }
    var pa := PteToPa(Entry(pt.mem.ram, slot.value.page, slot.value.index));
    if pa == 0 {
      return Failed;
    }
    var p, o := pa / PAGE_SIZE, at - a;
    ChunkIsPokes(ram0, ram0, pt.base, at, piece);
    PieceMapped(ram0, pt.base, at, |piece|);
    StoresKeepTree(ram0, pt.mem.blk, pt.base, pt.tables, at, piece);
    pt.mem.ram := pt.mem.ram[p := pt.mem.ram[p][..o] + piece + pt.mem.ram[p][o + |piece|..]];
    return Done;
  }

  lemma PieceMapped(tab: Ram, root: nat, at: nat, n: nat)
    requires PteValid(HwPte(tab, root, at / PAGE_SIZE)) && at % PAGE_SIZE + n <= PAGE_SIZE && at / PAGE_SIZE < VPNS
    ensures MappedRange(tab, root, at, n) && at + n <= VPNS * PAGE_SIZE
  {
    forall a: nat | at <= a < at + n ensures PteValid(HwPte(tab, root, a / PAGE_SIZE)) {
      assert a / PAGE_SIZE == at / PAGE_SIZE;
    }
  }

  /** Stores aim by translations only, so snapshots with equal translations are equivalent. */
  lemma {:induction false} PokeSameTab(ram: Ram, tab: Ram, tab': Ram, root: nat, va: nat, data: seq<byte>)
    requires SameOutside(tab, tab', root, 0, 0) && va + |data| <= VPNS * PAGE_SIZE
    ensures PokeAll(ram, tab, root, va, data) == PokeAll(ram, tab', root, va, data)
    decreases |data|
  {
    if data != [] {
      assert HwPte(tab', root, va / PAGE_SIZE) == HwPte(tab, root, va / PAGE_SIZE);
      PokeSameTab(Poke(ram, PhysPage(tab, root, va), va % PAGE_SIZE, data[0]), tab, tab', root, va + 1, data[1..]);
    }
  }

  lemma PokeNothing(ram: Ram, root: nat, va: nat)
    ensures PokeAll(ram, ram, root, va, []) == ram && MappedRange(ram, root, va, 0)
  {}

  lemma SameEntry(ram0: Ram, ram: Ram, root: nat, tables: Tables, v: nat)
    requires Tree(ram0, root, tables) && Tree(ram, root, tables) && SameOutside(ram0, ram, root, 0, 0) && v < VPNS
    ensures HwPte(ram, root, v) == HwPte(ram0, root, v)
    ensures DirsPresent(ram, root, v) <==> DirsPresent(ram0, root, v)
  {
    HardwareSeesTree(ram0, root, tables, v);
    HardwareSeesTree(ram, root, tables, v);
  }

  /** A leaf entry names physical address 0 exactly when it is not valid. */
  lemma NullMeansUnmapped(ram: Ram, blk: Blocks, spare: set<nat>, root: nat, tables: Tables, v: nat)
    requires Tree(ram, root, tables) && LeavesOwned(ram, blk, tables) && v < VPNS
    requires PageNumbers(ram.Keys) && Consistent(ram.Keys, blk, spare)
    ensures var e := HwPte(ram, root, v);
            && (PteToPa(e) == 0 <==> !PteValid(e)) && PteToPa(e) / PAGE_SIZE == PtePpn(e)
            && (PteValid(e) ==> PtePpn(e) in ram)
  {
    var e := HwPte(ram, root, v);
    HardwareSeesTree(ram, root, tables, v);
    LeafSlot(ram, root, tables, v);
    if PteValid(e) { assert LeafPage(blk, tables, PtePpn(e)); }
  }

  lemma ChunkMapped(tab: Ram, root: nat, va: nat, done: nat, n: nat)
    requires MappedRange(tab, root, va, done) && PteValid(HwPte(tab, root, (va + done) / PAGE_SIZE))
    requires (va + done) % PAGE_SIZE + n <= PAGE_SIZE
    ensures MappedRange(tab, root, va, done + n)
  {
    forall a: nat | va <= a < va + (done + n) ensures PteValid(HwPte(tab, root, a / PAGE_SIZE)) {
      if a >= va + done { assert a / PAGE_SIZE == (va + done) / PAGE_SIZE; }
    }
  }

  // -------------------------------------------------------------- copy_in

  /** User mode may read every address of the range. */
  ghost predicate Readable(ram: Ram, root: nat, va: nat, n: nat) {
    forall a: nat :: va <= a < va + n ==> UserByte(ram, root, a).Just?
  }

  /** s is what user mode reads from va on. */
  ghost predicate Reads(ram: Ram, root: nat, va: nat, s: seq<byte>) {
    forall i :: 0 <= i < |s| ==> UserByte(ram, root, va + i) == Just(s[i])
  }

  /** The bytes of one page, as user mode sees them. */
  lemma PieceReads(ram: Ram, root: nat, at: nat, n: nat)
    requires var e := HwPte(ram, root, at / PAGE_SIZE); PteValid(e) && PteUser(e) && PtePpn(e) in ram
    requires at % PAGE_SIZE + n <= PAGE_SIZE
    ensures Reads(ram, root, at, ram[PtePpn(HwPte(ram, root, at / PAGE_SIZE))][at % PAGE_SIZE..at % PAGE_SIZE + n])
  {
    var s := ram[PtePpn(HwPte(ram, root, at / PAGE_SIZE))][at % PAGE_SIZE..at % PAGE_SIZE + n];
    forall i | 0 <= i < |s| ensures UserByte(ram, root, at + i) == Just(s[i]) {
      assert (at + i) / PAGE_SIZE == at / PAGE_SIZE && (at + i) % PAGE_SIZE == at % PAGE_SIZE + i;
    }
  }

  lemma ReadsAppend(ram: Ram, root: nat, va: nat, s: seq<byte>, t: seq<byte>)
    requires Reads(ram, root, va, s) && Reads(ram, root, va + |s|, t)
    ensures Reads(ram, root, va, s + t)
  {
    forall i | 0 <= i < |s + t| ensures UserByte(ram, root, va + i) == Just((s + t)[i]) {
      if i >= |s| { assert UserByte(ram, root, va + |s| + (i - |s|)) == Just(t[i - |s|]); }
    }
  }

  lemma ReadsNothing(ram: Ram, root: nat, va: nat)
    ensures Reads(ram, root, va, [])
  {}

  /** walk_addr on the page of va: its physical address, 0 when it is not mapped for user mode. */
  method WalkAddr(pt: PageTable, va: nat) returns (r: Outcome, pa: nat)
    requires pt.Valid() && pt.Owned() && va / PAGE_SIZE < VPNS
    modifies pt`tables, pt.mem
    ensures pt.Valid() && pt.Owned() && pt.tables == old(pt.tables)
    ensures pt.mem.ram == old(pt.mem.ram) && pt.mem.blk == old(pt.mem.blk) && pt.mem.spare == old(pt.mem.spare)
    ensures r == if DirsPresent(pt.mem.ram, pt.base, va / PAGE_SIZE) then Done else Panic
    ensures var e := HwPte(pt.mem.ram, pt.base, va / PAGE_SIZE);
            pa != 0 <==> r.Done? && PteValid(e) && PteUser(e)
    ensures pa != 0 ==> var e := HwPte(pt.mem.ram, pt.base, va / PAGE_SIZE);
              pa == PtePpn(e) * PAGE_SIZE + va % PAGE_SIZE && PtePpn(e) in pt.mem.ram
  {
    hide Tree, TablesOwned, LeavesOwned, HwPte, DirsPresent, PteValid, PteUser, Consistent, PageNumbers;
    NullMeansUnmapped(pt.mem.ram, pt.mem.blk, pt.mem.spare, pt.base, pt.tables, va / PAGE_SIZE);
    var slot := pt.Walk(va, false);
    if slot.Nothing? {
      return Panic, 0;
    }
    var e := Entry(pt.mem.ram, slot.value.page, slot.value.index);
    if !PteValid(e) || !PteUser(e) {
      return Done, 0;
    }
    return Done, PteToPa(e) + va % PAGE_SIZE;
  }

  /** copy_in: fetches len bytes from va, one page-sized piece at a time. */
  method CopyIn(pt: PageTable, va: nat, len: nat) returns (r: Outcome, dst: seq<byte>)
    requires pt.Valid() && pt.Owned() && va + len <= VPNS * PAGE_SIZE
    modifies pt`tables, pt.mem
    ensures pt.Valid() && pt.Owned() && pt.tables == old(pt.tables)
    ensures pt.mem.ram == old(pt.mem.ram) && pt.mem.blk == old(pt.mem.blk)
    ensures |dst| <= len && Reads(pt.mem.ram, pt.base, va, dst)
    ensures r.Done? <==> |dst| == len
    ensures !r.Done? ==> UserByte(pt.mem.ram, pt.base, va + |dst|).Nothing?
    ensures r.Panic? <==> |dst| < len && !DirsPresent(pt.mem.ram, pt.base, (va + |dst|) / PAGE_SIZE)
  {
    hide Tree, TablesOwned, LeavesOwned, HwPte, DirsPresent, Consistent, PageNumbers, Reads, PteValid, PteUser, PtePpn;
    var src, rest := va, len;
    dst := [];
    ReadsNothing(pt.mem.ram, pt.base, va);
    while rest > 0
      invariant |dst| + rest == len && (rest > 0 ==> src == va + |dst|)
      invariant pt.Valid() && pt.Owned() && pt.tables == old(pt.tables)
      invariant pt.mem.ram == old(pt.mem.ram) && pt.mem.blk == old(pt.mem.blk)
      invariant Reads(pt.mem.ram, pt.base, va, dst)
    {
      var a := src - src % PAGE_SIZE;
      assert a / PAGE_SIZE == src / PAGE_SIZE && a % PAGE_SIZE == 0;
      var pa;
      r, pa := WalkAddr(pt, a);
      if r.Panic? {
        AbsentIsUnmapped(pt.mem.ram, pt.base, src / PAGE_SIZE);
        return;
      }
      if pa == 0 {
        return Failed, dst;
      }
      var n := Min(PAGE_SIZE - (src - a), rest);
      PieceReads(pt.mem.ram, pt.base, src, n);
      var piece := pt.mem.ram[pa / PAGE_SIZE][src - a..src - a + n];
      ReadsAppend(pt.mem.ram, pt.base, va, dst, piece);
      dst := dst + piece;
      rest := rest - n;
      src := a + PAGE_SIZE;
    }
    return Done, dst;
  }

  /** copyout followed by copy_in gives the bytes back whenever the range is mapped for
      user mode and no two of its addresses share a physical byte; bytes of other
      addresses that are backed by other physical bytes do not change. */
  lemma CopyRoundTrip(ram: Ram, blk: Blocks, root: nat, tables: Tables, va: nat, data: seq<byte>)
    requires Tree(ram, root, tables) && LeavesOwned(ram, blk, tables)
    requires va + |data| <= VPNS * PAGE_SIZE && Readable(ram, root, va, |data|) && DistinctBytes(ram, root, va, |data|)
    ensures var ram' := PokeAll(ram, ram, root, va, data);
            && Reads(ram', root, va, data)
            && (forall x: nat :: x < VPNS * PAGE_SIZE && Elsewhere(ram, root, va, |data|, x) ==>
                  UserByte(ram', root, x) == UserByte(ram, root, x))
  {
    var ram' := PokeAll(ram, ram, root, va, data);
    forall a: nat | va <= a < va + |data| ensures PteValid(HwPte(ram, root, a / PAGE_SIZE)) {
      assert UserByte(ram, root, a).Just?;
    }
    StoresKeepTree(ram, blk, root, tables, va, data);
    forall i | 0 <= i < |data| ensures UserByte(ram', root, va + i) == Just(data[i]) {
      assert UserByte(ram, root, va + i).Just?;
      assert HwPte(ram', root, (va + i) / PAGE_SIZE) == HwPte(ram, root, (va + i) / PAGE_SIZE);
      Arrives(ram, ram, root, va, data, i);
    }
    forall x: nat | x < VPNS * PAGE_SIZE && Elsewhere(ram, root, va, |data|, x)
      ensures UserByte(ram', root, x) == UserByte(ram, root, x)
    {
      ElsewhereKept(ram, root, va, data, x);
    }
  }

  /** copyout and then copy_in, as one run: over a range that user mode may read, on distinct physical bytes, both
      succeed, the bytes come back, and all other addresses keep theirs. */
  method ThereAndBack(pt: PageTable, va: nat, data: seq<byte>) returns (r: Outcome, dst: seq<byte>)
    requires pt.Valid() && pt.Owned() && va + |data| <= VPNS * PAGE_SIZE
    requires Readable(pt.mem.ram, pt.base, va, |data|) && DistinctBytes(pt.mem.ram, pt.base, va, |data|)
    modifies pt`tables, pt.mem
    ensures pt.Valid() && pt.Owned()
    ensures r.Done? && dst == data
    ensures forall x: nat :: x < VPNS * PAGE_SIZE && Elsewhere(old(pt.mem.ram), pt.base, va, |data|, x) ==>
              UserByte(pt.mem.ram, pt.base, x) == UserByte(old(pt.mem.ram), pt.base, x)
  {
    hide Tree, TablesOwned, LeavesOwned, HwPte, DirsPresent, PteValid, PteUser, PtePpn, PokeAll, Consistent, PageNumbers, UserByte, DistinctBytes, Elsewhere, Reads, SameOutside, MappedRange;
    ghost var ram0 := pt.mem.ram;
    CopyRoundTrip(ram0, pt.mem.blk, pt.base, pt.tables, va, data);
    ghost var done;
    r, done := CopyOut(pt, va, data);
    if !r.Done? {
      ReadableIsMapped(ram0, pt.base, va, |data|, va + done);
      assert false;
    }
    assert data[..|data|] == data;
    r, dst := CopyIn(pt, va, |data|);
    SameReads(pt.mem.ram, pt.base, va, dst, data);
  }

  lemma ReadableIsMapped(ram: Ram, root: nat, va: nat, n: nat, a: nat)
    requires Readable(ram, root, va, n) && va <= a < va + n
    ensures PteValid(HwPte(ram, root, a / PAGE_SIZE))
  {
    assert UserByte(ram, root, a).Just?;
  }

  /** What is read from one address is one thing. */
  lemma SameReads(ram: Ram, root: nat, va: nat, s: seq<byte>, t: seq<byte>)
    requires Reads(ram, root, va, s) && Reads(ram, root, va, t) && |s| <= |t|
    ensures s == t[..|s|]
    ensures |s| < |t| ==> UserByte(ram, root, va + |s|).Just?
  {
    hide UserByte;
    forall i | 0 <= i < |s| ensures s[i] == t[i] {
      assert UserByte(ram, root, va + i) == Just(s[i]);
    }
    if |s| < |t| { assert UserByte(ram, root, va + |s|) == Just(t[|s|]); }
  }

  /** x is backed by a physical byte that no address of the range uses. */
  ghost predicate Elsewhere(ram: Ram, root: nat, va: nat, n: nat, x: nat) {
    forall a: nat :: va <= a < va + n ==> PhysPage(ram, root, a) != PhysPage(ram, root, x) || a % PAGE_SIZE != x % PAGE_SIZE
  }

  lemma ElsewhereKept(ram: Ram, root: nat, va: nat, data: seq<byte>, x: nat)
    requires Elsewhere(ram, root, va, |data|, x) && x / PAGE_SIZE < VPNS
    requires SameOutside(ram, PokeAll(ram, ram, root, va, data), root, 0, 0)
    ensures UserByte(PokeAll(ram, ram, root, va, data), root, x) == UserByte(ram, root, x)
  {
    var ram' := PokeAll(ram, ram, root, va, data);
    assert HwPte(ram', root, x / PAGE_SIZE) == HwPte(ram, root, x / PAGE_SIZE);
    PokeAllKeys(ram, ram, root, va, data);
    if PhysPage(ram, root, x) in ram {
      Untouched(ram, ram, root, va, data, PhysPage(ram, root, x), x % PAGE_SIZE);
    }
  }

  // ---------------------------------------------------------- copy_str_in

  /** User mode reads a NUL at va + k and k other bytes before it. */
  ghost predicate TerminatedAt(ram: Ram, root: nat, va: nat, k: nat) {
    && UserByte(ram, root, va + k) == Just(0)
    && (forall a: nat :: va <= a < va + k ==> UserByte(ram, root, a).Just? && UserByte(ram, root, a) != Just(0))
  }

  /** What a string copy that got as far as s can conclude. */
  lemma StringVerdict(ram: Ram, root: nat, va: nat, s: seq<byte>, max: nat)
    requires Reads(ram, root, va, s) && 0 !in s && |s| <= max
    ensures |s| < max && UserByte(ram, root, va + |s|) == Just(0) ==> TerminatedAt(ram, root, va, |s|)
    ensures |s| == max || UserByte(ram, root, va + |s|).Nothing? ==>
              forall k: nat :: k < max ==> !TerminatedAt(ram, root, va, k)
  {
    forall a: nat | va <= a < va + |s| ensures UserByte(ram, root, a).Just? && UserByte(ram, root, a) != Just(0) {
      assert UserByte(ram, root, va + (a - va)) == Just(s[a - va]);
    }
    if |s| == max || UserByte(ram, root, va + |s|).Nothing? {
      forall k: nat | k < max ensures !TerminatedAt(ram, root, va, k) {
        if k < |s| { assert UserByte(ram, root, va + k) == Just(s[k]); }
        if k > |s| { assert va <= va + |s| < va + k; }
      }
    }
  }

  /** copy_str_in: the bytes before the first NUL, looked for within max bytes of va. */
  method CopyStrIn(pt: PageTable, va: nat, max: nat) returns (r: Outcome, dst: seq<byte>)
    requires pt.Valid() && pt.Owned() && va + max <= VPNS * PAGE_SIZE
    modifies pt`tables, pt.mem
    ensures pt.Valid() && pt.Owned() && pt.tables == old(pt.tables)
    ensures pt.mem.ram == old(pt.mem.ram) && pt.mem.blk == old(pt.mem.blk)
    ensures Reads(pt.mem.ram, pt.base, va, dst) && 0 !in dst
    ensures r.Done? ==> |dst| < max && TerminatedAt(pt.mem.ram, pt.base, va, |dst|)
    ensures !r.Done? ==> forall k: nat :: k < max ==> !TerminatedAt(pt.mem.ram, pt.base, va, k)
    ensures |dst| <= max && (r.Panic? <==> |dst| < max && !DirsPresent(pt.mem.ram, pt.base, (va + |dst|) / PAGE_SIZE))
  {
    hide Tree, TablesOwned, LeavesOwned, HwPte, DirsPresent, Consistent, PageNumbers, Reads, PteValid, PteUser, PtePpn, TerminatedAt, UserByte;
    var src, left, gotNull := va, max, false;
    dst := [];
    ReadsNothing(pt.mem.ram, pt.base, va);
    while !gotNull && left > 0
      invariant 0 <= left && |dst| + left == max && 0 !in dst && (!gotNull && left > 0 ==> src == va + |dst|)
      invariant pt.Valid() && pt.Owned() && pt.tables == old(pt.tables)
      invariant pt.mem.ram == old(pt.mem.ram) && pt.mem.blk == old(pt.mem.blk)
      invariant Reads(pt.mem.ram, pt.base, va, dst)
      invariant gotNull ==> left > 0 && UserByte(pt.mem.ram, pt.base, va + |dst|) == Just(0)
      decreases if gotNull then 0 else 1, left
    {
      var a := src - src % PAGE_SIZE;
      assert a / PAGE_SIZE == src / PAGE_SIZE && a % PAGE_SIZE == 0;
      var pa;
      r, pa := WalkAddr(pt, a);
      if r.Panic? || pa == 0 {
        NotReadable(pt.mem.ram, pt.base, src);
        StringVerdict(pt.mem.ram, pt.base, va, dst, max);
        return (if r.Panic? then Panic else Failed), dst;
      }
      var n := Min(PAGE_SIZE - (src - a), left);
      var got;
      got, gotNull := ScanPage(pt.mem.ram[pa / PAGE_SIZE], src - a, n);
      PieceReads(pt.mem.ram, pt.base, src, |got|);
      ReadsAppend(pt.mem.ram, pt.base, va, dst, got);
      if gotNull {
        ByteAt(pt.mem.ram, pt.base, src, |got|);
      }
      dst := dst + got;
      left := left - |got|;
      src := a + PAGE_SIZE;
    }
    StringVerdict(pt.mem.ram, pt.base, va, dst, max);
    if gotNull { ReadableHasDirs(pt.mem.ram, pt.base, va + |dst|); }
    return (if gotNull then Done else Failed), dst;
  }

  lemma ReadableHasDirs(ram: Ram, root: nat, va: nat)
    requires UserByte(ram, root, va).Just?
    ensures DirsPresent(ram, root, va / PAGE_SIZE)
  {
    hide HwPte, DirsPresent;
    if !DirsPresent(ram, root, va / PAGE_SIZE) { AbsentIsUnmapped(ram, root, va / PAGE_SIZE); }
  }

  /** The inner loop of copy_str_in over n bytes of one page. */
  method ScanPage(page: Page, from: nat, n: nat) returns (got: seq<byte>, gotNull: bool)
    requires from + n <= PAGE_SIZE
    ensures |got| <= n && got == page[from..from + |got|] && 0 !in got
    ensures gotNull <==> |got| < n
    ensures gotNull ==> page[from + |got|] == 0
  {
    var p, left := from, n;
    got := [];
    while left > 0
      invariant |got| + left == n && p == from + |got| && got == page[from..p] && 0 !in got
    {
      if page[p] == 0 {
        return got, true;
      }
      got := got + [page[p]];
      left := left - 1;
      p := p + 1;
    }
    return got, false;
  }

  lemma NotReadable(ram: Ram, root: nat, va: nat)
    requires !DirsPresent(ram, root, va / PAGE_SIZE) ||
             var e := HwPte(ram, root, va / PAGE_SIZE); !(PteValid(e) && PteUser(e))
    ensures UserByte(ram, root, va).Nothing?
  {}

  lemma ByteAt(ram: Ram, root: nat, at: nat, n: nat)
    requires var e := HwPte(ram, root, at / PAGE_SIZE); PteValid(e) && PteUser(e) && PtePpn(e) in ram
    requires at % PAGE_SIZE + n < PAGE_SIZE
    ensures UserByte(ram, root, at + n) == Just(ram[PtePpn(HwPte(ram, root, at / PAGE_SIZE))][at % PAGE_SIZE + n])
  {
    assert (at + n) / PAGE_SIZE == at / PAGE_SIZE && (at + n) % PAGE_SIZE == at % PAGE_SIZE + n;
  }
}
