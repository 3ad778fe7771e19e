/** The initial user stack that execve builds: a descending stream over mapped pages, what it
    writes, and how a program's start code reads it back. */
module UserStack {
  import opened Bytes
  import opened PageAllocator
  import opened PageTables
  import opened PhysicalMemory
  import opened Sv39
  import opened UserCopy
  import opened VirtualMemory
  import opened Wrappers

  // ------------------------------------------------------------ stack memory

  /** [base, end) is made of whole pages that user mode may access, on distinct physical
      pages; the page below is mapped too (the guard page). */
  ghost predicate StackOk(ram: Ram, root: nat, base: nat, end: nat) {
    && base % PAGE_SIZE == 0 && end % PAGE_SIZE == 0 && PAGE_SIZE <= base < end <= VPNS * PAGE_SIZE
    && (forall v: nat :: base / PAGE_SIZE <= v < end / PAGE_SIZE ==> StackPage(ram, root, v))
    && DistinctPages(ram, root, base / PAGE_SIZE, end / PAGE_SIZE - base / PAGE_SIZE)
    && PteValid(HwPte(ram, root, base / PAGE_SIZE - 1))
  }

  ghost predicate StackPage(ram: Ram, root: nat, v: nat) {
    var e := HwPte(ram, root, v);
    PteValid(e) && PteUser(e) && PtePpn(e) in ram
  }

  lemma StackReadable(ram: Ram, root: nat, base: nat, end: nat, va: nat, n: nat)
    requires StackOk(ram, root, base, end) && base <= va && va + n <= end
    ensures Readable(ram, root, va, n) && DistinctBytes(ram, root, va, n)
  {
    hide HwPte, PteValid, PteUser, PtePpn;
    forall a: nat | va <= a < va + n ensures UserByte(ram, root, a).Just? {
      PageOf(base, end, a);
      assert StackPage(ram, root, a / PAGE_SIZE);
    }
    forall a: nat, b: nat | va <= a < b < va + n
      ensures PhysPage(ram, root, a) != PhysPage(ram, root, b) || a % PAGE_SIZE != b % PAGE_SIZE
    {
      ApartBytes(ram, root, base, end, a, b);
    }
  }

  lemma PageOf(base: nat, end: nat, a: nat)
    requires base % PAGE_SIZE == 0 && end % PAGE_SIZE == 0 && base <= a < end
    ensures base / PAGE_SIZE <= a / PAGE_SIZE < end / PAGE_SIZE
  {}

  lemma ApartBytes(ram: Ram, root: nat, base: nat, end: nat, a: nat, b: nat)
    requires StackOk(ram, root, base, end) && base <= a < b < end
    ensures PhysPage(ram, root, a) != PhysPage(ram, root, b) || a % PAGE_SIZE != b % PAGE_SIZE
  {
    hide HwPte, PteValid, PteUser, PtePpn;
    PageOf(base, end, a);
    PageOf(base, end, b);
    var v, w := a / PAGE_SIZE, b / PAGE_SIZE;
    assert StackPage(ram, root, v) && StackPage(ram, root, w);
    if v == w { SamePageApart(a, b); }
  }

  lemma SamePageApart(a: nat, b: nat)
    requires a < b && a / PAGE_SIZE == b / PAGE_SIZE
    ensures a % PAGE_SIZE != b % PAGE_SIZE
  {}

  /** Storing a chunk right below sp leaves what is above it alone. */
  lemma StoreBelow(ram: Ram, blk: Blocks, root: nat, tables: Tables, base: nat, end: nat, sp: nat, chunk: seq<byte>, above: seq<byte>)
    requires Tree(ram, root, tables) && LeavesOwned(ram, blk, tables) && StackOk(ram, root, base, end)
    requires base + |chunk| <= sp && sp + |above| == end && Reads(ram, root, sp, above)
    ensures var ram' := PokeAll(ram, ram, root, sp - |chunk|, chunk);
            && Tree(ram', root, tables) && LeavesOwned(ram', blk, tables) && ram'.Keys == ram.Keys
            && SameOutside(ram, ram', root, 0, 0) && StackOk(ram', root, base, end)
            && Reads(ram', root, sp - |chunk|, chunk + above)
  {
    hide HwPte, PteValid, PteUser, PtePpn, Tree, LeavesOwned, PokeAll, UserByte, StackOk, Reads, Elsewhere, Readable, DistinctBytes, MappedRange, SameOutside;
    var va := sp - |chunk|;
    var ram' := PokeAll(ram, ram, root, va, chunk);
    StackBounds(ram, root, base, end);
    StackReadable(ram, root, base, end, va, |chunk|);
    ReadableMapped(ram, root, va, |chunk|);
    StoresKeepTree(ram, blk, root, tables, va, chunk);
    StackKept(ram, ram', root, base, end);
    CopyRoundTrip(ram, blk, root, tables, va, chunk);
    AboveKept(ram, ram', root, base, end, va, |chunk|, above);
    ReadsAppend(ram', root, va, chunk, above);
  }

  lemma AboveKept(ram: Ram, ram': Ram, root: nat, base: nat, end: nat, va: nat, n: nat, above: seq<byte>)
    requires StackOk(ram, root, base, end) && base <= va && va + n + |above| == end && end <= VPNS * PAGE_SIZE && Reads(ram, root, va + n, above)
    requires forall x: nat :: x < VPNS * PAGE_SIZE && Elsewhere(ram, root, va, n, x) ==> UserByte(ram', root, x) == UserByte(ram, root, x)
    ensures Reads(ram', root, va + n, above)
  {
    hide UserByte, StackOk, Elsewhere;
    forall i | 0 <= i < |above| ensures UserByte(ram', root, va + n + i) == Just(above[i]) {
      ElsewhereAbove(ram, root, base, end, va, n, va + n + i);
    }
  }

  lemma StackBounds(ram: Ram, root: nat, base: nat, end: nat)
    requires StackOk(ram, root, base, end)
    ensures PAGE_SIZE <= base < end <= VPNS * PAGE_SIZE && base % PAGE_SIZE == 0 && end % PAGE_SIZE == 0
  {}

  lemma ReadableMapped(ram: Ram, root: nat, va: nat, n: nat)
    requires Readable(ram, root, va, n)
    ensures MappedRange(ram, root, va, n)
  {
    forall a: nat | va <= a < va + n ensures PteValid(HwPte(ram, root, a / PAGE_SIZE)) {
      assert UserByte(ram, root, a).Just?;
    }
  }

  lemma StackKept(ram: Ram, ram': Ram, root: nat, base: nat, end: nat)
    requires StackOk(ram, root, base, end) && SameOutside(ram, ram', root, 0, 0) && ram'.Keys == ram.Keys
    ensures StackOk(ram', root, base, end)
  {
    hide HwPte, PteValid, PteUser, PtePpn;
    forall v: nat | base / PAGE_SIZE <= v < end / PAGE_SIZE
      ensures StackPage(ram', root, v) && HwPte(ram', root, v) == HwPte(ram, root, v)
    {
      assert StackPage(ram, root, v);
    }
    assert HwPte(ram', root, base / PAGE_SIZE - 1) == HwPte(ram, root, base / PAGE_SIZE - 1);
  }

  lemma ElsewhereAbove(ram: Ram, root: nat, base: nat, end: nat, va: nat, n: nat, x: nat)
    requires StackOk(ram, root, base, end) && base <= va && va + n <= x < end
    ensures Elsewhere(ram, root, va, n, x)
  {
    hide HwPte, PteValid, PteUser, PtePpn, StackOk;
    forall a: nat | va <= a < va + n ensures PhysPage(ram, root, a) != PhysPage(ram, root, x) || a % PAGE_SIZE != x % PAGE_SIZE {
      ApartBytes(ram, root, base, end, a, x);
    }
  }

  // -------------------------------------------------------------- the stream

  datatype RetCode = RcOk | RcFail | RcNotOpen | RcNoMem

  /** Position off inside the cached page v is the stack pointer; page is that page's frame. */
  ghost predicate CacheOk(ram: Ram, root: nat, base: nat, end: nat, sp: nat, v: nat, page: nat, off: nat) {
    && base / PAGE_SIZE <= v < end / PAGE_SIZE && off <= PAGE_SIZE && sp == v * PAGE_SIZE + off
    && page == PtePpn(HwPte(ram, root, v)) && page in ram
  }

  class UserstackStream {
    const pt: PageTable
    const base: nat
    const end: nat
    var sp: nat
    var cachePage: nat   // _cache_begin
    var cacheOff: nat    // _cache_ptr - _cache_begin
    var errno: RetCode
    ghost var cv: nat    // virtual page of the cached page
    ghost var above: seq<byte>

    /** The stack's pages are in place. */
    ghost predicate Backed()
      reads this, pt, pt.mem
    {
      pt.Valid() && pt.Owned() && StackOk(pt.mem.ram, pt.base, base, end)
    }

    /** Everything from sp to the end of the stack reads as above. */
    ghost predicate Valid()
      reads this, pt, pt.mem
    {
      && Backed() && base <= sp && sp + |above| == end && Reads(pt.mem.ram, pt.base, sp, above)
      && CacheOk(pt.mem.ram, pt.base, base, end, sp, cv, cachePage, cacheOff)
    }

    constructor (pt: PageTable, start: nat, size: nat)
      ensures this.pt == pt && base == start && end == start + size && sp == 0 && errno == RcOk
    {
      this.pt, base, end := pt, start, start + size;
      sp, cachePage, cacheOff, errno, cv, above := 0, 0, 0, RcOk, 0, [];
    }

    /** _update_cache at the stack pointer. An aligned address selects the page below it. */
    method UpdateCache()
      requires Backed() && base - PAGE_SIZE < sp <= end
      modifies this`cachePage, this`cacheOff, this`cv, pt`tables, pt.mem
      ensures Backed() && pt.tables == old(pt.tables) && pt.mem.ram == old(pt.mem.ram) && pt.mem.blk == old(pt.mem.blk)
      ensures base < sp ==> CacheOk(pt.mem.ram, pt.base, base, end, sp, cv, cachePage, cacheOff) && cacheOff > 0
    {
      hide HwPte, PteValid, PteUser, PtePpn, Tree, TablesOwned, LeavesOwned, Consistent, PageNumbers, DirsPresent, StackOk;
      StackBounds(pt.mem.ram, pt.base, base, end);
      var a := if sp % PAGE_SIZE == 0 then sp - PAGE_SIZE else sp;
      CachePageFacts(pt.mem.ram, pt.base, base, end, sp, a);
      var r, pa := WalkAddr(pt, a);
      cachePage, cacheOff := pa / PAGE_SIZE, if sp % PAGE_SIZE == 0 then PAGE_SIZE else pa % PAGE_SIZE;
      cv := a / PAGE_SIZE;
      if base < sp { FramePage(PtePpn(HwPte(pt.mem.ram, pt.base, cv)), a % PAGE_SIZE); }
    }

    /** open: the stack pointer starts at the top. */
    method Open() returns (r: RetCode)
      requires Backed()
      modifies this`sp, this`cachePage, this`cacheOff, this`cv, this`above, pt`tables, pt.mem
      ensures r == RcOk && Valid() && sp == end && above == []
      ensures pt.tables == old(pt.tables) && pt.mem.blk == old(pt.mem.blk) && pt.mem.ram == old(pt.mem.ram)
    {
      hide HwPte, PteValid, PteUser, PtePpn, Tree, TablesOwned, LeavesOwned, Consistent, PageNumbers, StackOk;
      StackBounds(pt.mem.ram, pt.base, base, end);
      sp, above := end, [];
      UpdateCache();
      return RcOk;
    }

    /** memcpy of a chunk into the cached page, below the cursor. */
    method PutChunk(chunk: seq<byte>)
      requires Valid() && |chunk| <= cacheOff && base + |chunk| <= sp
      modifies this`sp, this`cacheOff, this`above, pt.mem
      ensures Valid() && cacheOff == old(cacheOff) - |chunk| && sp == old(sp) - |chunk| && above == chunk + old(above)
      ensures pt.mem.blk == old(pt.mem.blk)
      ensures SameOutside(old(pt.mem.ram), pt.mem.ram, pt.base, 0, 0)
    {
      hide HwPte, PteValid, PteUser, PtePpn, Tree, TablesOwned, LeavesOwned, Consistent, PageNumbers, StackOk, PokeAll, Reads;
      ghost var ram0 := pt.mem.ram;
      cacheOff := cacheOff - |chunk|;
      sp := sp - |chunk|;
      if |chunk| == 0 {
        assert chunk + above == above;
        SameRefl(ram0, pt.base, 0);
        return;
      }
      assert sp / PAGE_SIZE == cv && sp % PAGE_SIZE == cacheOff;
      StoreBelow(ram0, pt.mem.blk, pt.base, pt.tables, base, end, sp + |chunk|, chunk, above);
      ChunkIsPokes(ram0, ram0, pt.base, sp, chunk);
      var page := pt.mem.ram[cachePage];
      pt.mem.ram := pt.mem.ram[cachePage := page[..cacheOff] + chunk + page[cacheOff + |chunk|..]];
      above := chunk + above;
      SameEntryAt(ram0, pt.mem.ram, pt.base, base, end, cv);
    }

    /** operator<< for a byte range. The difference sp - |data| is taken in unsigned arithmetic, so data
        longer than sp itself is not covered. */
    method Push(data: seq<byte>)
      requires Backed() && (sp >= base ==> Valid()) && |data| <= sp
      modifies this`sp, this`cachePage, this`cacheOff, this`cv, this`above, this`errno, pt`tables, pt.mem
      ensures Backed() && pt.tables == old(pt.tables) && pt.mem.blk == old(pt.mem.blk)
      ensures SameOutside(old(pt.mem.ram), pt.mem.ram, pt.base, 0, 0)
      ensures old(sp) == 0 ==> errno == RcNotOpen
      ensures old(sp) > 0 ==> errno == if old(sp) - |data| < base then RcNoMem else RcOk
      ensures errno == RcOk ==> Valid() && sp == old(sp) - |data| && above == data + old(above)
      ensures errno != RcOk ==> sp == old(sp) && above == old(above) && pt.mem.ram == old(pt.mem.ram)
      ensures errno != RcOk && sp >= base ==> Valid()
    {
      hide HwPte, PteValid, PteUser, PtePpn, Tree, TablesOwned, LeavesOwned, Consistent, PageNumbers, StackOk, Reads, SameOutside;
      SameRefl(pt.mem.ram, pt.base, 0);
      if sp == 0 {
        errno := RcNotOpen;
        return;
      }
      if sp - |data| < base {
        errno := RcNoMem;
        return;
      }
      PushBytes(data);
      errno := RcOk;
    }

    /** The copying loop of operator<<, once there is room. */
    method PushBytes(data: seq<byte>)
      requires Valid() && base + |data| <= sp
      modifies this`sp, this`cachePage, this`cacheOff, this`cv, this`above, pt`tables, pt.mem
      ensures Valid() && sp == old(sp) - |data| && above == data + old(above)
      ensures pt.tables == old(pt.tables) && pt.mem.blk == old(pt.mem.blk)
      ensures SameOutside(old(pt.mem.ram), pt.mem.ram, pt.base, 0, 0)
    {
      hide HwPte, PteValid, PteUser, PtePpn, Tree, TablesOwned, LeavesOwned, Consistent, PageNumbers, StackOk, Reads, SameOutside;
      SameRefl(pt.mem.ram, pt.base, 0);
      var len := |data|;
      assert data[len..] + above == above;
      while len > 0
        invariant 0 <= len <= |data| && Valid() && sp == old(sp) - (|data| - len) && base + len <= sp
        invariant above == data[len..] + old(above)
        invariant pt.tables == old(pt.tables) && pt.mem.blk == old(pt.mem.blk) && SameOutside(old(pt.mem.ram), pt.mem.ram, pt.base, 0, 0)
        decreases len, if cacheOff == 0 then 1 else 0
      {
        ghost var ram1 := pt.mem.ram;
        var l := if len <= cacheOff then len else cacheOff;
        PutChunk(data[len - l..len]);
        SameTrans(old(pt.mem.ram), ram1, pt.mem.ram, pt.base, 0, 0);
        Joined(data, len - l, len, old(above));
        len := len - l;
        if len > 0 {
          UpdateCache();
        }
      }
      assert data[0..] == data;
    }

    /** operator-=: skips bytes without writing them. It does not check the bound; a move into the guard page is
        noticed by the next push. */
    method Retreat(move: nat)
      requires Valid() && base - PAGE_SIZE < sp - move
      modifies this`sp, this`cachePage, this`cacheOff, this`cv, this`above, pt`tables, pt.mem
      ensures Backed() && pt.tables == old(pt.tables) && pt.mem.blk == old(pt.mem.blk) && pt.mem.ram == old(pt.mem.ram)
      ensures sp == old(sp) - move
      ensures sp >= base ==> sp + |above| == end && above[move..] == old(above) && Reads(pt.mem.ram, pt.base, sp, above)
      ensures sp > base || (sp == base && move < PAGE_SIZE) ==> Valid()
      ensures sp < base ==> above == old(above)
    {
      hide HwPte, PteValid, PteUser, PtePpn, Tree, TablesOwned, LeavesOwned, Consistent, PageNumbers, StackOk, Reads, UserByte;
      StackBounds(pt.mem.ram, pt.base, base, end);
      if base <= sp - move {
        ghost var skipped := There(pt.mem.ram, pt.base, base, end, sp - move, move);
        ReadsAppend(pt.mem.ram, pt.base, sp - move, skipped, above);
        above := skipped + above;
      }
      if move <= cacheOff && cacheOff - move < PAGE_SIZE {
        cacheOff := cacheOff - move;
        sp := sp - move;
        NotBelowPage(base, cv);
      } else {
        sp := sp - move;
        UpdateCache();
      }
    }

    /** operator<< for a C string: the NUL first, then the characters from the last to the first. errno is
        that of the last character. */
    method PushString(s: seq<byte>)
      requires Backed() && (sp >= base ==> Valid()) && sp > 0
      modifies this`sp, this`cachePage, this`cacheOff, this`cv, this`above, this`errno, pt`tables, pt.mem
      ensures Backed() && pt.tables == old(pt.tables) && pt.mem.blk == old(pt.mem.blk)
      ensures SameOutside(old(pt.mem.ram), pt.mem.ram, pt.base, 0, 0)
      ensures errno == if base <= old(sp) - |s| - 1 then RcOk else RcNoMem
      ensures errno == RcOk ==> Valid() && sp == old(sp) - |s| - 1 && above == s + [0] + old(above)
    {
      hide HwPte, PteValid, PteUser, PtePpn, Tree, TablesOwned, LeavesOwned, Consistent, PageNumbers, StackOk, Reads, SameOutside, CacheOk;
      ghost var full := s + [0];
      var p := |s|;
      SameRefl(pt.mem.ram, pt.base, 0);
      StackBounds(pt.mem.ram, pt.base, base, end);
      assert full[|s| + 1..] + above == above;
      while p >= 0
        invariant -1 <= p <= |s| && sp > 0
        invariant Backed() && (sp >= base ==> Valid()) && pt.tables == old(pt.tables) && pt.mem.blk == old(pt.mem.blk)
        invariant SameOutside(old(pt.mem.ram), pt.mem.ram, pt.base, 0, 0)
        invariant base <= old(sp) - (|s| - p) ==> Valid() && sp == old(sp) - (|s| - p) && above == full[p + 1..] + old(above)
        invariant old(sp) - (|s| - p) < base ==> sp <= base
        invariant p < |s| ==> errno == if base <= old(sp) - (|s| - p) then RcOk else RcNoMem
        decreases p
      {
        ghost var ram1 := pt.mem.ram;
        Push([if p == |s| then 0 else s[p]]);
        SameTrans(old(pt.mem.ram), ram1, pt.mem.ram, pt.base, 0, 0);
        OneMore(s, p, old(above));
        p := p - 1;
      }
      assert full[0..] == full;
    }
  }

  /** The bytes that happen to be at va. */
  ghost function There(ram: Ram, root: nat, base: nat, end: nat, va: nat, n: nat): (s: seq<byte>)
    requires StackOk(ram, root, base, end) && base <= va && va + n <= end
    ensures |s| == n && Reads(ram, root, va, s)
  {
    hide HwPte, UserByte, StackOk, DistinctBytes;
    StackReadable(ram, root, base, end, va, n);
    seq(n, i requires 0 <= i < n => UserByte(ram, root, va + i).value)
  }

  lemma Joined(data: seq<byte>, i: nat, j: nat, tail: seq<byte>)
    requires i <= j <= |data|
    ensures data[i..j] + (data[j..] + tail) == data[i..] + tail
  {}

  lemma OneMore(s: seq<byte>, p: nat, tail: seq<byte>)
    requires p <= |s|
    ensures var full := s + [0]; [if p == |s| then 0 else s[p]] + (full[p + 1..] + tail) == full[p..] + tail
  {
    var full := s + [0];
    assert full[p..] == [full[p]] + full[p + 1..];
  }

  lemma NotBelowPage(base: nat, v: nat)
    requires base % PAGE_SIZE == 0 && base / PAGE_SIZE <= v
    ensures base <= v * PAGE_SIZE
  {}

  lemma SameEntryAt(ram: Ram, ram': Ram, root: nat, base: nat, end: nat, v: nat)
    requires SameOutside(ram, ram', root, 0, 0) && StackOk(ram, root, base, end) && v < end / PAGE_SIZE
    ensures HwPte(ram', root, v) == HwPte(ram, root, v)
  {
    hide HwPte;
  }

  lemma FramePage(p: nat, o: nat)
    requires o < PAGE_SIZE
    ensures (p * PAGE_SIZE + o) / PAGE_SIZE == p && (p * PAGE_SIZE + o) % PAGE_SIZE == o
  {}

  lemma CachePageFacts(ram: Ram, root: nat, base: nat, end: nat, sp: nat, a: nat)
    requires StackOk(ram, root, base, end) && base - PAGE_SIZE < sp <= end
    requires a == if sp % PAGE_SIZE == 0 then sp - PAGE_SIZE else sp
    ensures a / PAGE_SIZE < VPNS && DirsPresent(ram, root, a / PAGE_SIZE)
    ensures base < sp ==> StackPage(ram, root, a / PAGE_SIZE) && base / PAGE_SIZE <= a / PAGE_SIZE < end / PAGE_SIZE
    ensures sp % PAGE_SIZE == 0 ==> sp == a / PAGE_SIZE * PAGE_SIZE + PAGE_SIZE && a % PAGE_SIZE == 0
    ensures sp % PAGE_SIZE != 0 ==> sp == a / PAGE_SIZE * PAGE_SIZE + a % PAGE_SIZE && a % PAGE_SIZE > 0
  {
    hide HwPte, PteValid, PteUser, PtePpn, DirsPresent;
    var v := a / PAGE_SIZE;
    if base < sp {
      PageOf(base, end, a);
      assert StackPage(ram, root, v);
    } else {
      assert v == base / PAGE_SIZE - 1;
    }
    if !DirsPresent(ram, root, v) { AbsentIsUnmapped(ram, root, v); }
  }
}
