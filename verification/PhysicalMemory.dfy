/** What the page allocator promises, as relations on its abstract state:
    blk maps every allocated page to the first page of its block, and spare is the
    set of pages on which a free block starts. Pages of the kernel image, such as the
    trampoline, count as allocated: the allocator never hands them out. */
module PageAllocator {

  type Blocks = map<nat, nat>

  predicate PowerOfTwo(n: nat)
    ensures PowerOfTwo(n) ==> n > 0
  {
    n == 1 || (n > 1 && n % 2 == 0 && PowerOfTwo(n / 2))
  }

  /** The block size for a request of n pages. */
  function RoundPow(n: nat): (m: nat)
    ensures PowerOfTwo(m) && n <= m && (n > 0 ==> m < 2 * n)
  {
    if n <= 1 then 1 else 2 * RoundPow((n + 1) / 2)
  }

  lemma {:induction false} RoundPowExact(n: nat)
    requires PowerOfTwo(n)
    ensures RoundPow(n) == n
  {
    if n > 1 { RoundPowExact(n / 2); }
  }

  ghost predicate Consistent(pages: set<nat>, blk: Blocks, spare: set<nat>) {
    && blk.Keys <= pages
    && spare <= pages
    && spare !! blk.Keys
    && (forall p :: p in blk ==> blk[p] in blk && blk[blk[p]] == blk[p])
  }

  /** The pages of the block that starts on page h. */
  function BlockOf(blk: Blocks, h: nat): set<nat> {
    set p | p in blk && blk[p] == h
  }

  /** The pages of all blocks that start on a page of hs. */
  function BlocksOf(blk: Blocks, hs: set<nat>): set<nat> {
    set p | p in blk && blk[p] in hs
  }

  lemma MinusMinus(blk: Blocks, a: set<nat>, b: set<nat>)
    ensures blk - a - b == blk - (a + b)
  {}

  /** n pages from h on. */
  function Run(h: nat, n: nat): (s: set<nat>)
    ensures forall p :: p in s <==> h <= p < h + n
  {
    if n == 0 then {} else Run(h, n - 1) + {h + n - 1}
  }

  /** n contiguous pages, all free before, become one block that starts at h. */
  ghost predicate Allocated(pages: set<nat>, blk: Blocks, h: nat, n: nat, blk': Blocks) {
    && Run(h, n) <= pages
    && Run(h, n) !! blk.Keys
    && blk' == blk + map p | p in Run(h, n) :: h
  }

  lemma AllocatedConsistent(pages: set<nat>, blk: Blocks, spare: set<nat>, h: nat, n: nat, blk': Blocks)
    requires Consistent(pages, blk, spare) && n > 0 && Allocated(pages, blk, h, n, blk')
    ensures Consistent(pages, blk', spare - Run(h, n))
  {
    assert h in Run(h, n);
  }

  /** Freeing a page frees the block that starts there; for a page inside a block,
      or one whose block is already gone, nothing happens. */
  ghost predicate Freed(blk: Blocks, spare: set<nat>, p: nat, blk': Blocks, spare': set<nat>) {
    && blk' == blk - BlockOf(blk, p)
    && spare' <= spare + {p}
  }
}

/** Physical memory and its page allocator. */
module PhysicalMemory {
  import opened PageAllocator
  import opened Sv39
  import opened Wrappers

  /** RAM does not start at physical address 0, and page numbers fit an entry. */
  ghost predicate PageNumbers(pages: set<nat>) {
    forall p :: p in pages ==> 0 < p < PPNS
  }

  class Memory {
    var ram: Ram
    var blk: Blocks
    var spare: set<nat>
    ghost var refused: nat  // how many requests the allocator has turned down

    ghost predicate Valid()
      reads this
    {
      && PageNumbers(ram.Keys)
      && Consistent(ram.Keys, blk, spare)
    }

    /** No page is left. */
    ghost predicate Full()
      reads this
    {
      ram.Keys <= blk.Keys
    }

    /** Fails for zero pages and whenever the allocator has no block of that order, which for a single page means that
        no page is left; otherwise the block's pages were free and the n requested ones come back zero-filled. */
    method AllocPages(n: nat) returns (r: Wrap<nat>)
      requires Valid()
      modifies this
      ensures Valid() && ram.Keys == old(ram.Keys)
      ensures n == 0 ==> r.Nothing?
      ensures n == 1 ==> (r.Nothing? <==> old(Full()))
      ensures refused == old(refused) + if r.Nothing? then 1 else 0
      ensures r.Nothing? ==> ram == old(ram) && blk == old(blk) && spare == old(spare)
      ensures r.Just? ==> Allocated(ram.Keys, old(blk), r.value, RoundPow(n), blk)
      ensures r.Just? ==> ram == old(ram) + map p | p in Run(r.value, n) :: ZeroPage()
      ensures PowerOfTwo(n) ==> RoundPow(n) == n
    {
      assert RoundPow(1) == 1;
      hide PageNumbers, Consistent, PowerOfTwo, RoundPow, Allocated, Run;
      if n == 0 {
        refused := refused + 1;
        return Nothing;
      }
      if PowerOfTwo(n) { RoundPowExact(n); }
      var m := RoundPow(n);
      r := Choose(m);
      if r.Nothing? {
        refused := refused + 1;
        return;
      }
      Take(r.value, n, m);
    }

    /** Hands out the block of m pages at h, the first n of them cleared. */
    method Take(h: nat, n: nat, m: nat)
      requires Valid() && 0 < n <= m && Run(h, m) <= ram.Keys && Run(h, m) !! blk.Keys
      modifies this`ram, this`blk, this`spare
      ensures Valid() && ram.Keys == old(ram.Keys)
      ensures Allocated(ram.Keys, old(blk), h, m, blk)
      ensures ram == old(ram) + map p | p in Run(h, n) :: ZeroPage()
    {
      hide PageNumbers, Consistent;
      var run, head := Run(h, m), Run(h, n);
      var blk' := blk + map p | p in run :: h;
      var ram' := ram + map p | p in head :: ZeroPage();
      AllocatedConsistent(ram.Keys, blk, spare, h, m, blk');
      assert head <= run;
      assert ram'.Keys == ram.Keys;
      blk, spare, ram := blk', spare - run, ram';
    }

    /** The allocator's choice of m free pages. A single page is always found if there is one; of more pages the
        buddy lists may not offer a run although one is free. */
    method Choose(m: nat) returns (r: Wrap<nat>)
      requires m > 0
      ensures r.Just? ==> Run(r.value, m) <= ram.Keys && Run(r.value, m) !! blk.Keys
      ensures m == 1 ==> (r.Nothing? <==> Full())
    {
      if m == 1 {
        var free := ram.Keys - blk.Keys;
        if free == {} {
          assert forall p :: p in ram.Keys && p !in blk.Keys ==> p in free;
          return Nothing;
        }
        var p :| p in free;
        return Just(p);
      }
      var h: nat := *;
      if Run(h, m) <= ram.Keys && Run(h, m) !! blk.Keys {
        return Just(h);
      }
      return Nothing;
    }

    /** alloc_page. */
    method AllocPage() returns (r: Wrap<nat>)
      requires Valid()
      modifies this
      ensures Valid() && ram.Keys == old(ram.Keys)
      ensures r.Nothing? <==> old(Full())
      ensures refused == old(refused) + if r.Nothing? then 1 else 0
      ensures r.Nothing? ==> ram == old(ram) && blk == old(blk) && spare == old(spare)
      ensures r.Just? ==> r.value in ram && r.value !in old(blk)
      ensures r.Just? ==> blk == old(blk)[r.value := r.value] && ram == old(ram)[r.value := ZeroPage()]
    {
      assert PowerOfTwo(1);
      r := AllocPages(1);
      if r.Just? {
        assert Run(r.value, 1) == {r.value};
        assert blk == old(blk)[r.value := r.value];
        assert ram == old(ram)[r.value := ZeroPage()];
      }
    }

    method FreePages(p: nat)
      requires Valid() && p in ram && p !in spare
      modifies this`blk, this`spare
      ensures Valid()
      ensures Freed(old(blk), old(spare), p, blk, spare)
    {
      var block := BlockOf(blk, p);
      if block != {} {
        blk := blk - block;
        spare := spare + {p};
      }
    }
  }
}
