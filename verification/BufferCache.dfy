/** The write-back buffer cache, and why it is transparent. */
module BufferCache {
  import opened Arith
  import opened Bitmaps
  import opened BufferBlocks
  import opened Bytes
  import opened Sv39
  import opened Wrappers

  const SETS: nat := 64
  const SECTORS: nat := 8
  const SECTOR_SIZE: nat := 512

  // ------------------------------------------------- logical block addresses

  function OffsetFromLba(lba: nat): nat { lba % 8 }

  function BlkFromLba(lba: nat): nat { lba / 8 % 64 }

  /** A 45-bit field, kept in a 32-bit variable. */
  function TagFromLba(lba: nat): nat { lba / 512 % 0x2000_0000_0000 % 0x1_0000_0000 }

  function LbaAligned(lba: nat): nat { lba - lba % 8 }

  function LbaFrom(tag: nat, blk: nat, off: nat): nat {
    tag % 0x2000_0000_0000 * 512 + blk % 64 * 8 + off % 8
  }

  /** Addresses whose tag survives in 32 bits. */
  predicate Fits(lba: nat) { lba < 0x200_0000_0000 }

  /** Page number of a tag in a set. */
  function PageNo(tag: nat, blk: nat): nat { tag * 64 + blk }

  lemma PageNoParts(n: nat)
    ensures PageNo(n / 64, n % 64) == n
  {}

  lemma TagSmall(t: nat)
    ensures t < 0x1_0000_0000 <==> t % 0x2000_0000_0000 % 0x1_0000_0000 == t
  {
    if t < 0x1_0000_0000 {
      ModSmaller(t, 0x2000_0000_0000);
      ModSmaller(t, 0x1_0000_0000);
    }
  }

  /** The set number lies between offset and tag. */
  lemma LbaParts(lba: nat)
    ensures lba / 8 == 64 * (lba / 512) + lba / 8 % 64
  {
    var x := lba / 8;
    DivModUnique(lba, 512, x / 64, 8 * (x % 64) + lba % 8);
  }

  /** Splitting an address and putting it together again gives its buffer's address exactly if it fits. */
  lemma LbaRoundTrip(lba: nat)
    ensures LbaFrom(TagFromLba(lba), BlkFromLba(lba), OffsetFromLba(lba)) == lba <==> Fits(lba)
    ensures LbaFrom(TagFromLba(lba), BlkFromLba(lba), 0) == LbaAligned(lba) <==> Fits(lba)
    ensures PageNo(TagFromLba(lba), BlkFromLba(lba)) == lba / 8 <==> Fits(lba)
    ensures TagFromLba(lba) < 0x1_0000_0000 && BlkFromLba(lba) < SETS
  {
    var t, tag, blk := lba / 512, TagFromLba(lba), BlkFromLba(lba);
    LbaParts(lba);
    TagSmall(t);
    FitsByTag(lba);
    RebuiltPage(tag, blk, 0);
    RebuiltPage(tag, blk, lba % 8);
    hide TagFromLba, Fits, LbaFrom;
    assert LbaAligned(lba) == lba / 8 * 8;
  }

  lemma FitsByTag(lba: nat)
    ensures Fits(lba) <==> lba / 512 < 0x1_0000_0000
  {}

  lemma RebuiltPage(tag: nat, blk: nat, off: nat)
    requires tag < 0x1_0000_0000 && blk < 64 && off < 8
    ensures LbaFrom(tag, blk, off) == PageNo(tag, blk) * 8 + off
  {
    ModSmaller(tag, 0x2000_0000_0000);
    ModSmaller(blk, 64);
  }

  /** Two addresses 2^41 sectors apart are one to the cache. */
  lemma Aliases(lba: nat)
    ensures TagFromLba(lba + 0x200_0000_0000) == TagFromLba(lba) && BlkFromLba(lba + 0x200_0000_0000) == BlkFromLba(lba)
  {
    var far, t, x := lba + 0x200_0000_0000, lba / 512, lba / 8;
    DivModUnique(far, 512, t + 0x1_0000_0000, lba % 512);
    DivModUnique(far, 8, x + 0x40_0000_0000, lba % 8);
    LowTag(t);
    LowTag(t + 0x1_0000_0000);
    DivModUnique(t + 0x1_0000_0000, 0x1_0000_0000, t / 0x1_0000_0000 + 1, t % 0x1_0000_0000);
    DivModUnique(x + 0x40_0000_0000, 64, x / 64 + 0x1_0000_0000, x % 64);
  }

  lemma LowTag(t: nat)
    ensures t % 0x2000_0000_0000 % 0x1_0000_0000 == t % 0x1_0000_0000
  {
    var q, r := t / 0x2000_0000_0000, t % 0x2000_0000_0000;
    DivModUnique(t, 0x1_0000_0000, 0x2000 * q + r / 0x1_0000_0000, r % 0x1_0000_0000);
  }

  // ------------------------------------------------------ logical content

  /** Page n of device dev. */
  type Disk = (int, nat) -> Page

  function Put(disk: Disk, dev: int, n: nat, page: Page): Disk {
    (d, m) => if d == dev && m == n then page else disk(d, m)
  }

  ghost predicate Holds(b: Buffers, i: nat, dev: int, tag: nat) {
    Sized(b) && i < COUNT && BitTest(b.valid, i) && b.device[i] == dev && b.tag[i] == tag
  }

  ghost predicate Cached(b: Buffers, dev: int, tag: nat) {
    exists i: nat :: Holds(b, i, dev, tag)
  }

  /** What a reader of this set should see: the cached page if there is one, else the disk. */
  ghost function Logical(b: Buffers, disk: Disk, blk: nat, dev: int, tag: nat): Page {
    if Cached(b, dev, tag) then (var i: nat :| Holds(b, i, dev, tag); b.data[i]) else disk(dev, PageNo(tag, blk))
  }

  /** One buffer: unused ones have the impossible tag; valid and clean means equal to disk. */
  ghost predicate BufferOk(b: Buffers, disk: Disk, blk: nat, i: nat)
    requires Sized(b) && i < COUNT
  {
    && (!BitTest(b.valid, i) ==> b.tag[i] == NO_TAG && !BitTest(b.dirty, i))
    && (BitTest(b.valid, i) ==> b.tag[i] < 0x1_0000_0000)
    && (BitTest(b.valid, i) && !BitTest(b.dirty, i) ==> b.data[i] == disk(b.device[i], PageNo(b.tag[i], blk)))
  }

  ghost predicate Tidy(b: Buffers, disk: Disk, blk: nat) {
    && Sized(b)
    && (forall i: nat :: i < COUNT ==> BufferOk(b, disk, blk, i))
    && (forall i: nat, j: nat, dev: int, tag: nat :: Holds(b, i, dev, tag) && Holds(b, j, dev, tag) ==> i == j)
  }

  lemma LogicalAt(b: Buffers, disk: Disk, blk: nat, i: nat, dev: int, tag: nat)
    requires Tidy(b, disk, blk) && Holds(b, i, dev, tag)
    ensures Logical(b, disk, blk, dev, tag) == b.data[i]
  {}

  /** Same logical content in this set. */
  ghost predicate SameLogical(b: Buffers, disk: Disk, b': Buffers, disk': Disk, blk: nat) {
    forall dev: int, tag: nat :: Logical(b', disk', blk, dev, tag) == Logical(b, disk, blk, dev, tag)
  }

  /** Counting handles does not matter. */
  lemma RefsIrrelevant(b: Buffers, disk: Disk, blk: nat, refs: seq<int>)
    requires Tidy(b, disk, blk) && |refs| == COUNT
    ensures var b' := b.(refs := refs); Tidy(b', disk, blk) && SameLogical(b, disk, b', disk, blk)
  {
    var b' := b.(refs := refs);
    assert forall i: nat, dev: int, tag: nat :: Holds(b', i, dev, tag) == Holds(b, i, dev, tag);
    forall i: nat | i < COUNT ensures BufferOk(b', disk, blk, i) {
      assert BufferOk(b, disk, blk, i);
    }
    forall dev: int, tag: nat ensures Logical(b', disk, blk, dev, tag) == Logical(b, disk, blk, dev, tag) {
      SameHolder(b, disk, b', disk, blk, dev, tag);
    }
  }

  /** If the holder is the same with the same data, so is the logical content. */
  lemma SameHolder(b: Buffers, disk: Disk, b': Buffers, disk': Disk, blk: nat, dev: int, tag: nat)
    requires Sized(b) && Sized(b')
    requires forall i: nat :: Holds(b', i, dev, tag) ==> Holds(b, i, dev, tag) && b'.data[i] == b.data[i]
    requires forall i: nat :: Holds(b, i, dev, tag) ==> Holds(b', i, dev, tag)
    requires forall i: nat, j: nat :: Holds(b, i, dev, tag) && Holds(b, j, dev, tag) ==> i == j
    requires Cached(b, dev, tag) || disk'(dev, PageNo(tag, blk)) == disk(dev, PageNo(tag, blk))
    ensures Logical(b', disk', blk, dev, tag) == Logical(b, disk, blk, dev, tag)
  {
    assert Cached(b', dev, tag) <==> Cached(b, dev, tag);
  }

  /** Writing a dirty buffer back. */
  lemma WriteBack(b: Buffers, disk: Disk, blk: nat, i: nat)
    requires Tidy(b, disk, blk) && i < COUNT && BitTest(b.dirty, i)
    ensures var disk' := Put(disk, b.device[i], PageNo(b.tag[i], blk), b.data[i]);
            var b' := b.(dirty := BitReset(b.dirty, i));
            Tidy(b', disk', blk) && SameLogical(b, disk, b', disk', blk) && !BitTest(b'.dirty, i)
  {
    hide BitTest, BitReset;
    var disk' := Put(disk, b.device[i], PageNo(b.tag[i], blk), b.data[i]);
    var b' := b.(dirty := BitReset(b.dirty, i));
    BitTests(b.dirty, i);
    assert forall k: nat, dev: int, tag: nat :: Holds(b', k, dev, tag) == Holds(b, k, dev, tag);
    assert BufferOk(b, disk, blk, i);
    forall k: nat | k < COUNT ensures BufferOk(b', disk', blk, k) {
      assert BufferOk(b, disk, blk, k);
      assert Holds(b, i, b.device[i], b.tag[i]);
      if BitTest(b.valid, k) { assert Holds(b, k, b.device[k], b.tag[k]); }
    }
    forall dev: int, tag: nat ensures Logical(b', disk', blk, dev, tag) == Logical(b, disk, blk, dev, tag) {
      if dev == b.device[i] && tag == b.tag[i] { assert Holds(b, i, dev, tag); }
      SameHolder(b, disk, b', disk', blk, dev, tag);
    }
  }

  /** The set after buffer i was retagged and filled with page n of the device. */
  function Filled(b: Buffers, disk: Disk, i: nat, dev: int, tag: nat, n: nat): Buffers
    requires Sized(b) && i < COUNT
  {
    b.(device := b.device[i := dev], tag := b.tag[i := tag], refs := b.refs[i := 1],
       valid := BitSet(BitReset(b.valid, i), i), data := b.data[i := disk(dev, n)])
  }

  lemma FilledHolds(b: Buffers, disk: Disk, blk: nat, i: nat, dev: int, tag: nat, n: nat)
    requires Sized(b) && i < COUNT
    ensures var b' := Filled(b, disk, i, dev, tag, n);
            && Sized(b') && Holds(b', i, dev, tag)
            && forall k: nat, d: int, t: nat :: Holds(b', k, d, t) <==> (if k == i then d == dev && t == tag else Holds(b, k, d, t))
  {
    hide BitTest, BitReset, BitSet;
    BitTests(b.valid, i);
    BitTests(BitReset(b.valid, i), i);
  }

  /** Replacing a clean buffer: the set stays in order exactly if what was read belongs to the new tag. */
  lemma Refill(b: Buffers, disk: Disk, blk: nat, i: nat, dev: int, tag: nat, n: nat)
    requires Tidy(b, disk, blk) && i < COUNT && !BitTest(b.dirty, i) && tag < 0x1_0000_0000 && !Cached(b, dev, tag)
    ensures var b' := Filled(b, disk, i, dev, tag, n);
            && (Tidy(b', disk, blk) <==> disk(dev, n) == disk(dev, PageNo(tag, blk)))
            && (Tidy(b', disk, blk) ==> SameLogical(b, disk, b', disk, blk))
  {
    hide BitTest, BitReset, BitSet;
    var b' := Filled(b, disk, i, dev, tag, n);
    FilledHolds(b, disk, blk, i, dev, tag, n);
    assert BufferOk(b, disk, blk, i);
    if Tidy(b', disk, blk) {
      assert BufferOk(b', disk, blk, i);
    }
    if disk(dev, n) == disk(dev, PageNo(tag, blk)) {
      forall k: nat | k < COUNT ensures BufferOk(b', disk, blk, k) {
        assert BufferOk(b, disk, blk, k);
        OthersUntouched(b.valid, i, k);
      }
      RefillSame(b, disk, blk, i, dev, tag, n);
    }
  }

  lemma OthersUntouched(m: Bitmap, i: nat, k: nat)
    requires i < COUNT && k < COUNT
    ensures BitTest(BitSet(BitReset(m, i), i), k) <==> k == i || BitTest(m, k)
  {
    hide BitTest, BitReset, BitSet;
    BitTests(m, i);
    BitTests(BitReset(m, i), i);
  }

  lemma RefillSame(b: Buffers, disk: Disk, blk: nat, i: nat, dev: int, tag: nat, n: nat)
    requires Tidy(b, disk, blk) && i < COUNT && !BitTest(b.dirty, i) && !Cached(b, dev, tag)
    requires disk(dev, n) == disk(dev, PageNo(tag, blk))
    ensures SameLogical(b, disk, Filled(b, disk, i, dev, tag, n), disk, blk)
  {
    hide BitTest, BitReset, BitSet;
    var b' := Filled(b, disk, i, dev, tag, n);
    FilledHolds(b, disk, blk, i, dev, tag, n);
    forall d: int, t: nat ensures Logical(b', disk, blk, d, t) == Logical(b, disk, blk, d, t) {
      if d == dev && t == tag {
        assert Holds(b', i, d, t);
      } else if Holds(b, i, d, t) {
        assert BufferOk(b, disk, blk, i);
        assert !Cached(b', d, t);
      } else {
        SameHolder(b, disk, b', disk, blk, d, t);
      }
    }
  }

  /** A client's store into a buffer it holds, marked dirty. */
  lemma Stored(b: Buffers, disk: Disk, blk: nat, i: nat, page: Page)
    requires Tidy(b, disk, blk) && i < COUNT && BitTest(b.valid, i)
    ensures var b' := b.(data := b.data[i := page], dirty := BitSet(b.dirty, i));
            && Tidy(b', disk, blk)
            && forall dev: int, tag: nat ::
                 Logical(b', disk, blk, dev, tag) == if dev == b.device[i] && tag == b.tag[i] then page else Logical(b, disk, blk, dev, tag)
  {
    hide BitTest, BitSet;
    var b' := b.(data := b.data[i := page], dirty := BitSet(b.dirty, i));
    BitTests(b.dirty, i);
    assert forall k: nat, dev: int, tag: nat :: Holds(b', k, dev, tag) == Holds(b, k, dev, tag);
    forall k: nat | k < COUNT ensures BufferOk(b', disk, blk, k) {
      assert BufferOk(b, disk, blk, k);
    }
    assert Holds(b', i, b.device[i], b.tag[i]);
    forall dev: int, tag: nat
      ensures Logical(b', disk, blk, dev, tag) == if dev == b.device[i] && tag == b.tag[i] then page else Logical(b, disk, blk, dev, tag)
    {
      if dev == b.device[i] && tag == b.tag[i] {
        LogicalAt(b', disk, blk, i, dev, tag);
      } else {
        SameHolder(b, disk, b', disk, blk, dev, tag);
      }
    }
  }

  /** Another set's write-back touches no page of this set. */
  lemma OtherSet(b: Buffers, disk: Disk, disk': Disk, blk: nat, blk': nat, dev: int, tag: nat, page: Page)
    requires Tidy(b, disk, blk) && blk != blk' && blk < 64 && blk' < 64
    requires forall d: int, m: nat :: disk'(d, m) == Put(disk, dev, PageNo(tag, blk'), page)(d, m)
    ensures Tidy(b, disk', blk) && SameLogical(b, disk, b, disk', blk)
  {
    forall d: int, t: nat ensures disk'(d, PageNo(t, blk)) == disk(d, PageNo(t, blk)) {}
    forall k: nat | k < COUNT ensures BufferOk(b, disk', blk, k) {
      assert BufferOk(b, disk, blk, k);
    }
    forall d: int, t: nat ensures Logical(b, disk', blk, d, t) == Logical(b, disk, blk, d, t) {
      SameHolder(b, disk, b, disk', blk, d, t);
    }
  }

  // ----------------------------------------------------------- replacement

  /** The disk after buffer v was written back if it was dirty. */
  function Flushed(b: Buffers, disk: Disk, blk: nat, v: nat): Disk
    requires Sized(b) && v < COUNT
  {
    if BitTest(b.dirty, v) then Put(disk, b.device[v], PageNo(b.tag[v], blk), b.data[v]) else disk
  }

  function Cleaned(b: Buffers, v: nat): Buffers
    requires v < COUNT
  {
    if BitTest(b.dirty, v) then b.(dirty := BitReset(b.dirty, v)) else b
  }

  lemma ReplaceOk(b: Buffers, disk: Disk, blk: nat, v: nat, dev: int, tag: nat, n: nat)
    requires Tidy(b, disk, blk) && v < COUNT && tag < 0x1_0000_0000 && !Cached(b, dev, tag) && n == PageNo(tag, blk)
    ensures var disk' := Flushed(b, disk, blk, v);
            var b' := Filled(Cleaned(b, v), disk', v, dev, tag, n);
            Tidy(b', disk', blk) && SameLogical(b, disk, b', disk', blk) && Holds(b', v, dev, tag)
  {
    hide BitTest, BitReset, BitSet, Filled;
    var disk', b1 := Flushed(b, disk, blk, v), Cleaned(b, v);
    if BitTest(b.dirty, v) { WriteBack(b, disk, blk, v); }
    assert !Cached(b1, dev, tag) by {
      assert forall k: nat :: Holds(b1, k, dev, tag) == Holds(b, k, dev, tag);
    }
    Refill(b1, disk', blk, v, dev, tag, n);
    FilledHolds(b1, disk', blk, v, dev, tag, n);
  }

  /** A dirty buffer goes back to the page it came from. */
  lemma DirtyTag(b: Buffers, disk: Disk, blk: nat, v: nat)
    requires Tidy(b, disk, blk) && v < COUNT && BitTest(b.dirty, v) && blk < SETS
    ensures LbaFrom(b.tag[v], blk, 0) / 8 == PageNo(b.tag[v], blk)
  {
    hide BitTest;
    assert BufferOk(b, disk, blk, v);
    TagSmall(b.tag[v]);
  }

  /** Buffer i of a set now holds (dev, tag), with one more handle; buffers in use kept their names and
      data; and if page n is what the name stands for, nothing changed logically. */
  ghost predicate GotIn(b: Buffers, disk: Disk, blk: nat, b': Buffers, disk': Disk, i: nat, dev: int, tag: nat, n: nat) {
    && Sized(b) && Holds(b', i, dev, tag)
    && b'.refs == b.refs[i := b.refs[i] + 1]
    && (forall k: nat :: k < COUNT && b.refs[k] != 0 ==>
          && b'.device[k] == b.device[k] && b'.tag[k] == b.tag[k] && b'.data[k] == b.data[k]
          && (BitTest(b'.valid, k) <==> BitTest(b.valid, k)))
    && (disk' == disk || disk' == Flushed(b, disk, blk, i))
    && (n == PageNo(tag, blk) ==> Tidy(b', disk', blk) && SameLogical(b, disk, b', disk', blk))
  }

  lemma HitOk(b: Buffers, disk: Disk, blk: nat, i: nat, dev: int, tag: nat, n: nat)
    requires Tidy(b, disk, blk) && i < COUNT && b.device[i] == dev && b.tag[i] == tag && tag < 0x1_0000_0000
    ensures GotIn(b, disk, blk, b.(refs := b.refs[i := b.refs[i] + 1]), disk, i, dev, tag, n)
  {
    hide BitTest;
    assert BufferOk(b, disk, blk, i);
    RefsIrrelevant(b, disk, blk, b.refs[i := b.refs[i] + 1]);
  }

  lemma NotCached(b: Buffers, dev: int, tag: nat)
    requires Sized(b) && forall x: nat :: x < COUNT ==> !Named(b.device, b.tag, x, dev, tag)
    ensures !Cached(b, dev, tag)
  {
    hide BitTest;
    forall i: nat ensures !Holds(b, i, dev, tag) {
      if i < COUNT { assert !Named(b.device, b.tag, i, dev, tag); }
    }
  }

  lemma MissOk(b: Buffers, disk: Disk, blk: nat, v: nat, dev: int, tag: nat, n: nat)
    requires Tidy(b, disk, blk) && v < COUNT && b.refs[v] == 0 && tag < 0x1_0000_0000 && !Cached(b, dev, tag)
    ensures var disk' := Flushed(b, disk, blk, v);
            GotIn(b, disk, blk, Filled(Cleaned(b, v), disk', v, dev, tag, n), disk', v, dev, tag, n)
  {
    hide BitTest, BitSet, BitReset;
    var disk' := Flushed(b, disk, blk, v);
    if n == PageNo(tag, blk) { ReplaceOk(b, disk, blk, v, dev, tag, n); }
    FilledHolds(Cleaned(b, v), disk', blk, v, dev, tag, n);
    forall k: nat | k < COUNT ensures BitTest(BitSet(BitReset(b.valid, v), v), k) <==> k == v || BitTest(b.valid, k) {
      OthersUntouched(b.valid, v, k);
    }
  }

  ghost predicate AllTidy(vals: seq<Buffers>, disk: Disk) {
    |vals| == SETS && forall i :: 0 <= i < SETS ==> Tidy(vals[i], disk, i)
  }

  ghost function ContentOf(vals: seq<Buffers>, disk: Disk, dev: int, n: nat): Page
    requires |vals| == SETS
  {
    Logical(vals[n % 64], disk, n % 64, dev, n / 64)
  }

  ghost predicate SameContent(vals: seq<Buffers>, disk: Disk, vals': seq<Buffers>, disk': Disk)
    requires |vals| == |vals'| == SETS
  {
    forall dev: int, n: nat :: ContentOf(vals', disk', dev, n) == ContentOf(vals, disk, dev, n)
  }

  /** The content of page n of dev became page; everything else stayed. */
  ghost predicate Became(vals: seq<Buffers>, disk: Disk, vals': seq<Buffers>, disk': Disk, dev: int, n: nat, page: Page)
    requires |vals| == |vals'| == SETS
  {
    forall d: int, m: nat :: ContentOf(vals', disk', d, m) == if d == dev && m == n then page else ContentOf(vals, disk, d, m)
  }

  /** A step inside one set is a step of the whole cache. */
  lemma OneSet(vals: seq<Buffers>, disk: Disk, blk: nat, b: Buffers, disk': Disk, dev: int, tag: nat, page: Page)
    requires AllTidy(vals, disk) && blk < SETS && Tidy(b, disk', blk) && SameLogical(vals[blk], disk, b, disk', blk)
    requires disk' == disk || disk' == Put(disk, dev, PageNo(tag, blk), page)
    ensures AllTidy(vals[blk := b], disk') && SameContent(vals, disk, vals[blk := b], disk')
  {
    hide Logical, Sized;
    forall i: nat | i < SETS
      ensures Tidy(vals[blk := b][i], disk', i) && SameLogical(vals[i], disk, vals[blk := b][i], disk', i)
    {
      assert Tidy(vals[i], disk, i);
      if i != blk && disk' != disk { OtherSet(vals[i], disk, disk', i, blk, dev, tag, page); }
    }
  }

  /** A store changes one page. */
  lemma OneStore(vals: seq<Buffers>, disk: Disk, blk: nat, i: nat, page: Page)
    requires AllTidy(vals, disk) && blk < SETS && i < COUNT && BitTest(vals[blk].valid, i)
    ensures var b := vals[blk];
            var vals' := vals[blk := b.(data := b.data[i := page], dirty := BitSet(b.dirty, i))];
            AllTidy(vals', disk) && Became(vals, disk, vals', disk, b.device[i], PageNo(b.tag[i], blk), page)
  {
    hide Logical, BitTest, BitSet;
    Stored(vals[blk], disk, blk, i, page);
  }

  lemma SameReflexive(vals: seq<Buffers>, disk: Disk)
    requires |vals| == SETS
    ensures SameContent(vals, disk, vals, disk)
  {}

  /** The whole cache after a get in set blk. */
  lemma GotFacts(vals: seq<Buffers>, disk: Disk, blk: nat, b: Buffers, disk': Disk, i: nat, dev: int, tag: nat, n: nat)
    requires AllTidy(vals, disk) && blk < SETS && GotIn(vals[blk], disk, blk, b, disk', i, dev, tag, n)
    ensures Sized(vals[blk]) && Holds(b, i, dev, tag) && i < COUNT && |b.refs| == |b.data| == |b.device| == |b.tag| == COUNT
    ensures b.refs == vals[blk].refs[i := vals[blk].refs[i] + 1]
    ensures forall k: nat :: k < COUNT && vals[blk].refs[k] != 0 ==>
              && b.device[k] == vals[blk].device[k] && b.tag[k] == vals[blk].tag[k] && b.data[k] == vals[blk].data[k]
              && (BitTest(b.valid, k) <==> BitTest(vals[blk].valid, k))
    ensures n == PageNo(tag, blk) ==>
              && AllTidy(vals[blk := b], disk') && SameContent(vals, disk, vals[blk := b], disk')
              && ContentOf(vals[blk := b], disk', dev, n) == b.data[i]
  {
    hide Logical, BitTest;
    var b0 := vals[blk];
    if n == PageNo(tag, blk) {
      OneSet(vals, disk, blk, b, disk', b0.device[i], b0.tag[i], b0.data[i]);
      LogicalAt(b, disk', blk, i, dev, tag);
      assert n % 64 == blk && n / 64 == tag;
    }
  }

  lemma FreshTidy(disk: Disk, blk: nat)
    ensures Tidy(FreshBuffers(), disk, blk)
    ensures forall dev: int, tag: nat :: Logical(FreshBuffers(), disk, blk, dev, tag) == disk(dev, PageNo(tag, blk))
  {
    EmptyTests();
    hide BitTest;
    assert forall i: nat, dev: int, tag: nat :: !Holds(FreshBuffers(), i, dev, tag);
  }

  lemma AllFreshTidy(vals: seq<Buffers>, disk: Disk)
    requires |vals| == SETS && forall i :: 0 <= i < SETS ==> vals[i] == FreshBuffers()
    ensures AllTidy(vals, disk) && forall dev: int, n: nat :: ContentOf(vals, disk, dev, n) == disk(dev, n)
  {
    hide Logical, Tidy;
    forall dev: int, n: nat ensures ContentOf(vals, disk, dev, n) == disk(dev, n) {
      FreshTidy(disk, n % 64);
      PageNoParts(n);
    }
    forall i: nat | i < SETS ensures Tidy(vals[i], disk, i) {
      FreshTidy(disk, i);
    }
  }

  function Sector(page: Page, off: nat): seq<byte>
    requires off < SECTORS
  {
    page[off * SECTOR_SIZE..off * SECTOR_SIZE + SECTOR_SIZE]
  }

  function SetSector(page: Page, off: nat, data: seq<byte>): (r: Page)
    requires off < SECTORS && |data| == SECTOR_SIZE
  {
    page[..off * SECTOR_SIZE] + data + page[off * SECTOR_SIZE + SECTOR_SIZE..]
  }

  /** Sectors lie side by side and are independent. */
  lemma Sectors(page: Page, off: nat, data: seq<byte>, o: nat)
    requires off < SECTORS && o < SECTORS && |data| == SECTOR_SIZE
    ensures |Sector(page, o)| == SECTOR_SIZE && (forall i: nat :: i < SECTOR_SIZE ==> Sector(page, o)[i] == page[o * SECTOR_SIZE + i])
    ensures Sector(SetSector(page, off, data), o) == if o == off then data else Sector(page, o)
  {}

  lemma SameAt(vals: seq<Buffers>, disk: Disk, vals': seq<Buffers>, disk': Disk, dev: int, n: nat)
    requires |vals| == |vals'| == SETS && SameContent(vals, disk, vals', disk')
    ensures ContentOf(vals', disk', dev, n) == ContentOf(vals, disk, dev, n)
  {}

  /** The sets, newly initialised. */
  method FreshPool() returns (blocks: seq<BufferBlock>)
    ensures |blocks| == SETS && fresh(blocks) && (forall i, j :: 0 <= i < j < SETS ==> blocks[i] != blocks[j])
    ensures forall i :: 0 <= i < SETS ==> blocks[i].Valid() && blocks[i].Value() == FreshBuffers()
  {
    hide BufferBlock.Valid, FreshBuffers;
    blocks := [];
    for i := 0 to SETS
      invariant |blocks| == i && fresh(blocks)
      invariant forall j, k :: 0 <= j < k < i ==> blocks[j] != blocks[k]
      invariant forall j :: 0 <= j < i ==> blocks[j].Valid() && blocks[j].Value() == FreshBuffers()
    {
      var b := new BufferBlock();
      blocks := blocks + [b];
    }
  }

  /** What get returns. NoDevice: not a block device. NoBuffer stands for the assertion that all buffers are in use. */
  datatype Got = NoDevice | NoBuffer | Handle(blk: nat, idx: nat, offset: nat)

  class BufferManager {
    const pool: seq<BufferBlock>
    const devices: set<int>
    var disk: Disk

    ghost predicate Valid()
      reads this, pool
    {
      && |pool| == SETS
      && (forall i, j :: 0 <= i < j < SETS ==> pool[i] != pool[j])
      && (forall i :: 0 <= i < SETS ==> pool[i].Valid())
    }

    ghost function Values(): (vals: seq<Buffers>)
      reads this, pool
      ensures |vals| == |pool| && forall i :: 0 <= i < |pool| ==> vals[i] == pool[i].Value()
    {
      seq(|pool|, i requires 0 <= i < |pool| reads this, pool => pool[i].Value())
    }

    /** Every set is in order with respect to the disk. */
    ghost predicate Coherent()
      reads this, pool
    {
      AllTidy(Values(), disk)
    }

    /** The content of page n of a device, as the cache presents it. */
    ghost function Content(dev: int, n: nat): Page
      requires |pool| == SETS
      reads this, pool
    {
      ContentOf(Values(), disk, dev, n)
    }

    /** alloc_buffer and the rest of a miss: write back if dirty, retag, read. */
    method Replace(blk: nat, dev: int, tag: nat, lba: nat) returns (r: Wrap<nat>)
      requires blk < |pool| && blk < SETS && pool[blk].Valid() && Tidy(pool[blk].Value(), disk, blk)
      modifies this`disk, pool[blk]
      ensures pool[blk].Valid() && pool[blk].Order() == old(pool[blk].Order())
      ensures r.Nothing? ==> pool[blk].Value() == old(pool[blk].Value()) && disk == old(disk)
      ensures r.Nothing? <==> forall x: nat :: x < COUNT ==> old(pool[blk].refCnt)[x] != 0
      ensures r.Just? ==> r.value < COUNT && old(pool[blk].refCnt)[r.value] == 0
      ensures r.Just? ==> forall y: nat :: y < COUNT && y != r.value && old(pool[blk].refCnt)[y] == 0 ==>
                            pool[blk].stamp[r.value] < pool[blk].stamp[y]
      ensures r.Just? ==> disk == Flushed(old(pool[blk].Value()), old(disk), blk, r.value)
      ensures r.Just? ==> pool[blk].Value() == Filled(Cleaned(old(pool[blk].Value()), r.value), disk, r.value, dev, tag, lba / 8)
    {
      hide Ring, Complete, ByRecency, BitTest, BitReset, BitSet, Tidy;
      var b := pool[blk];
      r := b.AllocBuffer();
      if r.Nothing? {
        return;
      }
      var v := r.value;
      if BitTest(b.dirtyMap, v) {
        DirtyTag(b.Value(), disk, blk, v);
        disk := Put(disk, b.device[v], LbaFrom(b.tagNumber[v], blk, 0) / 8, b.data[v]);
        b.dirtyMap := BitReset(b.dirtyMap, v);
      }
      b.Refill(v, dev, tag, disk(dev, lba / 8));
    }

    /** init. */
    constructor (devices: set<int>, disk: Disk)
      ensures Valid() && Coherent() && this.devices == devices && this.disk == disk
      ensures forall dev: int, n: nat :: Content(dev, n) == disk(dev, n)
      ensures forall i :: 0 <= i < SETS ==> Values()[i] == FreshBuffers()
      ensures fresh(pool)
    {
      this.devices := devices;
      this.disk := disk;
      var blocks := FreshPool();
      pool := blocks;
      new;
      hide Tidy, BufferBlock.Valid, ContentOf;
      AllFreshTidy(Values(), disk);
    }

    /** The search in one set, and what follows. */
    method GetInSet(blk: nat, dev: int, tag: nat, lba: nat) returns (r: Wrap<nat>)
      requires blk < |pool| && blk < SETS && pool[blk].Valid() && Tidy(pool[blk].Value(), disk, blk) && tag < 0x1_0000_0000
      modifies this`disk, pool[blk]
      ensures pool[blk].Valid()
      ensures r.Nothing? ==> pool[blk].Value() == old(pool[blk].Value()) && disk == old(disk)
      ensures r.Nothing? ==> !Cached(pool[blk].Value(), dev, tag) && forall x: nat :: x < COUNT ==> pool[blk].refCnt[x] != 0
      ensures pool[blk].Order() == old(pool[blk].Order())
      ensures r.Just? ==> GotIn(old(pool[blk].Value()), old(disk), blk, pool[blk].Value(), disk, r.value, dev, tag, lba / 8)
    {
      hide Ring, Complete, ByRecency, BitTest, BitReset, BitSet, Tidy, GotIn, Filled, Flushed, Cleaned;
      var b := pool[blk];
      ghost var b0, disk0 := b.Value(), disk;
      r := b.SearchBuffer(dev, tag);
      if r.Just? {
        HitOk(b0, disk0, blk, r.value, dev, tag, lba / 8);
        b.refCnt := b.refCnt[r.value := b.refCnt[r.value] + 1];
        return;
      }
      NotCached(b0, dev, tag);
      r := Replace(blk, dev, tag, lba);
      if r.Just? {
        MissOk(b0, disk0, blk, r.value, dev, tag, lba / 8);
      }
    }

    /** _get_buffer, synchronous: a handle on the buffer of lba's page. A hit, a miss on a clean buffer and
        a miss on a dirty one all leave the content of every page alone, and no buffer in use is renamed. */
    method GetBuffer(dev: int, lba: nat) returns (r: Got)
      requires Valid() && Coherent()
      modifies this`disk, pool
      ensures Valid()
      ensures r.NoDevice? <==> dev !in devices
      ensures !r.Handle? ==> disk == old(disk) && Values() == old(Values())
      ensures r.NoBuffer? ==> !Cached(pool[BlkFromLba(lba)].Value(), dev, TagFromLba(lba))
      ensures r.NoBuffer? ==> forall x: nat :: x < COUNT ==> pool[BlkFromLba(lba)].refCnt[x] != 0
      ensures r.Handle? ==> r.blk == BlkFromLba(lba) && r.idx < COUNT && r.offset == OffsetFromLba(lba)
      ensures r.Handle? ==> Holds(pool[r.blk].Value(), r.idx, dev, TagFromLba(lba))
      ensures r.Handle? ==> pool[r.blk].refCnt == old(pool[r.blk].refCnt)[r.idx := old(pool[r.blk].refCnt)[r.idx] + 1]
      ensures r.Handle? ==> forall i: nat :: i < COUNT && old(pool[r.blk].refCnt)[i] > 0 ==>
                pool[r.blk].device[i] == old(pool[r.blk].device)[i] && pool[r.blk].tagNumber[i] == old(pool[r.blk].tagNumber)[i]
                && pool[r.blk].data[i] == old(pool[r.blk].data)[i]
                && (BitTest(pool[r.blk].validMap, i) <==> BitTest(old(pool[r.blk].validMap), i))
      ensures forall i :: 0 <= i < SETS ==> pool[i].Order() == old(pool[i].Order())
      ensures forall i :: 0 <= i < SETS && !(r.Handle? && i == r.blk) ==> pool[i].Value() == old(pool[i].Value())
      ensures Fits(lba) ==> Coherent() && SameContent(old(Values()), old(disk), Values(), disk)
      ensures Fits(lba) && r.Handle? ==> pool[r.blk].data[r.idx] == Content(dev, lba / 8)
    {
      hide Tidy, BufferBlock.Valid, GotIn, Logical, Holds, SameContent, BlkFromLba, TagFromLba, OffsetFromLba;
      if dev !in devices {
        SameReflexive(Values(), disk);
        return NoDevice;
      }
      var blk, tag := BlkFromLba(lba), TagFromLba(lba);
      LbaRoundTrip(lba);
      ghost var vals, disk0 := Values(), disk;
      var node := GetInSet(blk, dev, tag, lba);
      if node.Nothing? {
        assert Values() == vals;
        SameReflexive(Values(), disk);
        return NoBuffer;
      }
      assert Values() == vals[blk := pool[blk].Value()];
      GotFacts(vals, disk0, blk, pool[blk].Value(), disk, node.value, dev, tag, lba / 8);
      r := Handle(blk, node.value, OffsetFromLba(lba));
    }

    /** Handles held by clients name buffers with data. */
    ghost predicate Owns(blk: nat, idx: nat)
      reads this, pool
    {
      Valid() && Coherent() && blk < SETS && idx < COUNT && pool[blk].refCnt[idx] > 0 && BitTest(pool[blk].validMap, idx)
    }

    /** dirt_buffer. A buffer number out of range is an error. */
    method DirtBuffer(blk: nat, idx: nat) returns (code: int)
      requires Valid()
      modifies if blk < SETS then {pool[blk]} else {}
      ensures Valid()
      ensures code == if blk >= SETS then -1 else if idx >= COUNT then -2 else 0
      ensures code < 0 ==> Values() == old(Values())
      ensures code == 0 ==> pool[blk].Value() == old(pool[blk].Value()).(dirty := BitSet(old(pool[blk].dirtyMap), idx))
      ensures code == 0 ==> Values() == old(Values())[blk := pool[blk].Value()] && pool[blk].Order() == old(pool[blk].Order())
    {
      hide Ring, Complete, ByRecency, BitTest, BitSet, Coherent;
      if blk >= SETS {
        return -1;
      }
      if idx >= COUNT {
        return -2;
      }
      ghost var vals := Values();
      pool[blk].dirtyMap := BitSet(pool[blk].dirtyMap, idx);
      assert Values() == vals[blk := pool[blk].Value()];
      return 0;
    }

    /** A client's store of one sector through a handle, followed by dirt_buffer: only that sector's page changes. */
    method Store(h: Got, data: seq<byte>)
      requires h.Handle? && Owns(h.blk, h.idx) && h.offset < SECTORS && |data| == SECTOR_SIZE
      modifies pool[h.blk]
      ensures Owns(h.blk, h.idx) && pool[h.blk].refCnt == old(pool[h.blk].refCnt)
      ensures forall i :: 0 <= i < SETS && i != h.blk ==> pool[i].Value() == old(pool[i].Value())
      ensures Became(old(Values()), disk, Values(), disk, old(pool[h.blk].device)[h.idx],
                     PageNo(old(pool[h.blk].tagNumber)[h.idx], h.blk), SetSector(old(pool[h.blk].data)[h.idx], h.offset, data))
      ensures pool[h.blk].device == old(pool[h.blk].device) && pool[h.blk].tagNumber == old(pool[h.blk].tagNumber)
      ensures pool[h.blk].validMap == old(pool[h.blk].validMap) && pool[h.blk].Order() == old(pool[h.blk].Order())
    {
      hide Ring, Complete, ByRecency, BitTest, BitSet, Tidy, ContentOf, Became;
      var b := pool[h.blk];
      ghost var vals, b0 := Values(), b.Value();
      var page := SetSector(b.data[h.idx], h.offset, data);
      OneStore(vals, disk, h.blk, h.idx, page);
      b.data := b.data[h.idx := page];
      var code := DirtBuffer(h.blk, h.idx);
      assert b.Value() == b0.(data := b0.data[h.idx := page], dirty := BitSet(b0.dirty, h.idx));
      assert Values() == vals[h.blk := b.Value()];
    }

    /** release_buffer_sync: no content changes; the last handle makes the buffer the most recently released. */
    method ReleaseBuffer(h: Got)
      requires h.Handle? && Owns(h.blk, h.idx)
      modifies pool[h.blk]
      ensures pool[h.blk].Value() == old(pool[h.blk].Value()).(refs := pool[h.blk].refCnt)
      ensures old(pool[h.blk].refCnt)[h.idx] > 1 ==> pool[h.blk].Order() == old(pool[h.blk].Order())
      ensures old(pool[h.blk].refCnt)[h.idx] == 1 ==>
                && pool[h.blk].stamp == old(pool[h.blk].stamp)[h.idx := old(pool[h.blk].clock)] && pool[h.blk].clock == old(pool[h.blk].clock) + 1
                && pool[h.blk].ring == ToFront(old(pool[h.blk].ring), Place(old(pool[h.blk].ring), h.idx))
      ensures Valid() && Coherent() && SameContent(old(Values()), disk, Values(), disk)
      ensures pool[h.blk].refCnt == old(pool[h.blk].refCnt)[h.idx := old(pool[h.blk].refCnt)[h.idx] - 1]
      ensures forall i :: 0 <= i < SETS && i != h.blk ==> pool[i].Value() == old(pool[i].Value())
    {
      hide Ring, Complete, ByRecency, BitTest, Tidy, ContentOf, SameContent, SameLogical;
      var b := pool[h.blk];
      ghost var vals, b0 := Values(), b.Value();
      b.Release(h.idx);
      assert Values() == vals[h.blk := b.Value()];
      RefsIrrelevant(b0, disk, h.blk, b.refCnt);
      OneSet(vals, disk, h.blk, b.Value(), disk, 0, 0, b.data[0]);
    }
  }
}
