/** Clients of the buffer cache that hold any number of handles, and the plain disk they think they use. */
module CacheClients {
  import opened Bitmaps
  import opened BufferBlocks
  import opened BufferCache
  import opened Bytes
  import opened Sv39
  import opened Wrappers

  // ------------------------------------------------------------- reference

  /** The sector that a handle stands for. */
  datatype Name = Name(dev: int, lba: nat)

  /** What clients do. Handles are numbered in the order in which they were asked for. */
  datatype Op =
    | Get(name: Name)
    | Look(h: nat)
    | Write(h: nat, data: seq<byte>)
    | Release(h: nat)

  predicate OpOk(op: Op) {
    (op.Get? ==> Fits(op.name.lba)) && (op.Write? ==> |op.data| == SECTOR_SIZE)
  }

  /** A disk without a cache, and for each handle the sector it stands for while it is open. */
  datatype Plain = Plain(disk: Disk, open: seq<Wrap<Name>>)

  function NameOf(p: Plain, h: nat): Wrap<Name> {
    if h < |p.open| then p.open[h] else Nothing
  }

  /** What a Look sees: the sector, while the handle is open. */
  function Answer(p: Plain, op: Op): Wrap<seq<byte>> {
    if op.Look? && NameOf(p, op.h).Just? then
      var n := NameOf(p, op.h).value;
      Just(Sector(p.disk(n.dev, n.lba / 8), n.lba % 8))
    else Nothing
  }

  function After(devices: set<int>, p: Plain, op: Op): Plain
    requires OpOk(op)
  {
    match op
    case Get(n) => p.(open := p.open + [if n.dev in devices then Just(n) else Nothing])
    case Look(_) => p
    case Write(h, data) =>
      if NameOf(p, h).Nothing? then p
      else
        var n := NameOf(p, h).value;
        p.(disk := Put(p.disk, n.dev, n.lba / 8, SetSector(p.disk(n.dev, n.lba / 8), n.lba % 8, data)))
    case Release(h) => if NameOf(p, h).Nothing? then p else p.(open := p.open[h := Nothing])
  }

  function AfterAll(devices: set<int>, p: Plain, ops: seq<Op>): Plain
    requires forall i :: 0 <= i < |ops| ==> OpOk(ops[i])
  {
    if |ops| == 0 then p else After(devices, AfterAll(devices, p, ops[..|ops| - 1]), ops[|ops| - 1])
  }

  /** Sector lba of a device. */
  function SectorAt(p: Plain, dev: int, lba: nat): seq<byte> {
    Sector(p.disk(dev, lba / 8), lba % 8)
  }

  /** The reference is a store of sectors: a write through an open handle replaces the one sector that the handle stands for,
      all other operations none, and a look shows that sector. */
  lemma SectorStore(devices: set<int>, p: Plain, op: Op, dev: int, lba: nat)
    requires OpOk(op)
    ensures SectorAt(After(devices, p, op), dev, lba) ==
            if op.Write? && NameOf(p, op.h) == Just(Name(dev, lba)) then op.data else SectorAt(p, dev, lba)
    ensures op.Look? && NameOf(p, op.h) == Just(Name(dev, lba)) ==> Answer(p, op) == Just(SectorAt(p, dev, lba))
    ensures |SectorAt(p, dev, lba)| == SECTOR_SIZE
  {
    var page := p.disk(dev, lba / 8);
    Sectors(page, 0, seq(SECTOR_SIZE, _ => 0), lba % 8);
    if op.Write? && NameOf(p, op.h).Just? && NameOf(p, op.h).value.dev == dev && NameOf(p, op.h).value.lba / 8 == lba / 8 {
      var n := NameOf(p, op.h).value;
      Sectors(page, n.lba % 8, op.data, lba % 8);
      assert n.lba % 8 == lba % 8 <==> n.lba == lba;
    }
  }

  /** How many handles are open on sectors of set blk. */
  function OpenIn(open: seq<Wrap<Name>>, blk: nat): nat {
    if open == [] then 0
    else
      var n := open[|open| - 1];
      OpenIn(open[..|open| - 1], blk) + if n.Just? && BlkFromLba(n.value.lba) == blk then 1 else 0
  }

  /** No buffer may be left for sector n: the handles that are open in its set are as many as the set has buffers, and none of
      all open handles is on n's page. */
  predicate Jammed(devices: set<int>, p: Plain, n: Name) {
    && n.dev in devices && OpenIn(p.open, BlkFromLba(n.lba)) >= COUNT
    && forall k :: 0 <= k < |p.open| && p.open[k].Just? ==> p.open[k].value.dev != n.dev || p.open[k].value.lba / 8 != n.lba / 8
  }

  // --------------------------------------------------------------- handles

  /** A handle on buffer idx of set blk. */
  predicate On(h: Wrap<Got>, blk: nat, idx: nat) {
    h.Just? && h.value.Handle? && h.value.blk == blk && h.value.idx == idx
  }

  /** How many of the handles are on that buffer. */
  function Count(hs: seq<Wrap<Got>>, blk: nat, idx: nat): nat {
    if hs == [] then 0 else Count(hs[..|hs| - 1], blk, idx) + if On(hs[|hs| - 1], blk, idx) then 1 else 0
  }

  lemma CountAppend(hs: seq<Wrap<Got>>, h: Wrap<Got>, blk: nat, idx: nat)
    ensures Count(hs + [h], blk, idx) == Count(hs, blk, idx) + if On(h, blk, idx) then 1 else 0
  {
    assert (hs + [h])[..|hs|] == hs;
  }

  lemma {:induction false} CountClosed(hs: seq<Wrap<Got>>, k: nat, blk: nat, idx: nat)
    requires k < |hs|
    ensures Count(hs[k := Nothing], blk, idx) == Count(hs, blk, idx) - if On(hs[k], blk, idx) then 1 else 0
    ensures On(hs[k], blk, idx) ==> Count(hs, blk, idx) > 0
    decreases |hs|
  {
    var n := |hs| - 1;
    if k < n {
      CountClosed(hs[..n], k, blk, idx);
      assert hs[k := Nothing][..n] == hs[..n][k := Nothing];
    } else {
      assert hs[k := Nothing][..n] == hs[..n];
    }
  }

  /** Reference counts are exactly the handles that are out. */
  ghost predicate Counted(vals: seq<Buffers>, hs: seq<Wrap<Got>>) {
    |vals| == SETS && forall i: nat :: i < SETS ==> CountedIn(vals[i], hs, i)
  }

  ghost predicate CountedIn(b: Buffers, hs: seq<Wrap<Got>>, i: nat) {
    |b.refs| == COUNT && forall x: nat :: x < COUNT ==> b.refs[x] == Count(hs, i, x)
  }

  /** An open handle leads to a valid buffer that holds the sector's page. */
  ghost predicate Good(vals: seq<Buffers>, h: Wrap<Got>, n: Wrap<Name>) {
    && (h.Just? <==> n.Just?)
    && (h.Just? ==>
          && h.value.Handle? && |vals| == SETS && Fits(n.value.lba) && h.value.offset == OffsetFromLba(n.value.lba)
          && h.value.blk == BlkFromLba(n.value.lba) && h.value.blk < SETS && h.value.idx < COUNT
          && Holds(vals[h.value.blk], h.value.idx, n.value.dev, TagFromLba(n.value.lba)))
  }

  /** The cache with its clients looks like the plain disk with its open sectors. */
  ghost predicate Mirrors(vals: seq<Buffers>, disk: Disk, hs: seq<Wrap<Got>>, p: Plain) {
    && Counted(vals, hs) && Looks(vals, disk, p.disk) && |hs| == |p.open|
    && forall k :: 0 <= k < |hs| ==> Good(vals, hs[k], p.open[k])
  }

  /** Through the cache, the disk looks like plain. */
  ghost predicate Looks(vals: seq<Buffers>, disk: Disk, plain: Disk) {
    |vals| == SETS && forall d: int, n: nat :: ContentOf(vals, disk, d, n) == plain(d, n)
  }

  lemma LooksSame(vals: seq<Buffers>, disk: Disk, vals': seq<Buffers>, disk': Disk, plain: Disk)
    requires Looks(vals, disk, plain) && |vals'| == SETS && SameContent(vals, disk, vals', disk')
    ensures Looks(vals', disk', plain)
  {
    hide ContentOf;
  }

  lemma LooksStored(vals: seq<Buffers>, disk: Disk, vals': seq<Buffers>, plain: Disk, dev: int, n: nat, page: Page)
    requires Looks(vals, disk, plain) && |vals'| == SETS && Became(vals, disk, vals', disk, dev, n, page)
    ensures Looks(vals', disk, Put(plain, dev, n, page))
  {
    hide ContentOf;
  }

  lemma HandleNames(b: Buffers, idx: nat, blk: nat, n: Name)
    requires blk == BlkFromLba(n.lba) && Holds(b, idx, n.dev, TagFromLba(n.lba)) && Fits(n.lba)
    ensures BitTest(b.valid, idx) && b.device[idx] == n.dev && PageNo(b.tag[idx], blk) == n.lba / 8
    ensures OffsetFromLba(n.lba) == n.lba % 8 < SECTORS
  {
    LbaRoundTrip(n.lba);
  }

  /** Buffers in use keep their names, so open handles stay good. */
  lemma StillGood(vals: seq<Buffers>, vals': seq<Buffers>, h: Wrap<Got>, n: Wrap<Name>)
    requires Good(vals, h, n) && |vals'| == SETS && (h.Just? ==> KeepsName(vals[h.value.blk], vals'[h.value.blk], h.value.idx))
    ensures Good(vals', h, n)
  {
    hide BitTest, BlkFromLba, TagFromLba, OffsetFromLba, Fits;
  }

  ghost predicate KeepsName(b: Buffers, b': Buffers, x: nat) {
    && Sized(b) && Sized(b') && x < COUNT
    && b'.device[x] == b.device[x] && b'.tag[x] == b.tag[x] && (BitTest(b.valid, x) ==> BitTest(b'.valid, x))
  }

  // ------------------------------------------------------------ the client

  /** One more handle, on buffer idx of set blk. */
  lemma {:induction false} CountedMore(vals: seq<Buffers>, vals': seq<Buffers>, hs: seq<Wrap<Got>>, h: Got)
    requires Counted(vals, hs) && |vals'| == SETS && h.Handle? && h.blk < SETS && h.idx < COUNT
    requires forall i :: 0 <= i < SETS && i != h.blk ==> vals'[i] == vals[i]
    requires |vals[h.blk].refs| == COUNT && vals'[h.blk].refs == vals[h.blk].refs[h.idx := vals[h.blk].refs[h.idx] + 1]
    ensures Counted(vals', hs + [Just(h)])
  {
    hide Count;
    forall i: nat | i < SETS ensures CountedIn(vals'[i], hs + [Just(h)], i) {
      assert CountedIn(vals[i], hs, i);
      forall x: nat | x < COUNT ensures vals'[i].refs[x] == Count(hs + [Just(h)], i, x) {
        CountAppend(hs, Just(h), i, x);
      }
    }
  }

  lemma {:induction false} CountedNone(vals: seq<Buffers>, hs: seq<Wrap<Got>>)
    requires Counted(vals, hs)
    ensures Counted(vals, hs + [Nothing])
  {
    hide Count;
    forall i: nat | i < SETS ensures CountedIn(vals[i], hs + [Nothing], i) {
      assert CountedIn(vals[i], hs, i);
      forall x: nat | x < COUNT ensures vals[i].refs[x] == Count(hs + [Nothing], i, x) {
        CountAppend(hs, Nothing, i, x);
      }
    }
  }

  lemma {:induction false} CountedLess(vals: seq<Buffers>, vals': seq<Buffers>, hs: seq<Wrap<Got>>, k: nat)
    requires Counted(vals, hs) && |vals'| == SETS && k < |hs| && hs[k].Just? && hs[k].value.Handle?
    requires hs[k].value.blk < SETS && hs[k].value.idx < COUNT
    requires forall i :: 0 <= i < SETS && i != hs[k].value.blk ==> vals'[i] == vals[i]
    requires var h := hs[k].value; |vals[h.blk].refs| == COUNT && vals'[h.blk].refs == vals[h.blk].refs[h.idx := vals[h.blk].refs[h.idx] - 1]
    ensures Counted(vals', hs[k := Nothing])
  {
    hide Count;
    forall i: nat | i < SETS ensures CountedIn(vals'[i], hs[k := Nothing], i) {
      assert CountedIn(vals[i], hs, i);
      forall x: nat | x < COUNT ensures vals'[i].refs[x] == Count(hs[k := Nothing], i, x) {
        CountClosed(hs, k, i, x);
      }
    }
  }

  lemma {:induction false} CountedSame(vals: seq<Buffers>, vals': seq<Buffers>, hs: seq<Wrap<Got>>)
    requires Counted(vals, hs) && |vals'| == SETS && forall i :: 0 <= i < SETS ==> vals'[i].refs == vals[i].refs
    ensures Counted(vals', hs)
  {
    hide Count;
    forall i: nat | i < SETS ensures CountedIn(vals'[i], hs, i) {
      assert CountedIn(vals[i], hs, i);
    }
  }

  /** A buffer with an open handle is referenced. */
  lemma InUse(vals: seq<Buffers>, disk: Disk, hs: seq<Wrap<Got>>, p: Plain, k: nat)
    requires Mirrors(vals, disk, hs, p) && k < |hs| && hs[k].Just?
    ensures Good(vals, hs[k], p.open[k]) && p.open[k].Just?
    ensures var h := hs[k].value; |vals[h.blk].refs| == COUNT && vals[h.blk].refs[h.idx] > 0
  {
    hide Count, Looks, BitTest;
    var h := hs[k].value;
    assert Good(vals, hs[k], p.open[k]);
    assert CountedIn(vals[h.blk], hs, h.blk);
    CountClosed(hs, k, h.blk, h.idx);
  }

  /** Handles on the first m buffers of a set. */
  function SumTo(hs: seq<Wrap<Got>>, blk: nat, m: nat): nat {
    if m == 0 then 0 else SumTo(hs, blk, m - 1) + Count(hs, blk, m - 1)
  }

  lemma {:induction false} SumAppend(hs: seq<Wrap<Got>>, h: Wrap<Got>, blk: nat, m: nat)
    ensures SumTo(hs + [h], blk, m) == SumTo(hs, blk, m) + if h.Just? && h.value.Handle? && h.value.blk == blk && h.value.idx < m then 1 else 0
  {
    if m > 0 {
      SumAppend(hs, h, blk, m - 1);
      CountAppend(hs, h, blk, m - 1);
    }
  }

  lemma {:induction false} SumOfNone(blk: nat, m: nat)
    ensures SumTo([], blk, m) == 0
  {
    if m > 0 { SumOfNone(blk, m - 1); }
  }

  lemma {:induction false} SumAtLeast(hs: seq<Wrap<Got>>, blk: nat, m: nat)
    requires forall x: nat :: x < m ==> Count(hs, blk, x) > 0
    ensures SumTo(hs, blk, m) >= m
  {
    if m > 0 { SumAtLeast(hs, blk, m - 1); }
  }

  /** There are no more handles on buffers of a set than names open in it. */
  lemma {:induction false} HandlesAreOpen(vals: seq<Buffers>, hs: seq<Wrap<Got>>, open: seq<Wrap<Name>>, blk: nat, m: nat)
    requires |hs| == |open| && forall k :: 0 <= k < |hs| ==> Good(vals, hs[k], open[k])
    ensures SumTo(hs, blk, m) <= OpenIn(open, blk)
    decreases |hs|
  {
    hide Count, SumTo, BlkFromLba, TagFromLba, OffsetFromLba, Fits, Holds;
    if hs == [] {
      SumOfNone(blk, m);
    } else {
      var n := |hs| - 1;
      assert hs == hs[..n] + [hs[n]];
      SumAppend(hs[..n], hs[n], blk, m);
      forall k | 0 <= k < n ensures Good(vals, hs[..n][k], open[..n][k]) {
        assert Good(vals, hs[k], open[k]);
      }
      HandlesAreOpen(vals, hs[..n], open[..n], blk, m);
      assert Good(vals, hs[n], open[n]);
    }
  }

  /** When a set has no buffer to offer, its handles are to blame. */
  lemma {:induction false} WhyNoBuffer(vals: seq<Buffers>, disk: Disk, hs: seq<Wrap<Got>>, p: Plain, n: Name)
    requires Mirrors(vals, disk, hs, p) && Fits(n.lba) && BlkFromLba(n.lba) < SETS && !Cached(vals[BlkFromLba(n.lba)], n.dev, TagFromLba(n.lba))
    requires |vals[BlkFromLba(n.lba)].refs| == COUNT && forall x: nat :: x < COUNT ==> vals[BlkFromLba(n.lba)].refs[x] != 0
    ensures OpenIn(p.open, BlkFromLba(n.lba)) >= COUNT
    ensures forall k :: 0 <= k < |p.open| && p.open[k].Just? ==> p.open[k].value.dev != n.dev || p.open[k].value.lba / 8 != n.lba / 8
  {
    hide Count, SumTo, BlkFromLba, TagFromLba, OffsetFromLba, Fits, Holds, Looks, OpenIn;
    var blk := BlkFromLba(n.lba);
    assert CountedIn(vals[blk], hs, blk);
    SumAtLeast(hs, blk, COUNT);
    HandlesAreOpen(vals, hs, p.open, blk, COUNT);
    forall k | 0 <= k < |p.open| && p.open[k].Just? && p.open[k].value.lba / 8 == n.lba / 8 ensures p.open[k].value.dev != n.dev {
      assert Good(vals, hs[k], p.open[k]);
      SamePage(p.open[k].value.lba, n.lba);
    }
  }

  lemma SamePage(a: nat, b: nat)
    requires a / 8 == b / 8
    ensures BlkFromLba(a) == BlkFromLba(b) && TagFromLba(a) == TagFromLba(b)
  {
    LbaParts(a);
    LbaParts(b);
  }

  class Clients {
    const cache: BufferManager
    var handles: seq<Wrap<Got>>

    /** A fresh cache and no handles. */
    constructor (devices: set<int>, disk: Disk)
      ensures fresh(cache) && cache.devices == devices && Valid(Plain(disk, []))
    {
      var manager := new BufferManager(devices, disk);
      cache := manager;
      handles := [];
      new;
      hide BufferBlock.Valid, AllTidy, ContentOf, Count;
      assert Counted(cache.Values(), []) by { NothingCounted(cache.Values()); }
    }

    ghost predicate Valid(p: Plain)
      reads this, cache, cache.pool
    {
      cache.Valid() && cache.Coherent() && Mirrors(cache.Values(), cache.disk, handles, p)
    }

    /** Get: one more handle. False stands for the assertion that a buffer is left. */
    method DoGet(n: Name, ghost p: Plain) returns (ok: bool)
      requires Valid(p) && Fits(n.lba)
      modifies this`handles, cache`disk, cache.pool
      ensures ok ==> Valid(After(cache.devices, p, Get(n)))
      ensures !ok ==> Jammed(cache.devices, p, n)
    {
      hide BufferBlock.Valid, AllTidy, ContentOf, SameContent, Counted, Looks, Good, BitTest, Holds, BlkFromLba, TagFromLba, OffsetFromLba, Fits;
      ghost var vals, disk0 := cache.Values(), cache.disk;
      var h := cache.GetBuffer(n.dev, n.lba);
      if h.NoBuffer? {
        LbaRoundTrip(n.lba);
        SizedIn(vals, disk0, BlkFromLba(n.lba));
        WhyNoBuffer(vals, disk0, handles, p, n);
        return false;
      }
      if h.NoDevice? {
        CountedNone(vals, handles);
        NothingGood(vals);
        handles := handles + [Nothing];
        return true;
      }
      LbaRoundTrip(n.lba);
      SizedIn(vals, disk0, h.blk);
      SizedIn(cache.Values(), cache.disk, h.blk);
      forall x: nat | x < COUNT && vals[h.blk].refs[x] > 0 ensures KeepsName(vals[h.blk], cache.Values()[h.blk], x) {}
      GotMirrors(vals, disk0, handles, p, cache.Values(), cache.disk, h, n);
      handles := handles + [Just(h)];
      return true;
    }

    /** Look: the sector behind an open handle. */
    method DoLook(k: nat, ghost p: Plain) returns (r: Wrap<seq<byte>>)
      requires Valid(p)
      ensures r == Answer(p, Look(k))
    {
      hide BufferBlock.Valid, Count, Sector;
      if k >= |handles| || handles[k].Nothing? {
        if k < |handles| { assert Good(cache.Values(), handles[k], p.open[k]); }
        return Nothing;
      }
      var h := handles[k].value;
      InUse(cache.Values(), cache.disk, handles, p, k);
      SeenThrough(cache.Values(), cache.disk, handles, p, k);
      return Just(Sector(cache.pool[h.blk].data[h.idx], h.offset));
    }

    /** Write: a sector store through an open handle, and dirt_buffer. */
    method DoWrite(k: nat, data: seq<byte>, ghost p: Plain)
      requires Valid(p) && |data| == SECTOR_SIZE
      modifies cache.pool
      ensures Valid(After(cache.devices, p, Write(k, data)))
    {
      hide BufferBlock.Valid, AllTidy, ContentOf, Counted, Looks, Good, BitTest, SetSector, Became, Count;
      if k >= |handles| || handles[k].Nothing? {
        ClosedName(cache.Values(), cache.disk, handles, p, k);
        return;
      }
      var h := handles[k].value;
      ghost var vals := cache.Values();
      InUse(vals, cache.disk, handles, p, k);
      SeenThrough(vals, cache.disk, handles, p, k);
      cache.Store(h, data);
      SizedIn(cache.Values(), cache.disk, h.blk);
      StoredMirrors(vals, cache.disk, handles, p, cache.Values(), k, data);
    }

    /** Release: the handle is closed. */
    method DoRelease(k: nat, ghost p: Plain)
      requires Valid(p)
      modifies this`handles, cache.pool
      ensures Valid(After(cache.devices, p, Release(k)))
    {
      hide BufferBlock.Valid, AllTidy, ContentOf, Counted, Looks, Good, BitTest, SameContent, Count;
      if k >= |handles| || handles[k].Nothing? {
        ClosedName(cache.Values(), cache.disk, handles, p, k);
        return;
      }
      var h := handles[k].value;
      ghost var vals := cache.Values();
      InUse(vals, cache.disk, handles, p, k);
      SeenThrough(vals, cache.disk, handles, p, k);
      cache.ReleaseBuffer(h);
      ReleasedMirrors(vals, cache.disk, handles, p, cache.Values(), k);
      handles := handles[k := Nothing];
    }

    /** Any interleaving of gets, looks, writes and releases, with any number of handles out at a time, gives the answers
        that the plain disk would give. It ends early only at a get that finds its set jammed. */
    method Serve(ops: seq<Op>, ghost p: Plain) returns (ok: bool, answers: seq<Wrap<seq<byte>>>)
      requires Valid(p) && forall i :: 0 <= i < |ops| ==> OpOk(ops[i])
      modifies this`handles, cache`disk, cache.pool
      ensures ok ==> |answers| == |ops| && Valid(AfterAll(cache.devices, p, ops))
      ensures ok ==> forall k :: 0 <= k < |ops| ==> answers[k] == Answer(AfterAll(cache.devices, p, ops[..k]), ops[k])
      ensures !ok ==> |answers| < |ops| && ops[|answers|].Get?
                      && Jammed(cache.devices, AfterAll(cache.devices, p, ops[..|answers|]), ops[|answers|].name)
    {
      hide Valid, Answer, After;
      answers := [];
      assert AfterAll(cache.devices, p, ops[..0]) == p;
      for k := 0 to |ops|
        invariant Valid(AfterAll(cache.devices, p, ops[..k])) && |answers| == k
        invariant forall i :: 0 <= i < k ==> answers[i] == Answer(AfterAll(cache.devices, p, ops[..i]), ops[i])
      {
        ghost var q := AfterAll(cache.devices, p, ops[..k]);
        assert ops[..k + 1][..k] == ops[..k] && ops[..k + 1][k] == ops[k];
        NoAnswer(q, ops[k]);
        var r := Nothing;
        match ops[k] {
          case Get(n) =>
            var got := DoGet(n, q);
            if !got {
              return false, answers;
            }
          case Look(h) =>
            r := DoLook(h, q);
            LookKeeps(cache.devices, q, h);
          case Write(h, data) => DoWrite(h, data, q);
          case Release(h) => DoRelease(h, q);
        }
        answers := answers + [r];
      }
      assert ops[..|ops|] == ops;
      ok := true;
    }
  }

  lemma NoAnswer(p: Plain, op: Op)
    ensures !op.Look? ==> Answer(p, op).Nothing?
  {}

  lemma LookKeeps(devices: set<int>, p: Plain, h: nat)
    ensures After(devices, p, Look(h)) == p
  {}

  lemma NothingCounted(vals: seq<Buffers>)
    requires |vals| == SETS && forall i :: 0 <= i < SETS ==> vals[i] == FreshBuffers()
    ensures Counted(vals, [])
  {
    forall i: nat | i < SETS ensures CountedIn(vals[i], [], i) {}
  }

  lemma SizedIn(vals: seq<Buffers>, disk: Disk, i: nat)
    requires AllTidy(vals, disk) && i < SETS
    ensures Sized(vals[i])
  {
    assert Tidy(vals[i], disk, i);
  }

  lemma NothingGood(vals: seq<Buffers>)
    ensures Good(vals, Nothing, Nothing)
  {}

  lemma ClosedName(vals: seq<Buffers>, disk: Disk, hs: seq<Wrap<Got>>, p: Plain, k: nat)
    requires Mirrors(vals, disk, hs, p) && (k >= |hs| || hs[k].Nothing?)
    ensures NameOf(p, k).Nothing?
  {
    hide Counted, Looks;
    if k < |hs| { assert Good(vals, hs[k], p.open[k]); }
  }

  /** What lies behind an open handle. */
  lemma SeenThrough(vals: seq<Buffers>, disk: Disk, hs: seq<Wrap<Got>>, p: Plain, k: nat)
    requires AllTidy(vals, disk) && Mirrors(vals, disk, hs, p) && k < |hs| && hs[k].Just?
    ensures NameOf(p, k).Just? && hs[k].value.Handle? && hs[k].value.blk < SETS && hs[k].value.idx < COUNT && hs[k].value.offset < SECTORS
    ensures var n, h := NameOf(p, k).value, hs[k].value;
            && h.offset == n.lba % 8 && Sized(vals[h.blk]) && vals[h.blk].data[h.idx] == p.disk(n.dev, n.lba / 8)
            && BitTest(vals[h.blk].valid, h.idx)
            && vals[h.blk].device[h.idx] == n.dev && PageNo(vals[h.blk].tag[h.idx], h.blk) == n.lba / 8
  {
    hide Counted, BitTest, BlkFromLba, TagFromLba, OffsetFromLba, Fits, Logical;
    assert Good(vals, hs[k], p.open[k]);
    var n, h := p.open[k].value, hs[k].value;
    HandleNames(vals[h.blk], h.idx, h.blk, n);
    LogicalAt(vals[h.blk], disk, h.blk, h.idx, n.dev, TagFromLba(n.lba));
    PageParts(vals[h.blk].tag[h.idx], h.blk);
    assert ContentOf(vals, disk, n.dev, n.lba / 8) == p.disk(n.dev, n.lba / 8);
  }

  lemma PageParts(tag: nat, blk: nat)
    requires blk < SETS
    ensures PageNo(tag, blk) % 64 == blk && PageNo(tag, blk) / 64 == tag
  {}

  lemma {:induction false} GotMirrors(vals: seq<Buffers>, disk: Disk, hs: seq<Wrap<Got>>, p: Plain, vals': seq<Buffers>, disk': Disk, h: Got, n: Name)
    requires Mirrors(vals, disk, hs, p) && |vals'| == SETS && SameContent(vals, disk, vals', disk') && h.Handle? && Fits(n.lba)
    requires h.blk == BlkFromLba(n.lba) && h.idx < COUNT && h.offset == OffsetFromLba(n.lba)
    requires h.blk < SETS && Sized(vals[h.blk]) && Holds(vals'[h.blk], h.idx, n.dev, TagFromLba(n.lba))
    requires vals'[h.blk].refs == vals[h.blk].refs[h.idx := vals[h.blk].refs[h.idx] + 1]
    requires forall x: nat :: x < COUNT && vals[h.blk].refs[x] > 0 ==> KeepsName(vals[h.blk], vals'[h.blk], x)
    requires forall i :: 0 <= i < SETS && i != h.blk ==> vals'[i] == vals[i]
    ensures Mirrors(vals', disk', hs + [Just(h)], p.(open := p.open + [Just(n)]))
  {
    hide SameContent, Count, BitTest, BlkFromLba, TagFromLba, OffsetFromLba, Fits, ContentOf, Looks;
    CountedMore(vals, vals', hs, h);
    LooksSame(vals, disk, vals', disk', p.disk);
    forall k | 0 <= k < |hs| ensures Good(vals', hs[k], p.open[k]) {
      if hs[k].Just? {
        InUse(vals, disk, hs, p, k);
        SelfKeepsName(vals, hs[k], p.open[k]);
      } else {
        assert Good(vals, hs[k], p.open[k]);
      }
      StillGood(vals, vals', hs[k], p.open[k]);
    }
    assert Good(vals', Just(h), Just(n));
  }

  lemma SelfKeepsName(vals: seq<Buffers>, h: Wrap<Got>, n: Wrap<Name>)
    requires Good(vals, h, n) && h.Just?
    ensures KeepsName(vals[h.value.blk], vals[h.value.blk], h.value.idx)
  {}

  lemma {:induction false} StoredMirrors(vals: seq<Buffers>, disk: Disk, hs: seq<Wrap<Got>>, p: Plain, vals': seq<Buffers>, k: nat, data: seq<byte>)
    requires Mirrors(vals, disk, hs, p) && |vals'| == SETS && NameOf(p, k).Just? && hs[k].Just? && hs[k].value.Handle? && |data| == SECTOR_SIZE
    requires var n, h := NameOf(p, k).value, hs[k].value;
             && h.blk < SETS && h.idx < COUNT && Sized(vals[h.blk]) && Sized(vals'[h.blk])
             && vals'[h.blk].refs == vals[h.blk].refs && vals'[h.blk].device == vals[h.blk].device
             && vals'[h.blk].tag == vals[h.blk].tag && vals'[h.blk].valid == vals[h.blk].valid
             && (forall i :: 0 <= i < SETS && i != h.blk ==> vals'[i] == vals[i])
             && n.lba % 8 < SECTORS
             && Became(vals, disk, vals', disk, n.dev, n.lba / 8, SetSector(p.disk(n.dev, n.lba / 8), n.lba % 8, data))
    ensures forall devices :: Mirrors(vals', disk, hs, After(devices, p, Write(k, data)))
  {
    hide Became, Count, BitTest, BlkFromLba, TagFromLba, OffsetFromLba, Fits, ContentOf, Looks, SetSector, Counted;
    var n := NameOf(p, k).value;
    CountedSame(vals, vals', hs);
    LooksStored(vals, disk, vals', p.disk, n.dev, n.lba / 8, SetSector(p.disk(n.dev, n.lba / 8), n.lba % 8, data));
    forall j | 0 <= j < |hs| ensures Good(vals', hs[j], p.open[j]) {
      assert Good(vals, hs[j], p.open[j]);
      if hs[j].Just? { SelfKeepsName(vals, hs[j], p.open[j]); }
      StillGood(vals, vals', hs[j], p.open[j]);
    }
  }

  lemma {:induction false} ReleasedMirrors(vals: seq<Buffers>, disk: Disk, hs: seq<Wrap<Got>>, p: Plain, vals': seq<Buffers>, k: nat)
    requires Mirrors(vals, disk, hs, p) && |vals'| == SETS && NameOf(p, k).Just? && k < |hs| && hs[k].Just? && hs[k].value.Handle?
    requires SameContent(vals, disk, vals', disk)
    requires var h := hs[k].value;
             && h.blk < SETS && h.idx < COUNT && Sized(vals[h.blk])
             && vals'[h.blk] == vals[h.blk].(refs := vals[h.blk].refs[h.idx := vals[h.blk].refs[h.idx] - 1])
             && (forall i :: 0 <= i < SETS && i != h.blk ==> vals'[i] == vals[i])
    ensures forall devices :: Mirrors(vals', disk, hs[k := Nothing], After(devices, p, Release(k)))
  {
    hide SameContent, Count, BitTest, BlkFromLba, TagFromLba, OffsetFromLba, Fits, ContentOf, Looks, Counted;
    CountedLess(vals, vals', hs, k);
    LooksSame(vals, disk, vals', disk, p.disk);
    forall j | 0 <= j < |hs| ensures Good(vals', hs[j], p.open[j]) {
      assert Good(vals, hs[j], p.open[j]);
      if hs[j].Just? { SelfKeepsName(vals, hs[j], p.open[j]); }
      StillGood(vals, vals', hs[j], p.open[j]);
    }
    NothingGood(vals');
  }
}
