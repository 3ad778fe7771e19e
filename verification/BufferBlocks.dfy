/** One set of the buffer cache: its tables and its pointer-linked LRU ring. */
module BufferBlocks {
  import opened Bitmaps
  import opened Sv39
  import opened Wrappers

  const COUNT: nat := 64

  /** The list head is one more node of the ring. */
  const HEAD: nat := 64

  const NO_TAG: nat := 0xffff_ffff_ffff_ffff

  // ------------------------------------------------------------- the ring

  function Succ(c: seq<nat>, i: nat): nat
    requires i < |c|
  {
    if i + 1 < |c| then c[i + 1] else c[0]
  }

  ghost predicate Distinct(c: seq<nat>) {
    forall i, j :: 0 <= i < j < |c| ==> c[i] != c[j]
  }

  /** The pointers link the nodes of c, and no others, into a ring in this order. */
  ghost predicate Ring(next: seq<nat>, prev: seq<nat>, c: seq<nat>) {
    && |next| == |prev| == COUNT + 1 && |c| > 0 && Distinct(c)
    && (forall i :: 0 <= i < |c| ==> c[i] <= COUNT)
    && (forall i: nat :: i < |c| ==> next[c[i]] == Succ(c, i))
    && (forall i: nat :: i < |c| ==> Succ(c, i) <= COUNT && prev[Succ(c, i)] == c[i])
  }

  function Without(c: seq<nat>, k: nat): seq<nat>
    requires k < |c|
  {
    c[..k] + c[k + 1..]
  }

  lemma SuccDistinct(c: seq<nat>, i: nat, j: nat)
    requires Distinct(c) && i < |c| && j < |c| && i != j
    ensures Succ(c, i) != Succ(c, j) && c[i] != c[j]
  {}

  lemma WithoutDistinct(c: seq<nat>, k: nat)
    requires Distinct(c) && k < |c|
    ensures Distinct(Without(c, k)) && c[k] !in Without(c, k)
  {}

  /** Where the nodes of Without(c, k) sit in c, and what follows them. */
  lemma WithoutAt(c: seq<nat>, k: nat, i: nat)
    requires 0 < k < |c| && i < |c| - 1
    ensures var j := if i < k then i else i + 1;
            && Without(c, k)[i] == c[j]
            && Succ(Without(c, k), i) == (if j == k - 1 then Succ(c, k) else Succ(c, j))
  {}

  lemma UnlinkAt(next: seq<nat>, prev: seq<nat>, c: seq<nat>, k: nat, i: nat)
    requires Ring(next, prev, c) && 0 < k < |c| && i < |c| - 1
    ensures var x, d := c[k], Without(c, k);
            && prev[x] <= COUNT && next[x] <= COUNT && d[i] <= COUNT && Succ(d, i) <= COUNT
            && next[prev[x] := next[x]][d[i]] == Succ(d, i)
            && prev[next[x] := prev[x]][Succ(d, i)] == d[i]
  {
    hide Distinct, Without;
    var x, d, j := c[k], Without(c, k), if i < k then i else i + 1;
    assert Succ(c, k - 1) == x && prev[x] == c[k - 1] && next[x] == Succ(c, k);
    WithoutAt(c, k, i);
    SuccDistinct(c, j, k);
    if j != k - 1 { SuccDistinct(c, j, k - 1); }
  }

  /** Unlinking the node at position k. */
  lemma Unlink(next: seq<nat>, prev: seq<nat>, c: seq<nat>, k: nat)
    requires Ring(next, prev, c) && 0 < k < |c|
    ensures var x := c[k];
            && prev[x] <= COUNT && next[x] <= COUNT
            && Ring(next[prev[x] := next[x]], prev[next[x] := prev[x]], Without(c, k))
  {
    hide Distinct, Succ;
    WithoutDistinct(c, k);
    UnlinkAt(next, prev, c, k, 0);
    var x, d := c[k], Without(c, k);
    forall i: nat | i < |d|
      ensures d[i] <= COUNT && Succ(d, i) <= COUNT
      ensures next[prev[x] := next[x]][d[i]] == Succ(d, i) && prev[next[x] := prev[x]][Succ(d, i)] == d[i]
    {
      UnlinkAt(next, prev, c, k, i);
    }
  }

  lemma InsertAt(next: seq<nat>, prev: seq<nat>, c: seq<nat>, x: nat, i: nat)
    requires Ring(next, prev, c) && x <= COUNT && x !in c && i <= |c|
    ensures var h, d := c[0], [c[0], x] + c[1..];
            && next[h] <= COUNT && d[i] <= COUNT && Succ(d, i) <= COUNT
            && next[x := next[h]][h := x][d[i]] == Succ(d, i)
            && prev[x := h][next[h] := x][Succ(d, i)] == d[i]
  {
    hide Distinct;
    var h, d := c[0], [c[0], x] + c[1..];
    assert next[h] == Succ(c, 0);
    if i >= 2 {
      assert d[i] == c[i - 1] && Succ(d, i) == Succ(c, i - 1);
      SuccDistinct(c, i - 1, 0);
    } else if i == 1 {
      assert Succ(d, i) == Succ(c, 0);
    }
  }

  lemma InsertDistinct(c: seq<nat>, x: nat)
    requires Distinct(c) && |c| > 0 && x !in c
    ensures Distinct([c[0], x] + c[1..])
  {}

  /** Linking node x in right behind the head. */
  lemma Insert(next: seq<nat>, prev: seq<nat>, c: seq<nat>, x: nat)
    requires Ring(next, prev, c) && x <= COUNT && x !in c
    ensures var h := c[0];
            && next[h] <= COUNT
            && Ring(next[x := next[h]][h := x], prev[x := h][next[h] := x], [h, x] + c[1..])
  {
    hide Distinct, Succ;
    InsertDistinct(c, x);
    InsertAt(next, prev, c, x, 0);
    var h, d := c[0], [c[0], x] + c[1..];
    forall i: nat | i < |d|
      ensures d[i] <= COUNT && Succ(d, i) <= COUNT
      ensures next[x := next[h]][h := x][d[i]] == Succ(d, i) && prev[x := h][next[h] := x][Succ(d, i)] == d[i]
    {
      InsertAt(next, prev, c, x, i);
    }
  }

  /** The ring after the buffer at position k became the most recently released. */
  function ToFront(c: seq<nat>, k: nat): seq<nat>
    requires 0 < k < |c|
  {
    [c[0], c[k]] + Without(c, k)[1..]
  }

  /** All buffers are in the ring, behind the head. */
  ghost predicate Complete(c: seq<nat>) {
    |c| > 0 && c[0] == HEAD && forall x: nat :: x <= COUNT ==> x in c
  }

  lemma FrontComplete(c: seq<nat>, k: nat)
    requires Complete(c) && 0 < k < |c|
    ensures Complete(ToFront(c, k))
  {
    var d := ToFront(c, k);
    forall x: nat | x <= COUNT ensures x in d {
      assert x in c;
      var i :| 0 <= i < |c| && c[i] == x;
      if i == 0 { assert d[0] == x; } else if i == k { assert d[1] == x; }
      else if i < k { assert d[i + 1] == x; } else { assert d[i] == x; }
    }
  }

  // ----------------------------------------------------------- recency

  /** The ring is sorted by the time of the last final release, latest first. */
  ghost predicate ByRecency(c: seq<nat>, stamp: seq<nat>, clock: nat) {
    && |stamp| == COUNT
    && (forall x :: 0 <= x < COUNT ==> stamp[x] < clock)
    && (forall i :: 0 < i < |c| ==> c[i] < COUNT)
    && (forall i, j :: 0 < i < j < |c| ==> stamp[c[i]] > stamp[c[j]])
  }

  lemma FrontByRecency(c: seq<nat>, k: nat, stamp: seq<nat>, clock: nat)
    requires ByRecency(c, stamp, clock) && 0 < k < |c| && Distinct(c)
    ensures ByRecency(ToFront(c, k), stamp[c[k] := clock], clock + 1)
  {
    var d, stamp' := ToFront(c, k), stamp[c[k] := clock];
    forall i | 1 < i < |d| ensures d[i] == c[if i <= k then i - 1 else i] {}
    forall i, j | 0 < i < j < |d| ensures stamp'[d[i]] > stamp'[d[j]] {}
  }

  // ------------------------------------------------------- the tables

  /** What a set holds, without the ring. */
  datatype Buffers = Buffers(device: seq<int>, tag: seq<nat>, refs: seq<int>, valid: Bitmap, dirty: Bitmap, data: seq<Page>)

  ghost predicate Sized(b: Buffers) {
    |b.device| == |b.tag| == |b.refs| == |b.data| == COUNT
  }

  function FreshBuffers(): (b: Buffers)
    ensures Sized(b)
  {
    Buffers(seq(COUNT, _ => 0), seq(COUNT, _ => NO_TAG), seq(COUNT, _ => 0), EMPTY, EMPTY, seq(COUNT, _ => ZeroPage()))
  }

  /** The ring after the first n nodes were inserted. */
  ghost function FreshRing(n: nat): seq<nat> {
    [HEAD] + seq(n, j requires 0 <= j < n => n - 1 - j)
  }

  ghost function FreshStamps(): seq<nat> {
    seq(COUNT, i requires 0 <= i => i)
  }

  lemma HeadAlone()
    ensures Ring(seq(COUNT + 1, _ => HEAD), seq(COUNT + 1, _ => HEAD), FreshRing(0))
  {}

  lemma FreshRingNext(n: nat)
    requires n < COUNT
    ensures FreshRing(n)[0] == HEAD && n !in FreshRing(n) && [HEAD, n] + FreshRing(n)[1..] == FreshRing(n + 1)
  {}

  lemma FreshRingDone()
    ensures Complete(FreshRing(COUNT)) && ByRecency(FreshRing(COUNT), FreshStamps(), COUNT)
  {
    var c := FreshRing(COUNT);
    forall x: nat | x <= COUNT ensures x in c {
      assert c[if x == COUNT then 0 else COUNT - x] == x;
    }
  }

  class BufferBlock {
    var device: seq<int>
    var tagNumber: seq<nat>
    var refCnt: seq<int>
    var validMap: Bitmap
    var dirtyMap: Bitmap
    var data: seq<Page>
    var next: seq<nat>
    var prev: seq<nat>
    ghost var ring: seq<nat>
    ghost var stamp: seq<nat>
    ghost var clock: nat

    function Value(): Buffers
      reads this
    {
      Buffers(device, tagNumber, refCnt, validMap, dirtyMap, data)
    }

    /** Recency: the ring, the times of the last final releases, and the next time. */
    ghost function Order(): (seq<nat>, seq<nat>, nat)
      reads this
    {
      (ring, stamp, clock)
    }

    ghost predicate Valid()
      reads this
    {
      Sized(Value()) && Ring(next, prev, ring) && Complete(ring) && ByRecency(ring, stamp, clock)
    }

    /** init: empty tables, and the ring 63, 62, ..., 0 behind the head. */
    constructor ()
      ensures Valid() && Value() == FreshBuffers()
      ensures stamp == FreshStamps() && clock == COUNT && ring == FreshRing(COUNT)
    {
      var t := FreshBuffers();
      device, tagNumber, refCnt, validMap, dirtyMap, data := t.device, t.tag, t.refs, t.valid, t.dirty, t.data;
      next, prev := seq(COUNT + 1, _ => HEAD), seq(COUNT + 1, _ => HEAD);
      ring, stamp, clock := FreshRing(0), FreshStamps(), COUNT;
      new;
      hide Ring, FreshRing, FreshStamps, Complete, ByRecency;
      HeadAlone();
      var i := 0;
      while i < COUNT
        invariant 0 <= i <= COUNT && ring == FreshRing(i) && Ring(next, prev, ring)
        invariant Value() == FreshBuffers() && stamp == FreshStamps() && clock == COUNT
      {
        FreshRingNext(i);
        InsertAtHead(i);
        i := i + 1;
      }
      FreshRingDone();
    }

    /** The four pointer writes that put node x behind the head. */
    method InsertAtHead(x: nat)
      requires Ring(next, prev, ring) && ring[0] == HEAD && x < COUNT && x !in ring
      modifies this`next, this`prev, this`ring
      ensures ring == [HEAD, x] + old(ring)[1..] && Ring(next, prev, ring)
    {
      Insert(next, prev, ring, x);
      hide Ring;
      next := next[x := next[HEAD]];
      prev := prev[x := HEAD];
      prev := prev[next[HEAD] := x];
      next := next[HEAD := x];
      ring := [HEAD, x] + ring[1..];
    }

    /** The six pointer writes of a final release. */
    method MoveToFront(idx: nat, ghost k: nat)
      requires Ring(next, prev, ring) && Complete(ring) && ByRecency(ring, stamp, clock)
      requires 0 < k < |ring| && ring[k] == idx && idx < COUNT
      modifies this`next, this`prev, this`ring
      ensures ring == ToFront(old(ring), k) && Ring(next, prev, ring)
    {
      hide Ring, Complete, ByRecency, Distinct, ToFront, Without;
      ToFrontOk(next, prev, ring, k, stamp, clock);
      prev := prev[next[idx] := prev[idx]];
      next := next[prev[idx] := next[idx]];
      ring := Without(ring, k);
      InsertAtHead(idx);
    }

    /** search_buffer: walks the ring forward. */
    method SearchBuffer(dev: int, tag: nat) returns (r: Wrap<nat>)
      requires Valid()
      ensures r.Just? ==> r.value < COUNT && Named(device, tagNumber, r.value, dev, tag)
      ensures r.Nothing? ==> forall x: nat :: x < COUNT ==> !Named(device, tagNumber, x, dev, tag)
    {
      hide Ring, Complete, ByRecency, Distinct;
      HeadFirst(next, prev, ring);
      var node := next[HEAD];
      ghost var k: nat := 1;
      while node != HEAD
        invariant 0 < k <= |ring| && node == (if k < |ring| then ring[k] else HEAD)
        invariant forall i :: 0 < i < k ==> ring[i] < COUNT && !Named(device, tagNumber, ring[i], dev, tag)
        decreases |ring| - k
      {
        Around(next, prev, ring, k);
        if device[node] == dev && tagNumber[node] == tag {
          return Just(node);
        }
        node := next[node];
        k := k + 1;
      }
      if k < |ring| { Around(next, prev, ring, k); }
      forall x: nat | x < COUNT ensures !Named(device, tagNumber, x, dev, tag) {
        ghost var i := Place(ring, x);
      }
      return Nothing;
    }

    /** alloc_buffer: walks the ring backward to the unreferenced buffer that was released longest ago. */
    method AllocBuffer() returns (r: Wrap<nat>)
      requires Valid()
      ensures r.Nothing? <==> forall x: nat :: x < COUNT ==> refCnt[x] != 0
      ensures r.Just? ==> r.value < COUNT && refCnt[r.value] == 0
      ensures r.Just? ==> forall y: nat :: y < COUNT && y != r.value && refCnt[y] == 0 ==> stamp[r.value] < stamp[y]
    {
      hide Ring, Complete, ByRecency, Distinct;
      HeadFirst(next, prev, ring);
      var node := prev[HEAD];
      ghost var k: nat := |ring| - 1;
      while node != HEAD
        invariant 0 <= k < |ring| && node == ring[k]
        invariant forall i :: k < i < |ring| ==> ring[i] < COUNT && refCnt[ring[i]] != 0
        decreases k
      {
        Around(next, prev, ring, k);
        if refCnt[node] == 0 {
          OthersNewer(ring, stamp, clock, refCnt, k);
          return Just(node);
        }
        node := prev[node];
        k := k - 1;
      }
      if k > 0 { Around(next, prev, ring, k); }
      forall x: nat | x < COUNT ensures refCnt[x] != 0 {
        ghost var i := Place(ring, x);
      }
      return Nothing;
    }

    /** The rest of a miss: buffer v gets a new name, one handle, and the page that was read. */
    method Refill(v: nat, dev: int, tag: nat, page: Page)
      requires Valid() && v < COUNT
      modifies this
      ensures Valid() && ring == old(ring) && stamp == old(stamp) && clock == old(clock)
      ensures Value() == Buffers(old(device)[v := dev], old(tagNumber)[v := tag], old(refCnt)[v := 1],
                                 BitSet(BitReset(old(validMap), v), v), old(dirtyMap), old(data)[v := page])
    {
      hide Ring, Complete, ByRecency, BitTest, BitReset, BitSet;
      device := device[v := dev];
      tagNumber := tagNumber[v := tag];
      refCnt := refCnt[v := 1];
      validMap := BitReset(validMap, v);
      data := data[v := page];
      validMap := BitSet(validMap, v);
    }

    /** _release_buffer: the last handle moves the buffer to the front of the ring. */
    method Release(idx: nat)
      requires Valid() && idx < COUNT && refCnt[idx] > 0
      modifies this
      ensures Valid()
      ensures Value() == old(Value()).(refs := old(refCnt)[idx := old(refCnt)[idx] - 1])
      ensures old(refCnt)[idx] > 1 ==> ring == old(ring) && stamp == old(stamp) && clock == old(clock)
      ensures old(refCnt)[idx] == 1 ==> stamp == old(stamp)[idx := old(clock)] && clock == old(clock) + 1
      ensures old(refCnt)[idx] == 1 ==> ring == ToFront(old(ring), Place(old(ring), idx))
    {
      hide Ring, Complete, ByRecency, Distinct, ToFront, Without;
      refCnt := refCnt[idx := refCnt[idx] - 1];
      if refCnt[idx] == 0 {
        ghost var k := Place(ring, idx);
        ToFrontOk(next, prev, ring, k, stamp, clock);
        MoveToFront(idx, k);
        stamp, clock := stamp[idx := clock], clock + 1;
      }
    }
  }

  lemma ToFrontOk(next: seq<nat>, prev: seq<nat>, c: seq<nat>, k: nat, stamp: seq<nat>, clock: nat)
    requires Ring(next, prev, c) && Complete(c) && ByRecency(c, stamp, clock) && 0 < k < |c|
    ensures |next| == |prev| == COUNT + 1 && |stamp| == COUNT
    ensures var x, d := c[k], Without(c, k);
            && prev[x] <= COUNT && next[x] <= COUNT && next[x] != x && x !in d && |d| > 0 && d[0] == HEAD
            && Ring(next[prev[x] := next[x]], prev[next[x] := prev[x]], d)
            && ToFront(c, k) == [HEAD, x] + d[1..]
            && Complete(ToFront(c, k)) && ByRecency(ToFront(c, k), stamp[x := clock], clock + 1)
  {
    FrontComplete(c, k);
    FrontByRecency(c, k, stamp, clock);
    Unlink(next, prev, c, k);
    WithoutDistinct(c, k);
    Around(next, prev, c, k);
    SuccDistinct(c, k, if k + 1 < |c| then k + 1 else 0);
  }

  predicate Named(device: seq<int>, tags: seq<nat>, x: nat, dev: int, tag: nat)
    requires x < |device| && x < |tags|
  {
    device[x] == dev && tags[x] == tag
  }

  lemma HeadFirst(next: seq<nat>, prev: seq<nat>, c: seq<nat>)
    requires Ring(next, prev, c) && Complete(c)
    ensures |next| == |prev| == COUNT + 1 && |c| > 1 && c[0] == HEAD
    ensures next[HEAD] == c[1] && prev[HEAD] == c[|c| - 1]
  {
    assert 0 in c;
    assert next[HEAD] == Succ(c, 0) && Succ(c, |c| - 1) == HEAD;
  }

  lemma Around(next: seq<nat>, prev: seq<nat>, c: seq<nat>, k: nat)
    requires Ring(next, prev, c) && Complete(c) && 0 < k < |c|
    ensures c[k] < COUNT
    ensures next[c[k]] == if k + 1 < |c| then c[k + 1] else HEAD
    ensures prev[c[k]] == c[k - 1]
  {
    assert next[c[k]] == Succ(c, k) && Succ(c, k - 1) == c[k];
    SuccDistinct(c, 0, k);
  }

  /** The position of buffer x. */
  ghost function Place(c: seq<nat>, x: nat): (k: nat)
    requires Complete(c) && x < COUNT
    ensures 0 < k < |c| && c[k] == x
  {
    assert x in c;
    var k: nat :| k < |c| && c[k] == x;
    k
  }

  lemma OthersNewer(ring: seq<nat>, stamp: seq<nat>, clock: nat, refs: seq<int>, k: nat)
    requires Complete(ring) && ByRecency(ring, stamp, clock) && |refs| == COUNT && 0 < k < |ring|
    requires forall i :: k < i < |ring| ==> refs[ring[i]] != 0
    ensures forall y: nat :: y < COUNT && y != ring[k] && refs[y] == 0 ==> stamp[ring[k]] < stamp[y]
  {
    forall y: nat | y < COUNT && y != ring[k] && refs[y] == 0 ensures stamp[ring[k]] < stamp[y] {
      var i := Place(ring, y);
    }
  }
}
