/** What execve puts on the new stack, and reading it back. */
module ExecStack {
  import opened Arith
  import opened Bytes
  import opened Sv39
  import opened UserCopy
  import opened UserStack
  import opened Wrappers

  const MAXARG: nat := 32
  const AT_NULL: nat := 0
  const AT_PHDR: nat := 3
  const AT_PHENT: nat := 4
  const AT_PHNUM: nat := 5
  const AT_PAGESZ: nat := 6
  const AT_RANDOM: nat := 25

  /** Overrun stands for the store one past the end of the pointer array. */
  datatype Built = Complete | Refused | Overrun

  // ------------------------------------------------------------- layout

  /** Where a string of the given length goes: below sp, rounded down to 16. */
  function Slot(sp: int, len: nat): (p: int)
    ensures p % 16 == 0 && p <= sp - len - 1
  {
    sp - len - 1 - (sp - len - 1) % 16
  }

  /** The stack pointer after the strings. */
  function Below(sp: int, strs: seq<seq<byte>>): int
    decreases |strs|
  {
    if strs == [] then sp else Slot(Below(sp, strs[..|strs| - 1]), |strs[|strs| - 1]|)
  }

  lemma {:induction false} BelowFalls(sp: int, strs: seq<seq<byte>>, k: nat)
    requires k <= |strs|
    ensures Below(sp, strs) <= Below(sp, strs[..k])
    ensures sp % 16 == 0 ==> Below(sp, strs) % 16 == 0
    decreases |strs|
  {
    if |strs| > k {
      var init := strs[..|strs| - 1];
      BelowFalls(sp, init, k);
      assert init[..k] == strs[..k];
    } else {
      assert strs[..k] == strs;
      if strs != [] { BelowFalls(sp, strs[..|strs| - 1], 0); }
    }
  }

  /** Little-endian words in memory order. */
  function Words(ws: seq<nat>): (s: seq<byte>)
    ensures |s| == 8 * |ws|
  {
    if ws == [] then [] else LittleEndian(ws[0], 8) + Words(ws[1..])
  }

  lemma {:induction false} WordsAppend(a: seq<nat>, b: seq<nat>)
    ensures Words(a + b) == Words(a) + Words(b)
  {
    if a == [] {
      assert a + b == b;
    } else {
      assert (a + b)[0] == a[0] && (a + b)[1..] == a[1..] + b;
      WordsAppend(a[1..], b);
    }
  }

  /** bytes lie at va in the stack contents above, which end at end. */
  ghost predicate At(above: seq<byte>, end: nat, va: nat, bytes: seq<byte>) {
    && |above| <= end && end - |above| <= va && va + |bytes| <= end
    && above[va - (end - |above|)..va - (end - |above|) + |bytes|] == bytes
  }

  /** later is above with something pushed on it. */
  ghost predicate Extends(later: seq<byte>, above: seq<byte>) {
    |above| <= |later| && later[|later| - |above|..] == above
  }

  lemma AtLater(above: seq<byte>, later: seq<byte>, end: nat, va: nat, bytes: seq<byte>)
    requires At(above, end, va, bytes) && Extends(later, above) && |later| <= end
    ensures At(later, end, va, bytes)
  {
    var i, j := va - (end - |above|), va - (end - |later|);
    var t := later[|later| - |above|..];
    assert t[i..i + |bytes|] == later[j..j + |bytes|];
  }

  lemma AtReads(ram: Ram, root: nat, sp: nat, above: seq<byte>, end: nat, va: nat, bytes: seq<byte>)
    requires Reads(ram, root, sp, above) && sp + |above| == end && At(above, end, va, bytes)
    ensures Reads(ram, root, va, bytes)
  {
    hide UserByte;
    forall i | 0 <= i < |bytes| ensures UserByte(ram, root, va + i) == Just(bytes[i]) {
      assert UserByte(ram, root, sp + (va - sp + i)) == Just(above[va - sp + i]);
      assert bytes[i] == above[va - sp..va - sp + |bytes|][i];
    }
  }

  lemma ExtendsTrans(a: seq<byte>, b: seq<byte>, c: seq<byte>)
    requires Extends(c, b) && Extends(b, a)
    ensures Extends(c, a)
  {
    assert c[|c| - |a|..] == c[|c| - |b|..][|b| - |a|..];
  }

  /** The strings lie where the pointers say, 16-byte aligned. */
  ghost predicate Placed(above: seq<byte>, end: nat, base: nat, strs: seq<seq<byte>>, ptrs: seq<nat>) {
    |ptrs| == |strs| && forall i :: 0 <= i < |strs| ==> PlacedOne(above, end, base, strs[i], ptrs[i])
  }

  ghost predicate PlacedOne(above: seq<byte>, end: nat, base: nat, s: seq<byte>, p: nat) {
    At(above, end, p, s + [0]) && p % 16 == 0 && base <= p
  }

  lemma PlacedLater(above: seq<byte>, later: seq<byte>, end: nat, base: nat, strs: seq<seq<byte>>, ptrs: seq<nat>)
    requires Placed(above, end, base, strs, ptrs) && Extends(later, above) && |later| <= end
    ensures Placed(later, end, base, strs, ptrs)
  {
    hide At, Extends;
    forall i | 0 <= i < |strs| ensures PlacedOne(later, end, base, strs[i], ptrs[i]) {
      assert PlacedOne(above, end, base, strs[i], ptrs[i]);
      AtLater(above, later, end, ptrs[i], strs[i] + [0]);
    }
  }

  lemma PlacedTop(above: seq<byte>, end: nat, base: nat, sp: nat, s: seq<byte>, tail: seq<byte>)
    requires above == s + [0] + tail && sp + |above| == end && sp % 16 == 0 && base <= sp
    ensures PlacedOne(above, end, base, s, sp) && Extends(above, tail)
  {}

  // ------------------------------------------------------------- pushing

  /** One string: align, push, check. */
  method PlaceString(u: UserstackStream, s: seq<byte>) returns (ok: bool)
    requires u.Valid()
    modifies u`sp, u`cachePage, u`cacheOff, u`cv, u`above, u`errno, u.pt`tables, u.pt.mem
    ensures u.Backed() && u.pt.tables == old(u.pt.tables) && u.pt.mem.blk == old(u.pt.mem.blk)
    ensures SameOutside(old(u.pt.mem.ram), u.pt.mem.ram, u.pt.base, 0, 0)
    ensures ok <==> u.base <= Slot(old(u.sp), |s|)
    ensures ok ==> u.Valid() && u.sp == Slot(old(u.sp), |s|) && PlacedOne(u.above, u.end, u.base, s, u.sp) && Extends(u.above, old(u.above))
  {
    hide UserstackStream.Valid, UserstackStream.Backed, SameOutside, PlacedOne, Extends;
    StreamFacts(u);
    var sp := u.sp;
    u.Retreat((sp - |s| - 1) % 16);
    ghost var above1 := u.above;
    u.PushString(s);
    ok := u.errno == RcOk;
    if ok {
      StreamFacts(u);
      PlacedTop(u.above, u.end, u.base, u.sp, s, above1);
      Tail(above1, old(u.above), (sp - |s| - 1) % 16);
      ExtendsTrans(old(u.above), above1, u.above);
    }
  }

  lemma Tail(b: seq<byte>, a: seq<byte>, k: nat)
    requires k <= |b| && b[k..] == a
    ensures Extends(b, a)
  {}

  lemma StreamFacts(u: UserstackStream)
    requires u.Valid()
    ensures u.Backed() && PAGE_SIZE <= u.base <= u.sp <= u.end && u.sp + |u.above| == u.end
  {}

  /** The environment or argument strings, with the bound checks of execve. */
  method PlaceStrings(u: UserstackStream, strs: seq<seq<byte>>) returns (r: Built, ptrs: seq<nat>)
    requires u.Valid()
    modifies u`sp, u`cachePage, u`cacheOff, u`cv, u`above, u`errno, u.pt`tables, u.pt.mem
    ensures u.Backed() && u.pt.tables == old(u.pt.tables) && u.pt.mem.blk == old(u.pt.mem.blk)
    ensures SameOutside(old(u.pt.mem.ram), u.pt.mem.ram, u.pt.base, 0, 0)
    ensures r.Complete? <==> |strs| < MAXARG && u.base <= Below(old(u.sp), strs)
    ensures r.Overrun? <==> |strs| == MAXARG && u.base <= Below(old(u.sp), strs)
    ensures r.Complete? ==> u.Valid() && u.sp == Below(old(u.sp), strs) && Extends(u.above, old(u.above))
    ensures r.Complete? ==> Placed(u.above, u.end, u.base, strs, ptrs)
  {
    hide UserstackStream.Valid, UserstackStream.Backed, SameOutside, PlacedOne, Extends, Slot;
    ptrs := [];
    SameRefl(u.pt.mem.ram, u.pt.base, 0);
    StreamFacts(u);
    ExtendsSelf(u.above);
    assert strs[..0] == [];
    var i := 0;
    while i < |strs|
      invariant 0 <= i <= |strs| && i <= MAXARG && u.Valid() && u.pt.tables == old(u.pt.tables) && u.pt.mem.blk == old(u.pt.mem.blk)
      invariant SameOutside(old(u.pt.mem.ram), u.pt.mem.ram, u.pt.base, 0, 0)
      invariant u.sp == Below(old(u.sp), strs[..i]) && Extends(u.above, old(u.above))
      invariant Placed(u.above, u.end, u.base, strs[..i], ptrs)
    {
      StreamFacts(u);
      if i >= MAXARG {
        return Refused, ptrs;
      }
      ghost var ram1, above1 := u.pt.mem.ram, u.above;
      BelowNext(old(u.sp), strs, i);
      var ok := PlaceString(u, strs[i]);
      SameTrans(old(u.pt.mem.ram), ram1, u.pt.mem.ram, u.pt.base, 0, 0);
      if !ok {
        return Refused, ptrs;
      }
      StreamFacts(u);
      PlacedLater(above1, u.above, u.end, u.base, strs[..i], ptrs);
      ExtendsTrans(old(u.above), above1, u.above);
      ptrs := ptrs + [u.sp];
      assert strs[..i + 1] == strs[..i] + [strs[i]];
      i := i + 1;
    }
    StreamFacts(u);
    assert strs[..i] == strs;
    if |strs| == MAXARG {
      return Overrun, ptrs;
    }
    return Complete, ptrs;
  }

  lemma BelowNext(sp: int, strs: seq<seq<byte>>, i: nat)
    requires i < |strs|
    ensures Below(sp, strs[..i + 1]) == Slot(Below(sp, strs[..i]), |strs[i]|)
    ensures Below(sp, strs) <= Below(sp, strs[..i + 1])
  {
    assert strs[..i + 1][..i] == strs[..i];
    BelowFalls(sp, strs, i + 1);
  }

  lemma ExtendsSelf(a: seq<byte>)
    ensures Extends(a, a)
  {}

  /** Words from the last to the first, so that they lie in order; stops at the first that does not fit. */
  method PushWords(u: UserstackStream, ws: seq<nat>) returns (ok: bool)
    requires u.Valid()
    modifies u`sp, u`cachePage, u`cacheOff, u`cv, u`above, u`errno, u.pt`tables, u.pt.mem
    ensures u.Backed() && u.pt.tables == old(u.pt.tables) && u.pt.mem.blk == old(u.pt.mem.blk)
    ensures SameOutside(old(u.pt.mem.ram), u.pt.mem.ram, u.pt.base, 0, 0)
    ensures ok <==> u.base <= old(u.sp) - 8 * |ws|
    ensures ok ==> u.Valid() && u.sp == old(u.sp) - 8 * |ws| && u.above == Words(ws) + old(u.above)
  {
    hide UserstackStream.Valid, UserstackStream.Backed, SameOutside, Words;
    SameRefl(u.pt.mem.ram, u.pt.base, 0);
    StreamFacts(u);
    var i := |ws|;
    WordsTail(ws, i, u.above);
    while i > 0
      invariant 0 <= i <= |ws| && u.Valid() && u.pt.tables == old(u.pt.tables) && u.pt.mem.blk == old(u.pt.mem.blk)
      invariant SameOutside(old(u.pt.mem.ram), u.pt.mem.ram, u.pt.base, 0, 0)
      invariant u.sp == old(u.sp) - 8 * (|ws| - i) && u.above == Words(ws[i..]) + old(u.above)
    {
      StreamFacts(u);
      ghost var ram1 := u.pt.mem.ram;
      i := i - 1;
      u.Push(LittleEndian(ws[i], 8));
      SameTrans(old(u.pt.mem.ram), ram1, u.pt.mem.ram, u.pt.base, 0, 0);
      if u.errno != RcOk {
        return false;
      }
      WordsTail(ws, i, old(u.above));
    }
    StreamFacts(u);
    assert ws[0..] == ws;
    return true;
  }

  lemma WordsTail(ws: seq<nat>, i: nat, tail: seq<byte>)
    requires i <= |ws|
    ensures i < |ws| ==> LittleEndian(ws[i], 8) + (Words(ws[i + 1..]) + tail) == Words(ws[i..]) + tail
    ensures i == |ws| ==> Words(ws[i..]) + tail == tail
  {
    if i < |ws| { assert ws[i..][1..] == ws[i + 1..]; }
  }

  // ---------------------------------------------------------------- execve

  /** Type and value of the auxiliary entries, in memory order. */
  function Aux(random: nat, phdr: nat, phent: nat, phnum: nat): seq<nat> {
    [AT_RANDOM, random]
    + (if phdr != 0 then [AT_PHDR, phdr, AT_PHENT, phent, AT_PHNUM, phnum, AT_PAGESZ, PAGE_SIZE] else [])
    + [AT_NULL, 0]
  }

  /** Everything from the final stack pointer up to the strings. */
  function Frame(argv: seq<nat>, envp: seq<nat>, aux: seq<nat>): seq<nat> {
    [|argv|] + argv + [0] + envp + [0] + aux
  }

  const RANDOM: seq<nat> := [0x3000_0000_0000_0000, 0x2000_0000_0000_0000, 0xffee_baeb_00ee_baec, 0]

  /** The final stack pointer, from the sizes alone. */
  function FinalSp(end: nat, envs: seq<seq<byte>>, argv: seq<seq<byte>>, phdr: nat): int {
    var strings := Below(Below(end - 32, envs), argv);
    strings - strings % 16 - 8 * |Frame(seq(|argv|, _ => 0), seq(|envs|, _ => 0), Aux(0, phdr, 0, 0))|
  }

  /** One auxiliary entry, a struct of two words. */
  method PushAux(u: UserstackStream, kind: nat, value: nat) returns (ok: bool)
    requires u.Valid()
    modifies u`sp, u`cachePage, u`cacheOff, u`cv, u`above, u`errno, u.pt`tables, u.pt.mem
    ensures u.Backed() && u.pt.tables == old(u.pt.tables) && u.pt.mem.blk == old(u.pt.mem.blk)
    ensures SameOutside(old(u.pt.mem.ram), u.pt.mem.ram, u.pt.base, 0, 0)
    ensures ok <==> u.base <= old(u.sp) - 16
    ensures ok ==> u.Valid() && u.sp == old(u.sp) - 16 && u.above == Words([kind, value]) + old(u.above)
  {
    hide UserstackStream.Valid, UserstackStream.Backed, SameOutside;
    StreamFacts(u);
    TwoWords(kind, value);
    u.Push(LittleEndian(kind, 8) + LittleEndian(value, 8));
    return u.errno == RcOk;
  }

  lemma TwoWords(a: nat, b: nat)
    ensures Words([a, b]) == LittleEndian(a, 8) + LittleEndian(b, 8)
  {
    assert [a, b][1..] == [b] && [b][1..] == [];
    assert Words([b]) == LittleEndian(b, 8) + [];
  }

  /** The auxiliary vector, from its end. */
  method PushAuxv(u: UserstackStream, random: nat, phdr: nat, phent: nat, phnum: nat) returns (ok: bool)
    requires u.Valid()
    modifies u`sp, u`cachePage, u`cacheOff, u`cv, u`above, u`errno, u.pt`tables, u.pt.mem
    ensures u.Backed() && u.pt.tables == old(u.pt.tables) && u.pt.mem.blk == old(u.pt.mem.blk)
    ensures SameOutside(old(u.pt.mem.ram), u.pt.mem.ram, u.pt.base, 0, 0)
    ensures ok <==> u.base <= old(u.sp) - 8 * |Aux(random, phdr, phent, phnum)|
    ensures ok ==> u.Valid() && u.sp == old(u.sp) - 8 * |Aux(random, phdr, phent, phnum)|
    ensures ok ==> u.above == Words(Aux(random, phdr, phent, phnum)) + old(u.above)
  {
    hide UserstackStream.Valid, UserstackStream.Backed, SameOutside, Words;
    ghost var ram0, rest := u.pt.mem.ram, u.above;
    ok := PushAux(u, AT_NULL, 0);
    if !ok { return; }
    if phdr != 0 {
      ghost var ram1 := u.pt.mem.ram;
      ok := PushProgramHeaders(u, phdr, phent, phnum);
      SameTrans(ram0, ram1, u.pt.mem.ram, u.pt.base, 0, 0);
      if !ok { return; }
    }
    ghost var ram2 := u.pt.mem.ram;
    ok := PushAux(u, AT_RANDOM, random);
    SameTrans(ram0, ram2, u.pt.mem.ram, u.pt.base, 0, 0);
    if phdr != 0 { JoinLong(random, phdr, phent, phnum, rest); } else { JoinShort(random, phent, phnum, rest); }
  }

  method PushProgramHeaders(u: UserstackStream, phdr: nat, phent: nat, phnum: nat) returns (ok: bool)
    requires u.Valid()
    modifies u`sp, u`cachePage, u`cacheOff, u`cv, u`above, u`errno, u.pt`tables, u.pt.mem
    ensures u.Backed() && u.pt.tables == old(u.pt.tables) && u.pt.mem.blk == old(u.pt.mem.blk)
    ensures SameOutside(old(u.pt.mem.ram), u.pt.mem.ram, u.pt.base, 0, 0)
    ensures ok <==> u.base <= old(u.sp) - 64
    ensures ok ==> u.Valid() && u.sp == old(u.sp) - 64
    ensures ok ==> u.above == Words([AT_PHDR, phdr]) + (Words([AT_PHENT, phent]) + (Words([AT_PHNUM, phnum]) + (Words([AT_PAGESZ, PAGE_SIZE]) + old(u.above))))
  {
    hide UserstackStream.Valid, UserstackStream.Backed, SameOutside, Words;
    ghost var ram0 := u.pt.mem.ram;
    ok := PushAux(u, AT_PAGESZ, PAGE_SIZE);
    if !ok { return; }
    ghost var ram1 := u.pt.mem.ram;
    ok := PushAux(u, AT_PHNUM, phnum);
    SameTrans(ram0, ram1, u.pt.mem.ram, u.pt.base, 0, 0);
    if !ok { return; }
    ghost var ram2 := u.pt.mem.ram;
    ok := PushAux(u, AT_PHENT, phent);
    SameTrans(ram0, ram2, u.pt.mem.ram, u.pt.base, 0, 0);
    if !ok { return; }
    ghost var ram3 := u.pt.mem.ram;
    ok := PushAux(u, AT_PHDR, phdr);
    SameTrans(ram0, ram3, u.pt.mem.ram, u.pt.base, 0, 0);
  }

  lemma JoinTail(a: seq<nat>, b: seq<nat>, tail: seq<byte>)
    ensures Words(a) + (Words(b) + tail) == Words(a + b) + tail
  {
    WordsAppend(a, b);
  }

  lemma JoinShort(random: nat, phent: nat, phnum: nat, tail: seq<byte>)
    ensures Words([AT_RANDOM, random]) + (Words([AT_NULL, 0]) + tail) == Words(Aux(random, 0, phent, phnum)) + tail
  {
    JoinTail([AT_RANDOM, random], [AT_NULL, 0], tail);
    assert [AT_RANDOM, random] + [AT_NULL, 0] == Aux(random, 0, phent, phnum);
  }

  lemma JoinLong(random: nat, phdr: nat, phent: nat, phnum: nat, tail: seq<byte>)
    requires phdr != 0
    ensures var headers := Words([AT_PHDR, phdr]) + (Words([AT_PHENT, phent]) + (Words([AT_PHNUM, phnum]) + (Words([AT_PAGESZ, PAGE_SIZE]) + (Words([AT_NULL, 0]) + tail))));
            Words([AT_RANDOM, random]) + headers == Words(Aux(random, phdr, phent, phnum)) + tail
  {
    hide Words;
    var a, b, c := [AT_PAGESZ, PAGE_SIZE] + [AT_NULL, 0], [AT_PHNUM, phnum], [AT_PHENT, phent];
    JoinTail([AT_PAGESZ, PAGE_SIZE], [AT_NULL, 0], tail);
    JoinTail(b, a, tail);
    JoinTail(c, b + a, tail);
    JoinTail([AT_PHDR, phdr], c + (b + a), tail);
    JoinTail([AT_RANDOM, random], [AT_PHDR, phdr] + (c + (b + a)), tail);
    assert [AT_RANDOM, random] + ([AT_PHDR, phdr] + (c + (b + a))) == Aux(random, phdr, phent, phnum);
  }

  /** Exactly 32 strings of one kind, all of which fit: their terminator goes past the end of the pointer array. */
  predicate Overruns(base: nat, end: nat, envs: seq<seq<byte>>, argv: seq<seq<byte>>) {
    && base <= Below(end - 32, envs)
    && (|envs| == MAXARG || (|envs| < MAXARG && |argv| == MAXARG && base <= Below(Below(end - 32, envs), argv)))
  }

  /** Steps 1 to 3 of execve's stack: the random bytes, the environment strings, the argument strings. */
  method BuildStrings(u: UserstackStream, envs: seq<seq<byte>>, argv: seq<seq<byte>>)
      returns (r: Built, uargv: seq<nat>, uenvp: seq<nat>, random: nat)
    requires u.Backed()
    modifies u`sp, u`cachePage, u`cacheOff, u`cv, u`above, u`errno, u.pt`tables, u.pt.mem
    ensures u.Backed() && u.pt.tables == old(u.pt.tables) && u.pt.mem.blk == old(u.pt.mem.blk)
    ensures SameOutside(old(u.pt.mem.ram), u.pt.mem.ram, u.pt.base, 0, 0)
    ensures r.Complete? <==> |envs| < MAXARG && |argv| < MAXARG && u.base <= Below(Below(u.end - 32, envs), argv)
    ensures r.Overrun? <==> Overruns(u.base, u.end, envs, argv)
    ensures r.Complete? ==> u.Valid() && u.sp == Below(Below(u.end - 32, envs), argv) && u.sp % 16 == 0
    ensures r.Complete? ==> Placed(u.above, u.end, u.base, argv, uargv) && Placed(u.above, u.end, u.base, envs, uenvp)
    ensures r.Complete? ==> At(u.above, u.end, random, Words(RANDOM)) && random == u.end - 32
  {
    hide UserstackStream.Valid, UserstackStream.Backed, SameOutside, Words, Extends, At, Placed, Below;
    uargv := [];
    ghost var ram0 := u.pt.mem.ram;
    SameRefl(ram0, u.pt.base, 0);
    BelowOrder(u.end - 32, envs, argv);
    EndAligned(u);
    var rc := u.Open();
    var ok := PushWords(u, RANDOM);
    random := u.sp;
    StreamFacts(u);
    AtTop(u.above, u.end, random, Words(RANDOM), []);
    ghost var ram1, above1 := u.pt.mem.ram, u.above;
    r, uenvp := PlaceStrings(u, envs);
    SameTrans(ram0, ram1, u.pt.mem.ram, u.pt.base, 0, 0);
    if r != Complete {
      return;
    }
    StreamFacts(u);
    AtLater(above1, u.above, u.end, random, Words(RANDOM));
    ghost var ram2, above2 := u.pt.mem.ram, u.above;
    r, uargv := PlaceStrings(u, argv);
    SameTrans(ram0, ram2, u.pt.mem.ram, u.pt.base, 0, 0);
    if r != Complete {
      return;
    }
    StreamFacts(u);
    AtLater(above2, u.above, u.end, random, Words(RANDOM));
    PlacedLater(above2, u.above, u.end, u.base, envs, uenvp);
    var sp := u.sp;
    ghost var above3 := u.above;
    u.Retreat(sp % 16);
    assert u.above == above3;
  }

  lemma EndAligned(u: UserstackStream)
    requires u.Backed()
    ensures u.end % 16 == 0 && u.base + PAGE_SIZE <= u.end <= LIMIT
  {
    StackBounds(u.pt.mem.ram, u.pt.base, u.base, u.end);
    Sixteen(u.end);
  }

  lemma Sixteen(x: nat)
    requires x % 4096 == 0
    ensures x % 16 == 0
  {
    DivModUnique(x, 16, 256 * (x / 4096), 0);
  }

  lemma BelowOrder(sp: int, envs: seq<seq<byte>>, argv: seq<seq<byte>>)
    ensures Below(Below(sp, envs), argv) <= Below(sp, envs) <= sp
    ensures sp % 16 == 0 ==> Below(Below(sp, envs), argv) % 16 == 0
  {
    BelowFalls(Below(sp, envs), argv, 0);
    BelowFalls(sp, envs, 0);
  }

  lemma AtTop(above: seq<byte>, end: nat, sp: nat, bytes: seq<byte>, tail: seq<byte>)
    requires above == bytes + tail && sp + |above| == end
    ensures At(above, end, sp, bytes) && Extends(above, tail)
  {}

  /** Steps 4 to 7: auxiliary vector, environment pointers, argument pointers, argument count. */
  method BuildTables(u: UserstackStream, uargv: seq<nat>, uenvp: seq<nat>, random: nat, phdr: nat, phent: nat, phnum: nat)
      returns (ok: bool)
    requires u.Valid()
    modifies u`sp, u`cachePage, u`cacheOff, u`cv, u`above, u`errno, u.pt`tables, u.pt.mem
    ensures u.Backed() && u.pt.tables == old(u.pt.tables) && u.pt.mem.blk == old(u.pt.mem.blk)
    ensures SameOutside(old(u.pt.mem.ram), u.pt.mem.ram, u.pt.base, 0, 0)
    ensures var frame := Frame(uargv, uenvp, Aux(random, phdr, phent, phnum));
            && (ok <==> u.base <= old(u.sp) - 8 * |frame|)
            && (ok ==> u.Valid() && u.sp == old(u.sp) - 8 * |frame| && u.above == Words(frame) + old(u.above))
  {
    hide UserstackStream.Valid, UserstackStream.Backed, SameOutside, Words, Aux;
    ghost var ram0, tail, aux := u.pt.mem.ram, u.above, Aux(random, phdr, phent, phnum);
    ok := PushAuxv(u, random, phdr, phent, phnum);
    if !ok { return; }
    ghost var ram1 := u.pt.mem.ram;
    ok := PushWords(u, uenvp + [0]);
    SameTrans(ram0, ram1, u.pt.mem.ram, u.pt.base, 0, 0);
    if !ok { return; }
    ghost var ram2 := u.pt.mem.ram;
    ok := PushWords(u, uargv + [0]);
    SameTrans(ram0, ram2, u.pt.mem.ram, u.pt.base, 0, 0);
    if !ok { return; }
    ghost var ram3 := u.pt.mem.ram;
    ok := PushWords(u, [|uargv|]);
    SameTrans(ram0, ram3, u.pt.mem.ram, u.pt.base, 0, 0);
    JoinFrame(uargv, uenvp, aux, tail);
  }

  lemma JoinFrame(uargv: seq<nat>, uenvp: seq<nat>, aux: seq<nat>, tail: seq<byte>)
    ensures Words([|uargv|]) + (Words(uargv + [0]) + (Words(uenvp + [0]) + (Words(aux) + tail))) == Words(Frame(uargv, uenvp, aux)) + tail
  {
    hide Words;
    JoinTail(uenvp + [0], aux, tail);
    JoinTail(uargv + [0], uenvp + [0] + aux, tail);
    JoinTail([|uargv|], uargv + [0] + (uenvp + [0] + aux), tail);
    assert [|uargv|] + (uargv + [0] + (uenvp + [0] + aux)) == Frame(uargv, uenvp, aux);
  }

  /** The stack that execve builds. On success memory from sp on holds the frame, the pointers in it lead to
      the strings, and no translation changed. */
  method BuildStack(u: UserstackStream, envs: seq<seq<byte>>, argv: seq<seq<byte>>, phdr: nat, phent: nat, phnum: nat)
      returns (r: Built, uargv: seq<nat>, uenvp: seq<nat>, random: nat)
    requires u.Backed()
    modifies u`sp, u`cachePage, u`cacheOff, u`cv, u`above, u`errno, u.pt`tables, u.pt.mem
    ensures u.Backed() && u.pt.tables == old(u.pt.tables) && u.pt.mem.blk == old(u.pt.mem.blk)
    ensures SameOutside(old(u.pt.mem.ram), u.pt.mem.ram, u.pt.base, 0, 0)
    ensures r.Complete? <==> |envs| < MAXARG && |argv| < MAXARG && u.base <= FinalSp(u.end, envs, argv, phdr)
    ensures r.Overrun? <==> Overruns(u.base, u.end, envs, argv)
    ensures r.Complete? ==> u.Valid() && u.sp == FinalSp(u.end, envs, argv, phdr)
    ensures r.Complete? ==> Reads(u.pt.mem.ram, u.pt.base, u.sp, Words(Frame(uargv, uenvp, Aux(random, phdr, phent, phnum))))
    ensures r.Complete? ==> Strings(u.pt.mem.ram, u.pt.base, u.base, u.end, argv, uargv)
    ensures r.Complete? ==> Strings(u.pt.mem.ram, u.pt.base, u.base, u.end, envs, uenvp)
    ensures r.Complete? ==> Reads(u.pt.mem.ram, u.pt.base, random, Words(RANDOM)) && random == u.end - 32
    ensures r.Complete? && NoNuls(argv) && NoNuls(envs) && IsWord(phdr) && IsWord(phent) && IsWord(phnum) ==>
              Decode(u.pt.mem.ram, u.pt.base, u.sp) == Just(Start(|argv|, argv, envs, Pairs(u.end - 32, phdr, phent, phnum)))
  {
    hide UserstackStream.Valid, UserstackStream.Backed, SameOutside, Words, Extends, At, Placed, Below, Aux, Reads, Strings, Decode, Pairs;
    ghost var ram0 := u.pt.mem.ram;
    EndAligned(u);
    BelowOrder(u.end - 32, envs, argv);
    FrameSize(envs, argv, phdr);
    r, uargv, uenvp, random := BuildStrings(u, envs, argv);
    if r != Complete {
      return;
    }
    PlacedSize(u.above, u.end, u.base, argv, uargv);
    PlacedSize(u.above, u.end, u.base, envs, uenvp);
    AuxSize(random, phdr, phent, phnum);
    ghost var ram1, above1 := u.pt.mem.ram, u.above;
    var ok := BuildTables(u, uargv, uenvp, random, phdr, phent, phnum);
    SameTrans(ram0, ram1, u.pt.mem.ram, u.pt.base, 0, 0);
    if !ok {
      return Refused, uargv, uenvp, random;
    }
    StreamFacts(u);
    StreamReads(u);
    AtTop(u.above, u.end, u.sp, Words(Frame(uargv, uenvp, Aux(random, phdr, phent, phnum))), above1);
    AtReads(u.pt.mem.ram, u.pt.base, u.sp, u.above, u.end, u.sp, Words(Frame(uargv, uenvp, Aux(random, phdr, phent, phnum))));
    AtLater(above1, u.above, u.end, random, Words(RANDOM));
    AtReads(u.pt.mem.ram, u.pt.base, u.sp, u.above, u.end, random, Words(RANDOM));
    PlacedLater(above1, u.above, u.end, u.base, argv, uargv);
    PlacedLater(above1, u.above, u.end, u.base, envs, uenvp);
    PlacedReads(u.pt.mem.ram, u.pt.base, u.sp, u.above, u.end, u.base, argv, uargv);
    PlacedReads(u.pt.mem.ram, u.pt.base, u.sp, u.above, u.end, u.base, envs, uenvp);
    if NoNuls(argv) && NoNuls(envs) && IsWord(phdr) && IsWord(phent) && IsWord(phnum) {
      DecodeBuilt(u.pt.mem.ram, u.pt.base, u.base, u.end, u.sp, argv, uargv, envs, uenvp, random, phdr, phent, phnum);
    }
  }

  /** Each pointer is 16-byte aligned, lies in the stack, and user mode reads its string there. */
  ghost predicate Strings(ram: Ram, root: nat, base: nat, end: nat, strs: seq<seq<byte>>, ptrs: seq<nat>) {
    |ptrs| == |strs| && forall i :: 0 <= i < |strs| ==> StringAtPtr(ram, root, base, end, strs[i], ptrs[i])
  }

  ghost predicate StringAtPtr(ram: Ram, root: nat, base: nat, end: nat, s: seq<byte>, p: nat) {
    p % 16 == 0 && base <= p && p + |s| < end && Reads(ram, root, p, s + [0])
  }

  lemma PlacedReads(ram: Ram, root: nat, sp: nat, above: seq<byte>, end: nat, base: nat, strs: seq<seq<byte>>, ptrs: seq<nat>)
    requires Reads(ram, root, sp, above) && sp + |above| == end && Placed(above, end, base, strs, ptrs)
    ensures Strings(ram, root, base, end, strs, ptrs)
  {
    hide Reads;
    forall i | 0 <= i < |strs| ensures StringAtPtr(ram, root, base, end, strs[i], ptrs[i]) {
      assert PlacedOne(above, end, base, strs[i], ptrs[i]);
      AtReads(ram, root, sp, above, end, ptrs[i], strs[i] + [0]);
    }
  }

  lemma PlacedSize(above: seq<byte>, end: nat, base: nat, strs: seq<seq<byte>>, ptrs: seq<nat>)
    requires Placed(above, end, base, strs, ptrs)
    ensures |ptrs| == |strs|
  {}

  lemma AuxSize(random: nat, phdr: nat, phent: nat, phnum: nat)
    ensures |Aux(random, phdr, phent, phnum)| == |Aux(0, phdr, 0, 0)|
  {}

  lemma FrameSize(envs: seq<seq<byte>>, argv: seq<seq<byte>>, phdr: nat)
    ensures |Frame(seq(|argv|, _ => 0), seq(|envs|, _ => 0), Aux(0, phdr, 0, 0))| == |argv| + |envs| + 3 + |Aux(0, phdr, 0, 0)|
  {}

  lemma StreamReads(u: UserstackStream)
    requires u.Valid()
    ensures Reads(u.pt.mem.ram, u.pt.base, u.sp, u.above)
  {}

  // ------------------------------------------------------- reading it back

  const LIMIT: nat := VPNS * PAGE_SIZE

  function BytesAt(ram: Ram, root: nat, va: nat, n: nat): Wrap<seq<byte>>
    decreases n
  {
    if n == 0 then Just([])
    else
      var first, rest := UserByte(ram, root, va), BytesAt(ram, root, va + 1, n - 1);
      if first.Just? && rest.Just? then Just([first.value] + rest.value) else Nothing
  }

  function WordAt(ram: Ram, root: nat, va: nat): Wrap<nat> {
    var b := BytesAt(ram, root, va, 8);
    if b.Just? then Just(Value(b.value)) else Nothing
  }

  /** The words from va up to the first 0. */
  function VectorAt(ram: Ram, root: nat, va: nat): Wrap<seq<nat>>
    decreases LIMIT - va
  {
    if va >= LIMIT then Nothing
    else
      var w := WordAt(ram, root, va);
      if w.Nothing? then Nothing
      else if w.value == 0 then Just([])
      else
        var rest := VectorAt(ram, root, va + 8);
        if rest.Just? then Just([w.value] + rest.value) else Nothing
  }

  /** The bytes from va up to the first NUL. */
  function StringAt(ram: Ram, root: nat, va: nat): Wrap<seq<byte>>
    decreases LIMIT - va
  {
    if va >= LIMIT then Nothing
    else
      var b := UserByte(ram, root, va);
      if b.Nothing? then Nothing
      else if b.value == 0 then Just([])
      else
        var rest := StringAt(ram, root, va + 1);
        if rest.Just? then Just([b.value] + rest.value) else Nothing
  }

  function StringsAt(ram: Ram, root: nat, ptrs: seq<nat>): Wrap<seq<seq<byte>>> {
    if ptrs == [] then Just([])
    else
      var first, rest := StringAt(ram, root, ptrs[0]), StringsAt(ram, root, ptrs[1..]);
      if first.Just? && rest.Just? then Just([first.value] + rest.value) else Nothing
  }

  /** Pairs of words up to the type AT_NULL. */
  function AuxAt(ram: Ram, root: nat, va: nat): Wrap<seq<(nat, nat)>>
    decreases LIMIT - va
  {
    if va >= LIMIT then Nothing
    else
      var k, v := WordAt(ram, root, va), WordAt(ram, root, va + 8);
      if k.Nothing? || v.Nothing? then Nothing
      else if k.value == AT_NULL then Just([])
      else
        var rest := AuxAt(ram, root, va + 16);
        if rest.Just? then Just([(k.value, v.value)] + rest.value) else Nothing
  }

  /** What a program's start code finds at the stack pointer it is given. */
  datatype Start = Start(argc: nat, argv: seq<seq<byte>>, envp: seq<seq<byte>>, auxv: seq<(nat, nat)>)

  function Decode(ram: Ram, root: nat, sp: nat): Wrap<Start> {
    var argc, uargv := WordAt(ram, root, sp), VectorAt(ram, root, sp + 8);
    if argc.Nothing? || uargv.Nothing? then Nothing
    else
      var envAt := sp + 8 + 8 * (|uargv.value| + 1);
      var uenvp := VectorAt(ram, root, envAt);
      if uenvp.Nothing? then Nothing
      else
        var argv, envp := StringsAt(ram, root, uargv.value), StringsAt(ram, root, uenvp.value);
        var auxv := AuxAt(ram, root, envAt + 8 * (|uenvp.value| + 1));
        if argv.Just? && envp.Just? && auxv.Just? then Just(Start(argc.value, argv.value, envp.value, auxv.value)) else Nothing
  }

  lemma {:induction false} BytesAtReads(ram: Ram, root: nat, va: nat, s: seq<byte>)
    requires Reads(ram, root, va, s)
    ensures BytesAt(ram, root, va, |s|) == Just(s)
    decreases |s|
  {
    hide UserByte, Reads;
    if s != [] {
      ReadsHead(ram, root, va, s);
      BytesAtReads(ram, root, va + 1, s[1..]);
      assert s == [s[0]] + s[1..];
    }
  }

  lemma ReadsHead(ram: Ram, root: nat, va: nat, s: seq<byte>)
    requires Reads(ram, root, va, s) && s != []
    ensures UserByte(ram, root, va) == Just(s[0]) && Reads(ram, root, va + 1, s[1..])
  {
    hide UserByte;
    assert UserByte(ram, root, va + 0) == Just(s[0]);
    forall i | 0 <= i < |s[1..]| ensures UserByte(ram, root, va + 1 + i) == Just(s[1..][i]) {
      assert UserByte(ram, root, va + (i + 1)) == Just(s[i + 1]);
    }
  }

  lemma ReadsSplit(ram: Ram, root: nat, va: nat, a: seq<byte>, b: seq<byte>)
    requires Reads(ram, root, va, a + b)
    ensures Reads(ram, root, va, a) && Reads(ram, root, va + |a|, b)
  {
    hide UserByte;
    forall i | 0 <= i < |a| ensures UserByte(ram, root, va + i) == Just(a[i]) {
      assert (a + b)[i] == a[i];
    }
    forall i | 0 <= i < |b| ensures UserByte(ram, root, va + |a| + i) == Just(b[i]) {
      assert UserByte(ram, root, va + (|a| + i)) == Just((a + b)[|a| + i]);
    }
  }

  /** Strings as a C program hands them over: none contains a NUL. */
  predicate NoNuls(strs: seq<seq<byte>>) {
    forall i :: 0 <= i < |strs| ==> 0 !in strs[i]
  }

  predicate IsWord(w: nat) { w < 0x1_0000_0000_0000_0000 }

  /** The first of some words in memory, and where the others are. */
  lemma FirstWord(ram: Ram, root: nat, va: nat, ws: seq<nat>)
    requires ws != [] && Reads(ram, root, va, Words(ws)) && IsWord(ws[0])
    ensures WordAt(ram, root, va) == Just(ws[0]) && Reads(ram, root, va + 8, Words(ws[1..]))
  {
    hide Reads, UserByte, BytesAt, LittleEndian, Value;
    ReadsSplit(ram, root, va, LittleEndian(ws[0], 8), Words(ws[1..]));
    BytesAtReads(ram, root, va, LittleEndian(ws[0], 8));
    Pow256Of8();
    ValueOfLittleEndian(ws[0], 8);
  }

  /** A vector of non-null words that ends in 0. */
  lemma {:induction false} VectorReads(ram: Ram, root: nat, va: nat, ws: seq<nat>, rest: seq<nat>)
    requires Reads(ram, root, va, Words(ws + [0] + rest)) && va + 8 * |ws| < LIMIT
    requires forall i :: 0 <= i < |ws| ==> ws[i] != 0 && IsWord(ws[i])
    ensures VectorAt(ram, root, va) == Just(ws) && Reads(ram, root, va + 8 * (|ws| + 1), Words(rest))
    decreases |ws|
  {
    hide Reads, WordAt, Words;
    var all := ws + [0] + rest;
    FirstWord(ram, root, va, all);
    if ws == [] {
      assert all[1..] == rest;
    } else {
      assert all[0] == ws[0] && all[1..] == ws[1..] + [0] + rest;
      VectorReads(ram, root, va + 8, ws[1..], rest);
      assert ws == [ws[0]] + ws[1..];
    }
  }

  lemma {:induction false} StringReads(ram: Ram, root: nat, va: nat, s: seq<byte>)
    requires Reads(ram, root, va, s + [0]) && va + |s| < LIMIT && 0 !in s
    ensures StringAt(ram, root, va) == Just(s)
    decreases |s|
  {
    hide Reads, UserByte;
    var all := s + [0];
    ReadsHead(ram, root, va, all);
    if s != [] {
      assert all[0] == s[0] && all[1..] == s[1..] + [0];
      StringReads(ram, root, va + 1, s[1..]);
      assert s == [s[0]] + s[1..];
    }
  }

  lemma {:induction false} StringsRead(ram: Ram, root: nat, base: nat, end: nat, strs: seq<seq<byte>>, ptrs: seq<nat>)
    requires Strings(ram, root, base, end, strs, ptrs) && end <= LIMIT && NoNuls(strs)
    ensures StringsAt(ram, root, ptrs) == Just(strs)
    decreases |strs|
  {
    hide Reads, StringAt;
    if strs != [] {
      assert StringAtPtr(ram, root, base, end, strs[0], ptrs[0]);
      StringReads(ram, root, ptrs[0], strs[0]);
      forall i | 0 <= i < |strs[1..]| ensures StringAtPtr(ram, root, base, end, strs[1..][i], ptrs[1..][i]) {
        assert StringAtPtr(ram, root, base, end, strs[i + 1], ptrs[i + 1]);
      }
      StringsRead(ram, root, base, end, strs[1..], ptrs[1..]);
      assert strs == [strs[0]] + strs[1..];
    }
  }

  /** Auxiliary entries as pairs, without the terminator. */
  function Pairs(random: nat, phdr: nat, phent: nat, phnum: nat): seq<(nat, nat)> {
    [(AT_RANDOM, random)]
    + (if phdr != 0 then [(AT_PHDR, phdr), (AT_PHENT, phent), (AT_PHNUM, phnum), (AT_PAGESZ, PAGE_SIZE)] else [])
  }

  function Flat(pairs: seq<(nat, nat)>): seq<nat> {
    if pairs == [] then [AT_NULL, 0] else [pairs[0].0, pairs[0].1] + Flat(pairs[1..])
  }

  lemma AuxIsFlat(random: nat, phdr: nat, phent: nat, phnum: nat)
    ensures Aux(random, phdr, phent, phnum) == Flat(Pairs(random, phdr, phent, phnum))
  {
    var ps := Pairs(random, phdr, phent, phnum);
    if phdr != 0 {
      var p1, p2, p3, p4 := ps[1..], ps[2..], ps[3..], ps[4..];
      assert p1[1..] == p2 && p2[1..] == p3 && p3[1..] == p4 && p4[1..] == [];
      assert Flat(p4) == [AT_PAGESZ, PAGE_SIZE] + [AT_NULL, 0];
      assert Flat(p3) == [AT_PHNUM, phnum] + Flat(p4);
      assert Flat(p2) == [AT_PHENT, phent] + Flat(p3);
      assert Flat(p1) == [AT_PHDR, phdr] + Flat(p2);
    } else {
      assert ps[1..] == [];
    }
  }

  lemma {:induction false} AuxReads(ram: Ram, root: nat, va: nat, pairs: seq<(nat, nat)>)
    requires Reads(ram, root, va, Words(Flat(pairs))) && va + 16 * |pairs| < LIMIT
    requires forall i :: 0 <= i < |pairs| ==> pairs[i].0 != AT_NULL && IsWord(pairs[i].0) && IsWord(pairs[i].1)
    ensures AuxAt(ram, root, va) == Just(pairs)
    decreases |pairs|
  {
    hide Reads, WordAt, Words;
    var ws := Flat(pairs);
    FirstWord(ram, root, va, ws);
    FirstWord(ram, root, va + 8, ws[1..]);
    if pairs != [] {
      assert ws[1..][1..] == Flat(pairs[1..]);
      AuxReads(ram, root, va + 16, pairs[1..]);
      assert pairs == [pairs[0]] + pairs[1..];
    }
  }

  /** The round trip: from the built frame the start code recovers the argument count, exactly the argument
      strings, exactly the environment strings and the auxiliary vector. */
  lemma DecodeBuilt(ram: Ram, root: nat, base: nat, end: nat, sp: nat, argv: seq<seq<byte>>, uargv: seq<nat>,
                    envs: seq<seq<byte>>, uenvp: seq<nat>, random: nat, phdr: nat, phent: nat, phnum: nat)
    requires 0 < base <= sp && end <= LIMIT && |argv| < MAXARG
    requires sp + 8 * |Frame(uargv, uenvp, Aux(random, phdr, phent, phnum))| <= end
    requires Reads(ram, root, sp, Words(Frame(uargv, uenvp, Aux(random, phdr, phent, phnum))))
    requires Strings(ram, root, base, end, argv, uargv) && Strings(ram, root, base, end, envs, uenvp)
    requires NoNuls(argv) && NoNuls(envs)
    requires IsWord(random) && IsWord(phdr) && IsWord(phent) && IsWord(phnum)
    ensures Decode(ram, root, sp) == Just(Start(|argv|, argv, envs, Pairs(random, phdr, phent, phnum)))
  {
    hide Reads, WordAt, Words, VectorAt, StringsAt, AuxAt, Aux, Pairs, Flat, StringAtPtr;
    var aux, pairs := Aux(random, phdr, phent, phnum), Pairs(random, phdr, phent, phnum);
    var frame := Frame(uargv, uenvp, aux);
    FirstWord(ram, root, sp, frame);
    assert frame[1..] == uargv + [0] + (uenvp + [0] + aux);
    PointersOk(ram, root, base, end, argv, uargv);
    PointersOk(ram, root, base, end, envs, uenvp);
    VectorReads(ram, root, sp + 8, uargv, uenvp + [0] + aux);
    var envAt := sp + 8 + 8 * (|uargv| + 1);
    VectorReads(ram, root, envAt, uenvp, aux);
    AuxIsFlat(random, phdr, phent, phnum);
    PairsOk(random, phdr, phent, phnum);
    AuxReads(ram, root, envAt + 8 * (|uenvp| + 1), pairs);
    StringsRead(ram, root, base, end, argv, uargv);
    StringsRead(ram, root, base, end, envs, uenvp);
  }

  lemma PointersOk(ram: Ram, root: nat, base: nat, end: nat, strs: seq<seq<byte>>, ptrs: seq<nat>)
    requires Strings(ram, root, base, end, strs, ptrs) && 0 < base && end <= LIMIT
    ensures |ptrs| == |strs| && forall i :: 0 <= i < |ptrs| ==> ptrs[i] != 0 && IsWord(ptrs[i])
  {
    forall i | 0 <= i < |ptrs| ensures ptrs[i] != 0 && IsWord(ptrs[i]) {
      assert StringAtPtr(ram, root, base, end, strs[i], ptrs[i]);
    }
  }

  lemma PairsOk(random: nat, phdr: nat, phent: nat, phnum: nat)
    requires IsWord(random) && IsWord(phdr) && IsWord(phent) && IsWord(phnum)
    ensures var ps := Pairs(random, phdr, phent, phnum);
            && (forall i :: 0 <= i < |ps| ==> ps[i].0 != AT_NULL && IsWord(ps[i].0) && IsWord(ps[i].1))
            && 2 * |ps| + 2 == |Aux(random, phdr, phent, phnum)|
  {}

  /** The ABI wants the stack pointer 16-byte aligned at program start; execve's is, exactly if the numbers of
      arguments and environment strings add up to an odd number. */
  lemma FinalAlignment(end: nat, envs: seq<seq<byte>>, argv: seq<seq<byte>>, phdr: nat)
    ensures FinalSp(end, envs, argv, phdr) % 16 == 0 <==> (|argv| + |envs|) % 2 == 1
  {
    hide Below;
    FrameSize(envs, argv, phdr);
    var strings := Below(Below(end - 32, envs), argv);
    var n := |argv| + |envs| + 3 + |Aux(0, phdr, 0, 0)|;
    Halves(strings / 16, n);
  }

  lemma Halves(q: int, n: nat)
    ensures (16 * q - 8 * n) % 16 == 0 <==> n % 2 == 0
  {
    var h := n / 2;
    assert 16 * q - 8 * n == 16 * (q - h) - 8 * (n % 2);
  }
}
