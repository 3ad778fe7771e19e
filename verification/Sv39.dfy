/** Page-table entries and three-level page-table trees as they lie in physical
    memory (section 4.4 of the RISC-V Privileged Architecture, version 1.12).
    Everything here is about values: a snapshot of RAM and the positions that
    table pages occupy in one tree. */
module Sv39 {
  import opened Bytes
  import opened Wrappers

  const PAGE_SIZE := 4096
  const SLOTS := 512
  /** Virtual page numbers of a 39-bit address space. */
  const VPNS := 0x800_0000
  /** Physical page numbers have 44 bits. */
  const PPNS := 0x1000_0000_0000

  const PTE_V := 1
  const PTE_R := 2
  const PTE_W := 4
  const PTE_X := 8
  const PTE_U := 16

  type Page = s: seq<byte> | |s| == PAGE_SIZE witness seq(PAGE_SIZE, _ => 0)
  type Ram = map<nat, Page>

  function ZeroPage(): Page { seq(PAGE_SIZE, _ => 0) }

  // ---------------------------------------------------------------- words

  function Word(pg: Page, i: nat): nat
    requires i < SLOTS
  {
    Value(pg[8 * i..8 * i + 8])
  }

  function SetWord(pg: Page, i: nat, w: nat): Page
    requires i < SLOTS
  {
    pg[..8 * i] + LittleEndian(w, 8) + pg[8 * i + 8..]
  }

  lemma WordOfSetWord(pg: Page, i: nat, w: nat, j: nat)
    requires i < SLOTS && j < SLOTS && w < 0x1_0000_0000_0000_0000
    ensures Word(SetWord(pg, i, w), j) == if i == j then w else Word(pg, j)
  {
    var s := SetWord(pg, i, w);
    if i == j {
      assert s[8 * j..8 * j + 8] == LittleEndian(w, 8);
      Pow256Of8();
      ValueOfLittleEndian(w, 8);
    } else {
      assert s[8 * j..8 * j + 8] == pg[8 * j..8 * j + 8];
    }
  }

  lemma WordOfZeroPage(i: nat)
    requires i < SLOTS
    ensures Word(ZeroPage(), i) == 0
  {
    ValueOfZeros(ZeroPage()[8 * i..8 * i + 8]);
  }

  // -------------------------------------------------------------- entries

  predicate PteValid(e: nat) { e % 2 == 1 }

  /** V set and none of R, W, X: a pointer to the next level. */
  predicate PteIsDir(e: nat) { e % 16 == PTE_V }

  predicate PteRead(e: nat) { e / PTE_R % 2 == 1 }

  predicate PteWrite(e: nat) { e / PTE_W % 2 == 1 }

  predicate PteExec(e: nat) { e / PTE_X % 2 == 1 }

  predicate PteUser(e: nat) { e / PTE_U % 2 == 1 }

  /** to_pa: drop the ten flag bits, then scale the page number. */
  function PteToPa(e: nat): nat { e / 1024 * 4096 }

  function PtePpn(e: nat): nat { e / 1024 }

  function PteFlags(e: nat): nat { e % 1024 }

  /** set_data: the argument is a page-aligned physical address with flags or-ed
      into its low bits; the entry packs the page number above ten flag bits. */
  function PteSetData(data: nat): nat { data / 4096 * 1024 + data % 1024 }

  predicate LeafFlags(flags: nat) {
    flags < 1024 && PteValid(flags) && !PteIsDir(flags)
  }

  /** What an entry built by set_data holds. */
  lemma PteRoundTrip(pa: nat, flags: nat)
    requires pa % PAGE_SIZE == 0 && flags < 1024
    ensures PteToPa(PteSetData(pa + flags)) == pa
    ensures PtePpn(PteSetData(pa + flags)) == pa / PAGE_SIZE
    ensures PteFlags(PteSetData(pa + flags)) == flags
    ensures PteValid(PteSetData(pa + flags)) == PteValid(flags)
    ensures PteIsDir(PteSetData(pa + flags)) == PteIsDir(flags)
    ensures PteUser(PteSetData(pa + flags)) == PteUser(flags) && PteRead(PteSetData(pa + flags)) == PteRead(flags)
    ensures PteWrite(PteSetData(pa + flags)) == PteWrite(flags) && PteExec(PteSetData(pa + flags)) == PteExec(flags)
    ensures PteSetData(pa + flags) == MakePte(pa / PAGE_SIZE, flags)
    ensures pa / PAGE_SIZE < PPNS ==> PteSetData(pa + flags) < 0x1_0000_0000_0000_0000
  {
    hide PteSetData, MakePte, PteValid, PteIsDir, PteUser, PteFlags, PteRead, PteWrite, PteExec;
    SetDataPacks(pa / PAGE_SIZE, flags);
    assert pa == 4096 * (pa / PAGE_SIZE);
    PteParts(pa / PAGE_SIZE, flags);
    PermissionBits(PteSetData(pa + flags));
  }

  lemma SetDataPacks(ppn: nat, flags: nat)
    requires flags < 1024
    ensures PteSetData(4096 * ppn + flags) == MakePte(ppn, flags)
  {
    Shifted4096(ppn, flags);
    assert 4096 * ppn + flags == 1024 * (4 * ppn) + flags;
    Shifted1024(4 * ppn, flags);
  }

  lemma PteParts(ppn: nat, flags: nat)
    requires flags < 1024
    ensures PtePpn(MakePte(ppn, flags)) == ppn
    ensures PteFlags(MakePte(ppn, flags)) == flags
    ensures PteValid(MakePte(ppn, flags)) == PteValid(flags)
    ensures PteIsDir(MakePte(ppn, flags)) == PteIsDir(flags)
    ensures PteUser(MakePte(ppn, flags)) == PteUser(flags)
    ensures ppn < PPNS ==> MakePte(ppn, flags) < 0x1_0000_0000_0000_0000
  {
    var a, b := flags / 16, flags % 16;
    assert flags == 16 * a + b;
    Shifted1024(ppn, flags);
    assert MakePte(ppn, flags) == 2 * (512 * ppn + flags / 2) + flags % 2;
    Shifted2(512 * ppn + flags / 2, flags % 2);
    assert MakePte(ppn, flags) == 16 * (64 * ppn + a) + b;
    Shifted16(64 * ppn + a, b);
    assert 64 * ppn + a == 2 * (32 * ppn + a / 2) + a % 2;
    Shifted2(32 * ppn + a / 2, a % 2);
  }

  /** An entry's permissions are those of its flags. */
  lemma PermissionBits(e: nat)
    ensures PteRead(e) == PteRead(PteFlags(e)) && PteWrite(e) == PteWrite(PteFlags(e))
    ensures PteExec(e) == PteExec(PteFlags(e)) && PteUser(e) == PteUser(PteFlags(e))
  {
    var q, f := e / 1024, e % 1024;
    ReadWriteBits(q, f);
    ExecUserBits(q, f);
  }

  lemma ReadWriteBits(q: nat, f: nat)
    ensures (1024 * q + f) / 2 % 2 == f / 2 % 2 && (1024 * q + f) / 4 % 2 == f / 4 % 2
  {
    assert (1024 * q + f) / 2 == 2 * (256 * q) + f / 2 && (1024 * q + f) / 4 == 2 * (128 * q) + f / 4;
    Even(256 * q, f / 2);
    Even(128 * q, f / 4);
  }

  lemma ExecUserBits(q: nat, f: nat)
    ensures (1024 * q + f) / 8 % 2 == f / 8 % 2 && (1024 * q + f) / 16 % 2 == f / 16 % 2
  {
    assert (1024 * q + f) / 8 == 2 * (64 * q) + f / 8 && (1024 * q + f) / 16 == 2 * (32 * q) + f / 16;
    Even(64 * q, f / 8);
    Even(32 * q, f / 16);
  }

  lemma Even(h: nat, x: nat)
    ensures (2 * h + x) % 2 == x % 2
  {}

  lemma Shifted2(k: nat, r: nat)
    requires r < 2
    ensures (2 * k + r) % 2 == r
  {}

  lemma Shifted16(k: nat, r: nat)
    requires r < 16
    ensures (16 * k + r) / 16 == k && (16 * k + r) % 16 == r
  {}

  lemma Shifted1024(k: nat, r: nat)
    requires r < 1024
    ensures (1024 * k + r) / 1024 == k && (1024 * k + r) % 1024 == r
  {}

  lemma Shifted4096(k: nat, r: nat)
    requires r < 4096
    ensures (4096 * k + r) / 4096 == k
  {}

  function MakePte(ppn: nat, flags: nat): nat { ppn * 1024 + flags }

  /** The 64-bit word in slot i of physical page p. */
  function Entry(ram: Ram, p: nat, i: nat): nat
    requires i < SLOTS
  {
    if p in ram then Word(ram[p], i) else 0
  }

  function SetEntry(ram: Ram, p: nat, i: nat, e: nat): Ram
    requires p in ram && i < SLOTS
  {
    ram[p := SetWord(ram[p], i, e)]
  }

  // ---------------------------------------------------------- translation

  /** The leaf entry that the hardware reaches for virtual page v from the table
      at root; 0 when a directory on the way is absent. */
  function HwPte(ram: Ram, root: nat, v: nat): nat {
    var e2 := Entry(ram, root, v / 0x4_0000 % 512);
    if !PteValid(e2) then 0 else
    var e1 := Entry(ram, PtePpn(e2), v / 512 % 512);
    if !PteValid(e1) then 0 else
    Entry(ram, PtePpn(e1), v % 512)
  }

  /** Translations outside [lo, hi) are the same in both snapshots. */
  ghost predicate SameOutside(ram: Ram, ram': Ram, root: nat, lo: nat, hi: nat) {
    forall w: nat :: w < VPNS && !(lo <= w < hi) ==> HwPte(ram', root, w) == HwPte(ram, root, w)
  }

  /** [lo, hi) was unmapped and now maps consecutive pages from h on. */
  ghost predicate FilledBy(ram: Ram, ram': Ram, root: nat, lo: nat, hi: nat, h: nat, flags: nat) {
    forall w: nat :: lo <= w < hi ==>
      !PteValid(HwPte(ram, root, w)) && HwPte(ram', root, w) == MakePte(h + w - lo, flags)
  }

  /** [lo, hi) was mapped and is unmapped now. */
  ghost predicate Cleared(ram: Ram, ram': Ram, root: nat, lo: nat, hi: nat) {
    forall w: nat :: lo <= w < hi ==> PteValid(HwPte(ram, root, w)) && HwPte(ram', root, w) == 0
  }

  lemma SameRefl(ram: Ram, root: nat, lo: nat)
    ensures SameOutside(ram, ram, root, lo, lo)
    ensures forall h, flags :: FilledBy(ram, ram, root, lo, lo, h, flags)
    ensures Cleared(ram, ram, root, lo, lo)
  {}

  lemma SameTrans(ram0: Ram, ram1: Ram, ram2: Ram, root: nat, lo: nat, hi: nat)
    requires SameOutside(ram0, ram1, root, lo, hi) && SameOutside(ram1, ram2, root, lo, hi)
    ensures SameOutside(ram0, ram2, root, lo, hi)
  {}

  lemma FillNext(ram0: Ram, ram1: Ram, ram2: Ram, root: nat, lo: nat, mid: nat, hi: nat, h: nat, flags: nat)
    requires lo <= mid <= hi <= VPNS
    requires SameOutside(ram0, ram1, root, lo, mid) && FilledBy(ram0, ram1, root, lo, mid, h, flags)
    requires SameOutside(ram1, ram2, root, mid, hi) && FilledBy(ram1, ram2, root, mid, hi, h + mid - lo, flags)
    ensures SameOutside(ram0, ram2, root, lo, hi) && FilledBy(ram0, ram2, root, lo, hi, h, flags)
  {
    forall w: nat | lo <= w < hi
      ensures !PteValid(HwPte(ram0, root, w)) && HwPte(ram2, root, w) == MakePte(h + w - lo, flags)
    {
      if w < mid { assert HwPte(ram2, root, w) == HwPte(ram1, root, w); }
      else { assert HwPte(ram1, root, w) == HwPte(ram0, root, w); }
    }
  }

  lemma ClearNext(ram0: Ram, ram1: Ram, ram2: Ram, root: nat, lo: nat, mid: nat, hi: nat)
    requires lo <= mid <= hi <= VPNS
    requires SameOutside(ram0, ram1, root, lo, mid) && Cleared(ram0, ram1, root, lo, mid)
    requires SameOutside(ram1, ram2, root, mid, hi) && Cleared(ram1, ram2, root, mid, hi)
    ensures SameOutside(ram0, ram2, root, lo, hi) && Cleared(ram0, ram2, root, lo, hi)
  {
    forall w: nat | lo <= w < hi
      ensures PteValid(HwPte(ram0, root, w)) && HwPte(ram2, root, w) == 0
    {
      if w < mid { assert HwPte(ram2, root, w) == HwPte(ram1, root, w); }
      else { assert HwPte(ram1, root, w) == HwPte(ram0, root, w); }
    }
  }

  /** Both directories on the way to v exist, so a walk need not allocate. */
  predicate DirsPresent(ram: Ram, root: nat, v: nat) {
    var e2 := Entry(ram, root, v / 0x4_0000 % 512);
    PteValid(e2) && PteValid(Entry(ram, PtePpn(e2), v / 512 % 512))
  }

  /** The byte that user mode reads at virtual address va, if va is mapped for it. */
  function UserByte(ram: Ram, root: nat, va: nat): Wrap<byte> {
    var e := HwPte(ram, root, va / PAGE_SIZE);
    if PteValid(e) && PteUser(e) && PtePpn(e) in ram
    then Just(ram[PtePpn(e)][va % PAGE_SIZE]) else Nothing
  }

  // ----------------------------------------------------------------- trees

  /** Where a table page sits: level 2 is the root, level 0 holds leaves; prefix
      is the part of the virtual page number fixed above this table. */
  datatype Pos = Pos(level: nat, prefix: nat)

  type Tables = map<Pos, nat>

  const ROOT := Pos(2, 0)

  function Child(q: Pos, i: nat): Pos
    requires q.level > 0
  {
    Pos(q.level - 1, q.prefix * 512 + i)
  }

  function Parent(q: Pos): Pos {
    Pos(q.level + 1, q.prefix / 512)
  }

  predicate InRange(q: Pos) {
    || (q.level == 2 && q.prefix == 0)
    || (q.level == 1 && q.prefix < 512)
    || (q.level == 0 && q.prefix < 0x4_0000)
  }

  predicate DirSlot(ram: Ram, tables: Tables, q: Pos, i: nat)
    requires q in tables && q.level > 0 && i < SLOTS
  {
    Entry(ram, tables[q], i) ==
    if Child(q, i) in tables then MakePte(tables[Child(q, i)], PTE_V) else 0
  }

  predicate LeafEntry(e: nat) {
    e == 0 || (PteValid(e) && !PteIsDir(e))
  }

  /** No physical page holds two tables. */
  ghost predicate NoSharing(tables: Tables) {
    forall q, r :: q in tables && r in tables && tables[q] == tables[r] ==> q == r
  }

  ghost predicate Placed(ram: Ram, tables: Tables) {
    && (forall q :: q in tables ==> InRange(q) && tables[q] in ram && tables[q] < PPNS)
    && (forall q :: q in tables && q.level < 2 ==> Parent(q) in tables)
  }

  /** RAM holds exactly the tree whose table pages are listed in tables. */
  ghost predicate Tree(ram: Ram, root: nat, tables: Tables) {
    && ROOT in tables && tables[ROOT] == root
    && Placed(ram, tables)
    && NoSharing(tables)
    && (forall q, i :: q in tables && q.level > 0 && 0 <= i < SLOTS ==> DirSlot(ram, tables, q, i))
    && (forall q, i :: q in tables && q.level == 0 && 0 <= i < SLOTS ==> LeafEntry(Entry(ram, tables[q], i)))
  }

  /** The leaf entry of v, read through the list of table pages. */
  function PteOf(ram: Ram, tables: Tables, v: nat): nat {
    if Pos(0, v / 512) in tables then Entry(ram, tables[Pos(0, v / 512)], v % 512) else 0
  }

  lemma DirPteFacts(p: nat)
    ensures PteValid(MakePte(p, PTE_V)) && PtePpn(MakePte(p, PTE_V)) == p
    ensures p < PPNS ==> MakePte(p, PTE_V) < 0x1_0000_0000_0000_0000
  {}

  lemma VpnIndices(v: nat)
    requires v < VPNS
    ensures v / 0x4_0000 < 512 && v / 0x4_0000 % 512 == v / 0x4_0000
    ensures v / 512 / 512 == v / 0x4_0000
    ensures v / 0x4_0000 * 512 + v / 512 % 512 == v / 512
  {}

  /** The hardware walk and the tree agree: what is translated is what the leaf
      tables hold, and a directory is missing exactly when no leaf table covers v. */
  lemma HardwareSeesTree(ram: Ram, root: nat, tables: Tables, v: nat)
    requires Tree(ram, root, tables) && v < VPNS
    ensures HwPte(ram, root, v) == PteOf(ram, tables, v)
    ensures DirsPresent(ram, root, v) <==> Pos(0, v / 512) in tables
  {
    var i2, i1 := v / 0x4_0000, v / 512 % 512;
    VpnIndices(v);
    assert DirSlot(ram, tables, ROOT, i2);
    var q1 := Child(ROOT, i2);
    assert q1 == Pos(1, i2);
    if q1 in tables {
      DirPteFacts(tables[q1]);
      assert DirSlot(ram, tables, q1, i1);
      assert Child(q1, i1) == Pos(0, v / 512);
      if Pos(0, v / 512) in tables {
        DirPteFacts(tables[Pos(0, v / 512)]);
      }
    } else {
      assert Parent(Pos(0, v / 512)) == q1;
    }
  }

  /** Distinct virtual pages use distinct slots. */
  lemma SlotsAreDistinct(ram: Ram, root: nat, tables: Tables, v: nat, w: nat)
    requires Tree(ram, root, tables) && v < VPNS && w < VPNS
    requires Pos(0, v / 512) in tables && Pos(0, w / 512) in tables
    ensures tables[Pos(0, v / 512)] == tables[Pos(0, w / 512)] && v % 512 == w % 512 <==> v == w
  {
    if tables[Pos(0, v / 512)] == tables[Pos(0, w / 512)] {
      assert Pos(0, v / 512) == Pos(0, w / 512);
    }
  }

  /** Trees depend on their own table pages only. */
  lemma TreeFrame(ram: Ram, ram': Ram, root: nat, tables: Tables)
    requires Tree(ram, root, tables)
    requires forall q :: q in tables ==> tables[q] in ram' && ram'[tables[q]] == ram[tables[q]]
    ensures Tree(ram', root, tables)
    ensures forall v: nat :: PteOf(ram', tables, v) == PteOf(ram, tables, v)
  {
    assert Placed(ram', tables);
    forall q, i | q in tables && 0 <= i < SLOTS
      ensures Entry(ram', tables[q], i) == Entry(ram, tables[q], i)
    {
    }
    forall q, i | q in tables && q.level > 0 && 0 <= i < SLOTS
      ensures DirSlot(ram', tables, q, i)
    {
      assert DirSlot(ram, tables, q, i);
    }
  }

  lemma EntryOfSetEntry(ram: Ram, p: nat, i: nat, e: nat, r: nat, j: nat)
    requires p in ram && i < SLOTS && j < SLOTS && e < 0x1_0000_0000_0000_0000
    ensures Entry(SetEntry(ram, p, i, e), r, j) == if r == p && i == j then e else Entry(ram, r, j)
  {
    if r == p { WordOfSetWord(ram[p], i, e, j); }
  }

  /** RAM after a fresh table on page p is hung below slot i of q. */
  function Linked(ram: Ram, tables: Tables, q: Pos, i: nat, p: nat): Ram
    requires q in tables && tables[q] in ram && i < SLOTS
  {
    SetEntry(ram[p := ZeroPage()], tables[q], i, MakePte(p, PTE_V))
  }

  /** Its entries, slot by slot. */
  lemma {:induction false} LinkSlots(ram: Ram, root: nat, tables: Tables, q: Pos, i: nat, p: nat)
    requires Tree(ram, root, tables)
    requires q in tables && q.level > 0 && i < SLOTS
    requires p in ram && p < PPNS && p !in tables.Values
    ensures var ram' := Linked(ram, tables, q, i, p);
            && (forall j :: 0 <= j < SLOTS ==> Entry(ram', p, j) == 0)
            && (forall r, j :: r in tables && 0 <= j < SLOTS ==>
                  Entry(ram', tables[r], j) ==
                  if r == q && j == i then MakePte(p, PTE_V) else Entry(ram, tables[r], j))
  {
    var mid := ram[p := ZeroPage()];
    assert tables[q] in tables.Values;
    DirPteFacts(p);
    var ram' := Linked(ram, tables, q, i, p);
    forall j | 0 <= j < SLOTS ensures Entry(ram', p, j) == 0
    {
      EntryOfSetEntry(mid, tables[q], i, MakePte(p, PTE_V), p, j);
      WordOfZeroPage(j);
    }
    forall r, j | r in tables && 0 <= j < SLOTS
      ensures Entry(ram', tables[r], j) ==
              if r == q && j == i then MakePte(p, PTE_V) else Entry(ram, tables[r], j)
    {
      assert tables[r] in tables.Values;
      EntryOfSetEntry(mid, tables[q], i, MakePte(p, PTE_V), tables[r], j);
    }
  }

  lemma {:induction false} LinkShape(ram: Ram, root: nat, tables: Tables, q: Pos, i: nat, p: nat)
    requires Tree(ram, root, tables)
    requires q in tables && q.level > 0 && i < SLOTS && Child(q, i) !in tables
    requires p in ram && p < PPNS && p !in tables.Values
    ensures var ram', tables' := Linked(ram, tables, q, i, p), tables[Child(q, i) := p];
            Placed(ram', tables') && NoSharing(tables')
  {
    var c := Child(q, i);
    var tables' := tables[c := p];
    assert InRange(c) && Parent(c) == q;
    forall r, s | r in tables' && s in tables' && tables'[r] == tables'[s]
      ensures r == s
    {
      if r in tables { assert tables[r] in tables.Values; }
      if s in tables { assert tables[s] in tables.Values; }
    }
  }

  lemma {:induction false} LinkDir(ram: Ram, root: nat, tables: Tables, q: Pos, i: nat, p: nat, r: Pos, j: nat)
    requires Tree(ram, root, tables)
    requires q in tables && q.level > 0 && i < SLOTS && Child(q, i) !in tables
    requires p in ram && p < PPNS && p !in tables.Values
    requires r in tables[Child(q, i) := p] && r.level > 0 && j < SLOTS
    ensures DirSlot(Linked(ram, tables, q, i, p), tables[Child(q, i) := p], r, j)
  {
    var c := Child(q, i);
    LinkSlots(ram, root, tables, q, i, p);
    if r != c {
      assert DirSlot(ram, tables, r, j);
      assert Parent(Child(r, j)) == r && Parent(c) == q;
      assert Child(r, j).prefix % 512 == j && c.prefix % 512 == i;
    } else {
      assert Parent(Child(c, j)) == c;
      assert Child(c, j) !in tables;
      assert Child(c, j) != c;
    }
  }

  /** Hanging an empty table below a vacant directory slot keeps the tree and
      changes no translation. */
  lemma {:induction false} LinkTable(ram: Ram, root: nat, tables: Tables, q: Pos, i: nat, p: nat)
    requires Tree(ram, root, tables)
    requires q in tables && q.level > 0 && i < SLOTS && Child(q, i) !in tables
    requires p in ram && p < PPNS && p !in tables.Values
    ensures var ram', tables' := Linked(ram, tables, q, i, p), tables[Child(q, i) := p];
            && Tree(ram', root, tables')
            && (forall v: nat :: v < VPNS ==> PteOf(ram', tables', v) == PteOf(ram, tables, v))
  {
    var ram', tables' := Linked(ram, tables, q, i, p), tables[Child(q, i) := p];
    LinkShape(ram, root, tables, q, i, p);
    forall r, j | r in tables' && r.level > 0 && 0 <= j < SLOTS
      ensures DirSlot(ram', tables', r, j)
    {
      LinkDir(ram, root, tables, q, i, p, r, j);
    }
    LinkSlots(ram, root, tables, q, i, p);
  }

  /** Writing one leaf slot keeps the tree and changes that translation alone. */
  lemma {:induction false} WriteLeaf(ram: Ram, root: nat, tables: Tables, v: nat, e: nat)
    requires Tree(ram, root, tables) && v < VPNS
    requires Pos(0, v / 512) in tables
    requires LeafEntry(e) && e < 0x1_0000_0000_0000_0000
    ensures var ram' := SetEntry(ram, tables[Pos(0, v / 512)], v % 512, e);
            && Tree(ram', root, tables)
            && (forall w: nat :: w < VPNS ==> PteOf(ram', tables, w) == if w == v then e else PteOf(ram, tables, w))
  {
    var q := Pos(0, v / 512);
    var ram' := SetEntry(ram, tables[q], v % 512, e);
    forall r, j | r in tables && 0 <= j < SLOTS
      ensures Entry(ram', tables[r], j) == if r == q && j == v % 512 then e else Entry(ram, tables[r], j)
    {
      EntryOfSetEntry(ram, tables[q], v % 512, e, tables[r], j);
    }
    assert Placed(ram', tables);
    forall r, j | r in tables && r.level > 0 && 0 <= j < SLOTS
      ensures DirSlot(ram', tables, r, j)
    {
      assert DirSlot(ram, tables, r, j);
    }
    forall w: nat | w < VPNS
      ensures PteOf(ram', tables, w) == if w == v then e else PteOf(ram, tables, w)
    {
    }
  }
}
