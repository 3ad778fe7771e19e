/** The console line discipline: typed characters, editing, and the bytes that readers get. */
module Console {
  import opened Arith
  import opened Bytes
  import opened Wrappers

  const INPUT_BUF: nat := 128
  const WORD: nat := 0x1_0000_0000
  const NEWLINE: int := 10
  const RETURN: int := 13
  const KILL: int := 21       // control-U
  const BACKSPACE: int := 8   // control-H
  const DELETE: int := 127
  const EOF: int := 4         // control-D

  // ------------------------------------------------------ edit-line reference

  /** stream is all input committed so far, read how much of it readers have taken, line what is
      still being edited. */
  datatype Edit = Edit(stream: seq<byte>, read: nat, line: seq<byte>)

  predicate EditOk(s: Edit) {
    && s.read <= |s.stream|
    && (forall b :: b in s.line ==> b != NEWLINE && b != EOF)
    && |s.stream| - s.read + |s.line| <= INPUT_BUF
    && (|s.stream| - s.read + |s.line| == INPUT_BUF ==> s.line == [])
  }

  /** The character that is stored for c, if any. On the board, enter sends a newline and a return. */
  function Stored(c: int, qemu: bool): Wrap<int> {
    if c == 0 || (c == RETURN && !qemu) then Nothing else Just(if c == RETURN then NEWLINE else c)
  }

  /** One typed character. */
  function Typed(s: Edit, c: int, qemu: bool): Edit
    requires s.read <= |s.stream|
  {
    if c == KILL then s.(line := [])
    else if c == BACKSPACE || c == DELETE then (if s.line == [] then s else s.(line := s.line[..|s.line| - 1]))
    else if Stored(c, qemu).Nothing? || |s.stream| - s.read + |s.line| >= INPUT_BUF then s
    else
      var d := Stored(c, qemu).value;
      var line := s.line + [d % 256];
      if d == NEWLINE || d == EOF || |s.stream| - s.read + |line| == INPUT_BUF
      then Edit(s.stream + line, s.read, []) else s.(line := line)
  }

  /** Uncommitted input never contains a newline, and a full buffer is always committed. */
  lemma TypedOk(s: Edit, c: int, qemu: bool)
    requires EditOk(s) && -1 <= c < 256
    ensures EditOk(Typed(s, c, qemu))
    ensures s.stream <= Typed(s, c, qemu).stream && Typed(s, c, qemu).read == s.read
  {
    var t := Typed(s, c, qemu);
    forall b | b in t.line ensures b != NEWLINE && b != EOF {
      assert b in s.line || (Stored(c, qemu).Just? && b == Stored(c, qemu).value % 256);
    }
  }

  /** A character without a meaning of its own to the line discipline. */
  predicate Plain(c: int) {
    0 < c < 256 && c !in {NEWLINE, RETURN, KILL, BACKSPACE, DELETE, EOF}
  }

  /** How the line ends: on qemu RETURN counts as a newline, on the board it is dropped, and both a newline and control-D
      commit the line together with themselves. NUL, and anything that finds the buffer full, is dropped. */
  lemma LineEnds(s: Edit)
    requires EditOk(s)
    ensures |s.stream| - s.read + |s.line| < INPUT_BUF ==>
              && Typed(s, RETURN, true) == Edit(s.stream + s.line + [NEWLINE], s.read, [])
              && (forall qemu :: Typed(s, NEWLINE, qemu) == Edit(s.stream + s.line + [NEWLINE], s.read, []))
              && (forall qemu :: Typed(s, EOF, qemu) == Edit(s.stream + s.line + [EOF], s.read, []))
    ensures Typed(s, RETURN, false) == s
    ensures forall qemu :: Typed(s, 0, qemu) == s
    ensures |s.stream| - s.read + |s.line| == INPUT_BUF ==>
              forall c, qemu :: Plain(c) || c in {NEWLINE, RETURN, EOF} ==> Typed(s, c, qemu) == s
  {
    forall d: byte ensures s.stream + (s.line + [d]) == s.stream + s.line + [d] {}
  }

  // ---------------------------------------------------------------- the ring

  function Wrap32(x: int): nat { x % WORD }

  /** Indices that count modulo 2^32 still differ by their true distance. */
  lemma Distance(a: nat, b: nat)
    requires b <= a <= b + INPUT_BUF
    ensures Wrap32(Wrap32(a) - Wrap32(b)) == a - b
    ensures Wrap32(a) == Wrap32(b) <==> a == b
    ensures Wrap32(a) == Wrap32(Wrap32(b) + INPUT_BUF) <==> a == b + INPUT_BUF
  {
    ModDiff(a, b, WORD);
    ModSmaller(a - b, WORD);
    var c := b + INPUT_BUF;
    ModAdd(b, INPUT_BUF, WORD);
    ModDiff(c, a, WORD);
    ModSmaller(c - a, WORD);
  }

  lemma Slots(a: nat)
    ensures Wrap32(a) % INPUT_BUF == a % INPUT_BUF
    ensures Wrap32(Wrap32(a) + 1) == Wrap32(a + 1)
    ensures a > 0 ==> Wrap32(Wrap32(a) - 1) == Wrap32(a - 1)
  {
    ModAdd(a, 1, WORD);
    if a > 0 { ModDiff(a, 1, WORD); }
    var q, r := a / WORD, a % WORD;
    DivModUnique(a, INPUT_BUF, 0x200_0000 * q + r / INPUT_BUF, r % INPUT_BUF);
  }

  lemma DistinctSlots(a: nat, b: nat)
    requires a < b < a + INPUT_BUF
    ensures a % INPUT_BUF != b % INPUT_BUF
  {}

  /** The ring holds the unread part of the stream and the line, with r, w and e at its borders. */
  ghost predicate Holds(buf: seq<byte>, r: nat, w: nat, e: nat, s: Edit) {
    && |buf| == INPUT_BUF && EditOk(s)
    && r == Wrap32(s.read) && w == Wrap32(|s.stream|) && e == Wrap32(|s.stream| + |s.line|)
    && forall k: nat :: s.read <= k < |s.stream| + |s.line| ==> buf[k % INPUT_BUF] == (s.stream + s.line)[k]
  }

  /** Dropping the last character of the line is moving e back. */
  lemma Erase(buf: seq<byte>, r: nat, w: nat, e: nat, s: Edit)
    requires Holds(buf, r, w, e, s)
    ensures e != w <==> s.line != []
    ensures s.line != [] ==> Holds(buf, r, w, Wrap32(e - 1), s.(line := s.line[..|s.line| - 1]))
    ensures s.line != [] ==> buf[Wrap32(e - 1) % INPUT_BUF] != NEWLINE
  {
    hide Wrap32;
    var n := |s.stream| + |s.line|;
    Distance(n, |s.stream|);
    if s.line != [] {
      Slots(n);
      Slots(n - 1);
      var t := s.(line := s.line[..|s.line| - 1]);
      assert (s.stream + s.line)[n - 1] == s.line[|s.line| - 1];
      assert s.line[|s.line| - 1] in s.line;
      assert EditOk(t) by {
        assert forall b :: b in t.line ==> b in s.line;
      }
      assert forall k: nat :: s.read <= k < n - 1 ==> (t.stream + t.line)[k] == (s.stream + s.line)[k];
    }
  }

  /** Storing d at e. */
  lemma Append(buf: seq<byte>, r: nat, w: nat, e: nat, s: Edit, d: byte)
    requires Holds(buf, r, w, e, s) && |s.stream| - s.read + |s.line| < INPUT_BUF
    ensures Wrap32(e - r) < INPUT_BUF
    ensures forall k: nat :: s.read <= k < |s.stream| + |s.line| + 1 ==>
              buf[e % INPUT_BUF := d][k % INPUT_BUF] == (s.stream + (s.line + [d]))[k]
    ensures Wrap32(e + 1) == Wrap32(|s.stream| + |s.line| + 1)
    ensures Wrap32(e + 1) == Wrap32(r + INPUT_BUF) <==> |s.stream| - s.read + |s.line| + 1 == INPUT_BUF
  {
    hide Wrap32;
    var n := |s.stream| + |s.line|;
    Distance(n, s.read);
    Distance(n + 1, s.read);
    Slots(n);
    forall k: nat | s.read <= k < n + 1 ensures buf[e % INPUT_BUF := d][k % INPUT_BUF] == (s.stream + (s.line + [d]))[k] {
      if k < n {
        DistinctSlots(k, n);
        assert (s.stream + s.line)[k] == (s.stream + (s.line + [d]))[k];
      }
    }
  }

  lemma Full(buf: seq<byte>, r: nat, w: nat, e: nat, s: Edit)
    requires Holds(buf, r, w, e, s)
    ensures Wrap32(e - r) < INPUT_BUF <==> |s.stream| - s.read + |s.line| < INPUT_BUF
  {
    Distance(|s.stream| + |s.line|, s.read);
  }

  class UartConsole {
    const buf: array<byte>
    const qemu: bool
    var r: nat
    var w: nat
    var e: nat
    ghost var edit: Edit

    ghost predicate Valid()
      reads this, buf
    {
      buf.Length == INPUT_BUF && Holds(buf[..], r, w, e, edit)
    }

    constructor (qemu: bool)
      ensures Valid() && edit == Edit([], 0, []) && this.qemu == qemu && fresh(buf)
    {
      this.qemu := qemu;
      buf := new byte[INPUT_BUF](_ => 0);
      r, w, e := 0, 0, 0;
      edit := Edit([], 0, []);
    }

    /** control-U: erases back to the last newline, that is, the whole line. */
    method KillLine()
      requires Valid()
      modifies this`e, this`edit
      ensures Valid() && edit == old(edit).(line := [])
    {
      hide Holds;
      HoldsOk(buf[..], r, w, e, edit);
      Erase(buf[..], r, w, e, edit);
      while e != w && buf[Wrap32(e - 1) % INPUT_BUF] != NEWLINE
        invariant Valid() && edit == old(edit).(line := edit.line) && (e != w <==> edit.line != [])
        invariant edit.line != [] ==> buf[Wrap32(e - 1) % INPUT_BUF] != NEWLINE
        decreases |edit.line|
      {
        Erase(buf[..], r, w, e, edit);
        e := Wrap32(e - 1);
        edit := edit.(line := edit.line[..|edit.line| - 1]);
        Erase(buf[..], r, w, e, edit);
      }
    }

    /** The data path of handle_intr: sbi_console_getchar gave c (-1 when nothing was there). */
    method HandleIntr(c: int)
      requires Valid() && -1 <= c < 256
      modifies this, buf
      ensures Valid() && edit == Typed(old(edit), c, qemu)
    {
      hide Holds;
      HoldsOk(buf[..], r, w, e, edit);
      if c == KILL {
        KillLine();
      } else if c == BACKSPACE || c == DELETE {
        Erase(buf[..], r, w, e, edit);
        if e != w {
          e := Wrap32(e - 1);
          edit := edit.(line := edit.line[..|edit.line| - 1]);
        }
      } else {
        Full(buf[..], r, w, e, edit);
        if c != 0 && Wrap32(e - r) < INPUT_BUF {
          if !qemu && c == RETURN {
            return;
          }
          Store(if c == RETURN then NEWLINE else c, c);
        }
      }
    }

    /** The storing part of handle_intr. */
    method Store(d: int, ghost c: int)
      requires Valid() && Stored(c, qemu) == Just(d) && -1 <= c < 256 && c != KILL && c != BACKSPACE && c != DELETE
      requires |edit.stream| - edit.read + |edit.line| < INPUT_BUF
      modifies this`w, this`e, this`edit, buf
      ensures Valid() && edit == Typed(old(edit), c, qemu)
    {
      ghost var s, buf0 := edit, buf[..];
      var b: byte := d % 256;
      Append(buf0, r, w, e, s, b);
      TypedOk(s, c, qemu);
      buf[e % INPUT_BUF] := b;
      assert buf[..] == buf0[old(e) % INPUT_BUF := b];
      e := Wrap32(e + 1);
      edit := Typed(s, c, qemu);
      if d == NEWLINE || d == EOF || e == Wrap32(r + INPUT_BUF) {
        w := e;
        assert edit.stream + edit.line == s.stream + (s.line + [b]);
      } else {
        assert edit.stream + edit.line == s.stream + (s.line + [b]);
      }
    }

    /** The data path of get_char: the next committed byte, or Nothing. */
    method GetChar() returns (c: Wrap<byte>)
      requires Valid()
      modifies this`r, this`edit
      ensures Valid()
      ensures c.Nothing? <==> old(edit.read) == |old(edit.stream)|
      ensures c.Nothing? ==> edit == old(edit)
      ensures c.Just? ==> c.value == old(edit.stream)[old(edit.read)] && edit == old(edit).(read := old(edit.read) + 1)
    {
      hide Wrap32;
      Distance(|edit.stream|, edit.read);
      if r == w {
        return Nothing;
      }
      Slots(edit.read);
      c := Just(buf[r % INPUT_BUF]);
      assert (edit.stream + edit.line)[edit.read] == edit.stream[edit.read];
      r := Wrap32(r + 1);
      edit := edit.(read := edit.read + 1);
    }
  }

  // ------------------------------------------------------------- sessions

  /** What happens to a console: a character arrives, or a reader asks for one. */
  datatype Event = Key(c: int) | Ask

  function Happened(s: Edit, ev: Event, qemu: bool): Edit
    requires EditOk(s)
  {
    match ev
    case Key(c) => Typed(s, c, qemu)
    case Ask => if s.read < |s.stream| then s.(read := s.read + 1) else s
  }

  predicate EventOk(ev: Event) { ev.Key? ==> -1 <= ev.c < 256 }

  lemma HappenedOk(s: Edit, ev: Event, qemu: bool)
    requires EditOk(s) && EventOk(ev)
    ensures EditOk(Happened(s, ev, qemu)) && s.stream <= Happened(s, ev, qemu).stream
  {
    if ev.Key? { TypedOk(s, ev.c, qemu); }
  }

  /** The reference after any sequence of events. */
  function HappenedAll(s: Edit, evs: seq<Event>, qemu: bool): (t: Edit)
    requires EditOk(s) && forall i :: 0 <= i < |evs| ==> EventOk(evs[i])
    ensures EditOk(t) && s.stream <= t.stream
    decreases |evs|
  {
    if evs == [] then s
    else
      var t := HappenedAll(s, evs[..|evs| - 1], qemu);
      HappenedOk(t, evs[|evs| - 1], qemu);
      Happened(t, evs[|evs| - 1], qemu)
  }

  /** The keys of a text. */
  function Keys(text: seq<byte>): seq<Event> {
    seq(|text|, i requires 0 <= i < |text| => Key(text[i]))
  }

  predicate PlainText(text: seq<byte>) {
    forall i :: 0 <= i < |text| ==> Plain(text[i])
  }

  /** Plain characters pile up on the line in order, as long as the buffer does not fill. */
  lemma {:induction false} TypedText(s: Edit, text: seq<byte>, qemu: bool)
    requires EditOk(s) && PlainText(text) && |s.stream| - s.read + |s.line| + |text| < INPUT_BUF
    ensures HappenedAll(s, Keys(text), qemu) == s.(line := s.line + text)
    decreases |text|
  {
    if text == [] {
      assert s.line + text == s.line;
    } else {
      var n := |text| - 1;
      assert Keys(text)[..n] == Keys(text[..n]);
      TypedText(s, text[..n], qemu);
      assert s.line + text == s.line + text[..n] + [text[n]];
    }
  }

  lemma KillEmpties(s: Edit, qemu: bool)
    requires s.read <= |s.stream|
    ensures Typed(s, KILL, qemu) == s.(line := [])
  {}

  /** A line typed, taken back as a whole, typed anew and ended reaches readers as typed the second time. */
  lemma TypedLine(s: Edit, slip: seq<byte>, text: seq<byte>)
    requires EditOk(s) && PlainText(slip) && PlainText(text)
    requires |s.stream| - s.read + |s.line| + |slip| < INPUT_BUF && |s.stream| - s.read + |text| < INPUT_BUF
    ensures HappenedAll(HappenedAll(s, Keys(slip) + [Key(KILL)], true), Keys(text) + [Key(RETURN)], true) ==
            Edit(s.stream + text + [NEWLINE], s.read, [])
  {
    hide Typed;
    var t := s.(line := []);
    assert (Keys(slip) + [Key(KILL)])[..|slip|] == Keys(slip) && (Keys(text) + [Key(RETURN)])[..|text|] == Keys(text);
    TypedText(s, slip, true);
    KillEmpties(s.(line := s.line + slip), true);
    TypedText(t, text, true);
    assert t.line + text == text;
    LineEnds(t.(line := text));
  }

  /** Over any session, across any number of index wraps, readers get exactly the committed input, in order. */
  method Session(con: UartConsole, evs: seq<Event>) returns (got: seq<byte>)
    requires con.Valid() && forall i :: 0 <= i < |evs| ==> EventOk(evs[i])
    modifies con, con.buf
    ensures con.Valid() && con.edit == HappenedAll(old(con.edit), evs, con.qemu)
    ensures old(con.edit.read) + |got| == con.edit.read && got == con.edit.stream[old(con.edit.read)..con.edit.read]
  {
    hide Holds, Typed;
    got := [];
    ghost var s := con.edit;
    HoldsOk(con.buf[..], con.r, con.w, con.e, con.edit);
    assert evs[..0] == [];
    for i := 0 to |evs|
      invariant con.Valid() && EditOk(con.edit) && con.edit == HappenedAll(s, evs[..i], con.qemu)
      invariant s.read + |got| == con.edit.read && got == con.edit.stream[s.read..con.edit.read]
    {
      ghost var t := con.edit;
      HappenedOk(t, evs[i], con.qemu);
      assert evs[..i + 1][..i] == evs[..i];
      match evs[i]
      case Key(c) =>
        TypedOk(t, c, con.qemu);
        con.HandleIntr(c);
        SamePrefix(t.stream, con.edit.stream, s.read, t.read);
      case Ask =>
        var c := con.GetChar();
        if c.Just? {
          got := got + [c.value];
          assert t.stream[s.read..t.read] + [t.stream[t.read]] == t.stream[s.read..t.read + 1];
        }
    }
    assert evs[..|evs|] == evs;
  }

  lemma SamePrefix(a: seq<byte>, b: seq<byte>, i: nat, j: nat)
    requires a <= b && i <= j <= |a|
    ensures a[i..j] == b[i..j]
  {}

  /** Backspace takes back a character that was stored and not committed. */
  lemma BackspaceUndoes(s: Edit, c: int, qemu: bool)
    requires EditOk(s) && 0 < c < 256 && |s.stream| - s.read + |s.line| + 1 < INPUT_BUF
    requires c != KILL && c != BACKSPACE && c != DELETE && c != NEWLINE && c != RETURN && c != EOF
    ensures Typed(Typed(s, c, qemu), BACKSPACE, qemu) == s
  {
    assert (s.line + [c])[..|s.line|] == s.line;
  }

  lemma HoldsOk(buf: seq<byte>, r: nat, w: nat, e: nat, s: Edit)
    requires Holds(buf, r, w, e, s)
    ensures EditOk(s)
  {}
}
