/** The airbin image: the map of register writes, and the sections it is grouped into. */
module Airbin {
  import opened Options
  import opened Indexing
  import opened Bits

  // ----- addresses

  const OFFSETS: int := 0x4_0000
  const FIRST: int := 0x80_0000
  const LONGS: int := 0x1_0000_0000_0000_0000

  /** A tile of the array; the fields are as wide as in the hardware address. */
  datatype TileFields = TileAddress(arrayOffset: nat, column: nat, row: nat)

  type TileAddress = t: TileFields | t.arrayOffset < 0x4_0000_0000 && t.column < 128 && t.row < 32
    witness TileAddress(0, 0, 0)

  function NewTile(column: nat, row: nat, arrayOffset: nat): TileAddress {
    TileAddress(arrayOffset % 0x4_0000_0000, column % 128, row % 32)
  }

  function FullAddress(t: TileAddress, offset: nat): nat {
    Or(Or(Or(t.arrayOffset * 0x4000_0000, t.column * 0x80_0000), t.row * 0x4_0000), offset)
  }

  datatype Address = Address(tile: TileAddress, offset: Offset)

  type Offset = n: nat | n < OFFSETS

  /** The offset keeps eighteen bits. */
  function NewAddress(tile: TileAddress, offset: nat): Address { Address(tile, offset % OFFSETS) }

  function Location(a: Address): nat { FullAddress(a.tile, a.offset) }

  lemma AddressPowers()
    ensures IsPower(0x4_0000) && IsPower(0x80_0000) && IsPower(0x4000_0000)
  {
    Pow2Values();
    assert Pow2(18) == 0x4_0000 && Pow2(23) == 0x80_0000;
    assert Pow2(30) == 0x4000_0000 by { assert Pow2(26) == 0x400_0000; }
  }

  lemma AddressIsSum(a: Address)
    ensures Location(a)
      == a.tile.arrayOffset * 0x4000_0000 + a.tile.column * 0x80_0000 + a.tile.row * 0x4_0000 + a.offset
    ensures Location(a) < LONGS
  {
    hide Or, IsPower;
    AddressPowers();
    var t := a.tile;
    OrAdds(t.arrayOffset, t.column * 0x80_0000, 0x4000_0000);
    OrAdds(t.arrayOffset * 128 + t.column, t.row * 0x4_0000, 0x80_0000);
    OrAdds((t.arrayOffset * 128 + t.column) * 32 + t.row, a.offset, 0x4_0000);
  }

  /** The address of a location. */
  function AddressOf(n: nat): Address
    requires n < LONGS
  {
    Address(TileAddress(n / 0x4000_0000, n / 0x80_0000 % 128, n / 0x4_0000 % 32), n % 0x4_0000)
  }

  /** No two places of the array share a location: the address can be read back. */
  lemma LocationIsUnique(a: Address)
    ensures Location(a) < LONGS && AddressOf(Location(a)) == a
  {
    AddressIsSum(a);
    hide Location;
    var t, n := a.tile, Location(a);
    var h := t.arrayOffset * 128 + t.column;
    DivModUnique(n, 0x4000_0000, t.arrayOffset, t.column * 0x80_0000 + t.row * 0x4_0000 + a.offset);
    DivModUnique(n, 0x80_0000, h, t.row * 0x4_0000 + a.offset);
    DivModUnique(h, 128, t.arrayOffset, t.column);
    DivModUnique(n, 0x4_0000, h * 32 + t.row, a.offset);
    DivModUnique(h * 32 + t.row, 32, h, t.row);
  }

  // ----- writes

  type Write = (nat, Word)

  /** The map after some writes. */
  function Recorded(m: map<nat, Word>, ws: seq<Write>): map<nat, Word> {
    if ws == [] then m else Recorded(m, ws[..|ws| - 1])[ws[|ws| - 1].0 := ws[|ws| - 1].1]
  }

  /** The writes that clear the words from one offset up to another. */
  function ClearWrites(t: TileAddress, start: nat, end: nat): seq<Write>
    decreases end - start
  {
    if start >= end then [] else [(Location(NewAddress(t, start)), 0)] + ClearWrites(t, start + 4, end)
  }

  // ----- commands

  /** What a configuration does: single writes, and ranges cleared. */
  datatype Command = Put(address: Address, value: Word) | Clear(tile: TileAddress, start: Word, length: Word)

  function WritesOf(c: Command): seq<Write> {
    match c
    case Put(address, value) => [(Location(address), value)]
    case Clear(tile, start, length) => ClearWrites(tile, start, (start + length) % WORDS)
  }

  function ProgramWrites(cs: seq<Command>): seq<Write> {
    if cs == [] then [] else ProgramWrites(cs[..|cs| - 1]) + WritesOf(cs[|cs| - 1])
  }

  /** The command is not fatal: columns start at one, and ranges at a word. */
  predicate Accepts(c: Command) {
    match c
    case Put(address, _) => address.tile.column > 0
    case Clear(tile, start, length) => start % 4 == 0 && (start < (start + length) % WORDS ==> tile.column > 0)
  }

  /** The loop over a range comes to an end. */
  predicate Ends(c: Command) {
    c.Clear? && c.start % 4 == 0 ==> RangeEnds(c.start, (c.start + c.length) % WORDS)
  }

  predicate RangeEnds(start: Word, end: Word) { start < end ==> end <= WORDS - 4 }

  /** The offset after `k` iterations; it wraps around. */
  function OffsetAfter(start: Word, k: nat): Word {
    if k == 0 then start else (OffsetAfter(start, k - 1) + 4) % WORDS
  }

  lemma {:induction false} OffsetIs(start: Word, k: nat)
    requires start % 4 == 0
    ensures OffsetAfter(start, k) % 4 == 0
    ensures start + 4 * k < WORDS ==> OffsetAfter(start, k) == start + 4 * k
  {
    if k > 0 {
      OffsetIs(start, k - 1);
      var off: int := OffsetAfter(start, k - 1);
      if off + 4 == WORDS {
        assert OffsetAfter(start, k) == 0;
      } else {
        assert OffsetAfter(start, k) == off + 4;
      }
    }
  }

  /** The condition of the loop fails at some time exactly when the end comes first or is not in the last three
      bytes. */
  lemma RangeEndsIff(start: Word, end: Word)
    requires start % 4 == 0
    ensures (exists k: nat :: OffsetAfter(start, k) >= end) <==> RangeEnds(start, end)
  {
    hide OffsetAfter;
    if RangeEnds(start, end) {
      var k := if start >= end then 0 else (WORDS - 4 - start) / 4;
      OffsetIs(start, k);
    } else {
      forall k: nat ensures OffsetAfter(start, k) < end {
        OffsetIs(start, k);
      }
    }
  }

  /** Recording writes one after the other records all of them. */
  lemma {:induction false} RecordedJoins(m: map<nat, Word>, xs: seq<Write>, ys: seq<Write>)
    ensures Recorded(m, xs + ys) == Recorded(Recorded(m, xs), ys)
    decreases |ys|
  {
    if ys == [] {
      assert xs + ys == xs;
    } else {
      RecordedJoins(m, xs, ys[..|ys| - 1]);
      assert (xs + ys)[..|xs + ys| - 1] == xs + ys[..|ys| - 1];
    }
  }

  lemma ProgramNext(m: map<nat, Word>, cs: seq<Command>, n: nat)
    requires n < |cs|
    ensures Recorded(m, ProgramWrites(cs[..n + 1])) == Recorded(Recorded(m, ProgramWrites(cs[..n])), WritesOf(cs[n]))
  {
    assert cs[..n + 1][..n] == cs[..n];
    RecordedJoins(m, ProgramWrites(cs[..n]), WritesOf(cs[n]));
    hide Recorded, WritesOf;
  }

  lemma RecordedOne(m: map<nat, Word>, w: Write)
    ensures Recorded(m, [w]) == m[w.0 := w.1]
  {
    assert [w][..0] == [];
  }

  // ----- the object

  /** Every write recorded so far. */
  class MemWrites {
    var writes: map<nat, Word>

    /** No write has gone to column zero. */
    ghost predicate Valid()
      reads this
    {
      forall a <- writes :: FIRST <= a < LONGS
    }

    constructor ()
      ensures Valid() && writes == map[]
    {
      writes := map[];
    }

    /** Adds or replaces a value. Columns start at one: anything else is fatal. */
    method Write32(addr: Address, value: Word) returns (ok: bool)
      requires Valid()
      modifies this
      ensures Valid()
      ensures ok <==> addr.tile.column > 0
      ensures writes == if ok then old(writes)[Location(addr) := value] else old(writes)
    {
      if addr.tile.column <= 0 {
        return false;
      }
      AddressIsSum(addr);
      hide Location;
      writes := writes[Location(addr) := value];
      ok := true;
    }

    method Read32(addr: Address) returns (value: Word)
      ensures value == if Location(addr) in writes then writes[Location(addr)] else 0
    {
      value := if Location(addr) in writes then writes[Location(addr)] else 0;
    }

    /** Sets every word of the range to zero. The end wraps around; the requirement is that the loop ends. */
    method ClearRange(t: TileAddress, start: Word, length: Word) returns (ok: bool)
      requires Valid()
      requires start % 4 == 0 ==> RangeEnds(start, (start + length) % WORDS)
      modifies this
      ensures Valid()
      ensures ok <==> start % 4 == 0 && (start < (start + length) % WORDS ==> t.column > 0)
      ensures writes ==
        if ok then Recorded(old(writes), ClearWrites(t, start, (start + length) % WORDS)) else old(writes)
    {
      hide Location, Recorded, ClearWrites, Valid;
      if start % 4 != 0 {
        return false;
      }
      var end := (start + length) % WORDS;
      var off := start;
      ghost var all := ClearWrites(t, start, end);
      ghost var done: seq<Write> := [];
      RecordedStart(old(writes));
      while off < end
        invariant Valid() && off % 4 == 0 && start <= off && (off > start ==> t.column > 0)
        invariant off == start ==> done == []
        invariant all == done + ClearWrites(t, off, end)
        invariant writes == Recorded(old(writes), done)
        decreases end - off
      {
        ok := Write32(NewAddress(t, off), 0);
        if !ok {
          return;
        }
        done := ClearStep(old(writes), t, off, end, all, done);
        assert off + 4 < WORDS;
        off := (off + 4) % WORDS;
      }
      assert ClearWrites(t, off, end) == [] by { ClearNothing(t, off, end); }
      assert all == done;
      ok := true;
    }

    /** Carries out commands in order, up to the first fatal one. */
    method Execute(cs: seq<Command>) returns (n: nat)
      requires Valid() && forall c <- cs :: Ends(c)
      modifies this
      ensures Valid()
      ensures n <= |cs| && (forall c <- cs[..n] :: Accepts(c)) && (n < |cs| ==> !Accepts(cs[n]))
      ensures writes == Recorded(old(writes), ProgramWrites(cs[..n]))
    {
      hide Recorded, ProgramWrites, Location, ClearWrites, Valid;
      n := 0;
      NothingRecorded(old(writes), cs);
      while n < |cs|
        invariant n <= |cs| && Valid() && forall c <- cs[..n] :: Accepts(c)
        invariant writes == Recorded(old(writes), ProgramWrites(cs[..n]))
      {
        ProgramNext(old(writes), cs, n);
        assert Ends(cs[n]);
        var ok;
        match cs[n] {
          case Put(address, value) =>
            RecordedOne(writes, (Location(address), value));
            ok := Write32(address, value);
          case Clear(tile, start, length) =>
            ok := ClearRange(tile, start, length);
        }
        if !ok {
          return;
        }
        assert cs[..n + 1] == cs[..n] + [cs[n]];
        n := n + 1;
      }
    }

    /** Groups the writes into sections, in ascending order. Without any write, the one section is a null pointer. */
    method GroupSections() returns (sections: seq<Option<Section>>)
      requires Valid()
      ensures writes == map[] ==> sections == [None]
      ensures writes != map[] ==> exists ss :: sections == Pointers(ss) && Sectioned(writes, ss)
    {
      var lastAddr: nat := 0;
      var section: Option<Section> := None;
      ghost var ss: seq<Section> := [];
      var rest := writes.Keys;
      sections := [];
      PartialStart(writes);
      hide Partial, Sectioned, Pointers, Grown;
      while rest != {}
        invariant rest <= writes.Keys && (rest == writes.Keys <==> section.None?)
        invariant section.None? ==> sections == [] && ss == []
        invariant section.Some? ==> IsOpen(ss, section.value, sections)
        invariant Partial(writes, rest, ss, lastAddr)
        decreases rest
      {
        var a := Smallest(rest);
        PartialNext(writes, rest, ss, lastAddr, a);
        GrownIsOpen(ss, section, sections, lastAddr, a, writes[a]);
        if a != (lastAddr + 4) % LONGS {
          if section.Some? {
            sections := sections + [section];
          }
          section := Some(Section(a, []));
        }
        section := Some(Section(section.value.address, section.value.data + [writes[a]]));
        ss := Grown(ss, lastAddr, a, writes[a]);
        lastAddr := a;
        rest := rest - {a};
      }
      sections := sections + [section];
      if writes != map[] {
        AllPointers(ss);
        PartialDone(writes, ss, lastAddr);
      }
    }
  }

  /** The last section is still growing; the others are listed. */
  ghost predicate IsOpen(ss: seq<Section>, section: Section, sections: seq<Option<Section>>) {
    ss != [] && section == ss[|ss| - 1] && sections == Pointers(ss[..|ss| - 1])
  }

  lemma AllPointers(ss: seq<Section>)
    requires ss != []
    ensures Pointers(ss[..|ss| - 1]) + [Some(ss[|ss| - 1])] == Pointers(ss)
  {}

  lemma GrownIsOpen(ss: seq<Section>, section: Option<Section>, sections: seq<Option<Section>>, last: nat, a: nat,
                    v: Word)
    requires ss != [] || a != (last + 4) % LONGS
    requires if section.None? then sections == [] && ss == [] else IsOpen(ss, section.value, sections)
    ensures a != (last + 4) % LONGS ==>
      IsOpen(Grown(ss, last, a, v), Section(a, [] + [v]), if section.Some? then sections + [section] else sections)
    ensures a == (last + 4) % LONGS ==>
      && section.Some?
      && IsOpen(Grown(ss, last, a, v), Section(section.value.address, section.value.data + [v]), sections)
  {
    var grown := Grown(ss, last, a, v);
    assert [] + [v] == [v];
    if section.Some? {
      AllPointers(ss);
    }
    hide Pointers;
    if a != (last + 4) % LONGS {
      assert grown[..|grown| - 1] == ss;
    } else {
      assert grown[..|grown| - 1] == ss[..|ss| - 1];
    }
  }

  // ----- steps of the loops

  lemma NothingRecorded(m: map<nat, Word>, cs: seq<Command>)
    ensures Recorded(m, ProgramWrites(cs[..0])) == m
  {}

  lemma RecordedStart(m: map<nat, Word>)
    ensures Recorded(m, []) == m
  {}

  lemma ClearNothing(t: TileAddress, start: nat, end: nat)
    requires start >= end
    ensures ClearWrites(t, start, end) == []
  {}

  lemma ClearStep(m: map<nat, Word>, t: TileAddress, off: nat, end: nat, all: seq<Write>, done: seq<Write>)
    returns (done': seq<Write>)
    requires off < end && all == done + ClearWrites(t, off, end)
    ensures done' != [] && all == done' + ClearWrites(t, off + 4, end)
    ensures Recorded(m, done') == Recorded(m, done)[Location(NewAddress(t, off)) := 0]
  {
    hide Location;
    var w: Write := (Location(NewAddress(t, off)), 0);
    done' := done + [w];
    ClearFirst(t, off, end);
    RecordedLast(m, done, w);
    hide ClearWrites, Recorded;
    Associates(done, [w], ClearWrites(t, off + 4, end));
  }

  lemma ClearFirst(t: TileAddress, off: nat, end: nat)
    requires off < end
    ensures ClearWrites(t, off, end) == [(Location(NewAddress(t, off)), 0)] + ClearWrites(t, off + 4, end)
  {
    hide Location;
  }

  lemma RecordedLast(m: map<nat, Word>, done: seq<Write>, w: Write)
    ensures Recorded(m, done + [w]) == Recorded(m, done)[w.0 := w.1]
  {
    assert (done + [w])[..|done|] == done;
  }

  method Smallest(s: set<nat>) returns (a: nat)
    requires s != {}
    ensures a in s && forall b <- s :: a <= b
  {
    var rest := s;
    a :| a in rest;
    rest := rest - {a};
    while rest != {}
      invariant a in s && rest <= s
      invariant forall b <- s :: b in rest || a <= b
      decreases rest
    {
      var b :| b in rest;
      if b < a { a := b; }
      rest := rest - {b};
    }
  }

  // ----- sections

  datatype Section = Section(address: nat, data: seq<Word>)

  function Pointers(ss: seq<Section>): seq<Option<Section>> {
    seq(|ss|, i requires 0 <= i < |ss| => Some(ss[i]))
  }

  /** The writes a section stands for. */
  function Expand(s: Section): (ws: seq<Write>)
    ensures |ws| == |s.data|
  {
    seq(|s.data|, i requires 0 <= i < |s.data| => (s.address + 4 * i, s.data[i]))
  }

  function ExpandAll(ss: seq<Section>): seq<Write> {
    if ss == [] then [] else ExpandAll(ss[..|ss| - 1]) + Expand(ss[|ss| - 1])
  }

  function End(s: Section): nat { s.address + 4 * |s.data| }

  predicate Ascending(ws: seq<Write>) {
    forall i, j :: 0 <= i < j < |ws| ==> ws[i].0 < ws[j].0
  }

  predicate IsContent(m: map<nat, Word>, ws: seq<Write>) {
    && (forall w <- ws :: w.0 in m && m[w.0] == w.1)
    && (forall a <- m :: (a, m[a]) in ws)
  }

  /** Non-empty, as long as possible, in ascending order, and together exactly the map. */
  predicate Sectioned(m: map<nat, Word>, ss: seq<Section>) {
    && Tight(ss)
    && Ascending(ExpandAll(ss))
    && IsContent(m, ExpandAll(ss))
  }

  /** The sections of the writes below the ones that remain. */
  ghost predicate Partial(m: map<nat, Word>, rest: set<nat>, ss: seq<Section>, last: nat) {
    && rest <= m.Keys
    && (forall a <- m :: FIRST <= a < LONGS)
    && (ss == [] ==> last == 0)
    && (ss != [] ==> ss[|ss| - 1].data != [] && End(ss[|ss| - 1]) == last + 4)
    && (forall a <- rest :: last < a)
    && (forall w <- ExpandAll(ss) :: w.0 <= last)
    && Sectioned(m - rest, ss)
  }

  lemma PartialStart(m: map<nat, Word>)
    requires forall a <- m :: FIRST <= a < LONGS
    ensures Partial(m, m.Keys, [], 0)
  {}

  lemma PartialDone(m: map<nat, Word>, ss: seq<Section>, last: nat)
    requires Partial(m, {}, ss, last)
    ensures Sectioned(m, ss)
  {
    assert m - {} == m;
  }

  lemma ExpandAppends(ss: seq<Section>, s: Section, v: Word)
    ensures ExpandAll(ss + [Section(s.address, s.data + [v])]) == ExpandAll(ss + [s]) + [(End(s), v)]
  {
    var s' := Section(s.address, s.data + [v]);
    assert (ss + [s])[..|ss|] == ss && (ss + [s'])[..|ss|] == ss;
    assert Expand(s') == Expand(s) + [(End(s), v)];
  }

  function Grown(ss: seq<Section>, last: nat, a: nat, v: Word): seq<Section>
    requires ss != [] || a != (last + 4) % LONGS
  {
    if a != (last + 4) % LONGS then ss + [Section(a, [v])]
    else
      var s := ss[|ss| - 1];
      ss[..|ss| - 1] + [Section(s.address, s.data + [v])]
  }

  lemma GrownExpands(ss: seq<Section>, last: nat, a: nat, v: Word)
    requires ss != [] || a != (last + 4) % LONGS
    requires ss != [] ==> End(ss[|ss| - 1]) == last + 4
    requires last < a < LONGS
    ensures ExpandAll(Grown(ss, last, a, v)) == ExpandAll(ss) + [(a, v)]
  {
    hide ExpandAll;
    if a != (last + 4) % LONGS {
      NewSectionExpands(ss, a, v);
    } else {
      assert a == End(ss[|ss| - 1]);
      LongerSectionExpands(ss, v);
    }
  }

  lemma NewSectionExpands(ss: seq<Section>, a: nat, v: Word)
    ensures ExpandAll(ss + [Section(a, [v])]) == ExpandAll(ss) + [(a, v)]
  {
    assert (ss + [Section(a, [v])])[..|ss|] == ss;
  }

  lemma LongerSectionExpands(ss: seq<Section>, v: Word)
    requires ss != []
    ensures var s := ss[|ss| - 1];
      ExpandAll(ss[..|ss| - 1] + [Section(s.address, s.data + [v])]) == ExpandAll(ss) + [(End(s), v)]
  {
    ExpandAppends(ss[..|ss| - 1], ss[|ss| - 1], v);
    assert ss[..|ss| - 1] + [ss[|ss| - 1]] == ss;
  }

  lemma ContentGrows(m: map<nat, Word>, ws: seq<Write>, a: nat, v: Word)
    requires Ascending(ws) && IsContent(m, ws) && a !in m && forall w <- ws :: w.0 < a
    ensures Ascending(ws + [(a, v)]) && IsContent(m[a := v], ws + [(a, v)])
  {
    var ws' := ws + [(a, v)];
    assert ws'[|ws|] == (a, v);
    forall b | b in m ensures (b, m[b]) in ws' {
      assert (b, m[b]) in ws;
    }
  }

  /** Non-empty sections that do not touch. */
  predicate Tight(ss: seq<Section>) {
    && (forall s <- ss :: s.data != [])
    && (forall i :: 0 < i < |ss| ==> ss[i].address != End(ss[i - 1]))
  }

  lemma GrownTight(ss: seq<Section>, last: nat, a: nat, v: Word)
    requires ss != [] || a != (last + 4) % LONGS
    requires Tight(ss) && (ss != [] ==> End(ss[|ss| - 1]) == last + 4)
    requires last < a < LONGS
    ensures Tight(Grown(ss, last, a, v))
    ensures var s := Grown(ss, last, a, v); s != [] && s[|s| - 1].data != [] && End(s[|s| - 1]) == a + 4
  {}

  lemma PartialNext(m: map<nat, Word>, rest: set<nat>, ss: seq<Section>, last: nat, a: nat)
    requires Partial(m, rest, ss, last) && a in rest && forall b <- rest :: a <= b
    ensures ss != [] || a != (last + 4) % LONGS
    ensures Partial(m, rest - {a}, Grown(ss, last, a, m[a]), a)
  {
    hide ExpandAll, Ascending, IsContent, End, Grown;
    assert FIRST <= a < LONGS && last < a;
    GrownExpands(ss, last, a, m[a]);
    ContentGrows(m - rest, ExpandAll(ss), a, m[a]);
    GrownTight(ss, last, a, m[a]);
    assert m - (rest - {a}) == (m - rest)[a := m[a]];
  }
}
