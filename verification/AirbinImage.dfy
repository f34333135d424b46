/** What the airbin image means: the last write to each address, and the memory its sections leave. */
module AirbinImage {
  import opened Options
  import opened Indexing
  import opened Bits
  import opened Airbin

  // ----- the last writer wins

  predicate IsLast(ws: seq<Write>, i: nat) {
    i < |ws| && forall j :: i < j < |ws| ==> ws[j].0 != ws[i].0
  }

  /** The map holds, for every address written, the value of its last write. */
  lemma {:induction false} LastWriterWins(ws: seq<Write>, i: nat)
    requires IsLast(ws, i)
    ensures ws[i].0 in Recorded(map[], ws) && Recorded(map[], ws)[ws[i].0] == ws[i].1
  {
    if i < |ws| - 1 {
      assert ws[|ws| - 1].0 != ws[i].0;
      LastWriterWins(ws[..|ws| - 1], i);
    }
  }

  /** It holds nothing else. */
  lemma {:induction false} LastWrite(ws: seq<Write>, a: nat) returns (i: nat)
    requires a in Recorded(map[], ws)
    ensures IsLast(ws, i) && ws[i].0 == a
  {
    i := |ws| - 1;
    if ws[i].0 != a {
      i := LastWrite(ws[..|ws| - 1], a);
    }
  }

  lemma RecordedIff(ws: seq<Write>, a: nat)
    ensures a in Recorded(map[], ws) <==> exists i: nat :: IsLast(ws, i) && ws[i].0 == a
  {
    hide Recorded;
    if a in Recorded(map[], ws) {
      var i := LastWrite(ws, a);
    }
    forall i: nat | i < |ws| && IsLast(ws, i) ensures ws[i].0 in Recorded(map[], ws) {
      LastWriterWins(ws, i);
    }
  }

  // ----- what a cleared range covers

  predicate Hits(off: nat, start: nat, end: nat, offset: nat) {
    start <= off < end && (off - start) % 4 == 0 && off % OFFSETS == offset
  }

  /** Some word of the range, its offset cut down to eighteen bits. */
  ghost predicate Reaches(start: nat, end: nat, offset: nat) {
    exists off: nat :: Hits(off, start, end, offset)
  }

  /** Clearing reaches the words of the range in its own tile, and nothing else; it leaves zeros. */
  lemma {:induction false} ClearedIff(t: TileAddress, start: nat, end: nat, a: Address)
    ensures (exists w <- ClearWrites(t, start, end) :: w.0 == Location(a))
      <==> a.tile == t && Reaches(start, end, a.offset)
    ensures forall w <- ClearWrites(t, start, end) :: w.1 == 0
    decreases end - start
  {
    if start < end {
      ClearedIff(t, start + 4, end, a);
      SameLocation(NewAddress(t, start), a);
      hide Location;
      var w: Write := (Location(NewAddress(t, start)), 0);
      assert ClearWrites(t, start, end) == [w] + ClearWrites(t, start + 4, end);
      HitsNext(start, end, a.offset);
    }
  }

  lemma SameLocation(a: Address, b: Address)
    ensures Location(a) == Location(b) <==> a == b
  {
    LocationIsUnique(a);
    LocationIsUnique(b);
  }

  lemma HitsNext(start: nat, end: nat, offset: nat)
    requires start < end
    ensures Reaches(start, end, offset) <==> start % OFFSETS == offset || Reaches(start + 4, end, offset)
  {
    if start % OFFSETS == offset {
      assert Hits(start, start, end, offset);
    }
    if Reaches(start, end, offset) && start % OFFSETS != offset {
      var off: nat :| Hits(off, start, end, offset);
      assert Hits(off, start + 4, end, offset);
    }
    if Reaches(start + 4, end, offset) {
      var off: nat :| Hits(off, start + 4, end, offset);
      assert Hits(off, start, end, offset);
    }
  }

  /** The length is not checked: a range that ends inside a word clears the whole word. */
  lemma ClearsPastTheEnd(t: TileAddress, start: nat, length: nat, last: Address)
    requires start % 4 == 0 && length % 4 != 0 && start + length < OFFSETS
    requires last.tile == t && last.offset == start + length - length % 4
    ensures last.offset + 4 > start + length
    ensures exists w <- ClearWrites(t, start, start + length) :: w.0 == Location(last)
  {
    ClearedIff(t, start, start + length, last);
    assert Hits(last.offset, start, start + length, last.offset);
  }

  // ----- memory

  type Memory = map<nat, int>

  /** Byte `k` of a word, the low one first. */
  function Byte(v: Word, k: int): int {
    if k == 0 then v % 0x100 else if k == 1 then v / 0x100 % 0x100
    else if k == 2 then v / 0x1_0000 % 0x100 else v / 0x100_0000
  }

  /** The bytes of a word make it up again. */
  lemma BytesMakeWord(v: Word)
    ensures forall k | 0 <= k < 4 :: 0 <= Byte(v, k) < 0x100
    ensures v == Byte(v, 0) + 0x100 * Byte(v, 1) + 0x1_0000 * Byte(v, 2) + 0x100_0000 * Byte(v, 3)
  {
    var b, c := v / 0x100, v / 0x100 / 0x100;
    var d := c / 0x100;
    DivModUnique(v, 0x1_0000, c, b % 0x100 * 0x100 + v % 0x100);
    DivModUnique(v, 0x100_0000, d, c % 0x100 * 0x1_0000 + b % 0x100 * 0x100 + v % 0x100);
  }

  function StoreWord(mem: Memory, a: nat, v: Word): Memory {
    mem[a := Byte(v, 0)][a + 1 := Byte(v, 1)][a + 2 := Byte(v, 2)][a + 3 := Byte(v, 3)]
  }

  function StoreAll(mem: Memory, ws: seq<Write>): Memory {
    if ws == [] then mem else StoreWord(StoreAll(mem, ws[..|ws| - 1]), ws[|ws| - 1].0, ws[|ws| - 1].1)
  }

  function Peek(mem: Memory, x: nat): int { if x in mem then mem[x] else -1 }

  /** What byte `x` holds when the words of the map lie over the memory. */
  function Overlaid(mem: Memory, m: map<nat, Word>, x: nat): int {
    if x in m then Byte(m[x], 0)
    else if x >= 1 && x - 1 in m then Byte(m[x - 1], 1)
    else if x >= 2 && x - 2 in m then Byte(m[x - 2], 2)
    else if x >= 3 && x - 3 in m then Byte(m[x - 3], 3)
    else Peek(mem, x)
  }

  /** No two words overlap. */
  predicate Spread(addresses: set<nat>) {
    forall a <- addresses, b <- addresses :: a < b ==> a + 4 <= b
  }

  lemma OverlaidNext(mem: Memory, mem': Memory, m: map<nat, Word>, a: nat, v: Word, x: nat)
    requires Spread(m.Keys + {a})
    requires Peek(mem', x) == Overlaid(mem, m, x)
    ensures Peek(StoreWord(mem', a, v), x) == Overlaid(mem, m[a := v], x)
  {
    hide Byte;
  }

  /** Stores to words that do not overlap leave what the map of last writes says, byte for byte. */
  lemma {:induction false} StoresOverlay(mem: Memory, ws: seq<Write>)
    requires Spread(Recorded(map[], ws).Keys)
    ensures forall x: nat :: Peek(StoreAll(mem, ws), x) == Overlaid(mem, Recorded(map[], ws), x)
  {
    if ws != [] {
      var init := ws[..|ws| - 1];
      assert Recorded(map[], ws).Keys == Recorded(map[], init).Keys + {ws[|ws| - 1].0};
      StoresOverlay(mem, init);
      hide Byte, Overlaid, Peek;
      forall x: nat ensures Peek(StoreAll(mem, ws), x) == Overlaid(mem, Recorded(map[], ws), x) {
        OverlaidNext(mem, StoreAll(mem, init), Recorded(map[], init), ws[|ws| - 1].0, ws[|ws| - 1].1, x);
      }
    }
  }

  // ----- loading the sections

  lemma {:induction false} ContentIsRecorded(m: map<nat, Word>, ws: seq<Write>)
    requires forall w <- ws :: w.0 in m && m[w.0] == w.1
    ensures forall a <- Recorded(map[], ws) :: a in m && m[a] == Recorded(map[], ws)[a]
    ensures forall w <- ws :: w.0 in Recorded(map[], ws)
  {
    if ws != [] {
      var n := |ws| - 1;
      ContentIsRecorded(m, ws[..n]);
      assert ws == ws[..n] + [ws[n]];
    }
  }

  lemma ContentDetermines(m: map<nat, Word>, ws: seq<Write>)
    requires IsContent(m, ws)
    ensures Recorded(map[], ws) == m
  {
    ContentIsRecorded(m, ws);
    forall a | a in m ensures a in Recorded(map[], ws) {
      assert (a, m[a]) in ws;
    }
  }

  lemma {:induction false} InExpandAll(ss: seq<Section>, w: Write)
    ensures w in ExpandAll(ss) <==> exists s <- ss :: w in Expand(s)
  {
    if ss != [] {
      InExpandAll(ss[..|ss| - 1], w);
      hide Expand;
      assert ss == ss[..|ss| - 1] + [ss[|ss| - 1]];
    }
  }

  lemma SameContent(m: map<nat, Word>, ss: seq<Section>, ss': seq<Section>)
    requires IsContent(m, ExpandAll(ss))
    requires forall s :: s in ss <==> s in ss'
    ensures IsContent(m, ExpandAll(ss'))
  {
    hide Expand, ExpandAll;
    forall w: Write ensures w in ExpandAll(ss) <==> w in ExpandAll(ss') {
      InExpandAll(ss, w);
      InExpandAll(ss', w);
    }
  }

  /** Loading the sections in any order leaves the memory that the writes leave in program order. */
  lemma LoadsInAnyOrder(mem: Memory, ws: seq<Write>, ss: seq<Section>, ss': seq<Section>)
    requires Spread(Recorded(map[], ws).Keys) && Sectioned(Recorded(map[], ws), ss)
    requires forall s :: s in ss <==> s in ss'
    ensures forall x: nat :: Peek(StoreAll(mem, ExpandAll(ss')), x) == Peek(StoreAll(mem, ws), x)
  {
    var m := Recorded(map[], ws);
    SameContent(m, ss, ss');
    ContentDetermines(m, ExpandAll(ss'));
    StoresOverlay(mem, ws);
    StoresOverlay(mem, ExpandAll(ss'));
  }

  // ----- whole configurations

  predicate Aligned(c: Command) {
    match c
    case Put(address, _) => address.offset % 4 == 0
    case Clear(_, start, _) => start % 4 == 0
  }

  lemma {:induction false} ClearIsAligned(t: TileAddress, start: nat, end: nat)
    requires start % 4 == 0
    ensures forall w <- ClearWrites(t, start, end) :: w.0 % 4 == 0
    decreases end - start
  {
    if start < end {
      ClearIsAligned(t, start + 4, end);
      LocationAlignment(NewAddress(t, start));
      hide Location;
    }
  }

  lemma {:induction false} ProgramIsAligned(cs: seq<Command>)
    requires forall c <- cs :: Aligned(c)
    ensures forall w <- ProgramWrites(cs) :: w.0 % 4 == 0
  {
    if cs != [] {
      var last := cs[|cs| - 1];
      ProgramIsAligned(cs[..|cs| - 1]);
      assert Aligned(last);
      match last {
        case Put(address, _) => LocationAlignment(address);
        case Clear(tile, start, length) => ClearIsAligned(tile, start, (start + length) % WORDS);
      }
      hide Location, Aligned;
    }
  }

  lemma RecordedIsAligned(ws: seq<Write>)
    requires forall w <- ws :: w.0 % 4 == 0
    ensures forall a <- Recorded(map[], ws) :: a % 4 == 0
  {
    hide Recorded;
    forall a | a in Recorded(map[], ws) ensures a % 4 == 0 {
      var i := LastWrite(ws, a);
    }
  }

  /** The image is faithful: for aligned commands, loading its sections in any order gives the memory that the writes
      give in program order. */
  lemma ImageIsFaithful(mem: Memory, cs: seq<Command>, ss: seq<Section>, ss': seq<Section>)
    requires forall c <- cs :: Aligned(c)
    requires Sectioned(Recorded(map[], ProgramWrites(cs)), ss)
    requires forall s :: s in ss <==> s in ss'
    ensures forall x: nat :: Peek(StoreAll(mem, ExpandAll(ss')), x) == Peek(StoreAll(mem, ProgramWrites(cs)), x)
  {
    ProgramIsAligned(cs);
    RecordedIsAligned(ProgramWrites(cs));
    AlignedIsSpread(Recorded(map[], ProgramWrites(cs)).Keys);
    hide Recorded, ProgramWrites, Aligned, Spread, Sectioned;
    LoadsInAnyOrder(mem, ProgramWrites(cs), ss, ss');
  }

  /** Carries out a configuration on an empty map and groups what was written. */
  method BuildImage(cs: seq<Command>) returns (sections: seq<Option<Section>>)
    requires forall c <- cs :: Ends(c) && Accepts(c)
    ensures ProgramWrites(cs) == [] ==> sections == [None]
    ensures ProgramWrites(cs) != [] ==>
      exists ss :: sections == Pointers(ss) && Sectioned(Recorded(map[], ProgramWrites(cs)), ss)
    ensures (forall c <- cs :: Aligned(c)) ==> Faithful(cs, sections)
  {
    hide Recorded, ProgramWrites, Sectioned, Ends, Accepts, Aligned;
    var m := new MemWrites();
    var n := m.Execute(cs);
    assert n == |cs| && cs[..n] == cs;
    sections := m.GroupSections();
    RecordedNothing(ProgramWrites(cs));
    if forall c <- cs :: Aligned(c) {
      ImageLoads(cs, sections);
    }
  }

  /** Loading the sections, in any order, leaves the memory the writes leave in program order. */
  ghost predicate Faithful(cs: seq<Command>, sections: seq<Option<Section>>) {
    forall mem: Memory, ss, ss' :: sections == Pointers(ss) && (forall s :: s in ss <==> s in ss') ==>
      SameMemory(StoreAll(mem, ExpandAll(ss')), StoreAll(mem, ProgramWrites(cs)))
  }

  ghost predicate SameMemory(mem: Memory, mem': Memory) { forall x: nat :: Peek(mem, x) == Peek(mem', x) }

  lemma RecordedNothing(ws: seq<Write>)
    ensures Recorded(map[], ws) == map[] <==> ws == []
  {
    if ws != [] {
      assert ws[|ws| - 1].0 in Recorded(map[], ws);
    }
  }

  lemma NoNullPointer(ss: seq<Section>)
    ensures Pointers(ss) != [None]
  {
    if |ss| == 1 {
      assert Pointers(ss)[0] == Some(ss[0]);
    }
  }

  lemma ImageLoads(cs: seq<Command>, sections: seq<Option<Section>>)
    requires forall c <- cs :: Aligned(c)
    requires ProgramWrites(cs) == [] ==> sections == [None]
    requires ProgramWrites(cs) != [] ==>
      exists ss :: sections == Pointers(ss) && Sectioned(Recorded(map[], ProgramWrites(cs)), ss)
    ensures Faithful(cs, sections)
  {
    hide Recorded, ProgramWrites, Sectioned, Aligned, StoreAll, ExpandAll, Peek;
    forall mem: Memory, ss, ss' | sections == Pointers(ss) && (forall s :: s in ss <==> s in ss')
      ensures SameMemory(StoreAll(mem, ExpandAll(ss')), StoreAll(mem, ProgramWrites(cs)))
    {
      NoNullPointer(ss);
      if ProgramWrites(cs) != [] {
        var tt :| sections == Pointers(tt) && Sectioned(Recorded(map[], ProgramWrites(cs)), tt);
        SamePointers(ss, tt);
        ImageIsFaithful(mem, cs, ss, ss');
      }
    }
  }

  lemma SamePointers(ss: seq<Section>, tt: seq<Section>)
    requires Pointers(ss) == Pointers(tt)
    ensures ss == tt
  {
    forall i | 0 <= i < |ss| ensures ss[i] == tt[i] {
      assert Pointers(ss)[i] == Some(ss[i]) && Pointers(tt)[i] == Some(tt[i]);
    }
  }

  /** Aligned offsets keep words apart. */
  lemma AlignedIsSpread(s: set<nat>)
    requires forall n <- s :: n % 4 == 0
    ensures Spread(s)
  {}

  lemma LocationAlignment(a: Address)
    ensures Location(a) % 4 == a.offset % 4
  {
    AddressIsSum(a);
  }

  lemma {:induction false} SectionsInOrder(ss: seq<Section>, i: nat, p: nat, j: nat, q: nat)
    requires Ascending(ExpandAll(ss))
    requires i < j < |ss| && p < |ss[i].data| && q < |ss[j].data|
    ensures (ss[i].address + 4 * p, ss[i].data[p]) in ExpandAll(ss)
    ensures (ss[j].address + 4 * q, ss[j].data[q]) in ExpandAll(ss)
    ensures ss[i].address + 4 * p < ss[j].address + 4 * q
  {
    var n := |ss| - 1;
    var before, last := ExpandAll(ss[..n]), Expand(ss[n]);
    var ws := ExpandAll(ss);
    assert ws == before + last;
    if j == n {
      assert Expand(ss[i])[p] == (ss[i].address + 4 * p, ss[i].data[p]);
      InExpandAll(ss[..n], (ss[i].address + 4 * p, ss[i].data[p]));
      assert ss[..n][i] == ss[i];
      var k :| 0 <= k < |before| && before[k] == (ss[i].address + 4 * p, ss[i].data[p]);
      assert ws[k] == before[k] && ws[|before| + q] == last[q];
    } else {
      forall k, l | 0 <= k < l < |before| ensures before[k].0 < before[l].0 {
        assert ws[k] == before[k] && ws[l] == before[l];
      }
      SectionsInOrder(ss[..n], i, p, j, q);
    }
  }

  /** Sections of words that do not overlap do not overlap; between sections of aligned words there is a gap. */
  lemma SectionsAreApart(m: map<nat, Word>, ss: seq<Section>, i: nat, j: nat)
    requires Sectioned(m, ss) && Spread(m.Keys)
    requires i < j < |ss|
    ensures End(ss[i]) <= ss[j].address
    ensures (forall n <- m :: n % 4 == 0) ==> End(ss[i]) < ss[j].address
  {
    hide ExpandAll, Ascending;
    EndsBefore(m, ss, i, i + 1);
    if i + 1 < j {
      EndsBefore(m, ss, i + 1, j);
    }
    hide IsContent;
    assert (forall n <- m :: n % 4 == 0) ==> End(ss[i]) % 4 == 0 && ss[i + 1].address % 4 == 0;
  }

  lemma EndsBefore(m: map<nat, Word>, ss: seq<Section>, i: nat, j: nat)
    requires Sectioned(m, ss) && Spread(m.Keys) && i < j < |ss|
    ensures ss[i].address < End(ss[i]) <= ss[j].address
    ensures End(ss[i]) - 4 in m && ss[j].address in m
  {
    hide ExpandAll, Ascending;
    var p := |ss[i].data| - 1;
    SectionsInOrder(ss, i, p, j, 0);
    assert ss[i].address + 4 * p in m && ss[j].address in m;
  }

  /** Two overlapping words, written the upper one first: the sections store the lower one first. */
  lemma OverlapsLoseTheOrder(a: nat, b: nat)
    requires a < b < a + 4
    ensures var ws: seq<Write>, ss := [(b, 1), (a, 0xFFFF_FFFF)], [Section(a, [0xFFFF_FFFF]), Section(b, [1])];
      Sectioned(Recorded(map[], ws), ss) && Peek(StoreAll(map[], ExpandAll(ss)), b) != Peek(StoreAll(map[], ws), b)
  {
    var lower: Write, upper: Write := (a, 0xFFFF_FFFF), (b, 1);
    var ss := [Section(a, [0xFFFF_FFFF]), Section(b, [1])];
    hide ExpandAll, Recorded, StoreAll, Sectioned;
    TwoSections(a, 0xFFFF_FFFF, b, 1);
    TwoWrites(lower, upper);
    TwoWrites(upper, lower);
    SectionedPair(a, 0xFFFF_FFFF, b, 1);
    UpperByte(a, b);
  }

  lemma UpperByte(a: nat, b: nat)
    requires a < b < a + 4
    ensures Peek(StoreWord(StoreWord(map[], a, 0xFFFF_FFFF), b, 1), b) == 1
    ensures Peek(StoreWord(StoreWord(map[], b, 1), a, 0xFFFF_FFFF), b) == 0xFF
  {
    assert Byte(1, 0) == 1 && forall k :: 0 <= k < 4 ==> Byte(0xFFFF_FFFF, k) == 0xFF;
  }

  lemma SectionedPair(a: nat, v: Word, b: nat, w: Word)
    requires a < b < a + 4
    ensures Sectioned(map[b := w][a := v], [Section(a, [v]), Section(b, [w])])
  {
    TwoSections(a, v, b, w);
    hide ExpandAll;
    assert [(a, v), (b, w)][0] == (a, v) && [(a, v), (b, w)][1] == (b, w);
  }

  lemma TwoSections(a: nat, v: Word, b: nat, w: Word)
    ensures ExpandAll([Section(a, [v]), Section(b, [w])]) == [(a, v), (b, w)]
  {
    var s, s' := Section(a, [v]), Section(b, [w]);
    assert [s, s'][..1] == [s] && [s][..0] == [];
    assert Expand(s) == [(a, v)] && Expand(s') == [(b, w)];
    assert ExpandAll([s]) == [(a, v)];
  }

  lemma TwoWrites(w: Write, w': Write)
    ensures StoreAll(map[], [w, w']) == StoreWord(StoreWord(map[], w.0, w.1), w'.0, w'.1)
    ensures Recorded(map[], [w, w']) == map[w.0 := w.1][w'.0 := w'.1]
  {
    assert [w, w'][..1] == [w] && [w][..0] == [];
    assert StoreAll(map[], [w]) == StoreWord(map[], w.0, w.1);
    assert Recorded(map[], [w]) == map[w.0 := w.1];
  }

  // ----- there is only one way to group

  /** In ascending order a map has one list of writes. */
  lemma {:induction false} AscendingIsUnique(m: map<nat, Word>, ws: seq<Write>, ws': seq<Write>)
    requires Ascending(ws) && IsContent(m, ws) && Ascending(ws') && IsContent(m, ws')
    ensures ws == ws'
    decreases |ws|
  {
    hide Ascending, IsContent;
    EmptyMatches(m, ws);
    EmptyMatches(m, ws');
    if ws != [] {
      SameLast(m, ws, ws');
      WithoutLast(m, ws);
      WithoutLast(m, ws');
      var last := ws[|ws| - 1];
      AscendingIsUnique(m - {last.0}, ws[..|ws| - 1], ws'[..|ws'| - 1]);
      assert ws == ws[..|ws| - 1] + [last] && ws' == ws'[..|ws'| - 1] + [last];
    }
  }

  lemma EmptyMatches(m: map<nat, Word>, ws: seq<Write>)
    requires IsContent(m, ws)
    ensures ws == [] <==> m == map[]
  {
    if ws != [] {
      assert ws[0] in ws;
    }
  }

  lemma SameLast(m: map<nat, Word>, ws: seq<Write>, ws': seq<Write>)
    requires Ascending(ws) && IsContent(m, ws) && Ascending(ws') && IsContent(m, ws') && ws != [] && ws' != []
    ensures ws[|ws| - 1] == ws'[|ws'| - 1]
  {
    var w, w' := ws[|ws| - 1], ws'[|ws'| - 1];
    assert w in ws && w' in ws';
    var i :| 0 <= i < |ws'| && ws'[i] == (w.0, m[w.0]);
    var j :| 0 <= j < |ws| && ws[j] == (w'.0, m[w'.0]);
    assert w.0 <= w'.0 && w'.0 <= w.0;
  }

  lemma WithoutLast(m: map<nat, Word>, ws: seq<Write>)
    requires Ascending(ws) && IsContent(m, ws) && ws != []
    ensures Ascending(ws[..|ws| - 1]) && IsContent(m - {ws[|ws| - 1].0}, ws[..|ws| - 1])
  {
    var init, a := ws[..|ws| - 1], ws[|ws| - 1].0;
    forall w | w in init ensures w.0 in m - {a} && m[w.0] == w.1 {
      assert w in ws;
    }
    forall b | b in m - {a} ensures (b, m[b]) in init {
      assert (b, m[b]) in ws;
    }
  }

  /** Expanded to the same writes, non-empty sections that do not touch are the same sections. */
  lemma {:induction false} SameWritesSameSections(ss: seq<Section>, ss': seq<Section>)
    requires Tight(ss) && Tight(ss') && ExpandAll(ss) == ExpandAll(ss')
    ensures ss == ss'
    decreases |ss|
  {
    if ss == [] || ss' == [] {
      OnlyEmptyIsEmpty(ss);
      OnlyEmptyIsEmpty(ss');
    } else {
      NoLonger(ss, ss');
      NoLonger(ss', ss);
      var s, s' := ss[|ss| - 1], ss'[|ss'| - 1];
      var init, init' := ss[..|ss| - 1], ss'[..|ss'| - 1];
      assert ExpandAll(ss) == ExpandAll(init) + Expand(s) && ExpandAll(ss') == ExpandAll(init') + Expand(s');
      SplitsAlike(ExpandAll(init), Expand(s), ExpandAll(init'), Expand(s'));
      SameSection(s, s');
      SameWritesSameSections(init, init');
      assert ss == init + [s] && ss' == init' + [s'];
    }
  }

  lemma SplitsAlike(x: seq<Write>, y: seq<Write>, x': seq<Write>, y': seq<Write>)
    requires x + y == x' + y' && |y| == |y'|
    ensures x == x' && y == y'
  {
    assert x == (x + y)[..|x|] && x' == (x' + y')[..|x|];
    assert y == (x + y)[|x|..] && y' == (x' + y')[|x|..];
  }

  lemma SameSection(s: Section, s': Section)
    requires Expand(s) == Expand(s') && s.data != [] && |s'.data| == |s.data|
    ensures s == s'
  {
    assert Expand(s)[0] == Expand(s')[0];
    forall i | 0 <= i < |s.data| ensures s.data[i] == s'.data[i] {
      assert Expand(s)[i] == Expand(s')[i];
    }
  }

  lemma OnlyEmptyIsEmpty(ss: seq<Section>)
    requires Tight(ss)
    ensures ExpandAll(ss) == [] <==> ss == []
  {
    if ss != [] {
      assert ss[|ss| - 1] in ss;
    }
  }

  /** The last section cannot be shorter than another grouping's: it would touch the one before it. */
  lemma NoLonger(ss: seq<Section>, ss': seq<Section>)
    requires Tight(ss) && Tight(ss') && ss != [] && ss' != [] && ExpandAll(ss) == ExpandAll(ss')
    ensures |ss[|ss| - 1].data| >= |ss'[|ss'| - 1].data|
  {
    Gap(ss);
    Runs(ss');
    hide ExpandAll, Tight;
  }

  /** Before the last section the addresses do not go on. */
  lemma Gap(ss: seq<Section>)
    requires Tight(ss) && ss != []
    ensures var ws, k := ExpandAll(ss), |ss[|ss| - 1].data|;
      0 < k <= |ws| && (k < |ws| ==> !GoesOn(ws, |ws| - k))
  {
    var s, init := ss[|ss| - 1], ss[..|ss| - 1];
    var ws := ExpandAll(ss);
    assert s in ss && ws == ExpandAll(init) + Expand(s);
    if ExpandAll(init) != [] {
      assert Tight(init);
      LastWord(init);
      assert ws[|ExpandAll(init)|] == Expand(s)[0];
    }
  }

  predicate GoesOn(ws: seq<Write>, i: nat) { 0 < i < |ws| && ws[i].0 == ws[i - 1].0 + 4 }

  /** Within the last section they do. */
  lemma Runs(ss: seq<Section>)
    requires Tight(ss) && ss != []
    ensures var ws, k := ExpandAll(ss), |ss[|ss| - 1].data|;
      k <= |ws| && forall i :: |ws| - k < i < |ws| ==> GoesOn(ws, i)
  {
    var s, init := ss[|ss| - 1], ss[..|ss| - 1];
    var ws := ExpandAll(ss);
    var n := |ExpandAll(init)|;
    assert ws == ExpandAll(init) + Expand(s);
    forall i | n < i < |ws| ensures GoesOn(ws, i) {
      assert ws[i] == Expand(s)[i - n] && ws[i - 1] == Expand(s)[i - 1 - n];
    }
  }

  lemma LastWord(ss: seq<Section>)
    requires Tight(ss) && ExpandAll(ss) != []
    ensures ss != [] && End(ss[|ss| - 1]) == ExpandAll(ss)[|ExpandAll(ss)| - 1].0 + 4
  {
    var s := ss[|ss| - 1];
    assert s in ss && ExpandAll(ss) == ExpandAll(ss[..|ss| - 1]) + Expand(s);
    assert ExpandAll(ss)[|ExpandAll(ss)| - 1] == Expand(s)[|s.data| - 1];
  }

  /** A map of writes has exactly one list of sections. */
  lemma SectionsAreUnique(m: map<nat, Word>, ss: seq<Section>, ss': seq<Section>)
    requires Sectioned(m, ss) && Sectioned(m, ss')
    ensures ss == ss'
  {
    hide Tight, Ascending, IsContent, ExpandAll;
    AscendingIsUnique(m, ExpandAll(ss), ExpandAll(ss'));
    SameWritesSameSections(ss, ss');
  }
}
