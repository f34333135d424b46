/** Control packets: a header with an odd number of set bits, then the data words of writes. */
module ControlPackets {
  import opened Options
  import opened Indexing
  import opened Bits
  import opened NpuTransaction

  /** `length` is the number of words asked for when there is no data. */
  datatype Packet = Packet(address: Word, length: Option<Word>, opcode: Word, streamId: Word, data: Option<seq<Word>>)

  function Size(p: Packet): nat {
    match p.data
    case Some(data) => |data|
    case None => if p.length.Some? then p.length.value else 0
  }

  /** Opcodes 0 and 2 carry data. */
  predicate Carries(opcode: int) { opcode == 0 || opcode == 2 }

  /** The header before its parity bit; no beats wrap around. */
  function Unprotected(id: Word, opcode: Word, beats: Word, address: Word): Word {
    Wrap32(Or(Or(Or(Wrap32(id * 0x100_0000), Wrap32(opcode * 0x40_0000)), Wrap32(beats * 0x10_0000)),
      address % 0x10_0000))
  }

  function Beats(size: nat): Word { (size - 1) % WORDS }

  function Plain(p: Packet): Word { Unprotected(p.streamId, p.opcode, Beats(Size(p)), p.address) }

  function WithParity(w: Word): Word { Wrap32(Or((if BitCount(w) % 2 == 0 then 1 else 0) * 0x8000_0000, w)) }

  function Header(p: Packet): Word { WithParity(Plain(p)) }

  /** The words of a packet, or nothing where the source takes the value of missing data. */
  function EncodePacket(p: Packet): Option<seq<Word>> {
    if Carries(p.opcode) then
      if p.data.Some? then Some([Header(p)] + p.data.value)
      else if Size(p) == 0 then Some([Header(p)])
      else None
    else Some([Header(p)] + Zeros(if p.data.Some? then |p.data.value| else 0))
  }

  function EncodePackets(ps: seq<Packet>): Option<seq<Word>> {
    if ps == [] then Some([]) else
      var init, last := EncodePackets(ps[..|ps| - 1]), EncodePacket(ps[|ps| - 1]);
      if init.Some? && last.Some? then Some(init.value + last.value) else None
  }

  // ----- set bits

  /** Adds the low bits up, shifting the word out. */
  function BitCount(n: nat): nat {
    if n == 0 then 0 else n % 2 + BitCount(n / 2)
  }

  function SetBits(n: nat, width: nat): set<nat> { set k: nat | k < width && Bit(n, k) == 1 }

  /** The count is the number of positions whose bit is set. */
  lemma {:induction false} BitCountIsNumberOfSetBits(n: nat, width: nat)
    requires n < Pow2(width)
    ensures BitCount(n) == |SetBits(n, width)|
    decreases width
  {
    if width == 0 {
      assert SetBits(n, width) == {};
    } else {
      hide Bit;
      BitCountIsNumberOfSetBits(n / 2, width - 1);
      var upper := SetBits(n, width) - {0};
      forall k: nat ensures Bit(n / 2, k) == Bit(n, k + 1) { BitOfHalf(n, k); }
      LowBit(n);
      hide Pow2;
      Shifted(SetBits(n / 2, width - 1), upper);
      assert SetBits(n, width) == upper + if n % 2 == 1 then {0} else {};
    }
  }

  lemma {:induction false} Shifted(s: set<nat>, t: set<nat>)
    requires forall k: nat :: k in t <==> k > 0 && k - 1 in s
    ensures |t| == |s|
    decreases s
  {
    if s != {} {
      var x :| x in s;
      assert x + 1 in t;
      Shifted(s - {x}, t - {x + 1});
    }
  }

  /** The parity loop. */
  method EvenParity(word: Word) returns (even: bool)
    ensures even <==> |SetBits(word, 32)| % 2 == 0
    ensures even <==> BitCount(word) % 2 == 0
  {
    var p, n := 0, word;
    while n != 0
      invariant p + BitCount(n) == BitCount(word)
    {
      p := p + n % 2;
      n := n / 2;
    }
    even := p % 2 == 0;
    WordBits(word);
  }

  /** Sets the top bit of a word with an even number of set bits. */
  method Protect(word: Word) returns (hdr: Word)
    ensures hdr == WithParity(word)
  {
    var even := EvenParity(word);
    OrCommutes(word, (if even then 1 else 0) * 0x8000_0000);
    hdr := Wrap32(Or(word, (if even then 1 else 0) * 0x8000_0000));
  }

  // ----- the vector

  /** Appends a packet. Where the source takes the value of missing data, the result is false and the words unknown. */
  method AppendControlPacket(v: Instructions, p: Packet) returns (defined: bool)
    modifies v
    ensures defined <==> EncodePacket(p).Some?
    ensures defined ==> v.words == old(v.words) + EncodePacket(p).value
  {
    var size := if p.data.Some? then |p.data.value| else 0;
    var w := v.ReserveAndGetTail(1 + size);
    ghost var reserved := size;
    if p.data == None && p.length.Some? {
      size := p.length.value;
    }
    var hdr := Protect(Unprotected(p.streamId, p.opcode, Beats(size), p.address));
    assert hdr == Header(p);
    v.words := v.words[w := hdr];
    hide Unprotected, Header;
    defined := true;
    if Carries(p.opcode) && p.data == None {
      defined := size == 0;
      assert defined ==> v.words == old(v.words) + [Header(p)];
    } else if Carries(p.opcode) {
      CopyData(v, w, p.data.value);
      assert v.words == old(v.words) + [Header(p)] + p.data.value;
    } else {
      assert v.words == old(v.words) + [Header(p)] + Zeros(reserved);
    }
  }

  /** Fills the words behind the header. */
  method CopyData(v: Instructions, w: nat, data: seq<Word>)
    requires w + 1 + |data| == |v.words|
    modifies v
    ensures v.words == old(v.words[..w + 1]) + data
  {
    var i := 0;
    while i < |data|
      invariant 0 <= i <= |data| && |v.words| == w + 1 + |data|
      invariant v.words[..w + 1 + i] == old(v.words[..w + 1]) + data[..i]
    {
      v.words := v.words[w + 1 + i := data[i]];
      i := i + 1;
    }
    assert v.words[..w + 1 + i] == v.words && data[..i] == data;
  }

  /** The packets of the sequences of the given name, or of all sequences for an empty name. */
  method TranslateControlPackets(v: Instructions, sequences: seq<(string, seq<Packet>)>, name: string)
    returns (defined: bool)
    modifies v
    ensures defined <==> EncodePackets(Selected(sequences, name)).Some?
    ensures defined ==> v.words == old(v.words) + EncodePackets(Selected(sequences, name)).value
  {
    ghost var base, done := v.words, [];
    defined := true;
    var s := 0;
    assert v.words == base + EncodePackets(done).value;
    while s < |sequences|
      invariant 0 <= s <= |sequences| && done == Selected(sequences[..s], name)
      invariant Emitted(base, v.words, done, defined)
    {
      hide Emitted;
      SelectedNext(sequences, s, name);
      if name == "" || name == sequences[s].0 {
        defined := TranslatePackets(v, sequences[s].1, base, done, defined);
        done := done + sequences[s].1;
      } else {
        assert done + [] == done;
      }
      s := s + 1;
    }
    assert sequences[..s] == sequences;
  }

  ghost predicate Emitted(base: seq<Word>, words: seq<Word>, ps: seq<Packet>, defined: bool) {
    && (defined <==> EncodePackets(ps).Some?)
    && (defined ==> words == base + EncodePackets(ps).value)
  }

  lemma EmittedNext(base: seq<Word>, words: seq<Word>, words': seq<Word>, ps: seq<Packet>, p: Packet, d: bool, d': bool)
    requires Emitted(base, words, ps, d)
    requires d' <==> EncodePacket(p).Some?
    requires d' ==> words' == words + EncodePacket(p).value
    ensures Emitted(base, words', ps + [p], d && d')
  {
    hide EncodePacket;
    assert (ps + [p])[..|ps|] == ps;
  }

  method TranslatePackets(v: Instructions, ps: seq<Packet>, ghost base: seq<Word>, ghost before: seq<Packet>,
                          start: bool)
    returns (defined: bool)
    requires Emitted(base, v.words, before, start)
    modifies v
    ensures Emitted(base, v.words, before + ps, defined)
  {
    hide Emitted, EncodePacket;
    defined := start;
    assert before + ps[..0] == before;
    var i := 0;
    while i < |ps|
      invariant 0 <= i <= |ps|
      invariant Emitted(base, v.words, before + ps[..i], defined)
    {
      ghost var words := v.words;
      var d := AppendControlPacket(v, ps[i]);
      EmittedNext(base, words, v.words, before + ps[..i], ps[i], defined, d);
      assert before + ps[..i + 1] == before + ps[..i] + [ps[i]];
      defined := defined && d;
      i := i + 1;
    }
    assert before + ps[..i] == before + ps;
  }

  // ----- parity

  lemma {:induction false} BitCountAdds(h: nat, y: nat, k: nat)
    requires y < Pow2(k)
    ensures BitCount(h * Pow2(k) + y) == BitCount(h) + BitCount(y)
    decreases k
  {
    if k == 0 {
      assert h * Pow2(k) + y == h && BitCount(y) == 0;
    } else {
      var half := h * Pow2(k - 1);
      TimesPower(h, k);
      hide BitCount;
      BitCountAdds(h, y / 2, k - 1);
      CountOfHalf(2 * half + y, half + y / 2, y % 2);
      CountOfHalf(y, y / 2, y % 2);
    }
  }

  lemma TimesPower(h: nat, k: nat)
    requires k > 0
    ensures h * Pow2(k) == 2 * (h * Pow2(k - 1))
  {}

  lemma CountOfHalf(n: nat, half: nat, low: nat)
    requires n == 2 * half + low && low < 2
    ensures BitCount(n) == low + BitCount(half)
  {}

  /** Or-ing a bit that is set already changes nothing. */
  lemma {:induction false} OrKeeps(y: nat, k: nat)
    requires y < Pow2(k)
    ensures Or(Pow2(k), Pow2(k) + y) == Pow2(k) + y
    decreases k
  {
    if k > 0 {
      OrKeeps(y / 2, k - 1);
    }
  }

  lemma ParityBit(w: Word)
    ensures WithParity(w) == if w < 0x8000_0000 && BitCount(w) % 2 == 0 then w + 0x8000_0000 else w
  {
    Powers();
    Pow2Values();
    hide Pow2, BitCount;
    if BitCount(w) % 2 == 0 {
      if w < 0x8000_0000 {
        OrAdds(1, w, 0x8000_0000);
      } else {
        OrKeeps(w - 0x8000_0000, 31);
      }
    } else {
    }
  }

  lemma TopBitCounts(w: Word)
    requires w < 0x8000_0000
    ensures BitCount(w + 0x8000_0000) == BitCount(w) + 1
  {
    Pow2Values();
    hide Pow2;
    BitCountAdds(1, w, 31);
    assert BitCount(1) == 1;
  }

  lemma ProtectedCount(w: Word)
    ensures BitCount(WithParity(w)) % 2 == 1 <==> w < 0x8000_0000 || BitCount(w) % 2 == 1
  {
    hide BitCount, WithParity;
    ParityBit(w);
    if w < 0x8000_0000 {
      TopBitCounts(w);
    }
  }

  lemma WordBits(w: Word)
    ensures BitCount(w) == |SetBits(w, 32)|
  {
    Pow2Values();
    hide Pow2, SetBits, BitCount;
    BitCountIsNumberOfSetBits(w, 32);
  }

  /** A protected word has an odd number of set bits exactly when the top bit was free or the word was odd already. */
  lemma ProtectedIsOddIff(w: Word)
    ensures |SetBits(WithParity(w), 32)| % 2 == 1 <==> w < 0x8000_0000 || |SetBits(w, 32)| % 2 == 1
  {
    hide SetBits, BitCount, WithParity;
    ProtectedCount(w);
    WordBits(w);
    WordBits(WithParity(w));
  }

  /** One flipped bit turns an odd word even: the reader notices. */
  lemma OneFlippedBitIsNoticed(w: nat, w': nat, k: nat, width: nat)
    requires k < width && Bit(w, k) != Bit(w', k)
    requires forall i: nat | i < width && i != k :: Bit(w, i) == Bit(w', i)
    ensures |SetBits(w, width)| % 2 != |SetBits(w', width)| % 2
  {
    hide Bit;
    assert Bit(w, k) < 2 && Bit(w', k) < 2 by { BitIsSmall(w, k); BitIsSmall(w', k); }
    if Bit(w, k) == 1 {
      assert SetBits(w, width) == SetBits(w', width) + {k};
    } else {
      assert SetBits(w', width) == SetBits(w, width) + {k};
    }
  }

  // ----- reading packets back

  datatype Record = Record(id: int, opcode: int, beats: int, address: int, data: seq<Word>)

  function Fields(w: Word): (int, int, int, int) {
    (w / 0x100_0000 % 128, w / 0x40_0000 % 4, w / 0x10_0000 % 4, w % 0x10_0000)
  }

  /** A header with odd parity, then one word more than its beats if its opcode carries data. */
  function ParseOne(w: seq<Word>): (r: Option<(Record, nat)>)
    ensures r.Some? ==> 0 < r.value.1 <= |w|
  {
    if w == [] || BitCount(w[0]) % 2 == 0 then None else
      var (id, opcode, beats, address) := Fields(w[0]);
      var n := if Carries(opcode) then beats + 1 else 0;
      if |w| < 1 + n then None else Some((Record(id, opcode, beats, address, w[1..1 + n]), 1 + n))
  }

  function Parse(w: seq<Word>): Option<seq<Record>>
    decreases |w|
  {
    if w == [] then Some([]) else
      match ParseOne(w)
      case None => None
      case Some((first, n)) =>
        match Parse(w[n..])
        case None => None
        case Some(rest) => Some([first] + rest)
  }

  /** What a packet says. */
  function Meaning(p: Packet): Record {
    Record(p.streamId, p.opcode, Size(p) - 1, p.address % 0x10_0000,
      if Carries(p.opcode) && p.data.Some? then p.data.value else [])
  }

  /** The fields fit, and data is there exactly for the opcodes that carry it. */
  predicate WellFormedPacket(p: Packet) {
    && p.streamId < 128
    && p.opcode < 4
    && 1 <= Size(p) <= 4
    && (p.data.Some? <==> Carries(p.opcode))
  }

  lemma PlainIsSum(id: nat, opcode: nat, beats: nat, address: Word)
    requires id < 128 && opcode < 4 && beats < 4
    ensures Unprotected(id, opcode, beats, address)
      == id * 0x100_0000 + opcode * 0x40_0000 + beats * 0x10_0000 + address % 0x10_0000
  {
    hide Or, IsPower;
    Powers();
    var a := address % 0x10_0000;
    OrAdds(id, opcode * 0x40_0000, 0x100_0000);
    OrAdds(id * 4 + opcode, beats * 0x10_0000, 0x40_0000);
    OrAdds(id * 16 + opcode * 4 + beats, a, 0x10_0000);
  }

  lemma FieldsOfSum(top: nat, id: nat, opcode: nat, beats: nat, a: nat)
    requires top < 2 && id < 128 && opcode < 4 && beats < 4 && a < 0x10_0000
    ensures Fields(top * 0x8000_0000 + id * 0x100_0000 + opcode * 0x40_0000 + beats * 0x10_0000 + a)
      == (id, opcode, beats, a)
  {
    var w := top * 0x8000_0000 + id * 0x100_0000 + opcode * 0x40_0000 + beats * 0x10_0000 + a;
    var h := top * 128 + id;
    DivModUnique(w, 0x100_0000, h, opcode * 0x40_0000 + beats * 0x10_0000 + a);
    DivModUnique(h, 128, top, id);
    DivModUnique(w, 0x40_0000, h * 4 + opcode, beats * 0x10_0000 + a);
    DivModUnique(h * 4 + opcode, 4, h, opcode);
    DivModUnique(w, 0x10_0000, h * 16 + opcode * 4 + beats, a);
    DivModUnique(h * 16 + opcode * 4 + beats, 4, h * 4 + opcode, beats);
  }

  lemma FieldsDecode(id: nat, opcode: nat, beats: nat, address: Word)
    requires id < 128 && opcode < 4 && beats < 4
    ensures Fields(WithParity(Unprotected(id, opcode, beats, address))) == (id, opcode, beats, address % 0x10_0000)
    ensures Unprotected(id, opcode, beats, address) < 0x8000_0000
  {
    PlainIsSum(id, opcode, beats, address);
    var w := Unprotected(id, opcode, beats, address);
    ParityBit(w);
    hide WithParity, Unprotected, Fields, BitCount;
    FieldsOfSum(0, id, opcode, beats, address % 0x10_0000);
    FieldsOfSum(1, id, opcode, beats, address % 0x10_0000);
  }

  lemma HeaderReads(p: Packet)
    requires WellFormedPacket(p)
    ensures Fields(Header(p)) == (p.streamId, p.opcode, Size(p) - 1, p.address % 0x10_0000)
    ensures BitCount(Header(p)) % 2 == 1
  {
    assert Beats(Size(p)) == Size(p) - 1;
    hide Fields, WithParity, Unprotected, BitCount;
    FieldsDecode(p.streamId, p.opcode, Size(p) - 1, p.address);
    ProtectedCount(Plain(p));
  }

  lemma WellFormedReadsBack(p: Packet, rest: seq<Word>)
    requires WellFormedPacket(p)
    ensures EncodePacket(p).Some?
    ensures ParseOne(EncodePacket(p).value + rest) == Some((Meaning(p), |EncodePacket(p).value|))
  {
    HeaderReads(p);
    hide Fields, Header, BitCount;
    var w := EncodePacket(p).value;
    assert (w + rest)[0] == Header(p);
    if Carries(p.opcode) {
      assert (w + rest)[1..1 + Size(p)] == p.data.value;
    }
  }

  lemma ReadBackIsWellFormed(p: Packet, rest: seq<Word>)
    requires EncodePacket(p).Some?
    requires ParseOne(EncodePacket(p).value + rest) == Some((Meaning(p), |EncodePacket(p).value|))
    ensures WellFormedPacket(p)
  {
    hide WithParity, Unprotected, BitCount;
  }

  /** A packet is read back, whatever follows it, exactly when it is well formed. */
  lemma PacketReadBackIff(p: Packet, rest: seq<Word>)
    requires EncodePacket(p).Some?
    ensures var w := EncodePacket(p).value;
      ParseOne(w + rest) == Some((Meaning(p), |w|)) <==> WellFormedPacket(p)
  {
    hide EncodePacket, ParseOne, Meaning;
    if WellFormedPacket(p) {
      WellFormedReadsBack(p, rest);
    }
    if ParseOne(EncodePacket(p).value + rest) == Some((Meaning(p), |EncodePacket(p).value|)) {
      ReadBackIsWellFormed(p, rest);
    }
  }

  function MeaningAll(ps: seq<Packet>): seq<Record> {
    if ps == [] then [] else MeaningAll(ps[..|ps| - 1]) + [Meaning(ps[|ps| - 1])]
  }

  lemma ParseFirst(w: seq<Word>)
    requires ParseOne(w).Some?
    ensures Parse(w).Some? <==> Parse(w[ParseOne(w).value.1..]).Some?
    ensures Parse(w).Some? ==>
      Parse(w).value == [ParseOne(w).value.0] + Parse(w[ParseOne(w).value.1..]).value
  {
    hide ParseOne;
  }

  lemma ParseOnePrefix(x: seq<Word>, y: seq<Word>)
    requires ParseOne(x).Some?
    ensures ParseOne(x + y) == ParseOne(x)
    ensures (x + y)[ParseOne(x).value.1..] == x[ParseOne(x).value.1..] + y
  {
    hide Fields, BitCount;
    var n := ParseOne(x).value.1;
    assert (x + y)[1..n] == x[1..n];
  }

  lemma ParseStarts(x: seq<Word>)
    requires x != [] && Parse(x).Some?
    ensures ParseOne(x).Some?
  {
    hide ParseOne;
  }

  /** Streams that parse can be joined. */
  lemma {:induction false} ParseJoins(x: seq<Word>, y: seq<Word>)
    requires Parse(x).Some? && Parse(y).Some?
    ensures Parse(x + y).Some?
    ensures Parse(x + y).value == Parse(x).value + Parse(y).value
    decreases |x|
  {
    if x == [] {
      assert x + y == y;
      assert [] + Parse(y).value == Parse(y).value;
    } else {
      ParseStarts(x);
      ParseOnePrefix(x, y);
      ParseJoins(x[ParseOne(x).value.1..], y);
      ParseFirst(x);
      ParseFirst(x + y);
      hide ParseOne, Parse;
      Associates([ParseOne(x).value.0], Parse(x[ParseOne(x).value.1..]).value, Parse(y).value);
    }
  }

  lemma OnePacketParses(p: Packet)
    requires WellFormedPacket(p)
    ensures EncodePacket(p).Some?
    ensures Parse(EncodePacket(p).value) == Some([Meaning(p)])
  {
    var w := EncodePacket(p).value;
    PacketReadBackIff(p, []);
    assert w + [] == w;
    ParseFirst(w);
    assert w[|w|..] == [] && Parse([]) == Some([]);
    hide EncodePacket, ParseOne, Parse, Meaning, WellFormedPacket;
    assert [Meaning(p)] + [] == [Meaning(p)];
  }

  /** Every list of well-formed packets is read back from its words. */
  lemma {:induction false} PacketsRoundTrip(ps: seq<Packet>)
    requires forall p :: p in ps ==> WellFormedPacket(p)
    ensures EncodePackets(ps).Some?
    ensures Parse(EncodePackets(ps).value) == Some(MeaningAll(ps))
  {
    hide EncodePacket, ParseOne, Meaning, WellFormedPacket;
    if ps != [] {
      var init, last := ps[..|ps| - 1], ps[|ps| - 1];
      PacketsRoundTrip(init);
      OnePacketParses(last);
      ParseJoins(EncodePackets(init).value, EncodePacket(last).value);
      hide Parse;
    }
  }

  // ----- limits

  /** Five beats spill into the opcode: a write of five words has the header of a read of one. */
  lemma FifthBeatIsOpcode(id: nat, address: Word)
    requires id < 128
    ensures Unprotected(id, 0, Beats(5), address) == Unprotected(id, 1, Beats(1), address)
  {
    PlainIsSum(id, 1, 0, address);
    PlainFifth(id, address);
  }

  lemma PlainFifth(id: nat, address: Word)
    requires id < 128
    ensures Unprotected(id, 0, 4, address) == id * 0x100_0000 + 0x40_0000 + address % 0x10_0000
  {
    hide Or, IsPower;
    Powers();
    OrAdds(id, 0, 0x100_0000);
    OrAdds(id, 0x40_0000, 0x100_0000);
    OrAdds(id * 16 + 4, address % 0x10_0000, 0x10_0000);
  }

  /** A packet without data or length has the same header whatever its opcode and stream. */
  lemma EmptyPacketsLookAlike(p: Packet, p': Packet)
    requires Size(p) == 0 && Size(p') == 0 && p.address == p'.address
    ensures Header(p) == Header(p')
  {
    AllBeats(p.streamId, p.opcode);
    AllBeats(p'.streamId, p'.opcode);
    hide Or, WithParity;
  }

  lemma AllBeats(id: Word, opcode: Word)
    ensures Or(Or(Wrap32(id * 0x100_0000), Wrap32(opcode * 0x40_0000)), Wrap32(Beats(0) * 0x10_0000)) == 0xFFF0_0000
  {
    hide Or, Wrap32;
    Shifts(id, opcode);
    TopTwelve(id % 0x100 * 16, opcode % 0x400 * 4);
  }

  lemma Shifts(id: Word, opcode: Word)
    ensures Wrap32(id * 0x100_0000) == id % 0x100 * 16 * 0x10_0000
    ensures Wrap32(opcode * 0x40_0000) == opcode % 0x400 * 4 * 0x10_0000
    ensures Wrap32(Beats(0) * 0x10_0000) == 0xFFF0_0000
  {
    DivModUnique(id * 0x100_0000, WORDS, id / 0x100, id % 0x100 * 0x100_0000);
    DivModUnique(opcode * 0x40_0000, WORDS, opcode / 0x400, opcode % 0x400 * 0x40_0000);
  }

  lemma TopTwelve(x: nat, y: nat)
    requires x < 0x1000 && y < 0x1000
    ensures Or(Or(x * 0x10_0000, y * 0x10_0000), 0xFFF0_0000) == 0xFFF0_0000
  {
    Pow2Values();
    assert Pow2(12) == 0x1000 by { assert Pow2(4) == 16 && Pow2(8) == 0x100; }
    hide Or, Pow2;
    OrStays(x, y, 12);
    OrScales(x, y, 20);
    OrScales(Or(x, y), 0xFFF, 20);
    OrWithOnes(Or(x, y), 12);
  }

  lemma {:induction false} OrWithOnes(x: nat, k: nat)
    requires x < Pow2(k)
    ensures Or(x, Pow2(k) - 1) == Pow2(k) - 1
    decreases k
  {
    if k > 0 {
      OrWithOnes(x / 2, k - 1);
    }
  }

  lemma {:induction false} OrScales(x: nat, y: nat, k: nat)
    ensures Or(x * Pow2(k), y * Pow2(k)) == Or(x, y) * Pow2(k)
    decreases k
  {
    if k == 0 {
      assert Pow2(0) == 1;
    } else {
      hide Or;
      OrScales(x, y, k - 1);
      var p := Pow2(k - 1);
      OrDoubles(x * p, y * p);
      Twice(x, p);
      Twice(y, p);
      Twice(Or(x, y), p);
    }
  }

  lemma Twice(x: nat, p: nat)
    ensures x * (2 * p) == 2 * (x * p)
  {}

  lemma OrDoubles(x: nat, y: nat)
    ensures Or(2 * x, 2 * y) == 2 * Or(x, y)
  {}
}
