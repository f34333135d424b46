/** Reading the transaction stream back: every list of well-formed operations is recovered from its words. */
module NpuDecoding {
  import opened Options
  import opened Indexing
  import opened Bits
  import opened NpuTransaction

  datatype Record =
    | WriteRecord(addr: Word, value: Word)
    | BlockRecord(addr: Word, data: seq<Word>)
    | MaskRecord(addr: Word, value: Word, mask: Word)
    | SyncRecord(direction: nat, row: nat, column: nat, rowNum: nat, columnNum: nat, channel: nat)
    | PatchRecord(addr: Word, argIdx: Word, argPlus: Word)

  function Field(w: Word, scale: nat): nat
    requires scale > 0
  {
    (w / scale) % 0x100
  }

  /** What the header says about its format and the device. */
  datatype Origin = Origin(major: nat, minor: nat, generation: nat, rows: nat, columns: nat, memTileRows: nat)

  function DecodeOrigin(w: seq<Word>): Origin
    requires |w| >= 2
  {
    Origin(Field(w[0], 1), Field(w[0], 0x100), Field(w[0], 0x1_0000), Field(w[0], 0x100_0000),
      Field(w[1], 1), Field(w[1], 0x100))
  }

  /** The record at the front, and how many words it takes: fixed for writes, given by the size field otherwise. */
  function DecodeOne(w: seq<Word>): (r: Option<(Record, nat)>)
    ensures r.Some? ==> 0 < r.value.1 <= |w|
  {
    if w == [] then None
    else if w[0] == 0x0 then
      if |w| >= 3 then Some((WriteRecord(w[1], w[2]), 3)) else None
    else if w[0] == 0x3 then
      if |w| >= 4 then Some((MaskRecord(w[1], w[2], w[3]), 4)) else None
    else if w[0] == 0x1 then
      if |w| >= 3 && w[2] % 4 == 0 && 3 <= w[2] / 4 <= |w| then Some((BlockRecord(w[1], w[3..w[2] / 4]), w[2] / 4))
      else None
    else if w[0] == 0x80 then
      if |w| >= 4 && w[1] == 16 then
        Some((SyncRecord(Field(w[2], 1), Field(w[2], 0x100), Field(w[2], 0x1_0000),
          Field(w[3], 0x100), Field(w[3], 0x1_0000), Field(w[3], 0x100_0000)), 4))
      else None
    else if w[0] == 0x81 then
      if |w| >= 6 && w[1] == 24 then Some((PatchRecord(w[2], w[3], w[4]), 6)) else None
    else None
  }

  function DecodeBody(w: seq<Word>): Option<seq<Record>>
    decreases |w|
  {
    if w == [] then Some([]) else
      match DecodeOne(w)
      case None => None
      case Some((first, n)) =>
        match DecodeBody(w[n..])
        case None => None
        case Some(rest) => Some([first] + rest)
  }

  /** A whole stream: its size and count fields must agree with what is there. */
  function DecodeStream(w: seq<Word>): Option<seq<Record>> {
    if |w| < 4 || w[3] != |w| * 4 then None else
      match DecodeBody(w[4..])
      case None => None
      case Some(records) => if |records| == w[2] then Some(records) else None
  }

  // ----- what an operation is meant to say

  /** What an operation is meant to say; a block write whose data cannot be found says nothing. */
  function Meant(d: Device, op: Op): seq<Record> {
    match op
    case Sync(dir, row, col, rowNum, colNum, chan) =>
      [SyncRecord(dir % 0x100, row % 0x100, col % 0x100, rowNum % 0x100, colNum % 0x100, chan % 0x100)]
    case Write32(t, v) => [WriteRecord(FullAddress(d, t), v)]
    case MaskWrite32(t, v, m) => [MaskRecord(FullAddress(d, t), v, m)]
    case AddressPatch(addr, idx, plus) => [PatchRecord(addr, idx, plus)]
    case BlockWrite(t, data) => if data.Some? then [BlockRecord(FullAddress(d, t), data.value)] else []
    case Other => []
  }

  function MeantAll(d: Device, ops: seq<Op>): seq<Record> {
    if ops == [] then [] else MeantAll(d, ops[..|ops| - 1]) + Meant(d, ops[|ops| - 1])
  }

  /** The block fits its size field. */
  predicate BlockFits(op: Op) {
    op.BlockWrite? && op.data.Some? ==> (|op.data.value| + 3) * 4 < WORDS
  }

  /** Addresses are not symbolic, unless the zero words a symbolic write leaves behind are just what it means. */
  predicate Addressed(d: Device, op: Op) {
    && (op.MaskWrite32? ==> !op.target.symbolic)
    && (op.Write32? && op.target.symbolic ==> FullAddress(d, op.target) == 0 && op.value == 0)
  }

  /** And the data of block writes is there. */
  predicate Faithful(d: Device, op: Op) {
    Addressed(d, op) && (op.BlockWrite? ==> op.data.Some?)
  }

  // ----- decoding undoes encoding

  /** Four byte-sized fields or-ed together are their sum. */
  lemma FieldsAreSum(f0: nat, f1: nat, f2: nat, f3: nat)
    ensures Fields(f0, f1, f2, f3)
      == f0 % 0x100 + (f1 % 0x100) * 0x100 + (f2 % 0x100) * 0x1_0000 + (f3 % 0x100) * 0x100_0000
  {
    hide Or, IsPower;
    Powers();
    var a, b, c, e := f0 % 0x100, f1 % 0x100, f2 % 0x100, f3 % 0x100;
    OrAdds(b, a, 0x100);
    OrAdds(c, a + b * 0x100, 0x1_0000);
    OrAdds(e, a + b * 0x100 + c * 0x1_0000, 0x100_0000);
  }

  lemma FieldsDecode(f0: nat, f1: nat, f2: nat, f3: nat)
    ensures Field(Fields(f0, f1, f2, f3), 1) == f0 % 0x100
    ensures Field(Fields(f0, f1, f2, f3), 0x100) == f1 % 0x100
    ensures Field(Fields(f0, f1, f2, f3), 0x1_0000) == f2 % 0x100
    ensures Field(Fields(f0, f1, f2, f3), 0x100_0000) == f3 % 0x100
  {
    var w := Fields(f0, f1, f2, f3);
    var a, b, c, e := f0 % 0x100, f1 % 0x100, f2 % 0x100, f3 % 0x100;
    FieldsAreSum(f0, f1, f2, f3);
    hide Fields;
    DivModUnique(w, 0x100, b + c * 0x100 + e * 0x1_0000, a);
    DivModUnique(w / 0x100, 0x100, c + e * 0x100, b);
    DivModUnique(w, 0x1_0000, c + e * 0x100, a + b * 0x100);
    DivModUnique(w / 0x1_0000, 0x100, e, c);
    DivModUnique(w, 0x100_0000, e, a + b * 0x100 + c * 0x1_0000);
  }

  /** The bytes of a sync that hold no field, and the last word of an address patch, are zero. */
  lemma SparesAreZero(d: Device, op: Op)
    ensures op.Sync? ==> Field(Encode(d, op)[2], 0x100_0000) == 0 && Field(Encode(d, op)[3], 1) == 0
    ensures op.AddressPatch? ==> Encode(d, op)[5] == 0
  {
    if op.Sync? {
      FieldsDecode(op.direction, op.row, op.column, 0);
      FieldsDecode(0, op.rowNum, op.columnNum, op.channel);
      hide Fields, Field;
    }
  }

  /** One operation, with anything behind it. */
  lemma OneDecodes(d: Device, op: Op, rest: seq<Word>)
    requires BlockFits(op) && Addressed(d, op) && Encode(d, op) != []
    ensures |Meant(d, op)| == 1
    ensures DecodeOne(Encode(d, op) + rest) == Some((Meant(d, op)[0], |Encode(d, op)|))
  {
    if op.Sync? {
      SyncDecodes(d, op, rest);
    } else if op.BlockWrite? {
      BlockDecodes(d, op.target, op.data.value, rest);
    } else {
      hide FullAddress, Fields, Field;
    }
  }

  lemma SyncDecodes(d: Device, op: Op, rest: seq<Word>)
    requires op.Sync?
    ensures DecodeOne(Encode(d, op) + rest) == Some((Meant(d, op)[0], 4))
  {
    FieldsDecode(op.direction, op.row, op.column, 0);
    FieldsDecode(0, op.rowNum, op.columnNum, op.channel);
    hide Fields, Field;
  }

  lemma BlockDecodes(d: Device, t: Target, data: seq<Word>, rest: seq<Word>)
    requires (|data| + 3) * 4 < WORDS
    ensures var op := BlockWrite(t, Some(data));
      DecodeOne(Encode(d, op) + rest) == Some((Meant(d, op)[0], |data| + 3))
  {
    var w := Encode(d, BlockWrite(t, Some(data))) + rest;
    hide FullAddress;
    assert w[2] == (|data| + 3) * 4;
    assert w[3..|data| + 3] == data;
  }

  /** An operation left as zero words reads as a write of 0 to 0, which is not what it means. */
  lemma ZerosMislead(d: Device, op: Op, rest: seq<Word>)
    requires !Addressed(d, op)
    ensures |Meant(d, op)| == 1
    ensures DecodeOne(Encode(d, op) + rest).Some? && DecodeOne(Encode(d, op) + rest).value.0 != Meant(d, op)[0]
  {
    hide FullAddress;
  }

  /** A record is recognised by its own words: what follows does not matter. */
  lemma DecodeOnePrefix(x: seq<Word>, y: seq<Word>)
    requires DecodeOne(x).Some?
    ensures DecodeOne(x + y) == DecodeOne(x)
  {
    if x[0] == TXN_OPC_BLOCKWRITE {
      assert (x + y)[3..x[2] / 4] == x[3..x[2] / 4];
    }
  }

  lemma DecodeFirst(w: seq<Word>)
    requires DecodeOne(w).Some?
    ensures DecodeBody(w).Some? <==> DecodeBody(w[DecodeOne(w).value.1..]).Some?
    ensures DecodeBody(w).Some? ==>
      DecodeBody(w).value == [DecodeOne(w).value.0] + DecodeBody(w[DecodeOne(w).value.1..]).value
  {}

  lemma BodyStarts(x: seq<Word>)
    requires x != [] && DecodeBody(x).Some?
    ensures DecodeOne(x).Some?
  {}

  /** Behind a stream that decodes, another decodes as it does by itself. */
  lemma {:induction false} DecodeJoins(x: seq<Word>, y: seq<Word>)
    requires DecodeBody(x).Some?
    ensures DecodeBody(x + y).Some? <==> DecodeBody(y).Some?
    ensures DecodeBody(y).Some? ==> DecodeBody(x + y).value == DecodeBody(x).value + DecodeBody(y).value
    decreases |x|
  {
    if x == [] {
      assert x + y == y;
      assert DecodeBody(y).Some? ==> [] + DecodeBody(y).value == DecodeBody(y).value;
    } else {
      BodyStarts(x);
      JoinTail(x, y);
      DecodeJoins(x[DecodeOne(x).value.1..], y);
      DecodeFirst(x);
      DecodeFirst(x + y);
      hide DecodeOne, DecodeBody;
      if DecodeBody(y).Some? {
        Associates([DecodeOne(x).value.0], DecodeBody(x[DecodeOne(x).value.1..]).value, DecodeBody(y).value);
      }
    }
  }

  lemma JoinTail(x: seq<Word>, y: seq<Word>)
    requires DecodeOne(x).Some?
    ensures DecodeOne(x + y) == DecodeOne(x)
    ensures (x + y)[DecodeOne(x).value.1..] == x[DecodeOne(x).value.1..] + y
  {
    DecodeOnePrefix(x, y);
    hide DecodeOne;
  }

  lemma OneOpDecodes(d: Device, op: Op)
    requires BlockFits(op) && Addressed(d, op)
    ensures DecodeBody(Encode(d, op)) == Some(Meant(d, op))
  {
    var w := Encode(d, op);
    if w == [] {
      assert Meant(d, op) == [];
    } else {
      OneDecodes(d, op, []);
      assert w + [] == w;
      DecodeFirst(w);
      assert w[|w|..] == [] && DecodeBody([]) == Some([]);
      hide Encode, DecodeOne, Meant, DecodeBody;
      assert Meant(d, op) == [Meant(d, op)[0]] + [];
    }
  }

  // ----- from the front

  lemma {:induction false} FromTheFront(d: Device, op: Op, ops: seq<Op>)
    ensures EncodeAll(d, [op] + ops) == Encode(d, op) + EncodeAll(d, ops)
    ensures MeantAll(d, [op] + ops) == Meant(d, op) + MeantAll(d, ops)
  {
    hide Encode, Meant;
    var all := [op] + ops;
    if ops == [] {
      assert all[..0] == [] && all == [op];
      assert EncodeAll(d, []) == [] && MeantAll(d, []) == [];
    } else {
      FromTheFront(d, op, ops[..|ops| - 1]);
      assert all[..|all| - 1] == [op] + ops[..|ops| - 1];
      Associates(Encode(d, op), EncodeAll(d, ops[..|ops| - 1]), Encode(d, ops[|ops| - 1]));
      Associates(Meant(d, op), MeantAll(d, ops[..|ops| - 1]), Meant(d, ops[|ops| - 1]));
    }
  }

  /** The words decode to what the operations mean. */
  predicate ReadsBack(w: seq<Word>, records: seq<Record>) { DecodeBody(w) == Some(records) }

  lemma GoodFirst(d: Device, op: Op, w: seq<Word>, records: seq<Record>)
    requires BlockFits(op) && Addressed(d, op)
    ensures ReadsBack(Encode(d, op) + w, Meant(d, op) + records) <==> ReadsBack(w, records)
  {
    OneOpDecodes(d, op);
    DecodeJoins(Encode(d, op), w);
    hide Encode, Meant, DecodeBody, Addressed;
    if ReadsBack(Encode(d, op) + w, Meant(d, op) + records) {
      SameRest(Meant(d, op), DecodeBody(w).value, records);
    }
  }

  lemma SameRest(a: seq<Record>, b: seq<Record>, c: seq<Record>)
    requires a + b == a + c
    ensures b == c
  {
    assert b == (a + b)[|a|..] && c == (a + c)[|a|..];
  }

  lemma BadFirst(d: Device, op: Op, w: seq<Word>, records: seq<Record>)
    requires !Addressed(d, op)
    ensures !ReadsBack(Encode(d, op) + w, Meant(d, op) + records)
  {
    ZerosMislead(d, op, w);
    DecodeFirst(Encode(d, op) + w);
    hide Encode, Meant, DecodeOne, DecodeBody, Addressed;
    var x := Encode(d, op) + w;
    assert DecodeBody(x).Some? ==> DecodeBody(x).value[0] == DecodeOne(x).value.0;
    assert (Meant(d, op) + records)[0] == Meant(d, op)[0];
  }

  /** The body reads back exactly when no operation is symbolic, but for writes of 0 to 0. */
  lemma {:induction false} BodyReadsBackIff(d: Device, ops: seq<Op>)
    requires forall op :: op in ops ==> BlockFits(op)
    ensures ReadsBack(EncodeAll(d, ops), MeantAll(d, ops)) <==> forall op :: op in ops ==> Addressed(d, op)
  {
    hide BlockFits, Encode, Meant, Addressed;
    if ops != [] {
      var first, rest := ops[0], ops[1..];
      assert ops == [first] + rest;
      BodyReadsBackIff(d, rest);
      FromTheFront(d, first, rest);
      hide ReadsBack, EncodeAll, MeantAll;
      if Addressed(d, first) {
        GoodFirst(d, first, EncodeAll(d, rest), MeantAll(d, rest));
      } else {
        BadFirst(d, first, EncodeAll(d, rest), MeantAll(d, rest));
      }
    }
  }

  // ----- whole streams

  /** Block writes whose data could not be found. */
  function Vanished(ops: seq<Op>): nat {
    if ops == [] then 0 else
      var last := ops[|ops| - 1];
      Vanished(ops[..|ops| - 1]) + if last.BlockWrite? && last.data == None then 1 else 0
  }

  /** The header counts the vanished operations too. */
  lemma {:induction false} CountIncludesVanished(d: Device, ops: seq<Op>)
    ensures CountAll(ops) == |MeantAll(d, ops)| + Vanished(ops)
  {
    if ops != [] {
      CountIncludesVanished(d, ops[..|ops| - 1]);
    }
  }

  lemma {:induction false} VanishedIff(ops: seq<Op>)
    ensures Vanished(ops) == 0 <==> forall op :: op in ops && op.BlockWrite? ==> op.data.Some?
  {
    if ops != [] {
      VanishedIff(ops[..|ops| - 1]);
      assert ops == ops[..|ops| - 1] + [ops[|ops| - 1]];
    }
  }

  /** The stream fits its size field. */
  predicate Fits(d: Device, ops: seq<Op>) {
    && (4 + |EncodeAll(d, ops)|) * 4 < WORDS && CountAll(ops) < WORDS
    && forall op :: op in ops ==> BlockFits(op)
  }

  lemma TranslatedParts(d: Device, ops: seq<Op>)
    requires Fits(d, ops)
    ensures var w := Translated(d, [], ops);
      |w| == 4 + |EncodeAll(d, ops)| && w[2] == CountAll(ops) && w[3] == |w| * 4 && w[4..] == EncodeAll(d, ops)
  {
    hide EncodeAll, CountAll;
    assert [] + [Header0(d), Header1(d), 0, 0] == [Header0(d), Header1(d), 0, 0];
  }

  lemma HeaderWords(d: Device, ops: seq<Op>)
    ensures var w := Translated(d, [], ops);
      |w| >= 4
      && w[0] == 1 + 3 * 0x1_0000 + d.rows % 0x100 * 0x100_0000
      && w[1] == d.columns % 0x100 + d.memTileRows % 0x100 * 0x100
  {
    hide EncodeAll, CountAll;
  }

  /** The bytes of a word, from the low one up. */
  lemma WordBytes(w: Word, b0: nat, b1: nat, b2: nat, b3: nat)
    requires b0 < 0x100 && b1 < 0x100 && b2 < 0x100 && b3 < 0x100
    requires w == b0 + b1 * 0x100 + b2 * 0x1_0000 + b3 * 0x100_0000
    ensures Field(w, 1) == b0 && Field(w, 0x100) == b1 && Field(w, 0x1_0000) == b2 && Field(w, 0x100_0000) == b3
  {
    DivModUnique(w, 0x100, b1 + b2 * 0x100 + b3 * 0x1_0000, b0);
    DivModUnique(w, 0x1_0000, b2 + b3 * 0x100, b0 + b1 * 0x100);
    DivModUnique(w, 0x100_0000, b3, b0 + b1 * 0x100 + b2 * 0x1_0000);
  }

  /** The header of a stream says which format it has, and gives the sizes of the device, cut down to a byte each. */
  lemma OriginReadsBack(d: Device, ops: seq<Op>)
    ensures var w := Translated(d, [], ops);
      |w| >= 4 && w[1] < 0x1_0000
      && DecodeOrigin(w) == Origin(1, 0, 3, d.rows % 0x100, d.columns % 0x100, d.memTileRows % 0x100)
  {
    HeaderWords(d, ops);
    hide Translated, Field;
    var w := Translated(d, [], ops);
    WordBytes(w[0], 1, 0, 3, d.rows % 0x100);
    WordBytes(w[1], d.columns % 0x100, d.memTileRows % 0x100, 0, 0);
  }

  /** A reader that checks count and size gets what the operations mean exactly when no masked write is symbolic, no
      block write lacks its data, and symbolic writes write 0 to 0. */
  lemma StreamReadsBackIff(d: Device, ops: seq<Op>)
    requires Fits(d, ops)
    ensures DecodeStream(Translated(d, [], ops)) == Some(MeantAll(d, ops))
       <==> forall op :: op in ops ==> Faithful(d, op)
  {
    TranslatedParts(d, ops);
    BodyReadsBackIff(d, ops);
    CountIncludesVanished(d, ops);
    VanishedIff(ops);
    FaithfulIff(d, ops);
    hide Translated, EncodeAll, MeantAll, DecodeBody, CountAll, Vanished, Addressed, Faithful, BlockFits;
    assert |Translated(d, [], ops)| == 4 + |EncodeAll(d, ops)|;
  }

  lemma FaithfulIff(d: Device, ops: seq<Op>)
    ensures (forall op :: op in ops ==> Faithful(d, op)) <==>
      (forall op :: op in ops ==> Addressed(d, op)) && (forall op :: op in ops && op.BlockWrite? ==> op.data.Some?)
  {
    hide Addressed;
  }

  /** Every list of faithful operations is recovered from its stream. */
  lemma RoundTrip(d: Device, ops: seq<Op>)
    requires Fits(d, ops) && forall op :: op in ops ==> Faithful(d, op)
    ensures DecodeStream(Translated(d, [], ops)) == Some(MeantAll(d, ops))
  {
    StreamReadsBackIff(d, ops);
  }

  /** So two lists with the same stream mean the same. */
  lemma UniquelyDecodable(d: Device, ops: seq<Op>, ops': seq<Op>)
    requires Fits(d, ops) && Fits(d, ops')
    requires (forall op :: op in ops ==> Faithful(d, op)) && (forall op :: op in ops' ==> Faithful(d, op))
    requires Translated(d, [], ops) == Translated(d, [], ops')
    ensures MeantAll(d, ops) == MeantAll(d, ops')
  {
    hide Faithful, DecodeStream, Translated, MeantAll, Fits;
    RoundTrip(d, ops);
    RoundTrip(d, ops');
  }

  // ----- registers

  type Registers = map<int, Word>

  function Read(regs: Registers, addr: int): Word { if addr in regs then regs[addr] else 0 }

  /** The bits of `v` under the mask, the old ones elsewhere. */
  function Masked(before: Word, v: Word, mask: Word): Word {
    Wrap32(Or(And(before, WORDS - 1 - mask), And(v, mask)))
  }

  /** A masked write replaces the bits under the mask and keeps the others. */
  lemma MaskedBits(before: Word, v: Word, mask: Word, k: nat)
    requires k < 32
    ensures Bit(Masked(before, v, mask), k) == if Bit(mask, k) == 1 then Bit(v, k) else Bit(before, k)
  {
    hide Bit, Or, And, Pow2;
    Pow2Values();
    var kept, put := And(before, WORDS - 1 - mask), And(v, mask);
    OrStays(kept, put, 32);
    OrBit(kept, put, k);
    AndBit(before, WORDS - 1 - mask, k);
    AndBit(v, mask, k);
    ComplementBit(mask, 32, k);
    BitIsSmall(mask, k);
    BitIsSmall(v, k);
    BitIsSmall(before, k);
  }

  function StoreBlock(regs: Registers, addr: int, data: seq<Word>): Registers {
    if data == [] then regs else StoreBlock(regs, addr, data[..|data| - 1])[addr + 4 * (|data| - 1) := data[|data| - 1]]
  }

  /** A block is stored in consecutive words, and nothing else changes. */
  lemma {:induction false} BlockIsStored(regs: Registers, addr: int, data: seq<Word>, a: int)
    ensures Read(StoreBlock(regs, addr, data), a)
      == if addr <= a < addr + 4 * |data| && (a - addr) % 4 == 0 then data[(a - addr) / 4] else Read(regs, a)
  {
    if data != [] {
      BlockIsStored(regs, addr, data[..|data| - 1], a);
    }
  }

  /** What the controller does with a record. */
  function Step(regs: Registers, r: Record): Registers {
    match r
    case WriteRecord(addr, v) => regs[addr := v]
    case MaskRecord(addr, v, m) => regs[addr := Masked(Read(regs, addr), v, m)]
    case BlockRecord(addr, data) => StoreBlock(regs, addr, data)
    case SyncRecord(_, _, _, _, _, _) => regs
    case PatchRecord(_, _, _) => regs
  }

  function Replay(regs: Registers, records: seq<Record>): Registers {
    if records == [] then regs else Step(Replay(regs, records[..|records| - 1]), records[|records| - 1])
  }

  /** What an operation does by itself. */
  function RunOp(d: Device, regs: Registers, op: Op): Registers {
    match op
    case Write32(t, v) => regs[FullAddress(d, t) := v]
    case MaskWrite32(t, v, m) => regs[FullAddress(d, t) := Masked(Read(regs, FullAddress(d, t)), v, m)]
    case BlockWrite(t, data) => if data.Some? then StoreBlock(regs, FullAddress(d, t), data.value) else regs
    case _ => regs
  }

  function Run(d: Device, regs: Registers, ops: seq<Op>): Registers {
    if ops == [] then regs else RunOp(d, Run(d, regs, ops[..|ops| - 1]), ops[|ops| - 1])
  }

  lemma ReplayOne(regs: Registers, records: seq<Record>, r: Record)
    ensures Replay(regs, records + [r]) == Step(Replay(regs, records), r)
  {
    assert (records + [r])[..|records|] == records;
  }

  lemma MeantRuns(d: Device, regs: Registers, op: Op)
    ensures |Meant(d, op)| <= 1
    ensures RunOp(d, regs, op) == if Meant(d, op) == [] then regs else Step(regs, Meant(d, op)[0])
  {
    hide FullAddress, StoreBlock, Masked;
  }

  lemma RunNext(d: Device, regs: Registers, ops: seq<Op>)
    requires ops != []
    ensures Run(d, regs, ops) == RunOp(d, Run(d, regs, ops[..|ops| - 1]), ops[|ops| - 1])
  {}

  lemma {:induction false} ReplayMeant(d: Device, regs: Registers, ops: seq<Op>)
    ensures Replay(regs, MeantAll(d, ops)) == Run(d, regs, ops)
  {
    hide Meant, RunOp, Step;
    if ops != [] {
      var init, last := ops[..|ops| - 1], ops[|ops| - 1];
      ReplayMeant(d, regs, init);
      MeantRuns(d, Run(d, regs, init), last);
      hide Run, Replay;
      assert Run(d, regs, ops) == RunOp(d, Run(d, regs, init), last) by { RunNext(d, regs, ops); }
      if Meant(d, last) == [] {
        assert MeantAll(d, init) + [] == MeantAll(d, init);
      } else {
        assert Meant(d, last) == [Meant(d, last)[0]];
        ReplayOne(regs, MeantAll(d, init), Meant(d, last)[0]);
      }
    }
  }

  /** Replaying the decoded stream leaves the registers as running the operations in order does. */
  lemma StreamRuns(d: Device, regs: Registers, ops: seq<Op>)
    requires Fits(d, ops) && forall op :: op in ops ==> Faithful(d, op)
    ensures DecodeStream(Translated(d, [], ops)).Some?
    ensures Replay(regs, DecodeStream(Translated(d, [], ops)).value) == Run(d, regs, ops)
  {
    RoundTrip(d, ops);
    ReplayMeant(d, regs, ops);
  }

  // ----- limits

  /** A symbolic masked write leaves four zero words, which read as a write and the start of another record. */
  lemma SymbolicMaskDesynchronises(d: Device, t: Target, v: Word, m: Word, addr: Word, value: Word)
    requires t.symbolic
    ensures var ops := [MaskWrite32(t, v, m), Write32(Target(addr, None, None, false), value)];
      DecodeBody(EncodeAll(d, ops)).None?
  {
    var op1, op2 := MaskWrite32(t, v, m), Write32(Target(addr, None, None, false), value);
    var w := EncodeAll(d, [op1, op2]);
    EncodeNext(d, [], op1);
    EncodeNext(d, [op1], op2);
    assert [] + [op1] == [op1] && [op1] + [op2] == [op1, op2];
    assert w == [0, 0, 0, 0, TXN_OPC_WRITE, addr, value];
    hide EncodeAll;
    assert w[3..] == [0, TXN_OPC_WRITE, addr, value];
    assert w[3..][3..] == [value];
    assert DecodeOne(w).value.1 == 3 && DecodeOne(w[3..]).value.1 == 3 && DecodeOne([value]).None?;
    assert DecodeBody([value]).None?;
    assert DecodeBody(w[3..]).None?;
  }

  const ZERO_WRITES: seq<Record> := [WriteRecord(0, 0), WriteRecord(0, 0), WriteRecord(0, 0), WriteRecord(0, 0)]

  /** Three of them in a row are twelve zero words, which read as four writes: with one block write that left nothing,
      even the count is right, and the reader notices nothing. */
  lemma SymbolicMasksGoUnnoticed(d: Device, t: Target, v: Word, m: Word)
    requires t.symbolic
    ensures var op := MaskWrite32(t, v, m);
      DecodeStream(Translated(d, [], [op, op, op, BlockWrite(t, None)])) == Some(ZERO_WRITES)
  {
    var op, gone := MaskWrite32(t, v, m), BlockWrite(t, None);
    var ops := [op, op, op, gone];
    TwelveZeros(d, op, gone);
    TwelveZerosDecode();
    var w := Translated(d, [], ops);
    hide EncodeAll, DecodeBody, CountAll;
    assert [] + [Header0(d), Header1(d), 0, 0] == [Header0(d), Header1(d), 0, 0];
    assert w[4..] == Zeros(12);
  }

  lemma TwelveZeros(d: Device, op: Op, gone: Op)
    requires op.MaskWrite32? && op.target.symbolic && gone.BlockWrite? && gone.data == None
    ensures EncodeAll(d, [op, op, op, gone]) == Zeros(12) && CountAll([op, op, op, gone]) == 4
  {
    hide EncodeAll, CountAll, Zeros, Encode;
    ThreeMasks(d, op);
    EncodeNext(d, [op, op, op], gone);
    assert [op, op, op] + [gone] == [op, op, op, gone];
    NothingLeft(d, gone);
    assert Zeros(12) + [] == Zeros(12);
  }

  lemma NothingLeft(d: Device, gone: Op)
    requires gone.BlockWrite? && gone.data == None
    ensures Encode(d, gone) == [] && Counted(gone) == 1
  {}

  lemma NothingYet(d: Device)
    ensures EncodeAll(d, []) == Zeros(0) && CountAll([]) == 0
  {}

  lemma ThreeMasks(d: Device, op: Op)
    requires op.MaskWrite32? && op.target.symbolic
    ensures EncodeAll(d, [op, op, op]) == Zeros(12) && CountAll([op, op, op]) == 3
  {
    hide EncodeAll, CountAll, Zeros;
    NothingYet(d);
    MaskAddsZeros(d, [], op, 0);
    assert [] + [op] == [op];
    MaskAddsZeros(d, [op], op, 4);
    assert [op] + [op] == [op, op];
    MaskAddsZeros(d, [op, op], op, 8);
    assert [op, op] + [op] == [op, op, op];
  }

  lemma MaskAddsZeros(d: Device, ops: seq<Op>, op: Op, n: nat)
    requires op.MaskWrite32? && op.target.symbolic && EncodeAll(d, ops) == Zeros(n)
    ensures EncodeAll(d, ops + [op]) == Zeros(n + 4) && CountAll(ops + [op]) == CountAll(ops) + 1
  {
    EncodeNext(d, ops, op);
    hide EncodeAll;
    assert Zeros(n) + [0, 0, 0, 0] == Zeros(n + 4);
  }

  lemma NoZerosDecode()
    ensures DecodeBody(Zeros(0)) == Some([])
  {
    assert Zeros(0) == [];
  }

  lemma TwelveZerosDecode()
    ensures DecodeBody(Zeros(12)) == Some(ZERO_WRITES)
  {
    hide DecodeBody, Zeros;
    ZerosDecode(12);
    ZerosDecode(9);
    ZerosDecode(6);
    ZerosDecode(3);
    NoZerosDecode();
    var r := [WriteRecord(0, 0)];
    assert r + (r + (r + (r + []))) == ZERO_WRITES;
  }

  lemma ZerosDecode(n: nat)
    requires n >= 3
    ensures DecodeBody(Zeros(n)).Some? <==> DecodeBody(Zeros(n - 3)).Some?
    ensures DecodeBody(Zeros(n)).Some? ==>
      DecodeBody(Zeros(n)).value == [WriteRecord(0, 0)] + DecodeBody(Zeros(n - 3)).value
  {
    assert Zeros(n)[3..] == Zeros(n - 3);
    assert DecodeOne(Zeros(n)) == Some((WriteRecord(0, 0), 3));
    DecodeFirst(Zeros(n));
    hide DecodeBody;
  }

  /** The header of a translation: where it starts, the versions, the count, and the size of the translation. */
  predicate HeaderRight(d: Device, base: seq<Word>, ops: seq<Op>) {
    var w := Translated(d, base, ops);
    w[|base|..|base| + 4] == [Header0(d), Header1(d), Wrap32(CountAll(ops)), Wrap32((4 + |EncodeAll(d, ops)|) * 4)]
  }

  /** Count and size are written at fixed positions: the header is right exactly when the vector was empty. */
  lemma HeaderRightIff(d: Device, base: seq<Word>, ops: seq<Op>)
    requires Fits(d, ops)
    ensures HeaderRight(d, base, ops) <==> base == []
  {
    hide EncodeAll, CountAll, Header0, Header1;
    var w := Translated(d, base, ops);
    var header := w[|base|..|base| + 4];
    assert header[3] == w[|base| + 3];
    if base == [] {
      TranslatedParts(d, ops);
      assert header[0] == w[0] && header[1] == w[1] && header[2] == w[2];
      assert [] + [Header0(d), Header1(d), 0, 0] == [Header0(d), Header1(d), 0, 0];
    }
  }

  const NPU1: Device := Device(6, 5, 1, 25, 20)

  /** The shifts of the NPU, as multiplications. */
  lemma NpuAddress(t: Target)
    requires t.col.Some? && t.row.Some?
    ensures FullAddress(NPU1, t) == Wrap32(Or(Or(Wrap32((t.col.value % 0x100) * 0x200_0000),
      Wrap32((t.row.value % 0x100) * 0x10_0000)), t.address % 0x10_0000))
  {
    Pow2Values();
    hide Pow2, Or;
  }

  lemma ShiftedFields(c: nat, r: nat, a: nat)
    requires c < 128 && r < 32 && a < 0x10_0000
    ensures Or(Or(c * 0x200_0000, r * 0x10_0000), a) == c * 0x200_0000 + r * 0x10_0000 + a
  {
    hide Or, IsPower;
    Powers();
    OrAdds(c, r * 0x10_0000, 0x200_0000);
    assert (c * 32 + r) * 0x10_0000 == c * 0x200_0000 + r * 0x10_0000;
    OrAdds(c * 32 + r, a, 0x10_0000);
  }

  lemma NpuAddressIsSum(t: Target)
    requires t.col.Some? && t.row.Some? && t.col.value < 128 && t.row.value < 32
    ensures FullAddress(NPU1, t) == t.col.value * 0x200_0000 + t.row.value * 0x10_0000 + t.address % 0x10_0000
  {
    hide Or, FullAddress;
    NpuAddress(t);
    ShiftedFields(t.col.value, t.row.value, t.address % 0x10_0000);
  }

  /** On the NPU, tile coordinates and offset can be read back as long as the row has five bits and the column seven. */
  lemma TileAddressFields(t: Target)
    requires t.col.Some? && t.row.Some? && t.col.value < 128 && t.row.value < 32
    ensures FullAddress(NPU1, t) / 0x200_0000 == t.col.value
    ensures FullAddress(NPU1, t) / 0x10_0000 % 32 == t.row.value
    ensures FullAddress(NPU1, t) % 0x10_0000 == t.address % 0x10_0000
  {
    NpuAddressIsSum(t);
    hide FullAddress;
    var c, r, a := t.col.value, t.row.value, t.address % 0x10_0000;
    DivModUnique(FullAddress(NPU1, t), 0x200_0000, c, r * 0x10_0000 + a);
    DivModUnique(FullAddress(NPU1, t), 0x10_0000, c * 32 + r, a);
    DivModUnique(c * 32 + r, 32, c, r);
  }

  /** Without a tile, the address is the one given. */
  lemma PlainAddressKept(d: Device, t: Target)
    requires t.col.None? || t.row.None?
    ensures FullAddress(d, t) == t.address
  {}

  lemma OrWithZero(x: nat)
    ensures Or(0, x) == x && Or(x, 0) == x
  {}

  /** Row 32 of column 0 and row 0 of column 1 share their addresses. */
  lemma RowsBeyondFiveBitsCollide(t: Target, t': Target)
    requires t.col == Some(0) && t.row == Some(32) && t'.col == Some(1) && t'.row == Some(0)
    requires t.address == t'.address
    ensures FullAddress(NPU1, t) == FullAddress(NPU1, t')
  {
    hide Or, FullAddress;
    NpuAddress(t);
    NpuAddress(t');
    OrWithZero(0x200_0000);
  }
}
