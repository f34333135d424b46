/** The NPU transaction stream: how operations are encoded as words, and how a reader gets them back. */
module NpuTransaction {
  import opened Options
  import opened Indexing
  import opened Bits

  const TXN_OPC_WRITE: Word := 0x0
  const TXN_OPC_BLOCKWRITE: Word := 0x1
  const TXN_OPC_MASKWRITE: Word := 0x3
  const TXN_OPC_TCT: Word := 0x80
  const TXN_OPC_DDR_PATCH: Word := 0x81

  /** What the target model contributes. */
  datatype Device = Device(rows: nat, columns: nat, memTileRows: nat, columnShift: nat, rowShift: nat)

  /** An address, possibly inside a tile, possibly still symbolic. */
  datatype Target = Target(address: Word, col: Option<Word>, row: Option<Word>, symbolic: bool)

  /** The operations of a runtime sequence; `Other` is any operation without a translation. */
  datatype Op =
    | Sync(direction: Word, row: Word, column: Word, rowNum: Word, columnNum: Word, channel: Word)
    | Write32(target: Target, value: Word)
    | MaskWrite32(target: Target, value: Word, mask: Word)
    | AddressPatch(addr: Word, argIdx: Word, argPlus: Word)
    | BlockWrite(target: Target, data: Option<seq<Word>>)
    | Other

  // ----- encoding

  function Wrap32(x: nat): Word { x % WORDS }

  /** The full address of a target in a tile, or the address as given. */
  function FullAddress(d: Device, t: Target): Word {
    if t.col.Some? && t.row.Some? then
      Wrap32(Or(
        Or(Wrap32((t.col.value % 0x100) * Pow2(d.columnShift)), Wrap32((t.row.value % 0x100) * Pow2(d.rowShift))),
        t.address % 0x10_0000))
    else t.address
  }

  /** Three byte-sized fields, above the lowest byte or in it. */
  function Fields(f0: nat, f1: nat, f2: nat, f3: nat): Word {
    Wrap32(Or(Or(Or(f0 % 0x100, (f1 % 0x100) * 0x100), (f2 % 0x100) * 0x1_0000), (f3 % 0x100) * 0x100_0000))
  }

  /** The words an operation adds. A symbolic address leaves its zeroed words behind; bad data adds none. */
  function Encode(d: Device, op: Op): seq<Word> {
    match op
    case Sync(dir, row, col, rowNum, colNum, chan) =>
      [TXN_OPC_TCT, 16, Fields(dir, row, col, 0), Fields(0, rowNum, colNum, chan)]
    case Write32(t, v) => if t.symbolic then [0, 0, 0] else [TXN_OPC_WRITE, FullAddress(d, t), v]
    case MaskWrite32(t, v, m) => if t.symbolic then [0, 0, 0, 0] else [TXN_OPC_MASKWRITE, FullAddress(d, t), v, m]
    case AddressPatch(addr, idx, plus) => [TXN_OPC_DDR_PATCH, 24, addr, idx, plus, 0]
    case BlockWrite(t, None) => []
    case BlockWrite(t, Some(data)) => [TXN_OPC_BLOCKWRITE, FullAddress(d, t), Wrap32((|data| + 3) * 4)] + data
    case Other => []
  }

  function EncodeAll(d: Device, ops: seq<Op>): seq<Word> {
    if ops == [] then [] else EncodeAll(d, ops[..|ops| - 1]) + Encode(d, ops[|ops| - 1])
  }

  function Counted(op: Op): nat { if op.Other? then 0 else 1 }

  function CountAll(ops: seq<Op>): nat {
    if ops == [] then 0 else CountAll(ops[..|ops| - 1]) + Counted(ops[|ops| - 1])
  }

  function Header0(d: Device): Word { Wrap32((d.rows % 0x100) * 0x100_0000 + 3 * 0x1_0000 + 0 * 0x100 + 1) }

  function Header1(d: Device): Word { Wrap32((d.memTileRows % 0x100) * 0x100 + d.columns % 0x100) }

  function Zeros(n: nat): seq<Word> { seq(n, _ => 0) }

  /** The vector that is filled: words are reserved at its end, zeroed, and then written in place. */
  class Instructions {
    var words: seq<Word>

    constructor ()
      ensures words == []
    {
      words := [];
    }

    /** Grows the vector by zeroed words and returns where they start. */
    method ReserveAndGetTail(tailSize: nat) returns (tail: nat)
      modifies this
      ensures tail == |old(words)|
      ensures words == old(words) + Zeros(tailSize)
    {
      tail := |words|;
      words := words + Zeros(tailSize);
    }

    method AppendSync(op: Op, ghost d: Device)
      requires op.Sync?
      modifies this
      ensures words == old(words) + Encode(d, op)
    {
      var w := ReserveAndGetTail(4);
      words := words[w := TXN_OPC_TCT];
      words := words[w + 1 := 4 * 4];
      words := words[w + 2 := Fields(op.direction, op.row, op.column, 0)];
      words := words[w + 3 := Fields(0, op.rowNum, op.columnNum, op.channel)];
      assert words == old(words) + Encode(d, op);
    }

    method AppendWrite32(d: Device, op: Op)
      requires op.Write32?
      modifies this
      ensures words == old(words) + Encode(d, op)
    {
      var w := ReserveAndGetTail(3);
      if op.target.symbolic {
        assert words == old(words) + Encode(d, op);
        return;
      }
      words := words[w := TXN_OPC_WRITE];
      words := words[w + 1 := FullAddress(d, op.target)];
      words := words[w + 2 := op.value];
      assert words == old(words) + Encode(d, op);
    }

    method AppendMaskWrite32(d: Device, op: Op)
      requires op.MaskWrite32?
      modifies this
      ensures words == old(words) + Encode(d, op)
    {
      var w := ReserveAndGetTail(4);
      if op.target.symbolic {
        assert words == old(words) + Encode(d, op);
        return;
      }
      words := words[w := TXN_OPC_MASKWRITE];
      words := words[w + 1 := FullAddress(d, op.target)];
      words := words[w + 2 := op.value];
      words := words[w + 3 := op.mask];
      assert words == old(words) + Encode(d, op);
    }

    method AppendAddressPatch(op: Op, ghost d: Device)
      requires op.AddressPatch?
      modifies this
      ensures words == old(words) + Encode(d, op)
    {
      var w := ReserveAndGetTail(6);
      words := words[w := TXN_OPC_DDR_PATCH];
      words := words[w + 1 := 6 * 4];
      words := words[w + 2 := op.addr];
      words := words[w + 3 := op.argIdx];
      words := words[w + 4 := op.argPlus];
      words := words[w + 5 := 0];
      assert words == old(words) + Encode(d, op);
    }

    method AppendBlockWrite(d: Device, op: Op)
      requires op.BlockWrite?
      modifies this
      ensures words == old(words) + Encode(d, op)
    {
      if op.data == None {
        return;
      }
      var data := op.data.value;
      var w := ReserveAndGetTail(|data| + 3);
      ghost var base := old(words);
      words := words[w := TXN_OPC_BLOCKWRITE];
      words := words[w + 1 := FullAddress(d, op.target)];
      words := words[w + 2 := Wrap32((|data| + 3) * 4)];
      ghost var head: seq<Word> := [TXN_OPC_BLOCKWRITE, FullAddress(d, op.target), Wrap32((|data| + 3) * 4)];
      var i := 0;
      while i < |data|
        invariant 0 <= i <= |data|
        invariant |words| == |base| + 3 + |data|
        invariant words[..|base| + 3 + i] == base + head + data[..i]
      {
        words := words[w + 3 + i := data[i]];
        i := i + 1;
      }
      assert words == base + head + data;
    }

    method Append(d: Device, op: Op) returns (count: nat)
      modifies this
      ensures words == old(words) + Encode(d, op) && count == Counted(op)
    {
      count := 1;
      match op {
        case Sync(_, _, _, _, _, _) => AppendSync(op, d);
        case Write32(_, _) => AppendWrite32(d, op);
        case BlockWrite(_, _) => AppendBlockWrite(d, op);
        case MaskWrite32(_, _, _) => AppendMaskWrite32(d, op);
        case AddressPatch(_, _, _) => AppendAddressPatch(op, d);
        case Other => count := 0;
      }
    }

    /** Translates the sequences of the given name, or all of them for an empty name. */
    method Translate(d: Device, sequences: seq<(string, seq<Op>)>, name: string)
      modifies this
      ensures words == Translated(d, old(words), Selected(sequences, name))
    {
      var w := ReserveAndGetTail(4);
      words := words[w := Header0(d)];
      words := words[w + 1 := Header1(d)];
      assert words == old(words) + [Header0(d), Header1(d), 0, 0];
      var count := TranslateBody(d, sequences, name);
      words := words[2 := Wrap32(count)];
      words := words[3 := Wrap32(|words| * 4)];
    }

    method TranslateBody(d: Device, sequences: seq<(string, seq<Op>)>, name: string) returns (count: nat)
      modifies this
      ensures words == old(words) + EncodeAll(d, Selected(sequences, name))
      ensures count == CountAll(Selected(sequences, name))
    {
      ghost var base := words;
      ghost var done: seq<Op> := [];
      count := 0;
      var s := 0;
      assert words == base + EncodeAll(d, done) && count == CountAll(done);
      hide EncodeAll, CountAll, Encode;
      while s < |sequences|
        invariant 0 <= s <= |sequences| && done == Selected(sequences[..s], name)
        invariant words == base + EncodeAll(d, done) && count == CountAll(done)
      {
        SelectedNext(sequences, s, name);
        if name == "" || name == sequences[s].0 {
          count := TranslateBlock(d, sequences[s].1, base, done, count);
          done := done + sequences[s].1;
        } else {
          assert done + [] == done;
        }
        s := s + 1;
      }
      assert sequences[..s] == sequences;
    }

    method TranslateBlock(d: Device, ops: seq<Op>, ghost base: seq<Word>, ghost before: seq<Op>, start: nat)
      returns (count: nat)
      requires words == base + EncodeAll(d, before) && start == CountAll(before)
      modifies this
      ensures words == base + EncodeAll(d, before + ops) && count == CountAll(before + ops)
    {
      hide EncodeAll, CountAll, Encode;
      count := start;
      ghost var done := before;
      var i := 0;
      while i < |ops|
        invariant 0 <= i <= |ops| && done == before + ops[..i]
        invariant words == base + EncodeAll(d, done) && count == CountAll(done)
      {
        var n := Append(d, ops[i]);
        EncodeNext(d, done, ops[i]);
        assert base + EncodeAll(d, done) + Encode(d, ops[i]) == base + (EncodeAll(d, done) + Encode(d, ops[i]));
        count, done := count + n, done + [ops[i]];
        i := i + 1;
      }
      assert before + ops[..i] == before + ops;
    }
  }

  function Selected<T>(sequences: seq<(string, seq<T>)>, name: string): seq<T> {
    if sequences == [] then [] else
      var last := sequences[|sequences| - 1];
      Selected(sequences[..|sequences| - 1], name) + if name == "" || name == last.0 then last.1 else []
  }

  lemma SelectedNext<T>(sequences: seq<(string, seq<T>)>, s: nat, name: string)
    requires s < |sequences|
    ensures Selected(sequences[..s + 1], name)
      == Selected(sequences[..s], name) + if name == "" || name == sequences[s].0 then sequences[s].1 else []
  {
    assert sequences[..s + 1][..s] == sequences[..s];
  }

  lemma EncodeNext(d: Device, ops: seq<Op>, op: Op)
    ensures EncodeAll(d, ops + [op]) == EncodeAll(d, ops) + Encode(d, op)
    ensures CountAll(ops + [op]) == CountAll(ops) + Counted(op)
  {
    assert (ops + [op])[..|ops|] == ops;
  }

  /** The vector after a translation: the count and size fields are written at fixed positions. */
  function Translated(d: Device, base: seq<Word>, ops: seq<Op>): (words: seq<Word>)
    ensures |words| == |base| + 4 + |EncodeAll(d, ops)|
  {
    var all := base + [Header0(d), Header1(d), 0, 0] + EncodeAll(d, ops);
    all[2 := Wrap32(CountAll(ops))][3 := Wrap32(|all| * 4)]
  }
}
