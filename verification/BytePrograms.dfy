/**
 Programs as literal bytes: what each byte value does to every queue, and two whole programs, down
 to the bytes they leave in the contract store. No opcode is named here.
 */
module BytePrograms {
  import opened Basics
  import opened QueueMachine
  import opened ContractStore

  // ---------- What each byte does ----------

  /** Values a push of each byte leaves in the queue. */
  function ByteValues(key: seq<byte>): (vs: seq<Value>)
    ensures |vs| == |key| && forall i :: 0 <= i < |key| ==> vs[i] == ByteV(key[i])
  {
    seq(|key|, i requires 0 <= i < |key| => ByteV(key[i]))
  }

  /** A count, that many bytes, and then `rest`. */
  ghost predicate Counted(q: seq<Value>, key: seq<byte>, rest: seq<Value>) {
    q == [IntV(|key|)] + ByteValues(key) + rest
  }

  lemma NextIsStep(data: seq<byte>, b: byte)
    requires data != [] && Meaning(data).Running?
    ensures Meaning(data + [b]) == Step(Meaning(data).m, DecodeByte(Some(data[|data| - 1]), b))
  {
    hide Step, DecodeByte;
    var last := Some(data[|data| - 1]);
    DisassembleConcat(None, data, [b]);
    assert Disassemble(last, [b]) == [DecodeByte(last, b)];
    InterpConcat(START, Disassemble(None, data), [DecodeByte(last, b)]);
    assert [DecodeByte(last, b)][1..] == [];
  }

  lemma CountedIsPackable(q: seq<Value>, key: seq<byte>, rest: seq<Value>)
    requires Counted(q, key, rest)
    ensures Packable(q) && q[0].n == |key|
    ensures Bytes(q[1..|key| + 1]) == key && q[|key| + 1..] == rest
  {
    assert q[1..|key| + 1] == ByteValues(key);
  }

  lemma PackableIsCounted(q: seq<Value>)
    requires Packable(q)
    ensures Counted(q, Bytes(q[1..q[0].n + 1]), q[q[0].n + 1..])
  {
    assert ByteValues(Bytes(q[1..q[0].n + 1])) == q[1..q[0].n + 1];
  }

  /** The first byte of a program: it has no operand and no queue, so only bytes without meaning go on. */
  lemma FirstByte(b: byte)
    ensures Meaning([]) == Panic([])
    ensures Meaning([b]) == if 0x0a <= b <= 0x0f then Panic([]) else Running(Machine([], 0, []))
  {
    assert Disassemble(None, [b]) == [DecodeByte(None, b)];
    var op := DecodeByte(None, b);
    assert [op][1..] == [];
    assert Interp(START, [op]) == Step(START, op);
  }

  /** After a panic nothing is executed any more. */
  lemma NothingAfterPanic(data: seq<byte>, more: seq<byte>)
    requires data != [] && Meaning(data).Panic?
    ensures Meaning(data + more) == Meaning(data)
  {
    DisassembleConcat(None, data, more);
    PanicIsFinal(START, Disassemble(None, data), Disassemble(Some(data[|data| - 1]), more));
  }

  /**
   One more byte, after any program that has not panicked. With `FirstByte` and `NothingAfterPanic`
   this determines the meaning of every program.
   */
  lemma NextByte(data: seq<byte>, b: byte)
    requires data != [] && Meaning(data).Running?
    ensures var m, operand := Meaning(data).m, data[|data| - 1];
            var q, r, room := m.queue, Meaning(data + [b]), m.pushes < 128;
            && (b == 0x0a ==>
                  r == if room then Running(Machine(q + [IntV(operand)], m.pushes + 1, m.writes)) else Panic(m.writes))
            && (b == 0x0b ==>
                  r == if room && |q| >= 2 && q[0].IntV? && q[1].IntV?
                       then Running(Machine(q[2..] + [IntV(q[0].n + q[1].n)], m.pushes + 1, m.writes))
                       else Panic(m.writes))
            && (b == 0x0c ==>
                  r == if room then Running(Machine(q + [ByteV(operand)], m.pushes + 1, m.writes)) else Panic(m.writes))
            && (b == 0x0d && r.Running? ==> exists key, rest ::
                  Counted(q, key, rest) && room && r.m == Machine(rest + [BytesV(key)], m.pushes + 1, m.writes))
            && (b == 0x0d && r.Panic? ==>
                  r.writes == m.writes && (room ==> forall key, rest :: !Counted(q, key, rest)))
            && (b == 0x0e ==>
                  r == if room && |q| >= 2 && q[0].IntV? && q[1].IntV?
                       then Running(Machine(q[2..] + [IntV(q[0].n - q[1].n)], m.pushes + 1, m.writes))
                       else Panic(m.writes))
            && (b == 0x0f ==>
                  r == if |q| >= 2 && q[0].BytesV? && q[1].IntV?
                       then Running(Machine(q[2..], m.pushes, m.writes + [Write(q[0].bytes, q[1].n)]))
                       else Panic(m.writes))
            && (b < 0x0a || b > 0x0f ==> r == Running(m))
  {
    NextIsStep(data, b);
    var q := Meaning(data).m.queue;
    if b == 0x0d {
      if Packable(q) {
        PackableIsCounted(q);
      }
      forall key, rest | Counted(q, key, rest) ensures Packable(q) {
        CountedIsPackable(q, key, rest);
      }
    }
  }

  // ---------- Two whole programs ----------

  function KeyBytes(key: seq<byte>): seq<byte> {
    if key == [] then [] else [key[0], 0x0c] + KeyBytes(key[1..])
  }

  /** Packs a key and stores `v` under it. */
  function StoreProgram(key: seq<byte>, v: byte): (data: seq<byte>)
    requires |key| < 0x100
    ensures data != []
  {
    [|key|, 0x0a] + KeyBytes(key) + [0x0d, v, 0x0a, 0x0f]
  }

  /** Packs a key and stores `a - b` under it. */
  function SubtractProgram(key: seq<byte>, a: byte, b: byte): (data: seq<byte>)
    requires |key| < 0x100
    ensures data != []
  {
    [|key|, 0x0a] + KeyBytes(key) + [a, 0x0a, b, 0x0a, 0x0d, 0x0e, 0x0f]
  }

  predicate InertByte(b: byte) {
    b < 0x0a || b > 0x0f
  }

  /** The length of the key and each of its bytes are operands too. */
  predicate InertKey(key: seq<byte>) {
    (|key| < 0x0a || |key| > 0x0f) && forall i :: 0 <= i < |key| ==> InertByte(key[i])
  }

  function PushBytes(key: seq<byte>): (ops: seq<Op>)
    ensures |ops| == |key| && forall i :: 0 <= i < |key| ==> ops[i] == PushByte(key[i])
  {
    seq(|key|, i requires 0 <= i < |key| => PushByte(key[i]))
  }

  /** Queues the length of a key and then its bytes. */
  function KeyOps(key: seq<byte>): (ops: seq<Op>)
    requires |key| < 0x100
    ensures Program(ops) && |ops| == |key| + 1 && ops[0] == PushInt(|key|)
    ensures forall i :: 0 <= i < |key| ==> ops[i + 1] == PushByte(key[i])
  {
    [PushInt(|key|)] + PushBytes(key)
  }

  lemma {:induction false} PushBytesAssembled(key: seq<byte>)
    ensures Assemble(PushBytes(key)) == KeyBytes(key)
    decreases |key|
  {
    if key != [] {
      assert PushBytes(key)[1..] == PushBytes(key[1..]);
      PushBytesAssembled(key[1..]);
    }
  }

  /** The literal program is the assembled one, and inert exactly if the key and the other operands are. */
  lemma ProgramIsAssembled(key: seq<byte>, tail: seq<Op>, bytes: seq<byte>)
    requires |key| < 0x100 && Program(tail) && Assemble(tail) == bytes
    ensures Program(KeyOps(key) + tail)
    ensures [|key|, 0x0a] + KeyBytes(key) + bytes == Assemble(KeyOps(key) + tail)
    ensures AllInert(KeyOps(key) + tail) <==> InertKey(key) && AllInert(tail)
  {
    var ops := KeyOps(key) + tail;
    AssembleConcat(KeyOps(key), tail);
    PushBytesAssembled(key);
    assert KeyOps(key)[1..] == PushBytes(key);
    if AllInert(ops) {
      assert Inert(ops[0]);
      forall i | 0 <= i < |key| ensures InertByte(key[i]) {
        assert Inert(ops[i + 1]);
      }
      forall i | 0 <= i < |tail| ensures Inert(tail[i]) {
        assert Inert(ops[|key| + 1 + i]);
      }
    }
    if InertKey(key) && AllInert(tail) {
      forall i | 0 <= i < |ops| ensures Inert(ops[i]) {
        if 1 <= i <= |key| {
          assert InertByte(key[i - 1]);
        }
      }
    }
  }

  lemma KeyQueued(key: seq<byte>)
    requires |key| <= 127
    ensures Interp(START, KeyOps(key)) == Running(Machine([IntV(|key|)] + ByteValues(key), |key| + 1, []))
  {
    hide Interp, Step, Program, KeyOps, PushedAll, ByteValues, PushOp;
    KeyOpsPush(key);
    PushesQueue(START, KeyOps(key));
    assert [] + PushedAll(KeyOps(key)) == PushedAll(KeyOps(key));
  }

  lemma KeyOpsPush(key: seq<byte>)
    requires |key| < 0x100
    ensures forall i :: 0 <= i <= |key| ==> PushOp(KeyOps(key)[i])
    ensures PushedAll(KeyOps(key)) == [IntV(|key|)] + ByteValues(key)
  {
    var ops := KeyOps(key);
    forall i | 0 <= i < |ops| ensures PushOp(ops[i]) && Pushed(ops[i]) == ([IntV(|key|)] + ByteValues(key))[i] {
      assert i > 0 ==> ops[i] == PushByte(key[i - 1]);
    }
  }

  lemma StoreTail(v: byte)
    ensures var tail := [Pack, PushInt(v), Store];
            Assemble(tail) == [0x0d, v, 0x0a, 0x0f] && (AllInert(tail) <==> InertByte(v))
  {
    var tail := [Pack, PushInt(v), Store];
    assert [PushInt(v), Store][1..] == [Store] && tail[1..] == [PushInt(v), Store] && [Store][1..] == [];
    assert Assemble([Store]) == [0x0f];
    assert Assemble([PushInt(v), Store]) == [v, 0x0a, 0x0f];
    assert Inert(tail[1]) <==> InertByte(v);
  }

  lemma SubtractTail(a: byte, b: byte)
    ensures var tail := [PushInt(a), PushInt(b), Pack, Sub, Store];
            && Assemble(tail) == [a, 0x0a, b, 0x0a, 0x0d, 0x0e, 0x0f]
            && (AllInert(tail) <==> InertByte(a) && InertByte(b))
  {
    var tail := [PushInt(a), PushInt(b), Pack, Sub, Store];
    assert [Pack, Sub, Store][1..] == [Sub, Store] && [Sub, Store][1..] == [Store] && [Store][1..] == [];
    assert Assemble([Store]) == [0x0f];
    assert Assemble([Sub, Store]) == [0x0e, 0x0f] && Assemble([Pack, Sub, Store]) == [0x0d, 0x0e, 0x0f];
    assert tail[1..] == [PushInt(b), Pack, Sub, Store] && tail[1..][1..] == [Pack, Sub, Store];
    assert Assemble(tail[1..]) == [b, 0x0a, 0x0d, 0x0e, 0x0f];
    assert (Inert(tail[0]) <==> InertByte(a)) && (Inert(tail[1]) <==> InertByte(b));
  }

  lemma PackKey(m: Machine, key: seq<byte>, rest: seq<Value>)
    requires Counted(m.queue, key, rest) && m.pushes < CAPACITY
    ensures Step(m, Pack) == Running(Machine(rest + [BytesV(key)], m.pushes + 1, m.writes))
  {
    CountedIsPackable(m.queue, key, rest);
  }

  lemma StoreOpsRun(key: seq<byte>, v: byte)
    requires |key| <= 125
    ensures Interp(START, KeyOps(key) + [Pack, PushInt(v), Store]) == Running(Machine([], |key| + 3, [Write(key, v)]))
  {
    hide Step;
    var tail := [Pack, PushInt(v), Store];
    KeyQueued(key);
    InterpConcat(START, KeyOps(key), tail);
    var m := Machine([IntV(|key|)] + ByteValues(key), |key| + 1, []);
    assert m.queue == [IntV(|key|)] + ByteValues(key) + [];
    PackKey(m, key, []);
    var packed := Machine([BytesV(key)], |key| + 2, []);
    assert [] + [BytesV(key)] == packed.queue;
    PushThenStore(packed, key, v);
    assert tail[1..] == [PushInt(v), Store];
  }

  lemma PushThenStore(m: Machine, key: seq<byte>, v: byte)
    requires m == Machine([BytesV(key)], |key| + 2, []) && |key| <= 125
    ensures Interp(m, [PushInt(v), Store]) == Running(Machine([], |key| + 3, [Write(key, v)]))
  {
    var pushed := Machine([BytesV(key), IntV(v)], |key| + 3, []);
    assert [BytesV(key)] + [IntV(v)] == pushed.queue;
    assert pushed.queue[2..] == [] && [] + [Write(key, v)] == [Write(key, v)];
    assert [PushInt(v), Store][1..] == [Store] && [Store][1..] == [];
  }

  lemma SubtractOpsRun(key: seq<byte>, a: byte, b: byte)
    requires |key| <= 123
    ensures Interp(START, KeyOps(key) + [PushInt(a), PushInt(b), Pack, Sub, Store])
         == Running(Machine([], |key| + 5, [Write(key, a - b)]))
  {
    hide Step;
    var tail := [PushInt(a), PushInt(b), Pack, Sub, Store];
    KeyQueued(key);
    InterpConcat(START, KeyOps(key), tail);
    var m := Machine([IntV(|key|)] + ByteValues(key), |key| + 1, []);
    PushesQueue(m, [PushInt(a), PushInt(b)]);
    InterpConcat(m, [PushInt(a), PushInt(b)], [Pack, Sub, Store]);
    assert [PushInt(a), PushInt(b)] + [Pack, Sub, Store] == tail;
    var operands := [IntV(a), IntV(b)];
    assert PushedAll([PushInt(a), PushInt(b)]) == operands;
    PackSubStore(Machine([IntV(|key|)] + ByteValues(key) + operands, |key| + 3, []), key, a, b);
  }

  lemma PackSubStore(m: Machine, key: seq<byte>, a: byte, b: byte)
    requires |key| <= 123 && m == Machine([IntV(|key|)] + ByteValues(key) + [IntV(a), IntV(b)], |key| + 3, [])
    ensures Interp(m, [Pack, Sub, Store]) == Running(Machine([], |key| + 5, [Write(key, a - b)]))
  {
    PackKey(m, key, [IntV(a), IntV(b)]);
    var packed := Machine([IntV(a), IntV(b), BytesV(key)], |key| + 4, []);
    assert [IntV(a), IntV(b)] + [BytesV(key)] == packed.queue;
    var differed := Machine([BytesV(key), IntV(a - b)], |key| + 5, []);
    assert Step(packed, Sub) == Running(differed) by {
      assert packed.queue[2..] + [IntV(a - b)] == differed.queue;
    }
    assert Step(differed, Store) == Running(Machine([], |key| + 5, [Write(key, a - b)])) by {
      assert differed.queue[2..] == [];
    }
    assert [Pack, Sub, Store][1..] == [Sub, Store] && [Sub, Store][1..] == [Store] && [Store][1..] == [];
  }

  /**
   The store program does what it is for, on every key within the push budget and every value, if and
   only if no operand byte in it, the key's length included, is an opcode.
   */
  lemma StoreProgramIff(key: seq<byte>, v: byte)
    requires |key| <= 125
    ensures Meaning(StoreProgram(key, v)) == Running(Machine([], |key| + 3, [Write(key, v)]))
            <==> InertKey(key) && InertByte(v)
  {
    hide Meaning, Interp, Assemble, AllInert, InertKey;
    var tail := [Pack, PushInt(v), Store];
    StoreTail(v);
    ProgramIsAssembled(key, tail, [0x0d, v, 0x0a, 0x0f]);
    StoreOpsRun(key, v);
    AssembleKeepsMeaningIff(KeyOps(key) + tail);
  }

  /** The same for the program that stores a difference. */
  lemma SubtractProgramIff(key: seq<byte>, a: byte, b: byte)
    requires |key| <= 123
    ensures Meaning(SubtractProgram(key, a, b)) == Running(Machine([], |key| + 5, [Write(key, a - b)]))
            <==> InertKey(key) && InertByte(a) && InertByte(b)
  {
    hide Meaning, Interp, Assemble, AllInert, InertKey;
    var tail := [PushInt(a), PushInt(b), Pack, Sub, Store];
    SubtractTail(a, b);
    ProgramIsAssembled(key, tail, [a, 0x0a, b, 0x0a, 0x0d, 0x0e, 0x0f]);
    SubtractOpsRun(key, a, b);
    AssembleKeepsMeaningIff(KeyOps(key) + tail);
  }

  /** What the store program leaves in the store: the value and seven zero bytes, and no other change. */
  lemma StoreProgramStores(store: Store, key: seq<byte>, v: byte)
    requires |key| <= 125 && InertKey(key) && InertByte(v)
    ensures Meaning(StoreProgram(key, v)).Running?
    ensures Apply(store, Meaning(StoreProgram(key, v)).Log()) == store[key := [v, 0, 0, 0, 0, 0, 0, 0]]
  {
    StoreProgramIff(key, v);
    SerializedIsLittleEndian(v);
    var log := [Write(key, v)];
    assert log[..0] == [];
    var s := SerializeInt64(v);
    assert s == [s[0], s[1], s[2], s[3], s[4], s[5], s[6], s[7]];
  }

  /** The difference deserializes to itself, below zero too. */
  lemma SubtractProgramStores(store: Store, key: seq<byte>, a: byte, b: byte)
    requires |key| <= 123 && InertKey(key) && InertByte(a) && InertByte(b)
    ensures Meaning(SubtractProgram(key, a, b)).Running?
    ensures var after := Apply(store, Meaning(SubtractProgram(key, a, b)).Log());
            && after == store[key := SerializeInt64(a - b)]
            && DeserializeInt64(after[key]) == Some(a - b)
  {
    SubtractProgramIff(key, a, b);
    SerializeRoundTrip(a - b);
    var log := [Write(key, a - b)];
    assert log[..0] == [];
  }
}
