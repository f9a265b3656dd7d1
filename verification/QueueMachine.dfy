/**
 The meaning of a contract program, given as a FIFO-queue machine over mathematical
 integers, together with the assembler that writes operand bytes before their opcode.

 The machine's only resource is a lifetime budget of `CAPACITY` pushes: the slice behind
 the node's "stack" loses one cell on every pop and never regains it.
 */
module QueueMachine {
  import opened Basics

  const CAPACITY: nat := 128
  const INT_BOUND: int := 255 * 64

  const OP_PUSH_INT: byte := 0x0a
  const OP_ADD: byte := 0x0b
  const OP_PUSH_BYTE: byte := 0x0c
  const OP_PACK: byte := 0x0d
  const OP_SUB: byte := 0x0e
  const OP_STORE: byte := 0x0f

  datatype Value = IntV(n: int) | ByteV(b: byte) | BytesV(bytes: seq<byte>)

  /** `Fault` is a push opcode in the first byte of a program: it has no operand to read. */
  datatype Op = PushInt(b: byte) | PushByte(b: byte) | Add | Sub | Pack | Store | Nop | Fault

  datatype Write = Write(key: seq<byte>, n: int)

  /** `pushes` counts the pushes completed so far; `writes` is the log of contract writes. */
  datatype Machine = Machine(queue: seq<Value>, pushes: nat, writes: seq<Write>)

  datatype Outcome = Running(m: Machine) | Panic(writes: seq<Write>)
  {
    function Log(): seq<Write> {
      if Running? then m.writes else writes
    }
  }

  const START: Machine := Machine([], 0, [])

  function Push(m: Machine, rest: seq<Value>, v: Value): Outcome {
    if m.pushes < CAPACITY
    then Running(Machine(rest + [v], m.pushes + 1, m.writes))
    else Panic(m.writes)
  }

  predicate AllBytes(q: seq<Value>) {
    forall i :: 0 <= i < |q| ==> q[i].ByteV?
  }

  function Bytes(q: seq<Value>): (bs: seq<byte>)
    requires AllBytes(q)
    ensures |bs| == |q|
    ensures forall i :: 0 <= i < |q| ==> bs[i] == q[i].b
  {
    seq(|q|, i requires 0 <= i < |q| => q[i].b)
  }

  /** A `Pack` can run: a count at the front, followed by that many bytes. */
  predicate Packable(q: seq<Value>) {
    && |q| >= 1 && q[0].IntV?
    && 0 <= q[0].n <= |q| - 1
    && AllBytes(q[1..q[0].n + 1])
  }

  predicate TwoInts(q: seq<Value>) {
    |q| >= 2 && q[0].IntV? && q[1].IntV?
  }

  function Step(m: Machine, op: Op): Outcome {
    var q := m.queue;
    match op
    case PushInt(b) => Push(m, q, IntV(b))
    case PushByte(b) => Push(m, q, ByteV(b))
    case Add => if TwoInts(q) then Push(m, q[2..], IntV(q[0].n + q[1].n)) else Panic(m.writes)
    case Sub => if TwoInts(q) then Push(m, q[2..], IntV(q[0].n - q[1].n)) else Panic(m.writes)
    case Pack =>
      if Packable(q)
      then Push(m, q[q[0].n + 1..], BytesV(Bytes(q[1..q[0].n + 1])))
      else Panic(m.writes)
    case Store =>
      if |q| >= 2 && q[0].BytesV? && q[1].IntV?
      then Running(m.(queue := q[2..], writes := m.writes + [Write(q[0].bytes, q[1].n)]))
      else Panic(m.writes)
    case Nop => Running(m)
    case Fault => Panic(m.writes)
  }

  function Interp(m: Machine, ops: seq<Op>): Outcome
    decreases |ops|
  {
    if ops == [] then Running(m)
    else
      match Step(m, ops[0])
      case Panic(w) => Panic(w)
      case Running(m') => Interp(m', ops[1..])
  }

  // ---------- Programs as bytes ----------

  function DecodeByte(prev: Option<byte>, b: byte): Op {
    if b == OP_PUSH_INT then (if prev.Some? then PushInt(prev.value) else Fault)
    else if b == OP_PUSH_BYTE then (if prev.Some? then PushByte(prev.value) else Fault)
    else if b == OP_ADD then Add
    else if b == OP_SUB then Sub
    else if b == OP_PACK then Pack
    else if b == OP_STORE then Store
    else Nop
  }

  /** Every byte of a program is executed, operands included. */
  function Disassemble(prev: Option<byte>, data: seq<byte>): (ops: seq<Op>)
    ensures |ops| == |data|
    ensures forall i :: 0 <= i < |data| ==>
      ops[i] == DecodeByte(if i == 0 then prev else Some(data[i - 1]), data[i])
    decreases |data|
  {
    if data == [] then [] else [DecodeByte(prev, data[0])] + Disassemble(Some(data[0]), data[1..])
  }

  /** What running the byte string `data` on a fresh machine does. */
  function Meaning(data: seq<byte>): Outcome {
    if data == [] then Panic([]) else Interp(START, Disassemble(None, data))
  }

  predicate Instruction(op: Op) {
    !op.Nop? && !op.Fault?
  }

  function Encode(op: Op): (e: seq<byte>)
    requires Instruction(op)
    ensures e != []
  {
    match op
    case PushInt(b) => [b, OP_PUSH_INT]
    case PushByte(b) => [b, OP_PUSH_BYTE]
    case Add => [OP_ADD]
    case Sub => [OP_SUB]
    case Pack => [OP_PACK]
    case Store => [OP_STORE]
  }

  function Assemble(ops: seq<Op>): (data: seq<byte>)
    requires forall i :: 0 <= i < |ops| ==> Instruction(ops[i])
    ensures ops != [] ==> data != []
  {
    if ops == [] then [] else Encode(ops[0]) + Assemble(ops[1..])
  }

  /** The operand byte, itself executed, does nothing. */
  predicate Inert(op: Op) {
    (op.PushInt? || op.PushByte?) ==> !(0x0a <= op.b <= 0x0f)
  }

  function Strip(ops: seq<Op>): seq<Op> {
    if ops == [] then [] else (if ops[0].Nop? then [] else [ops[0]]) + Strip(ops[1..])
  }

  lemma {:induction false} StripConcat(a: seq<Op>, b: seq<Op>)
    ensures Strip(a + b) == Strip(a) + Strip(b)
  {
    if a == [] {
      assert a + b == b;
    } else {
      assert (a + b)[1..] == a[1..] + b;
      StripConcat(a[1..], b);
    }
  }

  lemma {:induction false} DisassembleConcat(prev: Option<byte>, a: seq<byte>, b: seq<byte>)
    ensures Disassemble(prev, a + b)
         == Disassemble(prev, a) + Disassemble(if a == [] then prev else Some(a[|a| - 1]), b)
    decreases |a|
  {
    if a == [] {
      assert a + b == b;
    } else {
      assert (a + b)[1..] == a[1..] + b;
      DisassembleConcat(Some(a[0]), a[1..], b);
    }
  }

  /** One instruction decodes to itself, preceded by whatever its operand byte means. */
  lemma DisassembleOne(prev: Option<byte>, op: Op)
    requires Instruction(op)
    ensures Strip(Disassemble(prev, Encode(op)))
         == (if op.PushInt? || op.PushByte? then Strip([DecodeByte(prev, op.b)]) else []) + [op]
    ensures Inert(op) <==> |Strip(Disassemble(prev, Encode(op)))| == 1
  {
    var e := Encode(op);
    var d := Disassemble(prev, e);
    if |e| == 2 {
      assert d == [DecodeByte(prev, op.b)] + [op];
      StripConcat([DecodeByte(prev, op.b)], [op]);
    } else {
      assert d == [op];
    }
  }

  ghost predicate Program(ops: seq<Op>) {
    forall i :: 0 <= i < |ops| ==> Instruction(ops[i])
  }

  ghost predicate AllInert(ops: seq<Op>) {
    forall i :: 0 <= i < |ops| ==> Inert(ops[i])
  }

  lemma {:induction false} DisassembleAssemble(prev: Option<byte>, ops: seq<Op>)
    requires Program(ops)
    ensures AllInert(ops) ==> Strip(Disassemble(prev, Assemble(ops))) == ops
    ensures |Strip(Disassemble(prev, Assemble(ops)))| >= |ops|
    ensures |Strip(Disassemble(prev, Assemble(ops)))| == |ops| ==> AllInert(ops)
    decreases |ops|
  {
    hide DecodeByte, Encode, Inert;
    if ops != [] {
      var e, rest := Encode(ops[0]), Assemble(ops[1..]);
      var last := Some(e[|e| - 1]);
      var first, others := Strip(Disassemble(prev, e)), Strip(Disassemble(last, rest));
      assert Strip(Disassemble(prev, e + rest)) == first + others by {
        DisassembleConcat(prev, e, rest);
        StripConcat(Disassemble(prev, e), Disassemble(last, rest));
      }
      assert |first| >= 1 && (Inert(ops[0]) ==> first == [ops[0]]) && (|first| == 1 ==> Inert(ops[0])) by {
        DisassembleOne(prev, ops[0]);
      }
      DisassembleAssemble(last, ops[1..]);
      assert AllInert(ops) <==> Inert(ops[0]) && AllInert(ops[1..]) by {
        assert forall i :: 0 < i < |ops| ==> ops[i] == ops[1..][i - 1];
      }
    }
  }

  /** Disassembly undoes assembly exactly for the programs whose operands are inert. */
  lemma AssembleRoundTripIff(ops: seq<Op>)
    requires Program(ops)
    ensures Strip(Disassemble(None, Assemble(ops))) == ops <==> AllInert(ops)
  {
    DisassembleAssemble(None, ops);
  }

  lemma {:induction false} StripKeepsMeaning(m: Machine, ops: seq<Op>)
    ensures Interp(m, Strip(ops)) == Interp(m, ops)
    decreases |ops|
  {
    if ops != [] {
      if ops[0].Nop? {
        assert Strip(ops) == Strip(ops[1..]);
        StripKeepsMeaning(m, ops[1..]);
      } else {
        assert Strip(ops)[1..] == Strip(ops[1..]);
        match Step(m, ops[0])
        case Panic(_) =>
        case Running(m') => StripKeepsMeaning(m', ops[1..]);
      }
    }
  }

  /** Assembling keeps the meaning of a program, panics included. */
  lemma AssembleKeepsMeaning(ops: seq<Op>)
    requires ops != [] && Program(ops) && AllInert(ops)
    ensures Meaning(Assemble(ops)) == Interp(START, ops)
  {
    DisassembleAssemble(None, ops);
    StripKeepsMeaning(START, Disassemble(None, Assemble(ops)));
  }

  /** Work done: each executed instruction makes one push or one write. */
  function Effort(m: Machine): nat {
    m.pushes + |m.writes|
  }

  lemma StepEffort(m: Machine, op: Op)
    requires Step(m, op).Running?
    ensures Effort(Step(m, op).m) == Effort(m) + if op.Nop? then 0 else 1
  {
  }

  lemma {:induction false} InterpEffort(m: Machine, ops: seq<Op>)
    requires Interp(m, ops).Running?
    ensures Effort(Interp(m, ops).m) == Effort(m) + |Strip(ops)|
    decreases |ops|
  {
    hide Step;
    if ops != [] {
      StepEffort(m, ops[0]);
      InterpEffort(Step(m, ops[0]).m, ops[1..]);
    }
  }

  lemma {:induction false} ProgramHasNoNops(ops: seq<Op>)
    requires Program(ops)
    ensures Strip(ops) == ops
  {
    if ops != [] {
      ProgramHasNoNops(ops[1..]);
      assert ops == [ops[0]] + ops[1..];
    }
  }

  /**
   Of every program that runs to its end: assembling keeps its meaning if and only if no operand
   lies in the opcode range. An operand that is executed leaves one push or write too many.
   */
  lemma AssembleKeepsMeaningIff(ops: seq<Op>)
    requires ops != [] && Program(ops) && Interp(START, ops).Running?
    ensures Meaning(Assemble(ops)) == Interp(START, ops) <==> AllInert(ops)
  {
    hide Interp, Disassemble, Strip, AllInert;
    if AllInert(ops) {
      AssembleKeepsMeaning(ops);
    }
    if Meaning(Assemble(ops)) == Interp(START, ops) {
      ProgramHasNoNops(ops);
      InterpEffort(START, ops);
      InterpEffort(START, Disassemble(None, Assemble(ops)));
      DisassembleAssemble(None, ops);
    }
  }

  lemma {:induction false} AssembleConcat(a: seq<Op>, b: seq<Op>)
    requires Program(a) && Program(b)
    ensures Program(a + b) && Assemble(a + b) == Assemble(a) + Assemble(b)
    decreases |a|
  {
    if a == [] {
      assert a + b == b;
    } else {
      assert (a + b)[1..] == a[1..] + b;
      AssembleConcat(a[1..], b);
      assert Encode(a[0]) + (Assemble(a[1..]) + Assemble(b)) == Encode(a[0]) + Assemble(a[1..]) + Assemble(b);
    }
  }

  lemma {:induction false} PanicIsFinal(m: Machine, a: seq<Op>, b: seq<Op>)
    requires Interp(m, a).Panic?
    ensures Interp(m, a + b) == Interp(m, a)
    decreases |a|
  {
    assert (a + b)[1..] == a[1..] + b;
    if Step(m, a[0]).Running? {
      PanicIsFinal(Step(m, a[0]).m, a[1..], b);
    }
  }

  /** A program that panics keeps its meaning already if the operands up to the panic are inert. */
  lemma AssembleKeepsPanic(a: seq<Op>, b: seq<Op>)
    requires Program(a) && Program(b) && AllInert(a) && Interp(START, a).Panic?
    ensures Program(a + b) && Meaning(Assemble(a + b)) == Interp(START, a + b) == Interp(START, a)
  {
    hide Step;
    AssembleConcat(a, b);
    PanicIsFinal(START, a, b);
    AssembleKeepsMeaning(a);
    var x, y := Assemble(a), Assemble(b);
    DisassembleConcat(None, x, y);
    PanicIsFinal(START, Disassemble(None, x), Disassemble(Some(x[|x| - 1]), y));
  }

  /** So inert operands are not necessary for a panic: what is never reached does not matter. */
  lemma PanicDespiteOpcodeOperand()
    ensures !AllInert([Add, PushInt(0x0a)])
    ensures Program([Add, PushInt(0x0a)])
    ensures Meaning(Assemble([Add, PushInt(0x0a)])) == Interp(START, [Add, PushInt(0x0a)]) == Panic([])
  {
    assert !Inert([Add, PushInt(0x0a)][1]);
    assert Interp(START, [Add]) == Panic([]);
    AssembleKeepsPanic([Add], [PushInt(0x0a)]);
    assert [Add] + [PushInt(0x0a)] == [Add, PushInt(0x0a)];
  }

  /** An operand inside the opcode range is executed: pushing the byte 0x0a first faults. */
  lemma OperandInOpcodeRangeDiverges()
    ensures Interp(START, [PushInt(0x0a)]) == Running(Machine([IntV(10)], 1, []))
    ensures Meaning(Assemble([PushInt(0x0a)])) == Panic([])
  {
    var ops := [PushInt(0x0a)];
    assert ops[1..] == [];
    assert Assemble(ops) == [0x0a, OP_PUSH_INT];
    assert Disassemble(None, Assemble(ops))[0] == Fault;
    assert [] + [IntV(10)] == [IntV(10)];
  }

  // ---------- Arithmetic bound ----------

  /** The fewest pushed operand bytes from which adds and subtracts can build `n`. */
  function Leaves(n: int): (l: nat)
    ensures l >= 1
    ensures -255 * l <= n <= 255 * l
  {
    var a := if n < 0 then -n else n;
    if a == 0 then 1 else (a + 254) / 255
  }

  lemma LeavesIsLeast(n: int, k: nat)
    requires k >= 1 && -255 * k <= n <= 255 * k
    ensures Leaves(n) <= k
  {
  }

  /** Pushes spent on a value: its operands, plus one result push per combination. */
  function Weight(v: Value): nat {
    if v.IntV? then 2 * Leaves(v.n) - 1 else 1
  }

  function Load(q: seq<Value>): nat {
    if q == [] then 0 else Weight(q[0]) + Load(q[1..])
  }

  lemma {:induction false} LoadConcat(a: seq<Value>, b: seq<Value>)
    ensures Load(a + b) == Load(a) + Load(b)
  {
    if a == [] {
      assert a + b == b;
    } else {
      assert (a + b)[1..] == a[1..] + b;
      LoadConcat(a[1..], b);
    }
  }

  lemma LoadAt(q: seq<Value>, i: nat)
    requires i < |q|
    ensures Weight(q[i]) <= Load(q)
  {
    assert q == q[..i] + q[i..];
    LoadConcat(q[..i], q[i..]);
  }

  /** Combining two integers costs at most their two weights and the result push. */
  lemma CombinedWeight(a: int, b: int)
    ensures Weight(IntV(a + b)) <= Weight(IntV(a)) + Weight(IntV(b)) + 1
    ensures Weight(IntV(a - b)) <= Weight(IntV(a)) + Weight(IntV(b)) + 1
  {
    LeavesIsLeast(a + b, Leaves(a) + Leaves(b));
    LeavesIsLeast(a - b, Leaves(a) + Leaves(b));
  }

  ghost predicate Small(n: int) {
    -INT_BOUND <= n <= INT_BOUND
  }

  ghost predicate SmallLog(log: seq<Write>) {
    forall i :: 0 <= i < |log| ==> Small(log[i].n)
  }

  /** The queue's values were paid for out of the pushes made so far. */
  ghost predicate Funded(m: Machine) {
    && Load(m.queue) <= m.pushes <= CAPACITY
    && SmallLog(m.writes)
  }

  lemma FundedIsSmall(m: Machine)
    requires Funded(m)
    ensures forall i :: 0 <= i < |m.queue| && m.queue[i].IntV? ==> Small(m.queue[i].n)
  {
    forall i | 0 <= i < |m.queue| && m.queue[i].IntV? ensures Small(m.queue[i].n) {
      LoadAt(m.queue, i);
    }
  }

  lemma FundedSplit(m: Machine, k: nat, rest: seq<Value>, v: Value)
    requires Funded(m) && k <= |m.queue| && rest == m.queue[k..]
    requires Weight(v) <= Load(m.queue[..k]) + 1
    ensures Push(m, rest, v).Running? ==> Funded(Push(m, rest, v).m)
  {
    assert m.queue == m.queue[..k] + m.queue[k..];
    LoadConcat(m.queue[..k], m.queue[k..]);
    LoadConcat(rest, [v]);
  }

  lemma CombineKeepsFunded(m: Machine, n: int)
    requires Funded(m) && TwoInts(m.queue)
    requires n == m.queue[0].n + m.queue[1].n || n == m.queue[0].n - m.queue[1].n
    ensures var r := Push(m, m.queue[2..], IntV(n)); r.Running? ==> Funded(r.m)
  {
    var q := m.queue;
    CombinedWeight(q[0].n, q[1].n);
    assert q[..2] == [q[0]] + [q[1]];
    LoadConcat([q[0]], [q[1]]);
    FundedSplit(m, 2, q[2..], IntV(n));
  }

  lemma StoreKeepsFunded(m: Machine)
    requires Funded(m)
    ensures Step(m, Store).Running? ==> Funded(Step(m, Store).m)
  {
    var q := m.queue;
    if Step(m, Store).Running? {
      assert q == q[..2] + q[2..];
      LoadConcat(q[..2], q[2..]);
      FundedIsSmall(m);
    }
  }

  lemma StepKeepsFunded(m: Machine, op: Op)
    requires Funded(m)
    ensures Step(m, op).Running? ==> Funded(Step(m, op).m)
    ensures Step(m, op).Panic? ==> Step(m, op).writes == m.writes
  {
    var q := m.queue;
    match op
    case PushInt(b) => FundedSplit(m, 0, q, IntV(b));
    case PushByte(b) => FundedSplit(m, 0, q, ByteV(b));
    case Add => if TwoInts(q) { CombineKeepsFunded(m, q[0].n + q[1].n); }
    case Sub => if TwoInts(q) { CombineKeepsFunded(m, q[0].n - q[1].n); }
    case Pack =>
      if Packable(q) {
        var k := q[0].n + 1;
        FundedSplit(m, k, q[k..], BytesV(Bytes(q[1..k])));
      }
    case Store => StoreKeepsFunded(m);
    case Nop =>
    case Fault =>
  }

  lemma {:induction false} InterpKeepsFunded(m: Machine, ops: seq<Op>)
    requires Funded(m)
    ensures Interp(m, ops).Running? ==> Funded(Interp(m, ops).m)
    ensures SmallLog(Interp(m, ops).Log())
    decreases |ops|
  {
    if ops != [] {
      StepKeepsFunded(m, ops[0]);
      match Step(m, ops[0])
      case Panic(_) =>
      case Running(m') => InterpKeepsFunded(m', ops[1..]);
    }
  }

  /**
   Over every program: each integer queued when the run ends, and each integer ever written,
   lies within 255 * 64, and at most 128 pushes were ever completed.
   */
  lemma ArithmeticBound(data: seq<byte>)
    ensures SmallLog(Meaning(data).Log())
    ensures Meaning(data).Running? ==>
      && Meaning(data).m.pushes <= CAPACITY
      && forall v :: v in Meaning(data).m.queue && v.IntV? ==> Small(v.n)
  {
    if data != [] {
      assert Funded(START);
      InterpKeepsFunded(START, Disassemble(None, data));
      if Meaning(data).Running? {
        FundedIsSmall(Meaning(data).m);
      }
    }
  }

  // ---------- Programs in full ----------

  lemma {:induction false} InterpConcat(m: Machine, a: seq<Op>, b: seq<Op>)
    requires Interp(m, a).Running?
    ensures Interp(m, a + b) == Interp(Interp(m, a).m, b)
    decreases |a|
  {
    if a == [] {
      assert a + b == b;
    } else {
      assert (a + b)[1..] == a[1..] + b;
      InterpConcat(Step(m, a[0]).m, a[1..], b);
    }
  }

  predicate PushOp(op: Op) {
    op.PushInt? || op.PushByte?
  }

  /** The value a push leaves at the back of the queue. */
  function Pushed(op: Op): Value
    requires PushOp(op)
  {
    if op.PushInt? then IntV(op.b) else ByteV(op.b)
  }

  function PushedAll(ops: seq<Op>): (vs: seq<Value>)
    requires forall i :: 0 <= i < |ops| ==> PushOp(ops[i])
    ensures |vs| == |ops| && forall i :: 0 <= i < |ops| ==> vs[i] == Pushed(ops[i])
  {
    seq(|ops|, i requires 0 <= i < |ops| => Pushed(ops[i]))
  }

  lemma {:induction false} PushesQueue(m: Machine, ops: seq<Op>)
    requires forall i :: 0 <= i < |ops| ==> PushOp(ops[i])
    requires m.pushes + |ops| <= CAPACITY
    ensures Interp(m, ops) == Running(Machine(m.queue + PushedAll(ops), m.pushes + |ops|, m.writes))
    decreases |ops|
  {
    if ops == [] {
      assert m.queue + [] == m.queue;
    } else {
      var v := Pushed(ops[0]);
      PushesQueue(Machine(m.queue + [v], m.pushes + 1, m.writes), ops[1..]);
      assert m.queue + [v] + PushedAll(ops[1..]) == m.queue + PushedAll(ops);
    }
  }

  // ---------- The bound is attained ----------

  function Repeat<T>(x: T, n: nat): (s: seq<T>)
    ensures |s| == n && forall i :: 0 <= i < n ==> s[i] == x
  {
    if n == 0 then [] else [x] + Repeat(x, n - 1)
  }

  function Sum(q: seq<Value>): int
    requires forall i :: 0 <= i < |q| ==> q[i].IntV?
  {
    if q == [] then 0 else q[0].n + Sum(q[1..])
  }

  lemma {:induction false} SumSnoc(q: seq<Value>, v: Value)
    requires forall i :: 0 <= i < |q| ==> q[i].IntV?
    requires v.IntV?
    ensures Sum(q + [v]) == Sum(q) + v.n
  {
    if q == [] {
      assert q + [v] == [v];
    } else {
      assert (q + [v])[1..] == q[1..] + [v];
      SumSnoc(q[1..], v);
    }
  }

  /** Adding until one value is left keeps the sum of the queue. */
  lemma {:induction false} AddsCollapse(m: Machine)
    requires m.queue != [] && forall i :: 0 <= i < |m.queue| ==> m.queue[i].IntV?
    requires m.pushes + |m.queue| - 1 <= CAPACITY
    ensures Interp(m, Repeat(Add, |m.queue| - 1))
         == Running(Machine([IntV(Sum(m.queue))], m.pushes + |m.queue| - 1, m.writes))
    decreases |m.queue|
  {
    var q := m.queue;
    if |q| == 1 {
      assert q == [IntV(Sum(q))];
    } else {
      var v := IntV(q[0].n + q[1].n);
      var m' := Machine(q[2..] + [v], m.pushes + 1, m.writes);
      SumSnoc(q[2..], v);
      assert q[1..][1..] == q[2..];
      AddsCollapse(m');
      assert Repeat(Add, |q| - 1)[1..] == Repeat(Add, |q| - 2);
    }
  }

  lemma {:induction false} SumRepeat(n: nat)
    ensures Sum(Repeat(IntV(255), n)) == 255 * n
  {
    if n > 0 {
      assert Repeat(IntV(255), n)[1..] == Repeat(IntV(255), n - 1);
      SumRepeat(n - 1);
    }
  }

  /** For every k up to 64 some byte program ends with exactly 255 * k; k = 64 is the bound. */
  lemma ArithmeticBoundIsTight(k: nat)
    requires 1 <= k <= 64
    ensures Meaning(Assemble(Repeat(PushInt(255), k) + Repeat(Add, k - 1)))
         == Running(Machine([IntV(255 * k)], 2 * k - 1, []))
  {
    hide Step, Interp, Meaning, Assemble;
    var pushes, adds := Repeat(PushInt(255), k), Repeat(Add, k - 1);
    AssembleKeepsMeaning(pushes + adds);
    PushesQueue(START, pushes);
    InterpConcat(START, pushes, adds);
    var full := Repeat(IntV(255), k);
    assert [] + PushedAll(pushes) == full;
    AddsCollapse(Machine(full, k, []));
    SumRepeat(k);
  }
}
