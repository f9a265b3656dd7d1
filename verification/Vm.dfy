/** The contract virtual machine: a shrinking slice used as a queue, and the fetch-execute loop. */
module Vm {
  import opened Basics
  import opened QueueMachine
  import CS = ContractStore

  /** A slot of the slice behind the stack: Go's nil, or a value. */
  datatype Cell = Nil | Full(v: Value)

  /** Indexing outside a slice panics. */
  datatype Popped = IndexPanic | Got(cell: Cell)

  class Stack {
    const size: nat
    var data: seq<Cell>
    var sp: int
    ghost var pops: nat

    ghost predicate Valid()
      reads this
    {
      && 0 <= sp <= |data|
      && |data| + pops == size
      && (forall i :: 0 <= i < sp ==> data[i].Full?)
      && (forall i :: sp <= i < |data| ==> data[i].Nil?)
    }

    ghost function Queue(): (q: seq<Value>)
      requires Valid()
      reads this
    {
      seq(sp, i requires 0 <= i < sp reads this requires Valid() => data[i].v)
    }

    /** Pushes completed in the lifetime of the stack. */
    ghost function Pushes(): nat
      requires Valid()
      reads this
    {
      sp + pops
    }

    constructor (size: nat)
      ensures Valid() && this.size == size && Queue() == [] && Pushes() == 0
    {
      this.size := size;
      data := seq(size, _ => Nil);
      sp := 0;
      pops := 0;
    }

    method Push(v: Value) returns (ok: bool)
      requires Valid()
      modifies this
      ensures ok <==> old(Pushes()) < size
      ensures Valid()
      ensures Queue() == if ok then old(Queue()) + [v] else old(Queue())
      ensures Pushes() == if ok then old(Pushes()) + 1 else old(Pushes())
    {
      if sp < 0 || sp >= |data| {
        return false;
      }
      data := data[sp := Full(v)];
      sp := sp + 1;
      ok := true;
      assert Queue() == old(Queue()) + [v];
    }

    /**
     Popping an empty queue either indexes an exhausted slice or yields nil and leaves
     a negative stack pointer; a nil never passes the caller's type assertion.
     */
    method Pop() returns (r: Popped)
      requires Valid()
      modifies this
      ensures old(Queue()) != [] ==>
        && r == Got(Full(old(Queue())[0]))
        && Valid() && Queue() == old(Queue())[1..] && Pushes() == old(Pushes())
      ensures old(Queue()) == [] ==>
        if old(Pushes()) == size then r == IndexPanic && unchanged(this)
        else r == Got(Nil) && sp == -1
    {
      if |data| == 0 {
        return IndexPanic;
      }
      r := Got(data[0]);
      data := data[1..];
      sp := sp - 1;
      pops := pops + 1;
      if sp >= 0 {
        assert Queue() == old(Queue())[1..];
      }
    }
  }

  /** The contract state: `Delete` and `Get` complete the map's interface. */
  class State {
    var data: map<seq<byte>, seq<byte>>

    constructor ()
      ensures data == map[]
    {
      data := map[];
    }

    method Put(k: seq<byte>, v: seq<byte>)
      modifies this
      ensures data == old(data)[k := v]
    {
      data := data[k := v];
    }

    method Delete(k: seq<byte>)
      modifies this
      ensures k !in data
      ensures forall j :: j in old(data) && j != k ==> j in data && data[j] == old(data)[j]
      ensures data.Keys == old(data).Keys - {k}
    {
      data := data - {k};
    }

    method Get(k: seq<byte>) returns (r: Option<seq<byte>>)
      ensures r == if k in data then Some(data[k]) else None
    {
      if k in data {
        r := Some(data[k]);
      } else {
        r := None;
      }
    }
  }

  class VM {
    const data: seq<byte>
    const stack: Stack
    const contractState: State
    var ip: int
    ghost var writes: seq<Write>

    ghost predicate Valid()
      reads this, stack
    {
      && stack.Valid() && stack.size == CAPACITY
      && 0 <= ip
      && Funded(View())
    }

    ghost function View(): Machine
      requires stack.Valid()
      reads this, stack
    {
      Machine(stack.Queue(), stack.Pushes(), writes)
    }

    constructor (data: seq<byte>, contractState: State)
      ensures Valid() && fresh(stack)
      ensures this.data == data && this.contractState == contractState && ip == 0
      ensures View() == START
    {
      this.data := data;
      this.contractState := contractState;
      stack := new Stack(128);
      ip := 0;
      writes := [];
    }

    /** `Pop().(int)` */
    method PopInt() returns (r: Option<int>)
      requires stack.Valid()
      modifies stack
      ensures r.Some? <==> old(stack.Queue()) != [] && old(stack.Queue())[0].IntV?
      ensures r.Some? ==>
        && r.value == old(stack.Queue())[0].n
        && stack.Valid() && stack.Queue() == old(stack.Queue())[1..]
        && stack.Pushes() == old(stack.Pushes())
    {
      var p := stack.Pop();
      if p.Got? && p.cell.Full? && p.cell.v.IntV? {
        r := Some(p.cell.v.n);
      } else {
        r := None;
      }
    }

    /** The two pops and the push shared by `InstrAdd` and `InstrSub`. */
    method Combine(subtract: bool) returns (ok: bool)
      requires Valid()
      modifies stack
      ensures var r := Step(old(View()), if subtract then Sub else Add);
              && (ok <==> r.Running?)
              && (ok ==> stack.Valid() && View() == r.m)
    {
      ghost var q := stack.Queue();
      FundedIsSmall(View());
      var a := PopInt();
      if a.None? { return false; }
      var b := PopInt();
      if b.None? { return false; }
      assert q[1..][1..] == q[2..];
      var c := Wrap64(if subtract then a.value - b.value else a.value + b.value);
      assert c == if subtract then q[0].n - q[1].n else q[0].n + q[1].n;
      ok := stack.Push(IntV(c));
    }

    /** `n` times `Pop().(byte)`, in the order popped. */
    method PopBytes(n: nat) returns (r: Option<seq<byte>>)
      requires stack.Valid()
      modifies stack
      ensures var q := old(stack.Queue());
              && (r.Some? <==> n <= |q| && AllBytes(q[..n]))
              && (r.Some? ==>
                    && r.value == Bytes(q[..n])
                    && stack.Valid() && stack.Queue() == q[n..]
                    && stack.Pushes() == old(stack.Pushes()))
    {
      ghost var q := stack.Queue();
      var b: seq<byte> := [];
      var i := 0;
      while i < n
        invariant 0 <= i <= n && i <= |q|
        invariant stack.Valid() && stack.Queue() == q[i..] && stack.Pushes() == old(stack.Pushes())
        invariant AllBytes(q[..i]) && b == Bytes(q[..i])
      {
        var p := stack.Pop();
        if !(p.Got? && p.cell.Full? && p.cell.v.ByteV?) {
          assert n <= |q| ==> q[..n][i] == q[i];
          return None;
        }
        assert q[..i + 1] == q[..i] + [q[i]];
        b := b + [p.cell.v.b];
        i := i + 1;
      }
      r := Some(b);
    }

    /** `InstrPack`: a count, then that many bytes. */
    method ExecPack() returns (ok: bool)
      requires Valid()
      modifies stack
      ensures var r := Step(old(View()), Pack);
              && (ok <==> r.Running?)
              && (ok ==> stack.Valid() && View() == r.m)
    {
      ghost var q := stack.Queue();
      var n := PopInt();
      if n.None? || n.value < 0 { return false; }
      assert n.value <= |q| - 1 ==> q[1..][..n.value] == q[1..n.value + 1];
      var b := PopBytes(n.value);
      if b.None? { return false; }
      assert q[1..][n.value..] == q[n.value + 1..];
      ok := stack.Push(BytesV(b.value));
    }

    /** `InstrStore`: key, then value, into the contract state. */
    method ExecStore() returns (ok: bool)
      requires Valid()
      modifies this, stack, contractState
      ensures ip == old(ip)
      ensures var r := Step(old(View()), Store);
              && (ok <==> r.Running?)
              && writes == r.Log()
              && (ok ==> stack.Valid() && View() == r.m)
              && contractState.data == if ok then CS.Apply(old(contractState.data), [writes[|writes| - 1]])
                                       else old(contractState.data)
    {
      ghost var q := stack.Queue();
      var k := stack.Pop();
      if !(k.Got? && k.cell.Full? && k.cell.v.BytesV?) { return false; }
      var v := PopInt();
      if v.None? { return false; }
      assert q[1..][1..] == q[2..];
      contractState.Put(k.cell.v.bytes, CS.SerializeInt64(v.value));
      writes := writes + [Write(k.cell.v.bytes, v.value)];
      assert CS.Apply(old(contractState.data), []) == old(contractState.data);
      ok := true;
    }

    /** `InstrPushInt` and `InstrPushByte`: the operand is the byte just executed. */
    method ExecPush(isInt: bool) returns (ok: bool)
      requires Valid() && ip < |data|
      modifies stack
      ensures var op := if ip == 0 then Fault
                        else if isInt then PushInt(data[ip - 1]) else PushByte(data[ip - 1]);
              var r := Step(old(View()), op);
              && (ok <==> r.Running?)
              && (ok ==> stack.Valid() && View() == r.m)
    {
      if ip == 0 { return false; }
      ok := stack.Push(if isInt then IntV(data[ip - 1]) else ByteV(data[ip - 1]));
    }

    ghost function Current(instr: byte): Op
      requires 0 <= ip < |data|
      reads this
    {
      DecodeByte(if ip == 0 then None else Some(data[ip - 1]), instr)
    }

    method Exec(instr: byte) returns (ok: bool)
      requires Valid() && ip < |data| && instr == data[ip]
      modifies this, stack, contractState
      ensures ip == old(ip)
      ensures var r := Step(old(View()), Current(instr));
              && (ok <==> r.Running?)
              && writes == r.Log() && old(writes) <= writes
              && (ok ==> Valid() && View() == r.m)
              && contractState.data == CS.Apply(old(contractState.data), writes[|old(writes)|..])
    {
      StepKeepsFunded(View(), Current(instr));
      if instr == OP_STORE {
        ok := ExecStore();
      } else {
        assert CS.Apply(contractState.data, writes[|writes|..]) == contractState.data;
        if instr == OP_PUSH_INT || instr == OP_PUSH_BYTE {
          ok := ExecPush(instr == OP_PUSH_INT);
        } else if instr == OP_PACK {
          ok := ExecPack();
        } else if instr == OP_SUB || instr == OP_ADD {
          ok := Combine(instr == OP_SUB);
        } else {
          ok := true;
        }
      }
    }

    /**
     Runs a program to its end or to a panic. The result, the contract writes and the number
     of steps are those of the mathematical queue machine, so no 64-bit operation wrapped.
     */
    method Run() returns (ok: bool)
      requires Valid() && ip == 0 && View() == START
      modifies this, stack, contractState
      ensures ok <==> Meaning(data).Running?
      ensures ok ==> ip == |data| && stack.Valid() && View() == Meaning(data).m
      ensures contractState.data == CS.Apply(old(contractState.data), Meaning(data).Log())
    {
      if |data| == 0 { return false; }
      ghost var ops := Disassemble(None, data);
      assert ops[ip..] == ops;
      while true
        invariant Valid() && 0 <= ip < |data|
        invariant Interp(START, ops) == Interp(View(), ops[ip..])
        invariant contractState.data == CS.Apply(old(contractState.data), writes)
        decreases |data| - ip
      {
        ghost var before, rest := View(), ops[ip..];
        ok := Exec(data[ip]);
        assert rest[0] == ops[ip] && rest[1..] == ops[ip + 1..];
        CS.ApplyConcat(old(contractState.data), before.writes, writes);
        if !ok { return; }
        ip := ip + 1;
        if ip > |data| - 1 { break; }
      }
      assert ops[ip..] == [];
    }
  }
}
