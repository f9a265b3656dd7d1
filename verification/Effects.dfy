/**
 What one transaction does, in full: when it is applied and what it leaves, in terms of the
 transaction and the state before it; and what that means for whole executions and whole chains.
 */
module Effects {
  import opened Basics
  import opened Entities
  import opened Accounts
  import opened Ledger
  import opened Execution
  import opened Supply
  import opened Chains
  import QM = QueueMachine
  import CS = ContractStore
  import BP = BytePrograms

  // ---------- When a transaction is applied ----------

  /** Nothing is due, or the sender has an account and is the coinbase or covers the amount. */
  predicate CanPay(a: Book, from: Address, value: uint64) {
    value == 0 || (from in a && (from == COINBASE_ADDRESS || value <= a[from].balance))
  }

  /** What a transaction needs of the state: kinds are 0 create, 1 update, 2 delete. */
  predicate Fits(c: Suite, w: World, tx: Transaction) {
    var p := tx.payload;
    match p.inner
    case NoInner => CanPay(w.accounts, c.address(p.from), p.value)
    case Collection(_, _) => CanPay(w.accounts, c.address(p.from), p.value)
    case Mint(_, _, collection, _, _, _) =>
      collection in w.collections && CanPay(w.accounts, c.address(p.from), p.value)
    case StudentOp(kind, id, _, _) => kind > 2 || (kind == 0 <==> id !in w.students)
    case Unsupported => false
  }

  lemma StudentFits(c: Suite, w: World, tx: Transaction)
    requires tx.payload.inner.StudentOp? && CodeRuns(tx)
    ensures HandleTx(c, w, tx).Applied? <==> Fits(c, w, tx)
  {
    hide QM.Meaning, CS.Apply;
  }

  lemma NativeFits(c: Suite, w: World, tx: Transaction)
    requires Keyed(w.accounts) && !tx.payload.inner.StudentOp?
    ensures HandleNative(c, w, tx).Applied? <==> Fits(c, w, tx)
  {
  }

  /**
   A transaction panics exactly if its program does, is applied exactly if its program runs and the
   state meets its needs, and is dropped otherwise.
   */
  lemma AppliedIff(c: Suite, w: World, tx: Transaction)
    requires Keyed(w.accounts)
    ensures HandleTx(c, w, tx).Crashed? <==> !CodeRuns(tx)
    ensures HandleTx(c, w, tx).Applied? <==> CodeRuns(tx) && Fits(c, w, tx)
  {
    hide RunCode, HandleNative, HandleStudent;
    HandleTxPanicsIff(c, w, tx);
    CodeEffect(w, tx.payload.data);
    if CodeRuns(tx) {
      if tx.payload.inner.StudentOp? {
        StudentFits(c, w, tx);
      } else {
        var v := RunCode(w, tx.payload.data).w;
        NativeFits(c, v, tx);
      }
    }
  }

  // ---------- What an applied transaction leaves ----------

  /** The balance of `k` after `from` paid `value` to `to`; a zero balance is not debited. */
  function BalanceAfter(a: Book, from: Address, to: Address, value: uint64, k: Address): uint64 {
    var left := if BalanceOf(a, from) == 0 then 0 else (BalanceOf(a, from) - value) % TWO_64;
    if k == to then ((if from == to then left else BalanceOf(a, to)) + value) % TWO_64
    else if k == from then left
    else BalanceOf(a, k)
  }

  lemma TransferredBalances(a: Book, from: Address, to: Address, value: uint64)
    requires Keyed(a) && Transferred(a, from, to, value).Moved?
    ensures var a' := Transferred(a, from, to, value).book;
            && Keyed(a') && a'.Keys == a.Keys + {to}
            && forall k :: BalanceOf(a', k) == BalanceAfter(a, from, to, value, k)
  {
  }

  /** Students after an applied operation: 0 and 1 write the record, 2 removes it, other kinds do nothing. */
  function StudentsAfter(s: map<string, Option<Student>>, op: Inner): map<string, Option<Student>> {
    match op
    case StudentOp(kind, id, student, _) => if kind <= 1 then s[id := student] else if kind == 2 then s - {id} else s
    case _ => s
  }

  lemma StudentLeaves(w: World, op: Inner)
    requires op.StudentOp? && HandleStudent(w, op).Applied?
    ensures HandleStudent(w, op).w == w.(students := StudentsAfter(w.students, op))
  {
  }

  /** Everything but the contract data, which `ContractAfter` describes. */
  lemma AppliedEffect(c: Suite, w: World, tx: Transaction)
    requires Keyed(w.accounts) && HandleTx(c, w, tx).Applied?
    ensures var w', p, id := HandleTx(c, w, tx).w, tx.payload, TxId(c, tx);
            var from, to := c.address(p.from), c.address(p.to);
            && Keyed(w'.accounts)
            && w'.collections == (if p.inner.Collection? then w.collections[id := p.inner] else w.collections)
            && w'.mints == (if p.inner.Mint? then w.mints[id := p.inner] else w.mints)
            && w'.students == StudentsAfter(w.students, p.inner)
            && if p.inner.StudentOp? || p.value == 0 then w'.accounts == w.accounts
               else && w'.accounts.Keys == w.accounts.Keys + {to}
                    && forall k :: BalanceOf(w'.accounts, k) == BalanceAfter(w.accounts, from, to, p.value, k)
  {
    hide RunCode, HandleNative, HandleStudent, Transferred, BalanceAfter, StudentsAfter;
    HandleTxAccounts(c, w, tx);
    CodeEffect(w, tx.payload.data);
    AppliedIff(c, w, tx);
    var p, v := tx.payload, RunCode(w, tx.payload.data).w;
    if p.inner.StudentOp? {
      StudentLeaves(v, p.inner);
    } else {
      NativeEffect(c, v, tx);
      NoStudents(w.students, p.inner);
      if p.value > 0 {
        TransferredBalances(w.accounts, c.address(p.from), c.address(p.to), p.value);
      }
    }
  }

  lemma NoStudents(s: map<string, Option<Student>>, op: Inner)
    requires !op.StudentOp?
    ensures StudentsAfter(s, op) == s
  {
  }

  /** An ordinary payment the sender covers: it is applied, and moves exactly its amount. */
  lemma CoveredPayment(c: Suite, w: World, tx: Transaction)
    requires Keyed(w.accounts) && Total(w.accounts) < TWO_64 && CodeRuns(tx) && tx.payload.inner.NoInner?
    requires tx.payload.value > 0 && c.address(tx.payload.from) in w.accounts
    requires tx.payload.value <= w.accounts[c.address(tx.payload.from)].balance
    ensures HandleTx(c, w, tx).Applied?
    ensures var a, a', p := w.accounts, HandleTx(c, w, tx).w.accounts, tx.payload;
            var from, to := c.address(p.from), c.address(p.to);
            && Total(a') == Total(a)
            && (from != to ==> BalanceOf(a', from) == BalanceOf(a, from) - p.value)
            && (from != to ==> BalanceOf(a', to) == BalanceOf(a, to) + p.value)
            && (from == to ==> BalanceOf(a', from) == BalanceOf(a, from))
            && forall k :: k != from && k != to ==> BalanceOf(a', k) == BalanceOf(a, k)
  {
    hide HandleTx, Transferred;
    AppliedIff(c, w, tx);
    HandleTxAccounts(c, w, tx);
    CoveredTransferIsExact(w.accounts, c.address(tx.payload.from), c.address(tx.payload.to), tx.payload.value);
  }

  // ---------- Contract data ----------

  lemma NoProgram(store: CS.Store)
    ensures CS.Apply(store, QM.Meaning([]).Log()) == store
  {
  }

  /** After the code of one transaction, whatever then becomes of the transaction. */
  lemma ContractAfter(c: Suite, w: World, tx: Transaction, key: seq<byte>)
    ensures var log := QM.Meaning(tx.payload.data).Log();
            var after := HandleTx(c, w, tx).w.contract;
            && after == CS.Apply(w.contract, log)
            && if CS.LastWrite(log, key).Some?
               then key in after && CS.DeserializeInt64(after[key]) == Some(CS.LastWrite(log, key).value)
               else (key in after <==> key in w.contract) && (key in w.contract ==> after[key] == w.contract[key])
  {
    hide HandleNative, QM.Meaning;
    var data := tx.payload.data;
    NoProgram(w.contract);
    CS.StoredValuesAreExact(w.contract, data, key);
    CodeEffect(w, data);
    NativeEffect(c, RunCode(w, data).w, tx);
  }

  /** A whole store program inside any transaction: its value and nothing else, whatever becomes of the rest. */
  lemma StoreTransaction(c: Suite, w: World, tx: Transaction, key: seq<byte>, v: byte)
    requires |key| <= 125 && BP.InertKey(key) && BP.InertByte(v)
    requires tx.payload.data == BP.StoreProgram(key, v)
    ensures CodeRuns(tx)
    ensures HandleTx(c, w, tx).w.contract == w.contract[key := [v, 0, 0, 0, 0, 0, 0, 0]]
  {
    hide HandleTx, QM.Meaning, CS.Apply, BP.StoreProgram, BP.InertKey;
    BP.StoreProgramStores(w.contract, key, v);
    ContractAfter(c, w, tx, key);
  }

  // ---------- Over executions ----------

  /** The writes of all programs of a list in order, kept or dropped alike, up to the first panic. */
  function Logs(txs: seq<Transaction>): seq<QM.Write> {
    if txs == [] then []
    else
      var init := txs[..|txs| - 1];
      Logs(init) + if AllCodeRuns(init) then QM.Meaning(txs[|txs| - 1].payload.data).Log() else []
  }

  lemma {:induction false} ExecContract(c: Suite, w: World, txs: seq<Transaction>)
    ensures ExecTxs(c, w, txs).w.contract == CS.Apply(w.contract, Logs(txs))
  {
    hide HandleTx, QM.Meaning;
    if txs != [] {
      var init, tx := txs[..|txs| - 1], txs[|txs| - 1];
      ExecContract(c, w, init);
      ExecutesIff(c, w, init);
      var log := QM.Meaning(tx.payload.data).Log();
      if AllCodeRuns(init) {
        ContractAfter(c, ExecTxs(c, w, init).w, tx, []);
        CS.ApplyConcat(w.contract, Logs(init), Logs(init) + log);
        assert (Logs(init) + log)[|Logs(init)|..] == log;
      } else {
        assert Logs(txs) == Logs(init);
      }
    }
  }

  lemma {:induction false} LogsAreSmall(txs: seq<Transaction>)
    ensures QM.SmallLog(Logs(txs))
  {
    hide QM.Meaning;
    if txs != [] {
      LogsAreSmall(txs[..|txs| - 1]);
      QM.ArithmeticBound(txs[|txs| - 1].payload.data);
    }
  }

  /**
   After every execution, panicking or not: each key holds, as eight bytes, the last integer that any
   program wrote to it, or what it held before if none did.
   */
  lemma ContractAfterAll(c: Suite, w: World, txs: seq<Transaction>, key: seq<byte>)
    ensures var last := CS.LastWrite(Logs(txs), key);
            var after := ExecTxs(c, w, txs).w.contract;
            if last.Some? then key in after && CS.DeserializeInt64(after[key]) == last
            else (key in after <==> key in w.contract) && (key in w.contract ==> after[key] == w.contract[key])
  {
    hide Logs, ExecTxs;
    ExecContract(c, w, txs);
    LogsAreSmall(txs);
    CS.ApplyReads(w.contract, Logs(txs), key);
    if CS.LastWrite(Logs(txs), key).Some? {
      CS.SerializeRoundTrip(CS.LastWrite(Logs(txs), key).value);
    }
  }

  lemma {:induction false} ExecPrefix(c: Suite, w: World, txs: seq<Transaction>, k: nat)
    requires k <= |txs| && ExecTxs(c, w, txs).Executed?
    ensures ExecTxs(c, w, txs[..k]).Executed?
    ensures ExecTxs(c, w, txs[..k]).kept <= ExecTxs(c, w, txs).kept
    ensures ExecTxs(c, w, txs[..k]).dropped <= ExecTxs(c, w, txs).dropped
    decreases |txs|
  {
    hide HandleTx;
    if k == |txs| {
      assert txs[..k] == txs;
    } else {
      assert txs[..|txs| - 1][..k] == txs[..k];
      ExecPrefix(c, w, txs[..|txs| - 1], k);
    }
  }

  /** Over every execution: the i-th transaction is kept if the state before it meets its needs, and dropped if not. */
  lemma KeptIff(c: Suite, w: World, txs: seq<Transaction>, i: nat)
    requires Keyed(w.accounts) && ExecTxs(c, w, txs).Executed? && i < |txs|
    ensures ExecTxs(c, w, txs[..i]).Executed? && ExecTxs(c, w, txs[..i + 1]).Executed?
    ensures var all, before, after := ExecTxs(c, w, txs), ExecTxs(c, w, txs[..i]), ExecTxs(c, w, txs[..i + 1]);
            && after.kept <= all.kept && after.dropped <= all.dropped
            && after.w == HandleTx(c, before.w, txs[i]).w
            && if Fits(c, before.w, txs[i])
               then after.kept == before.kept + [Fill(c, txs[i])] && after.dropped == before.dropped
               else after.kept == before.kept && after.dropped == before.dropped + [Fill(c, txs[i])]
  {
    hide HandleTx, Fits;
    ExecPrefix(c, w, txs, i);
    ExecPrefix(c, w, txs, i + 1);
    assert txs[..i + 1] == txs[..i] + [txs[i]];
    ExecSnoc(c, w, txs[..i], txs[i]);
    SupplyAccounting(c, w, txs[..i]);
    AppliedIff(c, ExecTxs(c, w, txs[..i]).w, txs[i]);
    ExecutesIff(c, w, txs);
  }

  // ---------- Student records from what was submitted ----------

  /** Of the operations submitted on one id, those that fit the life cycle so far: 0 creates, others need a record. */
  function Fitting(start: Record, ops: seq<Inner>): (fit: seq<Inner>)
    requires AllStudentOps(ops)
    ensures AllStudentOps(fit)
  {
    if ops == [] then []
    else
      var sofar, op := Fitting(start, ops[..|ops| - 1]), ops[|ops| - 1];
      sofar + if op.kind == 0 <==> Outcome(start, sofar).Absent? then [op] else []
  }

  lemma HistorySnoc(txs: seq<Transaction>, tx: Transaction, id: string)
    ensures History(txs + [tx], id) == History(txs, id) + if Concerns(tx, id) then [tx.payload.inner] else []
  {
    assert (txs + [tx])[..|txs|] == txs;
  }

  lemma FittingSnoc(start: Record, ops: seq<Inner>, op: Inner)
    requires AllStudentOps(ops) && op.StudentOp? && op.kind <= STUDENT_DELETE
    ensures AllStudentOps(ops + [op])
    ensures Fitting(start, ops + [op]) == Fitting(start, ops)
      + if op.kind == 0 <==> Outcome(start, Fitting(start, ops)).Absent? then [op] else []
  {
    assert (ops + [op])[..|ops|] == ops;
  }

  lemma SubmittedStep(c: Suite, w: World, start: Record, kept: seq<Transaction>, ops: seq<Inner>,
                      tx: Transaction, id: string)
    requires AllStudentOps(ops) && CodeRuns(tx) && History(kept, id) == Fitting(start, ops)
    requires RecordOf(w, id) == Outcome(start, Fitting(start, ops))
    ensures Concerns(tx, id) ==> AllStudentOps(ops + [tx.payload.inner])
    ensures History(if HandleTx(c, w, tx).Applied? then kept + [Fill(c, tx)] else kept, id)
         == Fitting(start, if Concerns(tx, id) then ops + [tx.payload.inner] else ops)
  {
    hide HandleTx, Fitting, History, Outcome, CodeRuns;
    HistorySnoc(kept, Fill(c, tx), id);
    if Concerns(tx, id) {
      StudentFits(c, w, tx);
      FittingSnoc(start, ops, tx.payload.inner);
    }
    assert Fitting(start, ops) + [] == Fitting(start, ops);
  }

  /**
   Over every execution the surviving operations on an id are exactly the submitted ones that fit, and
   its record is what those leave.
   */
  lemma {:induction false} SubmittedRecords(c: Suite, w: World, txs: seq<Transaction>, id: string)
    requires ExecTxs(c, w, txs).Executed?
    ensures var r, fit := ExecTxs(c, w, txs), Fitting(RecordOf(w, id), History(txs, id));
            && History(r.kept, id) == fit
            && RecordOf(r.w, id) == Outcome(RecordOf(w, id), fit)
  {
    hide HandleTx, Lifecycle, Outcome, RecordOf, CodeRuns, Fitting, History, Concerns;
    RecordHistories(c, w, txs, id);
    if txs == [] {
      NothingSubmitted(RecordOf(w, id), id);
    } else {
      var init, tx := txs[..|txs| - 1], txs[|txs| - 1];
      SubmittedRecords(c, w, init, id);
      ExecutesIff(c, w, txs);
      assert CodeRuns(tx);
      SubmittedStep(c, ExecTxs(c, w, init).w, RecordOf(w, id), ExecTxs(c, w, init).kept, History(init, id), tx, id);
      HistorySnoc(init, tx, id);
      assert init + [tx] == txs;
      assert History(init, id) + [] == History(init, id);
    }
  }

  lemma NothingSubmitted(start: Record, id: string)
    ensures History([], id) == [] && Fitting(start, []) == []
  {
  }

  // ---------- On every chain ----------

  /**
   On every chain grown from a genesis block: contract data is that of all programs executed, dropped
   transactions included, and each student record is what the submitted operations that fit leave.
   */
  lemma ChainData(c: Suite, genesis: Block, bs: seq<Block>, txs: seq<Transaction>, ch: Chain,
                  key: seq<byte>, id: string)
    requires Grown(c, genesis, bs, txs, ch)
    ensures var last := CS.LastWrite(Logs(txs), key);
            if last.Some? then key in ch.world.contract && CS.DeserializeInt64(ch.world.contract[key]) == last
            else key !in ch.world.contract
    ensures RecordOf(ch.world, id) == Outcome(Absent, Fitting(Absent, History(txs, id)))
  {
    hide ExecTxs, ChainOk, Logs, CS.LastWrite, Fitting, History, Outcome;
    GrownOk(c, genesis, bs, txs, ch);
    ContractAfterAll(c, InitialWorld(c), txs, key);
    SubmittedRecords(c, InitialWorld(c), txs, id);
  }

  /** What every node starts from, whatever its genesis block drew. */
  lemma StartIs(c: Suite, nonce: int, validator: PublicKey, sig: Signature)
    requires c.address([]) == 0x996fb92427ae41e4649b934ca495991b7852b855
    ensures var start := NewBlockchain(c, GenesisBlock(nonce, validator, sig));
            && start.Added? && start.ch.headers == [Header(1, 0, 0, 0, 0)]
            && start.ch.world ==
               World(map[c.address([]) := Account(c.address([]), 10_000_000)], map[], map[], map[], map[])
  {
    GenesisIsDeterministic(c, nonce, validator, sig);
    GenesisSupply(c);
    var w := InitialWorld(c);
    NativeEffect(c, w, GenesisTx(0));
  }
}
