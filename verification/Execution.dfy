/** What executing any list of transactions does, whatever block it comes from. */
module Execution {
  import opened Basics
  import opened Entities
  import opened Accounts
  import opened Ledger
  import QM = QueueMachine

  lemma ExecSnoc(c: Suite, w: World, txs: seq<Transaction>, tx: Transaction)
    ensures ExecTxs(c, w, txs + [tx]) == ExecStep(c, ExecTxs(c, w, txs), tx)
  {
    assert (txs + [tx])[..|txs|] == txs;
  }

  /** Executing two lists in a row is executing their concatenation. */
  lemma {:induction false} ExecConcat(c: Suite, w: World, a: seq<Transaction>, b: seq<Transaction>)
    requires ExecTxs(c, w, a).Executed?
    ensures ExecTxs(c, w, a + b) ==
      var first := ExecTxs(c, w, a);
      match ExecTxs(c, first.w, b)
      case Aborted(w') => Aborted(w')
      case Executed(w', kept, dropped) => Executed(w', first.kept + kept, first.dropped + dropped)
    decreases |b|
  {
    hide HandleTx;
    var first := ExecTxs(c, w, a);
    if b == [] {
      assert a + b == a;
      assert first.kept + [] == first.kept && first.dropped + [] == first.dropped;
    } else {
      var b', tx := b[..|b| - 1], b[|b| - 1];
      assert a + b == a + b' + [tx];
      ExecSnoc(c, w, a + b', tx);
      ExecConcat(c, w, a, b');
      match ExecTxs(c, first.w, b')
      case Aborted(_) =>
      case Executed(w', kept, dropped) =>
        assert first.kept + kept + [Fill(c, tx)] == first.kept + (kept + [Fill(c, tx)]);
        assert first.dropped + dropped + [Fill(c, tx)] == first.dropped + (dropped + [Fill(c, tx)]);
    }
  }

  /** A panic ends the execution of everything behind it. */
  lemma {:induction false} CrashIsFinal(c: Suite, w: World, txs: seq<Transaction>, k: nat)
    requires k <= |txs| && ExecTxs(c, w, txs[..k]).Aborted?
    ensures ExecTxs(c, w, txs) == ExecTxs(c, w, txs[..k])
    decreases |txs|
  {
    if k == |txs| {
      assert txs[..k] == txs;
    } else {
      var init := txs[..|txs| - 1];
      assert init[..k] == txs[..k];
      CrashIsFinal(c, w, init, k);
    }
  }

  // ---------- Conservation ----------

  lemma FillAllSnoc(c: Suite, txs: seq<Transaction>)
    requires txs != []
    ensures FillAll(c, txs) == FillAll(c, txs[..|txs| - 1]) + [Fill(c, txs[|txs| - 1])]
  {
  }

  lemma {:induction false} ExecKeepsOrder(c: Suite, w: World, txs: seq<Transaction>)
    requires ExecTxs(c, w, txs).Executed?
    ensures var r := ExecTxs(c, w, txs);
            && Subsequence(r.kept, FillAll(c, txs))
            && (r.dropped == [] <==> r.kept == FillAll(c, txs))
            && |r.kept| + |r.dropped| == |txs|
  {
    hide HandleTx;
    if txs != [] {
      var init, tx := txs[..|txs| - 1], Fill(c, txs[|txs| - 1]);
      ExecKeepsOrder(c, w, init);
      FillAllSnoc(c, txs);
      var r := ExecTxs(c, w, init);
      SubsequenceSnoc(r.kept, FillAll(c, init), tx);
    }
  }

  lemma {:induction false} ExecKeepsAll(c: Suite, w: World, txs: seq<Transaction>)
    requires ExecTxs(c, w, txs).Executed?
    ensures var r := ExecTxs(c, w, txs); multiset(r.kept) + multiset(r.dropped) == multiset(FillAll(c, txs))
  {
    hide HandleTx, Fill;
    if txs != [] {
      ExecKeepsAll(c, w, txs[..|txs| - 1]);
      FillAllSnoc(c, txs);
    }
  }

  /** Every transaction is kept or dropped, once, and the kept ones stay in order. */
  lemma ExecConserves(c: Suite, w: World, txs: seq<Transaction>)
    requires ExecTxs(c, w, txs).Executed?
    ensures var r := ExecTxs(c, w, txs);
            && multiset(r.kept) + multiset(r.dropped) == multiset(FillAll(c, txs))
            && Subsequence(r.kept, FillAll(c, txs))
            && (r.dropped == [] <==> r.kept == FillAll(c, txs))
            && |r.kept| + |r.dropped| == |txs|
  {
    ExecKeepsOrder(c, w, txs);
    ExecKeepsAll(c, w, txs);
  }

  lemma {:induction false} KeptAreFromList(c: Suite, w: World, txs: seq<Transaction>)
    requires ExecTxs(c, w, txs).Executed?
    ensures forall tx :: tx in ExecTxs(c, w, txs).kept || tx in ExecTxs(c, w, txs).dropped ==>
      Filled(c, tx) && exists i :: 0 <= i < |txs| && tx == Fill(c, txs[i])
  {
    hide HandleTx;
    if txs != [] {
      KeptAreFromList(c, w, txs[..|txs| - 1]);
    }
  }

  // ---------- Panics depend on the programs alone ----------

  predicate CodeRuns(tx: Transaction) {
    tx.payload.data == [] || QM.Meaning(tx.payload.data).Running?
  }

  predicate AllCodeRuns(txs: seq<Transaction>) {
    forall i :: 0 <= i < |txs| ==> CodeRuns(txs[i])
  }

  lemma HandleTxPanicsIff(c: Suite, w: World, tx: Transaction)
    ensures HandleTx(c, w, tx).Crashed? <==> !CodeRuns(tx)
  {
  }

  /** A list executes to its end, in any state, exactly when every program in it runs to its end. */
  lemma {:induction false} ExecutesIff(c: Suite, w: World, txs: seq<Transaction>)
    ensures ExecTxs(c, w, txs).Executed? <==> AllCodeRuns(txs)
    ensures ExecTxs(c, w, txs).Executed? ==> AllCodeRuns(ExecTxs(c, w, txs).kept)
  {
    hide HandleTx;
    if txs != [] {
      var init := txs[..|txs| - 1];
      ExecutesIff(c, w, init);
      if ExecTxs(c, w, init).Executed? {
        HandleTxPanicsIff(c, ExecTxs(c, w, init).w, txs[|txs| - 1]);
      }
      assert AllCodeRuns(txs) <==> AllCodeRuns(init) && CodeRuns(txs[|txs| - 1]);
    }
  }

  // ---------- The exact effect of a dropped transaction, and replay ----------

  /** The part of the state that replaying the survivors is meant to reproduce. */
  datatype Core = Core(accounts: Book, students: map<string, Option<Student>>, collections: map<Hash, Inner>)

  function CoreOf(w: World): Core {
    Core(w.accounts, w.students, w.collections)
  }

  /** A collection whose record is not there yet. */
  predicate NewCollection(c: Suite, w: World, tx: Transaction) {
    && tx.payload.inner.Collection?
    && !(TxId(c, tx) in w.collections && w.collections[TxId(c, tx)] == tx.payload.inner)
  }

  /** Running code touches contract data only and never fails. */
  lemma CodeEffect(w: World, data: seq<byte>)
    ensures var r := RunCode(w, data); !r.Failed? && r.w == w.(contract := r.w.contract)
  {
  }

  /** Frame of the native handler: only the transfer touches accounts, and only if it succeeds. */
  lemma NativeEffect(c: Suite, w: World, tx: Transaction)
    ensures var r, p := HandleNative(c, w, tx), tx.payload;
            && !r.Crashed?
            && r.w.students == w.students && r.w.contract == w.contract
            && (r.Failed? ==> r.w.accounts == w.accounts)
            && r.w.collections == (if p.inner.Collection? then w.collections[TxId(c, tx) := p.inner] else w.collections)
            && r.w.mints == (if p.inner.Mint? && p.inner.collection in w.collections
                             then w.mints[TxId(c, tx) := p.inner] else w.mints)
            && (r.Failed? && p.value == 0 ==> r.w == w)
  {
    var nft := if tx.payload.inner.NoInner? then Applied(w) else HandleNFT(w, TxId(c, tx), tx.payload.inner);
    match nft
    case Applied(v) =>
      var t := HandleTransfer(c, v, tx.payload);
      assert t.Applied? || t.w == v;
    case _ =>
  }

  /**
   The whole world a dropped transaction leaves: its contract writes, and the collection or mint it
   recorded before its transfer failed. So it changes the core exactly when it is a new collection.
   */
  lemma DroppedEffect(c: Suite, w: World, tx: Transaction)
    requires HandleTx(c, w, tx).Failed?
    ensures var id, inner := TxId(c, tx), tx.payload.inner;
            HandleTx(c, w, tx).w == World(
              w.accounts,
              if inner.Collection? then w.collections[id := inner] else w.collections,
              if inner.Mint? && inner.collection in w.collections then w.mints[id := inner] else w.mints,
              w.students,
              RunCode(w, tx.payload.data).w.contract)
    ensures CoreOf(HandleTx(c, w, tx).w) == CoreOf(w) <==> !NewCollection(c, w, tx)
  {
    hide RunCode, HandleNative;
    CodeEffect(w, tx.payload.data);
    if !tx.payload.inner.StudentOp? {
      NativeEffect(c, RunCode(w, tx.payload.data).w, tx);
      var id, inner := TxId(c, tx), tx.payload.inner;
      if inner.Collection? {
        assert id in w.collections && w.collections[id] == inner ==> w.collections[id := inner] == w.collections;
        assert w.collections[id := inner][id] == inner;
      }
    }
  }

  lemma NativeReadsCore(c: Suite, w: World, v: World, tx: Transaction)
    requires CoreOf(w) == CoreOf(v)
    ensures HandleNative(c, w, tx).Applied? == HandleNative(c, v, tx).Applied?
    ensures CoreOf(HandleNative(c, w, tx).w) == CoreOf(HandleNative(c, v, tx).w)
  {
    NativeEffect(c, w, tx);
    NativeEffect(c, v, tx);
    var nft := (u: World) =>
      if tx.payload.inner.NoInner? then Applied(u) else HandleNFT(u, TxId(c, tx), tx.payload.inner);
    assert nft(w).Applied? == nft(v).Applied? && nft(w).w.accounts == nft(v).w.accounts;
  }

  /** Whether code panics does not depend on the state. */
  lemma CodeReadsCore(w: World, v: World, data: seq<byte>)
    requires CoreOf(w) == CoreOf(v)
    ensures RunCode(w, data).Crashed? == RunCode(v, data).Crashed?
    ensures CoreOf(RunCode(w, data).w) == CoreOf(RunCode(v, data).w) == CoreOf(v)
  {
  }

  lemma StudentReadsCore(w: World, v: World, op: Inner)
    requires CoreOf(w) == CoreOf(v) && op.StudentOp?
    ensures HandleStudent(w, op).Applied? == HandleStudent(v, op).Applied?
    ensures HandleStudent(w, op).Failed? == HandleStudent(v, op).Failed?
    ensures CoreOf(HandleStudent(w, op).w) == CoreOf(HandleStudent(v, op).w)
  {
  }

  /** Mints and contract data are never read back by the core. */
  lemma HandleTxReadsCore(c: Suite, w: World, v: World, tx: Transaction)
    requires CoreOf(w) == CoreOf(v)
    ensures HandleTx(c, w, tx).Applied? == HandleTx(c, v, tx).Applied?
    ensures HandleTx(c, w, tx).Failed? == HandleTx(c, v, tx).Failed?
    ensures CoreOf(HandleTx(c, w, tx).w) == CoreOf(HandleTx(c, v, tx).w)
  {
    hide RunCode, HandleStudent, HandleNative, CoreOf;
    CodeEffect(w, tx.payload.data);
    CodeEffect(v, tx.payload.data);
    CodeReadsCore(w, v, tx.payload.data);
    var w', v' := RunCode(w, tx.payload.data).w, RunCode(v, tx.payload.data).w;
    if tx.payload.inner.StudentOp? {
      StudentReadsCore(w', v', tx.payload.inner);
    } else {
      NativeReadsCore(c, w', v', tx);
      NativeEffect(c, w', tx);
      NativeEffect(c, v', tx);
    }
  }

  lemma HandleTxOfFilled(c: Suite, w: World, tx: Transaction)
    ensures HandleTx(c, w, Fill(c, tx)) == HandleTx(c, w, tx)
  {
  }

  /** No dropped transaction was, when it failed, a new collection. */
  ghost predicate CleanDrops(c: Suite, w: World, txs: seq<Transaction>)
    requires ExecTxs(c, w, txs).Executed?
  {
    if txs == [] then true
    else
      var init, tx := txs[..|txs| - 1], txs[|txs| - 1];
      var before := ExecTxs(c, w, init).w;
      CleanDrops(c, w, init) && (HandleTx(c, before, tx).Failed? ==> !NewCollection(c, before, tx))
  }

  /** Running only the survivors of `txs` from `v` drops nothing and reaches the same core. */
  ghost predicate Replays(c: Suite, w: World, v: World, txs: seq<Transaction>)
    requires ExecTxs(c, w, txs).Executed?
  {
    var r := ExecTxs(c, w, txs);
    var again := ExecTxs(c, v, r.kept);
    again.Executed? && again.dropped == [] && again.kept == r.kept && CoreOf(again.w) == CoreOf(r.w)
  }

  lemma {:induction false} CleanDropsReplay(c: Suite, w: World, v: World, txs: seq<Transaction>)
    requires CoreOf(w) == CoreOf(v)
    requires ExecTxs(c, w, txs).Executed? && CleanDrops(c, w, txs)
    ensures Replays(c, w, v, txs)
    decreases |txs|
  {
    hide HandleTx;
    if txs != [] {
      var init, tx := txs[..|txs| - 1], txs[|txs| - 1];
      CleanDropsReplay(c, w, v, init);
      var r := ExecTxs(c, w, init);
      var again := ExecTxs(c, v, r.kept);
      if HandleTx(c, r.w, tx).Failed? {
        DroppedEffect(c, r.w, tx);
      } else {
        HandleTxReadsCore(c, r.w, again.w, tx);
        HandleTxOfFilled(c, again.w, tx);
        ExecSnoc(c, v, r.kept, Fill(c, tx));
      }
    }
  }

  /** One step of the converse: if the survivors replay before and after a drop, it left the core alone. */
  lemma ReplayForcesCleanDrop(c: Suite, w: World, v: World, txs: seq<Transaction>)
    requires txs != [] && ExecTxs(c, w, txs).Executed?
    requires Replays(c, w, v, txs[..|txs| - 1]) && Replays(c, w, v, txs)
    ensures var before := ExecTxs(c, w, txs[..|txs| - 1]).w;
            var tx := txs[|txs| - 1];
            HandleTx(c, before, tx).Failed? ==> !NewCollection(c, before, tx)
  {
    var before, tx := ExecTxs(c, w, txs[..|txs| - 1]).w, txs[|txs| - 1];
    if HandleTx(c, before, tx).Failed? {
      DroppedEffect(c, before, tx);
    }
  }

  /** Every prefix of `txs` replays. */
  ghost predicate AlwaysReplays(c: Suite, w: World, txs: seq<Transaction>)
    requires ExecTxs(c, w, txs).Executed?
  {
    Replays(c, w, w, txs) && (txs == [] || AlwaysReplays(c, w, txs[..|txs| - 1]))
  }

  lemma {:induction false} AlwaysReplaysNow(c: Suite, w: World, txs: seq<Transaction>)
    requires ExecTxs(c, w, txs).Executed? && AlwaysReplays(c, w, txs)
    ensures Replays(c, w, w, txs)
  {
  }

  /** The survivors reproduce the core at every point of a run exactly when no drop was a new collection. */
  lemma {:induction false} ReplayIff(c: Suite, w: World, txs: seq<Transaction>)
    requires ExecTxs(c, w, txs).Executed?
    ensures AlwaysReplays(c, w, txs) <==> CleanDrops(c, w, txs)
    decreases |txs|
  {
    hide Replays, HandleTx, NewCollection;
    if CleanDrops(c, w, txs) {
      CleanDropsReplay(c, w, w, txs);
    }
    if txs != [] {
      ReplayIff(c, w, txs[..|txs| - 1]);
      if AlwaysReplays(c, w, txs) {
        AlwaysReplaysNow(c, w, txs[..|txs| - 1]);
        ReplayForcesCleanDrop(c, w, w, txs);
      }
    }
  }

  /** What a caller can check beforehand: collection transactions that carry no value. */
  predicate NoPaidCollection(txs: seq<Transaction>) {
    forall i :: 0 <= i < |txs| ==> txs[i].payload.inner.Collection? ==> txs[i].payload.value == 0
  }

  lemma {:induction false} NoPaidCollectionIsClean(c: Suite, w: World, txs: seq<Transaction>)
    requires ExecTxs(c, w, txs).Executed? && NoPaidCollection(txs)
    ensures CleanDrops(c, w, txs)
  {
    if txs != [] {
      NoPaidCollectionIsClean(c, w, txs[..|txs| - 1]);
    }
  }

  // ---------- Student records ----------

  datatype Record = Absent | Present(student: Option<Student>)

  function RecordOf(w: World, id: string): Record {
    if id in w.students then Present(w.students[id]) else Absent
  }

  predicate Concerns(tx: Transaction, id: string) {
    tx.payload.inner.StudentOp? && tx.payload.inner.id == id && tx.payload.inner.kind <= STUDENT_DELETE
  }

  /** The create, update and delete operations on `id`, in order. */
  function History(txs: seq<Transaction>, id: string): (ops: seq<Inner>)
    ensures AllStudentOps(ops)
  {
    if txs == [] then []
    else
      var tx := txs[|txs| - 1];
      History(txs[..|txs| - 1], id) + (if Concerns(tx, id) then [tx.payload.inner] else [])
  }

  predicate AllStudentOps(ops: seq<Inner>) {
    forall i :: 0 <= i < |ops| ==> ops[i].StudentOp? && ops[i].kind <= STUDENT_DELETE
  }

  /** Before the i-th operation there is no record. */
  predicate Closed(start: Record, ops: seq<Inner>, i: nat)
    requires AllStudentOps(ops) && i <= |ops|
  {
    if i == 0 then start.Absent? else ops[i - 1].kind == STUDENT_DELETE
  }

  /** create, update* and delete, over and over: an operation creates exactly if there is no record. */
  ghost predicate Lifecycle(start: Record, ops: seq<Inner>)
    requires AllStudentOps(ops)
  {
    forall i :: 0 <= i < |ops| ==> (ops[i].kind == STUDENT_CREATE <==> Closed(start, ops, i))
  }

  /** What a life cycle leaves: nothing after a delete, otherwise the record last written. */
  function Outcome(start: Record, ops: seq<Inner>): Record
    requires AllStudentOps(ops)
  {
    if ops == [] then start
    else if ops[|ops| - 1].kind == STUDENT_DELETE then Absent
    else Present(ops[|ops| - 1].student)
  }

  lemma StudentStep(c: Suite, w: World, tx: Transaction, id: string)
    requires HandleTx(c, w, tx).Applied? || HandleTx(c, w, tx).Failed?
    ensures var w' := HandleTx(c, w, tx).w;
            if HandleTx(c, w, tx).Applied? && Concerns(tx, id)
            then && (tx.payload.inner.kind == STUDENT_CREATE <==> RecordOf(w, id).Absent?)
                 && RecordOf(w', id) == Outcome(RecordOf(w, id), [tx.payload.inner])
            else RecordOf(w', id) == RecordOf(w, id)
  {
    hide RunCode, HandleNative;
    CodeEffect(w, tx.payload.data);
    if !tx.payload.inner.StudentOp? {
      NativeEffect(c, RunCode(w, tx.payload.data).w, tx);
    }
  }

  /** One more operation on a record that is the outcome of a life cycle. */
  lemma LifecycleSnoc(start: Record, ops: seq<Inner>, op: Inner)
    requires op.StudentOp? && op.kind <= STUDENT_DELETE && AllStudentOps(ops)
    requires Lifecycle(start, ops) && (op.kind == STUDENT_CREATE <==> Outcome(start, ops).Absent?)
    ensures Lifecycle(start, ops + [op])
    ensures Outcome(start, ops + [op]) == Outcome(Outcome(start, ops), [op])
  {
    var longer := ops + [op];
    forall i | 0 <= i < |longer| ensures longer[i].kind == STUDENT_CREATE <==> Closed(start, longer, i) {
      if i < |ops| {
        assert ops[i].kind == STUDENT_CREATE <==> Closed(start, ops, i);
      }
    }
  }

  /** Over every execution: each id's surviving operations are a life cycle, and its record is their outcome. */
  lemma {:induction false} RecordHistories(c: Suite, w: World, txs: seq<Transaction>, id: string)
    requires ExecTxs(c, w, txs).Executed?
    ensures var r := ExecTxs(c, w, txs);
            && Lifecycle(RecordOf(w, id), History(r.kept, id))
            && RecordOf(r.w, id) == Outcome(RecordOf(w, id), History(r.kept, id))
  {
    hide HandleTx, RecordOf, Lifecycle, Outcome;
    if txs == [] {
      NoHistory(RecordOf(w, id));
    } else {
      var init, tx := txs[..|txs| - 1], txs[|txs| - 1];
      RecordHistories(c, w, init, id);
      var r := ExecTxs(c, w, init);
      StudentStep(c, r.w, tx, id);
      if HandleTx(c, r.w, tx).Applied? {
        var kept := r.kept + [Fill(c, tx)];
        assert kept[..|kept| - 1] == r.kept;
        if Concerns(tx, id) {
          LifecycleSnoc(RecordOf(w, id), History(r.kept, id), tx.payload.inner);
        } else {
          assert History(kept, id) == History(r.kept, id);
        }
      }
    }
  }

  lemma NoHistory(start: Record)
    ensures Lifecycle(start, []) && Outcome(start, []) == start
  {
  }

  // ---------- Mints ----------

  ghost predicate MintsBacked(w: World) {
    forall h :: h in w.mints ==> w.mints[h].Mint? && w.mints[h].collection in w.collections
  }

  lemma HandleTxKeepsMintsBacked(c: Suite, w: World, tx: Transaction)
    requires MintsBacked(w)
    ensures MintsBacked(HandleTx(c, w, tx).w)
  {
    hide RunCode, HandleNative;
    CodeEffect(w, tx.payload.data);
    if !tx.payload.inner.StudentOp? {
      NativeEffect(c, RunCode(w, tx.payload.data).w, tx);
    }
  }

  lemma {:induction false} ExecKeepsMintsBacked(c: Suite, w: World, txs: seq<Transaction>)
    requires ExecTxs(c, w, txs).Executed? && MintsBacked(w)
    ensures MintsBacked(ExecTxs(c, w, txs).w)
  {
    hide HandleTx;
    if txs != [] {
      var init := txs[..|txs| - 1];
      ExecKeepsMintsBacked(c, w, init);
      HandleTxKeepsMintsBacked(c, ExecTxs(c, w, init).w, txs[|txs| - 1]);
    }
  }
}
