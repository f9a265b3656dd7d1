/** The blockchain object: its fields, updated in place, follow the ledger's state machine step by step. */
module BlockchainObject {
  import opened Basics
  import opened Entities
  import A = Accounts
  import L = Ledger
  import X = Execution
  import Ch = Chains
  import Vm

  /** How a handler ends: nil, an error, or a panic of the virtual machine. */
  datatype Status = Done | Error | Panic

  function StatusOf(r: L.TxResult): Status {
    match r
    case Applied(_) => Done
    case Failed(_) => Error
    case Crashed(_) => Panic
  }

  /** How a submission ends. */
  datatype Submission = Accepted | Refused(v: L.Verdict) | Broken

  function SubmissionOf(r: L.AddResult): Submission {
    match r
    case Added(_, _) => Accepted
    case Rejected(v, _) => Refused(v)
    case Panicked(_) => Broken
  }

  class Blockchain {
    const c: Suite
    const accountState: A.AccountState
    const contractState: Vm.State
    var headers: seq<Header>
    var blocks: seq<Block>
    var blockStore: map<Hash, Block>
    var txStore: map<Hash, Transaction>
    var collectionState: map<Hash, Inner>
    var mintState: map<Hash, Inner>
    var studentState: map<string, Option<Student>>

    ghost function World(): L.World
      reads this, accountState, contractState
    {
      L.World(accountState.accounts, collectionState, mintState, studentState, contractState.data)
    }

    ghost function View(): L.Chain
      reads this, accountState, contractState
    {
      L.Chain(headers, blocks, blockStore, txStore, World())
    }

    ghost predicate Valid()
      reads this, accountState, contractState
    {
      Ch.ChainOk(c, View())
    }

    /** Every state built, no block stored yet. */
    constructor Empty(c: Suite)
      ensures this.c == c && fresh(accountState) && fresh(contractState)
      ensures View() == L.EmptyChain(c)
    {
      this.c := c;
      accountState := new A.AccountState();
      contractState := new Vm.State();
      headers, blocks := [], [];
      blockStore, txStore := map[], map[];
      collectionState, mintState, studentState := map[], map[], map[];
      new;
      var _ := accountState.CreateAccount(c.address(COINBASE));
    }

    /** Stores genesis unvalidated; `ok` is false if its code panics. */
    static method New(c: Suite, genesis: Block) returns (bc: Blockchain, ok: bool)
      ensures fresh(bc) && fresh(bc.accountState) && fresh(bc.contractState) && bc.c == c
      ensures var r := L.NewBlockchain(c, genesis);
              && bc.View() == r.ch
              && (ok <==> r.Added?)
              && (ok ==> bc.Valid())
    {
      hide L.AddWithoutValidation, Ch.ChainOk;
      bc := new Blockchain.Empty(c);
      var added, _ := bc.AddBlockWithoutValidation(genesis);
      ok := added;
      if ok {
        Ch.NewBlockchainOk(c, genesis);
      }
    }

    // ---------- Transactions ----------

    method RunCode(data: seq<byte>) returns (st: Status)
      modifies contractState
      ensures var r := L.RunCode(old(World()), data); st == StatusOf(r) && World() == r.w
    {
      if |data| > 0 {
        var vm := new Vm.VM(data, contractState);
        var ok := vm.Run();
        return if ok then Done else Panic;
      }
      st := Done;
    }

    method HandleStudentTx(op: Inner) returns (st: Status)
      requires op.StudentOp?
      modifies this`studentState
      ensures var r := L.HandleStudent(old(World()), op); st == StatusOf(r) && World() == r.w
    {
      if op.kind == STUDENT_CREATE {
        if op.id in studentState { return Error; }
        studentState := studentState[op.id := op.student];
      } else if op.kind == STUDENT_UPDATE {
        if op.id !in studentState { return Error; }
        studentState := studentState[op.id := op.student];
      } else if op.kind == STUDENT_DELETE {
        if op.id !in studentState { return Error; }
        studentState := studentState - {op.id};
      }
      st := Done;
    }

    method HandleNativeNFT(tx: Transaction) returns (st: Status)
      modifies this`collectionState, this`mintState
      ensures var r := L.HandleNFT(old(World()), TxId(c, tx), tx.payload.inner);
              st == StatusOf(r) && World() == r.w
    {
      var hash := TxId(c, tx);
      match tx.payload.inner
      case Collection(_, _) =>
        collectionState := collectionState[hash := tx.payload.inner];
        st := Done;
      case Mint(_, _, collection, _, _, _) =>
        if collection !in collectionState { return Error; }
        mintState := mintState[hash := tx.payload.inner];
        st := Done;
      case _ =>
        st := Error;
    }

    method HandleNativeTransfer(p: Payload) returns (st: Status)
      modifies accountState
      ensures var r := L.HandleTransfer(c, old(World()), p); st == StatusOf(r) && World() == r.w
    {
      hide A.Transferred;
      var moved := accountState.Transfer(c.address(p.from), c.address(p.to), p.value);
      st := if moved.Moved? then Done else Error;
    }

    method HandleTransaction(tx: Transaction) returns (st: Status)
      modifies this`studentState, this`collectionState, this`mintState, accountState, contractState
      ensures var r := L.HandleTx(c, old(World()), tx); st == StatusOf(r) && World() == r.w
    {
      hide L.RunCode, L.HandleStudent, L.HandleNFT, L.HandleTransfer;
      st := RunCode(tx.payload.data);
      NeverFails(old(World()), tx.payload.data);
      if st != Done { return; }
      if tx.payload.inner.StudentOp? {
        st := HandleStudentTx(tx.payload.inner);
        return;
      }
      if !tx.payload.inner.NoInner? {
        st := HandleNativeNFT(tx);
        if st != Done { return; }
      }
      if tx.payload.value > 0 {
        st := HandleNativeTransfer(tx.payload);
      }
    }

    /** A program ends or panics; it never returns an error. */
    static lemma NeverFails(w: L.World, data: seq<byte>)
      ensures !L.RunCode(w, data).Failed?
    {
    }

    // ---------- Blocks ----------

    /** Executes in order, collecting the transactions that succeed; a panic stops everything. */
    method ExecuteAll(txs: seq<Transaction>) returns (ok: bool, kept: seq<Transaction>)
      modifies this`studentState, this`collectionState, this`mintState, accountState, contractState
      ensures var r := L.ExecTxs(c, old(World()), txs);
              && World() == r.w
              && (ok <==> r.Executed?)
              && (ok ==> kept == r.kept)
    {
      hide L.HandleTx;
      kept := [];
      ghost var dropped: seq<Transaction> := [];
      for i := 0 to |txs|
        invariant L.ExecTxs(c, old(World()), txs[..i]) == L.Executed(World(), kept, dropped)
      {
        assert txs[..i + 1][..i] == txs[..i];
        var st := HandleTransaction(txs[i]);
        match st
        case Done => kept := kept + [Fill(c, txs[i])];
        case Error => dropped := dropped + [Fill(c, txs[i])];
        case Panic =>
          X.CrashIsFinal(c, old(World()), txs, i + 1);
          return false, kept;
      }
      assert txs[..|txs|] == txs;
      ok := true;
    }

    method StoreTransactions(txs: seq<Transaction>)
      modifies this`txStore
      ensures txStore == L.StoreTxs(old(txStore), txs)
    {
      for i := 0 to |txs|
        invariant txStore == L.StoreTxs(old(txStore), txs[..i])
      {
        assert txs[..i + 1][..i] == txs[..i];
        txStore := txStore[txs[i].cached := txs[i]];
      }
      assert txs[..|txs|] == txs;
    }

    method AddBlockWithoutValidation(b: Block) returns (ok: bool, b': Block)
      modifies this, accountState, contractState
      ensures var r := L.AddWithoutValidation(c, old(View()), b);
              && View() == r.ch
              && (ok <==> r.Added?)
              && (ok ==> b' == r.b)
    {
      hide L.ExecTxs, L.StoreTxs;
      var kept;
      ok, kept := ExecuteAll(b.transactions);
      if !ok { return false, b; }
      b' := b.(transactions := kept, cached := BlockId(c, b));
      headers := headers + [b'.header];
      blocks := blocks + [b'];
      blockStore := blockStore[BlockId(c, b') := b'];
      StoreTransactions(b'.transactions);
    }

    method ValidateBlock(b: Block) returns (v: L.Verdict, b': Block)
      requires Valid()
      ensures (v, b') == L.Validate(c, View(), b)
    {
      var currentHeight := Height();
      var known := HasBlock(b.header.height);
      if known { return L.ErrKnown, b; }
      if b.header.height > WrapU32(currentHeight + 1) { return L.ErrTooHigh, b; }
      var prev := headers[b.header.height - 1];
      if c.HeaderHash(prev) != b.header.prevHash { return L.ErrPrevHash, b; }
      var ok;
      ok, b' := Verify(c, b);
      v := if ok then L.Accept else L.ErrVerify;
    }

    method AddBlock(b: Block) returns (e: Submission, b': Block)
      requires Valid()
      modifies this, accountState, contractState
      ensures var r := L.AddBlock(c, old(View()), b);
              && e == SubmissionOf(r)
              && View() == (if r.Rejected? then old(View()) else r.ch)
              && (!r.Panicked? ==> Valid() && b' == r.b)
    {
      hide L.Validate, L.AddWithoutValidation, Ch.ChainOk;
      var v;
      v, b' := ValidateBlock(b);
      if v != L.Accept {
        return Refused(v), b'.(cached := BlockId(c, b));
      }
      var ok;
      ok, b' := AddBlockWithoutValidation(b');
      if ok {
        Ch.AddBlockKeepsOk(c, old(View()), b);
      }
      e := if ok then Accepted else Broken;
    }

    // ---------- Queries ----------

    method Height() returns (h: uint32)
      requires Valid()
      ensures h == |headers| - 1 == View().Height()
    {
      h := WrapU32(|headers| - 1);
    }

    method HasBlock(height: uint32) returns (r: bool)
      requires Valid()
      ensures r <==> height < |headers|
    {
      var h := Height();
      r := height <= h;
    }

    method GetHeader(height: uint32) returns (r: Option<Header>)
      requires Valid()
      ensures r == if height < |headers| then Some(headers[height]) else None
    {
      var h := Height();
      if height > h { return None; }
      r := Some(headers[height]);
    }

    method GetBlock(height: uint32) returns (r: Option<Block>)
      requires Valid()
      ensures r.Some? <==> height < |headers|
      ensures r.Some? ==> r.value == blocks[height] && r.value.header == headers[height]
    {
      var h := Height();
      if height > h { return None; }
      r := Some(blocks[height]);
    }

    /** The in-memory part: `None` is where the persistent store would be asked. */
    method GetBlockByHash(hash: Hash) returns (r: Option<Block>)
      requires Valid()
      ensures r.Some? <==> exists i :: 0 <= i < |blocks| && blocks[i].cached == hash
      ensures r.Some? ==> r.value in blocks && r.value.cached == hash
    {
      ghost var i := Ch.IndexBlocksIsLatest(blocks, hash);
      if hash in blockStore {
        r := Some(blockStore[hash]);
      } else {
        r := None;
      }
    }

    method GetTxByHash(hash: Hash) returns (r: Option<Transaction>)
      requires Valid()
      ensures r.Some? <==> exists tx :: tx in Ch.Flatten(blocks) && tx.cached == hash
      ensures r.Some? ==> r.value in Ch.Flatten(blocks) && r.value.cached == hash
    {
      ghost var i := Ch.StoreTxsIsLatest(Ch.Flatten(blocks), hash);
      if hash in txStore {
        r := Some(txStore[hash]);
      } else {
        r := None;
      }
    }
  }
}
