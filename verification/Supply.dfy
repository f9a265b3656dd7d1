/** The money supply over whole executions. */
module Supply {
  import opened Basics
  import opened Entities
  import opened Accounts
  import opened Ledger
  import opened Execution

  /** The handler reaches the native transfer. */
  predicate Pays(tx: Transaction) {
    !tx.payload.inner.StudentOp? && tx.payload.value > 0
  }

  function Payment(c: Suite, a: Book, tx: Transaction): Moved {
    Transferred(a, c.address(tx.payload.from), c.address(tx.payload.to), tx.payload.value)
  }

  /** Accounts change by successful payments and by nothing else. */
  lemma HandleTxAccounts(c: Suite, w: World, tx: Transaction)
    ensures var r := HandleTx(c, w, tx);
            && (r.Applied? && Pays(tx) ==> Payment(c, w.accounts, tx) == Moved(r.w.accounts))
            && (!r.Applied? || !Pays(tx) ==> r.w.accounts == w.accounts)
  {
    hide RunCode, HandleNative, Transferred;
    CodeEffect(w, tx.payload.data);
    if !tx.payload.inner.StudentOp? {
      var v := RunCode(w, tx.payload.data).w;
      NativeEffect(c, v, tx);
      if HandleNative(c, v, tx).Applied? {
        NativeAccounts(c, v, tx);
      }
    }
  }

  lemma NativeAccounts(c: Suite, w: World, tx: Transaction)
    requires HandleNative(c, w, tx).Applied?
    ensures var book := HandleNative(c, w, tx).w.accounts;
            if tx.payload.value == 0 then book == w.accounts else Payment(c, w.accounts, tx) == Moved(book)
  {
    var nft := if tx.payload.inner.NoInner? then Applied(w) else HandleNFT(w, TxId(c, tx), tx.payload.inner);
    assert nft.w.accounts == w.accounts;
  }

  // ---------- Every execution, wrap-arounds included ----------

  function MintedByOne(c: Suite, w: World, tx: Transaction): nat {
    if HandleTx(c, w, tx).Applied? && Pays(tx)
    then Minted(w.accounts, c.address(tx.payload.from), tx.payload.value) else 0
  }

  function CarryByOne(c: Suite, w: World, tx: Transaction): int {
    if HandleTx(c, w, tx).Applied? && Pays(tx)
    then Carry(w.accounts, c.address(tx.payload.from), c.address(tx.payload.to), tx.payload.value) else 0
  }

  /** What an execution created: the amounts successfully sent out of a zero balance. */
  function MintedBy(c: Suite, w: World, txs: seq<Transaction>): nat
    requires ExecTxs(c, w, txs).Executed?
  {
    if txs == [] then 0
    else
      var init := txs[..|txs| - 1];
      MintedBy(c, w, init) + MintedByOne(c, ExecTxs(c, w, init).w, txs[|txs| - 1])
  }

  /** The net number of wrap-arounds in an execution. */
  function CarryBy(c: Suite, w: World, txs: seq<Transaction>): int
    requires ExecTxs(c, w, txs).Executed?
  {
    if txs == [] then 0
    else
      var init := txs[..|txs| - 1];
      CarryBy(c, w, init) + CarryByOne(c, ExecTxs(c, w, init).w, txs[|txs| - 1])
  }

  lemma SupplyStep(c: Suite, w: World, tx: Transaction)
    requires Keyed(w.accounts)
    ensures var a := HandleTx(c, w, tx).w.accounts;
            && Keyed(a)
            && Total(a) == Total(w.accounts) + MintedByOne(c, w, tx) + CarryByOne(c, w, tx) * TWO_64
  {
    HandleTxAccounts(c, w, tx);
    if HandleTx(c, w, tx).Applied? && Pays(tx) {
      TransferSupply(w.accounts, c.address(tx.payload.from), c.address(tx.payload.to), tx.payload.value);
    }
  }

  /** The supply grows by what was minted and by whole multiples of 2^64, nothing else. */
  lemma {:induction false} SupplyAccounting(c: Suite, w: World, txs: seq<Transaction>)
    requires ExecTxs(c, w, txs).Executed? && Keyed(w.accounts)
    ensures var a := ExecTxs(c, w, txs).w.accounts;
            && Keyed(a)
            && Total(a) == Total(w.accounts) + MintedBy(c, w, txs) + CarryBy(c, w, txs) * TWO_64
  {
    hide HandleTx;
    if txs != [] {
      var init := txs[..|txs| - 1];
      SupplyAccounting(c, w, init);
      SupplyStep(c, ExecTxs(c, w, init).w, txs[|txs| - 1]);
    }
  }

  // ---------- Exactly, while the coinbase does not overdraw ----------

  /** No successful coinbase payment exceeds the coinbase's balance at that moment. */
  predicate Solvent(c: Suite, w: World, txs: seq<Transaction>)
    requires ExecTxs(c, w, txs).Executed?
  {
    txs == [] ||
      var init, tx := txs[..|txs| - 1], txs[|txs| - 1];
      var before := ExecTxs(c, w, init).w;
      && Solvent(c, w, init)
      && (HandleTx(c, before, tx).Applied? && Pays(tx) && c.address(tx.payload.from) == COINBASE_ADDRESS ==>
            tx.payload.value <= BalanceOf(before.accounts, COINBASE_ADDRESS))
  }

  /** A covered payment moves exactly its amount and leaves every other balance alone. */
  lemma CoveredTransferIsExact(a: Book, from: Address, to: Address, amount: uint64)
    requires Keyed(a) && Total(a) < TWO_64 && from in a && 0 < amount <= a[from].balance
    ensures Transferred(a, from, to, amount).Moved?
    ensures var a' := Transferred(a, from, to, amount).book;
            && Keyed(a') && Total(a') == Total(a)
            && (from != to ==> BalanceOf(a', from) == BalanceOf(a, from) - amount)
            && (from != to ==> BalanceOf(a', to) == BalanceOf(a, to) + amount)
            && (from == to ==> BalanceOf(a', from) == BalanceOf(a, from))
            && forall k :: k != from && k != to ==> BalanceOf(a', k) == BalanceOf(a, k)
  {
    TotalWithout(a, from);
    if to in a && to != from {
      TotalWithout(a - {from}, to);
    }
    TransferSupply(a, from, to, amount);
    TransferKeepsSupplyIff(a, from, to, amount);
  }

  predicate WrapFreeOne(c: Suite, w: World, tx: Transaction) {
    HandleTx(c, w, tx).Applied? && Pays(tx) ==>
      WrapFree(w.accounts, c.address(tx.payload.from), c.address(tx.payload.to), tx.payload.value)
  }

  /** No balance update of the execution wraps. */
  predicate WrapFreeRun(c: Suite, w: World, txs: seq<Transaction>)
    requires ExecTxs(c, w, txs).Executed?
  {
    txs == [] ||
      var init := txs[..|txs| - 1];
      WrapFreeRun(c, w, init) && WrapFreeOne(c, ExecTxs(c, w, init).w, txs[|txs| - 1])
  }

  lemma CoveredStep(c: Suite, w: World, tx: Transaction)
    requires Keyed(w.accounts) && Total(w.accounts) < TWO_64
    requires HandleTx(c, w, tx).Applied? && Pays(tx) && c.address(tx.payload.from) == COINBASE_ADDRESS ==>
      tx.payload.value <= BalanceOf(w.accounts, COINBASE_ADDRESS)
    ensures var a := HandleTx(c, w, tx).w.accounts;
            Keyed(a) && Total(a) == Total(w.accounts) && WrapFreeOne(c, w, tx)
  {
    hide HandleTx;
    HandleTxAccounts(c, w, tx);
    if HandleTx(c, w, tx).Applied? && Pays(tx) {
      var from, to := c.address(tx.payload.from), c.address(tx.payload.to);
      CoveredTransferIsExact(w.accounts, from, to, tx.payload.value);
      TotalWithout(w.accounts, from);
      if to in w.accounts && to != from {
        TotalWithout(w.accounts - {from}, to);
      }
    }
  }

  /** In a solvent execution no balance update wraps, and the sum of balances never changes. */
  lemma {:induction false} SupplyExact(c: Suite, w: World, txs: seq<Transaction>)
    requires ExecTxs(c, w, txs).Executed? && Solvent(c, w, txs)
    requires Keyed(w.accounts) && Total(w.accounts) < TWO_64
    ensures var a := ExecTxs(c, w, txs).w.accounts;
            && Keyed(a) && Total(a) == Total(w.accounts)
            && WrapFreeRun(c, w, txs)
            && forall k :: k in a ==> a[k].balance <= Total(w.accounts)
  {
    hide HandleTx, WrapFreeOne;
    if txs != [] {
      var init, tx := txs[..|txs| - 1], txs[|txs| - 1];
      SupplyExact(c, w, init);
      CoveredStep(c, ExecTxs(c, w, init).w, tx);
    }
    var a := ExecTxs(c, w, txs).w.accounts;
    forall k | k in a ensures a[k].balance <= Total(a) {
      BalanceWithinTotal(a, k);
    }
  }

  // ---------- Exactly when the supply is constant ----------

  predicate SteadyOne(c: Suite, w: World, tx: Transaction) {
    HandleTx(c, w, tx).Applied? && Pays(tx) ==>
      KeepsSupply(w.accounts, c.address(tx.payload.from), c.address(tx.payload.to), tx.payload.value)
  }

  /** Every successful payment met the condition under which a transfer keeps the supply. */
  predicate SteadyPayments(c: Suite, w: World, txs: seq<Transaction>)
    requires ExecTxs(c, w, txs).Executed?
  {
    txs == [] ||
      var init := txs[..|txs| - 1];
      SteadyPayments(c, w, init) && SteadyOne(c, ExecTxs(c, w, init).w, txs[|txs| - 1])
  }

  /** The sum of balances is the same after every prefix. */
  ghost predicate AlwaysTotal(c: Suite, w: World, txs: seq<Transaction>)
    requires ExecTxs(c, w, txs).Executed?
  {
    && Total(ExecTxs(c, w, txs).w.accounts) == Total(w.accounts)
    && (txs == [] || AlwaysTotal(c, w, txs[..|txs| - 1]))
  }

  lemma SteadyStep(c: Suite, w: World, tx: Transaction)
    requires Keyed(w.accounts)
    ensures Keyed(HandleTx(c, w, tx).w.accounts)
    ensures Total(HandleTx(c, w, tx).w.accounts) == Total(w.accounts) <==> SteadyOne(c, w, tx)
  {
    hide HandleTx, KeepsSupply;
    HandleTxAccounts(c, w, tx);
    if HandleTx(c, w, tx).Applied? && Pays(tx) {
      var from, to := c.address(tx.payload.from), c.address(tx.payload.to);
      TransferSupply(w.accounts, from, to, tx.payload.value);
      TransferKeepsSupplyIff(w.accounts, from, to, tx.payload.value);
    }
  }

  /** Over every execution: the supply is constant at every point exactly when every payment is steady. */
  lemma {:induction false} SupplyConstantIff(c: Suite, w: World, txs: seq<Transaction>)
    requires ExecTxs(c, w, txs).Executed? && Keyed(w.accounts)
    ensures Keyed(ExecTxs(c, w, txs).w.accounts)
    ensures AlwaysTotal(c, w, txs) <==> SteadyPayments(c, w, txs)
  {
    hide HandleTx, SteadyOne;
    if txs != [] {
      var init, tx := txs[..|txs| - 1], txs[|txs| - 1];
      SupplyConstantIff(c, w, init);
      var before := ExecTxs(c, w, init).w;
      SupplyStep(c, before, tx);
      if AlwaysTotal(c, w, init) {
        TotalNow(c, w, init);
        SteadyStep(c, before, tx);
      }
    }
  }

  lemma {:induction false} TotalNow(c: Suite, w: World, txs: seq<Transaction>)
    requires ExecTxs(c, w, txs).Executed? && AlwaysTotal(c, w, txs)
    ensures Total(ExecTxs(c, w, txs).w.accounts) == Total(w.accounts)
  {
  }

  predicate NoCoinbaseSender(c: Suite, txs: seq<Transaction>) {
    forall i :: 0 <= i < |txs| ==> c.address(txs[i].payload.from) != COINBASE_ADDRESS
  }

  lemma {:induction false} NoCoinbaseSenderIsSolvent(c: Suite, w: World, txs: seq<Transaction>)
    requires ExecTxs(c, w, txs).Executed? && NoCoinbaseSender(c, txs)
    ensures Solvent(c, w, txs)
  {
    if txs != [] {
      NoCoinbaseSenderIsSolvent(c, w, txs[..|txs| - 1]);
    }
  }

  /** While only the coinbase holds an account and does not pay, no payment by anyone succeeds. */
  lemma {:induction false} FrozenWithoutCoinbase(c: Suite, w: World, txs: seq<Transaction>)
    requires ExecTxs(c, w, txs).Executed? && NoCoinbaseSender(c, txs)
    requires w.accounts.Keys == {COINBASE_ADDRESS}
    ensures ExecTxs(c, w, txs).w.accounts == w.accounts
    ensures forall tx :: tx in ExecTxs(c, w, txs).kept ==> !Pays(tx)
  {
    hide HandleTx;
    if txs != [] {
      var init, tx := txs[..|txs| - 1], txs[|txs| - 1];
      FrozenWithoutCoinbase(c, w, init);
      HandleTxAccounts(c, ExecTxs(c, w, init).w, tx);
    }
  }
}
