/** Invariants and whole-run theorems of the chain. */
module Chains {
  import opened Basics
  import opened Entities
  import opened Accounts
  import opened Ledger
  import opened Execution
  import opened Supply

  // ---------- The chain invariant ----------

  /** Header i has height i and names the hash of header i - 1; the length fits a uint32 height. */
  ghost predicate Linked(c: Suite, hs: seq<Header>) {
    && 1 <= |hs| <= MAX_UINT32 + 1
    && forall i :: 1 <= i < |hs| ==> hs[i].height == i && hs[i].prevHash == c.HeaderHash(hs[i - 1])
  }

  /** What is known of every stored block; genesis is stored without being verified. */
  ghost predicate StoredBlock(c: Suite, b: Block, i: nat) {
    && b.cached == BlockId(c, b)
    && AllFilled(c, b.transactions) && AllCodeRuns(b.transactions)
    && (i >= 1 ==> SignedHeader(c, b) && AllVerify(c, b.transactions))
  }

  function IndexBlocks(bs: seq<Block>): map<Hash, Block> {
    if bs == [] then map[] else IndexBlocks(bs[..|bs| - 1])[bs[|bs| - 1].cached := bs[|bs| - 1]]
  }

  function Flatten(bs: seq<Block>): seq<Transaction> {
    if bs == [] then [] else Flatten(bs[..|bs| - 1]) + bs[|bs| - 1].transactions
  }

  /** The four views agree. */
  ghost predicate Agree(ch: Chain) {
    && |ch.blocks| == |ch.headers|
    && (forall i :: 0 <= i < |ch.blocks| ==> ch.blocks[i].header == ch.headers[i])
    && ch.blockStore == IndexBlocks(ch.blocks)
    && ch.txStore == StoreTxs(map[], Flatten(ch.blocks))
  }

  ghost predicate ChainOk(c: Suite, ch: Chain) {
    && Linked(c, ch.headers)
    && Agree(ch)
    && forall i :: 0 <= i < |ch.blocks| ==> StoredBlock(c, ch.blocks[i], i)
  }

  /** The validator accepts exactly the verifying blocks one above the tip that link to it. */
  lemma AcceptIff(c: Suite, ch: Chain, b: Block)
    requires Linked(c, ch.headers)
    ensures Validate(c, ch, b).0 == Accept <==>
      && b.header.height == |ch.headers|
      && b.header.prevHash == c.HeaderHash(ch.headers[|ch.headers| - 1])
      && VerifyBlock(c, b)
    ensures Validate(c, ch, b).0 == Accept ==>
      Validate(c, ch, b).1 == b.(transactions := FillAll(c, b.transactions))
    ensures Validate(c, ch, b).0 == ErrKnown <==> b.header.height < |ch.headers|
  {
  }

  lemma {:induction false} StoreTxsConcat(m: map<Hash, Transaction>, a: seq<Transaction>, b: seq<Transaction>)
    ensures StoreTxs(StoreTxs(m, a), b) == StoreTxs(m, a + b)
    decreases |b|
  {
    if b == [] {
      assert a + b == a;
    } else {
      assert (a + b)[..|a + b| - 1] == a + b[..|b| - 1];
      StoreTxsConcat(m, a, b[..|b| - 1]);
    }
  }

  /** Publishing one more block keeps the views in agreement. */
  lemma ExtendAgrees(c: Suite, ch: Chain, b: Block, w: World)
    requires Agree(ch) && b.cached == BlockId(c, b)
    ensures Agree(Extend(c, ch, b, w))
  {
    var bs := ch.blocks + [b];
    assert bs[..|ch.blocks|] == ch.blocks;
    StoreTxsConcat(map[], Flatten(ch.blocks), b.transactions);
  }

  lemma PublishedIsStored(c: Suite, w: World, b: Block, i: nat)
    requires ExecTxs(c, w, b.transactions).Executed?
    requires i >= 1 ==> SignedHeader(c, b) && AllVerify(c, b.transactions)
    ensures StoredBlock(c, Published(c, b, ExecTxs(c, w, b.transactions).kept), i)
  {
    var r := ExecTxs(c, w, b.transactions);
    ExecutesIff(c, w, b.transactions);
    KeptAreFromList(c, w, b.transactions);
    forall j | 0 <= j < |r.kept| ensures Filled(c, r.kept[j]) && (i >= 1 ==> VerifyTx(c, r.kept[j])) {
      assert r.kept[j] in r.kept;
    }
  }

  lemma NewBlockchainOk(c: Suite, genesis: Block)
    requires NewBlockchain(c, genesis).Added?
    ensures ChainOk(c, NewBlockchain(c, genesis).ch)
    ensures NewBlockchain(c, genesis).ch.headers == [genesis.header]
  {
    hide ExecTxs, StoredBlock;
    var ch := EmptyChain(c);
    PublishedIsStored(c, ch.world, genesis, 0);
    ExtendAgrees(c, ch, NewBlockchain(c, genesis).b, NewBlockchain(c, genesis).ch.world);
  }

  /** Every accepted block keeps the invariant and only appends. */
  lemma AddBlockKeepsOk(c: Suite, ch: Chain, b: Block)
    requires ChainOk(c, ch) && AddBlock(c, ch, b).Added?
    ensures var ch' := AddBlock(c, ch, b).ch;
            && ChainOk(c, ch')
            && ch'.headers == ch.headers + [b.header]
            && ch'.blocks == ch.blocks + [AddBlock(c, ch, b).b]
  {
    hide ExecTxs, StoreTxs, IndexBlocks, Flatten;
    AcceptIff(c, ch, b);
    var b' := Validate(c, ch, b).1;
    forall i | 0 <= i < |b'.transactions| ensures VerifyTx(c, b'.transactions[i]) {
      assert VerifyTx(c, b.transactions[i]);
    }
    PublishedIsStored(c, ch.world, b', |ch.blocks|);
    ExtendAgrees(c, ch, AddBlock(c, ch, b).b, AddBlock(c, ch, b).ch.world);
  }

  /**
   Over every run, whatever is submitted: headers stay linked, views stay in agreement, entries
   already there never change, and the uint32 height never wraps.
   */
  lemma {:induction false} RunKeepsOk(c: Suite, ch: Chain, bs: seq<Block>)
    requires ChainOk(c, ch) && Run(c, ch, bs).Some?
    ensures var ch' := Run(c, ch, bs).value;
            && ChainOk(c, ch')
            && ch.headers <= ch'.headers && ch.blocks <= ch'.blocks
            && ch'.Height() == |ch'.headers| - 1
  {
    if bs != [] {
      var init, b := bs[..|bs| - 1], bs[|bs| - 1];
      RunKeepsOk(c, ch, init);
      var mid := Run(c, ch, init).value;
      if AddBlock(c, mid, b).Added? {
        AddBlockKeepsOk(c, mid, b);
      }
    }
  }

  // ---------- Lookups ----------

  /** Index i is the last with key k. */
  ghost predicate LastBlock(bs: seq<Block>, k: Hash, i: int) {
    0 <= i < |bs| && bs[i].cached == k && forall j :: i < j < |bs| ==> bs[j].cached != k
  }

  ghost predicate LastTx(txs: seq<Transaction>, h: Hash, i: int) {
    0 <= i < |txs| && txs[i].cached == h && forall j :: i < j < |txs| ==> txs[j].cached != h
  }

  lemma {:induction false} IndexBlocksIsLatest(bs: seq<Block>, k: Hash) returns (i: int)
    ensures k in IndexBlocks(bs) ==> LastBlock(bs, k, i) && IndexBlocks(bs)[k] == bs[i]
    ensures k !in IndexBlocks(bs) ==> forall j :: 0 <= j < |bs| ==> bs[j].cached != k
  {
    i := |bs| - 1;
    if bs != [] && bs[i].cached != k {
      i := IndexBlocksIsLatest(bs[..|bs| - 1], k);
    }
  }

  lemma {:induction false} StoreTxsIsLatest(txs: seq<Transaction>, h: Hash) returns (i: int)
    ensures h in StoreTxs(map[], txs) ==> LastTx(txs, h, i) && StoreTxs(map[], txs)[h] == txs[i]
    ensures h !in StoreTxs(map[], txs) ==> forall j :: 0 <= j < |txs| ==> txs[j].cached != h
  {
    i := |txs| - 1;
    if txs != [] && txs[i].cached != h {
      i := StoreTxsIsLatest(txs[..|txs| - 1], h);
    }
  }

  /** Lookup by hash finds the last block stored under it, and the last surviving transaction. */
  lemma LookupIsLatest(c: Suite, ch: Chain, h: Hash)
    requires ChainOk(c, ch)
    ensures if h in ch.blockStore
            then exists i :: LastBlock(ch.blocks, h, i) && ch.blockStore[h] == ch.blocks[i]
            else forall j :: 0 <= j < |ch.blocks| ==> ch.blocks[j].cached != h
    ensures var txs := Flatten(ch.blocks);
            if h in ch.txStore
            then exists i :: LastTx(txs, h, i) && ch.txStore[h] == txs[i]
            else forall j :: 0 <= j < |txs| ==> txs[j].cached != h
  {
    hide Linked, StoredBlock;
    var txs := Flatten(ch.blocks);
    var i := IndexBlocksIsLatest(ch.blocks, h);
    var j := StoreTxsIsLatest(txs, h);
    assert h in ch.txStore ==> LastTx(txs, h, j) && ch.txStore[h] == txs[j];
  }

  /** Every cached block hash is the hash of its own header. */
  ghost predicate HonestCaches(c: Suite, bs: seq<Block>) {
    forall i :: 0 <= i < |bs| ==> bs[i].cached == c.HeaderHash(bs[i].header)
  }

  /** The cache of a block as decoded from a peer, or as `Hash` fills it. */
  predicate HonestCache(c: Suite, b: Block) {
    b.cached == 0 || b.cached == c.HeaderHash(b.header)
  }

  lemma AddBlockKeepsHonest(c: Suite, ch: Chain, b: Block)
    requires HonestCaches(c, ch.blocks) && AddBlock(c, ch, b).Added?
    requires HonestCache(c, b)
    ensures HonestCaches(c, AddBlock(c, ch, b).ch.blocks)
  {
  }

  /** Submitting blocks whose cache is empty, as decoded from a peer, or right keeps every cache right. */
  lemma {:induction false} RunKeepsHonest(c: Suite, ch: Chain, bs: seq<Block>)
    requires HonestCaches(c, ch.blocks) && Run(c, ch, bs).Some?
    requires forall i :: 0 <= i < |bs| ==> HonestCache(c, bs[i])
    ensures HonestCaches(c, Run(c, ch, bs).value.blocks)
  {
    hide AddBlock, HonestCaches;
    if bs != [] {
      var init, b := bs[..|bs| - 1], bs[|bs| - 1];
      RunKeepsHonest(c, ch, init);
      var mid := Run(c, ch, init).value;
      if AddBlock(c, mid, b).Added? {
        AddBlockKeepsHonest(c, mid, b);
      }
    }
  }

  /** With honest caches and no collisions, every block on the chain is found by its header's hash. */
  lemma LookupFindsEveryBlock(c: Suite, ch: Chain, i: nat)
    requires ChainOk(c, ch) && ch.headers[0].height == 0 && HonestCaches(c, ch.blocks)
    requires CollisionFree(c) && InjectiveHeaders(c)
    requires i < |ch.blocks|
    ensures c.HeaderHash(ch.headers[i]) in ch.blockStore
    ensures ch.blockStore[c.HeaderHash(ch.headers[i])] == ch.blocks[i]
  {
    var k := ch.blocks[i].cached;
    var j := IndexBlocksIsLatest(ch.blocks, k);
    assert c.headerBytes(ch.headers[i]) == c.headerBytes(ch.headers[j]);
    assert ch.headers[i].height == ch.headers[j].height;
  }

  // ---------- A stored block still verifies exactly when nothing was dropped ----------

  lemma StoredBlockVerifiesIff(c: Suite, ch: Chain, b: Block)
    requires ChainOk(c, ch) && AddBlock(c, ch, b).Added?
    requires CollisionFree(c) && NonEmptyEncodings(c)
    ensures VerifyBlock(c, AddBlock(c, ch, b).b) <==> AddBlock(c, ch, b).b.transactions == FillAll(c, b.transactions)
    ensures VerifyBlock(c, AddBlock(c, ch, b).b) <==> ExecTxs(c, ch.world, FillAll(c, b.transactions)).dropped == []
  {
    AcceptIff(c, ch, b);
    AddBlockKeepsOk(c, ch, b);
    var full, kept := FillAll(c, b.transactions), AddBlock(c, ch, b).b.transactions;
    FillAllIdempotent(c, b.transactions);
    ExecConserves(c, ch.world, full);
    var b' := AddBlock(c, ch, b).b;
    assert StoredBlock(c, b', |ch.blocks|) by { assert AddBlock(c, ch, b).ch.blocks[|ch.blocks|] == b'; }
    FillAllIdempotent(c, kept);
    if VerifyBlock(c, b') {
      assert EncodeAll(c, kept) == EncodeAll(c, full);
      SublistEncodesShorter(c, kept, full);
    }
  }

  // ---------- A run is one long execution ----------

  /** The transactions of the accepted blocks of a run, as they entered execution. */
  function AcceptedTxs(c: Suite, ch: Chain, bs: seq<Block>): seq<Transaction> {
    if bs == [] then []
    else
      var init, b := bs[..|bs| - 1], bs[|bs| - 1];
      AcceptedTxs(c, ch, init)
      + match Run(c, ch, init)
        case None => []
        case Some(mid) => if AddBlock(c, mid, b).Added? then FillAll(c, b.transactions) else []
  }

  /** The state of a chain is that of executing everything accepted; its blocks hold the survivors. */
  ghost predicate Reflects(c: Suite, ch: Chain, txs: seq<Transaction>) {
    var r := ExecTxs(c, InitialWorld(c), txs);
    r.Executed? && r.w == ch.world && r.kept == Flatten(ch.blocks)
  }

  lemma AddBlockReflects(c: Suite, ch: Chain, b: Block, txs: seq<Transaction>)
    requires ChainOk(c, ch) && Reflects(c, ch, txs) && AddBlock(c, ch, b).Added?
    ensures Reflects(c, AddBlock(c, ch, b).ch, txs + FillAll(c, b.transactions))
  {
    AcceptIff(c, ch, b);
    ExecConcat(c, InitialWorld(c), txs, FillAll(c, b.transactions));
    var b' := AddBlock(c, ch, b).b;
    assert (ch.blocks + [b'])[..|ch.blocks|] == ch.blocks;
  }

  lemma NewBlockchainReflects(c: Suite, genesis: Block)
    requires NewBlockchain(c, genesis).Added?
    ensures Reflects(c, NewBlockchain(c, genesis).ch, genesis.transactions)
  {
    var r := ExecTxs(c, InitialWorld(c), genesis.transactions);
    var bs := NewBlockchain(c, genesis).ch.blocks;
    assert bs[..|bs| - 1] == [];
    assert [] + r.kept == r.kept;
  }

  lemma {:induction false} RunReflects(c: Suite, ch: Chain, bs: seq<Block>, txs: seq<Transaction>)
    requires ChainOk(c, ch) && Reflects(c, ch, txs) && Run(c, ch, bs).Some?
    ensures Reflects(c, Run(c, ch, bs).value, txs + AcceptedTxs(c, ch, bs))
    decreases |bs|
  {
    hide AddBlock, ChainOk, Reflects, FillAll;
    if bs == [] {
      assert txs + [] == txs;
    } else {
      var init, b := bs[..|bs| - 1], bs[|bs| - 1];
      RunKeepsOk(c, ch, init);
      RunReflects(c, ch, init, txs);
      var mid := Run(c, ch, init).value;
      if AddBlock(c, mid, b).Added? {
        AddBlockReflects(c, mid, b, txs + AcceptedTxs(c, ch, init));
        assert txs + AcceptedTxs(c, ch, init) + FillAll(c, b.transactions) == txs + AcceptedTxs(c, ch, bs);
      } else {
        assert AcceptedTxs(c, ch, bs) == AcceptedTxs(c, ch, init);
      }
    }
  }

  // ---------- Theorems about every chain grown from a genesis block ----------

  /** `ch` is reached from `genesis` by submitting `bs`, having executed `txs`. */
  ghost predicate Grown(c: Suite, genesis: Block, bs: seq<Block>, txs: seq<Transaction>, ch: Chain) {
    var start := NewBlockchain(c, genesis);
    && start.Added? && Run(c, start.ch, bs) == Some(ch)
    && txs == genesis.transactions + AcceptedTxs(c, start.ch, bs)
  }

  lemma GrownOk(c: Suite, genesis: Block, bs: seq<Block>, txs: seq<Transaction>, ch: Chain)
    requires Grown(c, genesis, bs, txs, ch)
    ensures ChainOk(c, ch) && Reflects(c, ch, txs)
    ensures ch.headers[0] == genesis.header
  {
    hide AddWithoutValidation, ChainOk, Reflects;
    NewBlockchainOk(c, genesis);
    NewBlockchainReflects(c, genesis);
    RunKeepsOk(c, NewBlockchain(c, genesis).ch, bs);
    RunReflects(c, NewBlockchain(c, genesis).ch, bs, genesis.transactions);
  }

  lemma GenesisIsHonest(c: Suite, genesis: Block)
    requires HonestCache(c, genesis) && NewBlockchain(c, genesis).Added?
    ensures HonestCaches(c, NewBlockchain(c, genesis).ch.blocks)
  {
  }

  /** Every block ever added is found in memory by its header's hash, genesis included. */
  lemma ChainLookup(c: Suite, genesis: Block, bs: seq<Block>, txs: seq<Transaction>, ch: Chain, i: nat)
    requires Grown(c, genesis, bs, txs, ch) && genesis.header.height == 0 && i < |ch.headers|
    requires HonestCache(c, genesis) && forall j :: 0 <= j < |bs| ==> HonestCache(c, bs[j])
    requires CollisionFree(c) && InjectiveHeaders(c)
    ensures |ch.blocks| == |ch.headers| && ch.blocks[i].header == ch.headers[i]
    ensures c.HeaderHash(ch.headers[i]) in ch.blockStore
    ensures ch.blockStore[c.HeaderHash(ch.headers[i])] == ch.blocks[i]
  {
    hide AddWithoutValidation, Reflects, HonestCaches, HonestCache, Linked, StoredBlock, IndexBlocks, Flatten;
    GrownOk(c, genesis, bs, txs, ch);
    var start := NewBlockchain(c, genesis).ch;
    GenesisIsHonest(c, genesis);
    RunKeepsHonest(c, start, bs);
    LookupFindsEveryBlock(c, ch, i);
  }

  /** Re-executing the stored blocks drops nothing and gives the same balances, records and collections. */
  lemma ChainReplays(c: Suite, genesis: Block, bs: seq<Block>, txs: seq<Transaction>, ch: Chain)
    requires Grown(c, genesis, bs, txs, ch) && NoPaidCollection(txs)
    ensures var again := ExecTxs(c, InitialWorld(c), Flatten(ch.blocks));
            again.Executed? && again.dropped == [] && CoreOf(again.w) == CoreOf(ch.world)
  {
    GrownOk(c, genesis, bs, txs, ch);
    NoPaidCollectionIsClean(c, InitialWorld(c), txs);
    CleanDropsReplay(c, InitialWorld(c), InitialWorld(c), txs);
  }

  /** Student records are the outcome of the life cycles stored on the chain; every mint is backed. */
  lemma ChainRecords(c: Suite, genesis: Block, bs: seq<Block>, txs: seq<Transaction>, ch: Chain, id: string)
    requires Grown(c, genesis, bs, txs, ch)
    ensures Lifecycle(Absent, History(Flatten(ch.blocks), id))
    ensures RecordOf(ch.world, id) == Outcome(Absent, History(Flatten(ch.blocks), id))
    ensures MintsBacked(ch.world)
  {
    GrownOk(c, genesis, bs, txs, ch);
    RecordHistories(c, InitialWorld(c), txs, id);
    ExecKeepsMintsBacked(c, InitialWorld(c), txs);
  }

  /** The world every node starts from, whatever nonce and key its genesis block drew. */
  function GenesisWorld(c: Suite): World {
    HandleTx(c, InitialWorld(c), GenesisTx(0)).w
  }

  lemma GenesisIsDeterministic(c: Suite, nonce: int, validator: PublicKey, sig: Signature)
    ensures var start := NewBlockchain(c, GenesisBlock(nonce, validator, sig));
            && start.Added? && start.ch.world == GenesisWorld(c)
            && start.ch.headers == [GENESIS_HEADER]
            && ExecTxs(c, InitialWorld(c), [GenesisTx(nonce)]).w == GenesisWorld(c)
  {
    var w, tx := InitialWorld(c), GenesisTx(nonce);
    assert [] + [tx] == [tx];
    ExecSnoc(c, w, [], tx);
    assert HandleTx(c, w, tx) == HandleTx(c, w, GenesisTx(0));
    HandleTxPanicsIff(c, w, tx);
  }

  lemma GenesisSupply(c: Suite)
    requires c.address(COINBASE) == COINBASE_ADDRESS
    ensures GenesisWorld(c).accounts == map[COINBASE_ADDRESS := Account(COINBASE_ADDRESS, GENESIS_SUPPLY)]
    ensures Keyed(GenesisWorld(c).accounts) && Total(GenesisWorld(c).accounts) == GENESIS_SUPPLY
  {
    var w := InitialWorld(c);
    HandleTxAccounts(c, w, GenesisTx(0));
    assert Transferred(w.accounts, COINBASE_ADDRESS, COINBASE_ADDRESS, GENESIS_SUPPLY).Moved?;
    assert HandleTx(c, w, GenesisTx(0)).Applied?;
    TotalWithout(GenesisWorld(c).accounts, COINBASE_ADDRESS);
    assert GenesisWorld(c).accounts - {COINBASE_ADDRESS} == map[];
  }

  lemma OverdraftAfterGenesis(c: Suite, tx: Transaction)
    requires c.address(COINBASE) == COINBASE_ADDRESS
    requires tx.payload.inner.NoInner? && tx.payload.data == [] && tx.payload.from == COINBASE
    requires c.address(tx.payload.to) != COINBASE_ADDRESS && tx.payload.value > GENESIS_SUPPLY
    ensures var r := HandleTx(c, GenesisWorld(c), tx);
            r.Applied? && Total(r.w.accounts) == GENESIS_SUPPLY + TWO_64
  {
    GenesisSupply(c);
    var a := GenesisWorld(c).accounts;
    HandleTxAccounts(c, GenesisWorld(c), tx);
    TransferSupply(a, COINBASE_ADDRESS, c.address(tx.payload.to), tx.payload.value);
    assert HandleTransfer(c, GenesisWorld(c), tx.payload).Applied?;
  }

  /**
   Only an unvalidated genesis can carry a payment of the coinbase. If it carries one above the
   coinbase's balance, the chain starts with 2^64 more than was issued.
   */
  lemma OverdraftAddsToSupply(c: Suite, nonce: int, tx: Transaction, validator: PublicKey, sig: Signature)
    requires c.address(COINBASE) == COINBASE_ADDRESS
    requires tx.payload.inner.NoInner? && tx.payload.data == [] && tx.payload.from == COINBASE
    requires c.address(tx.payload.to) != COINBASE_ADDRESS && tx.payload.value > GENESIS_SUPPLY
    ensures var genesis := GenesisBlock(nonce, validator, sig).(transactions := [GenesisTx(nonce), tx]);
            var start := NewBlockchain(c, genesis);
            start.Added? && Total(start.ch.world.accounts) == GENESIS_SUPPLY + TWO_64
  {
    hide HandleTx, GenesisWorld;
    GenesisIsDeterministic(c, nonce, validator, sig);
    OverdraftAfterGenesis(c, tx);
    ExecSnoc(c, InitialWorld(c), [GenesisTx(nonce)], tx);
    assert [GenesisTx(nonce)] + [tx] == [GenesisTx(nonce), tx];
  }

  /**
   The supply of every chain grown from the node's own genesis: ten million plus what the coinbase
   minted plus multiples of 2^64; exactly ten million while the coinbase is solvent; and with no
   further coinbase sender not one balance ever moves.
   */
  lemma ChainSupply(c: Suite, nonce: int, validator: PublicKey, sig: Signature,
                    bs: seq<Block>, after: seq<Transaction>, ch: Chain)
    requires c.address(COINBASE) == COINBASE_ADDRESS
    requires Grown(c, GenesisBlock(nonce, validator, sig), bs, [GenesisTx(nonce)] + after, ch)
    ensures ExecTxs(c, GenesisWorld(c), after).Executed?
    ensures Total(ch.world.accounts)
         == GENESIS_SUPPLY + MintedBy(c, GenesisWorld(c), after) + CarryBy(c, GenesisWorld(c), after) * TWO_64
    ensures Solvent(c, GenesisWorld(c), after) ==> Total(ch.world.accounts) == GENESIS_SUPPLY
    ensures NoCoinbaseSender(c, after) ==>
      Total(ch.world.accounts) == GENESIS_SUPPLY && ch.world.accounts == GenesisWorld(c).accounts
  {
    var w0, w, g := InitialWorld(c), GenesisWorld(c), [GenesisTx(nonce)];
    GrownOk(c, GenesisBlock(nonce, validator, sig), bs, g + after, ch);
    GenesisIsDeterministic(c, nonce, validator, sig);
    GenesisSupply(c);
    ExecutesIff(c, w0, g + after);
    assert g == (g + after)[..1] && after == (g + after)[1..];
    ExecutesIff(c, w0, g);
    ExecutesIff(c, w, after);
    ExecConcat(c, w0, g, after);
    SupplyAccounting(c, w, after);
    if NoCoinbaseSender(c, after) {
      NoCoinbaseSenderIsSolvent(c, w, after);
      FrozenWithoutCoinbase(c, w, after);
    }
    if Solvent(c, w, after) {
      SupplyExact(c, w, after);
    }
  }

  // ---------- What signatures say about the supply ----------

  /** Nothing verifies under the empty key, and no other key has the coinbase's address. */
  ghost predicate NoCoinbaseKey(c: Suite) {
    && c.address(COINBASE) == COINBASE_ADDRESS
    && (forall k :: c.address(k) == COINBASE_ADDRESS ==> k == COINBASE)
    && (forall m, s :: !c.verify(COINBASE, m, s))
  }

  /** Whatever enters execution after genesis has verified. */
  lemma {:induction false} AcceptedVerify(c: Suite, ch: Chain, bs: seq<Block>)
    requires ChainOk(c, ch) && Run(c, ch, bs).Some?
    ensures AllVerify(c, AcceptedTxs(c, ch, bs))
  {
    hide ChainOk, AddBlock, FillAll;
    if bs != [] {
      var init, b := bs[..|bs| - 1], bs[|bs| - 1];
      AcceptedVerify(c, ch, init);
      RunKeepsOk(c, ch, init);
      var mid := Run(c, ch, init).value;
      if AddBlock(c, mid, b).Added? {
        AddedVerifies(c, mid, b);
      }
    }
  }

  lemma AddedVerifies(c: Suite, ch: Chain, b: Block)
    requires ChainOk(c, ch) && AddBlock(c, ch, b).Added?
    ensures AllVerify(c, FillAll(c, b.transactions))
  {
    AcceptIff(c, ch, b);
    var fs := FillAll(c, b.transactions);
    forall i | 0 <= i < |fs| ensures VerifyTx(c, fs[i]) {
      assert VerifyTx(c, b.transactions[i]);
    }
  }

  /**
   On every chain grown from the node's own genesis, whatever is submitted: if nobody can sign for
   the empty key, not one balance ever moves, so the coinbase keeps the ten million for good.
   */
  lemma BalancesAreFrozen(c: Suite, nonce: int, validator: PublicKey, sig: Signature,
                          bs: seq<Block>, txs: seq<Transaction>, ch: Chain)
    requires NoCoinbaseKey(c) && Grown(c, GenesisBlock(nonce, validator, sig), bs, txs, ch)
    ensures ch.world.accounts == map[COINBASE_ADDRESS := Account(COINBASE_ADDRESS, GENESIS_SUPPLY)]
    ensures Total(ch.world.accounts) == GENESIS_SUPPLY
  {
    hide ChainOk, AddWithoutValidation, GenesisWorld;
    var g := GenesisBlock(nonce, validator, sig);
    var start := NewBlockchain(c, g).ch;
    var after := AcceptedTxs(c, start, bs);
    NewBlockchainOk(c, g);
    AcceptedVerify(c, start, bs);
    forall i | 0 <= i < |after| ensures c.address(after[i].payload.from) != COINBASE_ADDRESS {
      assert VerifyTx(c, after[i]);
    }
    ChainSupply(c, nonce, validator, sig, bs, after, ch);
    GenesisSupply(c);
  }
}
