/** Inputs, reachable from genesis, at which the promises that do not always hold fail. */
module Witnesses {
  import opened Basics
  import opened Entities
  import opened Ledger
  import opened Execution
  import opened Chains
  import opened Nodes
  import opened Network
  import opened Progress
  import opened LateArrivals
  import A = Accounts
  import C = Convergence
  import M = Mempool

  /** The key can sign anything, its signatures verify, and it is not the coinbase's. */
  ghost predicate Usable(c: Suite, k: PrivateKey) {
    && SignaturesVerify(c) && (forall m :: c.sign(k, 0, m).Some?)
    && c.address(COINBASE) == COINBASE_ADDRESS && c.address(c.publicKey(k)) != COINBASE_ADDRESS
  }

  // ---------- A paid collection breaks replay ----------

  function Signed(c: Suite, k: PrivateKey, inner: Inner, value: uint64): Transaction {
    var tx := Transaction(Payload(inner, [], COINBASE, value, c.publicKey(k), 0), None, 0);
    match SignTx(c, tx, k, 0)
    case None => tx
    case Some(s) => s
  }

  lemma SignedIsGood(c: Suite, k: PrivateKey, inner: Inner, value: uint64)
    requires Usable(c, k)
    ensures var tx := Signed(c, k, inner, value);
            && VerifyTx(c, tx) && Filled(c, tx) && CodeRuns(tx) && tx.signature.Some?
            && tx.payload == Payload(inner, [], COINBASE, value, c.publicKey(k), 0)
  {
    var tx := Transaction(Payload(inner, [], COINBASE, value, c.publicKey(k), 0), None, 0);
    assert c.sign(k, 0, c.hashBytes(TxId(c, tx))).Some?;
    SignedTxVerifies(c, tx, k, 0);
  }

  /** A collection that pays one unit its sender does not have. */
  function PaidCollection(c: Suite, k: PrivateKey): Transaction {
    Signed(c, k, Collection(0, []), 1)
  }

  function ItsMint(c: Suite, k: PrivateKey): Transaction {
    Signed(c, k, Mint(0, 0, PaidCollection(c, k).cached, [], [], Signature(0, 0)), 0)
  }

  /** The first block after genesis, holding the two. */
  function PaidBlock(c: Suite, k: PrivateKey): Block {
    var b := NextBlock(c, GENESIS_HEADER, [PaidCollection(c, k), ItsMint(c, k)], 0);
    match SignBlock(c, b, k, 0)
    case None => b
    case Some(s) => s
  }

  lemma GenesisHasNoCollections(c: Suite)
    ensures GenesisWorld(c).collections == map[] && GenesisWorld(c).mints == map[]
  {
    NativeEffect(c, InitialWorld(c), GenesisTx(0));
  }

  /** The collection is recorded and then dropped; its mint is kept because the record is there. */
  lemma PaidCollectionIsDropped(c: Suite, k: PrivateKey)
    requires Usable(c, k)
    ensures ExecTxs(c, GenesisWorld(c), [PaidCollection(c, k), ItsMint(c, k)]).Executed?
    ensures ExecTxs(c, GenesisWorld(c), [PaidCollection(c, k), ItsMint(c, k)]).kept == [ItsMint(c, k)]
    ensures HandleTx(c, GenesisWorld(c), ItsMint(c, k)).Failed?
  {
    var w, coll, mint := GenesisWorld(c), PaidCollection(c, k), ItsMint(c, k);
    SignedIsGood(c, k, Collection(0, []), 1);
    SignedIsGood(c, k, Mint(0, 0, coll.cached, [], [], Signature(0, 0)), 0);
    GenesisSupply(c);
    GenesisHasNoCollections(c);
    PaidFails(c, w, coll);
    assert HandleTx(c, w, coll).Failed?;
    DroppedEffect(c, w, coll);
    var w' := HandleTx(c, w, coll).w;
    assert coll.cached in w'.collections;
    ExecSnoc(c, w, [], coll);
    ExecSnoc(c, w, [coll], mint);
    assert [] + [coll] == [coll] && [coll] + [mint] == [coll, mint];
    MintFollows(c, w, mint);
    MintFollows(c, w', mint);
    assert [] + [mint] == [mint];
  }

  lemma PaidFails(c: Suite, w: World, tx: Transaction)
    requires tx.payload.inner.Collection? && tx.payload.data == [] && tx.payload.value > 0
    requires c.address(tx.payload.from) !in w.accounts
    ensures HandleTx(c, w, tx).Failed?
  {
  }

  lemma MintFollows(c: Suite, w: World, tx: Transaction)
    requires tx.payload.inner.Mint? && tx.payload.data == [] && tx.payload.value == 0
    ensures HandleTx(c, w, tx).Applied? <==> tx.payload.inner.collection in w.collections
    ensures HandleTx(c, w, tx).Failed? <==> tx.payload.inner.collection !in w.collections
  {
  }

  /**
   For every usable key, from every genesis: the block is accepted and stored with the mint alone,
   and re-executing the stored chain drops that mint.
   */
  lemma PaidCollectionBreaksReplay(c: Suite, k: PrivateKey, nonce: int, validator: PublicKey, sig: Signature)
    requires Usable(c, k)
    ensures var g, coll, mint := GenesisBlock(nonce, validator, sig), PaidCollection(c, k), ItsMint(c, k);
            var start := NewBlockchain(c, g);
            && start.Added? && AddBlock(c, start.ch, PaidBlock(c, k)).Added?
            && var ch := AddBlock(c, start.ch, PaidBlock(c, k)).ch;
            && Grown(c, g, [PaidBlock(c, k)], [GenesisTx(nonce), coll, mint], ch)
            && var again := ExecTxs(c, InitialWorld(c), Flatten(ch.blocks));
            again.Executed? && again.dropped == [mint]
  {
    hide HandleTx, AddWithoutValidation, ChainOk, Signed, GenesisWorld;
    var g, b := GenesisBlock(nonce, validator, sig), PaidBlock(c, k);
    var start := NewBlockchain(c, g).ch;
    GenesisIsDeterministic(c, nonce, validator, sig);
    NewBlockchainOk(c, g);
    PaidBlockIsReady(c, k, start);
    ReadyIsAccepted(c, start, b);
    PaidCollectionIsDropped(c, k);
    StoredMint(c, k, start, nonce, validator, sig);
    GenesisKept(c, nonce);
    MintDroppedOnReplay(c, k, nonce);
    GrowsByOne(c, g, start, b);
    assert g.transactions + b.transactions == [GenesisTx(nonce), PaidCollection(c, k), ItsMint(c, k)];
  }

  lemma PaidBlockIsReady(c: Suite, k: PrivateKey, ch: Chain)
    requires Usable(c, k) && ch.headers == [GENESIS_HEADER]
    ensures Ready(c, ch, PaidBlock(c, k))
    ensures PaidBlock(c, k).transactions == [PaidCollection(c, k), ItsMint(c, k)]
  {
    var coll := PaidCollection(c, k);
    SignedIsGood(c, k, Collection(0, []), 1);
    SignedIsGood(c, k, Mint(0, 0, coll.cached, [], [], Signature(0, 0)), 0);
    var txs := [coll, ItsMint(c, k)];
    FillAllIdempotent(c, txs);
    var msg := c.headerBytes(NextBlock(c, GENESIS_HEADER, txs, 0).header);
    assert c.sign(k, 0, msg).Some?;
    assert c.verify(c.publicKey(k), msg, c.sign(k, 0, msg).value);
  }

  /** The stored chain: what genesis kept, and then the mint alone. */
  lemma StoredMint(c: Suite, k: PrivateKey, ch: Chain, nonce: int, validator: PublicKey, sig: Signature)
    requires Usable(c, k) && NewBlockchain(c, GenesisBlock(nonce, validator, sig)).Added?
    requires ch == NewBlockchain(c, GenesisBlock(nonce, validator, sig)).ch
    ensures var r := AddWithoutValidation(c, ch, PaidBlock(c, k));
            && r.Added?
            && Flatten(r.ch.blocks) == ExecTxs(c, InitialWorld(c), [GenesisTx(nonce)]).kept + [ItsMint(c, k)]
  {
    hide HandleTx, ExecTxs, GenesisWorld, GenesisBlock, PaidBlock, PaidCollection, ItsMint, Flatten, Usable,
         AddWithoutValidation, NewBlockchain;
    GenesisIsDeterministic(c, nonce, validator, sig);
    GenesisBlocks(c, nonce, validator, sig);
    PaidCollectionIsDropped(c, k);
    PaidBlockIsReady(c, k, ch);
    StoredOnTop(c, ch, PaidBlock(c, k));
    FlattenTwo(ch.blocks[0], AddWithoutValidation(c, ch, PaidBlock(c, k)).b);
  }

  lemma GenesisBlocks(c: Suite, nonce: int, validator: PublicKey, sig: Signature)
    requires NewBlockchain(c, GenesisBlock(nonce, validator, sig)).Added?
    ensures ExecTxs(c, InitialWorld(c), [GenesisTx(nonce)]).Executed?
    ensures var ch := NewBlockchain(c, GenesisBlock(nonce, validator, sig)).ch;
            |ch.blocks| == 1 && ch.blocks[0].transactions == ExecTxs(c, InitialWorld(c), [GenesisTx(nonce)]).kept
  {
    hide ExecTxs;
  }

  lemma StoredOnTop(c: Suite, ch: Chain, b: Block)
    requires |ch.blocks| == 1 && ExecTxs(c, ch.world, b.transactions).Executed?
    ensures var r := AddWithoutValidation(c, ch, b);
            && r.Added? && r.ch.blocks == [ch.blocks[0], r.b]
            && r.b.transactions == ExecTxs(c, ch.world, b.transactions).kept
  {
    hide ExecTxs;
  }

  /** Executed again, the mint is dropped: no collection is there. */
  lemma MintDroppedOnReplay(c: Suite, k: PrivateKey, nonce: int)
    requires Usable(c, k) && ExecTxs(c, InitialWorld(c), [GenesisTx(nonce)]).Executed?
    ensures var kept := ExecTxs(c, InitialWorld(c), [GenesisTx(nonce)]).kept;
            var again := ExecTxs(c, InitialWorld(c), kept + [ItsMint(c, k)]);
            again.Executed? && again.dropped == [ItsMint(c, k)]
  {
    hide HandleTx, ExecTxs, GenesisWorld, ItsMint;
    var w, mint := InitialWorld(c), ItsMint(c, k);
    GenesisKept(c, nonce);
    ExecSnoc(c, w, ExecTxs(c, w, [GenesisTx(nonce)]).kept, mint);
    PaidCollectionIsDropped(c, k);
    MintIsFilled(c, k);
    assert [] + [mint] == [mint];
  }

  lemma FlattenTwo(x: Block, y: Block)
    ensures Flatten([x, y]) == x.transactions + y.transactions
  {
    assert [x, y][..1] == [x] && [x][..0] == [];
    assert Flatten([x]) == [] + x.transactions == x.transactions;
  }

  lemma MintIsFilled(c: Suite, k: PrivateKey)
    requires Usable(c, k)
    ensures Fill(c, ItsMint(c, k)) == ItsMint(c, k)
  {
    SignedIsGood(c, k, Mint(0, 0, PaidCollection(c, k).cached, [], [], Signature(0, 0)), 0);
  }

  /** What genesis stores executes to the genesis world again. */
  lemma GenesisKept(c: Suite, nonce: int)
    ensures var r := ExecTxs(c, InitialWorld(c), [GenesisTx(nonce)]);
            r.Executed? && forall tx :: tx in r.kept ==> tx.signature.None?
    ensures c.address(COINBASE) == COINBASE_ADDRESS ==>
      var again := ExecTxs(c, InitialWorld(c), ExecTxs(c, InitialWorld(c), [GenesisTx(nonce)]).kept);
      again.Executed? && again.dropped == [] && again.w == GenesisWorld(c)
  {
    var w, tx := InitialWorld(c), GenesisTx(nonce);
    assert [] + [tx] == [tx];
    ExecSnoc(c, w, [], tx);
    HandleTxPanicsIff(c, w, tx);
    assert HandleTx(c, w, tx) == HandleTx(c, w, GenesisTx(0));
    HandleTxOfFilled(c, w, tx);
    ExecSnoc(c, w, [], Fill(c, tx));
    assert [] + [Fill(c, tx)] == [Fill(c, tx)];
    if c.address(COINBASE) == COINBASE_ADDRESS {
      assert A.Transferred(w.accounts, COINBASE_ADDRESS, COINBASE_ADDRESS, GENESIS_SUPPLY).Moved?;
      assert HandleTransfer(c, w, tx.payload).Applied?;
      assert HandleTx(c, w, tx).Applied?;
    }
  }

  lemma GrowsByOne(c: Suite, g: Block, start: Chain, b: Block)
    requires NewBlockchain(c, g).Added? && start == NewBlockchain(c, g).ch && AddBlock(c, start, b).Added?
    requires AllFilled(c, b.transactions)
    ensures Grown(c, g, [b], g.transactions + b.transactions, AddBlock(c, start, b).ch)
  {
    hide AddBlock, AddWithoutValidation;
    var bs := [b];
    assert bs[..|bs| - 1] == [] && bs[|bs| - 1] == b;
    FillAllIdempotent(c, b.transactions);
    assert Run(c, start, []) == Some(start) && AcceptedTxs(c, start, []) == [];
    assert Run(c, start, bs) == Some(AddBlock(c, start, b).ch);
    assert AcceptedTxs(c, start, bs) == [] + b.transactions == b.transactions;
  }

  // ---------- A late arrival is lost, a failing transaction stops replication ----------

  /** The network as it starts: nobody has anything pending, and the producer's chain is genesis. */
  lemma StartOf(u: Setup, s: Net)
    requires Init(u, s)
    ensures Inv(u, s) && Reachable(u, s) && u.producer in s.peers
    ensures var peer := Producer(u, s);
            && peer.node.pool == M.Pool([], [], 1000) && peer.proposal.None?
            && peer.node.chain.headers == [GENESIS_HEADER] && |peer.node.chain.blocks| == 1
            && peer.node.chain.world == GenesisWorld(u.c)
            && forall tx :: tx in peer.node.chain.blocks[0].transactions ==> tx.signature.None?
  {
    hide GenesisWorld, NodeOk;
    InitInv(u, s);
    assert RunNet(u, s, []) == Some(s);
    var peer := Producer(u, s);
    assert Fresh(u.c, peer);
    var nonce, validator, sig :| peer.node == Node(
      NewBlockchain(u.c, GenesisBlock(nonce, validator, sig)).ch, M.Pool([], [], 1000));
    FreshNodeOk(u.c, nonce, validator, sig);
    GenesisKept(u.c, nonce);
  }

  lemma FirstSubmit(c: Suite, n: Node, tx: Transaction)
    requires n.pool == M.Pool([], [], 1000) && VerifyTx(c, tx)
    ensures Submit(c, n, tx) == Some(n.(pool := M.Pool([Fill(c, tx)], [Fill(c, tx)], 1000)))
  {
    assert [] + [Fill(c, tx)] == [Fill(c, tx)];
  }

  /**
   For every start of the network and every transaction that verifies: submitted to the producer
   between its proposal and its publication, it ends in no block of the chain, is not pending, and
   is ignored when submitted again.
   */
  lemma LateArrivalIsLost(u: Setup, s: Net, tx: Transaction, now: int, r: nat) returns (s': Net)
    requires Init(u, s) && SignaturesVerify(u.c) && VerifyTx(u.c, tx)
    requires forall m :: u.c.sign(u.key, r, m).Some?
    ensures RunNet(u, s, [Propose(now, r), SubmitTx(u.producer, tx), Publish]) == Some(s') && Reachable(u, s')
    ensures u.producer in s'.peers
    ensures var n, f := Producer(u, s').node, Fill(u.c, tx);
            && n.pool.pending == [] && Submit(u.c, n, f) == Some(n)
            && |n.chain.blocks| == 2 && forall i :: 0 <= i < 2 ==> f !in n.chain.blocks[i].transactions
  {
    hide Inv, NodeOk, Init, Ready, PeerOk, Submit, ProposeNext, Candidate, RunNet, GenesisWorld;
    StartOf(u, s);
    var peer := Producer(u, s);
    OwnPeerOk(u, s);
    CandidateExists(u, peer.node, now, r);
    ProposalIs(u, peer, now, r, Tip(u, s).headers);
    var s1 := Next(u, s, Propose(now, r)).value;
    ProposeIsJustProposed(u, s, now, r, s1);
    FirstSubmit(u.c, peer.node, tx);
    var s2 := Next(u, s1, SubmitTx(u.producer, tx)).value;
    EmptyBlockAdded(u.c, peer.node.chain, Producer(u, s1).proposal.value);
    s' := Next(u, s2, Publish).value;
    OneStep(u, s1, SubmitTx(u.producer, tx), s2);
    LateArrivalsAreLost(u, s1, [SubmitTx(u.producer, tx)], s2, s');
    ThreeSteps(u, s, Propose(now, r), s1, SubmitTx(u.producer, tx), s2, Publish, s');
    ReachableByRun(u, s, [Propose(now, r), SubmitTx(u.producer, tx), Publish], s');
    var n, f := Producer(u, s').node, Fill(u.c, tx);
    assert n.pool.all[0] == f && M.Has(n.pool.all, f.cached);
    assert f in Producer(u, s2).node.pool.pending;
  }

  lemma OwnPeerOk(u: Setup, s: Net)
    requires Inv(u, s)
    ensures u.producer in s.peers && PeerOk(u, u.producer, s.peers[u.producer], Tip(u, s).headers)
  {
  }

  lemma CandidateExists(u: Setup, n: Node, now: int, r: nat)
    requires n.chain.headers != [] && forall m :: u.c.sign(u.key, r, m).Some?
    ensures Candidate(u.c, n, u.key, now, r).Some?
  {
  }

  lemma EmptyBlockAdded(c: Suite, ch: Chain, b: Block)
    requires b.transactions == []
    ensures AddWithoutValidation(c, ch, b).Added?
  {
  }

  lemma ThreeSteps(u: Setup, s: Net, x: Step, s1: Net, y: Step, s2: Net, z: Step, s3: Net)
    requires Next(u, s, x) == Some(s1) && Next(u, s1, y) == Some(s2) && Next(u, s2, z) == Some(s3)
    ensures RunNet(u, s, [x, y, z]) == Some(s3)
  {
    hide Next;
    OneStep(u, s, x, s1);
    RunSnoc(u, s, [x], s1, y, s2);
    RunSnoc(u, s, [x] + [y], s2, z, s3);
    assert [x] + [y] + [z] == [x, y, z];
  }

  lemma ReachableByRun(u: Setup, s: Net, steps: seq<Step>, s': Net)
    requires Init(u, s) && RunNet(u, s, steps) == Some(s')
    ensures Reachable(u, s')
  {
  }

  /**
   For every start of the network and every transaction that verifies but fails at genesis: once the
   producer has put it into its first block, no follower ever gets beyond genesis.
   */
  lemma FirstDropStopsEveryone(u: Setup, s: Net, tx: Transaction, now: int, r: nat) returns (s': Net)
    requires C.Ideal(u.c) && Init(u, s) && SignaturesVerify(u.c) && VerifyTx(u.c, tx)
    requires HandleTx(u.c, GenesisWorld(u.c), tx).Failed?
    requires forall m :: u.c.sign(u.key, r, m).Some?
    ensures RunNet(u, s, [SubmitTx(u.producer, tx), Propose(now, r), Publish]) == Some(s') && Reachable(u, s')
    ensures forall steps, id |
      RunNet(u, s', steps).Some? && id in RunNet(u, s', steps).value.peers && id != u.producer ::
      |RunNet(u, s', steps).value.peers[id].node.chain.headers| <= 1
  {
    hide Inv, NodeOk, Init, Ready, PeerOk, Submit, ProposeNext, Candidate, RunNet, GenesisWorld, HandleTx, Reachable,
         C.Ideal, ExecTxs, AddWithoutValidation;
    StartOf(u, s);
    var peer, f := Producer(u, s), Fill(u.c, tx);
    FirstSubmit(u.c, peer.node, tx);
    var s1 := Next(u, s, SubmitTx(u.producer, tx)).value;
    NextKeepsInv(u, s, SubmitTx(u.producer, tx));
    OwnPeerOk(u, s1);
    var waiting := Producer(u, s1);
    CandidateExists(u, waiting.node, now, r);
    ProposalIs(u, waiting, now, r, Tip(u, s1).headers);
    var s2 := Next(u, s1, Propose(now, r)).value;
    var b := Producer(u, s2).proposal.value;
    DroppedAlone(u.c, peer.node.chain, b, tx);
    s' := Next(u, s2, Publish).value;
    ThreeSteps(u, s, SubmitTx(u.producer, tx), s1, Propose(now, r), s2, Publish, s');
    ReachableByRun(u, s, [SubmitTx(u.producer, tx), Propose(now, r), Publish], s');
    InitHistory(u, s);
    forall steps, id | RunNet(u, s', steps).Some? && id in RunNet(u, s', steps).value.peers && id != u.producer
      ensures |RunNet(u, s', steps).value.peers[id].node.chain.headers| <= 1
    {
      C.DropStopsReplication(u, s', steps, id, 1);
    }
  }

  lemma InitHistory(u: Setup, s: Net)
    requires Init(u, s)
    ensures |s.history| == 1
  {
  }

  lemma DroppedAlone(c: Suite, ch: Chain, b: Block, tx: Transaction)
    requires b.transactions == [Fill(c, tx)] && HandleTx(c, ch.world, tx).Failed? && |ch.blocks| == 1
    ensures var r := AddWithoutValidation(c, ch, b);
            && r.Added? && |r.ch.blocks| == 2 && r.ch.blocks[1].transactions == []
  {
    hide HandleTx;
    HandleTxOfFilled(c, ch.world, tx);
    ExecSnoc(c, ch.world, [], Fill(c, tx));
    assert [] + [Fill(c, tx)] == [Fill(c, tx)];
  }
}
