/**
 The replication protocol as a state machine: one node with a key produces blocks, any number of
 followers relay them. A message once sent may be delivered any number of times, in any order, or
 never. Adding a block is two separate steps, the check and the commit, so the producer's message
 loop and its block ticker interleave freely between them.
 */
module Network {
  import opened Basics
  import opened Entities
  import opened Ledger
  import opened Execution
  import opened Chains
  import opened Nodes
  import M = Mempool

  type NodeId = nat

  /** The message loop: idle, working a list of blocks off, or about to commit a checked block. */
  datatype Work = Idle | Draining(todo: seq<Block>) | Checked(b: Block, todo: seq<Block>)

  /** `proposal` is the block ticker's own block, checked and not yet committed. */
  datatype Peer = Peer(node: Node, work: Work, proposal: Option<Block>)

  /** A broadcast block is a list of one. */
  datatype Message = BlocksMsg(bs: seq<Block>) | StatusMsg(height: uint32) | GetBlocksMsg(q: Request)

  /** History of the producer: its world after each block, and the transactions that entered the block. */
  datatype Epoch = Epoch(world: World, offered: seq<Transaction>)

  datatype Net = Net(peers: map<NodeId, Peer>, sent: set<Message>, history: seq<Epoch>)

  datatype Step =
    | SubmitTx(id: NodeId, tx: Transaction)
    | TellStatus(id: NodeId)
    | HearStatus(id: NodeId, height: uint32)
    | AnswerBlocks(id: NodeId, q: Request)
    | Deliver(id: NodeId, bs: seq<Block>)
    | Check(id: NodeId)
    | Commit(id: NodeId)
    | Propose(now: int, r: nat)
    | Publish

  /** What is fixed: the library functions, the producer and its key. */
  datatype Setup = Setup(c: Suite, producer: NodeId, key: PrivateKey)

  // ---------- What each step does to the peer that takes it ----------

  function CheckNext(c: Suite, n: Node, todo: seq<Block>): Work {
    if todo == [] then Idle
    else
      var b := todo[0];
      if !VerifyBlock(c, b) then Draining(todo[1..])
      else
        var (v, b') := Validate(c, n.chain, VerifiedBlock(c, b.(cached := BlockId(c, b))));
        if v == Accept then Checked(b', todo[1..]) else Draining(todo[1..])
  }

  function ProposeNext(s: Setup, n: Node, now: int, r: nat): Option<Block> {
    if n.chain.headers == [] then None
    else
      match Candidate(s.c, n, s.key, now, r)
      case None => None
      case Some(b) =>
        var (v, b') := Validate(s.c, n.chain, b);
        if v == Accept then Some(b') else None
  }

  function Put(s: Net, id: NodeId, peer: Peer): Net {
    s.(peers := s.peers[id := peer])
  }

  function Say(s: Net, m: Message): Net {
    s.(sent := s.sent + {m})
  }

  /** The state after a step; `None` if it is not enabled or a virtual machine panics in it. */
  function Next(u: Setup, s: Net, step: Step): Option<Net> {
    match step
    case SubmitTx(id, tx) =>
      if id !in s.peers then None
      else (
        match Submit(u.c, s.peers[id].node, tx)
        case None => None
        case Some(n) => Some(Put(s, id, s.peers[id].(node := n))))
    case TellStatus(id) =>
      if id !in s.peers then None else Some(Say(s, StatusMsg(s.peers[id].node.chain.Height())))
    case HearStatus(id, height) =>
      if id !in s.peers || StatusMsg(height) !in s.sent then None
      else (
        match OnStatus(s.peers[id].node.chain, height)
        case None => Some(s)
        case Some(q) => Some(Say(s, GetBlocksMsg(q))))
    case AnswerBlocks(id, q) =>
      if id !in s.peers || GetBlocksMsg(q) !in s.sent then None
      else
        var ch := s.peers[id].node.chain;
        if !(|ch.blocks| == |ch.headers| >= 1) then None
        else (
          match Answer(ch, q)
          case None => None
          case Some(bs) => Some(Say(s, BlocksMsg(bs))))
    case Deliver(id, bs) =>
      if id !in s.peers || BlocksMsg(bs) !in s.sent || !s.peers[id].work.Idle? then None
      else Some(Put(s, id, s.peers[id].(work := Draining(bs))))
    case Check(id) =>
      if id !in s.peers || !s.peers[id].work.Draining? then None
      else Some(Put(s, id, s.peers[id].(work := CheckNext(u.c, s.peers[id].node, s.peers[id].work.todo))))
    case Commit(id) => if id !in s.peers then None else CommitNext(u.c, s, id)
    case Propose(now, r) =>
      if u.producer !in s.peers || s.peers[u.producer].proposal.Some? then None
      else
        var peer := s.peers[u.producer];
        Some(Put(s, u.producer, peer.(proposal := ProposeNext(u, peer.node, now, r))))
    case Publish => if u.producer !in s.peers then None else PublishNext(u, s)
  }

  function CommitNext(c: Suite, s: Net, id: NodeId): Option<Net>
    requires id in s.peers
  {
    var peer := s.peers[id];
    if !peer.work.Checked? then None
    else
      match AddWithoutValidation(c, peer.node.chain, peer.work.b)
      case Panicked(_) => None
      case Added(ch, b) =>
        var n := Node(ch, M.RemoveAll(peer.node.pool, b.transactions));
        Some(Say(Put(s, id, peer.(node := n, work := Draining(peer.work.todo))), BlocksMsg([Wire(b)])))
  }

  function PublishNext(u: Setup, s: Net): Option<Net>
    requires u.producer in s.peers
  {
    var peer := s.peers[u.producer];
    if peer.proposal.None? then None
    else
      match AddWithoutValidation(u.c, peer.node.chain, peer.proposal.value)
      case Panicked(_) => None
      case Added(ch, b) =>
        var n := Node(ch, M.ClearPending(peer.node.pool));
        var s' := Put(s, u.producer, peer.(node := n, proposal := None));
        Some(Say(s', BlocksMsg([Wire(b)])).(history := s.history + [Epoch(ch.world, peer.proposal.value.transactions)]))
  }

  function RunNet(u: Setup, s: Net, steps: seq<Step>): Option<Net> {
    if steps == [] then Some(s)
    else
      match RunNet(u, s, steps[..|steps| - 1])
      case None => None
      case Some(s') => Next(u, s', steps[|steps| - 1])
  }

  /** Every node starts alone, from a genesis block of its own. */
  ghost predicate Fresh(c: Suite, peer: Peer) {
    && peer.work.Idle? && peer.proposal.None?
    && exists nonce, validator, sig ::
         peer.node == Node(NewBlockchain(c, GenesisBlock(nonce, validator, sig)).ch, M.Pool([], [], 1000))
  }

  ghost predicate Init(u: Setup, s: Net) {
    && u.producer in s.peers && s.sent == {}
    && s.history == [Epoch(GenesisWorld(u.c), [])]
    && forall id :: id in s.peers ==> Fresh(u.c, s.peers[id])
  }

  // ---------- Agreement on headers ----------

  /** The block's header is the one the producer has at that height. */
  predicate Known(hs: seq<Header>, b: Block) {
    b.header.height < |hs| && hs[b.header.height] == b.header
  }

  ghost predicate AllKnown(hs: seq<Header>, bs: seq<Block>) {
    forall i :: 0 <= i < |bs| ==> Known(hs, bs[i])
  }

  /** The block passed the check against this very chain. */
  ghost predicate Ready(c: Suite, ch: Chain, b: Block) {
    && ch.headers != [] && b.header.height == |ch.headers|
    && b.header.prevHash == c.HeaderHash(ch.headers[|ch.headers| - 1])
    && VerifyBlock(c, b) && AllFilled(c, b.transactions)
  }

  function WorkBlocks(w: Work): seq<Block> {
    match w
    case Idle => []
    case Draining(todo) => todo
    case Checked(b, todo) => [b] + todo
  }

  function Tip(u: Setup, s: Net): Chain
    requires u.producer in s.peers
  {
    s.peers[u.producer].node.chain
  }

  ghost predicate PeerOk(u: Setup, id: NodeId, peer: Peer, hs: seq<Header>) {
    && NodeOk(u.c, peer.node)
    && peer.node.chain.headers <= hs
    && AllKnown(hs, WorkBlocks(peer.work))
    && (peer.work.Checked? ==> id != u.producer && Ready(u.c, peer.node.chain, peer.work.b))
    && (peer.proposal.Some? ==> id == u.producer && Ready(u.c, peer.node.chain, peer.proposal.value))
  }

  ghost predicate Inv(u: Setup, s: Net) {
    && u.producer in s.peers
    && (forall id :: id in s.peers ==> PeerOk(u, id, s.peers[id], Tip(u, s).headers))
    && (forall m :: m in s.sent && m.BlocksMsg? ==> AllKnown(Tip(u, s).headers, m.bs))
  }

  lemma KnownGrows(hs: seq<Header>, longer: seq<Header>, bs: seq<Block>)
    requires hs <= longer && AllKnown(hs, bs)
    ensures AllKnown(longer, bs)
  {
    forall i | 0 <= i < |bs| ensures Known(longer, bs[i]) {
      assert Known(hs, bs[i]);
    }
  }

  /** A chain's own blocks are known to every chain it is a prefix of. */
  lemma OwnBlocksKnown(c: Suite, n: Node, hs: seq<Header>)
    requires NodeOk(c, n) && n.chain.headers <= hs
    ensures AllKnown(hs, n.chain.blocks)
  {
    var bs := n.chain.blocks;
    forall i | 0 <= i < |bs| ensures Known(hs, bs[i]) {
      assert bs[i].header == n.chain.headers[i] == hs[i];
    }
  }

  lemma AnswerKnown(c: Suite, n: Node, hs: seq<Header>, q: Request)
    requires NodeOk(c, n) && n.chain.headers <= hs
    ensures |n.chain.blocks| == |n.chain.headers| >= 1
    ensures AllKnown(hs, OnGetBlocks(n.chain, q))
  {
    OwnBlocksKnown(c, n, hs);
    var bs := OnGetBlocks(n.chain, q);
    forall i | 0 <= i < |bs| ensures Known(hs, bs[i]) {
      assert Known(hs, n.chain.blocks[q.from + i]);
    }
  }

  lemma CheckedIsReady(c: Suite, ch: Chain, b: Block)
    requires ChainOk(c, ch) && VerifyBlock(c, b)
    ensures var (v, b') := Validate(c, ch, VerifiedBlock(c, b.(cached := BlockId(c, b))));
            v == Accept ==> Ready(c, ch, b') && b'.header == b.header
  {
    hide StoredBlock, Agree;
    VerifyAgain(c, b);
    AcceptIff(c, ch, VerifiedBlock(c, b.(cached := BlockId(c, b))));
    FillAllIdempotent(c, b.transactions);
  }

  /** The check either leaves a block ready to commit or takes it off the list. */
  lemma CheckNextOk(u: Setup, id: NodeId, peer: Peer, hs: seq<Header>)
    requires PeerOk(u, id, peer, hs) && peer.work.Draining?
    requires id == u.producer ==> peer.node.chain.headers == hs
    ensures PeerOk(u, id, peer.(work := CheckNext(u.c, peer.node, peer.work.todo)), hs)
  {
    hide NodeOk, ChainOk, VerifyBlock, VerifiedBlock, Validate, Ready;
    NodeChain(u.c, peer.node);
    var todo := peer.work.todo;
    if todo != [] {
      var b := todo[0];
      assert Known(hs, b);
      assert AllKnown(hs, todo[1..]);
      if VerifyBlock(u.c, b) {
        CheckedIsReady(u.c, peer.node.chain, b);
        NotAboveTip(u, id, peer, hs, b);
      }
    }
  }

  /** Nothing known is ready for the chain it is known to. */
  lemma NotAboveTip(u: Setup, id: NodeId, peer: Peer, hs: seq<Header>, b: Block)
    requires Known(hs, b) && (id == u.producer ==> peer.node.chain.headers == hs)
    ensures id == u.producer ==> forall b': Block :: b'.header == b.header ==> !Ready(u.c, peer.node.chain, b')
  {
  }

  lemma NodeChain(c: Suite, n: Node)
    requires NodeOk(c, n)
    ensures ChainOk(c, n.chain)
  {
  }

  lemma ProposeNextOk(u: Setup, n: Node, now: int, r: nat)
    requires NodeOk(u.c, n) && ProposeNext(u, n, now, r).Some?
    ensures Ready(u.c, n.chain, ProposeNext(u, n, now, r).value)
    ensures ProposeNext(u, n, now, r).value.transactions == n.pool.pending
  {
    var b := Candidate(u.c, n, u.key, now, r).value;
    AcceptIff(u.c, n.chain, b);
    FillAllIdempotent(u.c, b.transactions);
  }

  /** Committing a ready block is what adding it in one step would have done. */
  lemma ReadyIsAccepted(c: Suite, ch: Chain, b: Block)
    requires ChainOk(c, ch) && Ready(c, ch, b)
    ensures AddBlock(c, ch, b) == AddWithoutValidation(c, ch, b)
  {
    AcceptIff(c, ch, b);
    FillAllIdempotent(c, b.transactions);
  }

  /** The committing peer stays within the producer's chain, and what it relays is known there. */
  lemma CommitPeerOk(u: Setup, id: NodeId, peer: Peer, hs: seq<Header>)
    requires PeerOk(u, id, peer, hs) && peer.work.Checked?
    requires AddWithoutValidation(u.c, peer.node.chain, peer.work.b).Added?
    ensures var r := AddWithoutValidation(u.c, peer.node.chain, peer.work.b);
            var n := Node(r.ch, M.RemoveAll(peer.node.pool, r.b.transactions));
            && PeerOk(u, id, peer.(node := n, work := Draining(peer.work.todo)), hs)
            && AllKnown(hs, [Wire(r.b)])
  {
    hide ChainOk, M.PoolOk, M.RemoveAll, AddBlock, AddWithoutValidation, VerifyBlock, AllVerify, AllFilled;
    var ch, b := peer.node.chain, peer.work.b;
    assert Known(hs, WorkBlocks(peer.work)[0]);
    ReadyIsAccepted(u.c, ch, b);
    HeadersNonEmpty(u.c, ch);
    AddBlockKeepsOk(u.c, ch, b);
    AddedHeader(u.c, ch, b);
    PoolAfter(u.c, peer.node, AddBlock(u.c, ch, b).b.transactions);
    forall i | 0 <= i < |peer.work.todo| ensures Known(hs, peer.work.todo[i]) {
      assert Known(hs, WorkBlocks(peer.work)[i + 1]);
    }
  }

  lemma CommitOk(u: Setup, s: Net, id: NodeId)
    requires Inv(u, s) && id in s.peers && CommitNext(u.c, s, id).Some?
    ensures Inv(u, CommitNext(u.c, s, id).value)
  {
    hide PeerOk, AddWithoutValidation, AllKnown;
    CommitTip(u, s, id);
    CommitPeerOk(u, id, s.peers[id], Tip(u, s).headers);
  }

  lemma AddedHeader(c: Suite, ch: Chain, b: Block)
    requires AddBlock(c, ch, b).Added?
    ensures AddBlock(c, ch, b).b.header == b.header
  {
  }

  lemma PoolAfter(c: Suite, n: Node, txs: seq<Transaction>)
    requires NodeOk(c, n)
    ensures M.PoolOk(c, M.RemoveAll(n.pool, txs)) && AllVerify(c, M.RemoveAll(n.pool, txs).pending)
  {
    M.RemoveAllIs(c, n.pool, txs);
    var rest := M.RemoveAll(n.pool, txs).pending;
    forall i | 0 <= i < |rest| ensures VerifyTx(c, rest[i]) {
      assert rest[i] in n.pool.pending;
    }
  }

  /** The producer's chain grows by one; everything known stays known. */
  lemma PublishOk(u: Setup, s: Net)
    requires Inv(u, s) && PublishNext(u, s).Some?
    ensures Inv(u, PublishNext(u, s).value)
    ensures Tip(u, s).headers <= Tip(u, PublishNext(u, s).value).headers
  {
    hide ChainOk, M.PoolOk, AddBlock, AddWithoutValidation, Ready, AllKnown;
    var peer := s.peers[u.producer];
    var ch, b, s' := peer.node.chain, peer.proposal.value, PublishNext(u, s).value;
    ReadyIsAccepted(u.c, ch, b);
    ReadyHeight(u.c, ch, b);
    HeadersNonEmpty(u.c, ch);
    AddBlockKeepsOk(u.c, ch, b);
    AddedHeader(u.c, ch, b);
    var hs, hs' := ch.headers, AddBlock(u.c, ch, b).ch.headers;
    OneKnown(hs', Wire(AddBlock(u.c, ch, b).b));
    M.ClearKeepsOk(u.c, peer.node.pool);
    forall id | id in s'.peers ensures PeerOk(u, id, s'.peers[id], hs') {
      KnownGrows(hs, hs', WorkBlocks(s.peers[id].work));
    }
    forall m | m in s'.sent && m.BlocksMsg? ensures AllKnown(hs', m.bs) {
      if m in s.sent {
        KnownGrows(hs, hs', m.bs);
      }
    }
  }

  lemma ReadyHeight(c: Suite, ch: Chain, b: Block)
    requires Ready(c, ch, b)
    ensures b.header.height == |ch.headers|
  {
  }

  lemma OneKnown(hs: seq<Header>, b: Block)
    requires Known(hs, b)
    ensures AllKnown(hs, [b])
  {
  }

  /** Every step, by anyone, keeps the invariant. */
  lemma NextKeepsInv(u: Setup, s: Net, step: Step)
    requires Inv(u, s) && Next(u, s, step).Some?
    ensures Inv(u, Next(u, s, step).value)
    ensures Tip(u, s).headers <= Tip(u, Next(u, s, step).value).headers
  {
    hide NodeOk, AllKnown, Ready, CheckNext, ProposeNext, CommitNext, PublishNext, Submit, OnGetBlocks;
    var hs := Tip(u, s).headers;
    match step
    case SubmitTx(id, tx) => SubmitKeepsOk(u.c, s.peers[id].node, tx);
    case TellStatus(_) =>
    case HearStatus(_, _) =>
    case AnswerBlocks(id, q) => AnswerKnown(u.c, s.peers[id].node, hs, q);
    case Deliver(_, _) =>
    case Check(id) => CheckNextOk(u, id, s.peers[id], hs);
    case Commit(id) => CommitOk(u, s, id); CommitTip(u, s, id);
    case Propose(now, r) =>
      if ProposeNext(u, s.peers[u.producer].node, now, r).Some? {
        ProposeNextOk(u, s.peers[u.producer].node, now, r);
      }
    case Publish => PublishOk(u, s);
  }

  /** Only followers commit received blocks. */
  lemma CommitTip(u: Setup, s: Net, id: NodeId)
    requires Inv(u, s) && id in s.peers && CommitNext(u.c, s, id).Some?
    ensures id != u.producer && Tip(u, CommitNext(u.c, s, id).value) == Tip(u, s)
  {
    assert PeerOk(u, id, s.peers[id], Tip(u, s).headers);
  }

  lemma InitInv(u: Setup, s: Net)
    requires Init(u, s)
    ensures Inv(u, s)
    ensures forall id :: id in s.peers ==>
      s.peers[id].node.chain.headers == [GENESIS_HEADER] && s.peers[id].node.chain.world == GenesisWorld(u.c)
  {
    hide AddWithoutValidation, NodeOk;
    forall id | id in s.peers
      ensures NodeOk(u.c, s.peers[id].node)
      ensures s.peers[id].node.chain.headers == [GENESIS_HEADER]
      ensures s.peers[id].node.chain.world == GenesisWorld(u.c)
    {
      var peer := s.peers[id];
      assert Fresh(u.c, peer);
      var nonce, validator, sig :| peer.node == Node(
        NewBlockchain(u.c, GenesisBlock(nonce, validator, sig)).ch, M.Pool([], [], 1000));
      FreshNodeOk(u.c, nonce, validator, sig);
    }
  }

  lemma {:induction false} RunKeepsInv(u: Setup, s: Net, steps: seq<Step>)
    requires Inv(u, s) && RunNet(u, s, steps).Some?
    ensures Inv(u, RunNet(u, s, steps).value)
    ensures Tip(u, s).headers <= Tip(u, RunNet(u, s, steps).value).headers
  {
    hide Next, Inv;
    if steps != [] {
      RunKeepsInv(u, s, steps[..|steps| - 1]);
      NextKeepsInv(u, RunNet(u, s, steps[..|steps| - 1]).value, steps[|steps| - 1]);
    }
  }

  /** Some run of the protocol, from some start, ends here. */
  ghost predicate Reachable(u: Setup, s: Net) {
    exists s0, steps :: Init(u, s0) && RunNet(u, s0, steps) == Some(s)
  }

  lemma ReachableInv(u: Setup, s: Net)
    requires Reachable(u, s)
    ensures Inv(u, s)
  {
    hide Init, Inv;
    var s0, steps :| Init(u, s0) && RunNet(u, s0, steps) == Some(s);
    InitInv(u, s0);
    RunKeepsInv(u, s0, steps);
  }

  /**
   Agreement. In every reachable state, messages having been lost, duplicated and reordered and
   checks and commits interleaved: every chain is linked and a prefix of the producer's, so of any
   two chains one is a prefix of the other.
   */
  lemma Agreement(u: Setup, s: Net, a: NodeId, b: NodeId)
    requires Reachable(u, s) && a in s.peers && b in s.peers
    ensures u.producer in s.peers
    ensures var x, y, p := s.peers[a].node.chain, s.peers[b].node.chain, Tip(u, s);
            && ChainOk(u.c, x)
            && x.headers <= p.headers
            && (x.headers <= y.headers || y.headers <= x.headers)
  {
    hide Reachable, ChainOk;
    ReachableInv(u, s);
    assert PeerOk(u, a, s.peers[a], Tip(u, s).headers);
    assert PeerOk(u, b, s.peers[b], Tip(u, s).headers);
    HeadersNonEmpty(u.c, s.peers[a].node.chain);
  }
}
