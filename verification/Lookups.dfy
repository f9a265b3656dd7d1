/** Lookup by hash in every reachable state of the network. */
module Lookups {
  import opened Basics
  import opened Entities
  import opened Ledger
  import opened Chains
  import opened Nodes
  import opened Network
  import M = Mempool

  ghost predicate AllHonest(c: Suite, bs: seq<Block>) {
    forall i :: 0 <= i < |bs| ==> HonestCache(c, bs[i])
  }

  ghost predicate HonestPeer(c: Suite, peer: Peer) {
    && HonestCaches(c, peer.node.chain.blocks)
    && AllHonest(c, WorkBlocks(peer.work))
    && (peer.proposal.Some? ==> HonestCache(c, peer.proposal.value))
  }

  /** No cached block hash anywhere in the network is anything but the hash of the block's header. */
  ghost predicate HonestNet(u: Setup, s: Net) {
    && (forall id :: id in s.peers ==> HonestPeer(u.c, s.peers[id]))
    && (forall m :: m in s.sent && m.BlocksMsg? ==> AllHonest(u.c, m.bs))
  }

  lemma PublishKeepsHonest(c: Suite, ch: Chain, b: Block)
    requires HonestCaches(c, ch.blocks) && HonestCache(c, b) && AddWithoutValidation(c, ch, b).Added?
    ensures HonestCaches(c, AddWithoutValidation(c, ch, b).ch.blocks)
  {
  }

  lemma ValidateKeepsCache(c: Suite, ch: Chain, b: Block)
    ensures Validate(c, ch, b).0 == Accept ==> Validate(c, ch, b).1.cached == b.cached
    ensures Validate(c, ch, b).0 == Accept ==> Validate(c, ch, b).1.header == b.header
  {
  }

  lemma CheckKeepsHonest(c: Suite, n: Node, todo: seq<Block>)
    requires AllHonest(c, todo)
    ensures AllHonest(c, WorkBlocks(CheckNext(c, n, todo)))
  {
    hide Validate;
    if todo != [] {
      var b := todo[0];
      assert HonestCache(c, b) && AllHonest(c, todo[1..]);
      if VerifyBlock(c, b) {
        VerifyAgain(c, b);
        ValidateKeepsCache(c, n.chain, VerifiedBlock(c, b.(cached := BlockId(c, b))));
      }
    }
  }

  lemma ProposeIsHonest(u: Setup, n: Node, now: int, r: nat)
    ensures var b := ProposeNext(u, n, now, r); b.Some? ==> HonestCache(u.c, b.value)
  {
    hide Validate;
    if n.chain.headers != [] && Candidate(u.c, n, u.key, now, r).Some? {
      ValidateKeepsCache(u.c, n.chain, Candidate(u.c, n, u.key, now, r).value);
    }
  }

  lemma SubmitKeepsChain(c: Suite, n: Node, tx: Transaction)
    requires Submit(c, n, tx).Some?
    ensures Submit(c, n, tx).value.chain == n.chain
  {
  }

  lemma NextKeepsHonest(u: Setup, s: Net, step: Step)
    requires HonestNet(u, s) && Next(u, s, step).Some?
    ensures HonestNet(u, Next(u, s, step).value)
  {
    hide CheckNext, ProposeNext, Submit, AddWithoutValidation, HonestCaches, OnStatus;
    match step
    case SubmitTx(id, tx) => SubmitKeepsChain(u.c, s.peers[id].node, tx);
    case TellStatus(_) =>
    case HearStatus(_, _) =>
    case AnswerBlocks(_, _) =>
    case Deliver(_, _) =>
    case Check(id) => CheckKeepsHonest(u.c, s.peers[id].node, s.peers[id].work.todo);
    case Commit(id) => CommitKeepsHonest(u, s, id);
    case Propose(now, r) => ProposeIsHonest(u, s.peers[u.producer].node, now, r);
    case Publish =>
      assert HonestPeer(u.c, s.peers[u.producer]);
      PublishKeepsHonest(u.c, s.peers[u.producer].node.chain, s.peers[u.producer].proposal.value);
  }

  lemma CommitKeepsHonest(u: Setup, s: Net, id: NodeId)
    requires HonestNet(u, s) && id in s.peers && CommitNext(u.c, s, id).Some?
    ensures HonestNet(u, CommitNext(u.c, s, id).value)
  {
    hide AddWithoutValidation, HonestCaches;
    var peer := s.peers[id];
    assert HonestPeer(u.c, peer);
    assert HonestCache(u.c, WorkBlocks(peer.work)[0]);
    PublishKeepsHonest(u.c, peer.node.chain, peer.work.b);
    forall i | 0 <= i < |peer.work.todo| ensures HonestCache(u.c, peer.work.todo[i]) {
      assert HonestCache(u.c, WorkBlocks(peer.work)[i + 1]);
    }
  }

  lemma InitIsHonest(u: Setup, s: Net)
    requires Init(u, s)
    ensures HonestNet(u, s)
  {
    hide AddWithoutValidation;
    forall id | id in s.peers ensures HonestPeer(u.c, s.peers[id]) {
      var peer := s.peers[id];
      assert Fresh(u.c, peer);
      var nonce, validator, sig :| peer.node == Node(
        NewBlockchain(u.c, GenesisBlock(nonce, validator, sig)).ch, M.Pool([], [], 1000));
      FreshNodeOk(u.c, nonce, validator, sig);
      PublishKeepsHonest(u.c, EmptyChain(u.c), GenesisBlock(nonce, validator, sig));
    }
  }

  lemma {:induction false} RunIsHonest(u: Setup, s: Net, steps: seq<Step>)
    requires HonestNet(u, s) && RunNet(u, s, steps).Some?
    ensures HonestNet(u, RunNet(u, s, steps).value)
  {
    hide Next, HonestNet;
    if steps != [] {
      RunIsHonest(u, s, steps[..|steps| - 1]);
      NextKeepsHonest(u, RunNet(u, s, steps[..|steps| - 1]).value, steps[|steps| - 1]);
    }
  }

  /** In every reachable state every node finds each of its blocks in memory by the hash of its header. */
  lemma ReachableLookup(u: Setup, s: Net, id: NodeId, i: nat)
    requires CollisionFree(u.c) && InjectiveHeaders(u.c) && Reachable(u, s)
    requires id in s.peers && i < |s.peers[id].node.chain.headers|
    ensures var ch := s.peers[id].node.chain;
            && |ch.blocks| == |ch.headers| && ch.blocks[i].header == ch.headers[i]
            && u.c.HeaderHash(ch.headers[i]) in ch.blockStore
            && ch.blockStore[u.c.HeaderHash(ch.headers[i])] == ch.blocks[i]
  {
    hide Init, Inv, HonestNet;
    var s0, steps :| Init(u, s0) && RunNet(u, s0, steps) == Some(s);
    InitIsHonest(u, s0);
    RunIsHonest(u, s0, steps);
    ReachableInv(u, s);
    PeerFacts(u, s, id);
    LookupFindsEveryBlock(u.c, s.peers[id].node.chain, i);
  }

  lemma PeerFacts(u: Setup, s: Net, id: NodeId)
    requires Inv(u, s) && HonestNet(u, s) && id in s.peers
    ensures NodeOk(u.c, s.peers[id].node) && HonestCaches(u.c, s.peers[id].node.chain.blocks)
  {
    assert PeerOk(u, id, s.peers[id], Tip(u, s).headers);
  }
}
