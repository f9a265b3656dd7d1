/**
 Agreement on state. With a collision-free digest, a follower at height h has the very state the
 producer had at height h: a block from which execution dropped something no longer verifies, so
 followers only ever execute what the producer executed.
 */
module Convergence {
  import opened Basics
  import opened Entities
  import opened Ledger
  import opened Execution
  import opened Chains
  import opened Nodes
  import opened Network
  import M = Mempool

  ghost predicate Ideal(c: Suite) {
    CollisionFree(c) && NonEmptyEncodings(c)
  }

  /** Above genesis, the block holds the transactions the producer stored at that height. */
  predicate Same(p: Chain, b: Block) {
    1 <= b.header.height < |p.blocks| ==> b.transactions == p.blocks[b.header.height].transactions
  }

  ghost predicate AllSame(p: Chain, bs: seq<Block>) {
    forall i :: 0 <= i < |bs| ==> Same(p, bs[i])
  }

  /** The i-th epoch is the execution that made the producer's i-th block. */
  ghost predicate EpochOk(c: Suite, p: Chain, history: seq<Epoch>, i: nat)
    requires 1 <= i < |history| == |p.headers| == |p.blocks|
  {
    var r := ExecTxs(c, history[i - 1].world, history[i].offered);
    && AllFilled(c, history[i].offered)
    && DataHash(c, history[i].offered) == p.headers[i].dataHash
    && r.Executed? && r.w == history[i].world && r.kept == p.blocks[i].transactions
  }

  ghost predicate HistoryOk(c: Suite, p: Chain, history: seq<Epoch>) {
    && |history| == |p.headers| == |p.blocks| >= 1
    && history[|history| - 1].world == p.world
    && forall i :: 1 <= i < |history| ==> EpochOk(c, p, history, i)
  }

  /** A chain at height h has the producer's state at h and its transactions up to h. */
  ghost predicate Mirrors(p: Chain, history: seq<Epoch>, ch: Chain) {
    && 1 <= |ch.headers| == |ch.blocks| <= |history| == |p.blocks|
    && ch.world == history[|ch.headers| - 1].world
    && forall i :: 1 <= i < |ch.blocks| ==> ch.blocks[i].transactions == p.blocks[i].transactions
  }

  /** Up to height n the producer's execution dropped nothing. */
  ghost predicate Lossless(p: Chain, history: seq<Epoch>, n: nat) {
    && n <= |history| == |p.blocks|
    && forall i :: 1 <= i < n ==> p.blocks[i].transactions == history[i].offered
  }

  ghost predicate Faithful(u: Setup, id: NodeId, peer: Peer, p: Chain, history: seq<Epoch>) {
    && Mirrors(p, history, peer.node.chain)
    && AllSame(p, WorkBlocks(peer.work))
    && (id != u.producer ==> Lossless(p, history, |peer.node.chain.headers|))
  }

  ghost predicate StateInv(u: Setup, s: Net) {
    && Inv(u, s)
    && HistoryOk(u.c, Tip(u, s), s.history)
    && (forall id :: id in s.peers ==> Faithful(u, id, s.peers[id], Tip(u, s), s.history))
    && (forall m :: m in s.sent && m.BlocksMsg? ==> AllSame(Tip(u, s), m.bs))
  }

  // ---------- The step that matters: a follower commits ----------

  /** A verifying block with the producer's survivors holds everything the producer offered. */
  lemma NothingDropped(c: Suite, p: Chain, history: seq<Epoch>, b: Block)
    requires Ideal(c) && HistoryOk(c, p, history) && Known(p.headers, b) && Same(p, b) && b.header.height >= 1
    requires VerifyBlock(c, b) && AllFilled(c, b.transactions)
    ensures b.transactions == history[b.header.height].offered
  {
    hide ExecTxs, EncodeAll, Subsequence;
    var i := b.header.height;
    assert EpochOk(c, p, history, i);
    var offered := history[i].offered;
    ExecConserves(c, history[i - 1].world, offered);
    FillAllIdempotent(c, offered);
    FillAllIdempotent(c, b.transactions);
    assert EncodeAll(c, b.transactions) == EncodeAll(c, offered);
    SublistEncodesShorter(c, b.transactions, offered);
  }

  /** Executing it from the mirrored state reproduces the producer's next state and drops nothing. */
  lemma CommitMirrors(c: Suite, p: Chain, history: seq<Epoch>, ch: Chain, b: Block)
    requires Ideal(c) && HistoryOk(c, p, history) && Mirrors(p, history, ch) && Lossless(p, history, |ch.headers|)
    requires Ready(c, ch, b) && Known(p.headers, b) && Same(p, b)
    ensures var r := AddWithoutValidation(c, ch, b);
            && r.Added? && r.b.transactions == b.transactions
            && Mirrors(p, history, r.ch) && Lossless(p, history, |r.ch.headers|) && Same(p, r.b)
  {
    hide VerifyBlock;
    var i := b.header.height;
    NothingDropped(c, p, history, b);
    assert EpochOk(c, p, history, i);
  }

  // ---------- Every step ----------

  lemma CommitFaithful(u: Setup, id: NodeId, peer: Peer, p: Chain, history: seq<Epoch>)
    requires Ideal(u.c) && HistoryOk(u.c, p, history) && id != u.producer
    requires PeerOk(u, id, peer, p.headers) && Faithful(u, id, peer, p, history) && peer.work.Checked?
    ensures var r := AddWithoutValidation(u.c, peer.node.chain, peer.work.b);
            && r.Added? && AllSame(p, [Wire(r.b)])
            && var n := Node(r.ch, M.RemoveAll(peer.node.pool, r.b.transactions));
               Faithful(u, id, peer.(node := n, work := Draining(peer.work.todo)), p, history)
  {
    hide Ready, NodeOk, HistoryOk, Mirrors, Lossless, AddWithoutValidation, M.RemoveAll;
    assert Known(p.headers, WorkBlocks(peer.work)[0]) && Same(p, WorkBlocks(peer.work)[0]);
    CommitMirrors(u.c, p, history, peer.node.chain, peer.work.b);
    forall i | 0 <= i < |peer.work.todo| ensures Same(p, peer.work.todo[i]) {
      assert Same(p, WorkBlocks(peer.work)[i + 1]);
    }
  }

  lemma CommitKeeps(u: Setup, s: Net, id: NodeId)
    requires Ideal(u.c) && StateInv(u, s) && id in s.peers && CommitNext(u.c, s, id).Some?
    ensures StateInv(u, CommitNext(u.c, s, id).value)
  {
    hide PeerOk, HistoryOk, Faithful, AllSame, AllKnown, AddWithoutValidation, M.RemoveAll;
    CommitOk(u, s, id);
    CommitTip(u, s, id);
    CommitFaithful(u, id, s.peers[id], Tip(u, s), s.history);
  }

  lemma SameGrows(p: Chain, longer: Chain, bs: seq<Block>)
    requires |p.blocks| == |p.headers| && p.blocks <= longer.blocks
    requires AllKnown(p.headers, bs) && AllSame(p, bs)
    ensures AllSame(longer, bs)
  {
    forall i | 0 <= i < |bs| ensures Same(longer, bs[i]) {
      assert Known(p.headers, bs[i]) && Same(p, bs[i]);
    }
  }

  /** The history grows with the producer's chain. */
  lemma PublishHistory(c: Suite, ch: Chain, history: seq<Epoch>, b: Block)
    requires ChainOk(c, ch) && HistoryOk(c, ch, history) && Ready(c, ch, b)
    requires AddWithoutValidation(c, ch, b).Added?
    ensures var ch' := AddWithoutValidation(c, ch, b).ch;
            && HistoryOk(c, ch', history + [Epoch(ch'.world, b.transactions)])
            && ch.blocks <= ch'.blocks && ch.headers <= ch'.headers
  {
    hide ChainOk;
    var ch' := AddWithoutValidation(c, ch, b).ch;
    var history' := history + [Epoch(ch'.world, b.transactions)];
    FillAllIdempotent(c, b.transactions);
    forall i | 1 <= i < |history'| ensures EpochOk(c, ch', history', i) {
      if i < |history| {
        assert EpochOk(c, ch, history, i);
      }
    }
  }

  lemma MirrorsGrows(p: Chain, history: seq<Epoch>, longer: Chain, history': seq<Epoch>, ch: Chain)
    requires Mirrors(p, history, ch) && |history'| == |longer.blocks|
    requires p.blocks <= longer.blocks && history <= history'
    ensures Mirrors(longer, history', ch)
    ensures Lossless(p, history, |ch.headers|) ==> Lossless(longer, history', |ch.headers|)
  {
  }

  lemma PublishKeeps(u: Setup, s: Net)
    requires StateInv(u, s) && PublishNext(u, s).Some?
    ensures StateInv(u, PublishNext(u, s).value)
  {
    hide Ready, ChainOk, AddWithoutValidation, Mirrors, Lossless, EpochOk;
    var s' := PublishNext(u, s).value;
    var peer, p, p' := s.peers[u.producer], Tip(u, s), Tip(u, s');
    assert PeerOk(u, u.producer, peer, p.headers);
    PublishOk(u, s);
    PublishHistory(u.c, p, s.history, peer.proposal.value);
    forall id | id in s'.peers ensures Faithful(u, id, s'.peers[id], p', s'.history) {
      assert PeerOk(u, id, s.peers[id], p.headers) && Faithful(u, id, s.peers[id], p, s.history);
      SameGrows(p, p', WorkBlocks(s.peers[id].work));
      MirrorsGrows(p, s.history, p', s'.history, s.peers[id].node.chain);
      if id == u.producer {
        MirrorsItself(u.c, p', s'.history);
      }
    }
    forall m | m in s'.sent && m.BlocksMsg? ensures AllSame(p', m.bs) {
      if m in s.sent {
        SameGrows(p, p', m.bs);
      } else {
        PublishedIsSame(u.c, p, peer.proposal.value);
      }
    }
  }

  lemma MirrorsItself(c: Suite, p: Chain, history: seq<Epoch>)
    requires HistoryOk(c, p, history)
    ensures Mirrors(p, history, p)
  {
  }

  lemma PublishedIsSame(c: Suite, ch: Chain, b: Block)
    requires AddWithoutValidation(c, ch, b).Added? && Ready(c, ch, b) && |ch.blocks| == |ch.headers|
    ensures var r := AddWithoutValidation(c, ch, b); AllSame(r.ch, [Wire(r.b)])
  {
  }

  /** A peer answers with blocks that match the producer's. */
  lemma AnswerSame(u: Setup, peer: Peer, p: Chain, history: seq<Epoch>, q: Request)
    requires NodeOk(u.c, peer.node) && Mirrors(p, history, peer.node.chain)
    requires |peer.node.chain.blocks| == |peer.node.chain.headers| >= 1
    ensures AllSame(p, OnGetBlocks(peer.node.chain, q))
  {
    var ch := peer.node.chain;
    var bs := OnGetBlocks(ch, q);
    forall i | 0 <= i < |bs| ensures Same(p, bs[i]) {
      assert bs[i] == Wire(ch.blocks[q.from + i]) && ch.blocks[q.from + i].header == ch.headers[q.from + i];
    }
  }

  lemma CheckSame(u: Setup, p: Chain, n: Node, todo: seq<Block>)
    requires NodeOk(u.c, n) && ChainOk(u.c, p) && AllSame(p, todo) && AllKnown(p.headers, todo)
    ensures AllSame(p, WorkBlocks(CheckNext(u.c, n, todo)))
  {
    if todo != [] {
      var b := todo[0];
      assert Same(p, b) && Known(p.headers, b);
      assert AllSame(p, todo[1..]);
      if VerifyBlock(u.c, b) {
        VerifyAgain(u.c, b);
        var b1 := VerifiedBlock(u.c, b.(cached := BlockId(u.c, b)));
        AcceptIff(u.c, n.chain, b1);
        FillAllIdempotent(u.c, b.transactions);
        if b.header.height >= 1 {
          assert StoredBlock(u.c, p.blocks[b.header.height], b.header.height);
        }
      }
    }
  }

  lemma NextKeepsState(u: Setup, s: Net, step: Step)
    requires Ideal(u.c) && StateInv(u, s) && Next(u, s, step).Some?
    ensures StateInv(u, Next(u, s, step).value)
  {
    hide NodeOk, AllKnown, AllSame, Ready, CheckNext, ProposeNext, CommitNext, PublishNext, Submit,
         OnGetBlocks, HistoryOk, Mirrors, Lossless;
    NextKeepsInv(u, s, step);
    var p := Tip(u, s);
    match step
    case SubmitTx(id, tx) => SubmitKeepsOk(u.c, s.peers[id].node, tx);
    case TellStatus(_) =>
    case HearStatus(_, _) =>
    case AnswerBlocks(id, q) => AnswerSame(u, s.peers[id], p, s.history, q);
    case Deliver(_, _) =>
    case Check(id) =>
      assert PeerOk(u, u.producer, s.peers[u.producer], p.headers);
      NodeChain(u.c, s.peers[u.producer].node);
      CheckSame(u, p, s.peers[id].node, s.peers[id].work.todo);
    case Commit(id) => CommitKeeps(u, s, id);
    case Propose(_, _) =>
    case Publish => PublishKeeps(u, s);
  }

  lemma InitPeer(u: Setup, s: Net, id: NodeId)
    requires Init(u, s) && Inv(u, s) && id in s.peers
    ensures s.peers[id].work.Idle? && |s.peers[id].node.chain.blocks| == |s.peers[id].node.chain.headers|
  {
    assert Fresh(u.c, s.peers[id]) && PeerOk(u, id, s.peers[id], Tip(u, s).headers);
  }

  lemma InitState(u: Setup, s: Net)
    requires Init(u, s)
    ensures StateInv(u, s)
  {
    hide ChainOk, NodeOk, Fresh;
    InitInv(u, s);
    forall id | id in s.peers ensures Faithful(u, id, s.peers[id], Tip(u, s), s.history) {
      InitPeer(u, s, id);
      InitPeer(u, s, u.producer);
    }
    InitPeer(u, s, u.producer);
  }

  lemma {:induction false} RunKeepsState(u: Setup, s: Net, steps: seq<Step>)
    requires Ideal(u.c) && StateInv(u, s) && RunNet(u, s, steps).Some?
    ensures StateInv(u, RunNet(u, s, steps).value)
  {
    hide Next, StateInv;
    if steps != [] {
      RunKeepsState(u, s, steps[..|steps| - 1]);
      NextKeepsState(u, RunNet(u, s, steps[..|steps| - 1]).value, steps[|steps| - 1]);
    }
  }

  lemma ReachableState(u: Setup, s: Net)
    requires Ideal(u.c) && Reachable(u, s)
    ensures StateInv(u, s)
  {
    hide Init, StateInv;
    var s0, steps :| Init(u, s0) && RunNet(u, s0, steps) == Some(s);
    InitState(u, s0);
    RunKeepsState(u, s0, steps);
  }

  /**
   State agreement. In every reachable state: a node at height h has exactly the state the
   producer had at height h, so two nodes at one height have one state; and each block a follower
   holds carries everything the producer put into it.
   */
  lemma StateAgreement(u: Setup, s: Net, a: NodeId, b: NodeId)
    requires Ideal(u.c) && Reachable(u, s) && a in s.peers && b in s.peers
    ensures u.producer in s.peers
    ensures var x, y, p := s.peers[a].node.chain, s.peers[b].node.chain, Tip(u, s);
            && 1 <= |x.headers| == |x.blocks| <= |s.history| == |p.headers|
            && x.world == s.history[|x.headers| - 1].world
            && p.world == s.history[|s.history| - 1].world
            && (|x.headers| == |y.headers| ==> x.world == y.world)
            && (a != u.producer ==>
                  forall i :: 1 <= i < |x.blocks| ==> x.blocks[i].transactions == s.history[i].offered)
  {
    hide Reachable, PeerOk, EpochOk, AllSame;
    ReachableState(u, s);
    assert Faithful(u, a, s.peers[a], Tip(u, s), s.history);
    assert Faithful(u, b, s.peers[b], Tip(u, s), s.history);
  }

  // ---------- Consequences for reachable states ----------

  /** Below the maximum height, the producer's signed candidate passes its own check. */
  lemma ReachableSelfAcceptance(u: Setup, s: Net, now: int, r: nat)
    requires SignaturesVerify(u.c) && Reachable(u, s)
    ensures u.producer in s.peers && s.peers[u.producer].node.chain.headers != []
    ensures var n := s.peers[u.producer].node;
            |n.chain.headers| <= MAX_UINT32 && Candidate(u.c, n, u.key, now, r).Some? ==>
              && ProposeNext(u, n, now, r).Some?
              && ProposeNext(u, n, now, r).value.transactions == n.pool.pending
  {
    hide Reachable, Candidate, ChainOk, M.PoolOk, Validate;
    ReachableInv(u, s);
    var n := s.peers[u.producer].node;
    assert PeerOk(u, u.producer, s.peers[u.producer], Tip(u, s).headers);
    HeadersNonEmpty(u.c, n.chain);
    if |n.chain.headers| <= MAX_UINT32 && Candidate(u.c, n, u.key, now, r).Some? {
      SelfAcceptance(u.c, n, u.key, now, r);
      ProposeNextOk(u, n, now, r);
    }
  }

  /** Above genesis, a stored block still verifies exactly if the producer's execution dropped nothing from it. */
  lemma TipBlockVerifiesIff(c: Suite, p: Chain, history: seq<Epoch>, i: nat)
    requires Ideal(c) && ChainOk(c, p) && HistoryOk(c, p, history) && 1 <= i < |p.blocks|
    requires p.headers[i].height == i
    ensures VerifyBlock(c, p.blocks[i]) <==> p.blocks[i].transactions == history[i].offered
  {
    assert EpochOk(c, p, history, i) && StoredBlock(c, p.blocks[i], i);
    FillAllIdempotent(c, p.blocks[i].transactions);
    if VerifyBlock(c, p.blocks[i]) {
      NothingDropped(c, p, history, p.blocks[i]);
    }
  }

  /** The producer's blocks from `from` on all verify exactly if its execution dropped nothing from them. */
  lemma TipRelayableIff(u: Setup, s: Net, from: nat)
    requires Ideal(u.c) && StateInv(u, s) && from >= 1
    ensures u.producer in s.peers && |Tip(u, s).blocks| == |Tip(u, s).headers| == |s.history|
    ensures Relayable(u.c, Tip(u, s), from, |Tip(u, s).headers|) <==>
            forall i :: from <= i < |Tip(u, s).headers| ==>
              Tip(u, s).blocks[i].transactions == s.history[i].offered
  {
    hide ChainOk, EpochOk, VerifyBlock, AllSame;
    var p := Tip(u, s);
    assert PeerOk(u, u.producer, s.peers[u.producer], p.headers);
    forall i | from <= i < |p.headers|
      ensures VerifyBlock(u.c, p.blocks[i]) <==> p.blocks[i].transactions == s.history[i].offered
    {
      HeightIs(u.c, p, i);
      TipBlockVerifiesIff(u.c, p, s.history, i);
    }
  }

  /** Above genesis every block a follower holds verifies, as it lost nothing. */
  lemma FollowerBlockVerifies(u: Setup, s: Net, id: NodeId, i: nat)
    requires StateInv(u, s) && id in s.peers && id != u.producer
    requires 1 <= i < |s.peers[id].node.chain.headers|
    ensures |s.peers[id].node.chain.blocks| == |s.peers[id].node.chain.headers|
    ensures VerifyBlock(u.c, s.peers[id].node.chain.blocks[i])
  {
    var p, ch := Tip(u, s), s.peers[id].node.chain;
    assert PeerOk(u, id, s.peers[id], p.headers) && Faithful(u, id, s.peers[id], p, s.history);
    assert EpochOk(u.c, p, s.history, i) && StoredBlock(u.c, ch.blocks[i], i);
    FillAllIdempotent(u.c, ch.blocks[i].transactions);
  }

  /**
   In every reachable state one exchange with the producer brings a follower behind it level if and
   only if the producer is below the largest height and its execution dropped nothing from the
   missing blocks.
   */
  lemma ReachableCatchUpIff(u: Setup, s: Net, id: NodeId)
    requires Ideal(u.c) && Reachable(u, s) && id in s.peers
    ensures u.producer in s.peers && |Tip(u, s).blocks| == |Tip(u, s).headers| == |s.history| >= 1
    ensures var p, f := Tip(u, s), s.peers[id].node;
            |f.chain.headers| < |p.headers| ==>
              && OnStatus(f.chain, p.Height()).Some?
              && var answer := Answer(p, OnStatus(f.chain, p.Height()).value);
              && (answer.Some? ==> ReceiveAll(u.c, f, answer.value).Reaction?)
              && (answer.Some? && ReceiveAll(u.c, f, answer.value).n.chain.headers == p.headers <==>
                    && p.Height() < MAX_UINT32
                    && forall i :: |f.chain.headers| <= i < |p.headers| ==>
                         p.blocks[i].transactions == s.history[i].offered)
  {
    hide Reachable, ReceiveAll, Answer, ChainOk, EpochOk, VerifyBlock, AllSame, Relayable;
    ReachableState(u, s);
    var p, f := Tip(u, s), s.peers[id].node;
    assert PeerOk(u, id, s.peers[id], p.headers) && PeerOk(u, u.producer, s.peers[u.producer], p.headers);
    HeadersNonEmpty(u.c, f.chain);
    if |f.chain.headers| < |p.headers| {
      CatchUpIff(u.c, p, f);
      TipRelayableIff(u, s, |f.chain.headers|);
    }
  }

  lemma HeightIs(c: Suite, ch: Chain, i: nat)
    requires ChainOk(c, ch) && 1 <= i < |ch.headers|
    ensures ch.headers[i].height == i
  {
  }

  // ---------- A dropped transaction stops replication ----------

  /** The producer's blocks and their history are only ever appended to. */
  lemma NextGrows(u: Setup, s: Net, step: Step)
    requires Inv(u, s) && Next(u, s, step).Some?
    ensures u.producer in Next(u, s, step).value.peers
    ensures Tip(u, s).blocks <= Tip(u, Next(u, s, step).value).blocks
    ensures s.history <= Next(u, s, step).value.history
  {
    hide NodeOk, AllKnown, Ready, CheckNext, ProposeNext, OnGetBlocks, ExecTxs;
    match step
    case SubmitTx(id, tx) => SubmitKeepsOk(u.c, s.peers[id].node, tx);
    case Commit(id) => CommitTip(u, s, id);
    case _ =>
  }

  lemma {:induction false} RunGrows(u: Setup, s: Net, steps: seq<Step>)
    requires Inv(u, s) && RunNet(u, s, steps).Some?
    ensures Inv(u, RunNet(u, s, steps).value)
    ensures Tip(u, s).blocks <= Tip(u, RunNet(u, s, steps).value).blocks
    ensures s.history <= RunNet(u, s, steps).value.history
  {
    hide Next;
    RunKeepsInv(u, s, steps);
    if steps != [] {
      RunGrows(u, s, steps[..|steps| - 1]);
      NextGrows(u, RunNet(u, s, steps[..|steps| - 1]).value, steps[|steps| - 1]);
    }
  }

  /** A reachable state with a drop at height i: no follower has that block. */
  lemma DropStops(u: Setup, s: Net, id: NodeId, i: nat)
    requires Ideal(u.c) && Reachable(u, s) && id in s.peers && id != u.producer && u.producer in s.peers
    requires 1 <= i < |s.history| == |Tip(u, s).blocks|
    requires Tip(u, s).blocks[i].transactions != s.history[i].offered
    ensures |s.peers[id].node.chain.headers| <= i
  {
    hide Reachable, PeerOk, EpochOk, AllSame;
    ReachableState(u, s);
    assert Faithful(u, id, s.peers[id], Tip(u, s), s.history);
  }

  /**
   One dropped transaction ends replication: once the producer's execution dropped something from
   its block i, no follower ever holds block i, whatever happens afterwards.
   */
  lemma DropStopsReplication(u: Setup, s: Net, steps: seq<Step>, id: NodeId, i: nat)
    requires Ideal(u.c) && Reachable(u, s) && u.producer in s.peers
    requires 1 <= i < |s.history| == |Tip(u, s).blocks|
    requires Tip(u, s).blocks[i].transactions != s.history[i].offered
    requires RunNet(u, s, steps).Some? && id in RunNet(u, s, steps).value.peers && id != u.producer
    ensures |RunNet(u, s, steps).value.peers[id].node.chain.headers| <= i
  {
    hide Inv, StateInv, Init;
    var s0, past :| Init(u, s0) && RunNet(u, s0, past) == Some(s);
    var s' := RunNet(u, s, steps).value;
    RunConcat(u, s0, past, s, steps);
    ReachableInv(u, s);
    RunGrows(u, s, steps);
    ReachableState(u, s');
    TipMatchesHistory(u, s');
    DropStops(u, s', id, i);
  }

  lemma TipMatchesHistory(u: Setup, s: Net)
    requires StateInv(u, s)
    ensures u.producer in s.peers && |s.history| == |Tip(u, s).blocks|
  {
  }

  lemma {:induction false} RunConcat(u: Setup, s0: Net, past: seq<Step>, s: Net, steps: seq<Step>)
    requires RunNet(u, s0, past) == Some(s)
    ensures RunNet(u, s0, past + steps) == RunNet(u, s, steps)
    decreases |steps|
  {
    hide Next;
    if steps == [] {
      assert past + steps == past;
    } else {
      assert (past + steps)[..|past + steps| - 1] == past + steps[..|steps| - 1];
      RunConcat(u, s0, past, s, steps[..|steps| - 1]);
    }
  }
}
