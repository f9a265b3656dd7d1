/**
 The handlers of one node are runs of the network. What `Nodes` states of one handler in a single
 step is what the check and the commit do in two, and a whole list of blocks is worked off by a run
 of enabled steps; so a status, a request and its answer bring a node level inside the network.
 */
module Exchanges {
  import opened Basics
  import opened Entities
  import opened Ledger
  import opened Chains
  import opened Nodes
  import opened Network
  import opened Progress
  import C = Convergence
  import M = Mempool

  // ---------- One handler, one or two steps ----------

  /** Each relayed block is a message of its own. */
  function Relays(sent: seq<Block>): set<Message> {
    set b | b in sent :: BlocksMsg([b])
  }

  /** The reaction of one peer, in the network: nobody else changes. */
  function After(s: Net, id: NodeId, work: Work, r: Reaction): Net
    requires id in s.peers && r.Reaction?
  {
    Net(s.peers[id := s.peers[id].(node := r.n, work := work)], s.sent + Relays(r.sent), s.history)
  }

  lemma RelaysOne(b: Block)
    ensures Relays([b]) == {BlocksMsg([b])}
  {
  }

  /** A reaction in which nothing happens. */
  lemma AfterNothing(s: Net, id: NodeId, work: Work)
    requires id in s.peers
    ensures After(s, id, work, Reaction(s.peers[id].node, [])) == Put(s, id, s.peers[id].(work := work))
  {
  }

  lemma PutTwice(s: Net, id: NodeId, x: Peer, y: Peer)
    ensures Put(Put(s, id, x), id, y) == Put(s, id, y)
  {
  }

  /** The check and the commit together are the handler of one block. */
  lemma ReceiveIsCheckThenCommit(c: Suite, n: Node, todo: seq<Block>)
    requires todo != []
    ensures var w := CheckNext(c, n, todo);
            && !w.Idle? && w.todo == todo[1..]
            && Receive(c, n, todo[0]) ==
               if w.Draining? then Reaction(n, [])
               else
                 match AddWithoutValidation(c, n.chain, w.b)
                 case Panicked(_) => Dead
                 case Added(ch, b') => Reaction(Node(ch, M.RemoveAll(n.pool, b'.transactions)), [Wire(b')])
  {
  }

  /** The same in the network: the steps are enabled unless the block's code panics. */
  lemma ReceiveSteps(u: Setup, s: Net, id: NodeId) returns (steps: seq<Step>)
    requires id in s.peers && s.peers[id].work.Draining? && s.peers[id].work.todo != []
    ensures steps == [Check(id)] || steps == [Check(id), Commit(id)]
    ensures var todo, r := s.peers[id].work.todo, Receive(u.c, s.peers[id].node, s.peers[id].work.todo[0]);
            RunNet(u, s, steps) == if r.Dead? then None else Some(After(s, id, Draining(todo[1..]), r))
  {
    hide Receive, CheckNext, AddWithoutValidation;
    var peer := s.peers[id];
    var todo := peer.work.todo;
    ReceiveIsCheckThenCommit(u.c, peer.node, todo);
    var w := CheckNext(u.c, peer.node, todo);
    var s1 := Put(s, id, peer.(work := w));
    assert Next(u, s, Check(id)) == Some(s1);
    OneStep(u, s, Check(id), s1);
    steps := [Check(id)];
    AfterNothing(s, id, w);
    if w.Checked? {
      var r := AddWithoutValidation(u.c, peer.node.chain, w.b);
      if r.Added? {
        RelaysOne(Wire(r.b));
        var n := Node(r.ch, M.RemoveAll(peer.node.pool, r.b.transactions));
        PutTwice(s, id, peer.(work := w), peer.(node := n, work := Draining(w.todo)));
      }
      assert ([Check(id)] + [Commit(id)])[..1] == [Check(id)];
      assert RunNet(u, s, [Check(id)] + [Commit(id)]) == Next(u, s1, Commit(id));
      steps := [Check(id)] + [Commit(id)];
    }
  }

  /** The proposal and its publication together are the block tick. */
  lemma ProduceIsProposeThenPublish(u: Setup, n: Node, now: int, r: nat)
    requires n.chain.headers != []
    ensures Produce(u.c, n, u.key, now, r) ==
            match ProposeNext(u, n, now, r)
            case None => Reaction(n, [])
            case Some(b) =>
              match AddWithoutValidation(u.c, n.chain, b)
              case Panicked(_) => Dead
              case Added(ch, b') => Reaction(Node(ch, M.ClearPending(n.pool)), [Wire(b')])
  {
  }

  /** The tick in the network; the history grows by the epoch of its block. */
  lemma ProduceSteps(u: Setup, s: Net, now: int, r: nat) returns (steps: seq<Step>)
    requires u.producer in s.peers && s.peers[u.producer].proposal.None? && Tip(u, s).headers != []
    ensures steps == [Propose(now, r)] || steps == [Propose(now, r), Publish]
    ensures var peer := s.peers[u.producer];
            var p := Produce(u.c, peer.node, u.key, now, r);
            RunNet(u, s, steps) ==
            if p.Dead? then None
            else
              match ProposeNext(u, peer.node, now, r)
              case None => Some(After(s, u.producer, peer.work, p))
              case Some(b) =>
                var epoch := Epoch(p.n.chain.world, b.transactions);
                Some(After(s, u.producer, peer.work, p).(history := s.history + [epoch]))
  {
    hide Produce, ProposeNext, AddWithoutValidation;
    var peer := s.peers[u.producer];
    ProduceIsProposeThenPublish(u, peer.node, now, r);
    var b := ProposeNext(u, peer.node, now, r);
    var s1 := Put(s, u.producer, peer.(proposal := b));
    assert Next(u, s, Propose(now, r)) == Some(s1);
    OneStep(u, s, Propose(now, r), s1);
    steps := [Propose(now, r)];
    if b.None? {
      AfterNothing(s, u.producer, peer.work);
    } else {
      var added := AddWithoutValidation(u.c, peer.node.chain, b.value);
      if added.Added? {
        RelaysOne(Wire(added.b));
        var n := Node(added.ch, M.ClearPending(peer.node.pool));
        PutTwice(s, u.producer, peer.(proposal := b), peer.(node := n, proposal := None));
      }
      assert ([Propose(now, r)] + [Publish])[..1] == [Propose(now, r)];
      assert RunNet(u, s, [Propose(now, r)] + [Publish]) == Next(u, s1, Publish);
      steps := [Propose(now, r)] + [Publish];
    }
  }

  // ---------- A list of blocks is worked off ----------

  lemma AfterAfter(s: Net, id: NodeId, w: Work, r: Reaction, w': Work, r': Reaction)
    requires id in s.peers && r.Reaction? && r'.Reaction?
    ensures After(After(s, id, w, r), id, w', r') == After(s, id, w', Reaction(r'.n, r.sent + r'.sent))
  {
  }

  lemma {:induction false} DrainPrefix(u: Setup, s: Net, id: NodeId, bs: seq<Block>, i: nat)
    returns (steps: seq<Step>)
    requires id in s.peers && s.peers[id].work == Draining(bs) && i <= |bs|
    requires ReceiveAll(u.c, s.peers[id].node, bs[..i]).Reaction?
    ensures RunNet(u, s, steps) ==
            Some(After(s, id, Draining(bs[i..]), ReceiveAll(u.c, s.peers[id].node, bs[..i])))
    decreases i
  {
    hide Receive, Next;
    var n := s.peers[id].node;
    if i == 0 {
      steps := [];
      AfterNothing(s, id, Draining(bs));
      assert bs[..0] == [] && bs[0..] == bs && s.peers[id := s.peers[id]] == s.peers;
    } else {
      assert bs[..i][..i - 1] == bs[..i - 1];
      var before := ReceiveAll(u.c, n, bs[..i - 1]);
      var init := DrainPrefix(u, s, id, bs, i - 1);
      var s' := After(s, id, Draining(bs[i - 1..]), before);
      var more := ReceiveSteps(u, s', id);
      assert bs[i - 1..][1..] == bs[i..];
      C.RunConcat(u, s, init, s', more);
      AfterAfter(s, id, Draining(bs[i - 1..]), before, Draining(bs[i..]), Receive(u.c, before.n, bs[i - 1]));
      steps := init + more;
    }
  }

  /** A list of any length, worked off to the end: the peer has reacted to it and is idle again. */
  lemma ReceiveAllSteps(u: Setup, s: Net, id: NodeId, bs: seq<Block>) returns (steps: seq<Step>)
    requires id in s.peers && s.peers[id].work == Draining(bs)
    requires ReceiveAll(u.c, s.peers[id].node, bs).Reaction?
    ensures RunNet(u, s, steps) == Some(After(s, id, Idle, ReceiveAll(u.c, s.peers[id].node, bs)))
  {
    hide ReceiveAll;
    assert bs[..|bs|] == bs && bs[|bs|..] == [];
    var r := ReceiveAll(u.c, s.peers[id].node, bs);
    var init := DrainPrefix(u, s, id, bs, |bs|);
    var s' := After(s, id, Draining([]), r);
    PutTwice(s, id, s'.peers[id], s.peers[id].(node := r.n, work := Idle));
    NothingLeft(u.c, r.n);
    RunSnoc(u, s, init, s', Check(id), After(s, id, Idle, r));
    steps := init + [Check(id)];
  }

  // ---------- Catching up, as a run ----------

  /** `f` is idle and behind `a`, which is below the largest height. */
  ghost predicate CanCatchUp(s: Net, a: NodeId, f: NodeId) {
    && a in s.peers && f in s.peers && s.peers[f].work.Idle?
    && |s.peers[f].node.chain.headers| < |s.peers[a].node.chain.headers| <= MAX_UINT32
  }

  /** All that has changed is that `f` is at `n`; messages were added. */
  ghost predicate OnlyMoved(s: Net, s': Net, f: NodeId, n: Node)
    requires f in s.peers
  {
    s'.peers == s.peers[f := s.peers[f].(node := n)] && s.sent <= s'.sent && s'.history == s.history
  }

  /** The four steps up to the delivered answer. */
  lemma AskSteps(u: Setup, s: Net, a: NodeId, f: NodeId, h: uint32, q: Request, bs: seq<Block>)
    returns (s': Net)
    requires a in s.peers && f in s.peers && s.peers[f].work.Idle?
    requires h == s.peers[a].node.chain.Height() && OnStatus(s.peers[f].node.chain, h) == Some(q)
    requires |s.peers[a].node.chain.blocks| == |s.peers[a].node.chain.headers| >= 1
    requires Answer(s.peers[a].node.chain, q) == Some(bs)
    ensures RunNet(u, s, [TellStatus(a), HearStatus(f, h), AnswerBlocks(a, q), Deliver(f, bs)]) == Some(s')
    ensures s'.peers == s.peers[f := s.peers[f].(work := Draining(bs))]
    ensures s.sent <= s'.sent && s'.history == s.history
  {
    hide OnStatus, Answer, RunNet;
    var s1 := Say(s, StatusMsg(h));
    var s2 := Say(s1, GetBlocksMsg(q));
    var s3 := Say(s2, BlocksMsg(bs));
    s' := Put(s3, f, s.peers[f].(work := Draining(bs)));
    OneStep(u, s, TellStatus(a), s1);
    RunSnoc(u, s, [TellStatus(a)], s1, HearStatus(f, h), s2);
    RunSnoc(u, s, [TellStatus(a)] + [HearStatus(f, h)], s2, AnswerBlocks(a, q), s3);
    RunSnoc(u, s, [TellStatus(a)] + [HearStatus(f, h)] + [AnswerBlocks(a, q)], s3, Deliver(f, bs), s');
    assert [TellStatus(a)] + [HearStatus(f, h)] + [AnswerBlocks(a, q)] + [Deliver(f, bs)] ==
           [TellStatus(a), HearStatus(f, h), AnswerBlocks(a, q), Deliver(f, bs)];
  }

  lemma PrefixOf(u: Setup, s: Net, a: NodeId, f: NodeId)
    requires Inv(u, s) && CanCatchUp(s, a, f)
    ensures ChainOk(u.c, s.peers[a].node.chain) && ChainOk(u.c, s.peers[f].node.chain)
    ensures s.peers[f].node.chain.headers < s.peers[a].node.chain.headers
  {
    hide ChainOk;
    assert PeerOk(u, a, s.peers[a], Tip(u, s).headers) && PeerOk(u, f, s.peers[f], Tip(u, s).headers);
  }

  /**
   From every reachable state in which an idle node is behind another, however many blocks: the other's
   status, the request, the answer, its delivery, and the checks and commits of the blocks in it are
   enabled one after another. They change nobody else, and bring the node level if and only if all
   missing blocks still verify.
   */
  lemma CatchUpSteps(u: Setup, s: Net, a: NodeId, f: NodeId) returns (steps: seq<Step>, s': Net)
    requires Reachable(u, s) && CanCatchUp(s, a, f)
    ensures RunNet(u, s, steps) == Some(s')
    ensures f in s'.peers && OnlyMoved(s, s', f, s'.peers[f].node)
    ensures var ahead := s.peers[a].node.chain;
            && |ahead.blocks| == |ahead.headers|
            && (s'.peers[f].node.chain.headers == ahead.headers <==>
                  Relayable(u.c, ahead, |s.peers[f].node.chain.headers|, |ahead.headers|))
  {
    hide Reachable, Inv, ChainOk, ReceiveAll, OnStatus, Answer, RunNet, Relayable;
    ReachableInv(u, s);
    PrefixOf(u, s, a, f);
    var ahead, behind := s.peers[a].node.chain, s.peers[f].node;
    HeadersNonEmpty(u.c, ahead);
    CatchUpIff(u.c, ahead, behind);
    var q := OnStatus(behind.chain, ahead.Height()).value;
    AnswerExists(u.c, ahead, q);
    var bs := Answer(ahead, q).value;
    var s1 := AskSteps(u, s, a, f, ahead.Height(), q, bs);
    var ask := [TellStatus(a), HearStatus(f, ahead.Height()), AnswerBlocks(a, q), Deliver(f, bs)];
    var drain := ReceiveAllSteps(u, s1, f, bs);
    C.RunConcat(u, s, ask, s1, drain);
    steps := ask + drain;
    s' := After(s1, f, Idle, ReceiveAll(u.c, behind, bs));
  }

  /** Catching up with the producer: exactly if its execution dropped nothing from the missing blocks. */
  lemma CatchUpWithProducer(u: Setup, s: Net, f: NodeId) returns (steps: seq<Step>, s': Net)
    requires C.Ideal(u.c) && Reachable(u, s) && CanCatchUp(s, u.producer, f)
    ensures RunNet(u, s, steps) == Some(s')
    ensures f in s'.peers && OnlyMoved(s, s', f, s'.peers[f].node)
    ensures var p := Tip(u, s);
            && |p.blocks| == |p.headers| == |s.history|
            && (s'.peers[f].node.chain.headers == p.headers <==>
                  forall i :: |s.peers[f].node.chain.headers| <= i < |p.headers| ==>
                    p.blocks[i].transactions == s.history[i].offered)
  {
    hide Reachable, C.Ideal, C.StateInv, OnlyMoved, Relayable, RunNet;
    steps, s' := CatchUpSteps(u, s, u.producer, f);
    C.ReachableState(u, s);
    ReachableInv(u, s);
    FollowerChain(u, s, f);
    HeadersNonEmpty(u.c, s.peers[f].node.chain);
    C.TipRelayableIff(u, s, |s.peers[f].node.chain.headers|);
  }

  /** Catching up with another follower always succeeds: what it holds, it can pass on. */
  lemma CatchUpWithFollower(u: Setup, s: Net, a: NodeId, f: NodeId) returns (steps: seq<Step>, s': Net)
    requires C.Ideal(u.c) && Reachable(u, s) && CanCatchUp(s, a, f) && a != u.producer
    ensures RunNet(u, s, steps) == Some(s')
    ensures f in s'.peers && OnlyMoved(s, s', f, s'.peers[f].node)
    ensures s'.peers[f].node.chain.headers == s.peers[a].node.chain.headers
  {
    hide Reachable, C.Ideal, C.StateInv, OnlyMoved, RunNet, VerifyBlock;
    steps, s' := CatchUpSteps(u, s, a, f);
    C.ReachableState(u, s);
    ReachableInv(u, s);
    FollowerChain(u, s, f);
    HeadersNonEmpty(u.c, s.peers[f].node.chain);
    var ahead, from := s.peers[a].node.chain, |s.peers[f].node.chain.headers|;
    forall i | from <= i < |ahead.headers| ensures VerifyBlock(u.c, ahead.blocks[i]) {
      C.FollowerBlockVerifies(u, s, a, i);
    }
  }

  lemma AnswerExists(c: Suite, ch: Chain, q: Request)
    requires ChainOk(c, ch) && |ch.headers| <= MAX_UINT32
    ensures |ch.blocks| == |ch.headers| >= 1 && Answer(ch, q).Some?
  {
    HeadersNonEmpty(c, ch);
  }
}
