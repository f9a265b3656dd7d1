/**
 The protocol can move, and its assumptions can hold together: a level follower receives the next
 block in six steps, and there is a setup that meets every hypothesis of the agreement theorems.
 */
module Progress {
  import opened Basics
  import opened Entities
  import opened Ledger
  import opened Execution
  import opened Chains
  import opened Nodes
  import opened Network
  import C = Convergence
  import M = Mempool

  lemma RunSnoc(u: Setup, s: Net, steps: seq<Step>, s': Net, step: Step, s'': Net)
    requires RunNet(u, s, steps) == Some(s') && Next(u, s', step) == Some(s'')
    ensures RunNet(u, s, steps + [step]) == Some(s'')
  {
    assert (steps + [step])[..|steps|] == steps;
  }

  lemma OneStep(u: Setup, s: Net, step: Step, s': Net)
    requires Next(u, s, step) == Some(s')
    ensures RunNet(u, s, [step]) == Some(s')
  {
    hide Next;
    assert RunNet(u, s, []) == Some(s);
    RunSnoc(u, s, [], s, step, s');
    assert [] + [step] == [step];
  }

  /** Nothing stands in the way of the producer's next block: it can be signed and drops nothing. */
  ghost predicate CanProduce(u: Setup, s: Net, now: int, r: nat)
    requires u.producer in s.peers
  {
    var peer := s.peers[u.producer];
    var exec := ExecTxs(u.c, peer.node.chain.world, peer.node.pool.pending);
    && peer.proposal.None? && 1 <= |peer.node.chain.headers| <= MAX_UINT32
    && Candidate(u.c, peer.node, u.key, now, r).Some?
    && exec.Executed? && exec.dropped == []
  }

  /** A follower that is idle and has the producer's headers. */
  ghost predicate Level(u: Setup, s: Net, f: NodeId)
    requires u.producer in s.peers
  {
    && f in s.peers && f != u.producer && s.peers[f].work.Idle?
    && s.peers[f].node.chain.headers == Tip(u, s).headers
  }

  /** Propose and publish: the stored block is the proposal itself, and it is in flight. */
  lemma ProduceSteps(u: Setup, s: Net, now: int, r: nat) returns (b: Block, s': Net)
    requires Inv(u, s) && SignaturesVerify(u.c) && CanProduce(u, s, now, r)
    ensures RunNet(u, s, [Propose(now, r), Publish]) == Some(s') && Inv(u, s') && u.producer in s'.peers
    ensures BlocksMsg([Wire(b)]) in s'.sent && Ready(u.c, Tip(u, s), b)
    ensures AllCodeRuns(b.transactions)
    ensures Tip(u, s').headers == Tip(u, s).headers + [b.header]
    ensures forall id :: id in s.peers && id != u.producer ==> id in s'.peers && s'.peers[id] == s.peers[id]
  {
    hide Ready, NodeOk, Candidate, PeerOk, ExecTxs, AllCodeRuns;
    var peer := s.peers[u.producer];
    var n := peer.node;
    ProposalIs(u, peer, now, r, Tip(u, s).headers);
    b := ProposeNext(u, n, now, r).value;
    var s1 := Next(u, s, Propose(now, r)).value;
    NextKeepsInv(u, s, Propose(now, r));
    StoredWhole(u.c, n.chain, b);
    s' := Next(u, s1, Publish).value;
    NextKeepsInv(u, s1, Publish);
    assert RunNet(u, s, []) == Some(s);
    RunSnoc(u, s, [], s, Propose(now, r), s1);
    RunSnoc(u, s, [Propose(now, r)], s1, Publish, s');
    assert [] + [Propose(now, r)] == [Propose(now, r)];
    assert [Propose(now, r)] + [Publish] == [Propose(now, r), Publish];
    b := AddWithoutValidation(u.c, n.chain, b).b;
  }

  lemma ProposalIs(u: Setup, peer: Peer, now: int, r: nat, hs: seq<Header>)
    requires PeerOk(u, u.producer, peer, hs) && SignaturesVerify(u.c)
    requires 1 <= |peer.node.chain.headers| <= MAX_UINT32 && Candidate(u.c, peer.node, u.key, now, r).Some?
    ensures ProposeNext(u, peer.node, now, r).Some?
    ensures var b := ProposeNext(u, peer.node, now, r).value;
            Ready(u.c, peer.node.chain, b) && b.transactions == peer.node.pool.pending
  {
    hide Candidate, Validate, ChainOk, M.PoolOk, Ready;
    SelfAcceptance(u.c, peer.node, u.key, now, r);
    ProposeNextOk(u, peer.node, now, r);
  }

  /** A ready block from which nothing is dropped is stored as it is, and stays ready for a level peer. */
  lemma StoredWhole(c: Suite, ch: Chain, b: Block)
    requires Ready(c, ch, b)
    requires ExecTxs(c, ch.world, b.transactions).Executed? && ExecTxs(c, ch.world, b.transactions).dropped == []
    ensures var r := AddWithoutValidation(c, ch, b);
            && r.Added? && r.ch.headers == ch.headers + [b.header]
            && r.b.header == b.header && Ready(c, ch, r.b) && AllCodeRuns(r.b.transactions)
  {
    ExecConserves(c, ch.world, b.transactions);
    FillAllIdempotent(c, b.transactions);
    ExecutesIff(c, ch.world, b.transactions);
  }

  /** Whether a block is ready depends on the headers alone, and not on its cached hash. */
  lemma LevelIsReady(c: Suite, ch: Chain, other: Chain, b: Block)
    requires Ready(c, ch, b) && other.headers == ch.headers
    ensures Ready(c, other, Wire(b))
  {
  }

  /** Delivered to a peer on whose tip it fits, a block passes the check and is committed. */
  lemma CheckPasses(c: Suite, n: Node, b: Block)
    requires ChainOk(c, n.chain) && Ready(c, n.chain, b) && AllCodeRuns(b.transactions)
    ensures var w := CheckNext(c, n, [b]);
            && w.Checked? && w.todo == []
            && var r := AddWithoutValidation(c, n.chain, w.b);
               r.Added? && r.ch.headers == n.chain.headers + [b.header]
  {
    VerifyAgain(c, b);
    var b1 := VerifiedBlock(c, b.(cached := BlockId(c, b)));
    AcceptIff(c, n.chain, b1);
    FillAllIdempotent(c, b.transactions);
    ExecutesIff(c, n.chain.world, b.transactions);
  }

  /**
   From every reachable state in which the producer can produce and a follower is level: propose,
   publish, deliver, check, commit and a last check are enabled one after another, and the two end
   level again, one block higher.
   */
  lemma OneBlockReplicates(u: Setup, s: Net, f: NodeId, now: int, r: nat) returns (steps: seq<Step>, s': Net)
    requires Reachable(u, s) && SignaturesVerify(u.c) && u.producer in s.peers
    requires CanProduce(u, s, now, r) && Level(u, s, f)
    ensures |steps| == 6 && RunNet(u, s, steps) == Some(s')
    ensures u.producer in s'.peers && Level(u, s', f)
    ensures |Tip(u, s').headers| == |Tip(u, s).headers| + 1 && Tip(u, s).headers <= Tip(u, s').headers
  {
    hide Reachable, CanProduce, Ready, NodeOk, AllCodeRuns, ChainOk, CheckNext, AddWithoutValidation, Inv, RunNet;
    ReachableInv(u, s);
    var b, s2 := ProduceSteps(u, s, now, r);
    var peer, w := s.peers[f], Wire(b);
    FollowerChain(u, s, f);
    LevelIsReady(u.c, Tip(u, s), peer.node.chain, b);
    CheckPasses(u.c, peer.node, w);
    forall n ensures CheckNext(u.c, n, []) == Idle {
      NothingLeft(u.c, n);
    }
    var s3 := Next(u, s2, Deliver(f, [w])).value;
    var s4 := Next(u, s3, Check(f)).value;
    var s5 := Next(u, s4, Commit(f)).value;
    s' := Next(u, s5, Check(f)).value;
    steps := [Propose(now, r), Publish];
    RunSnoc(u, s, steps, s2, Deliver(f, [w]), s3);
    steps := steps + [Deliver(f, [w])];
    RunSnoc(u, s, steps, s3, Check(f), s4);
    steps := steps + [Check(f)];
    RunSnoc(u, s, steps, s4, Commit(f), s5);
    steps := steps + [Commit(f)];
    RunSnoc(u, s, steps, s5, Check(f), s');
    steps := steps + [Check(f)];
  }

  lemma NothingLeft(c: Suite, n: Node)
    ensures CheckNext(c, n, []) == Idle
  {
  }

  lemma FollowerChain(u: Setup, s: Net, f: NodeId)
    requires Inv(u, s) && f in s.peers
    ensures ChainOk(u.c, s.peers[f].node.chain)
  {
    assert PeerOk(u, f, s.peers[f], Tip(u, s).headers);
  }

  // ---------- The hypotheses hold together ----------

  /** Bijective base 256: different byte strings, different numbers. */
  function Number(bs: seq<byte>): nat {
    if bs == [] then 0 else 1 + bs[0] + 256 * Number(bs[1..])
  }

  lemma {:induction false} NumberInjective(x: seq<byte>, y: seq<byte>)
    requires Number(x) == Number(y)
    ensures x == y
    decreases |x|
  {
    if x != [] && y != [] {
      assert x[0] == y[0] && Number(x[1..]) == Number(y[1..]);
      NumberInjective(x[1..], y[1..]);
      assert x == [x[0]] + x[1..] && y == [y[0]] + y[1..];
    }
  }

  /** Unary with an end mark, so that one number after another can be read back. */
  function Unary(n: nat): seq<byte> {
    if n == 0 then [1] else [0] + Unary(n - 1)
  }

  lemma UnarySplit(n: nat, x: seq<byte>)
    ensures var s := Unary(n) + x;
            s != [] && s[0] == (if n == 0 then 1 else 0) && s[1..] == if n == 0 then x else Unary(n - 1) + x
  {
    if n > 0 {
      assert [0] + Unary(n - 1) + x == [0] + (Unary(n - 1) + x);
    }
  }

  lemma {:induction false} UnaryReadsBack(m: nat, n: nat, x: seq<byte>, y: seq<byte>)
    requires Unary(m) + x == Unary(n) + y
    ensures m == n && x == y
  {
    hide Unary;
    UnarySplit(m, x);
    UnarySplit(n, y);
    if m > 0 {
      UnaryReadsBack(m - 1, n - 1, x, y);
    }
  }

  function IntCode(i: int): nat {
    if i >= 0 then 2 * i else -2 * i - 1
  }

  function HeaderCode(h: Header): seq<byte> {
    var rest := Unary(h.height) + (Unary(IntCode(h.timestamp)) + []);
    Unary(h.version) + (Unary(h.dataHash) + (Unary(h.prevHash) + rest))
  }

  lemma HeaderCodeInjective(g: Header, h: Header)
    requires HeaderCode(g) == HeaderCode(h)
    ensures g == h
  {
    var gt, ht := Unary(IntCode(g.timestamp)) + [], Unary(IntCode(h.timestamp)) + [];
    var gh, hh := Unary(g.height) + gt, Unary(h.height) + ht;
    var gp, hp := Unary(g.prevHash) + gh, Unary(h.prevHash) + hh;
    UnaryReadsBack(g.version, h.version, Unary(g.dataHash) + gp, Unary(h.dataHash) + hp);
    UnaryReadsBack(g.dataHash, h.dataHash, gp, hp);
    UnaryReadsBack(g.prevHash, h.prevHash, gh, hh);
    UnaryReadsBack(g.height, h.height, gt, ht);
    UnaryReadsBack(IntCode(g.timestamp), IntCode(h.timestamp), [], []);
  }

  /** A signature names its message; every key has the same public key, and nothing verifies under another. */
  function ModelSuite(): Suite {
    Suite(Number, HeaderCode, p => [], t => [0], Unary,
          k => if k == COINBASE then COINBASE_ADDRESS else 0,
          k => [1], (k, r, m) => Some(Signature(0, Number(m))),
          (k, m, s: Signature) => k == [1] && s.s == Number(m))
  }

  lemma ModelSuiteIsIdeal()
    ensures var c := ModelSuite();
            && C.Ideal(c) && InjectiveHeaders(c) && InjectiveHashBytes(c)
            && SignaturesVerify(c) && SignaturesBind(c) && NoCoinbaseKey(c)
            && forall k, r, m :: c.sign(k, r, m).Some?
  {
    hide Number, HeaderCode, Unary;
    var c := ModelSuite();
    forall x, y | c.digest(x) == c.digest(y) ensures x == y {
      NumberInjective(x, y);
    }
    forall g, h | c.headerBytes(g) == c.headerBytes(h) ensures g == h {
      HeaderCodeInjective(g, h);
    }
    forall g, h | c.hashBytes(g) == c.hashBytes(h) ensures g == h {
      assert Unary(g) + [] == Unary(h) + [];
      UnaryReadsBack(g, h, [], []);
    }
    forall k, r, msg, pk, other | c.sign(k, r, msg).Some? && c.verify(pk, other, c.sign(k, r, msg).value)
      ensures pk == c.publicKey(k) && other == msg
    {
      NumberInjective(other, msg);
    }
  }

  /** Some setup meets all assumptions on the library functions and has a network with a level follower. */
  lemma AssumptionsAreConsistent() returns (u: Setup, s: Net)
    ensures C.Ideal(u.c) && InjectiveHeaders(u.c) && InjectiveHashBytes(u.c)
    ensures SignaturesVerify(u.c) && SignaturesBind(u.c) && NoCoinbaseKey(u.c)
    ensures Reachable(u, s) && u.producer in s.peers && Level(u, s, 1) && CanProduce(u, s, 0, 0)
  {
    hide ModelSuite, AddWithoutValidation, NodeOk, C.Ideal, NoCoinbaseKey, InjectiveHeaders,
         InjectiveHashBytes, SignaturesBind;
    ModelSuiteIsIdeal();
    var c := ModelSuite();
    u := Setup(c, 0, 0);
    var start := NewBlockchain(c, GenesisBlock(0, [], Signature(0, 0)));
    FreshNodeOk(c, 0, [], Signature(0, 0));
    var peer := Peer(Node(start.ch, M.Pool([], [], 1000)), Idle, None);
    assert Fresh(c, peer);
    s := Net(map[0 := peer, 1 := peer], {}, [Epoch(GenesisWorld(c), [])]);
    assert RunNet(u, s, []) == Some(s);
  }
}
