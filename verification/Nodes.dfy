/** What one node does on each tick and each message, and what that conserves. */
module Nodes {
  import opened Basics
  import opened Entities
  import opened Ledger
  import opened Execution
  import opened Chains
  import M = Mempool

  datatype Node = Node(chain: Chain, pool: M.Pool)

  /** The next state and the blocks broadcast, or a virtual-machine panic. */
  datatype Reaction = Reaction(n: Node, sent: seq<Block>) | Dead

  /** A block as a peer decodes it: the cached hash is not transmitted. */
  function Wire(b: Block): Block {
    b.(cached := 0)
  }

  /** One received block: verified, added, its survivors taken out of the pool, relayed. */
  function Receive(c: Suite, n: Node, b: Block): Reaction {
    if !VerifyBlock(c, b) then Reaction(n, [])
    else
      match AddBlock(c, n.chain, VerifiedBlock(c, b.(cached := BlockId(c, b))))
      case Rejected(_, _) => Reaction(n, [])
      case Panicked(_) => Dead
      case Added(ch, b') => Reaction(Node(ch, M.RemoveAll(n.pool, b'.transactions)), [Wire(b')])
  }

  /** A blocks message is worked off in order; a bad or known block does not stop the rest. */
  function ReceiveAll(c: Suite, n: Node, bs: seq<Block>): Reaction {
    if bs == [] then Reaction(n, [])
    else
      match ReceiveAll(c, n, bs[..|bs| - 1])
      case Dead => Dead
      case Reaction(n', sent) =>
        match Receive(c, n', bs[|bs| - 1])
        case Dead => Dead
        case Reaction(n'', more) => Reaction(n'', sent + more)
  }

  /** `None` is the panic of a pool of capacity zero. */
  function Submit(c: Suite, n: Node, tx: Transaction): Option<Node> {
    if M.Has(n.pool.all, tx.cached) || !VerifyTx(c, tx) then Some(n)
    else
      match M.Add(c, n.pool, tx)
      case None => None
      case Some(pool) => Some(n.(pool := pool))
  }

  /** The signed candidate for the next block: the tip's successor holding everything pending. */
  function Candidate(c: Suite, n: Node, k: PrivateKey, now: int, r: nat): Option<Block>
    requires n.chain.headers != []
  {
    var tip := n.chain.headers[|n.chain.headers| - 1];
    SignBlock(c, NextBlock(c, tip, n.pool.pending, now), k, r)
  }

  function Produce(c: Suite, n: Node, k: PrivateKey, now: int, r: nat): Reaction
    requires n.chain.headers != []
  {
    match Candidate(c, n, k, now, r)
    case None => Reaction(n, [])
    case Some(b) =>
      match AddBlock(c, n.chain, b)
      case Rejected(_, _) => Reaction(n, [])
      case Panicked(_) => Dead
      case Added(ch, b') => Reaction(Node(ch, M.ClearPending(n.pool)), [Wire(b')])
  }

  /** A panic ends the work on everything behind it. */
  lemma {:induction false} DeathIsFinal(c: Suite, n: Node, bs: seq<Block>, k: nat)
    requires k <= |bs| && ReceiveAll(c, n, bs[..k]).Dead?
    ensures ReceiveAll(c, n, bs).Dead?
    decreases |bs|
  {
    hide Receive;
    if k == |bs| {
      assert bs[..k] == bs;
    } else {
      var init := bs[..|bs| - 1];
      assert init[..k] == bs[..k];
      DeathIsFinal(c, n, init, k);
    }
  }

  // ---------- Catching up ----------

  datatype Request = Request(from: uint32, to: uint32)

  /** A status that is ahead of us is answered by asking for everything above our tip. */
  function OnStatus(ch: Chain, advertised: uint32): Option<Request> {
    if ch.Height() < advertised then Some(Request(WrapU32(ch.Height() + 1), advertised)) else None
  }

  /** `To` zero means everything, and is never beyond our own height. */
  function RangeEnd(ch: Chain, q: Request): uint32 {
    if q.to == 0 || q.to > ch.Height() then ch.Height() else q.to
  }

  function OnGetBlocks(ch: Chain, q: Request): seq<Block>
    requires |ch.blocks| == |ch.headers| >= 1
  {
    var end := RangeEnd(ch, q);
    if q.from > ch.Height() || q.from > end then [] else WireAll(ch.blocks[q.from..end + 1])
  }

  /** What is sent back; `None` is the range loop that never ends. */
  function Answer(ch: Chain, q: Request): Option<seq<Block>>
    requires |ch.blocks| == |ch.headers| >= 1
  {
    if RangeEnd(ch, q) == MAX_UINT32 then None else Some(OnGetBlocks(ch, q))
  }

  /** The answer, block by block: from `from` on everything the node has, up to `to` unless that is zero. */
  lemma AnswerIs(c: Suite, ch: Chain, q: Request)
    requires ChainOk(c, ch)
    ensures |ch.blocks| == |ch.headers| >= 1
    ensures var wanted := h => q.from <= h < |ch.headers| && (q.to == 0 || h <= q.to);
            && (Answer(ch, q).None? <==> |ch.headers| == 0x1_0000_0000 && (q.to == 0 || q.to == 0xFFFF_FFFF))
            && (Answer(ch, q).Some? ==>
                  var bs := Answer(ch, q).value;
                  && (forall i :: 0 <= i < |bs| ==> wanted(q.from + i) && bs[i] == ch.blocks[q.from + i].(cached := 0))
                  && (forall h :: wanted(h) ==> h - q.from < |bs|))
  {
    HeadersNonEmpty(c, ch);
  }

  function WireAll(bs: seq<Block>): (ws: seq<Block>)
    ensures |ws| == |bs| && forall i :: 0 <= i < |bs| ==> ws[i] == Wire(bs[i])
  {
    seq(|bs|, i requires 0 <= i < |bs| => Wire(bs[i]))
  }

  // ---------- Invariant of a node ----------

  ghost predicate NodeOk(c: Suite, n: Node) {
    && ChainOk(c, n.chain) && n.chain.headers[0].height == 0
    && M.PoolOk(c, n.pool) && AllVerify(c, n.pool.pending)
  }

  /** A node as it starts, whatever its genesis block drew. */
  lemma FreshNodeOk(c: Suite, nonce: int, validator: PublicKey, sig: Signature)
    ensures var start := NewBlockchain(c, GenesisBlock(nonce, validator, sig));
            && start.Added? && start.ch.headers == [GENESIS_HEADER] && start.ch.world == GenesisWorld(c)
            && NodeOk(c, Node(start.ch, M.Pool([], [], 1000)))
  {
    hide ChainOk, AddWithoutValidation;
    GenesisIsDeterministic(c, nonce, validator, sig);
    NewBlockchainOk(c, GenesisBlock(nonce, validator, sig));
  }

  lemma ReceiveKeepsOk(c: Suite, n: Node, b: Block)
    requires NodeOk(c, n) && Receive(c, n, b).Reaction?
    ensures NodeOk(c, Receive(c, n, b).n)
    ensures n.chain.headers <= Receive(c, n, b).n.chain.headers
  {
    hide AddBlock, ChainOk, M.PoolOk;
    var b1 := VerifiedBlock(c, b.(cached := BlockId(c, b)));
    var r := AddBlock(c, n.chain, b1);
    if VerifyBlock(c, b) && r.Added? {
      HeadersNonEmpty(c, n.chain);
      AddBlockKeepsOk(c, n.chain, b1);
      M.RemoveAllIs(c, n.pool, r.b.transactions);
      var rest := M.RemoveAll(n.pool, r.b.transactions).pending;
      forall i | 0 <= i < |rest| ensures VerifyTx(c, rest[i]) {
        assert rest[i] in n.pool.pending;
      }
    }
  }

  lemma HeadersNonEmpty(c: Suite, ch: Chain)
    requires ChainOk(c, ch)
    ensures |ch.blocks| == |ch.headers| >= 1 && ch.Height() == |ch.headers| - 1
  {
  }

  lemma SubmitKeepsOk(c: Suite, n: Node, tx: Transaction)
    requires NodeOk(c, n) && Submit(c, n, tx).Some?
    ensures NodeOk(c, Submit(c, n, tx).value)
    ensures Submit(c, n, tx).value.chain == n.chain
  {
    hide ChainOk;
    if !M.Has(n.pool.all, tx.cached) && VerifyTx(c, tx) {
      M.AddKeepsOk(c, n.pool, tx);
    }
  }

  /** With room in the pool no submission panics. */
  lemma SubmitWorks(c: Suite, n: Node, tx: Transaction)
    requires NodeOk(c, n) && n.pool.maxLength != 0
    ensures Submit(c, n, tx).Some? && NodeOk(c, Submit(c, n, tx).value)
  {
    hide ChainOk;
    SubmitKeepsOk(c, n, tx);
  }

  /**
   Below the maximum height the node's own validator accepts the block it builds. What makes it
   so is the chain invariant, and that every pending transaction verifies with its hash cached.
   */
  lemma SelfAcceptance(c: Suite, n: Node, k: PrivateKey, now: int, r: nat)
    requires NodeOk(c, n) && SignaturesVerify(c) && |n.chain.headers| <= MAX_UINT32
    requires Candidate(c, n, k, now, r).Some?
    ensures Validate(c, n.chain, Candidate(c, n, k, now, r).value).0 == Accept
  {
    var b := Candidate(c, n, k, now, r).value;
    AcceptIff(c, n.chain, b);
    var msg := c.headerBytes(b.header);
    assert c.verify(c.publicKey(k), msg, c.sign(k, r, msg).value);
    FillAllIdempotent(c, n.pool.pending);
  }

  lemma ProduceKeepsOk(c: Suite, n: Node, k: PrivateKey, now: int, r: nat)
    requires NodeOk(c, n) && Produce(c, n, k, now, r).Reaction?
    ensures NodeOk(c, Produce(c, n, k, now, r).n)
  {
    hide AddBlock, ChainOk;
    HeadersNonEmpty(c, n.chain);
    match Candidate(c, n, k, now, r)
    case None =>
    case Some(b) =>
      if AddBlock(c, n.chain, b).Added? {
        AddBlockKeepsOk(c, n.chain, b);
      }
  }

  // ---------- Nothing pending is lost ----------

  /** Producing a block: every pending transaction is in it, in order, or was dropped by execution. */
  lemma ProduceConserves(c: Suite, n: Node, k: PrivateKey, now: int, r: nat)
    requires NodeOk(c, n) && SignaturesVerify(c) && |n.chain.headers| <= MAX_UINT32
    requires Candidate(c, n, k, now, r).Some? && Produce(c, n, k, now, r).Reaction?
    ensures var exec := ExecTxs(c, n.chain.world, n.pool.pending);
            var n' := Produce(c, n, k, now, r).n;
            && exec.Executed?
            && |n'.chain.blocks| == |n.chain.blocks| + 1
            && n'.chain.blocks[|n.chain.blocks|].transactions == exec.kept
            && multiset(exec.kept) + multiset(exec.dropped) == multiset(n.pool.pending)
            && Subsequence(exec.kept, n.pool.pending)
            && n'.pool.pending == [] && n'.pool.all == n.pool.all
            && n'.chain.world == exec.w
            && Produce(c, n, k, now, r).sent == [n'.chain.blocks[|n.chain.blocks|].(cached := 0)]
  {
    SelfAcceptance(c, n, k, now, r);
    var b := Candidate(c, n, k, now, r).value;
    AcceptIff(c, n.chain, b);
    FillAllIdempotent(c, n.pool.pending);
    ExecConserves(c, n.chain.world, n.pool.pending);
  }

  /** Receiving a block: exactly the stored survivors leave the pool, and the rest keep their order. */
  lemma ReceiveConserves(c: Suite, n: Node, b: Block)
    requires NodeOk(c, n) && Receive(c, n, b).Reaction? && Receive(c, n, b).n.chain != n.chain
    ensures var n' := Receive(c, n, b).n;
            && |n'.chain.blocks| == |n.chain.blocks| + 1
            && var stored := n'.chain.blocks[|n.chain.blocks|].transactions;
            && Subsequence(n'.pool.pending, n.pool.pending) && Subsequence(n'.pool.all, n.pool.all)
            && (forall tx :: tx in n'.pool.pending <==> tx in n.pool.pending && !M.Has(stored, tx.cached))
            && (forall tx :: tx in n'.pool.all <==> tx in n.pool.all && !M.Has(stored, tx.cached))
            && Receive(c, n, b).sent == [n'.chain.blocks[|n.chain.blocks|].(cached := 0)]
  {
    hide AddBlock, ChainOk;
    var b1 := VerifiedBlock(c, b.(cached := BlockId(c, b)));
    HeadersNonEmpty(c, n.chain);
    AddBlockKeepsOk(c, n.chain, b1);
    M.RemoveAllIs(c, n.pool, AddBlock(c, n.chain, b1).b.transactions);
  }

  /**
   What is executed is what sits under a cached hash. A transaction whose payload was replaced, with
   sender, signature and cached hash kept, is queued like the original, and the next block the node
   produces executes the replaced payload.
   */
  lemma CachedHashAdmitsPayload(c: Suite, n: Node, tx: Transaction, other: Payload, k: PrivateKey, now: int, r: nat)
    requires NodeOk(c, n) && n.pool.maxLength != 0 && SignaturesVerify(c) && |n.chain.headers| <= MAX_UINT32
    requires tx.cached != 0 && VerifyTx(c, tx) && other.from == tx.payload.from
    requires !M.Has(n.pool.all, tx.cached) && !M.Has(n.pool.pending, tx.cached)
    ensures n.chain.headers != []
    ensures var replaced := tx.(payload := other);
            && Submit(c, n, replaced).Some?
            && var n' := Submit(c, n, replaced).value;
            && n'.pool.pending == n.pool.pending + [replaced] && n'.chain == n.chain
            && var p := Produce(c, n', k, now, r);
            Candidate(c, n', k, now, r).Some? && p.Reaction? ==>
              p.n.chain.world == HandleTx(c, ExecTxs(c, n.chain.world, n.pool.pending).w, replaced).w
  {
    hide ChainOk, M.PoolOk, Produce, Candidate;
    HeadersNonEmpty(c, n.chain);
    VerdictReadsCache(c, tx, other);
    var replaced := tx.(payload := other);
    SubmitWorks(c, n, replaced);
    var n' := Submit(c, n, replaced).value;
    if Candidate(c, n', k, now, r).Some? && Produce(c, n', k, now, r).Reaction? {
      ProduceConserves(c, n', k, now, r);
      assert n'.pool.pending[..|n'.pool.pending| - 1] == n.pool.pending;
    }
  }

  // ---------- Catch-up ----------

  /** A block that is not one above the tip changes nothing. */
  lemma ReceiveOther(c: Suite, n: Node, b: Block)
    requires ChainOk(c, n.chain) && b.header.height != |n.chain.headers|
    ensures Receive(c, n, b) == Reaction(n, [])
  {
    AcceptIff(c, n.chain, VerifiedBlock(c, b.(cached := BlockId(c, b))));
  }

  lemma VerifyAgain(c: Suite, b: Block)
    requires VerifyBlock(c, b)
    ensures var b1 := VerifiedBlock(c, b.(cached := BlockId(c, b)));
            && VerifyBlock(c, b1)
            && b1 == b.(cached := BlockId(c, b), transactions := FillAll(c, b.transactions))
  {
    var b0 := b.(cached := BlockId(c, b));
    assert VerifyBlock(c, b0);
    FillAllIdempotent(c, b.transactions);
    var fs := FillAll(c, b.transactions);
    forall i | 0 <= i < |fs| ensures VerifyTx(c, fs[i]) {
      assert VerifyTx(c, b.transactions[i]);
    }
  }

  /** A verifying block that extends the tip is added, whatever it then drops. */
  lemma ReceiveNext(c: Suite, n: Node, b: Block)
    requires ChainOk(c, n.chain) && VerifyBlock(c, b) && AllCodeRuns(b.transactions)
    requires b.header.height == |n.chain.headers|
    requires b.header.prevHash == c.HeaderHash(n.chain.headers[|n.chain.headers| - 1])
    ensures Receive(c, n, b).Reaction?
    ensures var ch := Receive(c, n, b).n.chain;
            ChainOk(c, ch) && ch.headers == n.chain.headers + [b.header]
  {
    VerifyAgain(c, b);
    var b1 := VerifiedBlock(c, b.(cached := BlockId(c, b)));
    AcceptIff(c, n.chain, b1);
    FillAllIdempotent(c, b.transactions);
    assert AllCodeRuns(FillAll(c, b.transactions));
    ExecutesIff(c, n.chain.world, FillAll(c, b.transactions));
    AddBlockKeepsOk(c, n.chain, b1);
  }

  /** Every stored block from `from` to before `end` still verifies, that is, lost no transaction. */
  ghost predicate Relayable(c: Suite, ch: Chain, from: nat, end: nat)
    requires |ch.blocks| == |ch.headers|
  {
    forall i :: from <= i < end && i < |ch.blocks| ==> VerifyBlock(c, ch.blocks[i])
  }

  ghost predicate Caught(c: Suite, n: Node, a: Chain, end: nat) {
    ChainOk(c, n.chain) && n.chain.headers <= a.headers && end <= |n.chain.headers|
  }

  lemma CatchUpStep(c: Suite, n: Node, a: Chain, i: nat)
    requires ChainOk(c, a) && Caught(c, n, a, i) && 1 <= i < |a.blocks| && Relayable(c, a, i, i + 1)
    ensures var r := Receive(c, n, Wire(a.blocks[i]));
            r.Reaction? && Caught(c, r.n, a, i + 1) && n.chain.headers <= r.n.chain.headers
  {
    var b := Wire(a.blocks[i]);
    assert StoredBlock(c, a.blocks[i], i) && VerifyBlock(c, a.blocks[i]);
    if |n.chain.headers| == i {
      ReceiveNext(c, n, b);
    } else {
      ReceiveOther(c, n, b);
    }
  }

  lemma {:induction false} CatchUpRange(c: Suite, n: Node, a: Chain, from: nat, end: nat)
    requires ChainOk(c, a) && Caught(c, n, a, from) && 1 <= from <= end <= |a.blocks| && Relayable(c, a, from, end)
    ensures var r := ReceiveAll(c, n, WireAll(a.blocks[from..end]));
            r.Reaction? && Caught(c, r.n, a, end) && n.chain.headers <= r.n.chain.headers
    decreases end - from
  {
    hide Receive, ChainOk;
    if from < end {
      CatchUpRange(c, n, a, from, end - 1);
      var bs := WireAll(a.blocks[from..end]);
      assert bs[..|bs| - 1] == WireAll(a.blocks[from..end - 1]);
      CatchUpStep(c, ReceiveAll(c, n, WireAll(a.blocks[from..end - 1])).n, a, end - 1);
    }
  }

  /**
   The whole exchange. `b` heard `a` advertise a height above its own and asked for the missing
   blocks; `a`, which may have grown since, answers; `b`, which may have grown since by other
   messages, works the answer off. There is an answer unless the advertised height is the largest
   uint32, and with it `b` ends at least as high as advertised, on `a`'s chain.
   */
  lemma CatchUp(c: Suite, asked: Chain, a: Chain, b: Node, advertised: uint32)
    requires ChainOk(c, asked) && ChainOk(c, a) && ChainOk(c, b.chain)
    requires OnStatus(asked, advertised).Some? && advertised < |a.headers|
    requires asked.headers <= b.chain.headers <= a.headers
    requires Relayable(c, a, |asked.headers|, advertised + 1)
    ensures |a.blocks| == |a.headers| >= 1
    ensures var answer := Answer(a, OnStatus(asked, advertised).value);
            && (answer.Some? <==> advertised < MAX_UINT32)
            && (answer.Some? ==>
                  var r := ReceiveAll(c, b, answer.value);
                  && r.Reaction?
                  && ChainOk(c, r.n.chain) && b.chain.headers <= r.n.chain.headers <= a.headers
                  && r.n.chain.Height() >= advertised)
  {
    hide ReceiveAll, ChainOk;
    HeadersNonEmpty(c, asked);
    HeadersNonEmpty(c, a);
    HeadersNonEmpty(c, b.chain);
    var q := OnStatus(asked, advertised).value;
    assert q == Request(|asked.headers|, advertised) && RangeEnd(a, q) == advertised;
    CatchUpRange(c, b, a, q.from, advertised + 1);
    HeadersNonEmpty(c, ReceiveAll(c, b, OnGetBlocks(a, q)).n.chain);
  }

  /** Linked within `a`, and not past height `i`. */
  ghost predicate Below(c: Suite, n: Node, a: Chain, i: nat) {
    ChainOk(c, n.chain) && n.chain.headers <= a.headers && |n.chain.headers| <= i
  }

  lemma StuckStep(c: Suite, n: Node, a: Chain, i: nat, j: nat)
    requires ChainOk(c, a) && Below(c, n, a, i) && i < |a.blocks| && !VerifyBlock(c, a.blocks[i])
    requires 1 <= j < |a.blocks|
    ensures var r := Receive(c, n, Wire(a.blocks[j])); r.Reaction? && Below(c, r.n, a, i)
  {
    var b := Wire(a.blocks[j]);
    assert StoredBlock(c, a.blocks[j], j);
    assert VerifyBlock(c, b) <==> VerifyBlock(c, a.blocks[j]);
    if VerifyBlock(c, b) {
      if |n.chain.headers| == j {
        ReceiveNext(c, n, b);
      } else {
        ReceiveOther(c, n, b);
      }
    }
  }

  /** A stored block that no longer verifies is never passed: the node stays below it. */
  lemma {:induction false} StuckRange(c: Suite, n: Node, a: Chain, i: nat, from: nat, end: nat)
    requires ChainOk(c, a) && Below(c, n, a, i) && i < |a.blocks| && !VerifyBlock(c, a.blocks[i])
    requires 1 <= from <= end <= |a.blocks|
    ensures var r := ReceiveAll(c, n, WireAll(a.blocks[from..end])); r.Reaction? && Below(c, r.n, a, i)
    decreases end - from
  {
    hide Receive, ChainOk, VerifyBlock;
    if from < end {
      StuckRange(c, n, a, i, from, end - 1);
      var bs := WireAll(a.blocks[from..end]);
      assert bs[..|bs| - 1] == WireAll(a.blocks[from..end - 1]);
      StuckStep(c, ReceiveAll(c, n, WireAll(a.blocks[from..end - 1])).n, a, i, end - 1);
    }
  }

  lemma AnswerStuck(c: Suite, a: Chain, b: Node, i: nat)
    requires ChainOk(c, a) && ChainOk(c, b.chain) && b.chain.headers < a.headers
    requires |b.chain.headers| <= i < |a.headers| == |a.blocks| && !VerifyBlock(c, a.blocks[i])
    ensures OnStatus(b.chain, a.Height()).Some?
    ensures var answer := Answer(a, OnStatus(b.chain, a.Height()).value);
            answer.Some? ==>
              && ReceiveAll(c, b, answer.value).Reaction?
              && |ReceiveAll(c, b, answer.value).n.chain.headers| <= i
  {
    hide ReceiveAll, ChainOk, VerifyBlock;
    HeadersNonEmpty(c, a);
    HeadersNonEmpty(c, b.chain);
    var q := OnStatus(b.chain, a.Height()).value;
    assert q == Request(|b.chain.headers|, a.Height()) && RangeEnd(a, q) == a.Height();
    StuckRange(c, b, a, i, |b.chain.headers|, |a.blocks|);
  }

  /**
   One exchange with a node that is ahead brings `b` level if and only if that node is below the
   largest height, where it never answers, and the missing blocks all verify.
   */
  lemma CatchUpIff(c: Suite, a: Chain, b: Node)
    requires ChainOk(c, a) && ChainOk(c, b.chain) && b.chain.headers < a.headers
    ensures |a.blocks| == |a.headers| >= 1 && OnStatus(b.chain, a.Height()).Some?
    ensures var answer := Answer(a, OnStatus(b.chain, a.Height()).value);
            && (answer.Some? ==> ReceiveAll(c, b, answer.value).Reaction?)
            && (answer.Some? && ReceiveAll(c, b, answer.value).n.chain.headers == a.headers
                <==> a.Height() < MAX_UINT32 && Relayable(c, a, |b.chain.headers|, |a.headers|))
  {
    hide ReceiveAll, ChainOk, VerifyBlock, Answer;
    HeadersNonEmpty(c, a);
    HeadersNonEmpty(c, b.chain);
    if Relayable(c, a, |b.chain.headers|, |a.headers|) {
      CatchUp(c, b.chain, a, b, a.Height());
      var answer := Answer(a, OnStatus(b.chain, a.Height()).value);
      if answer.Some? {
        HeadersNonEmpty(c, ReceiveAll(c, b, answer.value).n.chain);
      }
    } else {
      var i :| |b.chain.headers| <= i < |a.headers| && !VerifyBlock(c, a.blocks[i]);
      AnswerStuck(c, a, b, i);
    }
  }

  // ---------- The uint32 range loop ----------

  /** The loop counter after `k` increments. */
  function Counter(from: uint32, k: nat): uint32 {
    WrapU32(from + k)
  }

  /** `for height := from; height <= end; height++` ends exactly when `end` is below the largest uint32. */
  lemma RangeLoopEndsIff(from: uint32, end: uint32)
    ensures (exists k: nat :: Counter(from, k) > end) <==> end < MAX_UINT32
  {
    if end < MAX_UINT32 {
      if from > end {
        assert Counter(from, 0) > end;
      } else {
        assert Counter(from, end + 1 - from) > end;
      }
    }
  }
}
