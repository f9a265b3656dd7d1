/** The server object: message handlers and the block tick over one blockchain and one pool. */
module ServerObject {
  import opened Basics
  import opened Entities
  import L = Ledger
  import Ch = Chains
  import M = Mempool
  import N = Nodes
  import BC = BlockchainObject
  import TxPool

  class Server {
    const c: Suite
    const chain: BC.Blockchain
    const mempool: TxPool.Pool
    ghost const Repr: set<object>

    ghost predicate Valid()
      reads this, chain, chain.accountState, chain.contractState, mempool, mempool.Repr
    {
      && Repr == {chain, chain.accountState, chain.contractState} + mempool.Repr
      && {chain as object, chain.accountState, chain.contractState} !! mempool.Repr
      && mempool !in Repr && this !in Repr
      && chain.c == c && mempool.c == c && mempool.maxLength != 0
      && mempool.Valid() && N.NodeOk(c, View())
    }

    ghost function View(): N.Node
      reads this, chain, chain.accountState, chain.contractState, mempool, mempool.Repr
      requires mempool.Valid()
    {
      N.Node(chain.View(), mempool.View())
    }

    /** A node starts from its own genesis block and a pool of a thousand transactions. */
    constructor (c: Suite, nonce: int, validator: PublicKey, sig: Signature)
      ensures Valid() && fresh(Repr) && this.c == c
      ensures View() == N.Node(L.NewBlockchain(c, L.GenesisBlock(nonce, validator, sig)).ch, M.Pool([], [], 1000))
    {
      hide L.AddWithoutValidation, L.GenesisBlock, N.NodeOk, Ch.ChainOk, M.PoolOk;
      N.FreshNodeOk(c, nonce, validator, sig);
      this.c := c;
      var bc, _ := BC.Blockchain.New(c, L.GenesisBlock(nonce, validator, sig));
      var pool := new TxPool.Pool(c, 1000);
      chain := bc;
      mempool := pool;
      Repr := {bc, bc.accountState, bc.contractState} + pool.Repr;
    }

    /** Takes a stored block's transactions out of the pool, one by one. */
    method RemoveAll(txs: seq<Transaction>)
      requires mempool.Valid() && mempool.c == c && AllFilled(c, txs)
      modifies mempool.Repr
      ensures mempool.Valid() && mempool.View() == M.RemoveAll(old(mempool.View()), txs)
    {
      for i := 0 to |txs|
        invariant mempool.Valid() && mempool.View() == M.RemoveAll(old(mempool.View()), txs[..i])
      {
        assert txs[..i + 1][..i] == txs[..i];
        mempool.Remove(TxId(c, txs[i]));
      }
      assert txs[..|txs|] == txs;
    }

    /** `ok` is false if the block's code panicked; `sent` is what is broadcast. */
    method ProcessBlock(b: Block) returns (ok: bool, sent: seq<Block>)
      requires Valid()
      modifies Repr
      ensures var r := N.Receive(c, old(View()), b);
              && (ok <==> r.Reaction?)
              && (ok ==> Valid() && View() == r.n && sent == r.sent)
    {
      hide L.AddBlock, Ch.ChainOk, M.PoolOk;
      ghost var before := View();
      var verified, b1 := Verify(c, b.(cached := BlockId(c, b)));
      if !verified { return true, []; }
      var e, b' := chain.AddBlock(b1);
      match e
      case Refused(_) => return true, [];
      case Broken => return false, [];
      case Accepted =>
        N.ReceiveKeepsOk(c, before, b);
        Ch.AddBlockKeepsOk(c, before.chain, b1);
        StoredIsFilled(c, chain.View(), |before.chain.blocks|);
        RemoveAll(b'.transactions);
        return true, [N.Wire(b')];
    }

    static lemma StoredIsFilled(c: Suite, ch: L.Chain, i: nat)
      requires Ch.ChainOk(c, ch) && i < |ch.blocks|
      ensures AllFilled(c, ch.blocks[i].transactions)
    {
      assert Ch.StoredBlock(c, ch.blocks[i], i);
    }

    /** Works the list off in order, going on after blocks that are bad or already known. */
    method ProcessBlocks(bs: seq<Block>) returns (ok: bool, sent: seq<Block>)
      requires Valid()
      modifies Repr
      ensures var r := N.ReceiveAll(c, old(View()), bs);
              && (ok <==> r.Reaction?)
              && (ok ==> Valid() && View() == r.n && sent == r.sent)
    {
      hide N.Receive, N.NodeOk;
      sent := [];
      ghost var before := View();
      for i := 0 to |bs|
        invariant Valid() && N.ReceiveAll(c, before, bs[..i]) == N.Reaction(View(), sent)
      {
        assert bs[..i + 1][..i] == bs[..i];
        var fine, more := ProcessBlock(bs[i]);
        if !fine {
          N.DeathIsFinal(c, before, bs, i + 1);
          return false, [];
        }
        sent := sent + more;
      }
      assert bs[..|bs|] == bs;
      ok := true;
    }

    /** `ok` is false if the transaction does not verify; `sent` is what is broadcast. */
    method ProcessTransaction(tx: Transaction) returns (ok: bool, sent: Option<Transaction>)
      requires Valid()
      modifies mempool.Repr
      ensures Valid() && N.Submit(c, old(View()), tx) == Some(View())
      ensures var known := M.Has(old(View()).pool.all, tx.cached);
              && (ok <==> known || VerifyTx(c, tx))
              && sent == if known || !ok then None else Some(Fill(c, tx))
    {
      hide Ch.ChainOk, M.PoolOk;
      N.SubmitWorks(c, View(), tx);
      var known := mempool.Contains(tx.cached);
      if known { return true, None; }
      if tx.signature.None? || !c.verify(tx.payload.from, c.hashBytes(TxId(c, tx)), tx.signature.value) {
        return false, None;
      }
      var _ := mempool.Add(tx);
      return true, Some(Fill(c, tx));
    }

    /** The block built on the tip from everything pending, signed. */
    method BuildCandidate(k: PrivateKey, now: int, r: nat) returns (b: Option<Block>)
      requires Valid()
      ensures View().chain.headers != [] && b == N.Candidate(c, View(), k, now, r)
    {
      hide Ch.ChainOk, M.PoolOk, AllVerify;
      N.HeadersNonEmpty(c, View().chain);
      var height := chain.Height();
      var tip := chain.GetHeader(height);
      var txx := mempool.Pending();
      var dataHash := CalculateDataHash(c, txx);
      var header := Header(1, dataHash, c.HeaderHash(tip.value), WrapU32(tip.value.height + 1), now);
      var sig := c.sign(k, r, c.headerBytes(header));
      b := if sig.None? then None else Some(Block(header, txx, c.publicKey(k), sig, 0));
    }

    /** The tick of a node with a key: build on the tip, sign, add, clear the pool, broadcast. */
    method CreateNewBlock(k: PrivateKey, now: int, r: nat) returns (ok: bool, sent: seq<Block>)
      requires Valid()
      modifies Repr
      ensures old(View()).chain.headers != []
      ensures var p := N.Produce(c, old(View()), k, now, r);
              && (ok <==> p.Reaction?)
              && (ok ==> Valid() && View() == p.n && sent == p.sent)
    {
      hide L.AddBlock, Ch.ChainOk, M.PoolOk, N.Candidate;
      ghost var before := View();
      var b := BuildCandidate(k, now, r);
      if b.None? { return true, []; }
      var e, b' := chain.AddBlock(b.value);
      match e
      case Refused(_) => return true, [];
      case Broken => return false, [];
      case Accepted =>
        N.ProduceKeepsOk(c, before, k, now, r);
        mempool.ClearPending();
        return true, [N.Wire(b')];
    }

    // ---------- Catching up ----------

    method ProcessGetStatus() returns (height: uint32)
      requires Valid()
      ensures height == |View().chain.headers| - 1
    {
      height := chain.Height();
    }

    method ProcessStatus(advertised: uint32) returns (q: Option<N.Request>)
      requires Valid()
      ensures q == N.OnStatus(View().chain, advertised)
      ensures q.Some? ==> q.value.from == |View().chain.headers| <= q.value.to == advertised
    {
      var height := chain.Height();
      q := if height < advertised then Some(N.Request(WrapU32(height + 1), advertised)) else None;
    }

    /** The range loop: its counter is a uint32, so `None`, never returning, is the range up to the largest. */
    method CollectRange(from: uint32, end: uint32) returns (r: Option<seq<Block>>)
      requires chain.Valid() && |chain.blocks| == |chain.headers|
      requires from < |chain.headers| && end < |chain.headers|
      ensures r == if end == MAX_UINT32 then None
                   else Some(N.WireAll(if from <= end then chain.blocks[from..end + 1] else []))
    {
      hide Ch.ChainOk;
      if end == MAX_UINT32 { return None; }
      var bs: seq<Block> := [];
      var height := from;
      while height <= end
        invariant from <= height && (if from <= end then height <= end + 1 else height == from)
        invariant bs == N.WireAll(chain.blocks[from..height])
        decreases end + 1 - height
      {
        var b := chain.GetBlock(height);
        if b.Some? {
          assert chain.blocks[from..height + 1] == chain.blocks[from..height] + [b.value];
          bs := bs + [N.Wire(b.value)];
        }
        height := WrapU32(height + 1);
      }
      assert from > end ==> bs == [];
      r := Some(bs);
    }

    /** `None` is the loop that does not end. */
    method ProcessGetBlocks(q: N.Request) returns (r: Option<seq<Block>>)
      requires Valid()
      ensures |View().chain.blocks| == |View().chain.headers| >= 1
      ensures r == N.Answer(View().chain, q)
    {
      hide Ch.ChainOk, M.PoolOk, AllVerify;
      N.HeadersNonEmpty(c, View().chain);
      var ourHeight := chain.Height();
      var endHeight := q.to;
      if endHeight == 0 { endHeight := ourHeight; }
      if endHeight > ourHeight { endHeight := ourHeight; }
      if q.from > ourHeight { return Some([]); }
      r := CollectRange(q.from, endHeight);
    }
  }
}
