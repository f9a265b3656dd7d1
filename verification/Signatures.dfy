/**
 What is signed and what is checked, down to the library functions: which blocks are accepted, what
 every stored block and transaction was signed with, and what one signature admits.
 */
module Signatures {
  import opened Basics
  import opened Entities
  import opened Ledger
  import opened Chains
  import opened Nodes
  import opened Network

  // ---------- Genuine blocks ----------

  /** The sender's signature verifies for the cached hash, or the payload's while none is cached. */
  ghost predicate SignedBySender(c: Suite, tx: Transaction) {
    var hash := if tx.cached == 0 then c.digest(c.payloadBytes(tx.payload)) else tx.cached;
    tx.signature.Some? && c.verify(tx.payload.from, c.hashBytes(hash), tx.signature.value)
  }

  /** The validator's signature verifies for the header. */
  ghost predicate SignedByValidator(c: Suite, b: Block) {
    b.signature.Some? && c.verify(b.validator, c.headerBytes(b.header), b.signature.value)
  }

  /** The encodings one after another, each with its hash cached. */
  function Encoded(c: Suite, txs: seq<Transaction>): seq<byte> {
    if txs == [] then []
    else
      var hash := if txs[0].cached == 0 then c.digest(c.payloadBytes(txs[0].payload)) else txs[0].cached;
      c.encodeTx(txs[0].(cached := hash)) + Encoded(c, txs[1..])
  }

  ghost predicate Genuine(c: Suite, b: Block) {
    && SignedByValidator(c, b)
    && (forall i :: 0 <= i < |b.transactions| ==> SignedBySender(c, b.transactions[i]))
    && b.header.dataHash == c.digest(Encoded(c, b.transactions))
  }

  lemma {:induction false} EncodeAllConcat(c: Suite, a: seq<Transaction>, b: seq<Transaction>)
    ensures EncodeAll(c, a + b) == EncodeAll(c, a) + EncodeAll(c, b)
    decreases |b|
  {
    if b == [] {
      assert a + b == a;
    } else {
      assert (a + b)[..|a + b| - 1] == a + b[..|b| - 1];
      EncodeAllConcat(c, a, b[..|b| - 1]);
    }
  }

  lemma EncodeOne(c: Suite, tx: Transaction)
    ensures EncodeAll(c, [tx]) == c.encodeTx(tx)
  {
    assert [tx][..0] == [];
    assert [] + c.encodeTx(tx) == c.encodeTx(tx);
  }

  /** What the data hash covers is the encodings in the order of the list. */
  lemma {:induction false} EncodedInOrder(c: Suite, txs: seq<Transaction>)
    ensures EncodeAll(c, FillAll(c, txs)) == Encoded(c, txs)
    decreases |txs|
  {
    if txs != [] {
      var first, rest := Fill(c, txs[0]), FillAll(c, txs[1..]);
      assert FillAll(c, txs) == [first] + rest;
      EncodeAllConcat(c, [first], rest);
      EncodeOne(c, first);
      EncodedInOrder(c, txs[1..]);
    }
  }

  lemma VerifiesIffGenuine(c: Suite, b: Block)
    ensures VerifyBlock(c, b) <==> Genuine(c, b)
  {
    EncodedInOrder(c, b.transactions);
    var txs := b.transactions;
    if Genuine(c, b) {
      forall i | 0 <= i < |txs| ensures VerifyTx(c, txs[i]) {
        assert SignedBySender(c, txs[i]);
      }
    }
    if AllVerify(c, txs) {
      forall i | 0 <= i < |txs| ensures SignedBySender(c, txs[i]) {
        assert VerifyTx(c, txs[i]);
      }
    }
  }

  /** Every verdict of the validator, in the order of its checks. */
  lemma VerdictIs(c: Suite, ch: Chain, b: Block)
    requires Linked(c, ch.headers)
    ensures var v, h, n := Validate(c, ch, b).0, b.header.height, |ch.headers|;
            var links := b.header.prevHash == c.digest(c.headerBytes(ch.headers[n - 1]));
            && (v == ErrKnown <==> h < n)
            && (v == ErrTooHigh <==> h > n)
            && (v == ErrPrevHash <==> h == n && !links)
            && (v == ErrVerify <==> h == n && links && !Genuine(c, b))
            && (v == Accept <==> h == n && links && Genuine(c, b))
  {
    hide VerifyBlock, Genuine;
    VerifiesIffGenuine(c, b);
    assert ch.Height() == |ch.headers| - 1;
  }

  /** Whatever is added was signed by its validator and its senders. */
  lemma AddedIsGenuine(c: Suite, ch: Chain, b: Block)
    requires ChainOk(c, ch)
    ensures AddBlock(c, ch, b).Added? ==>
      Genuine(c, b) && b.header.prevHash == c.digest(c.headerBytes(ch.headers[|ch.headers| - 1]))
  {
    hide VerifyBlock, Genuine;
    VerdictIs(c, ch, b);
  }

  lemma AfterVerifyLength(c: Suite, txs: seq<Transaction>)
    ensures |AfterVerify(c, txs)| == |txs|
  {
  }

  /**
   The block as verification leaves it: nothing without the validator's signature; otherwise hashes are
   cached while the transactions verify, and the block's own if the data hash alone is wrong.
   */
  lemma VerifyLeaves(c: Suite, b: Block)
    ensures var b', txs := VerifiedBlock(c, b), b.transactions;
            var id := if b.cached == 0 then c.digest(c.headerBytes(b.header)) else b.cached;
            var signed := (i: int) => forall j :: 0 <= j < i <= |txs| ==> SignedBySender(c, txs[j]);
            if !SignedByValidator(c, b) then b' == b
            else
              && b' == b.(transactions := b'.transactions, cached := b'.cached)
              && b'.cached == (if signed(|txs|) && !Genuine(c, b) then id else b.cached)
              && |b'.transactions| == |txs|
              && (forall i :: 0 <= i < |txs| ==>
                    b'.transactions[i] == if signed(i) && txs[i].signature.Some? then Fill(c, txs[i]) else txs[i])
  {
    hide VerifyBlock, Genuine, AfterVerify;
    var txs := b.transactions;
    VerifiesIffGenuine(c, b);
    AfterVerifyLength(c, txs);
    forall i | 0 <= i < |txs|
      ensures |AfterVerify(c, txs)| == |txs|
      ensures AfterVerify(c, txs)[i] ==
              if (forall j :: 0 <= j < i ==> SignedBySender(c, txs[j])) && txs[i].signature.Some?
              then Fill(c, txs[i]) else txs[i]
    {
      AfterVerifyAt(c, txs, i);
      assert forall j :: 0 <= j < i ==> (SignedBySender(c, txs[j]) <==> VerifyTx(c, txs[j]));
    }
    assert AllVerify(c, txs) <==> forall j :: 0 <= j < |txs| ==> SignedBySender(c, txs[j]);
  }

  /**
   What adding a block does to the chain, a panic included. It is filed under its cached hash, or
   under its header's while none is cached.
   */
  lemma AddedIs(c: Suite, ch: Chain, b: Block)
    requires ChainOk(c, ch)
    ensures var r, id := AddBlock(c, ch, b), if b.cached == 0 then c.digest(c.headerBytes(b.header)) else b.cached;
            && (r.Rejected? ==> r.b.cached == id)
            && (r.Panicked? ==> r.ch == ch.(world := ExecTxs(c, ch.world, FillAll(c, b.transactions)).w))
            && (r.Added? ==>
                  var exec := ExecTxs(c, ch.world, FillAll(c, b.transactions));
                  && exec.Executed? && r.ch.world == exec.w
                  && r.b == Block(b.header, exec.kept, b.validator, b.signature, id)
                  && r.ch.headers == ch.headers + [b.header] && r.ch.blocks == ch.blocks + [r.b]
                  && r.ch.blockStore == ch.blockStore[id := r.b])
  {
    hide VerifyBlock, ExecTxs, AfterVerify;
    AcceptIff(c, ch, b);
  }

  // ---------- Stored blocks ----------

  /** Above genesis every stored block carries its validator's signature, and its transactions their senders'. */
  lemma StoredIsSigned(c: Suite, ch: Chain, i: nat)
    requires ChainOk(c, ch) && 1 <= i < |ch.blocks|
    ensures SignedByValidator(c, ch.blocks[i])
    ensures forall tx :: tx in ch.blocks[i].transactions ==> SignedBySender(c, tx)
  {
    var b := ch.blocks[i];
    assert StoredBlock(c, b, i);
    forall tx | tx in b.transactions ensures SignedBySender(c, tx) {
      var j :| 0 <= j < |b.transactions| && b.transactions[j] == tx;
      assert VerifyTx(c, b.transactions[j]);
    }
  }

  /** Nothing verifies under the key. */
  ghost predicate Powerless(c: Suite, k: PublicKey) {
    forall m, s :: !c.verify(k, m, s)
  }

  /** On every chain grown from any genesis: all blocks above it are signed, none under a powerless key. */
  lemma GrownIsSigned(c: Suite, genesis: Block, bs: seq<Block>, txs: seq<Transaction>, ch: Chain, i: nat)
    requires Grown(c, genesis, bs, txs, ch) && 1 <= i < |ch.headers|
    ensures |ch.blocks| == |ch.headers| && ch.blocks[i].header == ch.headers[i]
    ensures SignedByValidator(c, ch.blocks[i]) && !Powerless(c, ch.blocks[i].validator)
    ensures forall tx :: tx in ch.blocks[i].transactions ==> SignedBySender(c, tx) && !Powerless(c, tx.payload.from)
  {
    hide Grown;
    GrownOk(c, genesis, bs, txs, ch);
    StoredIsSigned(c, ch, i);
  }

  /** The same of every node in every reachable state of the network. */
  lemma ReachableIsSigned(u: Setup, s: Net, id: NodeId, i: nat)
    requires Reachable(u, s) && id in s.peers && 1 <= i < |s.peers[id].node.chain.headers|
    ensures var b := s.peers[id].node.chain.blocks;
            && |b| == |s.peers[id].node.chain.headers|
            && SignedByValidator(u.c, b[i]) && !Powerless(u.c, b[i].validator)
            && forall tx :: tx in b[i].transactions ==> SignedBySender(u.c, tx) && !Powerless(u.c, tx.payload.from)
  {
    hide Reachable, Inv, ChainOk;
    Agreement(u, s, id, id);
    HeadersNonEmpty(u.c, s.peers[id].node.chain);
    StoredIsSigned(u.c, s.peers[id].node.chain, i);
  }

  // ---------- What one signature admits ----------

  /**
   A transaction signed while no hash was cached: its signature covers the payload as it was before
   the sender was set, and admits, uncached, exactly the payloads of the signer that encode like it.
   */
  lemma SignatureAdmitsOnly(c: Suite, tx: Transaction, k: PrivateKey, r: nat, other: Payload)
    requires SignaturesVerify(c) && SignaturesBind(c) && CollisionFree(c) && InjectiveHashBytes(c)
    requires tx.cached == 0 && SignTx(c, tx, k, r).Some?
    ensures var s := SignTx(c, tx, k, r).value;
            && s.payload == tx.payload.(from := c.publicKey(k))
            && s.cached == c.digest(c.payloadBytes(tx.payload))
            && (VerifyTx(c, Transaction(other, s.signature, 0)) <==>
                  other.from == c.publicKey(k) && c.payloadBytes(other) == c.payloadBytes(tx.payload))
  {
    var msg := c.hashBytes(c.digest(c.payloadBytes(tx.payload)));
    assert c.sign(k, r, msg).Some?;
  }

  /** A block's signature admits exactly the blocks of its validator whose header encodes alike. */
  lemma BlockSignatureAdmitsOnly(c: Suite, b: Block, k: PrivateKey, r: nat, other: Block)
    requires SignaturesVerify(c) && SignaturesBind(c) && SignBlock(c, b, k, r).Some?
    ensures var s := SignBlock(c, b, k, r).value;
            && s == b.(validator := c.publicKey(k), signature := s.signature)
            && (SignedByValidator(c, other.(signature := s.signature)) <==>
                  other.validator == c.publicKey(k) && c.headerBytes(other.header) == c.headerBytes(b.header))
  {
    var msg := c.headerBytes(b.header);
    assert c.sign(k, r, msg).Some?;
  }

  /** The block a node builds: everything pending, on its tip, with its own key, and genuine. */
  lemma CandidateIsGenuine(c: Suite, n: Node, k: PrivateKey, now: int, r: nat)
    requires NodeOk(c, n) && SignaturesVerify(c) && |n.chain.headers| <= MAX_UINT32
    ensures n.chain.headers != []
    ensures var hash := c.digest(Encoded(c, n.pool.pending));
            var prev := c.digest(c.headerBytes(n.chain.headers[|n.chain.headers| - 1]));
            var header := Header(1, hash, prev, |n.chain.headers|, now);
            && (Candidate(c, n, k, now, r).Some? <==> c.sign(k, r, c.headerBytes(header)).Some?)
            && (Candidate(c, n, k, now, r).Some? ==>
                  var b := Candidate(c, n, k, now, r).value;
                  && b.header == header && b.transactions == n.pool.pending && b.validator == c.publicKey(k)
                  && Genuine(c, b))
  {
    hide Genuine, VerifyBlock, AllVerify;
    HeadersNonEmpty(c, n.chain);
    EncodedInOrder(c, n.pool.pending);
    FillAllIdempotent(c, n.pool.pending);
    TipHeight(c, n);
    if Candidate(c, n, k, now, r).Some? {
      SelfAcceptance(c, n, k, now, r);
      VerdictIs(c, n.chain, Candidate(c, n, k, now, r).value);
    }
  }

  lemma TipHeight(c: Suite, n: Node)
    requires NodeOk(c, n)
    ensures n.chain.headers != [] && n.chain.headers[|n.chain.headers| - 1].height == |n.chain.headers| - 1
  {
    HeadersNonEmpty(c, n.chain);
  }
}
