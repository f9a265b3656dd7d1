/** Transactions, blocks and headers as values, and what hashing, signing and verifying do to them. */
module Entities {
  import opened Basics

  /** Digests and addresses; zero is the all-zero array that marks an empty hash cache. */
  type Hash = nat
  type Address = nat
  type PublicKey = seq<byte>
  type PrivateKey = nat

  datatype Signature = Signature(r: int, s: int)

  const COINBASE: PublicKey := []
  const COINBASE_ADDRESS: Address := 0x996fb92427ae41e4649b934ca495991b7852b855

  datatype Semester = Semester(number: int, sgpa: real)
  datatype Student = Student(id: string, paidDues: bool, semesters: seq<Semester>, cgpa: real)

  const STUDENT_CREATE: byte := 0
  const STUDENT_UPDATE: byte := 1
  const STUDENT_DELETE: byte := 2

  datatype Inner =
    | NoInner
    | Collection(fee: int, metaData: seq<byte>)
    | Mint(fee: int, nft: Hash, collection: Hash, metaData: seq<byte>, owner: PublicKey, sig: Signature)
    | StudentOp(kind: byte, id: string, student: Option<Student>, fee: int)
    | Unsupported

  /** The fields of a transaction that its hash covers. */
  datatype Payload = Payload(
    inner: Inner, data: seq<byte>, to: PublicKey, value: uint64, from: PublicKey, nonce: int)

  datatype Transaction = Transaction(payload: Payload, signature: Option<Signature>, cached: Hash)

  datatype Header = Header(version: uint32, dataHash: Hash, prevHash: Hash, height: uint32, timestamp: int)

  datatype Block = Block(
    header: Header, transactions: seq<Transaction>,
    validator: PublicKey, signature: Option<Signature>, cached: Hash)

  /**
   The library functions the node relies on: a digest, the encodings it is applied to, and
   signatures. They are parameters; a lemma states whatever it needs to know about them.
   */
  datatype Suite = Suite(
    digest: seq<byte> -> Hash,
    headerBytes: Header -> seq<byte>,
    payloadBytes: Payload -> seq<byte>,
    encodeTx: Transaction -> seq<byte>,
    hashBytes: Hash -> seq<byte>,
    address: PublicKey -> Address,
    publicKey: PrivateKey -> PublicKey,
    sign: (PrivateKey, nat, seq<byte>) -> Option<Signature>,
    verify: (PublicKey, seq<byte>, Signature) -> bool)
  {
    function HeaderHash(h: Header): Hash {
      digest(headerBytes(h))
    }
  }

  ghost predicate CollisionFree(c: Suite) {
    forall x, y :: c.digest(x) == c.digest(y) ==> x == y
  }

  ghost predicate NonEmptyEncodings(c: Suite) {
    forall tx :: |c.encodeTx(tx)| > 0
  }

  ghost predicate InjectiveHeaders(c: Suite) {
    forall h, k :: c.headerBytes(h) == c.headerBytes(k) ==> h == k
  }

  /** A signature verifies under the matching public key. */
  ghost predicate SignaturesVerify(c: Suite) {
    forall k, r, msg :: c.sign(k, r, msg).Some? ==>
      c.verify(c.publicKey(k), msg, c.sign(k, r, msg).value)
  }

  /** A signature verifies under no other key and for no other message. */
  ghost predicate SignaturesBind(c: Suite) {
    forall k, r, msg, pk, other ::
      c.sign(k, r, msg).Some? && c.verify(pk, other, c.sign(k, r, msg).value) ==> pk == c.publicKey(k) && other == msg
  }

  ghost predicate InjectiveHashBytes(c: Suite) {
    forall g, h :: c.hashBytes(g) == c.hashBytes(h) ==> g == h
  }

  // ---------- Transactions ----------

  /** The cached hash, or the computed one while the cache is empty. */
  function TxId(c: Suite, tx: Transaction): Hash {
    if tx.cached == 0 then c.digest(c.payloadBytes(tx.payload)) else tx.cached
  }

  /** The transaction as a call to its hash leaves it. */
  function Fill(c: Suite, tx: Transaction): (f: Transaction)
    ensures TxId(c, f) == TxId(c, tx) == f.cached
    ensures f.payload == tx.payload && f.signature == tx.signature
  {
    tx.(cached := TxId(c, tx))
  }

  predicate Filled(c: Suite, tx: Transaction) {
    tx.cached == TxId(c, tx)
  }

  function SignTx(c: Suite, tx: Transaction, k: PrivateKey, r: nat): Option<Transaction> {
    var f := Fill(c, tx);
    match c.sign(k, r, c.hashBytes(f.cached))
    case None => None
    case Some(sig) => Some(Transaction(f.payload.(from := c.publicKey(k)), Some(sig), f.cached))
  }

  predicate VerifyTx(c: Suite, tx: Transaction) {
    tx.signature.Some? && c.verify(tx.payload.from, c.hashBytes(TxId(c, tx)), tx.signature.value)
  }

  /**
   A signed transaction verifies while its cached hash is kept, and even after the cache is
   cleared if the sender was already set when it was signed.
   */
  lemma SignedTxVerifies(c: Suite, tx: Transaction, k: PrivateKey, r: nat)
    requires SignaturesVerify(c) && SignTx(c, tx, k, r).Some?
    ensures var s := SignTx(c, tx, k, r).value;
            && (s.cached != 0 ==> VerifyTx(c, s))
            && (tx.payload.from == c.publicKey(k) && tx.cached == 0 ==>
                  VerifyTx(c, s) && VerifyTx(c, s.(cached := 0)))
  {
    var msg := c.hashBytes(TxId(c, tx));
    assert c.verify(c.publicKey(k), msg, c.sign(k, r, msg).value);
  }

  /**
   Verification reads the payload through the cache: once a hash is cached, the verdict depends on
   the sender and on that hash alone. It is the verdict on the payload itself if the cached hash is
   the computed one.
   */
  lemma VerdictReadsCache(c: Suite, tx: Transaction, other: Payload)
    requires tx.cached != 0
    ensures other.from == tx.payload.from ==> VerifyTx(c, tx.(payload := other)) == VerifyTx(c, tx)
    ensures tx.cached == c.digest(c.payloadBytes(tx.payload)) ==> VerifyTx(c, tx) == VerifyTx(c, tx.(cached := 0))
  {
  }

  /** What `AfterVerify` is, entry by entry: filled while everything before verifies and a signature is there. */
  lemma AfterVerifyAt(c: Suite, txs: seq<Transaction>, i: nat)
    requires i < |txs|
    ensures |AfterVerify(c, txs)| == |txs|
    ensures AfterVerify(c, txs)[i] ==
            if (forall j :: 0 <= j < i ==> VerifyTx(c, txs[j])) && txs[i].signature.Some?
            then
              txs[i].(cached := if txs[i].cached == 0 then c.digest(c.payloadBytes(txs[i].payload)) else txs[i].cached)
            else txs[i]
  {
    var k := GoodPrefix(c, txs);
    if i <= k {
      forall j | 0 <= j < i ensures VerifyTx(c, txs[j]) {
        assert txs[..k][j] == txs[j];
      }
      assert i < k ==> txs[..k][i] == txs[i];
    }
  }

  /** A transaction object, whose hash cache fills in place. */
  class TransactionObject {
    const c: Suite
    var payload: Payload
    var signature: Option<Signature>
    var cached: Hash

    ghost function Value(): Transaction
      reads this
    {
      Transaction(payload, signature, cached)
    }

    constructor (c: Suite, payload: Payload)
      ensures this.c == c && Value() == Transaction(payload, None, 0)
    {
      this.c, this.payload, this.signature, this.cached := c, payload, None, 0;
    }

    method Hash() returns (h: nat)
      modifies this`cached
      ensures h == TxId(c, old(Value())) && Value() == Fill(c, old(Value()))
    {
      if cached == 0 {
        cached := c.digest(c.payloadBytes(payload));
      }
      h := cached;
    }

    /** On failure only the cache has changed. */
    method Sign(k: PrivateKey, r: nat) returns (ok: bool)
      modifies this
      ensures ok <==> SignTx(c, old(Value()), k, r).Some?
      ensures Value() == if ok then SignTx(c, old(Value()), k, r).value else Fill(c, old(Value()))
    {
      var h := Hash();
      var sig := c.sign(k, r, c.hashBytes(h));
      if sig.None? { return false; }
      payload := payload.(from := c.publicKey(k));
      signature := sig;
      ok := true;
    }

    method Verify() returns (ok: bool)
      modifies this`cached
      ensures ok <==> VerifyTx(c, old(Value()))
      ensures Value() == if signature.None? then old(Value()) else Fill(c, old(Value()))
    {
      if signature.None? { return false; }
      var h := Hash();
      ok := c.verify(payload.from, c.hashBytes(h), signature.value);
    }
  }

  // ---------- Lists of transactions ----------

  function FillAll(c: Suite, txs: seq<Transaction>): (fs: seq<Transaction>)
    ensures |fs| == |txs|
    ensures forall i :: 0 <= i < |txs| ==> fs[i] == Fill(c, txs[i])
  {
    seq(|txs|, i requires 0 <= i < |txs| => Fill(c, txs[i]))
  }

  predicate AllFilled(c: Suite, txs: seq<Transaction>) {
    forall i :: 0 <= i < |txs| ==> Filled(c, txs[i])
  }

  predicate AllVerify(c: Suite, txs: seq<Transaction>) {
    forall i :: 0 <= i < |txs| ==> VerifyTx(c, txs[i])
  }

  /** How many leading transactions verify. */
  function GoodPrefix(c: Suite, txs: seq<Transaction>): (k: nat)
    ensures k <= |txs| && AllVerify(c, txs[..k])
    ensures k < |txs| ==> !VerifyTx(c, txs[k])
  {
    if txs == [] || !VerifyTx(c, txs[0]) then 0
    else
      var k := GoodPrefix(c, txs[1..]);
      assert forall i :: 0 < i <= k ==> txs[i] == txs[1..][..k][i - 1];
      1 + k
  }

  /** The caches a block's verification fills before it stops at the first bad transaction. */
  function AfterVerify(c: Suite, txs: seq<Transaction>): seq<Transaction> {
    var k := GoodPrefix(c, txs);
    if k == |txs| then
      FillAll(c, txs)
    else
      var stopped := if txs[k].signature.None? then txs[k] else Fill(c, txs[k]);
      FillAll(c, txs[..k]) + [stopped] + txs[k + 1..]
  }

  /** The buffer a data hash is computed from. */
  function EncodeAll(c: Suite, txs: seq<Transaction>): seq<byte> {
    if txs == [] then [] else EncodeAll(c, txs[..|txs| - 1]) + c.encodeTx(txs[|txs| - 1])
  }

  function DataHash(c: Suite, txs: seq<Transaction>): Hash {
    c.digest(EncodeAll(c, txs))
  }

  method CalculateDataHash(c: Suite, txs: seq<Transaction>) returns (hash: Hash)
    ensures hash == DataHash(c, txs)
  {
    var buf: seq<byte> := [];
    for i := 0 to |txs|
      invariant buf == EncodeAll(c, txs[..i])
    {
      assert txs[..i + 1][..i] == txs[..i];
      buf := buf + c.encodeTx(txs[i]);
    }
    assert txs[..|txs|] == txs;
    hash := c.digest(buf);
  }

  // ---------- Blocks ----------

  function BlockId(c: Suite, b: Block): Hash {
    if b.cached == 0 then c.HeaderHash(b.header) else b.cached
  }

  predicate SignedHeader(c: Suite, b: Block) {
    b.signature.Some? && c.verify(b.validator, c.headerBytes(b.header), b.signature.value)
  }

  predicate VerifyBlock(c: Suite, b: Block) {
    && SignedHeader(c, b)
    && AllVerify(c, b.transactions)
    && DataHash(c, FillAll(c, b.transactions)) == b.header.dataHash
  }

  /** The block as `Verify` leaves it: transaction caches filled, and its own if the data hash is wrong. */
  function VerifiedBlock(c: Suite, b: Block): Block {
    if !SignedHeader(c, b) then b
    else
      var b' := b.(transactions := AfterVerify(c, b.transactions));
      if AllVerify(c, b.transactions) && !VerifyBlock(c, b) then b'.(cached := BlockId(c, b)) else b'
  }

  method VerifyAll(c: Suite, txs: seq<Transaction>) returns (ok: bool, txs': seq<Transaction>)
    ensures ok == AllVerify(c, txs) && txs' == AfterVerify(c, txs)
    ensures ok ==> txs' == FillAll(c, txs)
  {
    var done: seq<Transaction> := [];
    ghost var k := GoodPrefix(c, txs);
    for i := 0 to |txs|
      invariant i <= k && done == FillAll(c, txs[..i])
    {
      assert i < k ==> txs[..k][i] == txs[i];
      if txs[i].signature.None? {
        return false, done + [txs[i]] + txs[i + 1..];
      }
      var tx := Fill(c, txs[i]);
      if !c.verify(tx.payload.from, c.hashBytes(tx.cached), tx.signature.value) {
        return false, done + [tx] + txs[i + 1..];
      }
      done := done + [tx];
    }
    assert txs[..|txs|] == txs;
    return true, done;
  }

  lemma FillAllIdempotent(c: Suite, txs: seq<Transaction>)
    ensures FillAll(c, FillAll(c, txs)) == FillAll(c, txs)
    ensures AllFilled(c, FillAll(c, txs))
    ensures AllFilled(c, txs) <==> FillAll(c, txs) == txs
  {
    if FillAll(c, txs) == txs {
      forall i | 0 <= i < |txs| ensures Filled(c, txs[i]) {
        assert FillAll(c, txs)[i] == Fill(c, txs[i]);
      }
    }
  }

  method Verify(c: Suite, b: Block) returns (ok: bool, b': Block)
    ensures ok == VerifyBlock(c, b)
    ensures b' == VerifiedBlock(c, b)
    ensures ok ==> b' == b.(transactions := FillAll(c, b.transactions))
  {
    if b.signature.None? || !c.verify(b.validator, c.headerBytes(b.header), b.signature.value) {
      return false, b;
    }
    var txs;
    ok, txs := VerifyAll(c, b.transactions);
    b' := b.(transactions := txs);
    if ok {
      var dataHash := CalculateDataHash(c, txs);
      if dataHash != b.header.dataHash {
        return false, b'.(cached := BlockId(c, b));
      }
    }
  }

  /** The next block on `prev`: the uint32 height wraps, the hashes are those of the parent and the list. */
  function NextBlock(c: Suite, prev: Header, txs: seq<Transaction>, now: int): Block {
    Block(Header(1, DataHash(c, txs), c.HeaderHash(prev), WrapU32(prev.height + 1), now), txs, [], None, 0)
  }

  function SignBlock(c: Suite, b: Block, k: PrivateKey, r: nat): Option<Block> {
    match c.sign(k, r, c.headerBytes(b.header))
    case None => None
    case Some(sig) => Some(b.(validator := c.publicKey(k), signature := Some(sig)))
  }

  // ---------- Encodings separate a list from its proper sublists ----------

  /** `a` is obtained from `b` by deleting elements. */
  predicate Subsequence<T(==)>(a: seq<T>, b: seq<T>) {
    if a == [] then true
    else if b == [] then false
    else if a[|a| - 1] == b[|b| - 1] then Subsequence(a[..|a| - 1], b[..|b| - 1])
    else Subsequence(a, b[..|b| - 1])
  }

  lemma {:induction false} SubsequenceSnoc<T>(a: seq<T>, b: seq<T>, x: T)
    requires Subsequence(a, b)
    ensures Subsequence(a, b + [x]) && Subsequence(a + [x], b + [x])
    decreases |b|, 1
  {
    assert (b + [x])[..|b|] == b && (a + [x])[..|a|] == a;
    if a != [] && a[|a| - 1] == x {
      SubsequenceInit(a, b);
    }
  }

  lemma {:induction false} SubsequenceInit<T>(a: seq<T>, b: seq<T>)
    requires a != [] && Subsequence(a, b)
    ensures Subsequence(a[..|a| - 1], b)
    decreases |b|, 0
  {
    var a', b' := a[..|a| - 1], b[..|b| - 1];
    if a[|a| - 1] == b[|b| - 1] {
      SubsequenceSnoc(a', b', b[|b| - 1]);
      assert b' + [b[|b| - 1]] == b;
    } else {
      SubsequenceInit(a, b');
      SubsequenceSnoc(a', b', b[|b| - 1]);
      assert b' + [b[|b| - 1]] == b;
    }
  }

  lemma {:induction false} SublistEncodesShorter(c: Suite, a: seq<Transaction>, b: seq<Transaction>)
    requires NonEmptyEncodings(c) && Subsequence(a, b)
    ensures |EncodeAll(c, a)| <= |EncodeAll(c, b)|
    ensures |EncodeAll(c, a)| == |EncodeAll(c, b)| ==> a == b
    decreases |b|
  {
    if b != [] {
      var b' := b[..|b| - 1];
      assert b == b' + [b[|b| - 1]];
      if a != [] && a[|a| - 1] == b[|b| - 1] {
        assert a == a[..|a| - 1] + [a[|a| - 1]];
        SublistEncodesShorter(c, a[..|a| - 1], b');
      } else {
        SublistEncodesShorter(c, a, b');
      }
    }
  }
}
