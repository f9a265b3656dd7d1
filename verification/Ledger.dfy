/**
 The ledger as a state machine on values: what one transaction, one list of transactions and
 one submitted block do. The student handler runs under the lock its caller already holds; the
 source takes that lock a second time, which this sequential model does not reproduce.
 */
module Ledger {
  import opened Basics
  import opened Entities
  import opened Accounts
  import QM = QueueMachine
  import CS = ContractStore

  /** Everything transactions act on. */
  datatype World = World(
    accounts: Book,
    collections: map<Hash, Inner>,
    mints: map<Hash, Inner>,
    students: map<string, Option<Student>>,
    contract: CS.Store)

  /** `Failed` keeps what was done before the error; `Crashed` is a VM panic. */
  datatype TxResult = Applied(w: World) | Failed(w: World) | Crashed(w: World)

  function RunCode(w: World, data: seq<byte>): TxResult {
    if data == [] then Applied(w)
    else
      var w' := w.(contract := CS.Apply(w.contract, QM.Meaning(data).Log()));
      if QM.Meaning(data).Running? then Applied(w') else Crashed(w')
  }

  function HandleStudent(w: World, op: Inner): TxResult
    requires op.StudentOp?
  {
    if op.kind == STUDENT_CREATE then
      if op.id in w.students then Failed(w) else Applied(w.(students := w.students[op.id := op.student]))
    else if op.kind == STUDENT_UPDATE then
      if op.id !in w.students then Failed(w) else Applied(w.(students := w.students[op.id := op.student]))
    else if op.kind == STUDENT_DELETE then
      if op.id !in w.students then Failed(w) else Applied(w.(students := w.students - {op.id}))
    else Applied(w)
  }

  function HandleNFT(w: World, hash: Hash, inner: Inner): TxResult {
    match inner
    case Collection(_, _) => Applied(w.(collections := w.collections[hash := inner]))
    case Mint(_, _, collection, _, _, _) =>
      if collection in w.collections then Applied(w.(mints := w.mints[hash := inner])) else Failed(w)
    case _ => Failed(w)
  }

  function HandleTransfer(c: Suite, w: World, p: Payload): TxResult {
    match Transferred(w.accounts, c.address(p.from), c.address(p.to), p.value)
    case Moved(book) => Applied(w.(accounts := book))
    case _ => Failed(w)
  }

  /** Native assets: the NFT part first, then the value transfer. */
  function HandleNative(c: Suite, w: World, tx: Transaction): TxResult {
    var p := tx.payload;
    var nft := if p.inner.NoInner? then Applied(w) else HandleNFT(w, TxId(c, tx), p.inner);
    if !nft.Applied? || p.value == 0 then nft else HandleTransfer(c, nft.w, p)
  }

  function HandleTx(c: Suite, w: World, tx: Transaction): TxResult {
    var code := RunCode(w, tx.payload.data);
    if code.Crashed? then code
    else if tx.payload.inner.StudentOp? then HandleStudent(code.w, tx.payload.inner)
    else HandleNative(c, code.w, tx)
  }

  // ---------- A block's transactions ----------

  datatype ExecResult =
    | Executed(w: World, kept: seq<Transaction>, dropped: seq<Transaction>)
    | Aborted(w: World)

  function ExecStep(c: Suite, sofar: ExecResult, tx: Transaction): ExecResult {
    match sofar
    case Aborted(_) => sofar
    case Executed(w, kept, dropped) =>
      match HandleTx(c, w, tx)
      case Applied(w') => Executed(w', kept + [Fill(c, tx)], dropped)
      case Failed(w') => Executed(w', kept, dropped + [Fill(c, tx)])
      case Crashed(w') => Aborted(w')
  }

  /** Runs a list in order; failing transactions are skipped and dropped from the block. */
  function ExecTxs(c: Suite, w: World, txs: seq<Transaction>): ExecResult {
    if txs == [] then Executed(w, [], [])
    else ExecStep(c, ExecTxs(c, w, txs[..|txs| - 1]), txs[|txs| - 1])
  }

  // ---------- The chain ----------

  datatype Chain = Chain(
    headers: seq<Header>, blocks: seq<Block>,
    blockStore: map<Hash, Block>, txStore: map<Hash, Transaction>, world: World)
  {
    function Height(): uint32 {
      WrapU32(|headers| - 1)
    }
  }

  datatype Verdict = Accept | ErrKnown | ErrTooHigh | ErrPrevHash | ErrVerify

  /**
   The verdict, and the block as validation leaves it: only a full check touches its caches.
   Two of the source's checks can never fire and have no verdict here: the parent lookup, once
   the height is exactly one above the tip, and the data hash compared again after `Verify`.
   */
  function Validate(c: Suite, ch: Chain, b: Block): (Verdict, Block) {
    var h := b.header.height;
    if h <= ch.Height() then (ErrKnown, b)
    else if h > WrapU32(ch.Height() + 1) then (ErrTooHigh, b)
    else if c.HeaderHash(ch.headers[h - 1]) != b.header.prevHash then (ErrPrevHash, b)
    else if !VerifyBlock(c, b) then (ErrVerify, VerifiedBlock(c, b))
    else (Accept, VerifiedBlock(c, b))
  }

  function StoreTxs(store: map<Hash, Transaction>, txs: seq<Transaction>): map<Hash, Transaction> {
    if txs == [] then store
    else StoreTxs(store, txs[..|txs| - 1])[txs[|txs| - 1].cached := txs[|txs| - 1]]
  }

  datatype AddResult =
    | Added(ch: Chain, b: Block)
    | Rejected(v: Verdict, b: Block)
    | Panicked(ch: Chain)

  /** The block as it is published: only the surviving transactions, its own hash cached. */
  function Published(c: Suite, b: Block, kept: seq<Transaction>): Block {
    b.(transactions := kept, cached := BlockId(c, b))
  }

  function Extend(c: Suite, ch: Chain, b: Block, w: World): Chain {
    Chain(ch.headers + [b.header], ch.blocks + [b],
          ch.blockStore[BlockId(c, b) := b], StoreTxs(ch.txStore, b.transactions), w)
  }

  function AddWithoutValidation(c: Suite, ch: Chain, b: Block): (r: AddResult)
    ensures !r.Rejected?
  {
    match ExecTxs(c, ch.world, b.transactions)
    case Aborted(w) => Panicked(ch.(world := w))
    case Executed(w, kept, _) =>
      var b' := Published(c, b, kept);
      Added(Extend(c, ch, b', w), b')
  }

  function AddBlock(c: Suite, ch: Chain, b: Block): AddResult {
    var (v, b') := Validate(c, ch, b);
    if v != Accept then Rejected(v, b'.(cached := BlockId(c, b)))
    else AddWithoutValidation(c, ch, b')
  }

  // ---------- Start-up and runs ----------

  function InitialWorld(c: Suite): World {
    World(map[c.address(COINBASE) := Account(c.address(COINBASE), 0)], map[], map[], map[], map[])
  }

  function EmptyChain(c: Suite): Chain {
    Chain([], [], map[], map[], InitialWorld(c))
  }

  function NewBlockchain(c: Suite, genesis: Block): AddResult {
    AddWithoutValidation(c, EmptyChain(c), genesis)
  }

  /** Submitting blocks one after another; a rejected block changes nothing, a panic ends the run. */
  function Run(c: Suite, ch: Chain, bs: seq<Block>): Option<Chain> {
    if bs == [] then Some(ch)
    else
      match Run(c, ch, bs[..|bs| - 1])
      case None => None
      case Some(ch') =>
        match AddBlock(c, ch', bs[|bs| - 1])
        case Added(ch'', _) => Some(ch'')
        case Rejected(_, _) => Some(ch')
        case Panicked(_) => None
  }

  // ---------- The genesis block every node builds for itself ----------

  const GENESIS_SUPPLY: uint64 := 10_000_000
  const GENESIS_HEADER: Header := Header(1, 0, 0, 0, 0)

  function GenesisTx(nonce: int): Transaction {
    Transaction(Payload(NoInner, [], COINBASE, GENESIS_SUPPLY, COINBASE, nonce), None, 0)
  }

  /** The nonce and the signing key are random, so only the header is the same at every node. */
  function GenesisBlock(nonce: int, validator: PublicKey, sig: Signature): Block {
    Block(GENESIS_HEADER, [GenesisTx(nonce)], validator, Some(sig), 0)
  }
}
