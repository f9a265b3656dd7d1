# A verified model of the local blockchain node

This project models a small proof-of-authority blockchain node in Dafny and proves what its
operations keep, over every input, every run and every reachable state of the network. The node
keeps a ledger (accounts, NFT collections and mints, student records, contract data), executes
bytecode on a small virtual machine, holds a mempool, and replicates its chain to peers.

`dafny verify dfyconfig.toml` checks everything.

## How it is organised

| file | what it holds |
|---|---|
| `Basics.dfy` | machine-width integers and explicit wrap-around |
| `QueueMachine.dfy` | the meaning of a contract program: a FIFO-queue machine over mathematical integers; assembler and disassembler; the arithmetic bound |
| `ContractStore.dfy` | 64-bit little-endian values and the effect of a write log on the contract store |
| `BytePrograms.dfy` | what each literal byte of a program does; two whole programs down to the stored bytes |
| `Vm.dfy` | the objects `Stack`, `State` and `VM`, proved to refine the queue machine |
| `Entities.dfy` | transactions, headers and blocks; caches, signing, verification, data hash |
| `Accounts.dfy`, `Supply.dfy` | balances and transfers under uint64 wrap-around; the money supply of whole executions |
| `Ledger.dfy` | the ledger as a state machine on values |
| `Execution.dfy` | theorems about executing any list of transactions: conservation, panics, drops, replay, student records, mints |
| `Chains.dfy` | chain invariant, the four views, stored blocks, and theorems about every chain grown from a genesis block |
| `Effects.dfy` | what one transaction does in full, and contract data and student records of whole executions and chains |
| `Signatures.dfy` | which blocks are accepted, what stored blocks are signed with, and what one signature admits |
| `Blockchain.dfy` | the `Blockchain` object, updated in place, proved against `Ledger.dfy` |
| `Mempool.dfy`, `TxPool.dfy` | the pool as two lists, and the objects `List`, `TxSortedMap` and `Pool` proved against it |
| `Nodes.dfy`, `Server.dfy` | what one node does on each tick and message, and the `Server` object proved against it |
| `Network.dfy`, `Convergence.dfy`, `Lookups.dfy`, `Progress.dfy` | the replication protocol as a state machine; agreement on headers and on state; lookups; that it can move |
| `Exchanges.dfy` | the handlers of a node as runs of the network, and catching up by any number of blocks |
| `Histories.dfy` | every reachable state as one execution of what the producer put into blocks |
| `LateArrivals.dfy` | transactions that reach the producer between the check and the commit of its own block |
| `Witnesses.dfy` | inputs, reachable from genesis, at which promises that do not always hold fail |

Mutable parts of the source are classes whose methods are proved against a function of the old
state; the theorems are about those functions.

## What is assumed

Digests, encodings, addresses and signatures are fields of a record `Suite` and otherwise arbitrary.
A lemma that needs to know something about them says so: `CollisionFree`, `InjectiveHeaders`,
`InjectiveHashBytes`, `NonEmptyEncodings`, `SignaturesVerify`, `SignaturesBind` (a signature verifies for
one key and one message only), that the address of the empty public key is the coinbase
constant, and `NoCoinbaseKey`: that no other key has this address and nothing verifies under the empty
key. Hashes are natural numbers, so that a collision-free digest exists;
`Progress.AssumptionsAreConsistent` exhibits a setup that meets every hypothesis of the agreement,
lookup, signature and supply theorems at once. Time and signing
randomness are parameters. A panic of the virtual machine is an outcome of its own; a run of blocks
or of the network stops at one. Encoding a value and decoding it at a peer gives the value back,
except for a block's cached hash, which is not transmitted.

## Findings

- A program's operand bytes are executed too. A program that runs to its end keeps its meaning when
  assembled if and only if no operand lies in 0x0a..0x0f (`QueueMachine.AssembleKeepsMeaningIff`); an
  example that does not is `QueueMachine.OperandInOpcodeRangeDiverges`. A program that panics needs this
  only up to the panic (`QueueMachine.AssembleKeepsPanic`, `QueueMachine.PanicDespiteOpcodeOperand`).
- The length of a key is an operand too, so the store program fails to do its work on every key of 10 to 15
  bytes (`BytePrograms.StoreProgramIff`).
- Signing covers the payload before the sender is set: a transaction whose sender was not set beforehand
  verifies only while its hash stays cached, unless the two payloads encode alike
  (`Signatures.SignatureAdmitsOnly`).
- A dropped transaction is not without effect: contract writes stay, and so does a collection or mint
  recorded before its transfer failed. Replaying the survivors reproduces balances, records and
  collections at every point exactly when no drop was a new collection (`Execution.ReplayIff`). From any
  genesis, one accepted block with a paid collection and its mint makes a chain that does not replay
  (`Witnesses.PaidCollectionBreaksReplay`).
- The supply is constant over an execution exactly when every payment meets a condition on balances and
  amount (`Supply.SupplyConstantIff`); an overdraft of the coinbase adds 2^64 to it
  (`Chains.OverdraftAddsToSupply`), which only a genesis block can carry. After genesis only the coinbase
  owns anything and nothing verifies under its empty key, so no balance ever changes again
  (`Chains.BalancesAreFrozen`, `Supply.FrozenWithoutCoinbase`).
- One transaction dropped by the producer's execution ends replication: the stored block no longer
  verifies at peers, and no follower ever holds it (`Convergence.DropStopsReplication`). A transaction
  that verifies but fails, in the first block, keeps every follower at genesis for good
  (`Witnesses.FirstDropStopsEveryone`).
- Between checking and committing its own block the producer may accept further transactions. Exactly
  these leave the pending list without being in the block or dropped, and submitting them again is
  ignored while the window of known transactions holds them (`LateArrivals.LateArrivalsAreLost`, with a run
  from any start in `Witnesses.LateArrivalIsLost`).
- The loop that answers a range request ends exactly when the last height is below the largest uint32
  (`Nodes.RangeLoopEndsIff`), so a node at that height never answers a request for all of its blocks
  (`Nodes.CatchUpIff`).
- Below that height a follower can always pass on what it holds (`Exchanges.CatchUpWithFollower`); the
  producer only while its execution dropped nothing (`Exchanges.CatchUpWithProducer`).
- Once a transaction's hash is cached, its verification depends on the sender and the cached hash only
  (`Entities.VerdictReadsCache`); what is executed is the payload that sits under it
  (`Nodes.CachedHashAdmitsPayload`).
- The student handler takes a lock that its caller already holds, so as written a block with a student
  transaction blocks itself. The model runs the handler sequentially under the caller's lock.

## Model

| member | source | states |
|---|---|---|
| `QueueMachine.AssembleRoundTripIff` | core/vm.go:77-122 | disassembling an assembled program gives it back if and only if every operand byte is outside the opcode range |
| `QueueMachine.AssembleKeepsMeaningIff` | core/vm.go:59-125 | of every program that runs to its end, the operand-then-opcode bytes have the result of the abstract FIFO interpreter if and only if no operand is in the opcode range |
| `QueueMachine.AssembleKeepsMeaning` | core/vm.go:59-125 | with operands outside the opcode range the bytes have the result of the abstract interpreter, panics included |
| `QueueMachine.AssembleKeepsPanic` | core/vm.go:77-91 | a panicking program keeps its meaning if the operands up to the panic are outside the opcode range, whatever follows |
| `QueueMachine.PanicDespiteOpcodeOperand` | core/vm.go:117-121 | a concrete panicking program with an opcode operand behind the panic keeps its meaning |
| `QueueMachine.OperandInOpcodeRangeDiverges` | core/vm.go:95-99 | a concrete program whose operand is an opcode panics although the abstract one runs |
| `QueueMachine.ArithmeticBound` | core/vm.go:30-41 | over every program each queued and each written integer lies within 255 * 64 and at most 128 pushes complete |
| `QueueMachine.ArithmeticBoundIsTight` | core/vm.go:117-121 | for every k up to 64 a byte program ends with exactly 255 * k, so the bound is attained |
| `QueueMachine.StepKeepsFunded` | core/vm.go:77-122 | every instruction keeps "the queue was paid for by the pushes made", the invariant behind the bound |
| `BytePrograms.FirstByte` | core/vm.go:59-75 | no byte at all panics, a first byte in 0x0a..0x0f panics, any other does nothing |
| `BytePrograms.NextByte` | core/vm.go:77-125 | after every program, what each literal byte 0x0a..0x0f does to the queue, when it panics, and that every other byte does nothing |
| `BytePrograms.NothingAfterPanic` | core/vm.go:59-75 | bytes behind a panic do not matter; with the two rows above this fixes the meaning of every byte string |
| `BytePrograms.StoreProgramIff` | core/vm_test.go:23 | for every key up to 125 bytes and every value, the literal pack-and-store program runs and writes exactly that value, if and only if no operand, the key's length included, is in 0x0a..0x0f |
| `BytePrograms.StoreProgramStores` | core/vm_test.go:22-32 | what it leaves in any store: the value followed by seven zero bytes under the key, and no other change |
| `BytePrograms.SubtractProgramIff` | core/vm.go:101-115 | the same for a literal program that packs a key of up to 123 bytes and subtracts |
| `BytePrograms.SubtractProgramStores` | core/vm.go:101-115 | it leaves under the key the first operand minus the second, below zero too |
| `ContractStore.SerializeRoundTrip` | core/vm.go:127-137 | serializing and deserializing any integer gives its 64-bit wrap, so every int64 back |
| `ContractStore.SerializedIsLittleEndian` | core/vm.go:127-133 | the eight bytes, least significant first, sum up to the integer modulo 2^64 |
| `ContractStore.StoredValuesAreExact` | core/vm.go:79-93 | after any program, panicking or not, a key deserializes to the exact mathematical value last computed for it, or holds what it held |
| `Vm.Stack.Push` | core/vm.go:30-33 | appends to the queue, and succeeds exactly while fewer than the initial size have ever been pushed |
| `Vm.Stack.Pop` | core/vm.go:35-41 | takes the oldest value; on an empty queue it indexes out of range or yields nil with a negative stack pointer |
| `Vm.VM.Exec` | core/vm.go:77-125 | one instruction on the shrinking slice is one step of the mathematical queue machine, contract writes included |
| `Vm.VM.Run` | core/vm.go:59-75 | the loop ends after exactly len(data) steps or panics exactly as the queue machine does, with the same contract data |
| `Vm.State.Put` | core/state.go:17-21 | sets one key |
| `Vm.State.Delete` | core/state.go:23-27 | removes one key and no other |
| `Vm.State.Get` | core/state.go:29-38 | the value, or an error if the key is missing |
| `Entities.TransactionObject.Hash` | core/transaction.go:55-60 | the cached hash, or the computed one, which is then cached |
| `Entities.TransactionObject.Sign` | core/transaction.go:62-73 | sender and signature are set over the cached hash; on failure only the cache changed |
| `Entities.TransactionObject.Verify` | core/transaction.go:75-86 | verdict on the hash read through the cache, and what is left in the cache |
| `Entities.SignedTxVerifies` | core/transaction.go:62-86 | a signed transaction verifies, also after its cache is cleared if the sender was set before signing |
| `Entities.VerdictReadsCache` | core/transaction.go:55-86 | with a cached hash the verdict depends on sender and cached hash alone, and is that on the payload if the cached hash is the computed one |
| `Entities.CalculateDataHash` | core/block.go:151-163 | digest of the concatenated encodings |
| `Entities.Verify` | core/block.go:108-133 | accepts exactly the signed blocks whose transactions all verify and hash to the data hash, and which caches it fills when it stops early |
| `Entities.AfterVerifyAt` | core/block.go:117-121 | entry by entry: a transaction's hash is cached exactly if everything before it verifies and it has a signature |
| `Entities.SublistEncodesShorter` | core/block.go:151-163 | deleting transactions from a list strictly shortens its encoding |
| `Signatures.VerifiesIffGenuine` | core/block.go:108-133 | a block verifies if and only if its validator's signature on the header and each sender's on its hash verify and the data hash is the digest of the encodings in list order |
| `Signatures.VerifyLeaves` | core/block.go:108-133 | the block as verification leaves it, in every case |
| `Signatures.VerdictIs` | core/validator.go:24-67 | each verdict of the validator, exactly when it is given, down to the library functions |
| `Signatures.AddedIs` | core/blockchain.go:276-334 | the whole outcome of submitting a block: chain, world and stored block when added, the world when its code panics, and under which hash it is filed |
| `Signatures.AddedIsGenuine` | core/blockchain.go:71-83 | every added block is signed by validator and senders and links to the tip's header |
| `Signatures.GrownIsSigned` | core/validator.go:24-67 | on every chain grown from any genesis, all blocks above it and their transactions carry verifying signatures, none under a key under which nothing verifies |
| `Signatures.ReachableIsSigned` | network/server.go:731-794 | the same of every node in every reachable state of the network |
| `Signatures.SignatureAdmitsOnly` | core/transaction.go:62-86 | the signature covers the payload before the sender is set, and admits, uncached, exactly the signer's payloads that encode alike |
| `Signatures.BlockSignatureAdmitsOnly` | core/block.go:96-115 | a block's signature admits exactly the blocks of its validator whose header encodes alike |
| `Signatures.CandidateIsGenuine` | network/server.go:589-640 | the block a node builds: version, height, parent hash, data hash, time, validator and transactions, and that it is genuine |
| `Accounts.AccountState.Transfer` | core/account_state.go:73-101 | the new accounts are the debit and credit of the specification, errors leave them alone |
| `Accounts.AccountState.CreateAccount` | core/account_state.go:36-43 | a zero account under the address, returned |
| `Accounts.AccountState.GetBalance` | core/account_state.go:61-71 | the balance, or not found |
| `Accounts.TransferSupply` | core/account_state.go:73-101 | the exact change of the sum of balances by any successful transfer: what is minted plus counted wrap-arounds |
| `Accounts.OnlyCoinbaseMints` | core/account_state.go:82-90 | a transfer that creates money is from the coinbase at balance zero |
| `Accounts.TransferKeepsSupplyIff` | core/account_state.go:82-98 | whatever the balances, a transfer keeps the supply if and only if nothing moved, or the sender had money and paid itself, or it had money and overdrew it exactly when the credit wrapped |
| `Supply.CoveredTransferIsExact` | core/account_state.go:88-98 | a covered transfer moves exactly the amount from sender to receiver and touches no other balance |
| `Supply.SupplyAccounting` | core/blockchain.go:231-274 | over every execution the supply changes by what was minted plus multiples of 2^64 |
| `Supply.SupplyExact` | core/account_state.go:82-98 | while the coinbase does not overdraw, no debit or credit wraps, the supply is constant and it bounds every balance |
| `Supply.SupplyConstantIff` | core/account_state.go:73-101 | over every execution from any balances the supply is constant at every prefix if and only if every payment meets the condition for keeping it |
| `Supply.FrozenWithoutCoinbase` | core/account_state.go:77-86 | while only the coinbase has an account and does not pay, no payment succeeds |
| `Execution.ExecConcat` | core/blockchain.go:289-307 | executing two lists in turn is executing their concatenation |
| `Execution.ExecConserves` | core/blockchain.go:291-307 | each transaction is kept or dropped exactly once and survivors keep their order |
| `Execution.ExecutesIff` | core/blockchain.go:239-247 | a list executes to its end, from any state, if and only if every program in it runs to its end |
| `Execution.DroppedEffect` | core/blockchain.go:231-302 | the whole world a dropped transaction leaves, field by field, and that it changes balances, records or collections if and only if it is a new collection |
| `Effects.AppliedIff` | core/blockchain.go:231-274 | a transaction panics exactly if its program does, and is applied exactly if its program runs and the state meets its needs: cover for the payment, a recorded collection, a record present or absent |
| `Effects.AppliedEffect` | core/blockchain.go:231-274 | what an applied transaction leaves: every balance, the records, collections and mints |
| `Effects.CoveredPayment` | core/account_state.go:88-107 | an ordinary covered payment is applied and moves exactly its amount, for any sender |
| `Effects.ContractAfter` | core/blockchain.go:239-247 | after a transaction, applied, dropped or panicking, each key holds the last integer its program wrote, or what it held |
| `Effects.StoreTransaction` | core/blockchain.go:239-247 | a transaction carrying the store program changes contract data by exactly its key and value |
| `Effects.ContractAfterAll` | core/blockchain.go:289-307 | after every execution each key holds the last integer written by any of its programs, those of dropped transactions included |
| `Effects.KeptIff` | core/blockchain.go:291-304 | over every execution the i-th transaction is kept if the state before it meets its needs and dropped if not |
| `Effects.SubmittedRecords` | core/blockchain.go:199-229 | the surviving operations on an id are exactly the submitted ones that fit the life cycle so far, and its record is what they leave |
| `Execution.CleanDropsReplay` | core/blockchain.go:289-307 | re-executing only the survivors drops nothing and reaches the same core state |
| `Execution.ReplayIff` | core/blockchain.go:289-307 | the survivors reproduce the core at every prefix if and only if no drop was a new collection |
| `Witnesses.PaidCollectionBreaksReplay` | core/blockchain.go:260-271 | from every genesis, an accepted block with a signed paid collection and its mint makes a chain whose stored blocks, re-executed, drop the mint |
| `Execution.RecordHistories` | core/blockchain.go:199-229 | each id's surviving operations follow (create update* delete)*, and its record is what they leave |
| `Execution.ExecKeepsMintsBacked` | core/blockchain.go:102-107 | every mint refers to a recorded collection, after any execution |
| `Chains.AcceptIff` | core/validator.go:24-67 | a block is accepted if and only if its height is one above the tip, it links to the tip and verifies; known if and only if not above the tip |
| `Chains.AddBlockKeepsOk` | core/blockchain.go:71-83 | an accepted block keeps linkage and the agreement of all four views and only appends |
| `Chains.RunKeepsOk` | core/blockchain.go:168-179 | over every run headers stay linked, earlier entries never change, and the uint32 height never wraps |
| `Chains.NewBlockchainOk` | core/blockchain.go:34-65 | a new chain satisfies the invariant with the genesis header alone |
| `Chains.LookupIsLatest` | core/blockchain.go:316-324 | a hash finds the last block or surviving transaction stored under it, and nothing else |
| `Chains.ChainLookup` | core/blockchain.go:117-132 | on every chain grown from genesis, with caches empty or right when submitted and no collisions, each block ever added is found in memory by its header's hash |
| `Lookups.ReachableLookup` | core/blockchain.go:117-124 | in every reachable state of the network each node finds each of its blocks in memory by its header's hash |
| `Chains.RunKeepsHonest` | core/block.go:143-149 | submitting blocks with empty or correct caches keeps every cached block hash correct |
| `Chains.StoredBlockVerifiesIff` | core/blockchain.go:289-307 | an accepted block still verifies once stored if and only if nothing was dropped from it |
| `Chains.RunReflects` | core/blockchain.go:276-334 | a chain's state is that of executing everything accepted, and its blocks hold exactly the survivors |
| `Chains.ChainReplays` | core/blockchain.go:231-307 | from genesis, re-executing the stored blocks drops nothing and gives the same balances, records and collections if no collection carried a value |
| `Chains.ChainRecords` | core/blockchain.go:95-115 | from genesis, student records are the outcome of the stored life cycles and every mint is backed |
| `Effects.ChainData` | core/blockchain.go:231-307 | on every chain from genesis, contract data is that of all programs executed and each student record is what the submitted operations that fit leave |
| `Chains.GenesisIsDeterministic` | network/server.go:706-729 | every node's own genesis gives one header and one state, whatever nonce and key it drew |
| `Effects.StartIs` | network/server.go:706-729 | the starting header and world, literally: ten million with the coinbase and nothing else |
| `Chains.ChainSupply` | core/blockchain.go:266-271 | from genesis, the supply is ten million plus mintage plus multiples of 2^64; exactly ten million while the coinbase is solvent; exactly that and frozen without a coinbase sender |
| `Chains.OverdraftAddsToSupply` | core/blockchain.go:62-63 | a genesis block, which nothing validates, with a coinbase payment above the coinbase's balance starts a chain with 2^64 more than was issued |
| `Chains.BalancesAreFrozen` | core/transaction.go:75-86 | on every chain grown from the node's own genesis, if nothing verifies under the empty key, no balance ever changes: the coinbase keeps the ten million |
| `BlockchainObject.Blockchain.Empty` | core/blockchain.go:38-61 | every state built, the coinbase account opened, no block yet |
| `BlockchainObject.Blockchain.New` | core/blockchain.go:34-65 | genesis stored unvalidated; the invariant holds unless its code panics, and the state is given then too |
| `BlockchainObject.Blockchain.HandleStudentTx` | core/blockchain.go:181-229 | the student map after create, update or delete, and the error cases |
| `BlockchainObject.Blockchain.HandleNativeNFT` | core/blockchain.go:95-115 | collections and mints under the transaction's hash, and the error cases |
| `BlockchainObject.Blockchain.HandleNativeTransfer` | core/blockchain.go:85-93 | the transfer between the two keys' addresses |
| `BlockchainObject.Blockchain.HandleTransaction` | core/blockchain.go:231-274 | the whole new state of one transaction, failing and panicking cases included |
| `BlockchainObject.Blockchain.ExecuteAll` | core/blockchain.go:289-304 | the loop over a block's transactions leaves the state and the survivors of the specification |
| `BlockchainObject.Blockchain.AddBlockWithoutValidation` | core/blockchain.go:276-334 | the four views and the state after publishing |
| `BlockchainObject.Blockchain.ValidateBlock` | core/validator.go:24-67 | the verdict, and the block as validation leaves it |
| `BlockchainObject.Blockchain.AddBlock` | core/blockchain.go:71-83 | a refused block changes nothing; an accepted one keeps the chain invariant |
| `BlockchainObject.Blockchain.Height` | core/blockchain.go:174-179 | one less than the number of headers, without wrapping |
| `BlockchainObject.Blockchain.HasBlock` | core/blockchain.go:168-170 | true exactly below the number of headers |
| `BlockchainObject.Blockchain.GetHeader` | core/blockchain.go:145-154 | the header at a height, or an error above the tip |
| `BlockchainObject.Blockchain.GetBlock` | core/blockchain.go:134-143 | the block at a height, which carries the header of that height |
| `BlockchainObject.Blockchain.GetBlockByHash` | core/blockchain.go:117-124 | succeeds in memory exactly if some stored block has the hash, with such a block |
| `BlockchainObject.Blockchain.GetTxByHash` | core/blockchain.go:156-166 | succeeds exactly if some surviving transaction has the hash, with such a transaction |
| `Mempool.CallsKeepOk` | network/txpool.go:26-59 | over any sequence of calls each list holds every transaction once, the window bound holds, and only capacity zero panics |
| `Mempool.Window` | network/txpool.go:26-37 | after any number of new arrivals `all` is the last `maxLength` of them and `pending` has lost none |
| `Mempool.AddWhenFull` | network/txpool.go:26-37 | a full window loses its oldest entry whatever is added, and only an arrival unknown to the rest enters |
| `Mempool.RemoveAllIs` | network/txpool.go:43-46 | exactly the named transactions leave both lists and the rest keep their order |
| `TxPool.List.Get` | types/list.go:18-24 | the element, or a panic out of range |
| `TxPool.List.Insert` | types/list.go:26-28 | appends |
| `TxPool.List.Clear` | types/list.go:30-32 | empties |
| `TxPool.List.GetIndex` | types/list.go:36-43 | the first occurrence, or -1 exactly if there is none |
| `TxPool.List.Remove` | types/list.go:45-51 | removes the first occurrence and nothing else |
| `TxPool.List.Pop` | types/list.go:53-55 | removes the element at an index, or panics |
| `TxPool.List.Contains` | types/list.go:57-64 | membership |
| `TxPool.TxSortedMap.First` | network/txpool.go:74-80 | the oldest transaction, or a panic when empty |
| `TxPool.TxSortedMap.Get` | network/txpool.go:82-87 | the transaction with the hash, if held |
| `TxPool.TxSortedMap.Add` | network/txpool.go:89-99 | appends unless the hash is held; map and list stay in agreement |
| `TxPool.TxSortedMap.Remove` | network/txpool.go:101-107 | removes the one entry with the hash; map and list stay in agreement |
| `TxPool.TxSortedMap.Count` | network/txpool.go:109-114 | the size of the map is the length of the list |
| `TxPool.TxSortedMap.Contains` | network/txpool.go:116-122 | whether the list holds the hash |
| `TxPool.TxSortedMap.Clear` | network/txpool.go:124-130 | empties both |
| `TxPool.Pool.Add` | network/txpool.go:26-37 | prunes a full window first, then adds a new transaction to both lists; panics exactly at capacity zero |
| `TxPool.Pool.Remove` | network/txpool.go:43-46 | removes the hash from both lists |
| `TxPool.Pool.Pending` | network/txpool.go:49-51 | the pending list in arrival order |
| `TxPool.Pool.ClearPending` | network/txpool.go:53-55 | empties pending and keeps the window |
| `TxPool.Pool.PendingCount` | network/txpool.go:57-59 | the number of pending transactions |
| `Nodes.SelfAcceptance` | network/server.go:589-680 | below the maximum height the block built from tip and pending transactions passes the node's own validator |
| `Nodes.CachedHashAdmitsPayload` | core/transaction.go:55-86 | a payload replaced under a kept cached hash, sender and signature is queued like the original, and the next block produced executes the replaced payload |
| `Nodes.ProduceConserves` | network/server.go:607-683 | every pending transaction is in the stored block, in order, or was dropped by execution, and that block is broadcast |
| `Nodes.ReceiveConserves` | network/server.go:770-773 | exactly the stored survivors leave the pool, the rest keep their order, and the stored block is relayed |
| `Nodes.CatchUp` | network/server.go:250-304 | there is an answer if and only if the advertised height is below the largest uint32, and it brings a node to at least that height on the peer's headers, even if both grew meanwhile |
| `Nodes.CatchUpIff` | network/server.go:385-450 | one exchange with a node ahead is answered and brings a node level if and only if that node's height is below the largest uint32 and the missing stored blocks all verify |
| `Nodes.AnswerIs` | network/message.go:5-9 | the answer block by block: from `From` on everything up to `To`, or everything if that is zero; none exactly if the range ends at the largest uint32 |
| `Nodes.RangeLoopEndsIff` | network/server.go:282-294 | the uint32 range loop ends if and only if its end is below the largest uint32 |
| `ServerObject.Server.constructor` | network/server.go:50-112 | a node starts from its own genesis and an empty pool of a thousand |
| `ServerObject.Server.ProcessBlock` | network/server.go:731-794 | verify, add, prune the pool, relay: the whole new node state and what is broadcast |
| `ServerObject.Server.ProcessBlocks` | network/server.go:385-453 | the loop works a list off in order and goes on after bad or known blocks |
| `ServerObject.Server.ProcessTransaction` | network/server.go:796-812 | a known transaction is ignored, one that does not verify is an error, any other enters the pool and is broadcast with its hash cached |
| `ServerObject.Server.CreateNewBlock` | network/server.go:589-704 | build, sign, add, clear pending, broadcast: the whole new node state |
| `ServerObject.Server.ProcessGetStatus` | network/server.go:814-838 | the height of the tip |
| `ServerObject.Server.ProcessStatus` | network/server.go:455-489 | asks for everything above our tip up to the advertised height, if that is ahead |
| `ServerObject.Server.CollectRange` | network/server.go:282-294 | the uint32 loop collects exactly the blocks of the range, or does not end when the range reaches the largest uint32 |
| `ServerObject.Server.ProcessGetBlocks` | network/server.go:250-304 | the answer is the requested range, clamped to our height; no answer if that reaches the largest uint32 |
| `Network.NextKeepsInv` | network/server.go:142-184 | every protocol step keeps: all chains within the producer's, all blocks in flight known to it, the producer never commits a received block |
| `Network.ReadyIsAccepted` | core/blockchain.go:71-83 | committing a separately checked block does what adding it in one step does |
| `Network.Agreement` | network/server.go:385-453 | in every reachable state all chains are linked and prefixes of the producer's, hence comparable |
| `Convergence.NothingDropped` | core/block.go:108-133 | a block that verifies at a peer holds everything the producer put into it |
| `Convergence.NextKeepsState` | network/server.go:231-248 | every protocol step keeps the followers' states equal to the producer's at their height |
| `Convergence.StateAgreement` | core/blockchain.go:231-334 | in every reachable state a node at height h has the producer's balances, students, collections, mints and contract data at h |
| `Histories.ReachableWorld` | core/blockchain.go:276-334 | in every reachable state a node at height h has the state of executing, from genesis, everything the producer put into blocks up to h |
| `Histories.ReachableData` | core/blockchain.go:199-247 | so its contract data and student records are those of all programs and operations offered up to h |
| `Convergence.ReachableSelfAcceptance` | network/server.go:636-680 | in every reachable state below the maximum height the producer's candidate passes its own check |
| `Convergence.ReachableCatchUpIff` | network/server.go:385-450 | in every reachable state one exchange brings a follower level if and only if the producer's height is below the largest uint32 and its execution dropped nothing from the missing blocks |
| `Convergence.FollowerBlockVerifies` | core/block.go:108-133 | every block above genesis that a follower holds in a reachable state verifies, so it can be passed on |
| `Convergence.DropStopsReplication` | core/blockchain.go:289-307 | once the producer dropped something from block i, no follower holds block i in any state reached afterwards |
| `Witnesses.FirstDropStopsEveryone` | core/blockchain.go:293-307 | from every start, a transaction that verifies and fails in the first block keeps all followers at genesis |
| `Progress.OneBlockReplicates` | network/server.go:589-704 | from every reachable state in which the producer can produce and a follower is level, six enabled steps bring both level one block higher |
| `Exchanges.ReceiveSteps` | network/server.go:731-794 | handling one block is its check and commit, with the same node and relayed block; not enabled exactly if the code panics |
| `Exchanges.ProduceSteps` | network/server.go:589-704 | the block tick is the proposal and its publication, with the same node, broadcast and history; not enabled exactly if the code panics |
| `Exchanges.ReceiveAllSteps` | network/server.go:385-453 | the reaction to any list of blocks, none of which panics, is a run of checks and commits of the network, with the same node, relayed blocks and history |
| `Exchanges.CatchUpSteps` | network/server.go:385-489 | from every reachable state, however many blocks are missing: status, request, answer, delivery and the checks and commits are enabled in turn, change nobody else, and bring the node level if and only if the missing blocks verify |
| `Exchanges.CatchUpWithProducer` | network/server.go:250-304 | the same run against the producer brings the node level if and only if the producer's execution dropped nothing from the missing blocks |
| `Exchanges.CatchUpWithFollower` | network/server.go:250-304 | from every reachable state below the largest height, an idle node behind a follower is brought level with it by a run of enabled steps, always |
| `LateArrivals.LateArrivalsAreLost` | network/server.go:607-683 | over every run from proposal to publication, what was pending at the proposal is stored or dropped, and exactly what arrived later is neither, is not pending, and is ignored when submitted again while known |
| `Witnesses.LateArrivalIsLost` | network/server.go:663-683 | from every start, any verifying transaction submitted between proposal and publication ends in no block |

## Left out

- Transports, peer maps, broadcast clean-up, the HTTP API, gob framing and the RPC decoder: messages are delivered abstractly.
- SHA-256, ECDSA, hex formatting and address derivation: arbitrary functions with stated assumptions.
- The persistent store: `Put` is taken to succeed, and a lookup that misses memory is reported as a miss.
- Locks and memory-level races, such as the slice `Pending` returns aliasing the list; production is one step in the mempool theorems and two in the protocol.
- Sharing of transaction and block objects between pool, block and chain: blocks and listed transactions are values, and an operation that fills a cache or overwrites a block's transactions returns the new value.
- The state of a server after a panic inside block execution: the source keeps a lock held then and cannot go on.
- `CreateAccount` after start-up and tests that write balances directly: both change the supply outside the ledger.
- More than one block producer: the code has no fork choice.
- CGPA computation, loggers, tickers, timings, `main.go`, `cmd/inspect` and mock data: nothing to prove beyond easy facts.
- The block methods `AddTransaction` and `NewBlock`: easy, and unused by the node itself beyond genesis.
- Accounts.AccountState.CreateAccount: the returned account is a value; writing a balance through the source's pointer is not modelled.
