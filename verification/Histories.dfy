/** In every reachable state of the network a node's state is one execution of what the producer put into blocks. */
module Histories {
  import opened Basics
  import opened Entities
  import opened Ledger
  import opened Execution
  import opened Chains
  import opened Nodes
  import opened Network
  import opened Effects
  import C = Convergence
  import CS = ContractStore

  /** Everything the producer put into its blocks below height n, in order, dropped or not. */
  function Offered(history: seq<Epoch>, n: nat): seq<Transaction>
    requires n <= |history|
  {
    if n <= 1 then [] else Offered(history, n - 1) + history[n - 1].offered
  }

  lemma {:induction false} EpochsAreExecutions(c: Suite, p: Chain, history: seq<Epoch>, n: nat)
    requires C.HistoryOk(c, p, history) && 1 <= n <= |history|
    ensures var r := ExecTxs(c, history[0].world, Offered(history, n)); r.Executed? && r.w == history[n - 1].world
    decreases n
  {
    hide ExecTxs;
    var w := history[0].world;
    if n == 1 {
      NothingExecuted(c, w);
    } else {
      EpochsAreExecutions(c, p, history, n - 1);
      assert C.EpochOk(c, p, history, n - 1);
      ExecConcat(c, w, Offered(history, n - 1), history[n - 1].offered);
    }
  }

  lemma NothingExecuted(c: Suite, w: World)
    ensures ExecTxs(c, w, []) == Executed(w, [], [])
  {
  }

  lemma HistoryStart(u: Setup, s: Net)
    requires Reachable(u, s)
    ensures s.history != [] && s.history[0].world == GenesisWorld(u.c)
  {
    hide Inv, GenesisWorld, Next;
    var s0, steps :| Init(u, s0) && RunNet(u, s0, steps) == Some(s);
    InitInv(u, s0);
    C.RunGrows(u, s0, steps);
  }

  lemma GenesisIsEmpty(c: Suite)
    ensures GenesisWorld(c).contract == map[] && GenesisWorld(c).students == map[]
  {
    NativeEffect(c, InitialWorld(c), GenesisTx(0));
  }

  /** The state of every node at height h is that of executing everything offered up to h from genesis. */
  lemma ReachableWorld(u: Setup, s: Net, id: NodeId)
    requires C.Ideal(u.c) && Reachable(u, s) && id in s.peers
    ensures 1 <= |s.peers[id].node.chain.headers| <= |s.history|
    ensures var ch := s.peers[id].node.chain;
            var r := ExecTxs(u.c, GenesisWorld(u.c), Offered(s.history, |ch.headers|));
            r.Executed? && r.w == ch.world
  {
    hide Reachable, C.Ideal, GenesisWorld, Inv, C.HistoryOk, ExecTxs, Offered;
    C.StateAgreement(u, s, id, id);
    C.ReachableState(u, s);
    HistoryStart(u, s);
    EpochsAreExecutions(u.c, Tip(u, s), s.history, |s.peers[id].node.chain.headers|);
  }

  /**
   So in every reachable state a node's contract data is that of all programs offered to its height,
   dropped transactions included, and its student records are what the offered operations that fit leave.
   */
  lemma ReachableData(u: Setup, s: Net, id: NodeId, key: seq<byte>, student: string)
    requires C.Ideal(u.c) && Reachable(u, s) && id in s.peers
    ensures |s.peers[id].node.chain.headers| <= |s.history|
    ensures var ch := s.peers[id].node.chain;
            var txs := Offered(s.history, |ch.headers|);
            var last := CS.LastWrite(Logs(txs), key);
            && (if last.Some?
                then key in ch.world.contract && CS.DeserializeInt64(ch.world.contract[key]) == last
                else key !in ch.world.contract)
            && RecordOf(ch.world, student) == Outcome(Absent, Fitting(Absent, History(txs, student)))
  {
    hide Reachable, C.Ideal, ExecTxs, Logs, CS.LastWrite, Fitting, History, Outcome, Offered, GenesisWorld;
    ReachableWorld(u, s, id);
    GenesisIsEmpty(u.c);
    var txs := Offered(s.history, |s.peers[id].node.chain.headers|);
    ContractAfterAll(u.c, GenesisWorld(u.c), txs, key);
    SubmittedRecords(u.c, GenesisWorld(u.c), txs, student);
  }
}
