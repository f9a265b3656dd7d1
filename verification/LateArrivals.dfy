/**
 Transactions that reach the producer between the check of its own block and the commit. Publishing
 clears the whole pending list, and with it exactly what arrived in between.
 */
module LateArrivals {
  import opened Basics
  import opened Entities
  import opened Ledger
  import opened Execution
  import opened Chains
  import opened Nodes
  import opened Network
  import M = Mempool

  function Producer(u: Setup, s: Net): Peer
    requires u.producer in s.peers
  {
    s.peers[u.producer]
  }

  /** The state right after `Propose`: the proposal holds everything pending. */
  ghost predicate JustProposed(u: Setup, s: Net) {
    && Inv(u, s) && Producer(u, s).proposal.Some?
    && Producer(u, s).proposal.value.transactions == Producer(u, s).node.pool.pending
  }

  /** What waiting for the commit leaves alone, and that arrivals queue up behind what was pending. */
  ghost predicate Waited(u: Setup, s: Net, s': Net)
    requires u.producer in s.peers
  {
    && u.producer in s'.peers
    && Producer(u, s').node.chain == Producer(u, s).node.chain
    && Producer(u, s').proposal == Producer(u, s).proposal
    && Producer(u, s).node.pool.pending <= Producer(u, s').node.pool.pending
  }

  lemma ProposeIsJustProposed(u: Setup, s: Net, now: int, r: nat, s': Net)
    requires Inv(u, s) && Next(u, s, Propose(now, r)) == Some(s')
    requires u.producer in s'.peers && Producer(u, s').proposal.Some?
    ensures JustProposed(u, s')
  {
    hide NodeOk, Ready, AllKnown, ProposeNext;
    NextKeepsInv(u, s, Propose(now, r));
    assert PeerOk(u, u.producer, Producer(u, s), Tip(u, s).headers);
    ProposeNextOk(u, Producer(u, s).node, now, r);
  }

  lemma SubmitQueues(c: Suite, n: Node, tx: Transaction)
    requires Submit(c, n, tx).Some?
    ensures var n' := Submit(c, n, tx).value; n'.chain == n.chain && n.pool.pending <= n'.pool.pending
  {
  }

  lemma WaitStep(u: Setup, s: Net, step: Step)
    requires Inv(u, s) && Producer(u, s).proposal.Some? && Next(u, s, step).Some? && !step.Publish?
    ensures Waited(u, s, Next(u, s, step).value)
  {
    hide NodeOk, AllKnown, Ready, CheckNext, ProposeNext, Submit, OnGetBlocks, AddWithoutValidation;
    match step
    case SubmitTx(id, tx) => SubmitQueues(u.c, s.peers[id].node, tx);
    case Commit(id) => CommitTip(u, s, id);
    case _ =>
  }

  lemma {:induction false} WaitRun(u: Setup, s: Net, steps: seq<Step>)
    requires Inv(u, s) && Producer(u, s).proposal.Some? && RunNet(u, s, steps).Some?
    requires forall i :: 0 <= i < |steps| ==> !steps[i].Publish?
    ensures Inv(u, RunNet(u, s, steps).value) && Waited(u, s, RunNet(u, s, steps).value)
  {
    hide Next, Inv;
    if steps == [] {
      InvHasProducer(u, s);
    } else {
      var init, step := steps[..|steps| - 1], steps[|steps| - 1];
      WaitRun(u, s, init);
      var mid := RunNet(u, s, init).value;
      WaitStep(u, mid, step);
      NextKeepsInv(u, mid, step);
    }
  }

  lemma InvHasProducer(u: Setup, s: Net)
    requires Inv(u, s)
    ensures u.producer in s.peers
  {
  }

  /** Distinct hashes: nothing queued behind a prefix is in it. */
  lemma BehindIsNew(c: Suite, txs: seq<Transaction>, before: seq<Transaction>)
    requires M.Sorted(c, txs) && before <= txs
    ensures forall i :: |before| <= i < |txs| ==> txs[i] !in before
  {
  }

  /** How publishing settles what was pending when the proposal was made, `before`, and what queued up since. */
  ghost predicate Settled(c: Suite, ch: Chain, before: seq<Transaction>, queued: seq<Transaction>, n: Node) {
    var exec := ExecTxs(c, ch.world, before);
    && before <= queued && n.pool.pending == []
    && exec.Executed? && |n.chain.blocks| == |ch.blocks| + 1 && ch.blocks <= n.chain.blocks
    && n.chain.blocks[|ch.blocks|].transactions == exec.kept
    && multiset(exec.kept) + multiset(exec.dropped) == multiset(before)
    && Subsequence(exec.kept, before)
    && (forall i :: |before| <= i < |queued| ==> queued[i] !in exec.kept && queued[i] !in exec.dropped)
    && (forall tx :: tx in queued && M.Has(n.pool.all, tx.cached) ==> Submit(c, n, tx) == Some(n))
  }

  /**
   Over every run from a proposal to its publication: what was pending at the proposal is stored, in
   order, or dropped by execution, each once; what arrived later is neither, no longer pending, and
   ignored when submitted again for as long as the window of known transactions still holds it.
   */
  lemma LateArrivalsAreLost(u: Setup, s: Net, steps: seq<Step>, s': Net, s'': Net)
    requires JustProposed(u, s) && RunNet(u, s, steps) == Some(s')
    requires forall i :: 0 <= i < |steps| ==> !steps[i].Publish?
    requires Next(u, s', Publish) == Some(s'')
    ensures u.producer in s.peers && u.producer in s'.peers && u.producer in s''.peers
    ensures Settled(u.c, Tip(u, s), Producer(u, s).node.pool.pending, Producer(u, s').node.pool.pending,
                    Producer(u, s'').node)
  {
    hide NodeOk, RunNet, Inv, ExecTxs;
    PendingIsSorted(u, s);
    WaitRun(u, s, steps);
    PendingIsSorted(u, s');
    var before, queued := Producer(u, s).node.pool.pending, Producer(u, s').node.pool.pending;
    FillAllIdempotent(u.c, before);
    BehindIsNew(u.c, queued, before);
    var exec := ExecTxs(u.c, Tip(u, s).world, before);
    assert exec.Executed?;
    ExecConserves(u.c, Tip(u, s).world, before);
    forall i | |before| <= i < |queued| ensures queued[i] !in exec.kept && queued[i] !in exec.dropped {
      assert queued[i] !in multiset(exec.kept) + multiset(exec.dropped);
    }
  }

  lemma PendingIsSorted(u: Setup, s: Net)
    requires Inv(u, s)
    ensures u.producer in s.peers
    ensures M.Sorted(u.c, Producer(u, s).node.pool.pending) && AllFilled(u.c, Producer(u, s).node.pool.pending)
  {
    assert PeerOk(u, u.producer, Producer(u, s), Tip(u, s).headers);
  }
}
