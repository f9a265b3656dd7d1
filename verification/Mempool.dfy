/** The transaction pool as a pair of arrival-ordered lists, and what any sequence of calls leaves in it. */
module Mempool {
  import opened Basics
  import opened Entities

  /** `all` is the bounded window of known transactions, `pending` those not yet in a block. */
  datatype Pool = Pool(all: seq<Transaction>, pending: seq<Transaction>, maxLength: int)

  predicate Has(txs: seq<Transaction>, h: Hash) {
    exists i :: 0 <= i < |txs| && txs[i].cached == h
  }

  function Without(txs: seq<Transaction>, h: Hash): seq<Transaction> {
    if txs == [] then []
    else Without(txs[..|txs| - 1], h) + if txs[|txs| - 1].cached == h then [] else [txs[|txs| - 1]]
  }

  function Insert(txs: seq<Transaction>, tx: Transaction): seq<Transaction> {
    if Has(txs, tx.cached) then txs else txs + [tx]
  }

  /** The oldest entry leaves a full pool first, even when the new one is already known. */
  function Pruned(p: Pool): Pool
    requires |p.all| == p.maxLength ==> p.all != []
  {
    if |p.all| == p.maxLength then p.(all := p.all[1..]) else p
  }

  /** Adding to a pool of capacity zero panics: there is no oldest entry to prune. */
  function Add(c: Suite, p: Pool, tx: Transaction): Option<Pool> {
    if |p.all| == p.maxLength == 0 then None
    else
      var q, f := Pruned(p), Fill(c, tx);
      if Has(q.all, f.cached) then Some(q)
      else Some(q.(all := q.all + [f], pending := Insert(q.pending, f)))
  }

  /** A full window loses its oldest entry whatever is added; only an arrival unknown to the rest enters. */
  lemma AddWhenFull(c: Suite, p: Pool, tx: Transaction)
    requires |p.all| == p.maxLength && p.all != []
    ensures var rest := p.all[1..];
            var known := exists i :: 0 <= i < |rest| && rest[i].cached == TxId(c, tx);
            && Add(c, p, tx).Some?
            && var q := Add(c, p, tx).value;
            && q.all == (if known then rest else rest + [Fill(c, tx)])
            && (known ==> q.pending == p.pending) && p.pending <= q.pending
            && q.maxLength == p.maxLength
  {
    assert Has(p.all[1..], TxId(c, tx)) <==>
           exists i :: 0 <= i < |p.all[1..]| && p.all[1..][i].cached == TxId(c, tx);
  }

  function Remove(p: Pool, h: Hash): Pool {
    p.(all := Without(p.all, h), pending := Without(p.pending, h))
  }

  function ClearPending(p: Pool): Pool {
    p.(pending := [])
  }

  // ---------- Invariant ----------

  /** Each transaction once, its hash cached. */
  ghost predicate Sorted(c: Suite, txs: seq<Transaction>) {
    && AllFilled(c, txs)
    && forall i, j :: 0 <= i < j < |txs| ==> txs[i].cached != txs[j].cached
  }

  ghost predicate PoolOk(c: Suite, p: Pool) {
    && Sorted(c, p.all) && Sorted(c, p.pending)
    && (p.maxLength >= 0 ==> |p.all| <= p.maxLength)
  }

  lemma {:induction false} WithoutKeepsOrder(txs: seq<Transaction>, h: Hash)
    ensures Subsequence(Without(txs, h), txs) && |Without(txs, h)| <= |txs|
  {
    if txs != [] {
      var init, tx := txs[..|txs| - 1], txs[|txs| - 1];
      WithoutKeepsOrder(init, h);
      SubsequenceSnoc(Without(init, h), init, tx);
      assert init + [tx] == txs;
      assert Without(txs, h) == if tx.cached == h then Without(init, h) else Without(init, h) + [tx];
    }
  }

  /** The survivors of a removal: those with another hash, and no others. */
  lemma {:induction false} WithoutIs(txs: seq<Transaction>, h: Hash)
    ensures forall tx :: tx in Without(txs, h) <==> tx in txs && tx.cached != h
    ensures !Has(txs, h) ==> Without(txs, h) == txs
  {
    if txs != [] {
      var init, tx := txs[..|txs| - 1], txs[|txs| - 1];
      assert txs == init + [tx];
      WithoutIs(init, h);
      HasSnoc(init, tx);
    }
  }

  lemma {:induction false} WithoutKeepsSorted(c: Suite, txs: seq<Transaction>, h: Hash)
    requires Sorted(c, txs)
    ensures Sorted(c, Without(txs, h))
  {
    if txs != [] {
      var init, tx := txs[..|txs| - 1], txs[|txs| - 1];
      WithoutKeepsSorted(c, init, h);
      WithoutIs(init, h);
      var rest := Without(init, h);
      forall i | 0 <= i < |rest| ensures rest[i].cached != tx.cached {
        assert rest[i] in init;
      }
    }
  }

  lemma SortedInit(c: Suite, txs: seq<Transaction>)
    requires Sorted(c, txs) && txs != []
    ensures Sorted(c, txs[..|txs| - 1]) && !Has(txs[..|txs| - 1], txs[|txs| - 1].cached)
    ensures forall i :: 0 <= i < |txs| - 1 ==> txs[i].cached != txs[|txs| - 1].cached
  {
  }

  /** With hashes distinct, removing a hash is popping the one entry that has it. */
  lemma {:induction false} WithoutIsPop(c: Suite, txs: seq<Transaction>, i: nat)
    requires Sorted(c, txs) && i < |txs|
    ensures Without(txs, txs[i].cached) == txs[..i] + txs[i + 1..]
    decreases |txs|
  {
    hide Sorted, Has;
    var init, tx := txs[..|txs| - 1], txs[|txs| - 1];
    SortedInit(c, txs);
    if i == |txs| - 1 {
      WithoutIs(init, tx.cached);
      assert txs[..i] + txs[i + 1..] == init;
    } else {
      WithoutIsPop(c, init, i);
      var left, right := txs[..i], init[i + 1..];
      assert init[i] == txs[i] && init[..i] == left && txs[i + 1..] == right + [tx];
      assert Without(txs, txs[i].cached) == Without(init, txs[i].cached) + [tx];
      assert left + right + [tx] == left + (right + [tx]);
    }
  }

  lemma WithoutFirst(c: Suite, txs: seq<Transaction>)
    requires Sorted(c, txs) && txs != []
    ensures Without(txs, txs[0].cached) == txs[1..]
  {
    WithoutIsPop(c, txs, 0);
    assert txs[..0] + txs[1..] == txs[1..];
  }

  lemma InsertKeepsSorted(c: Suite, txs: seq<Transaction>, tx: Transaction)
    requires Sorted(c, txs) && Filled(c, tx)
    ensures Sorted(c, Insert(txs, tx)) && Has(Insert(txs, tx), tx.cached)
  {
    if !Has(txs, tx.cached) {
      assert (txs + [tx])[|txs|].cached == tx.cached;
    }
  }

  lemma AddKeepsOk(c: Suite, p: Pool, tx: Transaction)
    requires PoolOk(c, p) && Add(c, p, tx).Some?
    ensures PoolOk(c, Add(c, p, tx).value) && Has(Add(c, p, tx).value.all, TxId(c, tx))
    ensures Add(c, p, tx).value.maxLength == p.maxLength
  {
    var q, f := Pruned(p), Fill(c, tx);
    InsertKeepsSorted(c, q.all, f);
    InsertKeepsSorted(c, q.pending, f);
  }

  lemma WithoutLacks(txs: seq<Transaction>, h: Hash)
    ensures !Has(Without(txs, h), h)
  {
    WithoutIs(txs, h);
    var rest := Without(txs, h);
    forall i | 0 <= i < |rest| ensures rest[i].cached != h {
      assert rest[i] in rest;
    }
  }

  lemma RemoveKeepsOk(c: Suite, p: Pool, h: Hash)
    requires PoolOk(c, p)
    ensures PoolOk(c, Remove(p, h)) && !Has(Remove(p, h).all, h) && !Has(Remove(p, h).pending, h)
  {
    hide Sorted, Has, Without;
    WithoutKeepsSorted(c, p.all, h);
    WithoutKeepsSorted(c, p.pending, h);
    WithoutLacks(p.all, h);
    WithoutLacks(p.pending, h);
    WithoutKeepsOrder(p.all, h);
  }

  lemma ClearKeepsOk(c: Suite, p: Pool)
    requires PoolOk(c, p)
    ensures PoolOk(c, ClearPending(p))
  {
  }

  datatype Call = CallAdd(tx: Transaction) | CallRemove(h: Hash) | CallClear

  /** Any sequence of calls; `None` once one of them panics. */
  function Calls(c: Suite, p: Pool, calls: seq<Call>): Option<Pool> {
    if calls == [] then Some(p)
    else
      match Calls(c, p, calls[..|calls| - 1])
      case None => None
      case Some(q) =>
        match calls[|calls| - 1]
        case CallAdd(tx) => Add(c, q, tx)
        case CallRemove(h) => Some(Remove(q, h))
        case CallClear => Some(ClearPending(q))
  }

  /** Over every sequence of calls the invariant holds, and nothing panics unless the capacity is zero. */
  lemma {:induction false} CallsKeepOk(c: Suite, p: Pool, calls: seq<Call>)
    requires PoolOk(c, p)
    ensures Calls(c, p, calls).Some? ==>
      PoolOk(c, Calls(c, p, calls).value) && Calls(c, p, calls).value.maxLength == p.maxLength
    ensures p.maxLength != 0 ==> Calls(c, p, calls).Some?
  {
    if calls != [] {
      var init := calls[..|calls| - 1];
      CallsKeepOk(c, p, init);
      if Calls(c, p, init).Some? {
        var q := Calls(c, p, init).value;
        match calls[|calls| - 1]
        case CallAdd(tx) => if Add(c, q, tx).Some? { AddKeepsOk(c, q, tx); }
        case CallRemove(h) => RemoveKeepsOk(c, q, h);
        case CallClear =>
      }
    }
  }

  // ---------- Window ----------

  /** The last `n` elements; a negative `n` means no limit. */
  function LastOf<T>(s: seq<T>, n: int): seq<T> {
    if n < 0 || |s| <= n then s else s[|s| - n..]
  }

  function AddAll(c: Suite, p: Pool, txs: seq<Transaction>): Option<Pool> {
    if txs == [] then Some(p)
    else
      match AddAll(c, p, txs[..|txs| - 1])
      case None => None
      case Some(q) => Add(c, q, txs[|txs| - 1])
  }

  /** Transactions never seen by the pool, pairwise different. */
  ghost predicate AllNew(c: Suite, p: Pool, txs: seq<Transaction>) {
    && (forall i, j :: 0 <= i < j < |txs| ==> TxId(c, txs[i]) != TxId(c, txs[j]))
    && (forall i :: 0 <= i < |txs| ==> !Has(p.all, TxId(c, txs[i])) && !Has(p.pending, TxId(c, txs[i])))
  }

  /** Adding a transaction the pool has never seen. */
  lemma AddNew(c: Suite, q: Pool, tx: Transaction, seen: seq<Transaction>)
    requires q.maxLength != 0 && q.all == LastOf(seen, q.maxLength)
    requires !Has(seen, TxId(c, tx)) && !Has(q.pending, TxId(c, tx))
    ensures Add(c, q, tx) == Some(Pool(
      LastOf(seen + [Fill(c, tx)], q.maxLength), q.pending + [Fill(c, tx)], q.maxLength))
  {
    var f := Fill(c, tx);
    var pruned := Pruned(q).all;
    assert forall i :: 0 <= i < |pruned| ==> pruned[i] == seen[|seen| - |pruned| + i];
    assert pruned + [f] == LastOf(seen + [f], q.maxLength);
  }

  /** After any number of new arrivals `all` is the last `maxLength` seen, `pending` lost none. */
  lemma {:induction false} Window(c: Suite, p: Pool, txs: seq<Transaction>)
    requires PoolOk(c, p) && p.maxLength != 0 && AllNew(c, p, txs)
    ensures AddAll(c, p, txs) == Some(Pool(
      LastOf(p.all + FillAll(c, txs), p.maxLength), p.pending + FillAll(c, txs), p.maxLength))
  {
    hide Add;
    if txs == [] {
      assert p.all + [] == p.all && p.pending + [] == p.pending;
    } else {
      var init, tx := txs[..|txs| - 1], txs[|txs| - 1];
      Window(c, p, init);
      var seen, waiting := p.all + FillAll(c, init), p.pending + FillAll(c, init);
      assert FillAll(c, txs) == FillAll(c, init) + [Fill(c, tx)];
      NotAmong(c, p.all, init, tx);
      NotAmong(c, p.pending, init, tx);
      AddNew(c, AddAll(c, p, init).value, tx, seen);
      assert seen + [Fill(c, tx)] == p.all + FillAll(c, txs);
      assert waiting + [Fill(c, tx)] == p.pending + FillAll(c, txs);
    }
  }

  lemma NotAmong(c: Suite, known: seq<Transaction>, txs: seq<Transaction>, tx: Transaction)
    requires !Has(known, TxId(c, tx)) && forall i :: 0 <= i < |txs| ==> TxId(c, txs[i]) != TxId(c, tx)
    ensures !Has(known + FillAll(c, txs), TxId(c, tx))
  {
  }

  // ---------- Removing a block's transactions ----------

  function WithoutAll(list: seq<Transaction>, txs: seq<Transaction>): seq<Transaction> {
    if txs == [] then list else Without(WithoutAll(list, txs[..|txs| - 1]), txs[|txs| - 1].cached)
  }

  function RemoveAll(p: Pool, txs: seq<Transaction>): Pool {
    p.(all := WithoutAll(p.all, txs), pending := WithoutAll(p.pending, txs))
  }

  lemma {:induction false} SubsequenceTransitive<T>(a: seq<T>, b: seq<T>, d: seq<T>)
    requires Subsequence(a, b) && Subsequence(b, d)
    ensures Subsequence(a, d)
    decreases |d|
  {
    if a != [] {
      var d' := d[..|d| - 1];
      if b[|b| - 1] != d[|d| - 1] {
        SubsequenceTransitive(a, b, d');
      } else if a[|a| - 1] == b[|b| - 1] {
        SubsequenceTransitive(a[..|a| - 1], b[..|b| - 1], d');
      } else {
        SubsequenceTransitive(a, b[..|b| - 1], d');
      }
      if a[|a| - 1] == d[|d| - 1] && Subsequence(a, d') {
        SubsequenceInit(a, d');
      }
    }
  }

  lemma {:induction false} WithoutAllKeepsOrder(c: Suite, list: seq<Transaction>, txs: seq<Transaction>)
    requires Sorted(c, list)
    ensures Sorted(c, WithoutAll(list, txs)) && |WithoutAll(list, txs)| <= |list|
    ensures Subsequence(WithoutAll(list, txs), list)
  {
    hide Sorted;
    if txs == [] {
      SubsequenceReflexive(list);
    } else {
      var init, h := txs[..|txs| - 1], txs[|txs| - 1].cached;
      WithoutAllKeepsOrder(c, list, init);
      var rest := WithoutAll(list, init);
      WithoutKeepsSorted(c, rest, h);
      WithoutKeepsOrder(rest, h);
      SubsequenceTransitive(Without(rest, h), rest, list);
    }
  }

  lemma {:induction false} WithoutAllIs(list: seq<Transaction>, txs: seq<Transaction>)
    ensures forall tx :: tx in WithoutAll(list, txs) <==> tx in list && !Has(txs, tx.cached)
  {
    if txs != [] {
      var init, last := txs[..|txs| - 1], txs[|txs| - 1];
      WithoutAllIs(list, init);
      WithoutIs(WithoutAll(list, init), last.cached);
      HasSnoc(init, last);
      assert txs == init + [last];
    }
  }

  /** Exactly the transactions named by `txs` leave both lists; the rest keep their order. */
  lemma RemoveAllIs(c: Suite, p: Pool, txs: seq<Transaction>)
    requires PoolOk(c, p)
    ensures var q := RemoveAll(p, txs);
            && PoolOk(c, q)
            && Subsequence(q.all, p.all) && Subsequence(q.pending, p.pending)
            && (forall tx :: tx in q.all <==> tx in p.all && !Has(txs, tx.cached))
            && (forall tx :: tx in q.pending <==> tx in p.pending && !Has(txs, tx.cached))
  {
    WithoutAllKeepsOrder(c, p.all, txs);
    WithoutAllKeepsOrder(c, p.pending, txs);
    WithoutAllIs(p.all, txs);
    WithoutAllIs(p.pending, txs);
  }

  lemma HasSnoc(txs: seq<Transaction>, tx: Transaction)
    ensures forall h :: Has(txs + [tx], h) <==> Has(txs, h) || tx.cached == h
  {
    forall h ensures Has(txs + [tx], h) <==> Has(txs, h) || tx.cached == h {
      assert (txs + [tx])[|txs|] == tx;
      if Has(txs, h) {
        var i :| 0 <= i < |txs| && txs[i].cached == h;
        assert (txs + [tx])[i].cached == h;
      }
    }
  }

  lemma {:induction false} SubsequenceReflexive<T>(s: seq<T>)
    ensures Subsequence(s, s)
  {
    if s != [] {
      SubsequenceReflexive(s[..|s| - 1]);
    }
  }
}
