/** The pool's mutable structures: a generic list, a hash map kept beside it, and the two of them combined. */
module TxPool {
  import opened Basics
  import opened Entities
  import M = Mempool

  class List<T(==)> {
    var data: seq<T>

    constructor ()
      ensures data == []
    {
      data := [];
    }

    /** Out of range is a panic. */
    method Get(index: int) returns (r: Option<T>)
      ensures r == if 0 <= index < |data| then Some(data[index]) else None
    {
      if index > |data| - 1 || index < 0 {
        return None;
      }
      r := Some(data[index]);
    }

    method Insert(v: T)
      modifies this
      ensures data == old(data) + [v]
    {
      data := data + [v];
    }

    method Clear()
      modifies this
      ensures data == []
    {
      data := [];
    }

    /** The first occurrence, or -1. */
    method GetIndex(v: T) returns (index: int)
      ensures -1 <= index < |data|
      ensures index == -1 <==> v !in data
      ensures index >= 0 ==> data[index] == v && v !in data[..index]
    {
      for i := 0 to |data|
        invariant v !in data[..i]
      {
        if data[i] == v {
          return i;
        }
      }
      return -1;
    }

    method Pop(index: int) returns (ok: bool)
      modifies this
      ensures ok <==> 0 <= index < |old(data)|
      ensures data == if ok then old(data)[..index] + old(data)[index + 1..] else old(data)
    {
      if index < 0 || index >= |data| {
        return false;
      }
      data := data[..index] + data[index + 1..];
      ok := true;
    }

    /** Removes the first occurrence only. */
    method Remove(v: T)
      modifies this
      ensures v !in old(data) ==> data == old(data)
      ensures v in old(data) ==>
        exists i :: && 0 <= i < |old(data)| && old(data)[i] == v && v !in old(data)[..i]
                    && data == old(data)[..i] + old(data)[i + 1..]
    {
      var index := GetIndex(v);
      if index == -1 {
        return;
      }
      var ok := Pop(index);
    }

    method Contains(v: T) returns (r: bool)
      ensures r <==> v in data
    {
      for i := 0 to |data|
        invariant v !in data[..i]
      {
        if data[i] == v {
          return true;
        }
      }
      return false;
    }
  }

  class TxSortedMap {
    const c: Suite
    const txx: List<Transaction>
    var lookup: map<Hash, Transaction>

    /** Map and list hold the same transactions, each once. */
    ghost predicate Valid()
      reads this, txx
    {
      && M.Sorted(c, txx.data)
      && (forall i :: 0 <= i < |txx.data| ==>
            txx.data[i].cached in lookup && lookup[txx.data[i].cached] == txx.data[i])
      && (forall h :: h in lookup ==> lookup[h].cached == h && lookup[h] in txx.data)
    }

    constructor (c: Suite)
      ensures Valid() && fresh(txx) && this.c == c && txx.data == []
    {
      this.c := c;
      lookup := map[];
      txx := new List<Transaction>();
    }

    /** The map's keys are as many as the list is long. */
    lemma CountIsLength()
      requires Valid()
      ensures |lookup| == |txx.data|
    {
      KeysOf(txx.data, lookup.Keys);
    }

    static lemma {:induction false} KeysOf(txs: seq<Transaction>, keys: set<Hash>)
      requires forall i, j :: 0 <= i < j < |txs| ==> txs[i].cached != txs[j].cached
      requires forall h :: h in keys <==> exists i :: 0 <= i < |txs| && txs[i].cached == h
      ensures |keys| == |txs|
    {
      if txs == [] {
        assert keys == {};
      } else {
        var init, last := txs[..|txs| - 1], txs[|txs| - 1].cached;
        assert txs[|txs| - 1].cached == last;
        forall h | h in keys - {last} ensures exists i :: 0 <= i < |init| && init[i].cached == h {
          var i :| 0 <= i < |txs| && txs[i].cached == h;
          assert init[i].cached == h;
        }
        forall i | 0 <= i < |init| ensures init[i].cached in keys - {last} {
          assert txs[i].cached == init[i].cached;
        }
        KeysOf(init, keys - {last});
      }
    }

    /** Panics on an empty list. */
    method First() returns (r: Option<Transaction>)
      requires Valid()
      ensures r == if txx.data == [] then None else Some(txx.data[0])
      ensures r.Some? ==> Filled(c, r.value)
    {
      var first := txx.Get(0);
      if first.None? { return None; }
      r := Some(lookup[TxId(c, first.value)]);
    }

    method Get(h: Hash) returns (r: Option<Transaction>)
      requires Valid()
      ensures r.Some? <==> M.Has(txx.data, h)
      ensures r.Some? ==> r.value in txx.data && r.value.cached == h
    {
      if h in lookup {
        r := Some(lookup[h]);
        ghost var i :| 0 <= i < |txx.data| && txx.data[i] == lookup[h];
      } else {
        r := None;
      }
    }

    method Add(tx: Transaction)
      requires Valid()
      modifies this, txx
      ensures Valid() && txx.data == M.Insert(old(txx.data), Fill(c, tx))
    {
      var f := Fill(c, tx);
      var known := Contains(f.cached);
      if !known {
        M.InsertKeepsSorted(c, txx.data, f);
        lookup := lookup[f.cached := f];
        txx.Insert(f);
      }
    }

    method Remove(h: Hash)
      requires Valid()
      modifies this, txx
      ensures Valid() && txx.data == M.Without(old(txx.data), h)
    {
      hide M.Sorted, M.Without;
      M.WithoutIs(txx.data, h);
      M.WithoutKeepsSorted(c, txx.data, h);
      if h in lookup {
        var tx := lookup[h];
        txx.Remove(tx);
        ghost var i :| 0 <= i < |old(txx.data)| && old(txx.data)[i] == tx
              && txx.data == old(txx.data)[..i] + old(txx.data)[i + 1..];
        M.WithoutIsPop(c, old(txx.data), i);
        lookup := lookup - {h};
        forall j | 0 <= j < |txx.data|
          ensures txx.data[j].cached in lookup && lookup[txx.data[j].cached] == txx.data[j]
        {
          assert txx.data[j] in M.Without(old(txx.data), h);
        }
      } else {
        // lookup[h] is nil, which the list does not hold
        assert forall i :: 0 <= i < |txx.data| ==> txx.data[i].cached != h;
      }
    }

    method Count() returns (n: nat)
      requires Valid()
      ensures n == |txx.data|
    {
      CountIsLength();
      n := |lookup|;
    }

    method Contains(h: Hash) returns (r: bool)
      requires Valid()
      ensures r <==> M.Has(txx.data, h)
    {
      r := h in lookup;
      if r {
        ghost var i :| 0 <= i < |txx.data| && txx.data[i] == lookup[h];
      }
    }

    method Clear()
      requires Valid()
      modifies this, txx
      ensures Valid() && txx.data == []
    {
      lookup := map[];
      txx.Clear();
    }
  }

  class Pool {
    const c: Suite
    const all: TxSortedMap
    const pending: TxSortedMap
    const maxLength: int
    ghost const Repr: set<object>

    ghost predicate Valid()
      reads this, Repr
    {
      && Repr == {all, pending, all.txx, pending.txx}
      && all != pending && all.txx != pending.txx
      && all.c == c && pending.c == c
      && all.Valid() && pending.Valid()
      && M.PoolOk(c, M.Pool(all.txx.data, pending.txx.data, maxLength))
    }

    ghost function View(): M.Pool
      reads this, all, pending, all.txx, pending.txx
    {
      M.Pool(all.txx.data, pending.txx.data, maxLength)
    }

    constructor (c: Suite, maxLength: int)
      ensures Valid() && fresh(Repr) && this.c == c && this.maxLength == maxLength
      ensures View() == M.Pool([], [], maxLength)
    {
      this.c := c;
      this.maxLength := maxLength;
      var a := new TxSortedMap(c);
      var p := new TxSortedMap(c);
      all := a;
      pending := p;
      Repr := {a, p, a.txx, p.txx};
    }

    /** Drops the oldest known transaction of a full pool. */
    method Prune() returns (ok: bool)
      requires Valid()
      modifies all, all.txx
      ensures Valid()
      ensures ok <==> !(|old(View()).all| == maxLength == 0)
      ensures View() == if ok then M.Pruned(old(View())) else old(View())
    {
      hide M.Sorted, M.Has, M.Without;
      var n := all.Count();
      if n == maxLength {
        var oldest := all.First();
        if oldest.None? { return false; }
        M.WithoutFirst(c, all.txx.data);
        all.Remove(TxId(c, oldest.value));
      }
      ok := true;
    }

    /** Fails only by the panic of pruning an empty pool. */
    method Add(tx: Transaction) returns (ok: bool)
      requires Valid()
      modifies Repr
      ensures Valid()
      ensures ok <==> M.Add(c, old(View()), tx).Some?
      ensures View() == if ok then M.Add(c, old(View()), tx).value else old(View())
    {
      hide M.Sorted, M.Has, M.Insert;
      ghost var p := View();
      ok := Prune();
      if !ok { return; }
      M.AddKeepsOk(c, p, tx);
      var known := all.Contains(TxId(c, tx));
      if !known {
        InsertNew(all.txx.data, Fill(c, tx));
        all.Add(tx);
        pending.Add(tx);
      }
    }

    static lemma InsertNew(txs: seq<Transaction>, tx: Transaction)
      requires !M.Has(txs, tx.cached)
      ensures M.Insert(txs, tx) == txs + [tx]
    {
    }

    method Contains(h: Hash) returns (r: bool)
      requires Valid()
      ensures r <==> M.Has(View().all, h)
    {
      r := all.Contains(h);
    }

    method Remove(h: Hash)
      requires Valid()
      modifies Repr
      ensures Valid() && View() == M.Remove(old(View()), h)
    {
      M.RemoveKeepsOk(c, View(), h);
      pending.Remove(h);
      all.Remove(h);
    }

    method Pending() returns (txs: seq<Transaction>)
      requires Valid()
      ensures txs == View().pending
    {
      txs := pending.txx.data;
    }

    method ClearPending()
      requires Valid()
      modifies Repr
      ensures Valid() && View() == M.ClearPending(old(View()))
    {
      pending.Clear();
    }

    method PendingCount() returns (n: nat)
      requires Valid()
      ensures n == |View().pending|
    {
      n := pending.Count();
    }
  }
}
