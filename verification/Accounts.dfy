/** Account balances, transfers between them, and the money supply. */
module Accounts {
  import opened Basics
  import opened Entities

  datatype Account = Account(address: Address, balance: uint64)
  type Book = map<Address, Account>

  datatype Moved = Moved(book: Book) | NotFound | Insufficient

  function Debited(a: Book, from: Address, amount: uint64): Book
    requires from in a
  {
    if a[from].balance != 0
    then a[from := a[from].(balance := WrapU64(a[from].balance - amount))]
    else a
  }

  function Credited(a: Book, to: Address, amount: uint64): Book {
    var was := if to in a then a[to] else Account(to, 0);
    a[to := was.(balance := WrapU64(was.balance + amount))]
  }

  /** A debit is skipped at balance zero and unchecked for the coinbase; both updates wrap at 2^64. */
  function Transferred(a: Book, from: Address, to: Address, amount: uint64): Moved {
    if from !in a then NotFound
    else if a[from].address != COINBASE_ADDRESS && a[from].balance < amount then Insufficient
    else Moved(Credited(Debited(a, from, amount), to, amount))
  }

  class AccountState {
    var accounts: Book

    constructor ()
      ensures accounts == map[]
    {
      accounts := map[];
    }

    method CreateAccount(address: Address) returns (acc: Account)
      modifies this
      ensures acc == Account(address, 0) && accounts == old(accounts)[address := acc]
    {
      acc := Account(address, 0);
      accounts := accounts[address := acc];
    }

    method GetBalance(address: Address) returns (r: Option<uint64>)
      ensures r == if address in accounts then Some(accounts[address].balance) else None
    {
      if address in accounts {
        r := Some(accounts[address].balance);
      } else {
        r := None;
      }
    }

    method Transfer(from: Address, to: Address, amount: uint64) returns (r: Moved)
      modifies this
      ensures r == Transferred(old(accounts), from, to, amount)
      ensures accounts == if r.Moved? then r.book else old(accounts)
    {
      if from !in accounts {
        return NotFound;
      }
      if accounts[from].address != COINBASE_ADDRESS {
        if accounts[from].balance < amount {
          return Insufficient;
        }
      }
      if accounts[from].balance != 0 {
        accounts := accounts[from := accounts[from].(balance := WrapU64(accounts[from].balance - amount))];
      }
      if to !in accounts {
        accounts := accounts[to := Account(to, 0)];
      }
      accounts := accounts[to := accounts[to].(balance := WrapU64(accounts[to].balance + amount))];
      r := Moved(accounts);
    }
  }

  // ---------- Supply ----------

  /** Every account is filed under its own address. */
  ghost predicate Keyed(a: Book) {
    forall k :: k in a ==> a[k].address == k
  }

  ghost function Total(a: Book): nat {
    if a == map[] then 0
    else
      var k :| k in a;
      a[k].balance + Total(a - {k})
  }

  lemma {:induction false} TotalWithout(a: Book, k: Address)
    requires k in a
    ensures Total(a) == a[k].balance + Total(a - {k})
    decreases |a|
  {
    var j :| j in a && Total(a) == a[j].balance + Total(a - {j});
    if j != k {
      TotalWithout(a - {j}, k);
      TotalWithout(a - {k}, j);
      assert a - {j} - {k} == a - {k} - {j};
    }
  }

  lemma TotalUpdate(a: Book, k: Address, v: Account)
    ensures Total(a[k := v]) == Total(a - {k}) + v.balance
    ensures k in a ==> Total(a[k := v]) == Total(a) - a[k].balance + v.balance
    ensures k !in a ==> Total(a[k := v]) == Total(a) + v.balance
  {
    TotalWithout(a[k := v], k);
    assert a[k := v] - {k} == a - {k};
    if k in a {
      TotalWithout(a, k);
    } else {
      assert a - {k} == a;
    }
  }

  lemma BalanceWithinTotal(a: Book, k: Address)
    requires k in a
    ensures a[k].balance <= Total(a)
  {
    TotalWithout(a, k);
  }

  function BalanceOf(a: Book, k: Address): uint64 {
    if k in a then a[k].balance else 0
  }

  /** What a successful transfer creates: only a transfer out of a zero balance does. */
  function Minted(a: Book, from: Address, amount: uint64): nat {
    if BalanceOf(a, from) == 0 then amount else 0
  }

  /** The units of 2^64 a successful transfer's two wrap-arounds add to the sum of balances. */
  function Carry(a: Book, from: Address, to: Address, amount: uint64): int {
    var debit := if BalanceOf(a, from) != 0 then amount else 0;
    var under := if BalanceOf(a, from) < debit then 1 else 0;
    var left := BalanceOf(a, from) - debit + under * TWO_64;
    var target := if from == to then left else BalanceOf(a, to);
    under - (if target + amount >= TWO_64 then 1 else 0)
  }

  lemma WrapOnce(n: int)
    requires -TWO_64 < n < 2 * TWO_64
    ensures WrapU64(n) == if n < 0 then n + TWO_64 else if n < TWO_64 then n else n - TWO_64
  {
  }

  lemma DebitTotal(a: Book, from: Address, amount: uint64)
    requires Keyed(a) && from in a
    ensures Keyed(Debited(a, from, amount)) && Debited(a, from, amount).Keys == a.Keys
    ensures Total(Debited(a, from, amount))
         == if a[from].balance == 0 then Total(a)
            else if a[from].balance < amount then Total(a) - amount + TWO_64
            else Total(a) - amount
  {
    hide WrapU64;
    var bal := a[from].balance;
    WrapOnce(bal - amount);
    TotalUpdate(a, from, a[from].(balance := WrapU64(bal - amount)));
  }

  lemma CreditTotal(a: Book, to: Address, amount: uint64)
    requires Keyed(a)
    ensures Keyed(Credited(a, to, amount))
    ensures Total(Credited(a, to, amount))
         == Total(a) + amount - (if BalanceOf(a, to) + amount >= TWO_64 then TWO_64 else 0)
  {
    hide WrapU64;
    WrapOnce(BalanceOf(a, to) + amount);
    TotalUpdate(a, to, Account(to, WrapU64(BalanceOf(a, to) + amount)));
    var was := if to in a then a[to] else Account(to, 0);
    assert was.(balance := WrapU64(was.balance + amount)) == Account(to, WrapU64(BalanceOf(a, to) + amount));
  }

  /** The exact integer effect of every successful transfer on the sum of balances. */
  lemma TransferSupply(a: Book, from: Address, to: Address, amount: uint64)
    requires Keyed(a) && Transferred(a, from, to, amount).Moved?
    ensures Keyed(Transferred(a, from, to, amount).book)
    ensures Total(Transferred(a, from, to, amount).book)
         == Total(a) + Minted(a, from, amount) + Carry(a, from, to, amount) * TWO_64
  {
    hide WrapU64;
    DebitTotal(a, from, amount);
    WrapOnce(a[from].balance - amount);
    CreditTotal(Debited(a, from, amount), to, amount);
  }

  /** Only the coinbase can create money. */
  lemma OnlyCoinbaseMints(a: Book, from: Address, to: Address, amount: uint64)
    requires Keyed(a) && Transferred(a, from, to, amount).Moved? && Minted(a, from, amount) > 0
    ensures from == COINBASE_ADDRESS && a[from].balance == 0
  {
  }

  /** The sender had money, and it paid itself or both updates wrapped or neither; or nothing moved. */
  predicate KeepsSupply(a: Book, from: Address, to: Address, amount: uint64) {
    || amount == 0
    || (&& BalanceOf(a, from) != 0
        && (from == to || (amount > BalanceOf(a, from) <==> BalanceOf(a, to) + amount >= TWO_64)))
  }

  /** Whatever the balances, a successful transfer keeps the supply exactly under that condition. */
  lemma TransferKeepsSupplyIff(a: Book, from: Address, to: Address, amount: uint64)
    requires Keyed(a) && Transferred(a, from, to, amount).Moved?
    ensures Total(Transferred(a, from, to, amount).book) == Total(a) <==> KeepsSupply(a, from, to, amount)
  {
    TransferSupply(a, from, to, amount);
  }

  /** Neither the debit nor the credit of a payment wraps. */
  predicate WrapFree(a: Book, from: Address, to: Address, amount: uint64) {
    amount <= BalanceOf(a, from) && (from == to || BalanceOf(a, to) + amount < TWO_64)
  }
}
