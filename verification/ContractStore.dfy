/** Little-endian integers in the contract key/value store, and the effect of a write log on it. */
module ContractStore {
  import opened Basics
  import opened QueueMachine

  type Store = map<seq<byte>, seq<byte>>

  function Pow256(k: nat): (p: nat)
    ensures p >= 1
  {
    if k == 0 then 1 else 256 * Pow256(k - 1)
  }

  function ToLE(u: nat, k: nat): (bs: seq<byte>)
    ensures |bs| == k
  {
    if k == 0 then [] else [u % 256] + ToLE(u / 256, k - 1)
  }

  function FromLE(bs: seq<byte>): nat {
    if bs == [] then 0 else bs[0] + 256 * FromLE(bs[1..])
  }

  lemma {:induction false} FromToLE(u: nat, k: nat)
    requires u < Pow256(k)
    ensures FromLE(ToLE(u, k)) == u
    decreases k
  {
    if k > 0 {
      assert u / 256 < Pow256(k - 1);
      FromToLE(u / 256, k - 1);
      assert ToLE(u, k)[1..] == ToLE(u / 256, k - 1);
    }
  }

  lemma Pow256Of8()
    ensures Pow256(8) == TWO_64
  {
    assert Pow256(4) == 0x1_0000_0000;
    assert Pow256(6) == 0x1_0000_0000_0000;
  }

  function SerializeInt64(n: int): (bs: seq<byte>)
    ensures |bs| == 8
  {
    ToLE(WrapU64(n), 8)
  }

  /** Fewer than eight bytes make the library read out of range, which panics. */
  function DeserializeInt64(bs: seq<byte>): Option<int> {
    if |bs| < 8 then None else Some(Wrap64(FromLE(bs[..8])))
  }

  lemma SignedOfUnsigned(n: int)
    ensures Wrap64(WrapU64(n)) == Wrap64(n)
  {
    var k := n / TWO_64;
    assert n + TWO_63 == WrapU64(n) + TWO_63 + k * TWO_64;
    assert (WrapU64(n) + TWO_63 + k * TWO_64) % TWO_64 == (WrapU64(n) + TWO_63) % TWO_64;
  }

  /** Over every 64-bit integer, and in general up to 64-bit wrap-around. */
  lemma SerializeRoundTrip(n: int)
    ensures DeserializeInt64(SerializeInt64(n)) == Some(Wrap64(n))
  {
    Pow256Of8();
    var u := WrapU64(n);
    FromToLE(u, 8);
    var bs := ToLE(u, 8);
    assert bs[..8] == bs;
    SignedOfUnsigned(n);
  }

  /** The bytes in the store: least significant first. */
  lemma SerializedIsLittleEndian(n: int)
    ensures var s: seq<int> := SerializeInt64(n);
            s[0] + 0x100 * s[1] + 0x1_0000 * s[2] + 0x100_0000 * s[3] + 0x1_0000_0000 * s[4]
            + 0x100_0000_0000 * s[5] + 0x1_0000_0000_0000 * s[6] + 0x100_0000_0000_0000 * s[7] == n % TWO_64
  {
    var s: seq<int> := SerializeInt64(n);
    Pow256Of8();
    FromToLE(WrapU64(n), 8);
    assert s[6..][1..] == s[7..] && s[7..][1..] == [];
    assert FromLE(s[7..]) == s[7];
    assert FromLE(s[6..]) == s[6] + 0x100 * s[7];
    assert s[4..][1..] == s[5..] && s[5..][1..] == s[6..];
    assert FromLE(s[4..]) == s[4] + 0x100 * s[5] + 0x1_0000 * FromLE(s[6..]);
    assert s[2..][1..] == s[3..] && s[3..][1..] == s[4..];
    assert FromLE(s[2..]) == s[2] + 0x100 * s[3] + 0x1_0000 * FromLE(s[4..]);
    assert s[1..][1..] == s[2..];
    assert FromLE(s) == s[0] + 0x100 * s[1] + 0x1_0000 * FromLE(s[2..]);
  }

  function Apply(store: Store, log: seq<Write>): Store {
    if log == [] then store
    else
      var w := log[|log| - 1];
      Apply(store, log[..|log| - 1])[w.key := SerializeInt64(w.n)]
  }

  lemma {:induction false} ApplyConcat(store: Store, log: seq<Write>, longer: seq<Write>)
    requires log <= longer
    ensures Apply(Apply(store, log), longer[|log|..]) == Apply(store, longer)
    decreases |longer|
  {
    if log == longer {
      assert longer[|log|..] == [];
    } else {
      var tail := longer[|log|..];
      assert tail[..|tail| - 1] == longer[..|longer| - 1][|log|..];
      ApplyConcat(store, log, longer[..|longer| - 1]);
    }
  }

  /** The value of the last write to `key`. */
  function LastWrite(log: seq<Write>, key: seq<byte>): Option<int> {
    if log == [] then None
    else if log[|log| - 1].key == key then Some(log[|log| - 1].n)
    else LastWrite(log[..|log| - 1], key)
  }

  /** It is the value of a write that no later write to the key follows. */
  lemma {:induction false} LastWriteIs(log: seq<Write>, key: seq<byte>) returns (i: int)
    ensures LastWrite(log, key).None? ==> forall j :: 0 <= j < |log| ==> log[j].key != key
    ensures LastWrite(log, key).Some? ==>
      && 0 <= i < |log| && log[i] == Write(key, LastWrite(log, key).value)
      && forall j :: i < j < |log| ==> log[j].key != key
  {
    i := |log| - 1;
    if log != [] && log[i].key != key {
      i := LastWriteIs(log[..|log| - 1], key);
    }
  }

  lemma {:induction false} ApplyReads(store: Store, log: seq<Write>, key: seq<byte>)
    ensures LastWrite(log, key).None? ==> (key in Apply(store, log) <==> key in store)
    ensures LastWrite(log, key).None? && key in store ==> Apply(store, log)[key] == store[key]
    ensures LastWrite(log, key).Some? ==>
      && key in Apply(store, log)
      && Apply(store, log)[key] == SerializeInt64(LastWrite(log, key).value)
      && exists i :: 0 <= i < |log| && log[i].n == LastWrite(log, key).value
  {
    if log != [] {
      ApplyReads(store, log[..|log| - 1], key);
    }
  }

  /**
   Over every program, panicking or not, and every prior store: a key holds the exact
   mathematical value last computed for it, or, if never written, what it held before.
   */
  lemma StoredValuesAreExact(store: Store, data: seq<byte>, key: seq<byte>)
    ensures var log := Meaning(data).Log();
            var after := Apply(store, log);
            if LastWrite(log, key).Some?
            then key in after && DeserializeInt64(after[key]) == Some(LastWrite(log, key).value)
            else (key in after <==> key in store) && (key in store ==> after[key] == store[key])
  {
    var log := Meaning(data).Log();
    ApplyReads(store, log, key);
    ArithmeticBound(data);
    if LastWrite(log, key).Some? {
      SerializeRoundTrip(LastWrite(log, key).value);
    }
  }
}
