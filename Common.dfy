/**
 * Shared vocabulary of the two Opdex contracts: addresses, bytes, the
 * result shapes of a contract call, and the key/value maps that stand for the
 * host's persistent state (an absent key reads as 0, as the host's getters do).
 */
module Common {

  /** Account and contract identities; only equality between them matters. */
  type Address = nat

  newtype byte = x: int | 0 <= x < 256

  datatype Option<T> = None | Some(value: T)

  /** The outcome of an entry point that aborts with a named reason or completes. */
  datatype Outcome<E> = Pass | Fail(error: E)

  /** The outcome of an entry point that aborts or completes with a value. */
  datatype Result<T, E> = Ok(value: T) | Err(error: E)

  /** The number stored under `k`, or 0 when nothing is stored there. */
  function Get<K>(m: map<K, nat>, k: K): nat
  {
    if k in m then m[k] else 0
  }

  /** Stores `Get(m, k) + v` under `k`: a read-modify-write of one entry. */
  function Credit(m: map<Address, nat>, k: Address, v: nat): (r: map<Address, nat>)
    ensures Get(r, k) == Get(m, k) + v
    ensures forall j :: j != k ==> Get(r, j) == Get(m, j)
  {
    m[k := Get(m, k) + v]
  }

  /** Some key of a non-empty map. */
  ghost function Pick(m: map<Address, nat>): (k: Address)
    requires m != map[]
    ensures k in m
  {
    assert exists k :: k in m by {
      var s := m.Keys;
      assert s != {};
      var x :| x in s;
    }
    var k :| k in m; k
  }

  /** The sum of all the numbers a map stores. */
  ghost function MapSum(m: map<Address, nat>): nat
    decreases |m|
  {
    if m == map[] then 0
    else
      var k := Pick(m);
      assert |m - {k}| < |m| by { RemoveShrinks(m, k); }
      m[k] + MapSum(m - {k})
  }

  lemma RemoveShrinks(m: map<Address, nat>, k: Address)
    requires k in m
    ensures |m - {k}| == |m| - 1
  {
    assert (m - {k}).Keys == m.Keys - {k};
  }

  /** Taking any one key out of the sum leaves the sum of the rest. */
  lemma {:induction false} MapSumRemove(m: map<Address, nat>, k: Address)
    requires k in m
    ensures MapSum(m) == m[k] + MapSum(m - {k})
    decreases |m|
  {
    var j := Pick(m);
    RemoveShrinks(m, j);
    if j != k {
      assert m - {j} - {k} == m - {k} - {j};
      MapSumRemove(m - {j}, k);
      RemoveShrinks(m, k);
      MapSumRemove(m - {k}, j);
    }
  }

  /** Overwriting one entry changes the sum by the difference of the two values. */
  lemma MapSumUpdate(m: map<Address, nat>, k: Address, v: nat)
    ensures MapSum(m[k := v]) + Get(m, k) == MapSum(m) + v
  {
    var m' := m[k := v];
    MapSumRemove(m', k);
    assert m' - {k} == m - {k};
    if k in m {
      MapSumRemove(m, k);
    } else {
      assert m - {k} == m;
    }
  }
}
