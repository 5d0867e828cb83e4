/** Identifiers, status codes, word sizes and sequence facts shared by the models. */
module Basics {

  const TWO31: nat := 0x8000_0000
  const TWO32: nat := 0x1_0000_0000
  const TWO64: nat := 0x1_0000_0000_0000_0000

  predicate InInt32(x: int) {
    -0x8000_0000 <= x < 0x8000_0000
  }

  type Int32 = x: int | InInt32(x)

  datatype Option<+T> = None | Some(value: T)

  // Clients are named by their "host:port" string and threads by pthread_self();
  // the protocol only ever compares them for equality.
  type ClientId = nat
  type ThreadId = nat
  type LockId = nat

  // lock_protocol::xxstatus; rlock_protocol uses OK and RPCERR only.
  datatype Status = OK | RETRY | RPCERR | NOENT | IOERR

  function Lookup<K, V>(m: map<K, V>, k: K, default: V): V {
    if k in m then m[k] else default
  }

  predicate NoDup<T(==)>(q: seq<T>) {
    forall i, j :: 0 <= i < j < |q| ==> q[i] != q[j]
  }

  function RemoveAt<T>(q: seq<T>, i: nat): seq<T>
    requires i < |q|
  {
    q[..i] + q[i + 1..]
  }

  lemma JoinAssoc<T>(a: seq<T>, b: seq<T>, c: seq<T>)
    ensures (a + b) + c == a + (b + c)
  {
  }

  lemma CutAt<T>(q: seq<T>, i: nat)
    requires i < |q|
    ensures q == q[..i] + ([q[i]] + q[i + 1..])
  {
  }
}
