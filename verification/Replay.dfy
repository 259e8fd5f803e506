/** Keyed inserts and removes: why "subscribe first, snapshot second" converges. */
module Replay {
  import opened Bytes

  datatype Op<K, V> = Put(key: K, value: V) | Del(key: K)

  function Get<K, V>(m: map<K, V>, k: K): Option<V> {
    if k in m then Some(m[k]) else None
  }

  function Apply<K, V>(m: map<K, V>, op: Op<K, V>): map<K, V> {
    match op
    case Put(k, v) => m[k := v]
    case Del(k) => m - {k}
  }

  function Effect<K, V>(op: Op<K, V>): Option<V> {
    if op.Put? then Some(op.value) else None
  }

  /** The state after the first `n` operations. */
  function StateAt<K, V>(m: map<K, V>, ops: seq<Op<K, V>>, n: nat): map<K, V>
    requires n <= |ops|
  {
    if n == 0 then m else Apply(StateAt(m, ops, n - 1), ops[n - 1])
  }

  /**
   * What an observer holds that started listening at operation `from`, then took a snapshot after
   * operation `snap`, and has applied the operations `from..n` except those it lost.
   */
  function ViewAt<K, V>(m: map<K, V>, ops: seq<Op<K, V>>, from: nat, snap: nat, lost: set<nat>, n: nat): map<K, V>
    requires from <= n <= |ops| && snap <= |ops|
    decreases n
  {
    if n == from then StateAt(m, ops, snap)
    else
      var before := ViewAt(m, ops, from, snap, lost, n - 1);
      if n - 1 in lost then before else Apply(before, ops[n - 1])
  }

  ghost predicate Touched<K, V>(ops: seq<Op<K, V>>, k: K, i: nat, j: nat)
    requires j <= |ops|
  {
    exists n :: i <= n < j && ops[n].key == k
  }

  /** `n` is the last operation before `j` on `k`. */
  ghost predicate LastTouch<K, V>(ops: seq<Op<K, V>>, k: K, n: nat, j: nat)
    requires j <= |ops|
  {
    n < j && ops[n].key == k && !Touched(ops, k, n + 1, j)
  }

  lemma {:induction false} Untouched<K, V>(m: map<K, V>, ops: seq<Op<K, V>>, k: K, i: nat, j: nat)
    requires i <= j <= |ops| && !Touched(ops, k, i, j)
    ensures Get(StateAt(m, ops, i), k) == Get(StateAt(m, ops, j), k)
    decreases j
  {
    if i < j {
      assert ops[j - 1].key != k;
      Untouched(m, ops, k, i, j - 1);
    }
  }

  lemma StateOfLast<K, V>(m: map<K, V>, ops: seq<Op<K, V>>, k: K, n: nat, j: nat)
    requires j <= |ops| && LastTouch(ops, k, n, j)
    ensures Get(StateAt(m, ops, j), k) == Effect(ops[n])
  {
    Untouched(m, ops, k, n + 1, j);
  }

  /** An operation on `k` that was not lost decides `k` until the next one; lost ones do nothing. */
  lemma {:induction false} ViewAfter<K, V>(
    m: map<K, V>, ops: seq<Op<K, V>>, from: nat, snap: nat, lost: set<nat>, k: K, i: nat, j: nat)
    requires from <= i <= j <= |ops| && snap <= |ops|
    requires forall n | i <= n < j && ops[n].key == k :: n in lost
    ensures Get(ViewAt(m, ops, from, snap, lost, j), k) == Get(ViewAt(m, ops, from, snap, lost, i), k)
    decreases j
  {
    if i < j {
      ViewAfter(m, ops, from, snap, lost, k, i, j - 1);
    }
  }

  /** Exactly what the observer holds for `k`: the last operation it received on `k` ... */
  lemma ViewLastReceived<K, V>(
    m: map<K, V>, ops: seq<Op<K, V>>, from: nat, snap: nat, lost: set<nat>, k: K, n: nat, j: nat)
    requires from <= n < j <= |ops| && snap <= |ops|
    requires ops[n].key == k && n !in lost && forall o | n < o < j && ops[o].key == k :: o in lost
    ensures Get(ViewAt(m, ops, from, snap, lost, j), k) == Effect(ops[n])
  {
    ViewAfter(m, ops, from, snap, lost, k, n + 1, j);
  }

  /** ... or, if it received none, what the snapshot said, however much was lost. */
  lemma ViewNoneReceived<K, V>(m: map<K, V>, ops: seq<Op<K, V>>, from: nat, snap: nat, lost: set<nat>, k: K, j: nat)
    requires from <= j <= |ops| && snap <= |ops|
    requires forall n | from <= n < j && ops[n].key == k :: n in lost
    ensures Get(ViewAt(m, ops, from, snap, lost, j), k) == Get(StateAt(m, ops, snap), k)
  {
    ViewAfter(m, ops, from, snap, lost, k, from, j);
  }

  /** Past its snapshot, an observer is right about every key whose latest operation it did not lose. */
  lemma ViewAgrees<K, V>(m: map<K, V>, ops: seq<Op<K, V>>, from: nat, snap: nat, lost: set<nat>, k: K, j: nat)
    requires from <= snap <= j <= |ops|
    requires forall n | from <= n < j && LastTouch(ops, k, n, j) :: n !in lost
    ensures Get(ViewAt(m, ops, from, snap, lost, j), k) == Get(StateAt(m, ops, j), k)
  {
    if Touched(ops, k, from, j) {
      var n := FindLast(ops, k, from, j);
      StateOfLast(m, ops, k, n, j);
      assert forall o | n + 1 <= o < j :: ops[o].key != k;
      ViewAfter(m, ops, from, snap, lost, k, n + 1, j);
    } else {
      assert forall o | from <= o < j :: ops[o].key != k;
      ViewAfter(m, ops, from, snap, lost, k, from, j);
      assert !Touched(ops, k, snap, j);
      Untouched(m, ops, k, snap, j);
    }
  }

  lemma {:induction false} FindLast<K, V>(ops: seq<Op<K, V>>, k: K, i: nat, j: nat) returns (n: nat)
    requires j <= |ops| && Touched(ops, k, i, j)
    ensures i <= n && LastTouch(ops, k, n, j)
    decreases j
  {
    if ops[j - 1].key == k {
      n := j - 1;
    } else {
      n := FindLast(ops, k, i, j - 1);
    }
  }

  /** While nothing is lost: a key touched since `from` is as in the real state, any other as in the snapshot. */
  lemma ViewCases<K, V>(m: map<K, V>, ops: seq<Op<K, V>>, from: nat, snap: nat, k: K, j: nat)
    requires from <= j <= |ops| && snap <= |ops|
    ensures Get(ViewAt(m, ops, from, snap, {}, j), k) ==
            if Touched(ops, k, from, j) then Get(StateAt(m, ops, j), k) else Get(StateAt(m, ops, snap), k)
  {
    if Touched(ops, k, from, j) {
      var n := FindLast(ops, k, from, j);
      StateOfLast(m, ops, k, n, j);
      assert forall o | n + 1 <= o < j :: ops[o].key != k;
      ViewAfter(m, ops, from, snap, {}, k, n + 1, j);
    } else {
      assert forall o | from <= o < j :: ops[o].key != k;
      ViewAfter(m, ops, from, snap, {}, k, from, j);
    }
  }

  lemma SameMap<K, V>(a: map<K, V>, b: map<K, V>)
    requires forall k | k in a || k in b :: Get(a, k) == Get(b, k)
    ensures a == b
  {
    assert forall k | k in a :: Get(a, k) == Get(b, k);
    assert forall k | k in b :: Get(a, k) == Get(b, k);
  }

  /** Replaying a suffix that the snapshot partly contains changes nothing in the end. */
  lemma ReplayConverges<K, V>(m: map<K, V>, ops: seq<Op<K, V>>, from: nat, snap: nat, j: nat)
    requires from <= snap <= j <= |ops|
    ensures ViewAt(m, ops, from, snap, {}, j) == StateAt(m, ops, j)
  {
    var a, b := ViewAt(m, ops, from, snap, {}, j), StateAt(m, ops, j);
    forall k | k in a || k in b
      ensures Get(a, k) == Get(b, k)
    {
      ViewAgrees(m, ops, from, snap, {}, k, j);
    }
    SameMap(a, b);
  }
}
