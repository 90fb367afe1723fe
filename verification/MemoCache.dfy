/** `createCache`: a map with a queue of its keys, of which only the most recent are kept. */
module MemoCache {

  datatype Memo<K, V> = Memo(keys: seq<K>, live: map<K, V>)

  /** One call of the cache function: the key is queued, the oldest goes if there are too many, the value is stored. */
  function Put<K, V>(m: Memo<K, V>, limit: nat, key: K, value: V): Memo<K, V> {
    var keys := m.keys + [key];
    if |keys| > limit then Memo(keys[1..], (m.live - {keys[0]})[key := value])
    else Memo(keys, m.live[key := value])
  }

  ghost function After<K, V>(puts: seq<(K, V)>, limit: nat): Memo<K, V> {
    if |puts| == 0 then Memo([], map[])
    else Put(After(puts[..|puts| - 1], limit), limit, puts[|puts| - 1].0, puts[|puts| - 1].1)
  }

  function Keys<K, V>(puts: seq<(K, V)>): seq<K> { seq(|puts|, i requires 0 <= i < |puts| => puts[i].0) }

  /** What may be relied on when at least one entry is allowed. */
  ghost predicate Sound<K, V>(m: Memo<K, V>, limit: nat) {
    && |m.keys| <= limit
    && (forall k :: k in m.live ==> k in m.keys)
  }

  lemma PutKeeps<K, V>(m: Memo<K, V>, limit: nat, key: K, value: V)
    requires limit >= 1 && Sound(m, limit)
    ensures var r := Put(m, limit, key, value);
            Sound(r, limit) && key in r.live && r.live[key] == value && r.keys[|r.keys| - 1] == key
  {
    var r := Put(m, limit, key, value);
    forall k | k in r.live ensures k in r.keys {
      if k != key {
        var i :| 0 <= i < |m.keys| && m.keys[i] == k;
        if |m.keys| + 1 > limit { assert i > 0 && r.keys[i - 1] == k; } else { assert r.keys[i] == k; }
      } else {
        assert r.keys[|r.keys| - 1] == key;
      }
    }
  }

  /** Distinct keys in a queue are no more than the queue is long. */
  lemma {:induction false} FewKeys<K>(keys: seq<K>, s: set<K>)
    requires forall k :: k in s ==> k in keys
    ensures |s| <= |keys|
    decreases |keys|
  {
    if |keys| == 0 {
    } else {
      FewKeys(keys[1..], s - {keys[0]});
      assert |s - {keys[0]}| >= |s| - 1;
    }
  }

  /** Where the kept part of a history begins. */
  function Start(n: nat, limit: nat): nat { if n <= limit then 0 else n - limit }

  /**
   After any calls: the queue is the keys of the last `limit` calls, in order, so the oldest went first; only queued
   keys have values; and there are no more than `limit` of them.
   */
  lemma {:induction false} QueueIsTheLastCalls<K, V>(puts: seq<(K, V)>, limit: nat)
    requires limit >= 1
    ensures var m := After(puts, limit);
            m.keys == Keys(puts)[Start(|puts|, limit)..] && Sound(m, limit) && |m.live| <= limit
    decreases |puts|
  {
    if |puts| > 0 {
      var before, last := puts[..|puts| - 1], puts[|puts| - 1];
      QueueIsTheLastCalls(before, limit);
      PutKeeps(After(before, limit), limit, last.0, last.1);
      OneMoreCall(After(before, limit), Keys(before), last.0, last.1, limit);
      KeysSnoc(puts);
    }
    FewKeys(After(puts, limit).keys, After(puts, limit).live.Keys);
  }

  lemma OneMoreCall<K, V>(m: Memo<K, V>, all: seq<K>, key: K, value: V, limit: nat)
    requires limit >= 1 && m.keys == all[Start(|all|, limit)..]
    ensures Put(m, limit, key, value).keys == (all + [key])[Start(|all| + 1, limit)..]
  {
    var start := Start(|all|, limit);
    assert m.keys + [key] == (all + [key])[start..];
    assert (all + [key])[start..][1..] == (all + [key])[start + 1..];
  }

  lemma KeysSnoc<K, V>(puts: seq<(K, V)>)
    requires |puts| > 0
    ensures Keys(puts) == Keys(puts[..|puts| - 1]) + [puts[|puts| - 1].0]
  {
  }

  /** The value of a live key is the one stored with it last. */
  lemma {:induction false} LatestValue<K, V>(puts: seq<(K, V)>, limit: nat, k: K)
    requires k in After(puts, limit).live
    ensures exists i ::
              && 0 <= i < |puts| && puts[i] == (k, After(puts, limit).live[k])
              && forall j :: i < j < |puts| ==> puts[j].0 != k
    decreases |puts|
  {
    var before, last := puts[..|puts| - 1], puts[|puts| - 1];
    if last.0 == k {
      assert puts[|puts| - 1] == (k, last.1);
    } else {
      LatestValue(before, limit, k);
      var i :| 0 <= i < |before| && before[i] == (k, After(before, limit).live[k])
          && forall j :: i < j < |before| ==> before[j].0 != k;
      assert puts[i] == before[i] && forall j :: i < j < |before| ==> puts[j] == before[j];
    }
  }

  /** Every call stores a key that has no value at that time, as the callers in the selector engine do. */
  ghost predicate MissesOnly<K, V>(puts: seq<(K, V)>, limit: nat)
    decreases |puts|
  {
    |puts| > 0 ==> MissesOnly(puts[..|puts| - 1], limit) && puts[|puts| - 1].0 !in After(puts[..|puts| - 1], limit).live
  }

  ghost predicate Exact<K, V>(m: Memo<K, V>) {
    && (forall k :: k in m.live ==> k in m.keys)
    && (forall k :: k in m.keys ==> k in m.live)
    && (forall i, j :: 0 <= i < j < |m.keys| ==> m.keys[i] != m.keys[j])
  }

  lemma PutExact<K, V>(m: Memo<K, V>, limit: nat, key: K, value: V)
    requires limit >= 1 && Exact(m) && key !in m.live
    ensures Exact(Put(m, limit, key, value))
  {
    var r := Put(m, limit, key, value);
    var all := m.keys + [key];
    assert forall i, j :: 0 <= i < j < |all| ==> all[i] != all[j];
    if |all| > limit {
      assert forall k :: k in all <==> k == all[0] || k in all[1..];
    }
  }

  /** Used on misses only, the cache holds exactly the keys of the last `limit` calls, each once. */
  lemma {:induction false} LastOnesAreLive<K, V>(puts: seq<(K, V)>, limit: nat)
    requires limit >= 1 && MissesOnly(puts, limit)
    ensures forall k :: k in After(puts, limit).live <==> k in Keys(puts)[Start(|puts|, limit)..]
    ensures Exact(After(puts, limit))
    decreases |puts|
  {
    if |puts| > 0 {
      var before, last := puts[..|puts| - 1], puts[|puts| - 1];
      LastOnesAreLive(before, limit);
      PutExact(After(before, limit), limit, last.0, last.1);
    }
    QueueIsTheLastCalls(puts, limit);
  }

  /** The bound holds in every run exactly when it is at least one: with zero the new entry is kept all the same. */
  lemma BoundExactly<K(!new), V(!new)>(limit: nat, key: K, value: V)
    ensures (forall puts: seq<(K, V)> :: |After(puts, limit).live| <= limit) <==> limit >= 1
  {
    if limit >= 1 {
      forall puts: seq<(K, V)> ensures |After(puts, limit).live| <= limit { QueueIsTheLastCalls(puts, limit); }
    } else {
      var one := [(key, value)];
      assert one[..0] == [];
      assert After(one, 0).live == map[key := value];
      assert |After(one, 0).live| == 1;
    }
  }

  /** With a limit of zero nothing is ever removed, so distinct keys pile up without end. */
  lemma {:induction false} NothingLeaves<K, V>(puts: seq<(K, V)>, k: K)
    requires k in Keys(puts)
    ensures k in After(puts, 0).live && |After(puts, 0).keys| == 0
    decreases |puts|
  {
    var before, last := puts[..|puts| - 1], puts[|puts| - 1];
    NoQueue(before);
    if k != last.0 {
      KeysSnoc(puts);
      NothingLeaves(before, k);
    }
  }

  lemma {:induction false} NoQueue<K, V>(puts: seq<(K, V)>)
    ensures |After(puts, 0).keys| == 0
    decreases |puts|
  {
    if |puts| == 0 {
    } else {
      NoQueue(puts[..|puts| - 1]);
    }
  }

  class KeyCache<K(==), V> {
    const cacheLength: nat
    var keys: seq<K>
    var live: map<K, V>

    function State(): Memo<K, V>
      reads this
    {
      Memo(keys, live)
    }

    constructor (limit: nat)
      ensures State() == Memo([], map[]) && cacheLength == limit
    {
      cacheLength, keys, live := limit, [], map[];
    }

    /** The cache function: `push`, perhaps `shift` and `delete`, then the assignment. */
    method Store(key: K, value: V)
      modifies this
      ensures State() == Put(old(State()), cacheLength, key, value)
    {
      keys := keys + [key];
      if |keys| > cacheLength {
        live := live - {keys[0]};
        keys := keys[1..];
      }
      live := live[key := value];
    }
  }
}
