/**
 * The read-through cache with a time-to-live and a stale-on-error fallback.
 *
 * A call names a key and brings a producer. An entry younger than the TTL is
 * served as it is. Otherwise the producer runs: a value it resolves with is
 * stored together with the time the producer finished, and a rejection is
 * masked by whatever entry the key still has, however old. A rejection
 * reaches the caller only when the key has no entry at all.
 *
 * Times are milliseconds on the caller's clock. The producer is not run
 * here: a call receives the way it settled (`produced`) and reports whether
 * it was consulted at all.
 */
module TtlCache {
  import opened Wrappers

  /** The TTL used when the caller gives none: five minutes in milliseconds. */
  const CacheTtl: int := 5 * 60 * 1000

  /** A stored value and the time it was stored. */
  datatype Entry<T> = Entry(data: T, timestamp: int)

  type Store<T> = map<string, Entry<T>>

  /** An entry is fresh while its age is strictly below the TTL. */
  predicate IsFresh<T>(e: Entry<T>, now: int, ttl: int) {
    now - e.timestamp < ttl
  }

  /** The TTL a call uses: the one it passes, or the default. */
  function EffectiveTtl(ttl: Option<int>): (t: int)
    ensures ttl.None? ==> t == 300000
    ensures ttl.Some? ==> t == ttl.value
  {
    ttl.GetOr(CacheTtl)
  }

  /** What one call yields: its outcome, the store afterwards, whether the producer ran. */
  datatype Served<T, E> = Served(result: Outcome<T, E>, cache: Store<T>, consulted: bool)

  /**
   * One call of the cache for `key` at time `now`, with a producer that
   * settles as `produced` and finishes at time `done`.
   */
  function Serve<T, E>(m: Store<T>, key: string, now: int, ttl: int, produced: Outcome<T, E>, done: int): (s: Served<T, E>)
    // A fresh entry is served and nothing else happens.
    ensures key in m && IsFresh(m[key], now, ttl) ==> s == Served(Success(m[key].data), m, false)
    // The producer runs exactly when there is no fresh entry.
    ensures s.consulted <==> !(key in m && IsFresh(m[key], now, ttl))
    // A value the producer resolves with is returned and stored with its completion time.
    ensures s.consulted && produced.Success? ==>
      s.result == produced && s.cache == m[key := Entry(produced.value, done)]
    // A rejection leaves the store alone and falls back to the old entry's data.
    ensures s.consulted && produced.Failure? ==>
      s.cache == m && s.result == (if key in m then Success(m[key].data) else produced)
    // No key but the requested one is written; nothing is ever removed.
    ensures s.cache - {key} == m - {key}
    ensures m.Keys <= s.cache.Keys
    // A key that has an entry, or a producer that resolves, never lets an error out.
    ensures s.result.Failure? <==> key !in m && produced.Failure?
  {
    if key in m && IsFresh(m[key], now, ttl) then
      Served(Success(m[key].data), m, false)
    else
      match produced
      case Success(v) => Served(produced, m[key := Entry(v, done)], true)
      case Failure(_) =>
        if key in m then Served(Success(m[key].data), m, true) else Served(produced, m, true)
  }

  /** An entry whose age is exactly the TTL is already expired; one millisecond younger is fresh. */
  lemma ExpiresExactlyAtTtl<T>(e: Entry<T>, ttl: int)
    ensures !IsFresh(e, e.timestamp + ttl, ttl)
    ensures IsFresh(e, e.timestamp + ttl - 1, ttl)
  {
  }

  /**
   * After a call stores a value at time `done`, a later call for the same key
   * within the TTL returns that value without running its producer.
   */
  lemma StoredValueServedUntilExpiry<T, E>(m: Store<T>, key: string, now: int, ttl: int, v: T, done: int,
                                           later: int, produced: Outcome<T, E>, done': int)
    requires !(key in m && IsFresh(m[key], now, ttl))
    requires later - done < ttl
    ensures var s := Serve<T, E>(m, key, now, ttl, Success(v), done);
            Serve(s.cache, key, later, ttl, produced, done') == Served(Success(v), s.cache, false)
  {
  }

  /** One call as the cache sees it. */
  datatype Call<T, E> = Call(key: string, now: int, ttl: int, produced: Outcome<T, E>, done: int)

  /** The store after a sequence of calls, one at a time, starting from `m`. */
  function Replay<T, E>(m: Store<T>, calls: seq<Call<T, E>>): Store<T>
    decreases |calls|
  {
    if calls == [] then m
    else
      var c := calls[0];
      Replay(Serve(m, c.key, c.now, c.ttl, c.produced, c.done).cache, calls[1..])
  }

  /** Entries for keys that no call requests are the same before and after any sequence of calls. */
  lemma {:induction false} ReplayIsolatesKeys<T, E>(m: Store<T>, calls: seq<Call<T, E>>, k: string)
    requires forall i | 0 <= i < |calls| :: calls[i].key != k
    ensures k in Replay(m, calls) <==> k in m
    ensures k in m ==> Replay(m, calls)[k] == m[k]
    decreases |calls|
  {
    if calls != [] {
      var c := calls[0];
      var s := Serve(m, c.key, c.now, c.ttl, c.produced, c.done);
      assert c.key != k;
      assert k in s.cache <==> k in m by {
        assert k in s.cache - {c.key} <==> k in m - {c.key};
      }
      if k in m {
        assert (s.cache - {c.key})[k] == (m - {c.key})[k];
      }
      ReplayIsolatesKeys(s.cache, calls[1..], k);
    }
  }

  /** The cache never evicts: every key with an entry keeps one through any sequence of calls. */
  lemma {:induction false} ReplayNeverEvicts<T, E>(m: Store<T>, calls: seq<Call<T, E>>)
    ensures m.Keys <= Replay(m, calls).Keys
    decreases |calls|
  {
    if calls != [] {
      var c := calls[0];
      ReplayNeverEvicts(Serve(m, c.key, c.now, c.ttl, c.produced, c.done).cache, calls[1..]);
    }
  }

  /** Replaying one more call is serving it on the store the earlier calls left. */
  lemma {:induction false} ReplayAppend<T, E>(m: Store<T>, calls: seq<Call<T, E>>, c: Call<T, E>)
    ensures Replay(m, calls + [c]) == Serve(Replay(m, calls), c.key, c.now, c.ttl, c.produced, c.done).cache
    decreases |calls|
  {
    if calls == [] {
      assert [] + [c] == [c];
    } else {
      var c0 := calls[0];
      assert (calls + [c])[0] == c0;
      assert (calls + [c])[1..] == calls[1..] + [c];
      ReplayAppend(Serve(m, c0.key, c0.now, c0.ttl, c0.produced, c0.done).cache, calls[1..], c);
    }
  }

  /** Whether call `i` of a sequence ran its producer and the producer resolved, so the call stored. */
  predicate StoredBy<T, E>(m: Store<T>, calls: seq<Call<T, E>>, i: int)
    requires 0 <= i < |calls|
  {
    var c := calls[i];
    Serve(Replay(m, calls[..i]), c.key, c.now, c.ttl, c.produced, c.done).consulted && c.produced.Success?
  }

  /** Whether a call is its sequence's call `i` and stored under `k`. */
  predicate StoresUnder<T, E>(m: Store<T>, calls: seq<Call<T, E>>, i: int, k: string)
    requires 0 <= i < |calls|
  {
    calls[i].key == k && StoredBy(m, calls, i)
  }

  /** Cutting calls off the end does not change which of the remaining calls stored. */
  lemma StoresUnderPrefix<T, E>(m: Store<T>, calls: seq<Call<T, E>>, n: int, k: string)
    requires 0 <= n <= |calls|
    ensures forall j | 0 <= j < n :: StoresUnder(m, calls[..n], j, k) == StoresUnder(m, calls, j, k)
  {
    forall j | 0 <= j < n ensures StoresUnder(m, calls[..n], j, k) == StoresUnder(m, calls, j, k) {
      assert calls[..n][..j] == calls[..j];
    }
  }

  /** The index of the last call that stored under `k`, if any call did. */
  function LastStore<T, E>(m: Store<T>, calls: seq<Call<T, E>>, k: string): (r: Option<int>)
    ensures r.Some? ==>
      && 0 <= r.value < |calls| && StoresUnder(m, calls, r.value, k)
      && forall j | r.value < j < |calls| :: !StoresUnder(m, calls, j, k)
    ensures r.None? ==> forall j | 0 <= j < |calls| :: !StoresUnder(m, calls, j, k)
    decreases |calls|
  {
    if calls == [] then None
    else
      var n := |calls| - 1;
      if StoresUnder(m, calls, n, k) then Some(n)
      else
        StoresUnderPrefix(m, calls, n, k);
        LastStore(m, calls[..n], k)
  }

  /**
   * After a sequence of calls, a key holds the value and completion time of
   * the last call that ran its producer for it and got a value; when no call
   * did, it holds what it held at the start, or still nothing.
   */
  lemma {:induction false} ReplayHoldsLatestStore<T, E>(m: Store<T>, calls: seq<Call<T, E>>, k: string)
    ensures match LastStore(m, calls, k)
      case Some(i) =>
        k in Replay(m, calls) && Replay(m, calls)[k] == Entry(calls[i].produced.value, calls[i].done)
      case None =>
        (k in Replay(m, calls) <==> k in m) && (k in m ==> Replay(m, calls)[k] == m[k])
    decreases |calls|
  {
    if calls != [] {
      var n := |calls| - 1;
      var pre, c := calls[..n], calls[n];
      assert calls == pre + [c];
      ReplayAppend(m, pre, c);
      var before := Replay(m, pre);
      var s := Serve(before, c.key, c.now, c.ttl, c.produced, c.done);
      if !StoresUnder(m, calls, n, k) {
        ReplayHoldsLatestStore(m, pre, k);
        assert k in s.cache <==> k in before by {
          assert k in s.cache - {c.key} <==> k in before - {c.key};
        }
        if k in before && c.key != k {
          assert (s.cache - {c.key})[k] == (before - {c.key})[k];
        }
        match LastStore(m, calls, k)
        case Some(i) => assert calls[i] == pre[i];
        case None =>
      }
    }
  }

  /**
   * Every entry after a sequence of calls was there from the start or was
   * stored by one of the calls: a call for that key that ran its producer,
   * which resolved with the entry's data and finished at the entry's timestamp.
   */
  lemma ReplayEntriesComeFromSuccesses<T, E>(m: Store<T>, calls: seq<Call<T, E>>, k: string)
    requires k in Replay(m, calls)
    ensures var e := Replay(m, calls)[k];
      (k in m && e == m[k]) ||
      exists i | 0 <= i < |calls| ::
        StoresUnder(m, calls, i, k) && calls[i].produced == Success(e.data) && calls[i].done == e.timestamp
  {
    ReplayHoldsLatestStore(m, calls, k);
  }

  /**
   * The scenario of a one-second TTL: "A" produced at 0 is served at 500
   * without running the producer; at 1500 the producer's "B" replaces it;
   * at 3000 a rejected producer is masked by the stale "B".
   */
  lemma OneSecondScenario(anyOutcome: Outcome<string, string>, err: string)
    ensures var s1 := Serve<string, string>(map[], "k", 0, 1000, Success("A"), 0);
            var s2 := Serve(s1.cache, "k", 500, 1000, anyOutcome, 500);
            var s3 := Serve<string, string>(s2.cache, "k", 1500, 1000, Success("B"), 1500);
            var s4 := Serve(s3.cache, "k", 3000, 1000, Failure(err), 3000);
            && s1.result == Success("A") && s1.consulted
            && s2.result == Success("A") && !s2.consulted
            && s3.result == Success("B") && s3.consulted && s3.cache == map["k" := Entry("B", 1500)]
            && s4.result == Success("B") && s4.consulted && s4.cache == s3.cache
  {
  }

  /** The process-wide cache: a mutable map from keys to entries. */
  class Cache<T> {
    var entries: Store<T>

    constructor ()
      ensures entries == map[]
    {
      entries := map[];
    }

    /**
     * Serves `key`: from a fresh entry, or by consulting the producer, which
     * settles as `produced` and finishes at time `done`. `now` is the time of
     * the freshness check; `ttl` is the optional TTL argument.
     */
    method Get<E>(key: string, now: int, produced: Outcome<T, E>, done: int, ttl: Option<int>)
      returns (r: Outcome<T, E>, consulted: bool)
      modifies this
      ensures var s := Serve(old(entries), key, now, EffectiveTtl(ttl), produced, done);
              r == s.result && consulted == s.consulted && entries == s.cache
    {
      var t := EffectiveTtl(ttl);
      var cached: Option<Entry<T>> := if key in entries then Some(entries[key]) else None;
      if cached.Some? && now - cached.value.timestamp < t {
        return Success(cached.value.data), false;
      }
      consulted := true;
      match produced {
        case Success(data) =>
          entries := entries[key := Entry(data, done)];
          r := produced;
        case Failure(_) =>
          if cached.Some? {
            r := Success(cached.value.data);
          } else {
            r := produced;
          }
      }
    }
  }
}
