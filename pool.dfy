/**
 * The subscriber connection pool of lib/index.js: a stack of idle clients and
 * the number of clients connected so far, which names the next fresh client.
 */
module Pool {
  import opened Store
  import opened Repetition

  datatype PoolState = PoolState(idle: seq<Client>, connected: nat)

  /** No client twice on the stack, and every idle client was connected by this pool. */
  predicate WellFormed(p: PoolState)
  {
    && (forall i, j :: 0 <= i < j < |p.idle| ==> p.idle[i] != p.idle[j])
    && (forall i :: 0 <= i < |p.idle| ==> p.idle[i].id < p.connected)
  }

  /** `redisLib.connect()`: a client no earlier connect returned. */
  function Connect(p: PoolState): (r: (Client, PoolState))
  {
    (Client(p.connected), p.(connected := p.connected + 1))
  }

  /** `_getRedisClientSubscriber`: pop the most recently pushed idle client, or connect. */
  function Acquire(p: PoolState): (r: (Client, PoolState))
    ensures |p.idle| > 0 ==> r.1.idle + [r.0] == p.idle && r.1.connected == p.connected
    ensures |p.idle| == 0 ==> r.0 == Client(p.connected) && r.1.idle == [] && r.1.connected == p.connected + 1
  {
    if |p.idle| > 0 then (p.idle[|p.idle| - 1], p.(idle := p.idle[..|p.idle| - 1]))
    else Connect(p)
  }

  /**
   * The close handler: keep the client while the pool is below `min`,
   * otherwise end it. A release never takes the pool past `min`.
   */
  function Release(p: PoolState, c: Client, min: nat): (r: PoolState)
    ensures |p.idle| <= min ==> |r.idle| <= min
    ensures |p.idle| < min <==> r.idle == p.idle + [c]
    ensures |p.idle| >= min ==> r == p
    ensures r.connected == p.connected
  {
    if |p.idle| < min then p.(idle := p.idle + [c]) else p
  }

  /** The pre-fill callback of `runServer`: connect and push; the index is unused. */
  function OpenOne(i: nat, p: PoolState): PoolState
  {
    var (c, q) := Connect(p);
    q.(idle := q.idle + [c])
  }

  /**
   * A client is issued at most once: the acquired one is new or was idle, it
   * leaves the idle stack, and clients in use are never idle.
   */
  predicate Issued(p: PoolState, inUse: set<Client>)
  {
    && WellFormed(p)
    && (forall i :: 0 <= i < |p.idle| ==> p.idle[i] !in inUse)
    && (forall c :: c in inUse ==> c.id < p.connected)
  }

  lemma AcquireIssuesUnused(p: PoolState, inUse: set<Client>)
    requires Issued(p, inUse)
    ensures var (c, q) := Acquire(p);
      && c !in inUse
      && (forall i :: 0 <= i < |q.idle| ==> q.idle[i] != c)
      && Issued(q, inUse + {c})
      && (|p.idle| > 0 ==> c in p.idle && q.connected == p.connected)
      && (|p.idle| == 0 ==> c.id == p.connected && q.connected == p.connected + 1)
  {
    var (c, q) := Acquire(p);
    if |p.idle| > 0 {
      var n := |p.idle| - 1;
      assert c == p.idle[n];
      forall i | 0 <= i < |q.idle| ensures q.idle[i] != c {
        assert q.idle[i] == p.idle[i];
      }
    }
  }

  lemma ReleaseReturnsToPool(p: PoolState, inUse: set<Client>, c: Client, min: nat)
    requires Issued(p, inUse) && c in inUse
    ensures Issued(Release(p, c, min), inUse - {c})
  {
    var q := Release(p, c, min);
    if |p.idle| < min {
      forall i | 0 <= i < |q.idle| ensures q.idle[i] !in inUse - {c} {
        if i < |p.idle| {
          assert q.idle[i] == p.idle[i];
        }
      }
    }
  }

  /** Releasing the client just acquired from an idle pool within its cap restores the pool. */
  lemma {:induction false} AcquireReleaseRoundTrip(p: PoolState, min: nat)
    requires 0 < |p.idle| <= min
    ensures Release(Acquire(p).1, Acquire(p).0, min) == p
  {
    assert p.idle[..|p.idle| - 1] + [p.idle[|p.idle| - 1]] == p.idle;
  }

  /** Pre-filling n clients pushes the next n fresh clients, oldest first. */
  lemma {:induction false} PreFillSpec(p: PoolState, n: nat)
    ensures var r := Iterate(OpenOne, p, n);
      && r.connected == p.connected + n
      && |r.idle| == |p.idle| + n
      && r.idle[..|p.idle|] == p.idle
      && (forall i :: |p.idle| <= i < |r.idle| ==> r.idle[i] == Client(p.connected + (i - |p.idle|)))
    decreases n
  {
    if n > 0 {
      PreFillSpec(p, n - 1);
      var r0 := Iterate(OpenOne, p, n - 1);
      var r := Iterate(OpenOne, p, n);
      assert r == OpenOne(n - 1, r0);
      assert r.idle == r0.idle + [Client(r0.connected)];
      forall i | |p.idle| <= i < |r.idle| ensures r.idle[i] == Client(p.connected + (i - |p.idle|)) {
        if i < |r0.idle| {
          assert r.idle[i] == r0.idle[i];
        }
      }
      assert r.idle[..|p.idle|] == r0.idle[..|p.idle|];
    }
  }

  /** Pre-filling keeps the pool well formed: the pushed clients are fresh and distinct. */
  lemma PreFillWellFormed(p: PoolState, n: nat)
    requires WellFormed(p)
    ensures WellFormed(Iterate(OpenOne, p, n))
  {
    PreFillSpec(p, n);
    var r := Iterate(OpenOne, p, n);
    forall i | 0 <= i < |p.idle| ensures r.idle[i] == p.idle[i] {
      assert r.idle[..|p.idle|][i] == r.idle[i];
    }
  }
}
