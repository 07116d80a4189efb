/**
 * The promotion loop (lib/inpender.js): every pass moves each queue's due
 * ids from the delayed index to the tail of the pending list, one MULTI/EXEC
 * per id, while holding that queue's lock.
 */
module Promoter {
  import opened Wrappers
  import opened QueueModel
  import opened Store
  import Keys

  /** The lease asked for on a queue's lock, in ms. */
  const LockDuration: nat := 1000

  /**
   * Successive passes over one queue, one per clock reading. Passes only
   * append to the pending list and never touch payloads or the counter.
   */
  function PromoteRounds(d: QueueData, clock: seq<int>): (r: QueueData)
    ensures |r.pending| >= |d.pending| && r.pending[..|d.pending|] == d.pending
    ensures r.payload == d.payload && r.counter == d.counter
    decreases |clock|
  {
    if clock == [] then d
    else
      var d1 := PromoteDue(d, clock[0]);
      var r := PromoteRounds(d1, clock[1..]);
      assert r.pending[..|d.pending|] == r.pending[..|d1.pending|][..|d.pending|];
      r
  }

  /** One more pass after a run of passes. */
  lemma {:induction false} PromoteRoundsSnoc(d: QueueData, clock: seq<int>, now: int)
    ensures PromoteRounds(d, clock + [now]) == PromoteDue(PromoteRounds(d, clock), now)
    decreases |clock|
  {
    if clock != [] {
      PromoteRoundsSnoc(PromoteDue(d, clock[0]), clock[1..], now);
      assert (clock + [now])[1..] == clock[1..] + [now];
    }
  }

  /**
   * Any number of passes keeps the queue consistent and conserves index size
   * plus list length.
   */
  lemma {:induction false} PromoteRoundsInvariant(d: QueueData, clock: seq<int>)
    requires Consistent(d)
    ensures Consistent(PromoteRounds(d, clock))
    ensures |PromoteRounds(d, clock).index| + |PromoteRounds(d, clock).pending| == |d.index| + |d.pending|
    decreases |clock|
  {
    if clock != [] {
      PromoteDueConsistent(d, clock[0]);
      PromoteDueConserves(d, clock[0]);
      PromoteRoundsInvariant(PromoteDue(d, clock[0]), clock[1..]);
    }
  }

  /**
   * Promotion never makes an id pending before its embargo: every id that a
   * pass at time `now` adds to the pending list has a score in [0, now].
   */
  lemma NothingEarly(d: QueueData, now: int, id: nat)
    requires id in PromoteDue(d, now).pending && id !in d.pending
    ensures id in d.index && 0 <= d.index[id] <= now
  {
    PromoteDueSpec(d, now);
    var r := PromoteDue(d, now);
    var i :| 0 <= i < |r.pending| && r.pending[i] == id;
  }

  class Inpender {
    const store: Store
    const prefix: string

    constructor (store: Store, prefix: string)
      ensures this.store == store && this.prefix == prefix
    {
      this.store := store;
      this.prefix := prefix;
    }

    /** `_getReadyItems`: the ids due at `now`, in ascending score order. */
    method GetReadyItems(q: string, now: int) returns (ids: seq<nat>)
      ensures forall id :: id in ids <==> id in store.Of(q).index && 0 <= store.Of(q).index[id] <= now
      ensures NoDup(ids) && SortedBy(store.Of(q).index, ids)
      ensures ids == Ready(store.Of(q).index, now)
    {
      ids := store.RangeByScore(q, now);
    }

    /** `_moveItemToPending`: one MULTI/EXEC of RPUSH and ZREM. */
    method MoveItemToPending(q: string, id: nat)
      modifies store
      ensures store.data == old(store.data)[q := MoveItem(old(store.Of(q)), id)]
      ensures store.queues == old(store.queues) && store.locks == old(store.locks)
    {
      store.MoveToList(q, id);
    }

    /** The loop of `_moveQueueToPending`: one move per id, in the order given. */
    method MoveAllToPending(q: string, ids: seq<nat>)
      modifies store
      ensures store.Of(q) == Promote(old(store.Of(q)), ids)
      ensures forall other :: other != q ==> store.Of(other) == old(store.Of(other))
      ensures store.queues == old(store.queues) && store.locks == old(store.locks)
    {
      ghost var d0 := store.Of(q);
      assert Promote(d0, ids[..0]) == d0;
      var i := 0;
      while i < |ids|
        invariant 0 <= i <= |ids|
        invariant store.Of(q) == Promote(d0, ids[..i])
        invariant forall other :: other != q ==> store.Of(other) == old(store.Of(other))
        invariant store.queues == old(store.queues) && store.locks == old(store.locks)
      {
        label before:
        MoveItemToPending(q, ids[i]);
        PromotePrefixStep(d0, ids, i);
        forall other | other != q ensures store.Of(other) == old(store.Of(other)) {
          assert store.Of(other) == old@before(store.Of(other));
        }
        i := i + 1;
      }
      assert ids[..|ids|] == ids;
    }

    /**
     * `_moveQueueToPending`: take the queue's lock, move every due id, then
     * unlock. When the lock is held elsewhere the queue is skipped.
     */
    method MoveQueueToPending(q: string, now: int) returns (locked: bool)
      modifies store
      ensures locked <==> Keys.LockKey(prefix, q) !in old(store.locks)
      ensures store.Of(q) == if locked then PromoteDue(old(store.Of(q)), now) else old(store.Of(q))
      ensures forall other :: other != q ==> store.Of(other) == old(store.Of(other))
      ensures store.queues == old(store.queues) && store.locks == old(store.locks)
    {
      var key := Keys.LockKey(prefix, q);
      locked := store.Lock(key, LockDuration);
      if !locked {
        return;
      }
      ghost var d0 := store.Of(q);
      var ready := GetReadyItems(q, now);
      MoveAllToPending(q, ready);
      assert store.Of(q) == PromoteDue(d0, now);
      assert store.locks == old(store.locks)[key := LockDuration];
      label moved:
      store.Unlock(key);
      assert store.locks == old(store.locks)[key := LockDuration] - {key};
      forall other | other != q
        ensures store.Of(other) == old(store.Of(other))
      {
        assert store.Of(other) == old@moved(store.Of(other));
      }
    }

    /** One pass of `moveToPending`: a queue pass for every queue of the directory. */
    method MoveToPending(now: int)
      modifies store
      ensures forall q :: store.Of(q) ==
                (if q in old(store.queues) && Keys.LockKey(prefix, q) !in old(store.locks)
                 then PromoteDue(old(store.Of(q)), now) else old(store.Of(q)))
      ensures store.queues == old(store.queues) && store.locks == old(store.locks)
    {
      var qs := store.Members();
      var k := 0;
      while k < |qs|
        invariant 0 <= k <= |qs|
        invariant forall q :: store.Of(q) ==
                    (if q in qs[..k] && Keys.LockKey(prefix, q) !in old(store.locks)
                     then PromoteDue(old(store.Of(q)), now) else old(store.Of(q)))
        invariant store.queues == old(store.queues) && store.locks == old(store.locks)
      {
        assert qs[k] !in qs[..k];
        label before:
        var _ := MoveQueueToPending(qs[k], now);
        assert qs[..k + 1] == qs[..k] + [qs[k]];
        forall q ensures store.Of(q) ==
            (if q in qs[..k + 1] && Keys.LockKey(prefix, q) !in old(store.locks)
             then PromoteDue(old(store.Of(q)), now) else old(store.Of(q)))
        {
          if q != qs[k] {
            assert store.Of(q) == old@before(store.Of(q));
          }
        }
        k := k + 1;
      }
      assert qs[..|qs|] == qs;
    }

    /** The repeating loop: one pass per clock reading, the sleeps between them abstracted away. */
    method Run(clock: seq<int>)
      modifies store
      ensures forall q :: store.Of(q) ==
                (if q in old(store.queues) && Keys.LockKey(prefix, q) !in old(store.locks)
                 then PromoteRounds(old(store.Of(q)), clock) else old(store.Of(q)))
      ensures store.queues == old(store.queues) && store.locks == old(store.locks)
    {
      var n := 0;
      while n < |clock|
        invariant 0 <= n <= |clock|
        invariant forall q :: store.Of(q) ==
                    (if q in old(store.queues) && Keys.LockKey(prefix, q) !in old(store.locks)
                     then PromoteRounds(old(store.Of(q)), clock[..n]) else old(store.Of(q)))
        invariant store.queues == old(store.queues) && store.locks == old(store.locks)
      {
        MoveToPending(clock[n]);
        forall q ensures PromoteRounds(old(store.Of(q)), clock[..n + 1]) ==
          PromoteDue(PromoteRounds(old(store.Of(q)), clock[..n]), clock[n])
        {
          assert clock[..n + 1] == clock[..n] + [clock[n]];
          PromoteRoundsSnoc(old(store.Of(q)), clock[..n], clock[n]);
        }
        n := n + 1;
      }
      assert clock[..|clock|] == clock;
    }
  }
}
