/**
 * The fetch path (lib/getter.js): a consumer connection's Getter pops one
 * item off a queue's pending list and keeps a backup of it until the item
 * is acknowledged, so that a connection that closes early returns it.
 */
module Consumer {
  import opened Wrappers
  import opened Text
  import opened QueueModel
  import opened Store

  datatype GetError =
    | InvalidCommand   // `FETCH` with no queue token: reading `.trim()` of undefined throws
    | NoBackup         // a step that reads `_backup.id` while no item is held
    | UnboundQueue     // the ReferenceError of the unbound `queue` in `reject` as written

  /** `message.split(' ')[1].trim()`, when there is a second token. */
  function FetchQueue(message: string): (r: Option<string>)
    ensures r.Some? <==> ' ' in message
  {
    SplitPieces(message, ' ');
    OccursIffIn(message, ' ');
    var tokens := Split(message, ' ');
    if |tokens| < 2 then None else Some(Trim(tokens[1]))
  }

  /** Where a queue name is the only text after `FETCH `, it is what the getter reads. */
  lemma FetchQueueOfCommand(q: string)
    requires ' ' !in q
    ensures FetchQueue("FETCH " + q) == Some(Trim(q))
  {
    assert Join(["FETCH", q], ' ') == "FETCH " + q by {
      assert Join(["FETCH", q][1..], ' ') == q;
    }
    SplitJoin(["FETCH", q], ' ');
  }

  // ----- The lifecycle as values: what each step does to the backup and the queue -----

  /** `accept`: with a backup, DEL its payload entry; the backup stays set. */
  function AfterAccept(backup: Option<Item>, d: QueueData): (r: QueueData)
    ensures r.pending == d.pending && r.index == d.index && r.counter == d.counter
    ensures backup.Some? ==> r.payload.Keys == d.payload.Keys - {backup.value.id}
    ensures backup.Some? ==> r.payload == d.payload - {backup.value.id}
    ensures backup.None? ==> r == d
  {
    if backup.Some? then Deleted(d, backup.value.id) else d
  }

  /** `reject` (as intended): with a backup, RPUSH its id back; the backup is cleared. */
  function AfterReject(backup: Option<Item>, d: QueueData): (r: (Option<Item>, QueueData))
    ensures r.0 == None
    ensures r.1.payload == d.payload && r.1.index == d.index && r.1.counter == d.counter
    ensures r.1.pending == d.pending + (if backup.Some? then [backup.value.id] else [])
  {
    if backup.Some? then (None, Pushed(d, backup.value.id)) else (backup, d)
  }

  /** `reject` as written: the unbound `queue` throws before anything is pushed or cleared. */
  function RejectAsWritten(backup: Option<Item>, d: QueueData): (r: (Outcome<GetError>, Option<Item>, QueueData))
    ensures r.0 == Fail(UnboundQueue) && r.1 == backup && r.2 == d
  {
    (Fail(UnboundQueue), backup, d)
  }

  /** `close`: with a backup, RPUSH its id and rewrite its payload entry (and report the return). */
  function AfterClose(backup: Option<Item>, d: QueueData): (r: QueueData)
    ensures r.index == d.index && r.counter == d.counter
    ensures backup.Some? ==>
      && r.pending == d.pending + [backup.value.id]
      && r.payload.Keys == d.payload.Keys + {backup.value.id} && r.payload[backup.value.id] == backup.value
    ensures backup.Some? ==> r.payload == d.payload[backup.value.id := backup.value]
    ensures backup.None? ==> r == d
  {
    if backup.Some? then Returned(d, backup.value) else d
  }

  /**
   * With a held item, the rejection as written leaves the item neither
   * pending nor released, while the intended one puts its id back on the
   * tail of the pending list, clears the backup and keeps the payload entry.
   */
  lemma RejectDiscrepancy(it: Item, d: QueueData)
    ensures RejectAsWritten(Some(it), d).0.Fail?
    ensures RejectAsWritten(Some(it), d).1 == Some(it) && RejectAsWritten(Some(it), d).2.pending == d.pending
    ensures AfterReject(Some(it), d).0 == None
    ensures AfterReject(Some(it), d).1.pending == d.pending + [it.id]
    ensures AfterReject(Some(it), d).1.payload == d.payload && AfterReject(Some(it), d).1.index == d.index
  {
  }

  /**
   * Fetch, accept, then close without ACK: the id is back at the tail of the
   * pending list and the payload table is what it was after the fetch, so
   * the item is restored; the index is never touched.
   */
  lemma CloseWithoutAckRequeues(d: QueueData)
    requires Consistent(d) && FetchNext(d).0.Some?
    ensures var it := FetchNext(d).0.value;
      var fetched := FetchNext(d).1;
      var closed := AfterClose(Some(it), AfterAccept(Some(it), fetched));
      && closed.pending == fetched.pending + [it.id]
      && closed.payload == fetched.payload == d.payload
      && closed.index == d.index
      && it.id in closed.payload && closed.payload[it.id] == it
  {
    FetchNextConsistent(d);
    FetchNextSpec(d);
    var it := FetchNext(d).0.value;
    var fetched := FetchNext(d).1;
    assert fetched.payload == d.payload;
    var closed := AfterClose(Some(it), AfterAccept(Some(it), fetched));
    assert closed.payload == (d.payload - {it.id})[it.id := it];
    assert closed.payload == d.payload;
  }

  /**
   * The at-least-once scenario: when the fetched item was the last one
   * pending, the next fetch after a close without ACK returns the same item.
   */
  lemma RedeliveredAfterClose(d: QueueData)
    requires Consistent(d) && FetchNext(d).0.Some? && FetchNext(d).1.pending == []
    ensures var it := FetchNext(d).0.value;
      FetchNext(AfterClose(Some(it), AfterAccept(Some(it), FetchNext(d).1))).0 == Some(it)
  {
    CloseWithoutAckRequeues(d);
  }

  /**
   * Fetch, accept, ACK, then close: the close changes nothing and the item
   * is gone for good, with no payload entry and its id neither pending nor indexed.
   */
  lemma AckedItemIsCommitted(d: QueueData)
    requires Consistent(d) && FetchNext(d).0.Some?
    ensures var it := FetchNext(d).0.value;
      var accepted := AfterAccept(Some(it), FetchNext(d).1);
      && AfterClose(None, accepted) == accepted
      && it.id !in accepted.payload && it.id !in accepted.pending && it.id !in accepted.index
  {
    FetchNextConsistent(d);
    FetchNextSpec(d);
  }

  /** Fetching and accepting keep the queue consistent. */
  lemma AcceptConsistent(d: QueueData)
    requires Consistent(d) && FetchNext(d).0.Some?
    ensures Consistent(AfterAccept(FetchNext(d).0, FetchNext(d).1))
  {
    FetchNextConsistent(d);
    FetchNextSpec(d);
  }

  /** A close that returns a fetched-and-accepted item keeps the queue consistent. */
  lemma CloseConsistent(d: QueueData)
    requires Consistent(d) && FetchNext(d).0.Some?
    ensures Consistent(AfterClose(FetchNext(d).0, AfterAccept(FetchNext(d).0, FetchNext(d).1)))
  {
    FetchNextConsistent(d);
    FetchNextSpec(d);
    CloseWithoutAckRequeues(d);
    var it := FetchNext(d).0.value;
    var fetched := FetchNext(d).1;
    var c := AfterClose(Some(it), AfterAccept(Some(it), fetched));
    forall i, j | 0 <= i < j < |c.pending| ensures c.pending[i] != c.pending[j] {
      if j == |c.pending| - 1 {
        assert c.pending[i] == fetched.pending[i];
      } else {
        assert c.pending[i] == fetched.pending[i] && c.pending[j] == fetched.pending[j];
      }
    }
  }

  /** One consumer connection's getter. */
  class Getter {
    const store: Store
    /** The backing-store connection borrowed from the pool. */
    const client: Client
    var queue: string
    /** The item fetched and not yet acknowledged. */
    var backup: Option<Item>

    /** A new getter holds no backup. */
    constructor (store: Store, client: Client)
      ensures this.store == store && this.client == client
      ensures queue == "" && backup == None
    {
      this.store := store;
      this.client := client;
      queue, backup := "", None;
    }

    /** `prepare`: the queue is the second single-space token, trimmed; the store is not touched. */
    method Prepare(message: string) returns (r: Outcome<GetError>)
      modifies this
      ensures r.Pass? <==> FetchQueue(message).Some?
      ensures r.Pass? ==> queue == FetchQueue(message).value
      ensures r.Fail? ==> r.error == InvalidCommand && queue == old(queue)
      ensures backup == old(backup)
    {
      var tokens := Split(message, ' ');
      if |tokens| < 2 {
        return Fail(InvalidCommand);
      }
      queue := Trim(tokens[1]);
      r := Pass;
    }

    /**
     * `_getNextPendingItem`: BLPOP an id, HGETALL its entry, and pop again
     * while the entry is missing. The store ends as `FetchNext` says.
     */
    method NextPendingItem() returns (item: Option<Item>)
      modifies store
      ensures item == FetchNext(old(store.Of(queue))).0
      ensures store.Of(queue) == FetchNext(old(store.Of(queue))).1
      ensures forall q :: q != queue ==> store.Of(q) == old(store.Of(q))
      ensures store.queues == old(store.queues) && store.locks == old(store.locks)
    {
      while true
        invariant FetchNext(store.Of(queue)) == FetchNext(old(store.Of(queue)))
        invariant store.Of(queue).payload == old(store.Of(queue)).payload
        invariant forall q :: q != queue ==> store.Of(q) == old(store.Of(q))
        invariant store.queues == old(store.queues) && store.locks == old(store.locks)
        decreases |store.Of(queue).pending|
      {
        var id := store.BLPop(queue);
        if id.None? {
          return None;
        }
        var entry := store.HGetAll(queue, id.value);
        if entry.Some? {
          return entry;
        }
      }
    }

    /** `get`: fetch the next item, keep it as the backup and hand back its data. */
    method Get() returns (payload: Option<string>)
      modifies this, store
      ensures var (it, d) := FetchNext(old(store.Of(queue)));
        && store.Of(queue) == d
        && (it.Some? ==> backup == it && payload == Some(it.value.data))
        && (it.None? ==> backup == old(backup) && payload == None)
      ensures queue == old(queue)
      ensures forall q :: q != queue ==> store.Of(q) == old(store.Of(q))
      ensures store.queues == old(store.queues) && store.locks == old(store.locks)
    {
      var item := NextPendingItem();
      if item.Some? {
        backup := item;
        payload := Some(item.value.data);
      } else {
        payload := None;
      }
    }

    /** `accept`: DEL the backed-up item's payload entry; fails with no backup. The backup stays set. */
    method Accept() returns (r: Outcome<GetError>)
      modifies store
      ensures r.Fail? <==> backup.None?
      ensures r.Fail? ==> r.error == NoBackup
      ensures store.Of(queue) == AfterAccept(backup, old(store.Of(queue)))
      ensures forall q :: q != queue ==> store.Of(q) == old(store.Of(q))
      ensures store.queues == old(store.queues) && store.locks == old(store.locks)
    {
      if backup.None? {
        return Fail(NoBackup);
      }
      store.Del(queue, backup.value.id);
      r := Pass;
    }

    /** `reject`, as intended: RPUSH the backed-up id and clear the backup; fails with no backup. */
    method Reject() returns (r: Outcome<GetError>)
      modifies this, store
      ensures r.Fail? <==> old(backup).None?
      ensures r.Fail? ==> r.error == NoBackup
      ensures (backup, store.Of(queue)) == AfterReject(old(backup), old(store.Of(queue)))
      ensures queue == old(queue)
      ensures forall q :: q != queue ==> store.Of(q) == old(store.Of(q))
      ensures store.queues == old(store.queues) && store.locks == old(store.locks)
    {
      if backup.None? {
        return Fail(NoBackup);
      }
      store.RPush(queue, backup.value.id);
      backup := None;
      r := Pass;
    }

    /** `ack`: clear the backup; the store is not touched. */
    method Ack()
      modifies this
      ensures backup == None && queue == old(queue)
    {
      backup := None;
    }

    /**
     * `close`: with a backup, RPUSH its id and HMSET its entry back, and
     * report that the item was returned to the queue; otherwise nothing.
     */
    method Close() returns (returned: bool)
      modifies store
      ensures returned <==> backup.Some?
      ensures store.Of(queue) == AfterClose(backup, old(store.Of(queue)))
      ensures forall q :: q != queue ==> store.Of(q) == old(store.Of(q))
      ensures store.queues == old(store.queues) && store.locks == old(store.locks)
    {
      returned := backup.Some?;
      if returned {
        store.RPush(queue, backup.value.id);
        store.HmSet(queue, backup.value);
      }
    }
  }
}
