/**
 * The backing store (Redis) as one mutable object: the queue directory
 * (`__queues`), the per-queue structures and the promotion locks. Each
 * method is one command, or one MULTI/EXEC block, applied atomically.
 */
module Store {
  import opened Wrappers
  import opened QueueModel

  /** A connection to the backing store; every connection reaches the same data. */
  datatype Client = Client(id: nat)

  class Store {
    /** The queue directory set. */
    var queues: set<string>
    /** The structures of every queue that has been written. */
    var data: map<string, QueueData>
    /** The promotion locks that are held, with their lease in ms. */
    var locks: map<string, nat>

    constructor ()
      ensures queues == {} && data == map[] && locks == map[]
    {
      queues, data, locks := {}, map[], map[];
    }

    /** A queue's structures; a queue with no keys yet is empty. */
    function Of(q: string): QueueData
      reads this
    {
      if q in data then data[q] else Empty
    }

    /** `SADD __queues q`: adding a queue already in the directory changes nothing. */
    method SAdd(q: string)
      modifies this
      ensures queues == old(queues) + {q}
      ensures data == old(data) && locks == old(locks)
    {
      queues := queues + {q};
    }

    /** `INCR __id`: the new counter value is returned. */
    method Incr(q: string) returns (id: nat)
      modifies this
      ensures id == old(Of(q)).counter + 1
      ensures data == old(data)[q := old(Of(q)).(counter := id)]
      ensures queues == old(queues) && locks == old(locks)
    {
      id := Of(q).counter + 1;
      data := data[q := Of(q).(counter := id)];
    }

    /** `HMSET data:<id> id .. date .. data ..`: writes all three fields of the payload entry. */
    method HmSet(q: string, item: Item)
      modifies this
      ensures data == old(data)[q := old(Of(q)).(payload := old(Of(q)).payload[item.id := item])]
      ensures queues == old(queues) && locks == old(locks)
    {
      data := data[q := Of(q).(payload := Of(q).payload[item.id := item])];
    }

    /** `ZADD __index <score> <id>`. */
    method ZAdd(q: string, score: int, id: nat)
      modifies this
      ensures data == old(data)[q := old(Of(q)).(index := old(Of(q)).index[id := score])]
      ensures queues == old(queues) && locks == old(locks)
    {
      data := data[q := Of(q).(index := Of(q).index[id := score])];
    }

    /** `RPUSH __list <id>`. */
    method RPush(q: string, id: nat)
      modifies this
      ensures data == old(data)[q := Pushed(old(Of(q)), id)]
      ensures queues == old(queues) && locks == old(locks)
    {
      data := data[q := Pushed(Of(q), id)];
    }

    /** `BLPOP __list 0`: the head of the list; on an empty list the pop never returns, which is no result. */
    method BLPop(q: string) returns (id: Option<nat>)
      modifies this
      ensures old(Of(q)).pending == [] ==> id == None && data == old(data)
      ensures old(Of(q)).pending != [] ==>
        id == Some(old(Of(q)).pending[0]) && data == old(data)[q := old(Of(q)).(pending := old(Of(q)).pending[1..])]
      ensures queues == old(queues) && locks == old(locks)
    {
      var d := Of(q);
      if d.pending == [] {
        id := None;
      } else {
        id := Some(d.pending[0]);
        data := data[q := d.(pending := d.pending[1..])];
      }
    }

    /** `HGETALL data:<id>`: the payload entry, or nothing when the hash does not exist. */
    function HGetAll(q: string, id: nat): (r: Option<Item>)
      reads this
      ensures r.Some? <==> id in Of(q).payload
      ensures r.Some? ==> r.value == Of(q).payload[id]
    {
      if id in Of(q).payload then Some(Of(q).payload[id]) else None
    }

    /** `DEL data:<id>`. */
    method Del(q: string, id: nat)
      modifies this
      ensures data == old(data)[q := Deleted(old(Of(q)), id)]
      ensures queues == old(queues) && locks == old(locks)
    {
      data := data[q := Deleted(Of(q), id)];
    }

    /** `MULTI; RPUSH __list <id>; ZREM __index <id>; EXEC` as one atomic step. */
    method MoveToList(q: string, id: nat)
      modifies this
      ensures data == old(data)[q := MoveItem(old(Of(q)), id)]
      ensures queues == old(queues) && locks == old(locks)
    {
      data := data[q := MoveItem(Of(q), id)];
    }

    /** `ZRANGEBYSCORE __index 0 <now>`. */
    function RangeByScore(q: string, now: int): (r: seq<nat>)
      reads this
      ensures forall id :: id in r <==> id in Of(q).index && 0 <= Of(q).index[id] <= now
      ensures NoDup(r) && SortedBy(Of(q).index, r)
    {
      Ready(Of(q).index, now)
    }

    /** `ZRANGEBYSCORE __index -inf +inf LIMIT 0 1`: the lowest-scored member, if any. */
    function FirstByScore(q: string): (r: Option<nat>)
      reads this
      ensures r.None? <==> Of(q).index == map[]
      ensures r.Some? ==> IsFirst(Of(q).index, r.value, Of(q).index.Keys)
    {
      if Of(q).index == map[] then None
      else
        assert Of(q).index.Keys != {} by {
          var id :| id in Of(q).index;
        }
        Some(First(Of(q).index.Keys, Of(q).index))
    }

    /** `ZCOUNT __index -inf +inf`. */
    function ZCount(q: string): (n: nat)
      reads this
      ensures n == |Of(q).index.Keys|
    {
      |Of(q).index|
    }

    /** `LLEN __list`. */
    function LLen(q: string): (n: nat)
      reads this
      ensures n == |Of(q).pending|
    {
      |Of(q).pending|
    }

    /** `SMEMBERS __queues` in some order: every directory entry exactly once. */
    method Members() returns (qs: seq<string>)
      ensures forall q :: q in qs <==> q in queues
      ensures forall i, j :: 0 <= i < j < |qs| ==> qs[i] != qs[j]
    {
      qs := [];
      var rest := queues;
      while rest != {}
        invariant rest <= queues
        invariant forall q :: q in qs <==> q in queues - rest
        invariant forall i, j :: 0 <= i < j < |qs| ==> qs[i] != qs[j]
        decreases |rest|
      {
        var q :| q in rest;
        assert q !in qs;
        ghost var before := qs;
        qs := qs + [q];
        rest := rest - {q};
        assert forall x :: x in qs <==> x in before || x == q;
      }
    }

    /** Acquire a lock: granted only when nobody holds it. */
    method Lock(key: string, lease: nat) returns (granted: bool)
      modifies this
      ensures granted <==> key !in old(locks)
      ensures locks == if granted then old(locks)[key := lease] else old(locks)
      ensures queues == old(queues) && data == old(data)
    {
      granted := key !in locks;
      if granted {
        locks := locks[key := lease];
      }
    }

    /** Release a lock. */
    method Unlock(key: string)
      modifies this
      ensures locks == old(locks) - {key}
      ensures queues == old(queues) && data == old(data)
    {
      locks := locks - {key};
    }
  }
}
