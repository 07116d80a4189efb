/**
 * The per-queue data held in the backing store, as values: the id counter
 * (`__id`), the delayed index (`__index`, a sorted set id -> embargo ms),
 * the pending list (`__list`) and the payload hashes (`__data:<id>`), and
 * the transitions the broker applies to them. Every Redis command or MULTI
 * block is one atomic step.
 */
module QueueModel {
  import opened Wrappers

  /** The payload hash of one message: its id, its embargo date in ms and its data. */
  datatype Item = Item(id: nat, date: int, data: string)

  /** One queue's structures in the backing store. */
  datatype QueueData = QueueData(counter: nat, index: map<nat, int>, pending: seq<nat>, payload: map<nat, Item>)

  /** What a queue holds before any key of it has been written. */
  const Empty: QueueData := QueueData(0, map[], [], map[])

  predicate NoDup(s: seq<nat>)
  {
    forall i, j :: 0 <= i < j < |s| ==> s[i] != s[j]
  }

  function Elems(s: seq<nat>): set<nat>
  {
    set x | x in s
  }

  /**
   * The invariant the producer and the promoter keep: indexed and pending ids
   * are disjoint and issued by the counter, pending ids are not repeated, every
   * indexed id has its payload entry carrying the indexed date, and every
   * payload entry is stored under its own id.
   */
  ghost predicate Consistent(d: QueueData)
  {
    && (forall id :: id in d.index ==> 1 <= id <= d.counter && id in d.payload && d.payload[id].date == d.index[id])
    && (forall i :: 0 <= i < |d.pending| ==> 1 <= d.pending[i] <= d.counter && d.pending[i] !in d.index)
    && NoDup(d.pending)
    && (forall id :: id in d.payload ==> d.payload[id].id == id && 1 <= id <= d.counter)
  }

  /** The ids 1 to n. */
  function Upto(n: nat): (s: set<nat>)
    ensures |s| == n
    ensures forall id :: id in s <==> 1 <= id <= n
  {
    if n == 0 then {} else Upto(n - 1) + {n}
  }

  /** A subset is no larger than its superset. */
  lemma SubsetCard(a: set<nat>, b: set<nat>)
    requires a <= b
    ensures |a| <= |b|
  {
    assert b == a + (b - a);
  }

  /**
   * The invariant bounds what a queue can hold: indexed and pending ids are
   * distinct ids out of 1..counter, and so are the stored payload ids, so
   * neither group outnumbers the ids the counter has issued.
   */
  lemma ConsistentCapacity(d: QueueData)
    requires Consistent(d)
    ensures |d.index| + |d.pending| <= d.counter
    ensures |d.payload| <= d.counter
  {
    CapacityBound(d.index.Keys, d.pending, d.payload.Keys, d.counter);
  }

  /** Distinct ids out of 1..n, split between a set and a duplicate-free list, number at most n. */
  lemma CapacityBound(keys: set<nat>, pending: seq<nat>, stored: set<nat>, n: nat)
    requires forall id :: id in keys ==> 1 <= id <= n
    requires forall i :: 0 <= i < |pending| ==> 1 <= pending[i] <= n && pending[i] !in keys
    requires NoDup(pending)
    requires forall id :: id in stored ==> 1 <= id <= n
    ensures |keys| + |pending| <= n && |stored| <= n
  {
    var e := Elems(pending);
    ElemsCard(pending);
    assert keys * e == {};
    SubsetCard(keys + e, Upto(n));
    SubsetCard(stored, Upto(n));
  }

  lemma EmptyConsistent()
    ensures Consistent(Empty)
  {
  }

  // ----- Sorted-set order -----

  /** Sorted-set order: by score, then (standing for the member's bytes) by id. */
  predicate Precedes(score: map<nat, int>, a: nat, b: nat)
    requires a in score && b in score
  {
    score[a] < score[b] || (score[a] == score[b] && a <= b)
  }

  predicate IsFirst(score: map<nat, int>, m: nat, ids: set<nat>)
    requires ids <= score.Keys
  {
    m in ids && forall j :: j in ids ==> Precedes(score, m, j)
  }

  predicate SortedBy(score: map<nat, int>, s: seq<nat>)
  {
    forall i, j :: 0 <= i < j < |s| ==> s[i] in score && s[j] in score && Precedes(score, s[i], s[j])
  }

  lemma {:induction false} FirstExists(ids: set<nat>, score: map<nat, int>)
    requires ids != {} && ids <= score.Keys
    ensures exists m :: IsFirst(score, m, ids)
    decreases |ids|
  {
    var x :| x in ids;
    if ids == {x} {
      forall j | j in ids ensures Precedes(score, x, j) {
        assert j == x;
      }
      assert IsFirst(score, x, ids);
    } else {
      var rest := ids - {x};
      FirstExists(rest, score);
      var m :| IsFirst(score, m, rest);
      if Precedes(score, x, m) {
        forall j | j in ids ensures Precedes(score, x, j) {
          if j != x {
            assert Precedes(score, m, j);
          }
        }
        assert IsFirst(score, x, ids);
      } else {
        assert IsFirst(score, m, ids);
      }
    }
  }

  /** The member of `ids` that comes first in sorted-set order. */
  function First(ids: set<nat>, score: map<nat, int>): (m: nat)
    requires ids != {} && ids <= score.Keys
    ensures IsFirst(score, m, ids)
  {
    FirstExists(ids, score);
    var m :| IsFirst(score, m, ids); m
  }

  /** The members of `ids` listed in sorted-set order, as a range query returns them. */
  function Ascending(ids: set<nat>, score: map<nat, int>): seq<nat>
    requires ids <= score.Keys
    decreases |ids|
  {
    if ids == {} then [] else
      var m := First(ids, score);
      [m] + Ascending(ids - {m}, score)
  }

  /** A range query lists every member once, and only members, in sorted-set order. */
  lemma {:induction false} AscendingSpec(ids: set<nat>, score: map<nat, int>)
    requires ids <= score.Keys
    ensures |Ascending(ids, score)| == |ids|
    ensures forall x :: x in Ascending(ids, score) <==> x in ids
    ensures NoDup(Ascending(ids, score))
    ensures SortedBy(score, Ascending(ids, score))
    decreases |ids|
  {
    if ids != {} {
      var m := First(ids, score);
      var rest := ids - {m};
      AscendingSpec(rest, score);
      var r := Ascending(ids, score);
      assert r == [m] + Ascending(rest, score);
      forall i, j | 0 <= i < j < |r| ensures r[i] != r[j] && Precedes(score, r[i], r[j]) {
        if i == 0 {
          assert r[j] in rest;
        } else {
          assert r[i] == Ascending(rest, score)[i - 1];
          assert r[j] == Ascending(rest, score)[j - 1];
        }
      }
    }
  }

  /** The indexed ids whose score lies in [0, now]. */
  function Due(index: map<nat, int>, now: int): (s: set<nat>)
    ensures s <= index.Keys
  {
    set id | id in index && 0 <= index[id] <= now
  }

  /** `ZRANGEBYSCORE index 0 now`: the due ids in ascending score order. */
  function Ready(index: map<nat, int>, now: int): (r: seq<nat>)
    ensures forall id :: id in r <==> id in index && 0 <= index[id] <= now
    ensures NoDup(r) && SortedBy(index, r)
    ensures |r| == |Due(index, now)|
  {
    AscendingSpec(Due(index, now), index);
    Ascending(Due(index, now), index)
  }

  // ----- Producer -----

  /** INCR, HMSET and ZADD of one received message: the new id is the old counter plus one. */
  function Received(d: QueueData, date: int, data: string): (r: QueueData)
    ensures var id := d.counter + 1;
      && r.counter == id && r.pending == d.pending
      && id in r.index && r.index[id] == date
      && id in r.payload && r.payload[id] == Item(id, date, data)
  {
    var id := d.counter + 1;
    d.(counter := id, payload := d.payload[id := Item(id, date, data)], index := d.index[id := date])
  }

  /**
   * The id a receive takes is fresh: above every id in the queue and in none of
   * its structures. It is recorded under its date, and the pending list is untouched.
   */
  lemma ReceivedFresh(d: QueueData, date: int, data: string)
    requires Consistent(d)
    ensures var id := d.counter + 1;
      && id !in d.index && id !in d.payload && id !in d.pending
      && (forall other :: other in d.payload ==> other < id)
      && Received(d, date, data).counter == id
      && Received(d, date, data).payload[id] == Item(id, date, data)
      && Received(d, date, data).index[id] == date
      && Received(d, date, data).pending == d.pending
  {
  }

  /** Receiving keeps the queue consistent. */
  lemma ReceivedConsistent(d: QueueData, date: int, data: string)
    requires Consistent(d)
    ensures Consistent(Received(d, date, data))
  {
    var r := Received(d, date, data);
    forall i | 0 <= i < |r.pending| ensures r.pending[i] !in r.index {
      assert d.pending[i] <= d.counter;
    }
  }

  /** A sequence of received (date, data) messages, in arrival order. */
  function ReceivedAll(d: QueueData, msgs: seq<(int, string)>): QueueData
    decreases |msgs|
  {
    if msgs == [] then d else ReceivedAll(Received(d, msgs[0].0, msgs[0].1), msgs[1..])
  }

  /**
   * Successive messages take the ids counter+1, counter+2, ... in arrival
   * order, each recorded with its own date and data; entries outside that
   * range are untouched and the pending list is unchanged.
   */
  lemma ReceivedAllIds(d: QueueData, msgs: seq<(int, string)>)
    ensures ReceivedAll(d, msgs).counter == d.counter + |msgs|
    ensures ReceivedAll(d, msgs).pending == d.pending
    ensures forall id :: d.counter < id <= d.counter + |msgs| ==>
      && id in ReceivedAll(d, msgs).payload
      && ReceivedAll(d, msgs).payload[id] == Item(id, msgs[id - d.counter - 1].0, msgs[id - d.counter - 1].1)
      && id in ReceivedAll(d, msgs).index
      && ReceivedAll(d, msgs).index[id] == msgs[id - d.counter - 1].0
    ensures forall id :: !(d.counter < id <= d.counter + |msgs|) ==>
      && (id in ReceivedAll(d, msgs).payload <==> id in d.payload)
      && (id in d.payload ==> ReceivedAll(d, msgs).payload[id] == d.payload[id])
      && (id in ReceivedAll(d, msgs).index <==> id in d.index)
      && (id in d.index ==> ReceivedAll(d, msgs).index[id] == d.index[id])
  {
    ReceivedAllNew(d, msgs);
    ReceivedAllKeeps(d, msgs);
  }

  /** The ids a run of messages takes and what is stored under them. */
  lemma {:induction false} ReceivedAllNew(d: QueueData, msgs: seq<(int, string)>)
    ensures ReceivedAll(d, msgs).counter == d.counter + |msgs|
    ensures ReceivedAll(d, msgs).pending == d.pending
    ensures forall id :: d.counter < id <= d.counter + |msgs| ==>
      && id in ReceivedAll(d, msgs).payload
      && ReceivedAll(d, msgs).payload[id] == Item(id, msgs[id - d.counter - 1].0, msgs[id - d.counter - 1].1)
      && id in ReceivedAll(d, msgs).index
      && ReceivedAll(d, msgs).index[id] == msgs[id - d.counter - 1].0
    decreases |msgs|
  {
    if msgs != [] {
      var d1 := Received(d, msgs[0].0, msgs[0].1);
      var tail := msgs[1..];
      ReceivedAllNew(d1, tail);
      ReceivedAllKeepsOne(d1, tail, d1.counter);
      var r := ReceivedAll(d1, tail);
      assert ReceivedAll(d, msgs) == r;
      forall id | d1.counter < id <= d.counter + |msgs|
        ensures id in r.payload && r.payload[id] == Item(id, msgs[id - d.counter - 1].0, msgs[id - d.counter - 1].1)
        ensures id in r.index && r.index[id] == msgs[id - d.counter - 1].0
      {
        assert tail[id - d1.counter - 1] == msgs[id - d.counter - 1];
      }
    }
  }

  /** One id at or below the counter keeps its entries through a run of messages. */
  lemma ReceivedAllKeepsOne(d: QueueData, msgs: seq<(int, string)>, id: int)
    requires id <= d.counter
    ensures id in d.payload ==> id in ReceivedAll(d, msgs).payload && ReceivedAll(d, msgs).payload[id] == d.payload[id]
    ensures id in d.index ==> id in ReceivedAll(d, msgs).index && ReceivedAll(d, msgs).index[id] == d.index[id]
  {
    ReceivedAllKeeps(d, msgs);
  }

  /** A run of messages leaves every id outside its range as it was. */
  lemma {:induction false} ReceivedAllKeeps(d: QueueData, msgs: seq<(int, string)>)
    ensures ReceivedAll(d, msgs).counter == d.counter + |msgs|
    ensures forall id :: !(d.counter < id <= d.counter + |msgs|) ==>
      && (id in ReceivedAll(d, msgs).payload <==> id in d.payload)
      && (id in d.payload ==> ReceivedAll(d, msgs).payload[id] == d.payload[id])
      && (id in ReceivedAll(d, msgs).index <==> id in d.index)
      && (id in d.index ==> ReceivedAll(d, msgs).index[id] == d.index[id])
    decreases |msgs|
  {
    if msgs != [] {
      var d1 := Received(d, msgs[0].0, msgs[0].1);
      var tail := msgs[1..];
      ReceivedAllKeeps(d1, tail);
      var r := ReceivedAll(d1, tail);
      assert ReceivedAll(d, msgs) == r;
      forall id | !(d.counter < id <= d.counter + |msgs|)
        ensures id in r.payload <==> id in d.payload
        ensures id in d.payload ==> r.payload[id] == d.payload[id]
        ensures id in r.index <==> id in d.index
        ensures id in d.index ==> r.index[id] == d.index[id]
      {
        assert !(d1.counter < id <= d1.counter + |tail|) && id != d1.counter;
      }
    }
  }

  /** Starting from an empty queue, the n-th message stored gets id n, and ids 1..n are exactly the stored ones. */
  lemma IdsStartAtOne(msgs: seq<(int, string)>)
    ensures forall id :: id in ReceivedAll(Empty, msgs).payload <==> 1 <= id <= |msgs|
    ensures forall id :: 1 <= id <= |msgs| ==> ReceivedAll(Empty, msgs).payload[id].id == id
    ensures ReceivedAll(Empty, msgs).counter == |msgs|
  {
    ReceivedAllIds(Empty, msgs);
  }

  // ----- Promoter -----

  /** One MULTI/EXEC of the promoter: RPUSH the id onto the pending list and ZREM it from the index. */
  function MoveItem(d: QueueData, id: nat): (r: QueueData)
    ensures r.pending == d.pending + [id] && r.index.Keys == d.index.Keys - {id}
    ensures r.payload == d.payload && r.counter == d.counter
  {
    d.(pending := d.pending + [id], index := d.index - {id})
  }

  /** The moves of one queue pass, one transaction per id, in the order of `ids`. */
  function Promote(d: QueueData, ids: seq<nat>): (r: QueueData)
    ensures |r.pending| == |d.pending| + |ids| && r.pending[..|d.pending|] == d.pending
    ensures r.index.Keys <= d.index.Keys
    ensures r.payload == d.payload && r.counter == d.counter
    decreases |ids|
  {
    if ids == [] then d else Promote(MoveItem(d, ids[0]), ids[1..])
  }

  /** A queue pass appends the ids to the pending list, drops them from the index and touches nothing else. */
  lemma {:induction false} PromoteEffect(d: QueueData, ids: seq<nat>)
    ensures Promote(d, ids) == d.(pending := d.pending + ids, index := d.index - Elems(ids))
    decreases |ids|
  {
    if ids != [] {
      PromoteEffect(MoveItem(d, ids[0]), ids[1..]);
      MovedCons(d, ids);
    }
  }

  /** The closed form of a batch of moves, after moving its first id on its own. */
  lemma MovedCons(d: QueueData, ids: seq<nat>)
    requires ids != []
    ensures var d1 := MoveItem(d, ids[0]);
      d1.(pending := d1.pending + ids[1..], index := d1.index - Elems(ids[1..]))
      == d.(pending := d.pending + ids, index := d.index - Elems(ids))
  {
    assert ids == [ids[0]] + ids[1..];
    assert Elems(ids) == {ids[0]} + Elems(ids[1..]);
    assert d.pending + [ids[0]] + ids[1..] == d.pending + ids;
  }

  /** Moving one more id after a batch is the batch extended by that id. */
  lemma PromoteSnoc(d: QueueData, ids: seq<nat>, id: nat)
    ensures Promote(d, ids + [id]) == MoveItem(Promote(d, ids), id)
  {
    PromoteEffect(d, ids + [id]);
    PromoteEffect(d, ids);
    MovedSnoc(d, ids, id);
  }

  /** Moving the ids of a list one at a time: one more id is one more move. */
  lemma PromotePrefixStep(d: QueueData, ids: seq<nat>, i: nat)
    requires i < |ids|
    ensures Promote(d, ids[..i + 1]) == MoveItem(Promote(d, ids[..i]), ids[i])
  {
    assert ids[..i + 1] == ids[..i] + [ids[i]];
    PromoteSnoc(d, ids[..i], ids[i]);
  }

  /** The closed form of a batch of moves, extended by one more id. */
  lemma MovedSnoc(d: QueueData, ids: seq<nat>, id: nat)
    ensures MoveItem(d.(pending := d.pending + ids, index := d.index - Elems(ids)), id)
         == d.(pending := d.pending + (ids + [id]), index := d.index - Elems(ids + [id]))
  {
    assert Elems(ids + [id]) == Elems(ids) + {id};
    assert d.pending + ids + [id] == d.pending + (ids + [id]);
  }

  /** A full queue pass at time `now`: every due id is moved, in ascending score order. */
  function PromoteDue(d: QueueData, now: int): (r: QueueData)
    ensures |r.pending| == |d.pending| + |Due(d.index, now)| && r.pending[..|d.pending|] == d.pending
    ensures r.index.Keys <= d.index.Keys
    ensures r.payload == d.payload && r.counter == d.counter
  {
    Promote(d, Ready(d.index, now))
  }

  /**
   * After a pass, the due ids have left the index and sit, in ascending score
   * order, at the tail of the pending list; ids whose score is outside
   * [0, now] stay indexed with their scores; counter and payloads are unchanged.
   */
  lemma PromoteDueSpec(d: QueueData, now: int)
    ensures PromoteDue(d, now).pending == d.pending + Ready(d.index, now)
    ensures forall id :: id in PromoteDue(d, now).index <==> id in d.index && !(0 <= d.index[id] <= now)
    ensures forall id :: id in PromoteDue(d, now).index ==> PromoteDue(d, now).index[id] == d.index[id]
    ensures PromoteDue(d, now).payload == d.payload && PromoteDue(d, now).counter == d.counter
    ensures forall i :: |d.pending| <= i < |PromoteDue(d, now).pending| ==>
      PromoteDue(d, now).pending[i] in d.index && 0 <= d.index[PromoteDue(d, now).pending[i]] <= now
  {
    PromoteEffect(d, Ready(d.index, now));
    var r := PromoteDue(d, now);
    var ready := Ready(d.index, now);
    forall i | |d.pending| <= i < |r.pending|
      ensures r.pending[i] in d.index && 0 <= d.index[r.pending[i]] <= now
    {
      assert r.pending[i] == ready[i - |d.pending|];
    }
  }

  /** A duplicate-free sequence has as many distinct elements as entries. */
  lemma {:induction false} ElemsCard(ids: seq<nat>)
    requires NoDup(ids)
    ensures |Elems(ids)| == |ids|
    decreases |ids|
  {
    if ids != [] {
      ElemsCard(ids[1..]);
      assert Elems(ids) == {ids[0]} + Elems(ids[1..]) by {
        assert ids == [ids[0]] + ids[1..];
      }
      assert ids[0] !in Elems(ids[1..]);
    }
  }

  /** Removing a set of present keys removes that many entries. */
  lemma RemoveKeysCard(m: map<nat, int>, s: set<nat>)
    requires s <= m.Keys
    ensures |m - s| == |m| - |s|
  {
    var rest := m.Keys - s;
    assert (m - s).Keys == rest;
    assert m.Keys == rest + s;
    assert rest * s == {};
    assert |m| == |m.Keys| && |m - s| == |(m - s).Keys|;
  }

  /** Moving distinct indexed ids conserves index size plus list length. */
  lemma PromoteConserves(d: QueueData, ids: seq<nat>)
    requires NoDup(ids) && Elems(ids) <= d.index.Keys
    ensures |Promote(d, ids).index| + |Promote(d, ids).pending| == |d.index| + |d.pending|
  {
    PromoteEffect(d, ids);
    ElemsCard(ids);
    RemoveKeysCard(d.index, Elems(ids));
  }

  /** A pass conserves the number of index entries plus the length of the pending list. */
  lemma PromoteDueConserves(d: QueueData, now: int)
    ensures |PromoteDue(d, now).index| + |PromoteDue(d, now).pending| == |d.index| + |d.pending|
  {
    var ready := Ready(d.index, now);
    assert Elems(ready) <= d.index.Keys;
    PromoteConserves(d, ready);
  }

  /** Appending distinct indexed ids to the pending list while dropping them from the index keeps the queue consistent. */
  lemma MovedConsistent(d: QueueData, ids: seq<nat>)
    requires Consistent(d) && NoDup(ids)
    requires forall i :: 0 <= i < |ids| ==> ids[i] in d.index
    ensures Consistent(d.(pending := d.pending + ids, index := d.index - Elems(ids)))
  {
    var r := d.(pending := d.pending + ids, index := d.index - Elems(ids));
    var n := |d.pending|;
    forall i | 0 <= i < |r.pending| ensures 1 <= r.pending[i] <= r.counter && r.pending[i] !in r.index {
      if i >= n {
        assert r.pending[i] == ids[i - n];
      } else {
        assert r.pending[i] == d.pending[i];
      }
    }
    forall i, j | 0 <= i < j < |r.pending| ensures r.pending[i] != r.pending[j] {
      if j < n {
        assert r.pending[i] == d.pending[i] && r.pending[j] == d.pending[j];
      } else if i >= n {
        assert r.pending[i] == ids[i - n] && r.pending[j] == ids[j - n];
      } else {
        assert r.pending[i] == d.pending[i] && r.pending[j] == ids[j - n];
      }
    }
  }

  /** Moving distinct indexed ids keeps the queue consistent. */
  lemma PromoteConsistent(d: QueueData, ids: seq<nat>)
    requires Consistent(d) && NoDup(ids)
    requires forall i :: 0 <= i < |ids| ==> ids[i] in d.index
    ensures Consistent(Promote(d, ids))
  {
    PromoteEffect(d, ids);
    MovedConsistent(d, ids);
  }

  /** A pass keeps the queue consistent. */
  lemma PromoteDueConsistent(d: QueueData, now: int)
    requires Consistent(d)
    ensures Consistent(PromoteDue(d, now))
  {
    var ready := Ready(d.index, now);
    PromoteConsistent(d, ready);
  }

  // ----- Consumer -----

  /** The position of the first pending id that still has a payload entry, or the list length. */
  function FirstLive(pending: seq<nat>, payload: map<nat, Item>): (k: nat)
    ensures k <= |pending|
    ensures forall i :: 0 <= i < k ==> pending[i] !in payload
    ensures k < |pending| ==> pending[k] in payload
  {
    if pending == [] then 0
    else if pending[0] in payload then 0
    else 1 + FirstLive(pending[1..], payload)
  }

  /**
   * `_getNextPendingItem`: pop ids off the head of the pending list, dropping
   * those without a payload entry, until one with an entry is popped. An
   * empty list is the blocking pop that never returns: no item.
   */
  function FetchNext(d: QueueData): (r: (Option<Item>, QueueData))
    ensures r.1.payload == d.payload && r.1.index == d.index && r.1.counter == d.counter
    ensures |r.1.pending| <= |d.pending|
    ensures r.0.Some? ==> r.0.value in d.payload.Values
    decreases |d.pending|
  {
    if d.pending == [] then (None, d)
    else
      var id := d.pending[0];
      var d' := d.(pending := d.pending[1..]);
      if id in d.payload then (Some(d.payload[id]), d') else FetchNext(d')
  }

  /**
   * Fetching returns the payload of the first pending id that has one and
   * removes exactly the ids up to and including it; with none, the list is
   * drained of orphans and nothing is returned. Nothing else changes.
   */
  lemma {:induction false} FetchNextSpec(d: QueueData)
    ensures var k := FirstLive(d.pending, d.payload);
      FetchNext(d) ==
        if k < |d.pending| then (Some(d.payload[d.pending[k]]), d.(pending := d.pending[k + 1..]))
        else (None, d.(pending := []))
    decreases |d.pending|
  {
    if d.pending != [] && d.pending[0] !in d.payload {
      var d' := d.(pending := d.pending[1..]);
      FetchNextSpec(d');
      var k := FirstLive(d.pending, d.payload);
      assert k == 1 + FirstLive(d'.pending, d.payload);
      if k < |d.pending| {
        assert d'.pending[k - 1] == d.pending[k];
        assert d'.pending[k..] == d.pending[k + 1..];
      }
    }
  }

  /** Dropping ids off the head of the pending list keeps the queue consistent. */
  lemma DropConsistent(d: QueueData, m: nat)
    requires Consistent(d) && m <= |d.pending|
    ensures Consistent(d.(pending := d.pending[m..]))
  {
    var r := d.(pending := d.pending[m..]);
    assert forall i :: 0 <= i < |r.pending| ==> r.pending[i] == d.pending[m + i];
  }

  /** Fetching keeps the queue consistent and returns an item stored under its own id. */
  lemma FetchNextConsistent(d: QueueData)
    requires Consistent(d)
    ensures Consistent(FetchNext(d).1)
    ensures FetchNext(d).0.Some? ==>
      var it := FetchNext(d).0.value;
      && it.id in d.payload && d.payload[it.id] == it
      && it.id !in d.index && it.id !in FetchNext(d).1.pending
  {
    FetchNextSpec(d);
    var k := FirstLive(d.pending, d.payload);
    var r := FetchNext(d).1;
    if k < |d.pending| {
      DropConsistent(d, k + 1);
      forall i | 0 <= i < |r.pending| ensures r.pending[i] != d.pending[k] {
        assert r.pending[i] == d.pending[k + 1 + i];
      }
    } else {
      DropConsistent(d, |d.pending|);
    }
  }

  /** `DEL data:<id>`: the commit of an accepted item. */
  function Deleted(d: QueueData, id: nat): QueueData
  {
    d.(payload := d.payload - {id})
  }

  /** `RPUSH list <id>`: the id goes back to the tail of the pending list. */
  function Pushed(d: QueueData, id: nat): QueueData
  {
    d.(pending := d.pending + [id])
  }

  /** RPUSH of the id followed by HMSET of the backed-up payload entry. */
  function Returned(d: QueueData, item: Item): QueueData
  {
    d.(pending := d.pending + [item.id], payload := d.payload[item.id := item])
  }
}
