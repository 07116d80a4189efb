/**
 * The stats reader (lib/stats.js): per-queue counts over the same data the
 * broker moves, and the line-oriented report built from them.
 */
module Reporter {
  import opened Wrappers
  import opened Text
  import opened QueueModel
  import opened Store

  /** What `_getNextUpcomingItem` yields for a queue. */
  datatype Upcoming =
    | NoneUpcoming     // the index is empty: `[queue, null]`
    | Next(date: int)  // the `date` field of the lowest-scored id's payload entry
    | Stalled          // that entry is missing: the promise never settles

  /**
   * The upcoming date of one queue's data: nothing for an empty index,
   * otherwise the stored date of the first indexed id, or a stall when that
   * id has no payload entry.
   */
  function NextOf(d: QueueData): (u: Upcoming)
    ensures u.NoneUpcoming? <==> d.index == map[]
    ensures u.Next? ==> exists id :: IsFirst(d.index, id, d.index.Keys) && id in d.payload && d.payload[id].date == u.date
    ensures u.Stalled? ==> exists id :: IsFirst(d.index, id, d.index.Keys) && id !in d.payload
  {
    if d.index == map[] then NoneUpcoming
    else
      assert d.index.Keys != {} by {
        var id :| id in d.index;
      }
      var id := First(d.index.Keys, d.index);
      if id in d.payload then Next(d.payload[id].date) else Stalled
  }

  /**
   * In a consistent queue the upcoming date never stalls: it is absent exactly
   * when nothing is delayed, and otherwise it is the earliest embargo indexed.
   */
  lemma NextIsEarliest(d: QueueData)
    requires Consistent(d)
    ensures NextOf(d).NoneUpcoming? <==> d.index == map[]
    ensures NextOf(d).Next? ==>
      (exists id :: id in d.index && d.index[id] == NextOf(d).date)
      && (forall id :: id in d.index ==> NextOf(d).date <= d.index[id])
    ensures !NextOf(d).Stalled?
  {
    if d.index != map[] {
      assert d.index.Keys != {} by {
        var id :| id in d.index;
      }
      var m := First(d.index.Keys, d.index);
      assert d.payload[m].date == d.index[m];
    }
  }

  /** `writeSingleLine`'s text: a label followed by the decimal count. */
  function CountLine(head: string, n: nat): (line: string)
    ensures |line| > |head| && line[..|head|] == head
  {
    head + NatToString(n)
  }

  /** After its label a count line holds only digits, and they read back as the count. */
  lemma CountLineDigits(head: string, n: nat)
    ensures forall k :: |head| <= k < |CountLine(head, n)| ==> '0' <= CountLine(head, n)[k] <= '9'
    ensures DecimalValue(CountLine(head, n)[|head|..]) == n
  {
    DecimalRoundTrip(n);
    assert CountLine(head, n)[|head|..] == NatToString(n);
  }

  function FutureLine(q: string, n: nat): string
  {
    CountLine(q + "|future: ", n)
  }

  function QueuedLine(q: string, n: nat): string
  {
    CountLine(q + "|queued: ", n)
  }

  /** The `next` line; `format` stands for `new Date(+date).toISOString()`. */
  function NextLine(q: string, u: Upcoming, format: int -> string): string
  {
    q + "|next: " + (if u.Next? then format(u.date) else "<none>")
  }

  function MemoryLine(memory: string): string
  {
    "__memory: " + memory + " MB"
  }

  function TotalLine(n: nat): string
  {
    CountLine("__totalMessageCount: ", n)
  }

  /** The sum over the queues of delayed plus pending ids. */
  function Total(s: Store, qs: seq<string>): (n: nat)
    reads s
    ensures forall k :: 0 <= k < |qs| ==> |s.Of(qs[k]).index| + |s.Of(qs[k]).pending| <= n
    ensures qs == [] ==> n == 0
  {
    if qs == [] then 0
    else
      var init := qs[..|qs| - 1];
      assert forall k :: 0 <= k < |init| ==> init[k] == qs[k];
      Total(s, init) + |s.Of(qs[|qs| - 1]).index| + |s.Of(qs[|qs| - 1]).pending|
  }

  /** The three lines a queue contributes, in the order the source pushes them. */
  function Block(q: string, d: QueueData, format: int -> string): (r: seq<string>)
    ensures |r| == 3
  {
    [FutureLine(q, |d.index|), QueuedLine(q, |d.pending|), NextLine(q, NextOf(d), format)]
  }

  /** The blocks of the queues, in order. */
  function Blocks(s: Store, qs: seq<string>, format: int -> string): (r: seq<string>)
    reads s
    ensures |r| == 3 * |qs|
  {
    if qs == [] then [] else Blocks(s, qs[..|qs| - 1], format) + Block(qs[|qs| - 1], s.Of(qs[|qs| - 1]), format)
  }

  /** The report of lib/stats.js: the memory line, the blocks of the queues, the total line. */
  function Report(s: Store, qs: seq<string>, memory: string, format: int -> string): seq<string>
    reads s
  {
    [MemoryLine(memory)] + Blocks(s, qs, format) + [TotalLine(Total(s, qs))]
  }

  /** Every queue's upcoming lookup settles. */
  predicate AllSettle(s: Store, qs: seq<string>)
    reads s
  {
    qs == [] || (AllSettle(s, qs[..|qs| - 1]) && !NextOf(s.Of(qs[|qs| - 1])).Stalled?)
  }

  /** Settling for all queues means no single queue's lookup stalls. */
  lemma {:induction false} AllSettleIff(s: Store, qs: seq<string>)
    ensures AllSettle(s, qs) <==> forall k :: 0 <= k < |qs| ==> !NextOf(s.Of(qs[k])).Stalled?
    decreases |qs|
  {
    if qs != [] {
      var init := qs[..|qs| - 1];
      AllSettleIff(s, init);
      assert forall k :: 0 <= k < |init| ==> init[k] == qs[k];
    }
  }

  /** When every listed queue is consistent, the report is always produced. */
  lemma ConsistentQueuesSettle(s: Store, qs: seq<string>)
    requires forall k :: 0 <= k < |qs| ==> Consistent(s.Of(qs[k]))
    ensures AllSettle(s, qs)
  {
    forall k | 0 <= k < |qs|
      ensures !NextOf(s.Of(qs[k])).Stalled?
    {
      NextIsEarliest(s.Of(qs[k]));
    }
    AllSettleIff(s, qs);
  }

  /** No queue of the directory has an upcoming lookup that stalls. */
  predicate Settles(s: Store)
    reads s
  {
    forall q :: q in s.queues ==> !NextOf(s.Of(q)).Stalled?
  }

  /** Over any listing of the directory, all lookups settle exactly when the directory settles. */
  lemma SettlesListed(s: Store, qs: seq<string>)
    requires forall q :: q in qs <==> q in s.queues
    ensures AllSettle(s, qs) <==> Settles(s)
  {
    AllSettleIff(s, qs);
    if AllSettle(s, qs) {
      forall q | q in s.queues ensures !NextOf(s.Of(q)).Stalled? {
        var k :| 0 <= k < |qs| && qs[k] == q;
      }
    } else {
      var k :| 0 <= k < |qs| && NextOf(s.Of(qs[k])).Stalled?;
      assert qs[k] in s.queues;
    }
  }

  /** A directory of consistent queues always settles, so the report is always produced. */
  lemma ConsistentStoreSettles(s: Store)
    requires forall q :: q in s.queues ==> Consistent(s.Of(q))
    ensures Settles(s)
  {
    forall q | q in s.queues ensures !NextOf(s.Of(q)).Stalled? {
      NextIsEarliest(s.Of(q));
    }
  }

  /** Extending the prefix of queues by one adds that queue's block and counts. */
  lemma PrefixStep(s: Store, qs: seq<string>, i: nat, format: int -> string)
    requires i < |qs|
    ensures Blocks(s, qs[..i + 1], format) == Blocks(s, qs[..i], format) + Block(qs[i], s.Of(qs[i]), format)
    ensures Total(s, qs[..i + 1]) == Total(s, qs[..i]) + |s.Of(qs[i]).index| + |s.Of(qs[i]).pending|
    ensures AllSettle(s, qs[..i + 1]) == (AllSettle(s, qs[..i]) && !NextOf(s.Of(qs[i])).Stalled?)
  {
    assert qs[..i + 1][..i] == qs[..i];
  }

  /** Queue k's lines sit at positions 3k, 3k+1 and 3k+2 of the blocks. */
  lemma {:induction false} BlocksAt(s: Store, qs: seq<string>, format: int -> string, k: nat)
    requires k < |qs|
    ensures Blocks(s, qs, format)[3 * k] == FutureLine(qs[k], |s.Of(qs[k]).index|)
    ensures Blocks(s, qs, format)[3 * k + 1] == QueuedLine(qs[k], |s.Of(qs[k]).pending|)
    ensures Blocks(s, qs, format)[3 * k + 2] == NextLine(qs[k], NextOf(s.Of(qs[k])), format)
    decreases |qs|
  {
    var init := qs[..|qs| - 1];
    if k < |qs| - 1 {
      BlocksAt(s, init, format, k);
      assert init[k] == qs[k];
    }
  }

  /** Each count line shows its number: the digits after its label read back as the count. */
  lemma CountLineReadsBack(q: string, n: nat)
    ensures DecimalValue(FutureLine(q, n)[|q| + 9..]) == n
    ensures DecimalValue(QueuedLine(q, n)[|q| + 9..]) == n
    ensures DecimalValue(TotalLine(n)[21..]) == n
  {
    CountLineDigits(q + "|future: ", n);
    CountLineDigits(q + "|queued: ", n);
    CountLineDigits("__totalMessageCount: ", n);
  }

  /** The report layout: memory first, then queue k's three lines after 3k + 1 others, then the total. */
  lemma ReportLayout(s: Store, qs: seq<string>, memory: string, format: int -> string, k: nat)
    requires k < |qs|
    ensures var r := Report(s, qs, memory, format);
      && |r| == 3 * |qs| + 2
      && r[0] == MemoryLine(memory) && r[|r| - 1] == TotalLine(Total(s, qs))
      && r[3 * k + 1] == FutureLine(qs[k], |s.Of(qs[k]).index|)
      && r[3 * k + 2] == QueuedLine(qs[k], |s.Of(qs[k]).pending|)
      && r[3 * k + 3] == NextLine(qs[k], NextOf(s.Of(qs[k])), format)
  {
    var b := Blocks(s, qs, format);
    var m, t := MemoryLine(memory), TotalLine(Total(s, qs));
    var i := 3 * k;
    assert Report(s, qs, memory, format) == [m] + b + [t];
    BlocksAt(s, qs, format, k);
    Framed(m, b, t, i);
    Framed(m, b, t, i + 1);
    Framed(m, b, t, i + 2);
  }

  /** Element i of a sequence sits at i + 1 once a head and a tail are put around it. */
  lemma Framed<T>(head: T, b: seq<T>, tail: T, i: nat)
    requires i < |b|
    ensures |[head] + b + [tail]| == |b| + 2
    ensures ([head] + b + [tail])[0] == head && ([head] + b + [tail])[|b| + 1] == tail
    ensures ([head] + b + [tail])[i + 1] == b[i]
  {
  }

  /** Concatenation associates. */
  lemma AppendAssoc<T>(a: seq<T>, b: seq<T>, c: seq<T>)
    ensures (a + b) + c == a + (b + c)
  {
  }

  class Stats {
    const store: Store

    constructor (store: Store)
      ensures this.store == store
    {
      this.store := store;
    }

    /** `_getFutureCount`: ZCOUNT over all scores, the number of delayed ids. */
    method FutureCount(q: string) returns (n: nat)
      ensures n == |store.Of(q).index|
    {
      n := store.ZCount(q);
    }

    /** `_getWaitingCount`: LLEN, the number of pending ids. */
    method WaitingCount(q: string) returns (n: nat)
      ensures n == |store.Of(q).pending|
    {
      n := store.LLen(q);
    }

    /** `_getNextUpcomingItem`: the date stored for the lowest-scored id. */
    method NextUpcomingItem(q: string) returns (u: Upcoming)
      ensures u == NextOf(store.Of(q))
      ensures u.NoneUpcoming? <==> store.Of(q).index == map[]
    {
      var first := store.FirstByScore(q);
      if first.None? {
        return NoneUpcoming;
      }
      var entry := store.HGetAll(q, first.value);
      if entry.Some? {
        u := Next(entry.value.date);
      } else {
        u := Stalled;
      }
    }

    /**
     * The per-queue step of `getStats`: the three lookups, then the queue's
     * three lines and its count; nothing when the upcoming lookup stalls.
     */
    method QueueLines(q: string, format: int -> string) returns (block: Option<seq<string>>, count: nat)
      ensures block.Some? <==> !NextOf(store.Of(q)).Stalled?
      ensures block.Some? ==> block.value == Block(q, store.Of(q), format)
      ensures count == |store.Of(q).index| + |store.Of(q).pending|
    {
      var future := FutureCount(q);
      var waiting := WaitingCount(q);
      var upcoming := NextUpcomingItem(q);
      count := future + waiting;
      if upcoming.Stalled? {
        return None, count;
      }
      block := Some([FutureLine(q, future), QueuedLine(q, waiting), NextLine(q, upcoming, format)]);
    }

    /**
     * `getStats`: the memory line, three lines per queue in the order given,
     * and the total of delayed plus pending ids. No report is produced when a
     * queue's upcoming lookup stalls.
     */
    method GetStats(queues: seq<string>, memory: string, format: int -> string) returns (report: Option<seq<string>>)
      ensures report.Some? <==> AllSettle(store, queues)
      ensures report.Some? ==> report.value == Report(store, queues, memory, format)
    {
      var lines := [MemoryLine(memory)];
      var total := 0;
      var i := 0;
      while i < |queues|
        invariant 0 <= i <= |queues|
        invariant lines == [MemoryLine(memory)] + Blocks(store, queues[..i], format)
        invariant total == Total(store, queues[..i])
        invariant AllSettle(store, queues[..i])
      {
        var block, count := QueueLines(queues[i], format);
        if block.None? {
          AllSettleIff(store, queues);
          return None;
        }
        PrefixStep(store, queues, i, format);
        AppendAssoc([MemoryLine(memory)], Blocks(store, queues[..i], format), block.value);
        lines := lines + block.value;
        total := total + count;
        i := i + 1;
      }
      assert queues[..|queues|] == queues;
      report := Some(lines + [TotalLine(total)]);
    }
  }
}
