/**
 * Key naming (lib/keys.js): every backing-store key is derived from the
 * configured namespace prefix, an optional queue name and a logical name.
 */
module Keys {
  import opened Wrappers
  import opened Text

  /** JavaScript truthiness of the optional queue argument: absent and "" are both falsy. */
  predicate Truthy(queue: Option<string>)
  {
    queue.Some? && queue.value != ""
  }

  /** `KeyManager.getName(name, queue)`: `prefix.queue.__name`, or `prefix.__name` without a queue. */
  function GetName(prefix: string, name: string, queue: Option<string>): (k: string)
    ensures |k| == |prefix| + (if Truthy(queue) then 1 + |queue.value| else 0) + 3 + |name|
    ensures k[..|prefix|] == prefix && k[|k| - |name| - 3..] == ".__" + name
    ensures Truthy(queue) ==> k[|prefix|..|prefix| + 1 + |queue.value|] == "." + queue.value
  {
    if Truthy(queue) then prefix + "." + queue.value + ".__" + name else prefix + ".__" + name
  }

  /** The key of a queue-scoped structure has the prefix, the queue and the name in that order. */
  lemma QueuedKeyLayout(prefix: string, name: string, queue: string)
    requires queue != ""
    ensures GetName(prefix, name, Some(queue))[..|prefix|] == prefix
    ensures GetName(prefix, name, Some(queue))[|prefix|..|prefix| + 1 + |queue|] == "." + queue
    ensures GetName(prefix, name, Some(queue))[|prefix| + 1 + |queue|..] == ".__" + name
  {
    var k := GetName(prefix, name, Some(queue));
    assert k == prefix + ("." + queue) + (".__" + name);
  }

  /** Without a queue the key is the prefix followed by `.__name`. */
  lemma GlobalKeyLayout(prefix: string, name: string)
    ensures GetName(prefix, name, None)[..|prefix|] == prefix
    ensures GetName(prefix, name, None)[|prefix|..] == ".__" + name
  {
  }

  /** An empty queue name is falsy, so it names the same key as no queue at all. */
  lemma EmptyQueueIsNoQueue(prefix: string, name: string)
    ensures GetName(prefix, name, Some("")) == GetName(prefix, name, None)
  {
  }

  /** For a fixed prefix and queue, distinct logical names give distinct keys. */
  lemma DistinctNamesDistinctKeys(prefix: string, n1: string, n2: string, queue: Option<string>)
    requires n1 != n2
    ensures GetName(prefix, n1, queue) != GetName(prefix, n2, queue)
  {
    var head := if Truthy(queue) then prefix + "." + queue.value + ".__" else prefix + ".__";
    assert GetName(prefix, n1, queue) == head + n1;
    assert GetName(prefix, n2, queue) == head + n2;
    assert (head + n1)[|head|..] == n1;
    assert (head + n2)[|head|..] == n2;
  }

  /**
   * Queue names without a dot cannot be confused with one another: the key
   * determines both the queue and the logical name.
   */
  lemma QueuedKeysInjective(prefix: string, n1: string, q1: string, n2: string, q2: string)
    requires q1 != "" && q2 != "" && '.' !in q1 && '.' !in q2
    requires GetName(prefix, n1, Some(q1)) == GetName(prefix, n2, Some(q2))
    ensures q1 == q2 && n1 == n2
  {
    var k := GetName(prefix, n1, Some(q1));
    var t1 := q1 + ['.'] + ("__" + n1);
    var t2 := q2 + ['.'] + ("__" + n2);
    assert k == prefix + "." + t1;
    assert k == prefix + "." + t2;
    assert t1 == k[|prefix| + 1..] == t2;
    FirstSeparator(q1, "__" + n1, q2, "__" + n2, '.');
    assert n1 == ("__" + n1)[2..] == ("__" + n2)[2..] == n2;
  }

  /** The promotion lock key of a queue: `getName('requeueLock2:' + queue)`, with no queue argument. */
  function LockKey(prefix: string, queue: string): (k: string)
    ensures k == prefix + ".__requeueLock2:" + queue
  {
    GetName(prefix, "requeueLock2:" + queue, None)
  }

  /** Every queue has its own lock key. */
  lemma LockKeysDistinct(prefix: string, q1: string, q2: string)
    requires q1 != q2
    ensures LockKey(prefix, q1) != LockKey(prefix, q2)
  {
    assert ("requeueLock2:" + q1)[13..] == q1;
    assert ("requeueLock2:" + q2)[13..] == q2;
    DistinctNamesDistinctKeys(prefix, "requeueLock2:" + q1, "requeueLock2:" + q2, None);
  }
}
