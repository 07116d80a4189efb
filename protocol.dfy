/**
 * The connection handler of lib/index.js: the first-word dispatch of incoming
 * frames, the per-connection storer and getter slots, the subscriber
 * registry, the subscriber connection pool and the stats reply.
 */
module Protocol {
  import opened Wrappers
  import opened Text
  import opened QueueModel
  import opened Store
  import opened Pool
  import opened Repetition
  import Producer
  import Consumer
  import Reporter

  /** What a frame asks for: the `ACTION` names, `ACK`, or anything else (a payload). */
  datatype Action = StatsAction | StoreAction | FetchAction | AckAction | DataAction

  /** The command word of a frame: its first single-space token, trimmed. */
  function Verb(frame: string): (v: string)
    ensures ' ' !in v
    ensures v == [] || (!IsWhitespace(v[0]) && !IsWhitespace(v[|v| - 1]))
  {
    SplitPieces(frame, ' ');
    var w := Split(frame, ' ')[0];
    TrimSpec(w);
    Trim(w)
  }

  /** The handler a command word selects. */
  function ActionOf(verb: string): (a: Action)
    ensures a == StatsAction <==> verb == "STATS"
    ensures a == StoreAction <==> verb == "STORE"
    ensures a == FetchAction <==> verb == "FETCH"
    ensures a == AckAction <==> verb == "ACK"
  {
    if verb == "STATS" then StatsAction
    else if verb == "STORE" then StoreAction
    else if verb == "FETCH" then FetchAction
    else if verb == "ACK" then AckAction
    else DataAction
  }

  /** The handler a frame reaches, chosen by its command word. */
  function Dispatch(frame: string): Action
  {
    ActionOf(Verb(frame))
  }

  /** Every frame whose command word is not one of the four is data. */
  lemma DispatchOtherwiseData(frame: string)
    ensures Dispatch(frame) == DataAction <==> Verb(frame) !in {"STATS", "STORE", "FETCH", "ACK"}
  {
  }

  /** Only the first word decides: whatever follows the first space is ignored. */
  lemma VerbIsFirstWord(w: string, rest: string)
    requires ' ' !in w
    ensures Verb(w + " " + rest) == Trim(w)
    ensures Verb(w) == Trim(w)
  {
    SplitHead(w, rest, ' ');
    assert w + " " + rest == w + [' '] + rest;
  }

  /** A frame whose first word carries no surrounding white space is dispatched on that word. */
  lemma DispatchFirstWord(w: string, rest: string)
    requires ' ' !in w && w != [] && !IsWhitespace(w[0]) && !IsWhitespace(w[|w| - 1])
    ensures Dispatch(w + " " + rest) == ActionOf(w)
    ensures Dispatch(w) == ActionOf(w)
  {
    VerbIsFirstWord(w, rest);
    TrimBare(w);
  }

  /** Each command line reaches its own handler, with or without arguments. */
  lemma CommandsDispatch(w: string, rest: string)
    requires w == "STATS" || w == "STORE" || w == "FETCH" || w == "ACK"
    ensures Dispatch(w + " " + rest) == ActionOf(w) && Dispatch(w) == ActionOf(w)
    ensures ActionOf(w) != DataAction
  {
    assert ' ' !in w && |w| > 0;
    assert !IsWhitespace(w[0]) && !IsWhitespace(w[|w| - 1]);
    DispatchFirstWord(w, rest);
  }

  /** A connection's remote end. */
  datatype Socket = Socket(address: string, port: nat)

  /** The subscriber registry key `remoteAddress + ':' + remotePort`. */
  function Key(s: Socket): (k: string)
    ensures |k| > |s.address| + 1 && k[..|s.address|] == s.address && k[|s.address|] == ':'
    ensures forall i :: |s.address| < i < |k| ==> '0' <= k[i] <= '9'
  {
    s.address + ":" + NatToString(s.port)
  }

  /** Distinct remote ends never share a registry key, even for addresses that contain ':'. */
  lemma KeyInjective(s: Socket, t: Socket)
    requires Key(s) == Key(t)
    ensures s == t
  {
    assert ':' !in NatToString(s.port) && ':' !in NatToString(t.port) by {
      assert forall k :: 0 <= k < |NatToString(s.port)| ==> NatToString(s.port)[k] != ':';
      assert forall k :: 0 <= k < |NatToString(t.port)| ==> NatToString(t.port)[k] != ':';
    }
    assert s.address + ":" + NatToString(s.port) == s.address + [':'] + NatToString(s.port);
    assert t.address + ":" + NatToString(t.port) == t.address + [':'] + NatToString(t.port);
    LastSeparator(s.address, NatToString(s.port), t.address, NatToString(t.port), ':');
    NatToStringInjective(s.port, t.port);
  }

  /** The fixed head of the STATS reply, before the report of lib/stats.js. */
  function StatsHeader(subscribers: nat, unused: nat, memory: string): (h: seq<string>)
    ensures |h| == 4 && h[0] == "__healthy: true" && h[3] == Reporter.MemoryLine(memory)
  {
    [ "__healthy: true",
      Reporter.CountLine("__subscriberCount: ", subscribers),
      Reporter.CountLine("__unusedRedisConnections: ", unused),
      Reporter.MemoryLine(memory) ]
  }

  /**
   * The header's second and third lines are labelled counts whose digits read
   * back as the subscriber count and the number of idle pooled clients.
   */
  lemma StatsHeaderCounts(subscribers: nat, unused: nat, memory: string)
    ensures var h := StatsHeader(subscribers, unused, memory);
      && |h[1]| > 19 && h[1][..19] == "__subscriberCount: "
      && |h[2]| > 26 && h[2][..26] == "__unusedRedisConnections: "
      && (forall k :: 19 <= k < |h[1]| ==> '0' <= h[1][k] <= '9') && DecimalValue(h[1][19..]) == subscribers
      && (forall k :: 26 <= k < |h[2]| ==> '0' <= h[2][k] <= '9') && DecimalValue(h[2][26..]) == unused
  {
    Reporter.CountLineDigits("__subscriberCount: ", subscribers);
    Reporter.CountLineDigits("__unusedRedisConnections: ", unused);
  }

  /** `lines.join("\n") + "\n"`: the lines of a reply, each newline-terminated. */
  function Reply(lines: seq<string>): (r: string)
    ensures |r| >= 1 && r[|r| - 1] == '\n'
  {
    (if lines == [] then "" else Join(lines, '\n')) + "\n"
  }

  /** A listing of the queue directory: every registered queue exactly once. */
  ghost predicate Listing(s: Store, queues: seq<string>)
    reads s
  {
    && (forall q :: q in queues <==> q in s.queues)
    && (forall i, j :: 0 <= i < j < |queues| ==> queues[i] != queues[j])
  }

  /** One client connection and the handler's per-connection variables. */
  class Connection {
    const sock: Socket
    /** `storer`: set by a STORE whose `prepare` succeeded. */
    var storer: Producer.Storer?
    /** `getter`: set by FETCH. */
    var getter: Consumer.Getter?
    /** Everything written to the socket, in order. */
    var sent: seq<string>
    /** Whether `sock.end()` was called. */
    var ended: bool

    constructor (sock: Socket)
      ensures this.sock == sock && storer == null && getter == null
      ensures sent == ["OK"] && !ended
    {
      this.sock := sock;
      storer, getter := null, null;
      sent, ended := ["OK"], false;
    }
  }

  class TimeCapsule {
    const store: Store
    /** `minRedisClientSubscriberPool`. */
    const minPool: nat
    /** `_subscribers`, keyed by `Key`. */
    var subscribers: map<string, Socket>
    /** `_redisClientSubscriberPool` and the number of clients connected so far. */
    var pool: PoolState

    /** The pool never holds more idle clients than its minimum. */
    predicate Valid()
      reads this
    {
      |pool.idle| <= minPool
    }

    /** The connection's storer and getter work on this broker's store, and a kept storer is prepared. */
    predicate Wired(conn: Connection)
      reads conn, conn.storer, conn.getter
    {
      && (conn.storer != null ==> conn.storer.store == store && conn.storer.Prepared())
      && (conn.getter != null ==> conn.getter.store == store)
    }

    constructor (store: Store, minPool: nat)
      ensures this.store == store && this.minPool == minPool
      ensures subscribers == map[] && pool == PoolState([], 0)
      ensures Valid()
    {
      this.store := store;
      this.minPool := minPool;
      subscribers := map[];
      pool := PoolState([], 0);
    }

    /** The pool pre-fill of `runServer`: `repeat(minPool, ...)` connecting and pushing a client each time. */
    method PreFill()
      modifies this
      ensures pool == Iterate(OpenOne, old(pool), minPool)
      ensures subscribers == old(subscribers)
      ensures old(pool.idle) == [] ==> Valid() && |pool.idle| == minPool && WellFormed(pool)
    {
      var calls, filled := Repeat(minPool, OpenOne, pool);
      PreFillSpec(pool, minPool);
      if pool.idle == [] {
        PreFillWellFormed(pool, minPool);
      }
      pool := filled;
    }

    /** `_getRedisClientSubscriber`: pop the most recently pushed client, or connect a new one. */
    method AcquireClient() returns (c: Client)
      modifies this
      ensures (c, pool) == Acquire(old(pool))
      ensures |pool.idle| <= |old(pool.idle)|
      ensures subscribers == old(subscribers)
    {
      if |pool.idle| > 0 {
        c := pool.idle[|pool.idle| - 1];
        pool := pool.(idle := pool.idle[..|pool.idle| - 1]);
      } else {
        c := Client(pool.connected);
        pool := pool.(connected := pool.connected + 1);
      }
    }

    /** The close handler's release: push the client back only while the pool is below its minimum. */
    method ReleaseClient(c: Client)
      modifies this
      ensures pool == Release(old(pool), c, minPool)
      ensures old(Valid()) ==> Valid()
      ensures subscribers == old(subscribers)
    {
      if |pool.idle| < minPool {
        pool := pool.(idle := pool.idle + [c]);
      }
    }

    /** `_onConnection`: a new connection is greeted with `OK` and has no storer or getter. */
    method OnConnection(sock: Socket) returns (conn: Connection)
      ensures fresh(conn) && conn.sock == sock
      ensures conn.sent == ["OK"] && !conn.ended
      ensures conn.storer == null && conn.getter == null && Wired(conn)
    {
      conn := new Connection(sock);
    }

    /** The STATS lines over the queues in the order listed. */
    function StatsLines(queues: seq<string>, memory: string, format: int -> string): seq<string>
      reads this, store
    {
      StatsHeader(|subscribers|, |pool.idle|, memory) + Reporter.Report(store, queues, memory, format)
    }

    /**
     * `getStats`: the health, subscriber, idle-pool and memory lines, then the
     * report of lib/stats.js over the queue directory in the order listed.
     */
    method GetStats(memory: string, format: int -> string) returns (report: Option<seq<string>>, queues: seq<string>)
      ensures Listing(store, queues)
      ensures report.Some? <==> Reporter.AllSettle(store, queues)
      ensures report.Some? ==> report.value == StatsLines(queues, memory, format)
    {
      var stats := new Reporter.Stats(store);
      queues := store.Members();
      var data := stats.GetStats(queues, memory, format);
      if data.Some? {
        report := Some(StatsHeader(|subscribers|, |pool.idle|, memory) + data.value);
      } else {
        report := None;
      }
    }

    /** The registry and the pool are as they were. */
    twostate predicate Kept()
      reads this
    {
      subscribers == old(subscribers) && pool == old(pool)
    }

    /** The store's directory and queue data are as they were. */
    twostate predicate StoreKept()
      reads store
    {
      store.data == old(store.data) && store.queues == old(store.queues)
    }

    /**
     * What STATS leaves behind: when every queue's upcoming lookup settles,
     * the report of the state it started from written one line per row,
     * newline-terminated, and the connection ended; when one stalls, the
     * reply never comes and nothing is written.
     */
    twostate predicate StatsAnswered(conn: Connection, memory: string, format: int -> string)
      reads this, store, conn
    {
      && (!old(Reporter.Settles(store)) ==> conn.sent == old(conn.sent) && conn.ended == old(conn.ended))
      && (old(Reporter.Settles(store)) ==>
           && conn.ended
           && exists queues :: old(Listing(store, queues)) && conn.sent == old(conn.sent) + [old(Reply(StatsLines(queues, memory, format)))])
    }

    /**
     * What STORE leaves behind: a storer holding the parsed queue and date
     * and the reply `OK`, or no storer, `FAIL <reason>` and the end.
     */
    twostate predicate StoreAnswered(conn: Connection, parsed: Result<Producer.StoreCommand, Producer.StoreError>)
      reads conn, conn.storer
    {
      match parsed
      case Ok(cmd) =>
        && conn.storer != null
        && conn.storer.queue == cmd.queue && conn.storer.date == Some(cmd.date)
        && conn.sent == old(conn.sent) + ["OK"] && conn.ended == old(conn.ended)
      case Err(e) =>
        && conn.storer == null
        && conn.sent == old(conn.sent) + ["FAIL " + Producer.ErrorText(e)] && conn.ended
    }

    /**
     * What FETCH leaves behind: the subscriber registered, a getter on a
     * pooled client, and either the end (no queue named) or `OK` followed by
     * the next pending payload, if any, which is accepted; then only the named
     * queue changes and the connection stays open.
     */
    twostate predicate FetchServed(conn: Connection, frame: string)
      reads this, store, conn, conn.getter
    {
      && subscribers == old(subscribers)[Key(conn.sock) := conn.sock]
      && conn.getter != null && (conn.getter.client, pool) == Acquire(old(pool))
      && store.queues == old(store.queues)
      && match Consumer.FetchQueue(frame)
         case None =>
           conn.ended && conn.sent == old(conn.sent) && store.data == old(store.data)
         case Some(q) =>
           var (it, d) := FetchNext(old(store.Of(q)));
           && conn.getter.queue == q && conn.getter.backup == it
           && store.Of(q) == Consumer.AfterAccept(it, d)
           && (forall q' :: q' != q ==> store.Of(q') == old(store.Of(q')))
           && conn.sent == old(conn.sent) + ["OK"] + (if it.Some? then [it.value.data] else [])
           && conn.ended == old(conn.ended)
    }

    /** What ACK leaves behind: the getter's backup cleared, nothing written, the end. */
    twostate predicate Acked(conn: Connection)
      reads conn, conn.getter
    {
      && conn.ended && conn.sent == old(conn.sent)
      && (conn.getter != null ==> conn.getter.backup == None)
    }

    /**
     * What a payload frame leaves behind: with a storer, the payload
     * received into its queue and `OK`; without, nothing stored or written.
     * The connection ends either way.
     */
    twostate predicate PayloadTaken(conn: Connection, frame: string)
      reads store, conn, conn.storer
    {
      && conn.ended
      && conn.storer == old(conn.storer)
      && (conn.storer != null ==>
           && conn.storer.date.Some?
           && store.queues == old(store.queues) + {conn.storer.queue}
           && store.data == old(store.data)[conn.storer.queue := Received(old(store.Of(conn.storer.queue)), conn.storer.date.value, frame)]
           && conn.sent == old(conn.sent) + ["OK"])
      && (conn.storer == null ==>
           store.queues == old(store.queues) && store.data == old(store.data) && conn.sent == old(conn.sent))
    }

    /** STATS: write the report once every queue's upcoming lookup settles (`StatsAnswered`). */
    method OnStats(conn: Connection, memory: string, format: int -> string)
      modifies conn
      ensures conn.storer == old(conn.storer) && conn.getter == old(conn.getter)
      ensures StatsAnswered(conn, memory, format)
      ensures Kept() && StoreKept()
    {
      var report, queues := GetStats(memory, format);
      Reporter.SettlesListed(store, queues);
      if report.Some? {
        conn.sent := conn.sent + [Reply(report.value)];
        conn.ended := true;
      }
    }

    /** STORE: install a prepared storer and reply `OK`; on a refused line reply `FAIL <reason>` and end. */
    method OnStore(conn: Connection, frame: string, parse: string -> Option<int>)
      requires Wired(conn)
      modifies conn
      ensures Wired(conn)
      ensures conn.getter == old(conn.getter)
      ensures conn.storer != null ==> fresh(conn.storer)
      ensures StoreAnswered(conn, Producer.ParseStore(frame, parse))
      ensures Kept() && StoreKept()
    {
      var s := new Producer.Storer(store);
      var r := s.Prepare(frame, parse);
      AnswerStore(conn, s, r);
    }

    /** The reply to a prepare: keep the storer and write `OK`, or drop it, write `FAIL <reason>` and end. */
    method AnswerStore(conn: Connection, s: Producer.Storer, r: Outcome<Producer.StoreError>)
      modifies conn
      ensures conn.getter == old(conn.getter)
      ensures r.Pass? ==> conn.storer == s && conn.sent == old(conn.sent) + ["OK"] && conn.ended == old(conn.ended)
      ensures r.Fail? ==>
        conn.storer == null && conn.sent == old(conn.sent) + ["FAIL " + Producer.ErrorText(r.error)] && conn.ended
    {
      if r.Pass? {
        conn.storer := s;
        conn.sent := conn.sent + ["OK"];
      } else {
        conn.storer := null;
        conn.sent := conn.sent + ["FAIL " + Producer.ErrorText(r.error)];
        conn.ended := true;
      }
    }

    /**
     * The FETCH chain on a fresh getter: prepare, `OK`, get, write and accept.
     * A line with no queue ends the connection; an empty pending list leaves
     * the subscriber waiting after `OK`.
     */
    method Serve(conn: Connection, g: Consumer.Getter, frame: string)
      requires g.store == store && g.backup == None
      modifies conn, g, store
      ensures conn.storer == old(conn.storer) && conn.getter == old(conn.getter)
      ensures store.queues == old(store.queues) && store.locks == old(store.locks)
      ensures match Consumer.FetchQueue(frame)
        case None =>
          && conn.ended && conn.sent == old(conn.sent)
          && store.data == old(store.data) && g.backup == None
        case Some(q) =>
          var (it, d) := FetchNext(old(store.Of(q)));
          && g.queue == q && g.backup == it
          && store.Of(q) == Consumer.AfterAccept(it, d)
          && (forall q' :: q' != q ==> store.Of(q') == old(store.Of(q')))
          && conn.sent == old(conn.sent) + ["OK"] + (if it.Some? then [it.value.data] else [])
          && conn.ended == old(conn.ended)
    {
      var r := g.Prepare(frame);
      if r.Fail? {
        conn.ended := true;
        return;
      }
      Deliver(conn, g);
    }

    /** The FETCH chain once prepared: `OK`, get, write the payload if there is one, and accept it. */
    method Deliver(conn: Connection, g: Consumer.Getter)
      requires g.store == store
      modifies conn, g, store
      ensures conn.storer == old(conn.storer) && conn.getter == old(conn.getter)
      ensures store.queues == old(store.queues) && store.locks == old(store.locks)
      ensures g.queue == old(g.queue)
      ensures var (it, d) := FetchNext(old(store.Of(g.queue)));
        && g.backup == (if it.Some? then it else old(g.backup))
        && store.Of(g.queue) == Consumer.AfterAccept(it, d)
        && conn.sent == old(conn.sent) + ["OK"] + (if it.Some? then [it.value.data] else [])
        && conn.ended == old(conn.ended)
      ensures forall q :: q != g.queue ==> store.Of(q) == old(store.Of(q))
    {
      conn.sent := conn.sent + ["OK"];
      ghost var q := g.queue;
      ghost var fetched := FetchNext(old(store.Of(q)));
      var payload := g.Get();
      assert store.Of(q) == fetched.1;
      if payload.Some? {
        conn.sent := conn.sent + [payload.value];
        var _ := g.Accept();
      } else {
        assert store.Of(q) == Consumer.AfterAccept(fetched.0, fetched.1);
      }
    }

    /** FETCH: register the subscriber, take a pooled client for a new getter and serve it. */
    method OnFetch(conn: Connection, frame: string)
      requires Wired(conn) && Valid()
      modifies this, conn, store
      ensures Wired(conn) && Valid()
      ensures conn.getter != null && fresh(conn.getter) && conn.storer == old(conn.storer)
      ensures store.locks == old(store.locks)
      ensures FetchServed(conn, frame)
    {
      subscribers := subscribers[Key(conn.sock) := conn.sock];
      var c := AcquireClient();
      var g := new Consumer.Getter(store, c);
      conn.getter := g;
      Serve(conn, g, frame);
    }

    /** ACK: clear the getter's backup when there is a getter; end the connection either way. */
    method OnAck(conn: Connection)
      modifies conn, conn.getter
      ensures conn.storer == old(conn.storer) && conn.getter == old(conn.getter)
      ensures conn.getter != null ==> conn.getter.queue == old(conn.getter.queue)
      ensures Acked(conn)
      ensures Kept() && StoreKept()
    {
      if conn.getter != null {
        conn.getter.Ack();
      }
      conn.ended := true;
    }

    /** Any other frame: the payload of a prepared STORE, stored and answered `OK`; otherwise just end. */
    method OnPayload(conn: Connection, frame: string)
      requires Wired(conn)
      modifies conn, store
      ensures Wired(conn)
      ensures conn.getter == old(conn.getter)
      ensures store.locks == old(store.locks)
      ensures PayloadTaken(conn, frame)
      ensures Kept()
    {
      if conn.storer != null {
        conn.storer.Receive(frame);
        conn.sent := conn.sent + ["OK"];
      }
      conn.ended := true;
    }

    /** The `data` handler: dispatch on the frame's first word and do what that handler does. */
    method OnData(conn: Connection, frame: string, parse: string -> Option<int>, memory: string, format: int -> string)
      requires Wired(conn) && Valid()
      modifies this, conn, conn.getter, store
      ensures Wired(conn) && Valid()
      ensures store.locks == old(store.locks)
      ensures !Dispatch(frame).FetchAction? ==> conn.getter == old(conn.getter)
      ensures Dispatch(frame).FetchAction? ==> fresh(conn.getter)
      ensures !Dispatch(frame).StoreAction? ==> conn.storer == old(conn.storer)
      ensures Dispatch(frame).StatsAction? ==> StatsAnswered(conn, memory, format) && Kept() && StoreKept()
      ensures Dispatch(frame).StoreAction? ==> StoreAnswered(conn, Producer.ParseStore(frame, parse)) && Kept() && StoreKept()
      ensures Dispatch(frame).FetchAction? ==> FetchServed(conn, frame)
      ensures Dispatch(frame).AckAction? ==> Acked(conn) && Kept() && StoreKept()
      ensures Dispatch(frame).DataAction? ==> PayloadTaken(conn, frame) && Kept()
    {
      var action := Dispatch(frame);
      match action
      case StatsAction => OnStats(conn, memory, format);
      case StoreAction => OnStore(conn, frame, parse);
      case FetchAction => OnFetch(conn, frame);
      case AckAction => OnAck(conn);
      case DataAction => OnPayload(conn, frame);
    }

    /**
     * The `close` handler: with a getter, run its close (re-queueing an item
     * still backed up) and release its client; then drop the registry entry.
     */
    method OnClose(conn: Connection)
      requires Wired(conn)
      modifies this, store
      ensures subscribers == old(subscribers) - {Key(conn.sock)}
      ensures old(Valid()) ==> Valid()
      ensures store.queues == old(store.queues) && store.locks == old(store.locks)
      ensures conn.getter == null ==> pool == old(pool) && store.data == old(store.data)
      ensures conn.getter != null ==>
        && pool == Release(old(pool), conn.getter.client, minPool)
        && store.Of(conn.getter.queue) == Consumer.AfterClose(conn.getter.backup, old(store.Of(conn.getter.queue)))
        && (forall q :: q != conn.getter.queue ==> store.Of(q) == old(store.Of(q)))
    {
      if conn.getter != null {
        var _ := conn.getter.Close();
        ReleaseClient(conn.getter.client);
      }
      subscribers := subscribers - {Key(conn.sock)};
    }
  }
}
