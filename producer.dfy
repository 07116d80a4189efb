/**
 * The store path (lib/storer.js): `STORE <queue> <date>` is validated by
 * `prepare`, and the payload that follows is written by `receive`.
 */
module Producer {
  import opened Wrappers
  import opened Text
  import opened QueueModel
  import opened Store

  datatype StoreError = InvalidCommand | InvalidDate(token: string)

  /** The text of the error `prepare` throws. */
  function ErrorText(e: StoreError): string
  {
    match e
    case InvalidCommand => "Invalid command string. Must provide \"STORE <Queue Name> <Embargo Date>\""
    case InvalidDate(token) => "Invalid date \"" + token + "\". Must be a RFC 2822 formatted date"
  }

  /** A validated store command: the queue and the embargo in ms since the epoch. */
  datatype StoreCommand = StoreCommand(queue: string, date: int)

  /**
   * The validation of `prepare`: exactly three single-space tokens, the queue
   * is the second one trimmed, and the trimmed third one must parse to a date
   * whose time is a number other than 0 and not negative. `parse` stands for
   * `new Date(s).getTime()`, with None for NaN.
   */
  function ParseStore(message: string, parse: string -> Option<int>): (r: Result<StoreCommand, StoreError>)
    ensures r.Ok? ==> r.value.date > 0
  {
    var tokens := Split(message, ' ');
    if |tokens| != 3 then Err(InvalidCommand)
    else
      var t := parse(Trim(tokens[2]));
      if t.None? || t.value <= 0 then Err(InvalidDate(Trim(tokens[2])))
      else Ok(StoreCommand(Trim(tokens[1]), t.value))
  }

  /**
   * A command of three space-free words is judged on its date alone: it is
   * accepted exactly when the trimmed third word parses to a positive time,
   * and then names the trimmed second word as its queue.
   */
  lemma ParseThreeWords(a: string, b: string, c: string, parse: string -> Option<int>)
    requires ' ' !in a && ' ' !in b && ' ' !in c
    ensures var r := ParseStore(a + " " + b + " " + c, parse);
      && (r.Ok? <==> parse(Trim(c)).Some? && parse(Trim(c)).value > 0)
      && (r.Ok? ==> r.value == StoreCommand(Trim(b), parse(Trim(c)).value))
      && (r.Err? ==> r.error == InvalidDate(Trim(c)))
  {
    var pieces := [a, b, c];
    assert Join(pieces, ' ') == a + " " + b + " " + c by {
      assert Join(pieces[2..], ' ') == c;
      assert Join(pieces[1..], ' ') == b + " " + c;
    }
    SplitJoin(pieces, ' ');
  }

  /** Every accepted command is three space-free words separated by single spaces. */
  lemma AcceptedIsThreeWords(message: string, parse: string -> Option<int>)
    requires ParseStore(message, parse).Ok?
    ensures exists a, b, c :: ' ' !in a && ' ' !in b && ' ' !in c && message == a + " " + b + " " + c
  {
    var t := Split(message, ' ');
    JoinSplit(message, ' ');
    SplitPieces(message, ' ');
    assert Join(t, ' ') == t[0] + " " + t[1] + " " + t[2] by {
      assert Join(t[2..], ' ') == t[2];
      assert Join(t[1..], ' ') == t[1] + " " + t[2];
    }
    assert ' ' !in t[0] && ' ' !in t[1] && ' ' !in t[2];
  }

  /** A message without exactly two spaces is refused as an invalid command. */
  lemma WrongArityRefused(message: string, parse: string -> Option<int>)
    requires Occurrences(message, ' ') != 2
    ensures ParseStore(message, parse) == Err(InvalidCommand)
  {
    SplitPieces(message, ' ');
  }

  /** A producer connection's pending transaction. */
  class Storer {
    const store: Store
    var queue: string
    /** The embargo time, None standing for an invalid (NaN) date. */
    var date: Option<int>

    constructor (store: Store)
      ensures this.store == store && queue == "" && date == None
    {
      this.store := store;
      queue, date := "", None;
    }

    /** A transaction whose date `prepare` has accepted. */
    predicate Prepared()
      reads this
    {
      date.Some? && date.value > 0
    }

    /**
     * `prepare`: records the queue and the date, failing as `ParseStore` does.
     * The queue is recorded before the date is checked, as in the source. The
     * store is not touched.
     */
    method Prepare(message: string, parse: string -> Option<int>) returns (r: Outcome<StoreError>)
      modifies this
      ensures r.Pass? <==> ParseStore(message, parse).Ok?
      ensures r.Fail? ==> r.error == ParseStore(message, parse).error
      ensures r.Pass? ==>
                Prepared() && queue == ParseStore(message, parse).value.queue
                && date.value == ParseStore(message, parse).value.date
      ensures r.Fail? && r.error.InvalidCommand? ==> queue == old(queue) && date == old(date)
      ensures r.Fail? && r.error.InvalidDate? ==>
                && |Split(message, ' ')| == 3
                && queue == Trim(Split(message, ' ')[1]) && date == parse(Trim(Split(message, ' ')[2]))
    {
      ghost var parsed := ParseStore(message, parse);
      var tokens := Split(message, ' ');
      if |tokens| != 3 {
        assert parsed == Err(InvalidCommand);
        return Fail(InvalidCommand);
      }
      queue := Trim(tokens[1]);
      date := parse(Trim(tokens[2]));
      if date.None? || date.value <= 0 {
        assert parsed == Err(InvalidDate(Trim(tokens[2])));
        return Fail(InvalidDate(Trim(tokens[2])));
      }
      assert parsed == Ok(StoreCommand(queue, date.value));
      r := Pass;
    }

    /**
     * `receive`: SADD the queue, INCR its counter, HMSET the payload entry under
     * the new id and ZADD the id scored by the embargo.
     */
    method Receive(payload: string)
      requires Prepared()
      modifies store
      ensures store.queues == old(store.queues) + {queue}
      ensures store.data == old(store.data)[queue := Received(old(store.Of(queue)), date.value, payload)]
      ensures store.locks == old(store.locks)
    {
      store.SAdd(queue);
      var id := store.Incr(queue);
      store.HmSet(queue, Item(id, date.value, payload));
      store.ZAdd(queue, date.value, id);
    }
  }
}
