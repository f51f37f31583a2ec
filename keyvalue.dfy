/** The key-value server behind the cache, reduced to the commands the cache sends:
    FLUSHDB, INCR, RPUSH, SET, GET and LRANGE key 0 -1. Plain values, counters and
    lists are kept in three maps; GET reads them as one keyspace. */
module KeyValue {
  import opened Wrappers
  import Utf8
  import PyInt

  /** The server's contents. */
  datatype Db = Db(
    strings: map<string, Utf8.bytes>,
    counters: map<string, int>,
    lists: map<string, seq<Utf8.bytes>>)

  const Empty := Db(map[], map[], map[])

  /** The commands that change the server. */
  datatype Command =
    | FlushDb
    | Incr(key: string)
    | RPush(key: string, item: Utf8.bytes)
    | Set(key: string, value: Utf8.bytes)

  /** What the server answers to GET: nil for a missing key, the bytes of a value, or the
      WRONGTYPE error for a key that holds a list. */
  datatype Reply = Nil | Bulk(value: Utf8.bytes) | WrongType

  /** GET. A counter is a value like any other: it reads as the decimal text of its count. */
  function Get(db: Db, key: string): (r: Reply) {
    if key in db.strings then Bulk(db.strings[key])
    else if key in db.counters then Bulk(Utf8.Encode(PyInt.Str(db.counters[key])))
    else if key in db.lists then WrongType
    else Nil
  }

  /** A counter that INCR never touched reads as 0. */
  function Counter(db: Db, key: string): (n: int) {
    if key in db.counters then db.counters[key] else 0
  }

  /** LRANGE key 0 -1: the whole list, empty when there is none. */
  function LRange(db: Db, key: string): (items: seq<Utf8.bytes>) {
    if key in db.lists then db.lists[key] else []
  }

  /** GET answers nil exactly for a key that holds nothing, and WRONGTYPE exactly for a key
      that holds a list. GET of a counter that is not shadowed by a plain value reads back
      through `int()` as the count. */
  lemma GetReply(db: Db, key: string)
    ensures Get(db, key).Nil? <==> key !in db.strings && key !in db.counters && key !in db.lists
    ensures Get(db, key).WrongType? <==> key !in db.strings && key !in db.counters && key in db.lists
    ensures key !in db.strings && key in db.counters ==> PyInt.Parse(Get(db, key).value) == Ok(Counter(db, key))
  {
    if key !in db.strings && key in db.counters {
      PyInt.ParseStr(db.counters[key]);
    }
  }

  /** The server after one command. */
  function Apply(db: Db, cmd: Command): (after: Db) {
    match cmd
    case FlushDb => Empty
    case Incr(k) => db.(counters := db.counters[k := Counter(db, k) + 1])
    case RPush(k, item) => db.(lists := db.lists[k := LRange(db, k) + [item]])
    case Set(k, v) => db.(strings := db.strings[k := v])
  }

  /** The server after the commands, in order. */
  function Run(db: Db, cmds: seq<Command>): (after: Db)
    decreases |cmds|
  {
    if cmds == [] then db else Run(Apply(db, cmds[0]), cmds[1..])
  }

  lemma {:induction false} RunAppend(db: Db, a: seq<Command>, b: seq<Command>)
    ensures Run(db, a + b) == Run(Run(db, a), b)
    decreases |a|
  {
    if a == [] {
      assert a + b == b;
    } else {
      assert (a + b)[0] == a[0];
      assert (a + b)[1..] == a[1..] + b;
      RunAppend(Apply(db, a[0]), a[1..], b);
    }
  }

  /** Four commands in a row: each applies to the server the previous one left. */
  lemma RunFour(db: Db, a: Command, b: Command, c: Command, d: Command)
    ensures Run(db, [a, b, c, d]) == Apply(Apply(Apply(Apply(db, a), b), c), d)
  {
    var db1 := Apply(db, a);
    var db2 := Apply(db1, b);
    var db3 := Apply(db2, c);
    assert Run(db3, [d]) == Apply(db3, d) by { assert [d][1..] == []; }
    assert Run(db2, [c, d]) == Run(db3, [d]) by { assert [c, d][1..] == [d]; }
    assert Run(db1, [b, c, d]) == Run(db2, [c, d]) by { assert [b, c, d][1..] == [c, d]; }
    assert Run(db, [a, b, c, d]) == Run(db1, [b, c, d]) by { assert [a, b, c, d][1..] == [b, c, d]; }
  }

  /** INCR of a counter, RPUSH to one list, SET of a key, RPUSH to another list: each of the
      four entries changes by one step and nothing else changes. */
  lemma CounterPushSetPush(db: Db, counter: string, first: string, input: Utf8.bytes,
                           key: string, value: Utf8.bytes, second: string, output: Utf8.bytes)
    requires first != second
    ensures Run(db, [Incr(counter), RPush(first, input), Set(key, value), RPush(second, output)]) == Db(
      db.strings[key := value],
      db.counters[counter := Counter(db, counter) + 1],
      db.lists[first := LRange(db, first) + [input]][second := LRange(db, second) + [output]])
  {
    var db1 := Apply(db, Incr(counter));
    assert db1.strings == db.strings && db1.lists == db.lists;
    var db2 := Apply(db1, RPush(first, input));
    assert db2.strings == db.strings && db2.counters == db1.counters;
    var db3 := Apply(db2, Set(key, value));
    assert db3.counters == db1.counters && db3.lists == db2.lists;
    assert LRange(db3, second) == LRange(db, second);
    RunFour(db, Incr(counter), RPush(first, input), Set(key, value), RPush(second, output));
  }

  /** No FLUSHDB and no INCR of `key` among the commands. */
  predicate LeavesCounter(cmds: seq<Command>, key: string) {
    forall i :: 0 <= i < |cmds| ==> cmds[i] != FlushDb && cmds[i] != Incr(key)
  }

  /** No FLUSHDB and no RPUSH to `key` among the commands. */
  predicate LeavesList(cmds: seq<Command>, key: string) {
    forall i :: 0 <= i < |cmds| ==> cmds[i] != FlushDb && !(cmds[i].RPush? && cmds[i].key == key)
  }

  /** Commands that neither flush nor increment `key` leave its counter as it was. */
  lemma {:induction false} RunLeavesCounter(db: Db, cmds: seq<Command>, key: string)
    requires LeavesCounter(cmds, key)
    ensures Counter(Run(db, cmds), key) == Counter(db, key)
    decreases |cmds|
  {
    if cmds != [] {
      assert cmds[0] != FlushDb && cmds[0] != Incr(key);
      assert LeavesCounter(cmds[1..], key) by {
        forall i | 0 <= i < |cmds| - 1 ensures cmds[1..][i] == cmds[i + 1] { }
      }
      RunLeavesCounter(Apply(db, cmds[0]), cmds[1..], key);
    }
  }

  /** Commands that neither flush nor push to `key` leave its list as it was. */
  lemma {:induction false} RunLeavesList(db: Db, cmds: seq<Command>, key: string)
    requires LeavesList(cmds, key)
    ensures LRange(Run(db, cmds), key) == LRange(db, key)
    decreases |cmds|
  {
    if cmds != [] {
      assert cmds[0] != FlushDb && !(cmds[0].RPush? && cmds[0].key == key);
      assert LeavesList(cmds[1..], key) by {
        forall i | 0 <= i < |cmds| - 1 ensures cmds[1..][i] == cmds[i + 1] { }
      }
      RunLeavesList(Apply(db, cmds[0]), cmds[1..], key);
    }
  }

  /** The server as the client sees it: one object whose three maps the commands update. */
  class Redis {
    var strings: map<string, Utf8.bytes>
    var counters: map<string, int>
    var lists: map<string, seq<Utf8.bytes>>

    function Snapshot(): (db: Db)
      reads this
    {
      Db(strings, counters, lists)
    }

    /** A connection to a server that already holds `db`. */
    constructor Connect(db: Db)
      ensures Snapshot() == db
    {
      strings, counters, lists := db.strings, db.counters, db.lists;
    }

    method FlushDb()
      modifies this
      ensures Snapshot() == Apply(old(Snapshot()), Command.FlushDb)
      ensures Snapshot() == Empty
    {
      strings, counters, lists := map[], map[], map[];
    }

    /** INCR: adds one to the counter under `key` and returns the new count. */
    method Incr(key: string) returns (count: int)
      modifies this
      ensures Snapshot() == Apply(old(Snapshot()), Command.Incr(key))
      ensures count == Counter(old(Snapshot()), key) + 1 == Counter(Snapshot(), key)
    {
      count := Counter(Snapshot(), key) + 1;
      counters := counters[key := count];
    }

    /** RPUSH: appends `item` to the list under `key` and returns the list's new length. */
    method RPush(key: string, item: Utf8.bytes) returns (length: nat)
      modifies this
      ensures Snapshot() == Apply(old(Snapshot()), Command.RPush(key, item))
      ensures LRange(Snapshot(), key) == LRange(old(Snapshot()), key) + [item]
      ensures length == |LRange(Snapshot(), key)|
    {
      var list := LRange(Snapshot(), key) + [item];
      lists := lists[key := list];
      length := |list|;
    }

    /** SET: stores `value` under `key`, replacing what was there; answers true. */
    method Set(key: string, value: Utf8.bytes) returns (ok: bool)
      modifies this
      ensures Snapshot() == Apply(old(Snapshot()), Command.Set(key, value))
      ensures Get(Snapshot(), key) == Bulk(value)
      ensures ok
    {
      strings := strings[key := value];
      ok := true;
    }
  }
}
