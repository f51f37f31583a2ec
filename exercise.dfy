/** The instrumented cache: the `Cache` class whose `store` is wrapped by `count_calls`
    and `call_history`, its readers `get`, `get_str` and `get_int`, and `replay`. */
module Exercise {
  import opened Wrappers
  import Utf8
  import PyInt
  import PyRepr
  import opened KeyValue
  import opened Decorators

  /** The values `store` accepts. */
  datatype Value = Text(s: string) | Binary(b: Utf8.bytes) | Integer(i: int)

  /** The bytes the client library sends for a value: bytes as they are, text as UTF-8,
      an integer as the UTF-8 of its decimal repr. */
  function ClientEncode(v: Value): (b: Utf8.bytes) {
    match v
    case Text(s) => Utf8.Encode(s)
    case Binary(b) => b
    case Integer(i) => Utf8.Encode(PyInt.Str(i))
  }

  /** Reading back what was stored: text through `decode('utf-8')`, an integer through
      `int()`, bytes as they are; an integer also reads as the text of its digits. */
  lemma EncodeReadsBack(v: Value)
    ensures v.Text? ==> Utf8.Decode(ClientEncode(v)) == Ok(v.s)
    ensures v.Binary? ==> ClientEncode(v) == v.b
    ensures v.Integer? ==> PyInt.Parse(ClientEncode(v)) == Ok(v.i)
    ensures v.Integer? ==> Utf8.Decode(ClientEncode(v)) == Ok(PyInt.Str(v.i))
  {
    match v
    case Text(s) => Utf8.DecodeEncode(s);
    case Binary(_) =>
    case Integer(i) =>
      PyInt.ParseStr(i);
      Utf8.DecodeEncode(PyInt.Str(i));
  }

  /** `repr(v)`. */
  function ValueRepr(v: Value): (t: string) {
    match v
    case Text(s) => PyRepr.StrRepr(s)
    case Binary(b) => PyRepr.BytesRepr(b)
    case Integer(i) => PyInt.Str(i)
  }

  /** Reads a value back from its repr: a bytes literal, a str literal, or an integer. */
  function EvalValue(t: string): (v: Option<Value>) {
    if |t| > 0 && t[0] == 'b' then
      match PyRepr.EvalBytes(t)
      case Some(b) => Some(Binary(b))
      case None => None
    else if |t| > 0 && PyRepr.IsQuote(t[0]) then
      match PyRepr.EvalStr(t)
      case Some(s) => Some(Text(s))
      case None => None
    else
      match PyInt.Parse(Utf8.Encode(t))
      case Ok(i) => Some(Integer(i))
      case Err(_) => None
  }

  /** Round trip: the repr of a value reads back as that value. */
  lemma EvalValueRepr(v: Value)
    ensures EvalValue(ValueRepr(v)) == Some(v)
  {
    match v
    case Text(s) =>
      var t := PyRepr.StrRepr(s);
      assert t[0] != 'b' && PyRepr.IsQuote(t[0]);
      PyRepr.EvalStrRepr(s);
    case Binary(b) =>
      assert PyRepr.BytesRepr(b)[0] == 'b';
      PyRepr.EvalBytesRepr(b);
    case Integer(i) =>
      var t := PyInt.Str(i);
      assert t[0] != 'b' && !PyRepr.IsQuote(t[0]) by {
        assert t[0] == '-' || '0' <= t[0] <= '9';
      }
      PyInt.ParseStr(i);
  }

  /** How `store` was called: `store(v)` or `store(data=v)`. */
  datatype StoreCall = Positional(data: Value) | Keyword(data: Value)

  /** `str(args)`: the tuple of positional arguments. A keyword argument is not in it. */
  function ArgsText(call: StoreCall): (t: string) {
    match call
    case Positional(v) => "(" + ValueRepr(v) + ",)"
    case Keyword(_) => "()"
  }

  /** Reads back the positional arguments from the text of a one-element or empty tuple. */
  function EvalArgs(t: string): (args: Option<seq<Value>>) {
    if t == "()" then Some([])
    else if |t| >= 3 && t[0] == '(' && t[|t| - 2..] == ",)" then
      match EvalValue(t[1..|t| - 2])
      case Some(v) => Some([v])
      case None => None
    else None
  }

  /** The inputs list identifies each call's positional arguments. */
  lemma EvalArgsText(call: StoreCall)
    ensures EvalArgs(ArgsText(call)) == Some(if call.Positional? then [call.data] else [])
  {
    if call.Positional? {
      var t := ArgsText(call);
      var inner := ValueRepr(call.data);
      assert t[1..|t| - 2] == inner;
      assert t[|t| - 2..] == ",)";
      EvalValueRepr(call.data);
      assert t != "()" by {
        assert |t| == 3 + |inner|;
      }
    }
  }

  /** The qualified name of the decorated method: the name of its counter and the stem of
      its two history lists. */
  const StoreName := "Cache.store"

  /** The text of `uuid4()`: 36 characters, hyphens at 8, 13, 18 and 23, the version digit
      4 at 14, one of 8, 9, a, b at 19, and lower-case hex digits elsewhere. */
  predicate IsUuidText(key: string) {
    && |key| == 36
    && (forall i :: 0 <= i < 36 ==>
          if i == 8 || i == 13 || i == 18 || i == 23 then key[i] == '-' else PyRepr.IsHexDigit(key[i]))
    && key[14] == '4'
    && key[19] in "89ab"
  }

  /** A generated key is never one of the names the decorators use. */
  lemma UuidIsNoHistoryName(key: string)
    requires IsUuidText(key)
    ensures key != StoreName && key != InputsKey(StoreName) && key != OutputsKey(StoreName)
  {
    assert |StoreName| == 11 && |InputsKey(StoreName)| == 18 && |OutputsKey(StoreName)| == 19;
  }

  /** The undecorated body of `store` with the generated key: SET key data, return key. */
  function StoreBody(key: string): (body: StoreCall -> Invocation) {
    (call: StoreCall) => Invocation([Set(key, ClientEncode(call.data))], key)
  }

  /** `store` as the class declares it: count_calls applied to call_history applied to the body. */
  function DecoratedStore(key: string): (store: StoreCall -> Invocation) {
    CountCalls(StoreName, CallHistory(StoreName, ArgsText, StoreBody(key)))
  }

  /** One call of the decorated `store` sends, in this order: INCR of the counter, RPUSH of
      the arguments, SET of the data under the key, RPUSH of the key; it returns the key. */
  lemma StoreCommandOrder(call: StoreCall, key: string)
    ensures DecoratedStore(key)(call) == Invocation(
      [ Incr(StoreName),
        RPush(InputsKey(StoreName), Utf8.Encode(ArgsText(call))),
        Set(key, ClientEncode(call.data)),
        RPush(OutputsKey(StoreName), Utf8.Encode(key)) ],
      key)
  {
  }

  /** One call of `store` changes exactly four things: the data under its key, the counter,
      and the two history lists, each by one step. */
  lemma StoreEffect(db: Db, call: StoreCall, key: string)
    ensures Run(db, DecoratedStore(key)(call).effects) == Db(
      db.strings[key := ClientEncode(call.data)],
      db.counters[StoreName := Counter(db, StoreName) + 1],
      db.lists[InputsKey(StoreName) := LRange(db, InputsKey(StoreName)) + [Utf8.Encode(ArgsText(call))]]
              [OutputsKey(StoreName) := LRange(db, OutputsKey(StoreName)) + [Utf8.Encode(key)]])
  {
    StoreCommandOrder(call, key);
    HistoryKeysDiffer(StoreName);
    CounterPushSetPush(db, StoreName, InputsKey(StoreName), Utf8.Encode(ArgsText(call)),
      key, ClientEncode(call.data), OutputsKey(StoreName), Utf8.Encode(key));
  }

  /** The keys one call of `store` with the generated `key` writes to. */
  predicate IsWritten(k: string, key: string) {
    k == key || k == StoreName || k == InputsKey(StoreName) || k == OutputsKey(StoreName)
  }

  /** The consequences of one call of `store`: the counter is one higher, each history
      list has one more entry, the data is under the key, and every other key reads as
      before. */
  lemma StoreFacts(db: Db, call: StoreCall, key: string)
    ensures var after := Run(db, DecoratedStore(key)(call).effects);
      && Counter(after, StoreName) == Counter(db, StoreName) + 1
      && LRange(after, InputsKey(StoreName)) == LRange(db, InputsKey(StoreName)) + [Utf8.Encode(ArgsText(call))]
      && LRange(after, OutputsKey(StoreName)) == LRange(db, OutputsKey(StoreName)) + [Utf8.Encode(key)]
      && KeyValue.Get(after, key) == Bulk(ClientEncode(call.data))
      && (forall k :: !IsWritten(k, key) ==> KeyValue.Get(after, k) == KeyValue.Get(db, k))
  {
    var after := Run(db, DecoratedStore(key)(call).effects);
    StoreEffect(db, call, key);
    HistoryKeysDiffer(StoreName);
    forall k | !IsWritten(k, key)
      ensures KeyValue.Get(after, k) == KeyValue.Get(db, k)
    {
      assert (k in after.strings) == (k in db.strings) && (k in after.strings ==> after.strings[k] == db.strings[k]);
      assert (k in after.counters) == (k in db.counters) && (k in after.counters ==> after.counters[k] == db.counters[k]);
      assert (k in after.lists) == (k in db.lists);
    }
  }

  /** A finished call of `store`: how it was called and the key it generated. */
  datatype StoreRecord = StoreRecord(call: StoreCall, key: string)

  /** The server after the recorded calls of `store`, in order, starting from `db`. */
  function RunStores(db: Db, records: seq<StoreRecord>): (after: Db)
    decreases |records|
  {
    if records == [] then db
    else
      var last := records[|records| - 1];
      Run(RunStores(db, records[..|records| - 1]), DecoratedStore(last.key)(last.call).effects)
  }

  predicate DistinctKeys(records: seq<StoreRecord>) {
    forall i, j :: 0 <= i < j < |records| ==> records[i].key != records[j].key
  }

  /** Every recorded key has the form of `str(uuid4())`. */
  predicate UuidKeys(records: seq<StoreRecord>) {
    forall i :: 0 <= i < |records| ==> IsUuidText(records[i].key)
  }

  /** The counter and the two history lists after N calls of `store` on a server that was
      empty: the counter is N, both lists hold N entries, the i-th entry of each belongs to
      the i-th call, and there is no other counter or list. */
  predicate RecordedCalls(db: Db, records: seq<StoreRecord>) {
    var inputs, outputs := LRange(db, InputsKey(StoreName)), LRange(db, OutputsKey(StoreName));
    && Counter(db, StoreName) == |records|
    && |inputs| == |records|
    && |outputs| == |records|
    && (forall i :: 0 <= i < |records| ==>
          && inputs[i] == Utf8.Encode(ArgsText(records[i].call))
          && outputs[i] == Utf8.Encode(records[i].key))
    && db.counters.Keys <= {StoreName}
    && db.lists.Keys <= {InputsKey(StoreName), OutputsKey(StoreName)}
  }

  /** The data after N calls of `store` on a server that was empty: every call's data is
      under its key, and there is no other key. */
  predicate RecordedData(db: Db, records: seq<StoreRecord>) {
    && (forall i :: 0 <= i < |records| ==>
          records[i].key in db.strings && db.strings[records[i].key] == ClientEncode(records[i].call.data))
    && (forall k :: k in db.strings ==> exists i :: 0 <= i < |records| && records[i].key == k)
  }

  /** What N calls of `store` leave on a server that was empty, and nothing else. */
  predicate Recorded(db: Db, records: seq<StoreRecord>) {
    RecordedCalls(db, records) && RecordedData(db, records)
  }

  /** One more call of `store` keeps the counter and the history lists in step. */
  lemma RecordedCallsStep(before: Db, records: seq<StoreRecord>, call: StoreCall, key: string)
    requires RecordedCalls(before, records)
    ensures RecordedCalls(Run(before, DecoratedStore(key)(call).effects), records + [StoreRecord(call, key)])
  {
    var db := Run(before, DecoratedStore(key)(call).effects);
    var all := records + [StoreRecord(call, key)];
    var inputs, outputs := InputsKey(StoreName), OutputsKey(StoreName);
    assert db.counters == before.counters[StoreName := Counter(before, StoreName) + 1]
        && db.lists == before.lists[inputs := LRange(before, inputs) + [Utf8.Encode(ArgsText(call))]]
                                   [outputs := LRange(before, outputs) + [Utf8.Encode(key)]]
    by {
      StoreEffect(before, call, key);
    }
    HistoryKeysDiffer(StoreName);
    assert LRange(db, inputs) == LRange(before, inputs) + [Utf8.Encode(ArgsText(call))];
    assert LRange(db, outputs) == LRange(before, outputs) + [Utf8.Encode(key)];
    forall i | 0 <= i < |all|
      ensures LRange(db, inputs)[i] == Utf8.Encode(ArgsText(all[i].call))
      ensures LRange(db, outputs)[i] == Utf8.Encode(all[i].key)
    {
      if i < |records| {
        assert all[i] == records[i];
      }
    }
  }

  /** One more call of `store`, with a key not used before, keeps the data in step. */
  lemma RecordedDataStep(before: Db, records: seq<StoreRecord>, call: StoreCall, key: string)
    requires RecordedData(before, records)
    requires forall i :: 0 <= i < |records| ==> records[i].key != key
    ensures RecordedData(Run(before, DecoratedStore(key)(call).effects), records + [StoreRecord(call, key)])
  {
    var db := Run(before, DecoratedStore(key)(call).effects);
    var all := records + [StoreRecord(call, key)];
    assert db.strings == before.strings[key := ClientEncode(call.data)] by {
      StoreEffect(before, call, key);
    }
    forall i | 0 <= i < |all|
      ensures all[i].key in db.strings && db.strings[all[i].key] == ClientEncode(all[i].call.data)
    {
      if i < |records| {
        assert all[i] == records[i];
      }
    }
    forall k | k in db.strings
      ensures exists i :: 0 <= i < |all| && all[i].key == k
    {
      if k == key {
        assert all[|records|].key == k;
      } else {
        var i :| 0 <= i < |records| && records[i].key == k;
        assert all[i] == records[i];
      }
    }
  }

  /** One more call of `store`, with a key not used before, keeps Recorded. */
  lemma RecordedStep(before: Db, records: seq<StoreRecord>, call: StoreCall, key: string)
    requires Recorded(before, records)
    requires forall i :: 0 <= i < |records| ==> records[i].key != key
    ensures Recorded(Run(before, DecoratedStore(key)(call).effects), records + [StoreRecord(call, key)])
  {
    RecordedCallsStep(before, records, call, key);
    RecordedDataStep(before, records, call, key);
  }

  /** After N calls of `store` with distinct keys on an emptied server, the server holds
      exactly what Recorded describes. */
  lemma {:induction false} StoreHistory(records: seq<StoreRecord>)
    requires DistinctKeys(records)
    ensures Recorded(RunStores(Empty, records), records)
    decreases |records|
  {
    if records != [] {
      var n := |records| - 1;
      var init, last := records[..n], records[n];
      assert records == init + [last];
      assert DistinctKeys(init);
      StoreHistory(init);
      RecordedStep(RunStores(Empty, init), init, last.call, last.key);
    }
  }

  /** A generated key extends a history of generated keys. */
  lemma UuidKeysStep(history: seq<StoreRecord>, last: StoreRecord)
    requires UuidKeys(history) && IsUuidText(last.key)
    ensures UuidKeys(history + [last])
  {
    var all := history + [last];
    forall i | 0 <= i < |all| ensures IsUuidText(all[i].key) {
      if i < |history| {
        assert all[i] == history[i];
      }
    }
  }

  /** A call of `store` with a fresh key extends a history of distinct keys by one. */
  lemma RunStoresStep(history: seq<StoreRecord>, call: StoreCall, key: string)
    requires DistinctKeys(history)
    requires key !in RunStores(Empty, history).strings
    ensures DistinctKeys(history + [StoreRecord(call, key)])
    ensures RunStores(Empty, history + [StoreRecord(call, key)])
         == Run(RunStores(Empty, history), DecoratedStore(key)(call).effects)
  {
    var all := history + [StoreRecord(call, key)];
    StoreHistory(history);
    assert all[..|all| - 1] == history;
    forall i, j | 0 <= i < j < |all|
      ensures all[i].key != all[j].key
    {
      assert all[i] == history[i];
      if j < |history| {
        assert all[j] == history[j];
      }
    }
  }

  /** Every entry of a recorded history decodes as UTF-8 to the text that was pushed. */
  lemma RecordedDecodes(db: Db, records: seq<StoreRecord>)
    requires Recorded(db, records)
    ensures forall i :: 0 <= i < |records| ==>
      && Utf8.Decode(LRange(db, InputsKey(StoreName))[i]) == Ok(ArgsText(records[i].call))
      && Utf8.Decode(LRange(db, OutputsKey(StoreName))[i]) == Ok(records[i].key)
  {
    forall i | 0 <= i < |records|
      ensures Utf8.Decode(LRange(db, InputsKey(StoreName))[i]) == Ok(ArgsText(records[i].call))
      ensures Utf8.Decode(LRange(db, OutputsKey(StoreName))[i]) == Ok(records[i].key)
    {
      Utf8.DecodeEncode(ArgsText(records[i].call));
      Utf8.DecodeEncode(records[i].key);
    }
  }

  /** The history lists of a consistent cache have one entry per recorded call, and each
      entry decodes to the text that was pushed for that call. */
  lemma ConsistentHistoryDecodes(cache: Cache)
    ensures cache.Consistent() ==>
      var inputs := LRange(cache.redis.Snapshot(), InputsKey(StoreName));
      var outputs := LRange(cache.redis.Snapshot(), OutputsKey(StoreName));
      && |inputs| == |outputs| == |cache.History|
      && forall i :: 0 <= i < |cache.History| ==>
           && Utf8.Decode(inputs[i]) == Ok(ArgsText(cache.History[i].call))
           && Utf8.Decode(outputs[i]) == Ok(cache.History[i].key)
  {
    if cache.Consistent() {
      StoreHistory(cache.History);
      RecordedDecodes(cache.redis.Snapshot(), cache.History);
    }
  }

  /** What `get` returns: nothing for an absent key, the raw bytes when no conversion is
      given, the conversion's result otherwise; or the exception the client raises. */
  datatype Fetched<T> = Nothing | RawBytes(bytes: Utf8.bytes) | Converted(value: T) | Raised(error: Exception)

  class Cache {
    /** The connection to the server. */
    const redis: Redis
    /** The calls of `store` made through this object since it was constructed. */
    ghost var History: seq<StoreRecord>

    /** The server holds exactly what this object's calls of `store` put there. It holds
        after construction and `store` keeps it, as long as nothing else writes to the
        server. */
    ghost predicate Consistent()
      reads this, redis
    {
      DistinctKeys(History) && UuidKeys(History) && redis.Snapshot() == RunStores(Empty, History)
    }

    /** `Cache()`: takes the connection and empties the server. */
    constructor (server: Redis)
      modifies server
      ensures redis == server
      ensures server.Snapshot() == Empty
      ensures History == [] && Consistent()
    {
      redis := server;
      History := [];
      new;
      redis.FlushDb();
    }

    /** `store(data)`, decorated. `key` stands for the generated `str(uuid4())`, which is
        never already on the server. */
    method Store(call: StoreCall, key: string) returns (r: string)
      requires IsUuidText(key)
      requires KeyValue.Get(redis.Snapshot(), key).Nil?
      modifies this, redis
      ensures r == key
      ensures redis.Snapshot() == Run(old(redis.Snapshot()), DecoratedStore(key)(call).effects)
      ensures Counter(redis.Snapshot(), StoreName) == Counter(old(redis.Snapshot()), StoreName) + 1
      ensures LRange(redis.Snapshot(), InputsKey(StoreName))
           == LRange(old(redis.Snapshot()), InputsKey(StoreName)) + [Utf8.Encode(ArgsText(call))]
      ensures LRange(redis.Snapshot(), OutputsKey(StoreName))
           == LRange(old(redis.Snapshot()), OutputsKey(StoreName)) + [Utf8.Encode(r)]
      ensures KeyValue.Get(redis.Snapshot(), r) == Bulk(ClientEncode(call.data))
      ensures forall k :: !IsWritten(k, r) ==> KeyValue.Get(redis.Snapshot(), k) == KeyValue.Get(old(redis.Snapshot()), k)
      ensures call.data.Text? ==> GetStr(r) == Some(Ok(call.data.s))
      ensures call.data.Integer? ==> GetInt(r) == Some(Ok(call.data.i))
      ensures call.data.Binary? ==> KeyValue.Get(redis.Snapshot(), r) == Bulk(call.data.b)
      ensures StoreName !in old(redis.strings) ==> GetInt(StoreName) == Some(Ok(Counter(old(redis.Snapshot()), StoreName) + 1))
      ensures History == old(History) + [StoreRecord(call, key)]
      ensures old(Consistent()) ==> Consistent()
    {
      ghost var before := redis.Snapshot();
      // count_calls
      var _ := redis.Incr(StoreName);
      // call_history, before the call
      var _ := redis.RPush(InputsKey(StoreName), Utf8.Encode(ArgsText(call)));
      // the body of store
      var _ := redis.Set(key, ClientEncode(call.data));
      r := key;
      // call_history, after the call
      var _ := redis.RPush(OutputsKey(StoreName), Utf8.Encode(r));
      History := History + [StoreRecord(call, key)];

      assert redis.Snapshot() == Run(before, DecoratedStore(key)(call).effects) by {
        StoreCommandOrder(call, key);
        RunFour(before, Incr(StoreName), RPush(InputsKey(StoreName), Utf8.Encode(ArgsText(call))),
          Set(key, ClientEncode(call.data)), RPush(OutputsKey(StoreName), Utf8.Encode(key)));
      }
      StoreFacts(before, call, key);
      UuidIsNoHistoryName(key);
      assert redis.strings == before.strings[key := ClientEncode(call.data)]
          && redis.counters == before.counters[StoreName := Counter(before, StoreName) + 1] by {
        StoreEffect(before, call, key);
      }
      EncodeReadsBack(call.data);
      if old(Consistent()) {
        RunStoresStep(old(History), call, key);
        UuidKeysStep(old(History), StoreRecord(call, key));
      }
    }

    /** `get(key, fn)`: nothing for a key that holds nothing, ResponseError for a key that
        holds a list, and otherwise the stored bytes (a counter's being the text of its
        count), raw without `fn` and converted with it. */
    function Get<T(==)>(key: string, fn: Option<Utf8.bytes -> T>): (r: Fetched<T>)
      reads redis
      ensures r.Nothing? <==> key !in redis.strings && key !in redis.counters && key !in redis.lists
      ensures r.Raised? <==> key !in redis.strings && key !in redis.counters && key in redis.lists
      ensures r.Raised? ==> r.error == ResponseError
      ensures key in redis.strings && fn.None? ==> r == RawBytes(redis.strings[key])
      ensures key in redis.strings && fn.Some? ==> r == Converted(fn.value(redis.strings[key]))
      ensures key !in redis.strings && key in redis.counters ==>
        var text := Utf8.Encode(PyInt.Str(redis.counters[key]));
        r == if fn.Some? then Converted(fn.value(text)) else RawBytes(text)
    {
      match KeyValue.Get(redis.Snapshot(), key)
      case Nil => Nothing
      case WrongType => Raised(ResponseError)
      case Bulk(data) =>
        if fn.Some? then Converted(fn.value(data)) else RawBytes(data)
    }

    /** `get_str(key)`: the stored bytes decoded as UTF-8; a counter reads as its decimal
        text. */
    function GetStr(key: string): (r: Option<Result<string, Exception>>)
      reads redis
      ensures r.None? <==> key !in redis.strings && key !in redis.counters && key !in redis.lists
      ensures key in redis.strings ==> r == Some(Utf8.Decode(redis.strings[key]))
      ensures key !in redis.strings && key in redis.counters ==> r == Some(Ok(PyInt.Str(redis.counters[key])))
      ensures key !in redis.strings && key !in redis.counters && key in redis.lists ==> r == Some(Err(ResponseError))
    {
      var decode: Utf8.bytes -> Result<string, Exception> := Utf8.Decode;
      var fetched := Get(key, Some(decode));
      if fetched.Raised? then Some(Err(fetched.error))
      else if !fetched.Converted? then None
      else if key !in redis.strings then
        Utf8.DecodeEncode(PyInt.Str(redis.counters[key]));
        Some(fetched.value)
      else Some(fetched.value)
    }

    /** `get_int(key)`: the stored bytes read by `int()`; a counter reads as its count. */
    function GetInt(key: string): (r: Option<Result<int, Exception>>)
      reads redis
      ensures r.None? <==> key !in redis.strings && key !in redis.counters && key !in redis.lists
      ensures key in redis.strings ==> r == Some(PyInt.Parse(redis.strings[key]))
      ensures key !in redis.strings && key in redis.counters ==> r == Some(Ok(redis.counters[key]))
      ensures key !in redis.strings && key !in redis.counters && key in redis.lists ==> r == Some(Err(ResponseError))
    {
      var parse: Utf8.bytes -> Result<int, Exception> := PyInt.Parse;
      var fetched := Get(key, Some(parse));
      if fetched.Raised? then Some(Err(fetched.error))
      else if !fetched.Converted? then None
      else if key !in redis.strings then
        PyInt.ParseStr(redis.counters[key]);
        Some(fetched.value)
      else Some(fetched.value)
    }
  }

  /** Where the names the decorators use live on a server that holds what N calls of
      `store` left: never among the plain values; after the first call, the counter holds
      N and the two history names hold lists. */
  lemma RecordedNames(db: Db, records: seq<StoreRecord>)
    requires Recorded(db, records) && UuidKeys(records)
    ensures StoreName !in db.strings && InputsKey(StoreName) !in db.strings && OutputsKey(StoreName) !in db.strings
    ensures InputsKey(StoreName) !in db.counters && OutputsKey(StoreName) !in db.counters
    ensures StoreName !in db.lists
    ensures |records| > 0 ==> StoreName in db.counters && db.counters[StoreName] == |records|
    ensures |records| > 0 ==> InputsKey(StoreName) in db.lists && OutputsKey(StoreName) in db.lists
  {
    var inputs, outputs := InputsKey(StoreName), OutputsKey(StoreName);
    assert |StoreName| == 11 && |inputs| == 18 && |outputs| == 19;
    forall k | k in db.strings
      ensures k != StoreName && k != inputs && k != outputs
    {
      var i :| 0 <= i < |records| && records[i].key == k;
      UuidIsNoHistoryName(records[i].key);
    }
  }

  /** On a consistent cache, `get_int` of the counter gives the number of calls of `store`
      (nothing before the first), and reading a history list through `get_str` raises
      ResponseError, since the key holds a list. */
  lemma ConsistentCounterReads(cache: Cache)
    requires cache.Consistent()
    ensures |cache.History| == 0 ==> cache.GetInt(StoreName) == None
    ensures |cache.History| > 0 ==> cache.GetInt(StoreName) == Some(Ok(|cache.History|))
    ensures |cache.History| > 0 ==> cache.GetStr(StoreName) == Some(Ok(PyInt.Str(|cache.History|)))
    ensures |cache.History| > 0 ==> cache.GetStr(InputsKey(StoreName)) == Some(Err(ResponseError))
    ensures |cache.History| > 0 ==> cache.GetStr(OutputsKey(StoreName)) == Some(Err(ResponseError))
  {
    if |cache.History| == 0 {
      assert cache.redis.counters == map[] && cache.redis.strings == map[] && cache.redis.lists == map[];
    } else {
      StoreHistory(cache.History);
      RecordedNames(cache.redis.Snapshot(), cache.History);
    }
  }

  /** The first line `replay` prints. */
  function Header(calls: nat): (line: string) {
    StoreName + " was called " + PyInt.Str(calls) + " times:"
  }

  /** The line `replay` prints for one recorded call. */
  function CallLine(input: string, output: string): (line: string) {
    StoreName + "(*" + input + ") -> " + output
  }

  /** The history entries as `decode('utf-8')` gives them, one result per entry. */
  function DecodeEach(entries: seq<Utf8.bytes>): (r: seq<Result<string, Exception>>)
    ensures |r| == |entries|
    ensures forall i :: 0 <= i < |entries| ==> r[i] == Utf8.Decode(entries[i])
  {
    seq(|entries|, i requires 0 <= i < |entries| => Utf8.Decode(entries[i]))
  }

  /** The two decoded history entries at `i` are text. */
  predicate Decodes(ins: seq<Result<string, Exception>>, outs: seq<Result<string, Exception>>, i: nat)
    requires i < |ins| && i < |outs|
  {
    ins[i].Ok? && outs[i].Ok?
  }

  /** The first `n` pairs of decoded history entries are all text. */
  predicate DecodesUpTo(ins: seq<Result<string, Exception>>, outs: seq<Result<string, Exception>>, n: nat)
    requires n <= |ins| && n <= |outs|
    decreases n
  {
    n == 0 || (DecodesUpTo(ins, outs, n - 1) && Decodes(ins, outs, n - 1))
  }

  /** Every pair inside a run of decodable pairs decodes. */
  lemma {:induction false} DecodesUpToAt(ins: seq<Result<string, Exception>>, outs: seq<Result<string, Exception>>, n: nat, k: nat)
    requires n <= |ins| && n <= |outs|
    requires DecodesUpTo(ins, outs, n) && k < n
    ensures Decodes(ins, outs, k)
    decreases n
  {
    if k < n - 1 {
      DecodesUpToAt(ins, outs, n - 1, k);
    }
  }

  /** When each of the first `n` pairs decodes, they form a run of decodable pairs. */
  lemma {:induction false} DecodesUpToOf(ins: seq<Result<string, Exception>>, outs: seq<Result<string, Exception>>, n: nat)
    requires n <= |ins| && n <= |outs|
    requires forall k :: 0 <= k < n ==> Decodes(ins, outs, k)
    ensures DecodesUpTo(ins, outs, n)
    decreases n
  {
    if n > 0 {
      DecodesUpToOf(ins, outs, n - 1);
    }
  }

  /** `DecodesUpTo` holds exactly when every one of the first `n` pairs decodes. */
  lemma DecodesUpToAll(ins: seq<Result<string, Exception>>, outs: seq<Result<string, Exception>>, n: nat)
    requires n <= |ins| && n <= |outs|
    ensures DecodesUpTo(ins, outs, n) <==> forall k :: 0 <= k < n ==> Decodes(ins, outs, k)
  {
    if DecodesUpTo(ins, outs, n) {
      forall k | 0 <= k < n
        ensures Decodes(ins, outs, k)
      {
        DecodesUpToAt(ins, outs, n, k);
      }
    } else if forall k :: 0 <= k < n ==> Decodes(ins, outs, k) {
      DecodesUpToOf(ins, outs, n);
    }
  }

  /** A longer run of decodable pairs contains every shorter one. */
  lemma {:induction false} DecodesUpToPrefix(ins: seq<Result<string, Exception>>, outs: seq<Result<string, Exception>>, m: nat, n: nat)
    requires m <= n <= |ins| && n <= |outs|
    ensures DecodesUpTo(ins, outs, n) ==> DecodesUpTo(ins, outs, m)
    decreases n - m
  {
    if m < n {
      DecodesUpToPrefix(ins, outs, m, n - 1);
    }
  }

  /** The lines `replay` prints for the first `n` pairs of decoded history entries, all of
      which are text. */
  function CallLines(ins: seq<Result<string, Exception>>, outs: seq<Result<string, Exception>>, n: nat): (r: seq<string>)
    requires n <= |ins| && n <= |outs|
    requires DecodesUpTo(ins, outs, n)
    ensures |r| == n
    decreases n
  {
    if n == 0 then []
    else CallLines(ins, outs, n - 1) + [CallLine(ins[n - 1].value, outs[n - 1].value)]
  }

  /** The `k`-th line is built from the `k`-th input and the `k`-th output. */
  lemma {:induction false} CallLinesAt(ins: seq<Result<string, Exception>>, outs: seq<Result<string, Exception>>, n: nat, k: nat)
    requires n <= |ins| && n <= |outs|
    requires DecodesUpTo(ins, outs, n)
    requires k < n
    ensures Decodes(ins, outs, k)
    ensures CallLines(ins, outs, n)[k] == CallLine(ins[k].value, outs[k].value)
    decreases n
  {
    var prefix := CallLines(ins, outs, n - 1);
    assert CallLines(ins, outs, n) == prefix + [CallLine(ins[n - 1].value, outs[n - 1].value)];
    if k < n - 1 {
      CallLinesAt(ins, outs, n - 1, k);
    }
  }

  /** What `replay` prints for the two decoded history lists: the header with the number of
      inputs, then one line per pair of entries, as far as the shorter list goes. `ok` is
      false when an entry does not decode as UTF-8, where Python raises after printing the
      lines so far. */
  predicate ReplayOutput(ins: seq<Result<string, Exception>>, outs: seq<Result<string, Exception>>, lines: seq<string>, ok: bool) {
    var pairs := if |ins| < |outs| then |ins| else |outs|;
    && 1 <= |lines| <= pairs + 1
    && DecodesUpTo(ins, outs, |lines| - 1)
    && lines[0] == Header(|ins|)
    && lines[1..] == CallLines(ins, outs, |lines| - 1)
    && (ok <==> DecodesUpTo(ins, outs, pairs))
    && (ok ==> |lines| == pairs + 1)
    && (!ok ==> !Decodes(ins, outs, |lines| - 1))
  }

  /** The lines `replay` prints for the two history lists, computed as `replay` does: a
      loop over the pairs that decodes each entry and stops at the first that does not
      decode. */
  method ReplayLines(inputs: seq<Utf8.bytes>, outputs: seq<Utf8.bytes>) returns (lines: seq<string>, ok: bool)
    ensures ReplayOutput(DecodeEach(inputs), DecodeEach(outputs), lines, ok)
  {
    ghost var ins, outs := DecodeEach(inputs), DecodeEach(outputs);
    var pairs := if |inputs| < |outputs| then |inputs| else |outputs|;
    var calls: seq<string> := [];
    var i := 0;
    while i < pairs
      invariant 0 <= i <= pairs
      invariant DecodesUpTo(ins, outs, i)
      invariant calls == CallLines(ins, outs, i)
    {
      var input := Utf8.Decode(inputs[i]);
      var output := Utf8.Decode(outputs[i]);
      assert input == ins[i] && output == outs[i];
      if input.Err? || output.Err? {
        DecodesUpToPrefix(ins, outs, i + 1, pairs);
        lines, ok := [Header(|inputs|)] + calls, false;
        assert lines[1..] == calls;
        return;
      }
      calls := calls + [CallLine(input.value, output.value)];
      i := i + 1;
    }
    lines, ok := [Header(|inputs|)] + calls, true;
    assert lines[1..] == calls;
  }

  /** On a consistent cache the two history lists are as long as the history and every
      pair of entries in them decodes. */
  lemma ConsistentDecodesUpTo(cache: Cache)
    ensures cache.Consistent() ==>
      var ins := DecodeEach(LRange(cache.redis.Snapshot(), InputsKey(StoreName)));
      var outs := DecodeEach(LRange(cache.redis.Snapshot(), OutputsKey(StoreName)));
      && |ins| == |outs| == |cache.History|
      && DecodesUpTo(ins, outs, |cache.History|)
  {
    ConsistentHistoryDecodes(cache);
    if cache.Consistent() {
      var ins := DecodeEach(LRange(cache.redis.Snapshot(), InputsKey(StoreName)));
      var outs := DecodeEach(LRange(cache.redis.Snapshot(), OutputsKey(StoreName)));
      var n := |cache.History|;
      forall k | 0 <= k < n
        ensures Decodes(ins, outs, k)
      {
      }
      DecodesUpToAll(ins, outs, n);
    }
  }

  /** On a consistent cache the line for the `k`-th pair shows the `k`-th call's arguments
      and key. */
  lemma ConsistentCallLine(cache: Cache, k: nat)
    requires cache.Consistent() && k < |cache.History|
    ensures var ins := DecodeEach(LRange(cache.redis.Snapshot(), InputsKey(StoreName)));
      var outs := DecodeEach(LRange(cache.redis.Snapshot(), OutputsKey(StoreName)));
      && |ins| == |outs| == |cache.History|
      && DecodesUpTo(ins, outs, |cache.History|)
      && CallLines(ins, outs, |cache.History|)[k]
         == CallLine(ArgsText(cache.History[k].call), cache.History[k].key)
  {
    ConsistentDecodesUpTo(cache);
    ConsistentHistoryDecodes(cache);
    var ins := DecodeEach(LRange(cache.redis.Snapshot(), InputsKey(StoreName)));
    var outs := DecodeEach(LRange(cache.redis.Snapshot(), OutputsKey(StoreName)));
    CallLinesAt(ins, outs, |cache.History|, k);
  }

  /** The shape of what `replay` produces from the history lists of a consistent cache:
      no entry fails to decode, and there is one line per recorded call after the header. */
  lemma ConsistentReplayShape(cache: Cache, lines: seq<string>, ok: bool)
    requires ReplayOutput(DecodeEach(LRange(cache.redis.Snapshot(), InputsKey(StoreName))),
                          DecodeEach(LRange(cache.redis.Snapshot(), OutputsKey(StoreName))), lines, ok)
    ensures cache.Consistent() ==>
      && ok
      && |lines| == |cache.History| + 1
      && lines[0] == Header(|cache.History|)
  {
    ConsistentDecodesUpTo(cache);
  }

  /** On a consistent cache, lines built from the history lists show every call made through
      it, with the text of its arguments and the key it returned. */
  lemma ConsistentReplayLines(cache: Cache, lines: seq<string>, ok: bool)
    requires cache.Consistent()
    requires ReplayOutput(DecodeEach(LRange(cache.redis.Snapshot(), InputsKey(StoreName))),
                          DecodeEach(LRange(cache.redis.Snapshot(), OutputsKey(StoreName))), lines, ok)
    requires |lines| == |cache.History| + 1
    ensures forall k :: 0 <= k < |cache.History| ==>
      lines[k + 1] == CallLine(ArgsText(cache.History[k].call), cache.History[k].key)
  {
    ConsistentDecodesUpTo(cache);
    forall k | 0 <= k < |cache.History|
      ensures lines[k + 1] == CallLine(ArgsText(cache.History[k].call), cache.History[k].key)
    {
      assert lines[k + 1] == lines[1..][k];
      ConsistentCallLine(cache, k);
    }
  }

  /** On a consistent cache, the output of `replay` does not fail and shows every call made
      through the cache, in order, with the text of its arguments and the key it returned. */
  lemma ConsistentReplay(cache: Cache, lines: seq<string>, ok: bool)
    requires ReplayOutput(DecodeEach(LRange(cache.redis.Snapshot(), InputsKey(StoreName))),
                          DecodeEach(LRange(cache.redis.Snapshot(), OutputsKey(StoreName))), lines, ok)
    ensures cache.Consistent() ==>
      && ok
      && |lines| == |cache.History| + 1
      && lines[0] == Header(|cache.History|)
      && forall k :: 0 <= k < |cache.History| ==>
           lines[k + 1] == CallLine(ArgsText(cache.History[k].call), cache.History[k].key)
  {
    ConsistentReplayShape(cache, lines, ok);
    if cache.Consistent() {
      ConsistentReplayLines(cache, lines, ok);
    }
  }

  /** `replay(cache.store)`: reads the two history lists of `store` from the cache's server
      and gives the lines it prints. On a consistent cache every call made through it
      appears, in order, with the text of its arguments and the key it returned. */
  method Replay(cache: Cache) returns (lines: seq<string>, ok: bool)
    ensures ReplayOutput(DecodeEach(LRange(cache.redis.Snapshot(), InputsKey(StoreName))),
                         DecodeEach(LRange(cache.redis.Snapshot(), OutputsKey(StoreName))), lines, ok)
    ensures cache.Consistent() ==>
      && ok
      && |lines| == |cache.History| + 1
      && lines[0] == Header(|cache.History|)
      && forall k :: 0 <= k < |cache.History| ==>
           lines[k + 1] == CallLine(ArgsText(cache.History[k].call), cache.History[k].key)
  {
    lines, ok := ReplayLines(LRange(cache.redis.Snapshot(), InputsKey(StoreName)),
                             LRange(cache.redis.Snapshot(), OutputsKey(StoreName)));
    ConsistentReplay(cache, lines, ok);
  }
}
