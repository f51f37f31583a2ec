# Instrumented Redis cache

This project models the `Cache` class of `0x02-redis_basic/exercise.py` and proves what
it promises. The class wraps a Redis client:

- `store(data)` is wrapped by two decorators:
  - `count_calls` increments a counter named after the method.
  - `call_history` appends `str(args)` to the list `Cache.store:inputs` and `str(result)`
    to `Cache.store:outputs`.
  - The body generates a key, `SET`s the data under it and returns the key.
- `get`, `get_str` and `get_int` read a key back, optionally through a conversion.
- `replay` reads the two history lists and prints a header and one line per recorded call.

Modules:

- `Wrappers`: `Option`, `Result` and the three Python exceptions the model raises:
  `UnicodeDecodeError` and `ValueError` from the conversions, and the client's
  `ResponseError` when GET meets a key that holds a list.
- `Utf8`: `str.encode('utf-8')` and strict `bytes.decode('utf-8')`, with both round trips.
- `PyInt`: `str(int)` and `int(bytes)`, with `int(str(n)) == n`.
- `PyRepr`: `repr` of `str` and `bytes`, with a reader that recovers the value from a repr.
  This is how the inputs list identifies each call's argument.
- `KeyValue`: the server.
  - `Db` holds three maps: plain values, counters and lists.
  - `Command` is one of `FLUSHDB`, `INCR`, `RPUSH` or `SET`.
  - `Apply` and `Run` are the command semantics.
  - `GET` and `LRANGE key 0 -1` are read functions. `GET` reads the three maps as one
    keyspace: a counter reads as the decimal text of its count, and a key that holds a
    list answers the WRONGTYPE error.
  - The class `Redis` is the client object. Its methods update the three maps in place
    and are proved against `Apply`.
- `Decorators`: `count_calls` and `call_history` as functions from a method to a method.
  A method is represented by one call's commands and result (`Invocation`).
- `Exercise`: the stored values, the `Cache` class, `replay`, and the lemmas that tie
  them together.
  - `Cache` keeps a ghost `History` of the calls of `store` made through it.
  - `Consistent()` says the server holds exactly what those calls put there. The
    constructor establishes it and `Store` preserves it.
  - From it, `Replay` is proved to show every call, in order, with the text of its
    arguments and the key it returned.

## Model

| member | source | states |
|---|---|---|
| Exercise.Cache.constructor | 0x02-redis_basic/exercise.py:55-60 | the cache uses the given connection, the server is flushed to empty, the history is empty and the cache is consistent |
| Exercise.Cache.Store | 0x02-redis_basic/exercise.py:62-70 | for a key of the form of `str(uuid4())` that is not on the server: returns the key; the server afterwards is the old one after the decorated call's commands; the counter is one higher; each history list gains exactly one entry (the UTF-8 of `str(args)`, the UTF-8 of the key); the data is under the key and every key other than it, the counter and the two lists reads as before; text reads back through `get_str`, an integer through `get_int`, bytes unchanged through `get`; `get_int` of the counter gives the new count; consistency is preserved |
| Exercise.Cache.Get | 0x02-redis_basic/exercise.py:72-86 | `None` exactly when the key holds nothing; ResponseError exactly when it holds a list; otherwise the stored bytes (for a counter, the text of its count), raw when no conversion is given and converted when one is |
| Exercise.Cache.GetStr | 0x02-redis_basic/exercise.py:88-94 | `None` exactly when the key holds nothing; the strict UTF-8 decoding of a stored value, an error included; the decimal text of a counter; ResponseError for a list |
| Exercise.Cache.GetInt | 0x02-redis_basic/exercise.py:96-101 | `None` exactly when the key holds nothing; `int()` of a stored value, ValueError included; the count of a counter; ResponseError for a list |
| Exercise.ConsistentCounterReads | 0x02-redis_basic/exercise.py:24-25 | on a consistent cache `get_int("Cache.store")` is `None` before the first call of `store` and the number of calls after it, `get_str` of it is that number's text, and `get_str` of either history list raises ResponseError |
| Exercise.RecordedNames | 0x02-redis_basic/exercise.py:24-25 | on a server that holds what N calls of `store` left, the counter and list names are never plain values and the counter name never holds a list; after the first call the counter holds N and both history names hold lists |
| Exercise.IsUuidText | 0x02-redis_basic/exercise.py:68 | the form of `str(uuid4())`: 36 characters, four hyphens, the version and variant digits, lower-case hex elsewhere |
| Exercise.UuidIsNoHistoryName | 0x02-redis_basic/exercise.py:68 | a generated key is never the counter's name or one of the history lists' names |
| Exercise.ClientEncode | 0x02-redis_basic/exercise.py:69 | the bytes the client library sends for the value of SET; what they read back as is stated by `Exercise.EncodeReadsBack` |
| Exercise.ValueRepr | 0x02-redis_basic/exercise.py:43 | `repr` of a stored value; that it reads back as the value is stated by `Exercise.EvalValueRepr` |
| Exercise.ArgsText | 0x02-redis_basic/exercise.py:43 | `str(args)` for `store(v)` and `store(data=v)`; what it reads back as is stated by `Exercise.EvalArgsText` |
| Exercise.StoreBody | 0x02-redis_basic/exercise.py:64-70 | the undecorated body: SET of the data under the generated key, returning the key; its effect once decorated is stated by `Exercise.StoreCommandOrder` |
| Exercise.DecoratedStore | 0x02-redis_basic/exercise.py:62-70 | `count_calls` applied to `call_history` applied to the body; the commands it sends are stated by `Exercise.StoreCommandOrder` and `Exercise.StoreEffect` |
| Exercise.Header | 0x02-redis_basic/exercise.py:116 | the first line `replay` prints; its count is stated by `Exercise.ConsistentReplayShape` |
| Exercise.CallLine | 0x02-redis_basic/exercise.py:121 | the line `replay` prints for one call; which call it shows is stated by `Exercise.CallLinesAt` and `Exercise.ConsistentCallLine` |
| Exercise.EncodeReadsBack | 0x02-redis_basic/exercise.py:69 | text stored by `set` decodes back to the same text, an integer parses back to the same integer and also decodes to its decimal text, and bytes are stored unchanged |
| Exercise.EvalValueRepr | 0x02-redis_basic/exercise.py:43 | the repr of any stored value reads back as that value, so the inputs list determines the argument |
| Exercise.EvalArgsText | 0x02-redis_basic/exercise.py:43 | `str(args)` for `store(v)` reads back as the one-element tuple `(v,)`; for `store(data=v)` it reads back as the empty tuple |
| Exercise.StoreCommandOrder | 0x02-redis_basic/exercise.py:62-63 | one call of `store` as decorated sends INCR of the counter, RPUSH of the arguments, SET of the data, RPUSH of the key, in this order, and returns the key |
| Exercise.StoreEffect | 0x02-redis_basic/exercise.py:62-70 | one call of `store` changes exactly the data under its key, the counter and the two history lists; every other map entry is unchanged |
| Exercise.StoreFacts | 0x02-redis_basic/exercise.py:62-70 | after one call the counter is one higher, each history list has one more entry, the data is under the key, and every other key reads as before |
| Exercise.RecordedCallsStep | 0x02-redis_basic/exercise.py:24-25 | one more call of `store` makes the counter one higher and appends that call's argument text and key as the next entries of the two history lists, so the i-th entries keep belonging to the i-th call |
| Exercise.RecordedDataStep | 0x02-redis_basic/exercise.py:68-69 | one more call of `store` with a key not used before puts its data under that key, keeps every earlier call's data, and adds no other key |
| Exercise.RecordedStep | 0x02-redis_basic/exercise.py:41-46 | one more call of `store` with a key not used before keeps the server's counter, history lists and data in step with the list of calls |
| Exercise.StoreHistory | 0x02-redis_basic/exercise.py:24-25 | after N calls with distinct keys on an emptied server, the counter is N, the i-th entry of each history list belongs to the i-th call, every call's data is under its key, and nothing else is on the server |
| Exercise.RunStoresStep | 0x02-redis_basic/exercise.py:68-69 | a call of `store` with a key not yet on the server extends a history of distinct keys by one and performs the history's next step |
| Exercise.RecordedDecodes | 0x02-redis_basic/exercise.py:119-120 | every entry of a recorded history list decodes as UTF-8 to the text that was pushed for it |
| Exercise.ConsistentHistoryDecodes | 0x02-redis_basic/exercise.py:113-120 | on a consistent cache both history lists are as long as the history, and each entry decodes to that call's argument text or key |
| Exercise.DecodesUpToAt | 0x02-redis_basic/exercise.py:118-120 | every pair inside a run of decodable pairs decodes |
| Exercise.DecodesUpToOf | 0x02-redis_basic/exercise.py:118-120 | pairs that each decode form a run of decodable pairs |
| Exercise.DecodesUpToAll | 0x02-redis_basic/exercise.py:118-120 | the recursive "first n pairs decode" predicate holds exactly when each of the first n pairs decodes |
| Exercise.DecodesUpToPrefix | 0x02-redis_basic/exercise.py:118-120 | if the first n pairs decode, so do the first m for every m no larger than n |
| Exercise.CallLines | 0x02-redis_basic/exercise.py:118-121 | the lines printed for n decodable pairs are n in number |
| Exercise.CallLinesAt | 0x02-redis_basic/exercise.py:121 | the k-th printed call line is built from the decoded k-th input and the decoded k-th output |
| Exercise.ReplayLines | 0x02-redis_basic/exercise.py:113-121 | computed by a loop that decodes each entry: the header counts all inputs; one call line follows per pair, as far as the shorter list goes (`zip`); `ok` holds exactly when every pair decodes; on failure the output stops at the first pair that does not decode |
| Exercise.ConsistentDecodesUpTo | 0x02-redis_basic/exercise.py:113-120 | on a consistent cache both lists are as long as the history and all their pairs decode |
| Exercise.ConsistentCallLine | 0x02-redis_basic/exercise.py:118-121 | on a consistent cache the k-th call line shows the k-th call's argument text and the key it returned |
| Exercise.ConsistentReplayShape | 0x02-redis_basic/exercise.py:116 | on a consistent cache replay does not fail, prints one line per recorded call after the header, and the header gives the number of calls |
| Exercise.ConsistentReplayLines | 0x02-redis_basic/exercise.py:118-121 | on a consistent cache the call lines show every call made through it, in order, with its argument text and key |
| Exercise.ConsistentReplay | 0x02-redis_basic/exercise.py:116-121 | on a consistent cache the output of `replay` does not fail, its header gives the number of calls, and it shows every call made through the cache, in order, with its argument text and the key it returned |
| Exercise.Replay | 0x02-redis_basic/exercise.py:104-121 | the lines `replay(cache.store)` prints, as `ReplayLines` states them for the server's two lists; on a consistent cache it does not fail and shows every call made through the cache, in order, with the text of its arguments and the key it returned |
| Decorators.CountCalls | 0x02-redis_basic/exercise.py:14-28 | `count_calls`: INCR of the counter named after the method, then the method; what a call through it does is stated by `Decorators.CountCallsCountsOnce` |
| Decorators.CallHistory | 0x02-redis_basic/exercise.py:30-48 | `call_history`: RPUSH of `str(args)`, the method, RPUSH of `str(output)`; what a call through it does is stated by `Decorators.CallHistoryRecordsOnce` |
| Decorators.InputsKey | 0x02-redis_basic/exercise.py:41 | the list `call_history` pushes arguments to and `replay` reads (line 109): `qualname:inputs`; `Decorators.HistoryKeysDiffer` states that it is not the outputs list |
| Decorators.OutputsKey | 0x02-redis_basic/exercise.py:42 | the list `call_history` pushes results to and `replay` reads (line 110): `qualname:outputs`; `Decorators.HistoryKeysDiffer` states that it is not the inputs list |
| Decorators.HistoryKeysDiffer | 0x02-redis_basic/exercise.py:41-42 | the inputs list and the outputs list of a method are different keys |
| Decorators.CountCallsCountsOnce | 0x02-redis_basic/exercise.py:14-28 | a call through `count_calls` returns the method's result and raises the method's counter by exactly one, when the method itself leaves that counter alone |
| Decorators.CallHistoryRecordsOnce | 0x02-redis_basic/exercise.py:36-48 | a call through `call_history` returns the method's result, appends the text of its arguments to the inputs list and the text of its result to the outputs list, exactly one entry each |
| KeyValue.Redis.Connect | 0x02-redis_basic/exercise.py:59 | a client connected to a server sees that server's contents |
| KeyValue.Redis.FlushDb | 0x02-redis_basic/exercise.py:60 | FLUSHDB leaves the server empty |
| KeyValue.Redis.Incr | 0x02-redis_basic/exercise.py:25 | INCR performs the `Incr` command and returns the new count, one more than before (counting from 0) |
| KeyValue.Redis.RPush | 0x02-redis_basic/exercise.py:43 | RPUSH performs the `RPush` command, appends the item at the end of the list and returns the new length |
| KeyValue.Redis.Set | 0x02-redis_basic/exercise.py:69 | SET performs the `Set` command; GET of the key then returns the value |
| KeyValue.Apply | 0x02-redis_basic/exercise.py:25 | the effect of FLUSHDB (line 60), INCR (25), RPUSH (43, 45) and SET (69) on the server; each client method is proved against it |
| KeyValue.Run | 0x02-redis_basic/exercise.py:25-26 | the commands one after the other; `KeyValue.RunAppend`, `KeyValue.RunLeavesCounter` and `KeyValue.RunLeavesList` state how it composes and what it leaves alone |
| KeyValue.Get | 0x02-redis_basic/exercise.py:78 | GET on the one keyspace; what it answers is stated by `KeyValue.GetReply` |
| KeyValue.GetReply | 0x02-redis_basic/exercise.py:78-81 | GET answers nil exactly for a key that holds nothing and WRONGTYPE exactly for a list; a counter reads back through `int()` as its count |
| KeyValue.LRange | 0x02-redis_basic/exercise.py:113-114 | `LRANGE key 0 -1`: the whole list, empty for a missing key; what `store` appends to it is stated by `KeyValue.Redis.RPush` and `Exercise.StoreFacts` |
| KeyValue.RunAppend | 0x02-redis_basic/exercise.py:25-26 | running two command sequences one after the other is running their concatenation |
| KeyValue.RunLeavesCounter | 0x02-redis_basic/exercise.py:26 | commands that neither flush nor increment a counter leave that counter unchanged |
| KeyValue.RunLeavesList | 0x02-redis_basic/exercise.py:44 | commands that neither flush nor push to a list leave that list unchanged |
| Utf8.Encode | 0x02-redis_basic/exercise.py:43 | `str.encode('utf-8')`, which the client applies to every text it sends (lines 43, 45 and 69); `Utf8.DecodeEncode` and `Utf8.EncodeDecode` state that strict decoding is its exact inverse |
| Utf8.Decode | 0x02-redis_basic/exercise.py:94 | strict decoding fails only with UnicodeDecodeError |
| Utf8.DecodeEncode | 0x02-redis_basic/exercise.py:94 | decoding the UTF-8 encoding of any text gives that text back |
| Utf8.EncodeDecode | 0x02-redis_basic/exercise.py:119-120 | bytes that decode re-encode to the same bytes |
| PyInt.Str | 0x02-redis_basic/exercise.py:43 | `str(n)` and `repr(n)` of an `int`, used in `str(args)` (line 43), for an integer sent by SET (69) and for the count in the header (116); `PyInt.ParseStr` states that `int()` reads it back as `n` |
| PyInt.Parse | 0x02-redis_basic/exercise.py:101 | `int()` of bytes fails only with ValueError |
| PyInt.ParseStr | 0x02-redis_basic/exercise.py:101 | `int()` of the UTF-8 of `str(n)` is `n`, for every integer |
| PyRepr.StrRepr | 0x02-redis_basic/exercise.py:43 | `repr` of a `str` as `str(args)` writes it; `PyRepr.EvalStrRepr` states that it reads back as the text |
| PyRepr.BytesRepr | 0x02-redis_basic/exercise.py:43 | `repr` of a `bytes` value as `str(args)` writes it; `PyRepr.EvalBytesRepr` states that it reads back as the bytes |
| PyRepr.EvalStrRepr | 0x02-redis_basic/exercise.py:43 | the repr of any text reads back as that text |
| PyRepr.EvalBytesRepr | 0x02-redis_basic/exercise.py:43 | the repr of any bytes value reads back as those bytes |

## Left out

- Floating-point values: `store` also accepts a `float`; floats and their `repr` are not modelled, so `Value` holds text, bytes and integers.
- The network: `redis.Redis()` opens a connection. Here the connection is a `Redis` object passed to the constructor, whose contents are three maps.
- Redis keeps values, counters and lists in one keyspace, and a counter is a value holding its decimal text. The model keeps three maps. `GET` reads them as one keyspace, so `get("Cache.store")` gives the count and `get` of a history list raises ResponseError. The writing commands are not modelled across kinds: SET over a counter or a list, INCR of a plain value or of a list, and RPUSH to a plain value or a counter. (Redis answers INCR of a list with WRONGTYPE; `KeyValue.Apply` would start a counter beside the list.) The code never sends them: its data keys are generated UUIDs, the counter and list names are fixed, and `Exercise.RecordedNames` shows that those names never hold a plain value and that the counter's name never holds a list.
- INCR on a 64-bit signed counter fails on overflow; the model's counters are unbounded.
- The client library refuses `bool` and `None` values with its own DataError; such values are not in `Value`.
- `uuid4()` is random. `Store` takes the key as a parameter and requires two things of it. It has the form of `str(uuid4())`, which holds by construction. It is not yet on the server, which a fresh UUID gives only with overwhelming probability, and only when nothing else wrote that key; the model assumes it.
- Printing: `replay` prints its lines; `Replay` returns them. The UnicodeDecodeError that `replay` raises part way is the result `ok == false` together with the lines printed before it.
- `__qualname__`, `@wraps` and `method.__self__`: the method name is the constant `Cache.store`, and `Replay` takes the cache whose `store` it replays. `replay` of any other method is not modelled.
- The decorators are modelled for methods of one argument that return text, with `str(args)` supplied as a function of that argument (`ArgsText`). Keyword arguments are not part of `str(args)`, so `store(data=v)` records `()`; the model has this case. A method's result is text (`Invocation.output`), so the outputs entry is `str(output)` only for such methods, which `store` is.
- `exercise.py:30-36`: the docstring of `call_history` is indented deeper than the function body that follows. Python rejects the file as written. The model follows the evidently intended decorator.
- `LRANGE` is modelled only with the range `0 -1` the code uses.
- `Exercise.Cache.Store`: its guarantee about `replay` holds only while nothing else writes to the server; `Consistent()` states that assumption.
- `Exercise.Cache.Store`: a call that raises part way is not modelled. The decorators send INCR and the inputs RPUSH before the body runs, and nothing undoes them. Three inputs fail that way. A `str` with a lone surrogate passes `str(args)`, but the client's strict encoder raises UnicodeEncodeError at SET; Dafny's `char` cannot hold a lone surrogate. An `int` of more than 4300 digits makes `str(args)` raise ValueError right after INCR. A `bool` or `None` passes `str(args)`, then the client raises DataError at SET. After such a call the counter is ahead of the lists, so the invariants (counter, inputs and outputs of equal length) cover only calls that complete.
- `PyRepr.StrRepr`: `repr` of text is right for every code point up to 0xFF, but from 0x100 up its `PyRepr.EscapeChar` copies every character. Python writes the non-printable ones (U+200B, U+2028, U+FEFF, unassigned code points and others) as `\uXXXX` or `\UXXXXXXXX`; telling them apart needs Unicode's printable table, which is not modelled. `Exercise.ValueRepr`, `Exercise.ArgsText` and the inputs entries that `Exercise.Cache.Store` pushes inherit this gap: for `store("\u2028")` Python pushes the escape and the model pushes the character itself, so `replay` prints a different line.
- `PyInt.Parse`: `int()` also rejects more than 4300 digits by default; that limit is not modelled.
- `PyInt.Str`: `str(n)` and `repr(n)` raise ValueError for more than 4300 digits by default; `Str` is total.
- The MongoDB helpers in `0x01-NoSQL` are not part of this model.
