/** The `count_calls` and `call_history` decorators. A decorated method is modelled by
    what one call of it does: the server commands it sends, in order, and the value it
    returns. A decorator turns such a method into another one. */
module Decorators {
  import Utf8
  import opened KeyValue

  /** One call of a method: the commands it sends to the server and its result. */
  datatype Invocation = Invocation(effects: seq<Command>, output: string)

  /** The list that records the positional arguments of each call of `qualname`. */
  function InputsKey(qualname: string): (key: string) {
    qualname + ":inputs"
  }

  /** The list that records the result of each call of `qualname`. */
  function OutputsKey(qualname: string): (key: string) {
    qualname + ":outputs"
  }

  lemma HistoryKeysDiffer(qualname: string)
    ensures InputsKey(qualname) != OutputsKey(qualname)
  {
    assert |InputsKey(qualname)| != |OutputsKey(qualname)|;
  }

  /** count_calls: INCR the counter named after the method, then call it and return its
      result unchanged. */
  function CountCalls<A>(qualname: string, wrapped: A -> Invocation): (decorated: A -> Invocation) {
    a => Invocation([Incr(qualname)] + wrapped(a).effects, wrapped(a).output)
  }

  /** call_history: RPUSH the text of the positional arguments (`argsText`, which stands
      for `str(args)`) to the inputs list, call the method, RPUSH the text of its result to
      the outputs list, and return the result. Text is sent to the server as UTF-8. */
  function CallHistory<A>(qualname: string, argsText: A -> string, wrapped: A -> Invocation): (decorated: A -> Invocation) {
    a =>
      var inner := wrapped(a);
      Invocation(
        [RPush(InputsKey(qualname), Utf8.Encode(argsText(a)))]
          + inner.effects
          + [RPush(OutputsKey(qualname), Utf8.Encode(inner.output))],
        inner.output)
  }

  /** A call through count_calls returns what the method returns and raises the method's
      counter by exactly one, provided the method itself neither flushes the server nor
      increments that counter. */
  lemma CountCallsCountsOnce<A>(qualname: string, wrapped: A -> Invocation, a: A, db: Db)
    requires LeavesCounter(wrapped(a).effects, qualname)
    ensures CountCalls(qualname, wrapped)(a).output == wrapped(a).output
    ensures Counter(Run(db, CountCalls(qualname, wrapped)(a).effects), qualname) == Counter(db, qualname) + 1
  {
    var first := Apply(db, Incr(qualname));
    assert Run(db, CountCalls(qualname, wrapped)(a).effects) == Run(first, wrapped(a).effects) by {
      RunAppend(db, [Incr(qualname)], wrapped(a).effects);
    }
    RunLeavesCounter(first, wrapped(a).effects, qualname);
  }

  /** A call through call_history returns what the method returns, appends the text of the
      arguments to the inputs list and the text of the result to the outputs list, exactly
      one entry each, provided the method itself neither flushes the server nor pushes to
      those two lists. */
  lemma CallHistoryRecordsOnce<A>(qualname: string, argsText: A -> string, wrapped: A -> Invocation, a: A, db: Db)
    requires LeavesList(wrapped(a).effects, InputsKey(qualname))
    requires LeavesList(wrapped(a).effects, OutputsKey(qualname))
    ensures CallHistory(qualname, argsText, wrapped)(a).output == wrapped(a).output
    ensures var after := Run(db, CallHistory(qualname, argsText, wrapped)(a).effects);
      && LRange(after, InputsKey(qualname)) == LRange(db, InputsKey(qualname)) + [Utf8.Encode(argsText(a))]
      && LRange(after, OutputsKey(qualname)) == LRange(db, OutputsKey(qualname)) + [Utf8.Encode(wrapped(a).output)]
  {
    var inputs, outputs := InputsKey(qualname), OutputsKey(qualname);
    HistoryKeysDiffer(qualname);
    var push := RPush(inputs, Utf8.Encode(argsText(a)));
    var last := RPush(outputs, Utf8.Encode(wrapped(a).output));
    var db1 := Apply(db, push);
    var db2 := Run(db1, wrapped(a).effects);
    RunAppend(db, [push], wrapped(a).effects);
    RunAppend(db, [push] + wrapped(a).effects, [last]);
    assert Run(db, CallHistory(qualname, argsText, wrapped)(a).effects) == Run(db2, [last]);
    RunLeavesList(db1, wrapped(a).effects, inputs);
    RunLeavesList(db1, wrapped(a).effects, outputs);
  }
}
