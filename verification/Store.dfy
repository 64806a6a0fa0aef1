/** Handles on a shared database: the transaction hatch, and one stream's store.
    Every write is one transaction, published once it is in. */
module Store {
  import opened Wrappers
  import opened Event
  import opened Rows
  import opened Database
  import opened Writes
  import opened Announce
  import opened Sqlite
  import opened Txn
  import opened Landing
  import Backends

  // ---- the hatch -----------------------------------------------------------

  /** The positions a closure's calls buffered, newest last or not. */
  method MaxPosition(published: seq<nat>, ghost out: seq<Committed>) returns (highest: nat)
    requires published == Positions(out)
    ensures highest == Highest(out)
  {
    highest := 0;
    for i := 0 to |published|
      invariant highest == Highest(out[..i])
    {
      assert out[..i + 1][..i] == out[..i];
      if published[i] > highest { highest := published[i]; }
    }
    assert out[..|out|] == out;
  }

  /** One call of a closure on its context. */
  method CallOn(context: TxnContext, call: Call) returns (answer: Result<seq<Committed>>)
    modifies context, context.tx
    ensures (context.tx.Tables(), answer) == CallIn(old(context.tx.Tables()), call)
    ensures context.published == old(context.published) + if answer.Ok? then Positions(answer.value) else []
  {
    match call {
      case AppendCall(stream, events, _) => answer := context.AppendManyAt(stream, events);
      case ImportCall(list, _) => answer := context.ImportMany(list);
    }
  }

  lemma PositionsConcat(a: seq<Committed>, b: seq<Committed>)
    ensures Positions(a + b) == Positions(a) + Positions(b)
  {}

  lemma {:induction false} CallsStop(t: Tables, calls: seq<Call>, j: nat, k: nat)
    requires j <= k <= |calls| && RunCalls(t, calls, j).1.Err?
    ensures RunCalls(t, calls, k) == RunCalls(t, calls, j)
  {
    if j < k { CallsStop(t, calls, j, k - 1); }
  }

  /** Where a closure stands after `k` calls. */
  ghost predicate ClosureAt(t: Tables, calls: seq<Call>, k: nat, at: (Tables, Result<seq<Committed>>))
    requires k <= |calls|
  {
    at == RunCalls(t, calls, k)
  }

  lemma ClosureGoesOn(t: Tables, calls: seq<Call>, k: nat, at: (Tables, Result<seq<Committed>>))
    requires k < |calls| && ClosureAt(t, calls, k, at)
    ensures ClosureAt(t, calls, k + 1, CallAnother(at, calls[k]))
  {}

  /** The next call of a closure, and whether the closure ends there. */
  method NextCall(context: TxnContext, ghost began: Tables, calls: seq<Call>, i: nat, sofar: seq<Committed>)
    returns (now: seq<Committed>, failed: Option<Error>)
    requires i < |calls| && context.published == Positions(sofar)
    requires ClosureAt(began, calls, i, (context.tx.Tables(), Ok(sofar)))
    modifies context, context.tx
    ensures ClosureAt(began, calls, i + 1, (context.tx.Tables(), if failed.Some? then Err(failed.value) else Ok(now)))
    ensures context.published == Positions(now)
  {
    ClosureGoesOn(began, calls, i, (context.tx.Tables(), Ok(sofar)));
    var called := CallOn(context, calls[i]);
    now, failed := sofar, None;
    if called.Ok? {
      PositionsConcat(sofar, called.value);
      now := sofar + called.value;
    } else if !calls[i].swallows {
      failed := Some(called.error);
    }
  }

  /** A closure's calls in order, up to the first error it returns. */
  method RunClosure(context: TxnContext, calls: seq<Call>) returns (answer: Result<seq<Committed>>)
    requires context.published == []
    modifies context, context.tx
    ensures (context.tx.Tables(), answer) == RunCalls(old(context.tx.Tables()), calls, |calls|)
    ensures answer.Ok? ==> context.published == Positions(answer.value)
  {
    ghost var began := context.tx.Tables();
    var sofar: seq<Committed> := [];
    for i := 0 to |calls|
      invariant ClosureAt(began, calls, i, (context.tx.Tables(), Ok(sofar)))
      invariant context.published == Positions(sofar)
    {
      var failed;
      sofar, failed := NextCall(context, began, calls, i, sofar);
      if failed.Some? {
        CallsStop(began, calls, i + 1, |calls|);
        return Err(failed.value);
      }
    }
    answer := Ok(sofar);
  }

  /** `with_transaction`: what the closure did is committed and then published as
      one maximum, or nothing happened. */
  method WithTransaction(shared: Shared, calls: seq<Call>) returns (answer: Result<seq<Committed>>)
    modifies shared`notify, shared.isle
    ensures Went(old(shared.isle.Tables()), shared.isle.Tables(), Transaction(old(shared.isle.Tables()), calls), answer)
    ensures shared.notify
      == if answer.Ok? && answer.value != [] then old(shared.notify).Publish(Highest(answer.value)) else old(shared.notify)
  {
    var began := shared.isle.Tables();
    var context := new TxnContext(shared.isle);
    answer := RunClosure(context, calls);
    if answer.Err? {
      shared.isle.Restore(began);
      return;
    }
    if context.published != [] {
      var highest := MaxPosition(context.published, answer.value);
      shared.Publish(highest);
    }
  }

  // ---- one stream ----------------------------------------------------------

  class SqliteEventStore {
    const shared: Shared
    const stream: string

    constructor (shared: Shared, stream: string)
      ensures this.shared == shared && this.stream == stream
    {
      this.shared, this.stream := shared, stream;
    }

    /** `append` and `append_at`: a rejected event takes nothing from the stream. */
    method Append(event: Object, clock: U64) returns (answer: Result<Committed>)
      modifies shared`notify, shared.isle
      ensures Went(old(shared.isle.Tables()), shared.isle.Tables(),
                   Writes.Append(old(shared.isle.Tables()), stream, event, clock), answer)
      ensures if !Valid(event) then answer == Err(Validation)
              else if HasRoom(old(shared.isle.Tables()), stream, 1) then answer.Ok?
              else answer == Err(Storage)
      ensures answer.Ok? ==>
        && EventLanded(old(shared.isle.Tables()), shared.isle.Tables(), stream, event, clock, answer.value)
        && shared.notify == old(shared.notify).Publish(answer.value.position)
      ensures answer.Err? ==> shared.notify == old(shared.notify)
    {
      AppendLands(shared.isle.Tables(), stream, event, clock);
      if !Valid(event) { return Err(Validation); }
      var context := new TxnContext(shared.isle);
      answer := context.AppendAt(stream, clock, event);
      if answer.Ok? { shared.Publish(answer.value.position); }
    }

    /** `detach_append`: nobody is told, and nobody is woken. */
    method DetachAppend(event: Object, clock: U64) returns (answer: Result<()>)
      modifies shared.isle
      ensures answer.Ok? <==> Valid(event)
      ensures var spec := Writes.Append(old(shared.isle.Tables()), stream, event, clock);
        shared.isle.Tables() == if spec.Ok? then spec.value.0 else old(shared.isle.Tables())
      ensures if Valid(event) && HasRoom(old(shared.isle.Tables()), stream, 1) then
                exists c :: EventLanded(old(shared.isle.Tables()), shared.isle.Tables(), stream, event, clock, c)
              else shared.isle.Tables() == old(shared.isle.Tables())
    {
      AppendLands(shared.isle.Tables(), stream, event, clock);
      if !Valid(event) { return Err(Validation); }
      var context := new TxnContext(shared.isle);
      var dropped := context.AppendAt(stream, clock, event);
      answer := Ok(());
    }

    /** `append_many`: one clock reading, one run of numbers, all or nothing. */
    method AppendMany(batch: seq<Object>, clock: U64) returns (answer: Result<seq<Committed>>)
      modifies shared`notify, shared.isle
      ensures Went(old(shared.isle.Tables()), shared.isle.Tables(),
                   RolledBack(Writes.AppendMany(old(shared.isle.Tables()), stream, Stamps(batch, clock))), answer)
      ensures if exists event <- batch :: !Valid(event) then answer == Err(Validation)
              else if HasRoom(old(shared.isle.Tables()), stream, |batch|) then answer.Ok?
              else answer == Err(Storage)
      ensures answer.Ok? ==>
        BatchLanded(old(shared.isle.Tables()), shared.isle.Tables(), stream, batch, clock, answer.value)
      ensures shared.notify == if answer.Ok? && answer.value != []
                               then old(shared.notify).Publish(answer.value[|answer.value| - 1].position)
                               else old(shared.notify)
    {
      var began := shared.isle.Tables();
      AppendManyLands(began, stream, Stamps(batch, clock), batch, clock);
      var context := new TxnContext(shared.isle);
      answer := context.AppendManyAt(stream, Stamps(batch, clock));
      if answer.Err? {
        shared.isle.Restore(began);
      } else if answer.value != [] {
        shared.Publish(answer.value[|answer.value| - 1].position);
      }
    }

    /** `append_if`: the read, the decision and the insert are one write. */
    method AppendIf(kinds: Option<seq<string>>, decide: seq<Object> -> Option<Object>, clock: U64)
      returns (answer: Result<Option<Committed>>)
      modifies shared`notify, shared.isle
      ensures Went(old(shared.isle.Tables()), shared.isle.Tables(),
                   Writes.AppendIf(old(shared.isle.Tables()), stream, kinds, decide, clock), answer)
      ensures shared.notify == if answer.Ok? && answer.value.Some?
                               then old(shared.notify).Publish(answer.value.value.position) else old(shared.notify)
      ensures var decided := decide(ObjectsOf(SelectStream(old(shared.isle.Tables()), stream, kinds, 0, U64_MAX)));
        && (answer.Ok? <==> decided.Some? ==> Valid(decided.value) && HasRoom(old(shared.isle.Tables()), stream, 1))
        && (answer.Ok? ==> answer.value.Some? == decided.Some?)
        && (answer.Ok? && decided.Some? ==>
              EventLanded(old(shared.isle.Tables()), shared.isle.Tables(), stream, decided.value, clock, answer.value.value))
    {
      var seen := ObjectsOf(SelectStream(shared.isle.Tables(), stream, kinds, 0, U64_MAX));
      ghost var t := shared.isle.Tables();
      match decide(seen) {
        case None => answer := Ok(None);
        case Some(event) =>
          AppendLands(t, stream, event, clock);
          var context := new TxnContext(shared.isle);
          var appended := context.AppendAt(stream, clock, event);
          if appended.Err? { return Err(appended.error); }
          shared.Publish(appended.value.position);
          answer := Ok(Some(appended.value));
      }
    }

    /** `append_expecting`: the head compared is the stored counter's, inside the
        write; a refusal leaves no trace. */
    method AppendExpecting(expected: Expected, event: Object, clock: U64) returns (answer: Result<Committed>)
      modifies shared`notify, shared.isle
      ensures Went(old(shared.isle.Tables()), shared.isle.Tables(),
                   Writes.AppendExpecting(old(shared.isle.Tables()), stream, expected, event, clock), answer)
      ensures var t := old(shared.isle.Tables());
        if !Valid(event) then answer == Err(Validation)
        else if !HeadIs(t, stream, expected) then
          answer == Err(HeadMismatch(if expected.Unwritten? then 0 else expected.n, NextSeq(t, stream) - 1))
        else if HasRoom(t, stream, 1) then answer.Ok?
        else answer == Err(Storage)
      ensures answer.Ok? ==>
        && EventLanded(old(shared.isle.Tables()), shared.isle.Tables(), stream, event, clock, answer.value)
        && shared.notify == old(shared.notify).Publish(answer.value.position)
      ensures answer.Err? ==> shared.notify == old(shared.notify)
    {
      if !Valid(event) { return Err(Validation); }
      var next := NextSeq(shared.isle.Tables(), stream);
      var actual := if next == 1 then Unwritten else Seq(next - 1);
      if actual != expected {
        var head: nat := next as int - 1;
        return Err(HeadMismatch(if expected.Seq? then expected.n else 0, head));
      }
      answer := this.Append(event, clock);
    }

    /** `ORDER BY seq DESC LIMIT n`, reversed on the way back: the last `n` of the
        stream's rows in sequence order, or all of them. */
    method ReadLast(n: nat) returns (rows: seq<Row>)
      ensures rows == Backends.ReadLast(shared.isle.Tables(), stream, n)
      ensures var all := OrderBySeq(Backends.Mine(shared.isle.Tables(), stream));
        rows == if n <= I64_MAX && n < |all| then all[|all| - n..] else all
    {
      var ordered := OrderBySeq(Backends.Mine(shared.isle.Tables(), stream));
      Backends.ReversedTail(ordered, n);
      rows := Reverse(Limit(Backends.Reversed(ordered), n));
    }
  }

  /** The rows come back newest first. */
  method Reverse(newest: seq<Row>) returns (rows: seq<Row>)
    ensures rows == Backends.Reversed(newest)
  {
    rows := [];
    for i := 0 to |newest|
      invariant |rows| == i && forall j :: 0 <= j < i ==> rows[j] == newest[i - 1 - j]
    {
      rows := [newest[i]] + rows;
    }
  }

  function Stamps(batch: seq<Object>, clock: U64): (events: seq<(U64, Object)>)
    ensures OneClockBatch(events, batch, clock)
  {
    seq(|batch|, i requires 0 <= i < |batch| => (clock, batch[i]))
  }
}
