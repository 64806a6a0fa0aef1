/** What a commit announces: the highest position its calls returned. */
module Announce {
  import opened Wrappers
  import opened Event
  import opened Rows
  import opened Database
  import opened Writes
  import opened History
  import opened Routes
  import opened Hatch
  import opened World

  /** The wake-up channel. A receiver compares versions, not values. */
  datatype Watch = Watch(value: nat, version: nat)
  {
    /** `publish`: compare and store under one lock; send only if modified. */
    function Publish(position: nat): Watch {
      if position > value then Watch(position, version + 1) else this
    }
  }

  function Highest(out: seq<Committed>): nat {
    if out == [] then 0 else Max(Highest(out[..|out| - 1]), out[|out| - 1].position)
  }

  lemma {:induction false} HighestConcat(a: seq<Committed>, b: seq<Committed>)
    ensures Highest(a + b) == Max(Highest(a), Highest(b))
  {
    if b == [] {
      assert a + b == a;
    } else {
      HighestConcat(a, b[..|b| - 1]);
      assert (a + b)[..|a + b| - 1] == a + b[..|b| - 1];
    }
  }

  /** Of a run of positions the last is the highest. */
  lemma {:induction false} HighestOfRun(out: seq<Committed>, issued: nat)
    requires forall i :: 0 <= i < |out| ==> out[i].position == issued + 1 + i
    ensures out != [] ==> Highest(out) == out[|out| - 1].position
  {
    if out != [] { HighestOfRun(out[..|out| - 1], issued); }
  }

  /** What a successful write returned, whichever route it took. */
  function Returned(t: Tables, w: Write): seq<Committed> {
    match w
    case AppendOne(stream, event, clock) =>
      var r := Append(t, stream, event, clock); if r.Ok? then [r.value.1] else []
    case AppendBatch(stream, events) =>
      var r := AppendMany(t, stream, events).1; if r.Ok? then r.value else []
    case Decide(stream, kinds, decide, clock) =>
      var r := AppendIf(t, stream, kinds, decide, clock); if r.Ok? && r.value.1.Some? then [r.value.1.value] else []
    case Expecting(stream, expected, event, clock) =>
      var r := AppendExpecting(t, stream, expected, event, clock); if r.Ok? then [r.value.1] else []
    case Closure(calls) =>
      var r := Transaction(t, calls); if r.Ok? then r.value.1 else []
  }

  /** The position published once the commit is in; none when nothing was returned. */
  function Announced(t: Tables, w: Write): Option<nat> {
    if Returned(t, w) == [] then None else Some(Highest(Returned(t, w)))
  }

  /** The answer names the newest position there is, or nothing was added. */
  ghost predicate Names(t: Tables, u: Tables, out: seq<Committed>) {
    && t.issued <= u.issued
    && (if out == [] then u.issued == t.issued else Highest(out) == u.issued)
  }

  lemma NamesOn(t: Tables, u: Tables, v: Tables, a: seq<Committed>, b: seq<Committed>)
    requires Names(t, u, a) && Names(u, v, b) && Highest(a) <= u.issued
    ensures Names(t, v, a + b) && Highest(a + b) <= v.issued
  {
    HighestConcat(a, b);
    if b == [] { assert a + b == a; }
  }

  lemma NamesOne(t: Tables, u: Tables, c: Committed)
    requires u.issued == t.issued + 1 && c.position == u.issued
    ensures Names(t, u, [c]) && Highest([c]) <= u.issued
  {
    assert Highest([]) == 0 && [c][..0] == [];
  }

  /** A run names what it added, and no more than was issued. */
  ghost predicate Tells(t: Tables, u: Tables, out: seq<Committed>) {
    Names(t, u, out) && Highest(out) <= u.issued
  }

  lemma TellsOneMore(t: Tables, u: Tables, out: seq<Committed>, v: Tables, c: Committed)
    requires Tells(t, u, out) && v.issued == u.issued + 1 && c.position == v.issued
    ensures Tells(t, v, out + [c])
  {
    NamesOne(u, v, c);
    NamesOn(t, u, v, out, [c]);
  }

  lemma InsertTells(t: Tables, batch: Inserting, seqNo: nat, entry: Entry)
    requires Tells(t, batch.t, batch.out)
    ensures var after := InsertNext(batch, seqNo, entry); Tells(t, after.t, after.out)
  {
    if batch.stopped.None? && Insert(batch.t, entry.stream, seqNo, entry.body).Ok? {
      var after := InsertNext(batch, seqNo, entry);
      TellsOneMore(t, batch.t, batch.out, after.t, after.out[|batch.out|]);
    }
  }

  lemma {:induction false} InsertRunNames(t: Tables, base: Counter, entries: seq<Entry>, k: nat)
    requires k <= |entries|
    ensures var batch := InsertRun(t, base, entries, k); Tells(t, batch.t, batch.out)
  {
    if k > 0 {
      InsertRunNames(t, base, entries, k - 1);
      InsertTells(t, InsertRun(t, base, entries, k - 1), base + k - 1, entries[k - 1]);
    }
  }

  lemma RecordTells(t: Tables, at: (Importing, Option<Error>), exported: Exported)
    requires Tells(t, at.0.t, at.0.out)
    ensures var after := ImportAnother(at, exported).0; Tells(t, after.t, after.out)
  {
    if at.1.None? && ImportStep(at.0, exported).Ok? {
      var after := ImportStep(at.0, exported).value;
      TellsOneMore(t, at.0.t, at.0.out, after.t, after.out[|at.0.out|]);
    }
  }

  lemma {:induction false} ImportRunNames(t: Tables, list: seq<Exported>, k: nat)
    requires k <= |list|
    ensures var run := ImportRun(t, list, k).0; Tells(t, run.t, run.out)
  {
    if k > 0 {
      ImportRunNames(t, list, k - 1);
      RecordTells(t, ImportRun(t, list, k - 1), list[k - 1]);
    }
  }

  lemma CallNames(t: Tables, call: Call)
    requires CallIn(t, call).1.Ok?
    ensures var (u, answer) := CallIn(t, call);
      Tells(t, u, answer.value)
  {
    match call {
      case AppendCall(stream, events, _) =>
        InsertRunNames(t, NextSeq(t, stream), AppendEntries(stream, events), |events|);
      case ImportCall(list, _) =>
        ImportRunNames(t, list, |list|);
    }
  }

  /** A closure so far names what it added, and no more than was issued. */
  ghost predicate ClosureTells(t: Tables, at: (Tables, Result<seq<Committed>>)) {
    at.1.Ok? ==> Tells(t, at.0, at.1.value)
  }

  lemma ClosureTellsOn(t: Tables, hist: seq<Row>, at: (Tables, Result<seq<Committed>>), call: Call)
    requires ClosureTells(t, at) && Inv(at.0, hist) && (call.swallows ==> !LeavesRows(at.0, call))
    ensures ClosureTells(t, CallAnother(at, call))
  {
    if at.1.Ok? {
      CallEndsOf(at.0, hist, call);
      var (after, answer) := CallIn(at.0, call);
      if answer.Ok? {
        CallNames(at.0, call);
        NamesOn(t, at.0, after, at.1.value, answer.value);
      }
    }
  }

  /** Before each call of a closure that breaks nothing, the history is kept and the
      call leaves no rows behind an error it swallows. */
  lemma BeforeCall(t: Tables, hist: seq<Row>, calls: seq<Call>, j: nat, k: nat)
    requires Inv(t, hist) && j < |calls| && k == j + 1 && RunCalls(t, calls, k).1.Ok? && !Breaks(t, calls, k)
    ensures var before := RunCalls(t, calls, j);
      && before.1.Ok? && !Breaks(t, calls, j)
      && Inv(before.0, hist + Added(t, before.0))
      && (calls[j].swallows ==> !LeavesRows(before.0, calls[j]))
  {
    CallGoesOn(t, calls, j, k);
    BreaksSoFar(t, calls, j, k);
    ClosureHolds(t, hist, calls, j);
  }

  lemma OneMoreCall(t: Tables, calls: seq<Call>, j: nat, k: nat)
    requires j < |calls| && k == j + 1
    ensures RunCalls(t, calls, k) == CallAnother(RunCalls(t, calls, j), calls[j])
  {}

  /** A closure that left no rows behind a swallowed error names what it added. */
  lemma {:induction false} ClosureNames(t: Tables, hist: seq<Row>, calls: seq<Call>, k: nat)
    requires Inv(t, hist) && k <= |calls| && RunCalls(t, calls, k).1.Ok? && !Breaks(t, calls, k)
    ensures ClosureTells(t, RunCalls(t, calls, k))
  {
    if k > 0 {
      var j := k - 1;
      BeforeCall(t, hist, calls, j, k);
      ClosureNames(t, hist, calls, j);
      var before := RunCalls(t, calls, j);
      ClosureTellsOn(t, hist + Added(t, before.0), before, calls[j]);
      OneMoreCall(t, calls, j, k);
    }
  }

  lemma AppendNames(t: Tables, stream: string, event: Object, clock: U64)
    requires Append(t, stream, event, clock).Ok?
    ensures var (u, c) := Append(t, stream, event, clock).value; Names(t, u, [c]) && Highest([c]) <= u.issued
  {
    var (u, c) := Append(t, stream, event, clock).value;
    NamesOne(t, u, c);
  }

  lemma RefusedReturnsNothing(t: Tables, w: Write)
    requires WriteStep(t, w).Err?
    ensures Exec(t, Commit(w)) == t && Returned(t, w) == []
  {}

  lemma DecisionNames(t: Tables, stream: string, kinds: Option<seq<string>>, decide: seq<Object> -> Option<Object>, clock: U64)
    requires AppendIf(t, stream, kinds, decide, clock).Ok?
    ensures Names(t, AppendIf(t, stream, kinds, decide, clock).value.0, Returned(t, Decide(stream, kinds, decide, clock)))
  {
    var seen := ObjectsOf(SelectStream(t, stream, kinds, 0, U64_MAX));
    if decide(seen).Some? { AppendNames(t, stream, decide(seen).value, clock); }
  }

  /** Every commit announces the newest position it added, and announces nothing
      only when it added nothing, given a closure that propagates its errors. */
  lemma CommitNames(t: Tables, hist: seq<Row>, w: Write)
    requires Inv(t, hist) && Sound(t, Commit(w))
    ensures Names(t, Exec(t, Commit(w)), Returned(t, w))
  {
    if WriteStep(t, w).Err? {
      RefusedReturnsNothing(t, w);
    } else {
      match w {
        case AppendOne(stream, event, clock) => AppendNames(t, stream, event, clock);
        case AppendBatch(stream, events) => CallNames(t, AppendCall(stream, events, false));
        case Decide(stream, kinds, decide, clock) => DecisionNames(t, stream, kinds, decide, clock);
        case Expecting(stream, _, event, clock) => AppendNames(t, stream, event, clock);
        case Closure(calls) => ClosureNames(t, hist, calls, |calls|);
      }
    }
  }

  lemma CallRaises(t: Tables, call: Call)
    ensures t.issued <= CallIn(t, call).0.issued
  {
    match call {
      case AppendCall(stream, events, _) =>
        InsertRunAppends(t, NextSeq(t, stream), AppendEntries(stream, events), |events|);
      case ImportCall(list, _) =>
        ImportRunAppends(t, list, |list|);
    }
  }

  ghost predicate AnnouncesIssued(at: (Tables, Result<seq<Committed>>)) {
    at.1.Ok? ==> Highest(at.1.value) <= at.0.issued
  }

  lemma CallAnnouncesIssued(at: (Tables, Result<seq<Committed>>), call: Call)
    requires AnnouncesIssued(at)
    ensures AnnouncesIssued(CallAnother(at, call))
  {
    CallRaises(at.0, call);
    if at.1.Ok? && CallIn(at.0, call).1.Ok? {
      CallNames(at.0, call);
      HighestConcat(at.1.value, CallIn(at.0, call).1.value);
    }
  }

  /** Whatever a closure swallowed, nothing is announced that was not issued. */
  lemma {:induction false} ClosureAnnouncesIssued(t: Tables, calls: seq<Call>, k: nat)
    requires k <= |calls|
    ensures AnnouncesIssued(RunCalls(t, calls, k))
  {
    if k > 0 {
      ClosureAnnouncesIssued(t, calls, k - 1);
      CallAnnouncesIssued(RunCalls(t, calls, k - 1), calls[k - 1]);
    }
  }

  lemma AnnouncedIsIssued(t: Tables, w: Write)
    ensures Announced(t, w).Some? ==> Announced(t, w).value <= Exec(t, Commit(w)).issued
  {
    if WriteStep(t, w).Ok? {
      match w {
        case AppendOne(stream, event, clock) => AppendNames(t, stream, event, clock);
        case AppendBatch(stream, events) => CallNames(t, AppendCall(stream, events, false));
        case Decide(stream, kinds, decide, clock) =>
          var seen := ObjectsOf(SelectStream(t, stream, kinds, 0, U64_MAX));
          if decide(seen).Some? { AppendNames(t, stream, decide(seen).value, clock); }
        case Expecting(stream, _, event, clock) => AppendNames(t, stream, event, clock);
        case Closure(calls) => ClosureAnnouncesIssued(t, calls, |calls|);
      }
    }
  }
}
