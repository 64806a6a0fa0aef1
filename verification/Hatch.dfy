/** The transaction hatch and the one way it can break the history: a call that
    fails after it inserted rows, in a closure that goes on as if it had not. */
module Hatch {
  import opened Wrappers
  import opened Event
  import opened Rows
  import opened Database
  import opened Writes
  import opened History
  import opened Routes

  /** What a caller can check before a call: it would insert its first record and
      then stop, at a record it refuses or at the rowid ceiling. */
  predicate LeavesRows(t: Tables, call: Call) {
    match call
    case AppendCall(_, events, _) =>
      AllValid(events) && 0 < I64_MAX - t.issued < |events|
    case ImportCall(list, _) =>
      && list != [] && ValidStored(list[0].event) && t.issued < I64_MAX
      && !(AllStored(list) && |list| <= I64_MAX - t.issued)
  }

  // ---- what a call does to the tables --------------------------------------

  /** One row for each answer, and no table touched but the log's. */
  ghost predicate Appended(t: Tables, u: Tables, out: seq<Committed>) {
    OnlyAppends(t, u) && |Added(t, u)| == |out| && u.issued == t.issued + |out|
  }

  lemma InsertAppends(t: Tables, batch: Inserting, seqNo: nat, entry: Entry)
    requires Appended(t, batch.t, batch.out)
    ensures var after := InsertNext(batch, seqNo, entry); Appended(t, after.t, after.out)
  {}

  lemma {:induction false} InsertRunAppends(t: Tables, base: Counter, entries: seq<Entry>, k: nat)
    requires k <= |entries|
    ensures var batch := InsertRun(t, base, entries, k); Appended(t, batch.t, batch.out)
  {
    if k > 0 {
      var j, at := k - 1, base + k - 1;
      InsertRunAppends(t, base, entries, j);
      OneMoreInsert(t, base, entries, j, k, at);
      InsertAppends(t, InsertRun(t, base, entries, j), at, entries[j]);
    }
  }

  lemma RecordAppends(t: Tables, at: (Importing, Option<Error>), exported: Exported)
    requires Appended(t, at.0.t, at.0.out)
    ensures var after := ImportAnother(at, exported).0; Appended(t, after.t, after.out)
  {}

  lemma {:induction false} ImportRunAppends(t: Tables, list: seq<Exported>, k: nat)
    requires k <= |list|
    ensures var run := ImportRun(t, list, k).0; Appended(t, run.t, run.out)
  {
    if k > 0 {
      var j := k - 1;
      ImportRunAppends(t, list, j);
      OneMoreRecord(t, list, j, k);
      RecordAppends(t, ImportRun(t, list, j), list[j]);
    }
  }

  lemma {:induction false} InsertRunGrows(t: Tables, base: Counter, entries: seq<Entry>, j: nat, k: nat)
    requires j <= k <= |entries|
    ensures |InsertRun(t, base, entries, j).out| <= |InsertRun(t, base, entries, k).out|
  {
    if j < k { InsertRunGrows(t, base, entries, j, k - 1); }
  }

  lemma {:induction false} ImportRunGrows(t: Tables, list: seq<Exported>, j: nat, k: nat)
    requires j <= k <= |list|
    ensures |ImportRun(t, list, j).0.out| <= |ImportRun(t, list, k).0.out|
  {
    if j < k { ImportRunGrows(t, list, j, k - 1); }
  }

  lemma StampedAreWritten(stream: string, events: seq<(U64, Object)>)
    requires AllValid(events)
    ensures AllWritten(AppendEntries(stream, events))
  {
    forall i | 0 <= i < |events| ensures Written(AppendEntries(stream, events)[i].body) {
      assert events[i] in events;
      StampedBodyIs(events[i].1, 1, events[i].0);
    }
  }

  lemma RestampedAreWritten(list: seq<Exported>)
    requires AllStored(list)
    ensures AllWritten(ImportEntries(list))
  {
    forall i | 0 <= i < |list| ensures Written(ImportEntries(list)[i].body) {
      assert list[i] in list;
      RestampedBodyIs(list[i].event, 1);
    }
  }

  /** How a call ends: whole, with history kept; or refused, with its rows in and
      no counter moved, which leaves something exactly when the guard said so. */
  ghost predicate CallEnds(t: Tables, hist: seq<Row>, call: Call, left: (Tables, Result<seq<Committed>>)) {
    && OnlyAppends(t, left.0)
    && (left.1.Ok? ==> Inv(left.0, hist + Added(t, left.0)) && !LeavesRows(t, call))
    && (left.1.Err? ==>
          && left.0.counters == t.counters
          && (Added(t, left.0) != [] <==> LeavesRows(t, call))
          && (Added(t, left.0) == [] ==> left.0 == t))
  }

  lemma {:induction false} CeilingStopsInsert(t: Tables, base: Counter, entries: seq<Entry>, k: nat)
    requires k <= |entries| && t.issued >= I64_MAX
    ensures InsertRun(t, base, entries, k).out == []
  {
    if k > 0 {
      CeilingStopsInsert(t, base, entries, k - 1);
      InsertRunAppends(t, base, entries, k - 1);
    }
  }

  lemma FirstGoesIn(t: Tables, hist: seq<Row>, base: Counter, entries: seq<Entry>)
    requires Inv(t, hist) && entries != [] && base == NextSeq(t, entries[0].stream)
    ensures InsertRun(t, base, entries, |entries|).out != [] <==> t.issued < I64_MAX
  {
    if t.issued < I64_MAX {
      CounterIsFree(t, hist, entries[0].stream);
      InsertRunGrows(t, base, entries, 1, |entries|);
      assert InsertRun(t, base, entries, 0) == Inserting(t, [], None);
      assert InsertRun(t, base, entries, 1) == InsertNext(Inserting(t, [], None), base, entries[0]);
    } else {
      CeilingStopsInsert(t, base, entries, |entries|);
    }
  }

  /** Every run of writable entries is kept or does not fit. */
  lemma PutsEnd(t: Tables, hist: seq<Row>, entries: seq<Entry>, u: Tables)
    requires Inv(t, hist) && AllWritten(entries) && PutAll(t, entries) == Ok(u)
    ensures OnlyAppends(t, u) && Inv(u, hist + Added(t, u)) && |entries| <= I64_MAX - t.issued
  {
    PutAllKeeps(t, hist, entries);
  }

  lemma AppendEnds(t: Tables, hist: seq<Row>, stream: string, events: seq<(U64, Object)>, swallows: bool)
    requires Inv(t, hist)
    ensures CallEnds(t, hist, AppendCall(stream, events, swallows), AppendMany(t, stream, events))
  {
    var left := AppendMany(t, stream, events);
    if !AllValid(events) || events == [] {
      assert left.0 == t && Added(t, t) == [] && hist + [] == hist;
    } else {
      var entries := AppendEntries(stream, events);
      AppendManyIsPuts(t, stream, events);
      StampedAreWritten(stream, events);
      if left.1.Ok? {
        PutsEnd(t, hist, entries, left.0);
      } else {
        PutAllKeeps(t, hist, entries);
        assert |events| > I64_MAX - t.issued;
        InsertRunAppends(t, NextSeq(t, stream), entries, |events|);
        FirstGoesIn(t, hist, NextSeq(t, stream), entries);
        assert left.0 == InsertRun(t, NextSeq(t, stream), entries, |events|).t;
      }
    }
  }

  lemma FirstStepGoes(t: Tables, hist: seq<Row>, exported: Exported)
    requires Inv(t, hist)
    ensures var step := ImportStep(Importing(t, map[], []), exported);
      && (step.Ok? <==> ValidStored(exported.event) && t.issued < I64_MAX)
      && (step.Ok? ==> |step.value.out| == 1)
  {
    CounterIsFree(t, hist, exported.stream);
    if ValidStored(exported.event) {
      var seqNo := NextSeq(t, exported.stream);
      RestampedBodyIs(exported.event, seqNo);
      InsertStampedIs(t, exported.stream, Restamp(exported.event, seqNo).value, RestampedBody(exported.event));
    }
  }

  lemma FirstComesIn(t: Tables, hist: seq<Row>, list: seq<Exported>)
    requires Inv(t, hist) && list != []
    ensures ImportRun(t, list, |list|).0.out != [] <==> ValidStored(list[0].event) && t.issued < I64_MAX
  {
    var first := ImportRun(t, list, 1);
    assert ImportRun(t, list, 0) == (Importing(t, map[], []), None);
    assert first == ImportAnother((Importing(t, map[], []), None), list[0]);
    FirstStepGoes(t, hist, list[0]);
    ImportRunGrows(t, list, 1, |list|);
    if first.1.Some? { StoppedStays(t, list, 1, |list|); }
  }

  lemma ImportEnds(t: Tables, hist: seq<Row>, list: seq<Exported>, swallows: bool)
    requires Inv(t, hist)
    ensures CallEnds(t, hist, ImportCall(list, swallows), ImportMany(t, list))
  {
    var left := ImportMany(t, list);
    ImportManyIsPuts(t, list);
    if AllStored(list) {
      RestampedAreWritten(list);
      PutAllKeeps(t, hist, ImportEntries(list));
    }
    if left.1.Ok? {
      PutsEnd(t, hist, ImportEntries(list), left.0);
    } else {
      ImportRunAppends(t, list, |list|);
      FirstComesIn(t, hist, list);
      assert left.0 == ImportRun(t, list, |list|).0.t;
    }
  }

  // ---- what that does to the history ---------------------------------------

  lemma CounterTooLow(t: Tables, hist: seq<Row>, stream: string)
    requires NextSeq(t, stream) <= Count(hist, stream)
    ensures !CountersAgree(t, hist)
  {}

  /** Rows without their counter are not history any more. */
  lemma RowsWithoutCounter(t: Tables, hist: seq<Row>, u: Tables)
    requires Inv(t, hist) && OnlyAppends(t, u) && u.counters == t.counters && Added(t, u) != []
    ensures !Inv(u, hist + Added(t, u))
  {
    var grown, stream, n := hist + Added(t, u), Added(t, u)[0].stream, |hist|;
    assert NextSeq(u, stream) == NextSeq(t, stream) == Count(hist, stream) + 1;
    CountThrough(grown, n, stream);
    CountMonotone(grown, n + 1, stream);
    assert grown[..n] == hist && grown[n] == Added(t, u)[0];
    CounterTooLow(u, grown, stream);
  }

  lemma CallEndsOf(t: Tables, hist: seq<Row>, call: Call)
    requires Inv(t, hist)
    ensures CallEnds(t, hist, call, CallIn(t, call))
  {
    match call
    case AppendCall(stream, events, swallows) => AppendEnds(t, hist, stream, events, swallows);
    case ImportCall(list, swallows) => ImportEnds(t, hist, list, swallows);
  }

  /** One call keeps the history exactly when the guard says it leaves no rows. */
  lemma CallKeepsHistory(t: Tables, hist: seq<Row>, call: Call)
    requires Inv(t, hist)
    ensures var after := CallIn(t, call).0;
      Inv(after, hist + Added(t, after)) <==> !LeavesRows(t, call)
  {
    CallEndsOf(t, hist, call);
    var left := CallIn(t, call);
    if left.1.Err? {
      if LeavesRows(t, call) { RowsWithoutCounter(t, hist, left.0); } else { assert hist + [] == hist; }
    }
  }

  /** A stream whose next sequence number is already in the log. */
  predicate Stuck(t: Tables, stream: string) {
    Taken(t, stream, NextSeq(t, stream))
  }

  ghost predicate SomeStuck(t: Tables) {
    exists stream :: Stuck(t, stream)
  }

  lemma StuckIsNotHistory(t: Tables, hist: seq<Row>, stream: string)
    requires Stuck(t, stream)
    ensures !Inv(t, hist)
  {
    if Inv(t, hist) { CounterIsFree(t, hist, stream); }
  }

  lemma {:induction false} FirstInserted(t: Tables, base: Counter, entries: seq<Entry>, k: nat)
    requires k <= |entries|
    ensures var batch := InsertRun(t, base, entries, k);
      batch.out != [] ==>
        && Added(t, batch.t) != []
        && Added(t, batch.t)[0].stream == entries[0].stream && Added(t, batch.t)[0].seqNo == base
  {
    if k > 0 {
      FirstInserted(t, base, entries, k - 1);
      InsertRunAppends(t, base, entries, k - 1);
      InsertRunAppends(t, base, entries, k);
      var before, batch := InsertRun(t, base, entries, k - 1), InsertRun(t, base, entries, k);
      assert Added(t, before.t) <= Added(t, batch.t);
    }
  }

  lemma FirstStep(t: Tables, exported: Exported)
    ensures var step := ImportStep(Importing(t, map[], []), exported);
      step.Ok? ==>
        && OnlyAppends(t, step.value.t) && |Added(t, step.value.t)| == 1
        && Added(t, step.value.t)[0].stream == exported.stream
        && Added(t, step.value.t)[0].seqNo == NextSeq(t, exported.stream)
  {
    if ValidStored(exported.event) { RestampIsStored(exported.event, NextSeq(t, exported.stream)); }
  }

  lemma {:induction false} FirstImported(t: Tables, list: seq<Exported>, k: nat)
    requires k <= |list|
    ensures var run := ImportRun(t, list, k).0;
      run.out != [] ==>
        && Added(t, run.t) != []
        && Added(t, run.t)[0].stream == list[0].stream
        && Added(t, run.t)[0].seqNo == NextSeq(t, list[0].stream)
  {
    if k == 1 {
      assert ImportRun(t, list, 0) == (Importing(t, map[], []), None);
      FirstStep(t, list[0]);
    } else if k > 1 {
      FirstImported(t, list, k - 1);
      ImportRunAppends(t, list, k - 1);
      var before, run := ImportRun(t, list, k - 1), ImportRun(t, list, k).0;
      if before.0.out == [] {
        FirstOrNone(t, list, k - 1);
        assert run == before.0;
      } else {
        StepKeepsRows(before, list[k - 1]);
        assert Added(t, before.0.t) <= Added(t, run.t);
      }
    }
  }

  lemma StepKeepsRows(at: (Importing, Option<Error>), exported: Exported)
    ensures at.0.t.events <= ImportAnother(at, exported).0.t.events
  {}

  lemma {:induction false} FirstOrNone(t: Tables, list: seq<Exported>, k: nat)
    requires 1 <= k <= |list| && ImportRun(t, list, k).0.out == []
    ensures ImportRun(t, list, k).1.Some?
  {
    if k > 1 && ImportRun(t, list, k - 1).1.None? {
      ImportRunGrows(t, list, k - 1, k);
      FirstOrNone(t, list, k - 1);
    }
  }

  lemma LeftRowsStick(t: Tables, hist: seq<Row>, call: Call)
    requires Inv(t, hist) && LeavesRows(t, call)
    ensures SomeStuck(CallIn(t, call).0)
  {
    CallEndsOf(t, hist, call);
    var after := CallIn(t, call).0;
    assert CallIn(t, call).1.Err?;
    var rows := Added(t, after);
    match call {
      case AppendCall(stream, events, _) =>
        FirstInserted(t, NextSeq(t, stream), AppendEntries(stream, events), |events|);
        InsertRunAppends(t, NextSeq(t, stream), AppendEntries(stream, events), |events|);
      case ImportCall(list, _) =>
        FirstImported(t, list, |list|);
        ImportRunAppends(t, list, |list|);
    }
    assert rows[0] in after.events;
    assert Stuck(after, rows[0].stream);
  }

  /** An import does not reach the stream, and leaves it stuck. */
  ghost predicate StuckOutside(run: Importing, stream: string) {
    Stuck(run.t, stream) && stream !in run.next
  }

  lemma RecordStuckOutside(at: (Importing, Option<Error>), exported: Exported, stream: string)
    requires StuckOutside(at.0, stream)
    ensures StuckOutside(ImportAnother(at, exported).0, stream)
  {
    var run := at.0;
    assert Taken(run.t, stream, NextSeq(run.t, stream));
    if ValidStored(exported.event) { RestampIsStored(exported.event, CachedNext(run, exported.stream)); }
  }

  lemma {:induction false} StuckOutsideRun(t: Tables, list: seq<Exported>, k: nat, stream: string)
    requires Stuck(t, stream) && k <= |list|
    ensures StuckOutside(ImportRun(t, list, k).0, stream)
  {
    if k > 0 {
      var j := k - 1;
      StuckOutsideRun(t, list, j, stream);
      OneMoreRecord(t, list, j, k);
      RecordStuckOutside(ImportRun(t, list, j), list[j], stream);
    }
  }

  /** Nothing a closure can still do unsticks it: every append to the stream, and
      every import that reaches it, is refused. */
  lemma StuckStays(t: Tables, call: Call, stream: string)
    requires Stuck(t, stream)
    ensures Stuck(CallIn(t, call).0, stream)
    ensures call.AppendCall? && call.stream == stream && call.events != [] ==> CallIn(t, call).1.Err?
  {
    match call {
      case AppendCall(other, events, _) =>
        if AllValid(events) && events != [] {
          var entries := AppendEntries(other, events);
          InsertRunAppends(t, NextSeq(t, other), entries, |events|);
          if other == stream {
            FirstRefused(t, NextSeq(t, other), entries, |events|);
          }
        }
      case ImportCall(list, _) =>
        ImportRunAppends(t, list, |list|);
        StuckOutsideRun(t, list, |list|, stream);
    }
  }

  lemma {:induction false} FirstRefused(t: Tables, base: Counter, entries: seq<Entry>, k: nat)
    requires 1 <= k <= |entries| && Taken(t, entries[0].stream, base)
    ensures InsertRun(t, base, entries, k).stopped.Some?
  {
    if k > 1 { FirstRefused(t, base, entries, k - 1); } else {
      assert InsertRun(t, base, entries, 0) == Inserting(t, [], None);
    }
  }

  /** A closure breaks the history when it swallows the error of a call that left
      rows: the guard is `LeavesRows`, at the state the call is made in. */
  ghost predicate Breaks(t: Tables, calls: seq<Call>, k: nat)
    requires k <= |calls|
  {
    exists i :: 0 <= i < k && BreaksAt(t, calls, i)
  }

  predicate BreaksAt(t: Tables, calls: seq<Call>, i: nat)
    requires i < |calls|
  {
    RunCalls(t, calls, i).1.Ok? && calls[i].swallows && LeavesRows(RunCalls(t, calls, i).0, calls[i])
  }

  lemma StillStuck(t: Tables, call: Call)
    requires SomeStuck(t)
    ensures SomeStuck(CallIn(t, call).0)
  {
    var stream :| Stuck(t, stream);
    StuckStays(t, call, stream);
  }

  /** One more call on a state whose history is kept, however the call went. */
  lemma KeptStep(t: Tables, hist: seq<Row>, at: Tables, call: Call, left: (Tables, Result<seq<Committed>>))
    requires OnlyAppends(t, at) && Inv(at, hist + Added(t, at))
    requires CallEnds(at, hist + Added(t, at), call, left)
    ensures OnlyAppends(t, left.0)
    ensures !LeavesRows(at, call) ==> Inv(left.0, hist + Added(t, left.0))
  {
    var grown := hist + Added(t, at);
    AddedConcat(t, at, left.0);
    assert grown + Added(at, left.0) == hist + Added(t, left.0);
    assert grown + [] == grown;
  }

  /** Where a closure goes from one call to the next without ending. */
  lemma CallGoesOn(t: Tables, calls: seq<Call>, j: nat, k: nat)
    requires j < |calls| && k == j + 1 && RunCalls(t, calls, k).1.Ok?
    ensures RunCalls(t, calls, j).1.Ok?
    ensures RunCalls(t, calls, k).0 == CallIn(RunCalls(t, calls, j).0, calls[j]).0
    ensures CallIn(RunCalls(t, calls, j).0, calls[j]).1.Ok? || calls[j].swallows
  {}

  lemma BreaksSoFar(t: Tables, calls: seq<Call>, j: nat, k: nat)
    requires j < |calls| && k == j + 1
    ensures Breaks(t, calls, k) <==> Breaks(t, calls, j) || BreaksAt(t, calls, j)
  {
    if Breaks(t, calls, j) {
      var i :| 0 <= i < j && BreaksAt(t, calls, i);
      assert Breaks(t, calls, k);
    }
  }

  /** The state a closure has reached: its history kept, or some stream stuck. */
  ghost predicate Stands(t: Tables, hist: seq<Row>, at: Tables, broken: bool) {
    if broken then SomeStuck(at) else OnlyAppends(t, at) && Inv(at, hist + Added(t, at))
  }

  lemma StandsOn(t: Tables, hist: seq<Row>, at: Tables, broken: bool, call: Call)
    requires Stands(t, hist, at, broken)
    requires CallIn(at, call).1.Ok? || call.swallows
    ensures Stands(t, hist, CallIn(at, call).0, broken || (call.swallows && LeavesRows(at, call)))
  {
    if broken {
      StillStuck(at, call);
    } else {
      var grown := hist + Added(t, at);
      CallEndsOf(at, grown, call);
      if LeavesRows(at, call) {
        LeftRowsStick(at, grown, call);
      } else {
        KeptStep(t, hist, at, call, CallIn(at, call));
      }
    }
  }

  lemma {:induction false} ClosureHolds(t: Tables, hist: seq<Row>, calls: seq<Call>, k: nat)
    requires Inv(t, hist) && k <= |calls| && RunCalls(t, calls, k).1.Ok?
    ensures Stands(t, hist, RunCalls(t, calls, k).0, Breaks(t, calls, k))
  {
    if k == 0 {
      assert hist + [] == hist;
    } else {
      var j := k - 1;
      CallGoesOn(t, calls, j, k);
      ClosureHolds(t, hist, calls, j);
      BreaksSoFar(t, calls, j, k);
      StandsOn(t, hist, RunCalls(t, calls, j).0, Breaks(t, calls, j), calls[j]);
    }
  }

  /** A committed transaction keeps the history if and only if its closure
      swallowed no error of a call that left rows. */
  lemma TransactionKeepsHistory(t: Tables, hist: seq<Row>, calls: seq<Call>)
    requires Inv(t, hist) && Transaction(t, calls).Ok?
    ensures var after := Transaction(t, calls).value.0;
      Inv(after, hist + Added(t, after)) <==> !Breaks(t, calls, |calls|)
    ensures !Breaks(t, calls, |calls|) ==> OnlyAppends(t, Transaction(t, calls).value.0)
  {
    ClosureHolds(t, hist, calls, |calls|);
    var after := Transaction(t, calls).value.0;
    if Breaks(t, calls, |calls|) {
      var stream :| Stuck(after, stream);
      StuckIsNotHistory(after, hist + Added(t, after), stream);
    }
  }
}
