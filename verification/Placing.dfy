/** Every write appends in place, also one that failed half way inside a
    transaction that went on: the positions a commit hands out never depend on
    what a closure made of its errors. */
module Placing {
  import opened Wrappers
  import opened Event
  import opened Rows
  import opened Database
  import opened Writes
  import opened History
  import opened Routes
  import opened Hatch

  lemma NothingAdded(t: Tables)
    ensures InPlace(t, t)
  {}

  // ---- the two batches -----------------------------------------------------

  lemma NextInsertInPlace(t: Tables, batch: Inserting, seqNo: nat, entry: Entry)
    requires InPlace(t, batch.t) && Written(entry.body)
    ensures InPlace(t, InsertNext(batch, seqNo, entry).t)
  {
    if batch.stopped.None? && Insert(batch.t, entry.stream, seqNo, entry.body).Ok? {
      InsertInPlace(batch.t, entry.stream, seqNo, entry.body);
      InPlaceConcat(t, batch.t, Insert(batch.t, entry.stream, seqNo, entry.body).value);
    }
  }

  lemma {:induction false} InsertRunInPlace(t: Tables, base: Counter, entries: seq<Entry>, k: nat)
    requires AllWritten(entries) && k <= |entries|
    ensures InPlace(t, InsertRun(t, base, entries, k).t)
  {
    if k == 0 {
      NothingAdded(t);
    } else {
      var j, at := k - 1, base + k - 1;
      InsertRunInPlace(t, base, entries, j);
      assert entries[j] in entries;
      OneMoreInsert(t, base, entries, j, k, at);
      NextInsertInPlace(t, InsertRun(t, base, entries, j), at, entries[j]);
    }
  }

  lemma ImportStepInPlace(run: Importing, exported: Exported)
    requires ImportStep(run, exported).Ok?
    ensures InPlace(run.t, ImportStep(run, exported).value.t)
  {
    var seqNo, body := CachedNext(run, exported.stream), RestampedBody(exported.event);
    RestampedBodyIs(exported.event, seqNo);
    InsertStampedIs(run.t, exported.stream, Restamp(exported.event, seqNo).value, body);
    InsertInPlace(run.t, exported.stream, seqNo, body);
  }

  lemma NextImportInPlace(t: Tables, at: (Importing, Option<Error>), exported: Exported)
    requires InPlace(t, at.0.t)
    ensures InPlace(t, ImportAnother(at, exported).0.t)
  {
    if at.1.None? && ImportStep(at.0, exported).Ok? {
      ImportStepInPlace(at.0, exported);
      InPlaceConcat(t, at.0.t, ImportStep(at.0, exported).value.t);
    }
  }

  lemma {:induction false} ImportRunInPlace(t: Tables, list: seq<Exported>, k: nat)
    requires k <= |list|
    ensures InPlace(t, ImportRun(t, list, k).0.t)
  {
    if k == 0 {
      NothingAdded(t);
    } else {
      ImportRunInPlace(t, list, k - 1);
      NextImportInPlace(t, ImportRun(t, list, k - 1), list[k - 1]);
    }
  }

  // ---- calls and closures --------------------------------------------------

  lemma CountersAside(t: Tables, u: Tables, v: Tables)
    requires InPlace(t, u) && v == u.(counters := v.counters)
    ensures InPlace(t, v)
  {}

  /** Whatever a call returns, what it left is appended in place. */
  lemma CallInPlace(t: Tables, call: Call)
    ensures InPlace(t, CallIn(t, call).0)
  {
    NothingAdded(t);
    var after := CallIn(t, call).0;
    match call {
      case AppendCall(stream, events, _) =>
        if AllValid(events) {
          var base, entries := NextSeq(t, stream), AppendEntries(stream, events);
          StampedAreWritten(stream, events);
          InsertRunInPlace(t, base, entries, |events|);
          if events != [] { CountersAside(t, InsertRun(t, base, entries, |events|).t, after); }
        }
      case ImportCall(list, _) =>
        ImportRunInPlace(t, list, |list|);
        CountersAside(t, ImportRun(t, list, |list|).0.t, after);
    }
  }

  lemma {:induction false} CallsInPlace(t: Tables, calls: seq<Call>, k: nat)
    requires k <= |calls|
    ensures InPlace(t, RunCalls(t, calls, k).0)
  {
    if k == 0 {
      NothingAdded(t);
    } else {
      CallsInPlace(t, calls, k - 1);
      var before := RunCalls(t, calls, k - 1).0;
      CallInPlace(before, calls[k - 1]);
      InPlaceConcat(t, before, CallIn(before, calls[k - 1]).0);
    }
  }

  lemma AppendInPlace(t: Tables, stream: string, event: Object, clock: U64)
    ensures Append(t, stream, event, clock).Ok? ==> InPlace(t, Append(t, stream, event, clock).value.0)
  {
    if Append(t, stream, event, clock).Ok? {
      var seqNo, body := NextSeq(t, stream), StampedBody(event, clock);
      AppendIsPut(t, stream, event, clock);
      StampedBodyIs(event, 1, clock);
      InsertInPlace(t, stream, seqNo, body);
      CountersAside(t, Insert(t, stream, seqNo, body).value, Append(t, stream, event, clock).value.0);
    }
  }
}
