/** What holds between any two moments of a log, whatever its writers do:
    positions only rise, and a row seen once is either still there or gone. */
module Growth {
  import opened Wrappers
  import opened Event
  import opened Rows
  import opened Database
  import opened Writes

  /** The rows stand in position order, at or below the last position issued. */
  ghost predicate Ordinary(t: Tables) {
    Sorted(t.events) && forall r <- t.events :: 1 <= r.position <= t.issued
  }

  /** A later state has no row the earlier one lacks at a position the earlier one
      had already issued. */
  ghost predicate Grows(t: Tables, u: Tables) {
    t.issued <= u.issued && forall r <- u.events :: r in t.events || r.position > t.issued
  }

  lemma GrowsOn(t: Tables, u: Tables, v: Tables)
    requires Grows(t, u) && Grows(u, v)
    ensures Grows(t, v)
  {}

  ghost predicate GrowsTo(t: Tables, u: Tables) {
    Grows(t, u) && Ordinary(u)
  }

  lemma InsertGrows(t: Tables, stream: string, seqNo: nat, body: Body)
    requires Ordinary(t) && Insert(t, stream, seqNo, body).Ok?
    ensures GrowsTo(t, Insert(t, stream, seqNo, body).value)
  {}

  /** The states a log passes through, one per transaction: each has grown from
      every one before it. */
  ghost predicate Growing(log: seq<Tables>) {
    forall i, j :: 0 <= i <= j < |log| ==> GrowsTo(log[i], log[j])
  }

  /** Tables that hold the same rows grow alike. */
  lemma SameRowsGrow(t: Tables, u: Tables, v: Tables)
    requires GrowsTo(t, u) && v.events == u.events && v.issued == u.issued
    ensures GrowsTo(t, v)
  {}

  lemma {:induction false} InsertRunRises(t: Tables, base: Counter, entries: seq<Entry>, k: nat)
    requires Ordinary(t) && k <= |entries|
    ensures GrowsTo(t, InsertRun(t, base, entries, k).t)
  {
    if k > 0 {
      InsertRunRises(t, base, entries, k - 1);
      var batch, entry := InsertRun(t, base, entries, k - 1), entries[k - 1];
      if batch.stopped.None? && Insert(batch.t, entry.stream, base + k - 1, entry.body).Ok? {
        InsertGrows(batch.t, entry.stream, base + k - 1, entry.body);
        GrowsOn(t, batch.t, InsertRun(t, base, entries, k).t);
      }
    }
  }

  lemma InsertStampedGrows(t: Tables, stream: string, event: Object)
    requires Ordinary(t) && InsertStamped(t, stream, event).Ok?
    ensures GrowsTo(t, InsertStamped(t, stream, event).value.0)
  {
    InsertGrows(t, stream, event[SEQ].n, BodyOf(event).value);
  }

  lemma {:induction false} ImportRunRises(t: Tables, list: seq<Exported>, k: nat)
    requires Ordinary(t) && k <= |list|
    ensures GrowsTo(t, ImportRun(t, list, k).0.t)
  {
    if k > 0 {
      ImportRunRises(t, list, k - 1);
      var (run, stopped) := ImportRun(t, list, k - 1);
      if stopped.None? && ImportStep(run, list[k - 1]).Ok? {
        var seqNo := CachedNext(run, list[k - 1].stream);
        InsertStampedGrows(run.t, list[k - 1].stream, Restamp(list[k - 1].event, seqNo).value);
        GrowsOn(t, run.t, ImportRun(t, list, k).0.t);
      }
    }
  }

  lemma CallGrows(t: Tables, call: Call)
    requires Ordinary(t)
    ensures GrowsTo(t, CallIn(t, call).0)
  {
    match call {
      case AppendCall(stream, events, _) =>
        InsertRunRises(t, NextSeq(t, stream), AppendEntries(stream, events), |events|);
      case ImportCall(list, _) =>
        ImportRunRises(t, list, |list|);
    }
  }

  lemma {:induction false} CallsGrow(t: Tables, calls: seq<Call>, k: nat)
    requires Ordinary(t) && k <= |calls|
    ensures GrowsTo(t, RunCalls(t, calls, k).0)
  {
    if k > 0 {
      CallsGrow(t, calls, k - 1);
      CallGrows(RunCalls(t, calls, k - 1).0, calls[k - 1]);
      GrowsOn(t, RunCalls(t, calls, k - 1).0, RunCalls(t, calls, k).0);
    }
  }
}
