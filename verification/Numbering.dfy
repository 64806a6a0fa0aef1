/** Sequence numbers where closures may swallow errors. A stream's counter can lag
    behind its rows, but then the row it points at refuses every insert: as long as
    nothing was removed below it, every live row carries its stream's next number. */
module Numbering {
  import opened Wrappers
  import opened Event
  import opened Rows
  import opened Database
  import opened Writes
  import opened History
  import opened Routes
  import opened Hatch
  import opened World

  ghost predicate CountersLag(t: Tables, rows: seq<Row>) {
    forall stream :: NextSeq(t, stream) <= Count(rows, stream) + 1
  }

  /** Rows numbered as they should be, under counters that may lag. */
  ghost predicate Lagging(t: Tables) { Numbered(t.events) && CountersLag(t, t.events) }

  // ---- inserts -------------------------------------------------------------

  lemma CountOneMore(rows: seq<Row>, row: Row, stream: string)
    ensures Count(rows + [row], stream) == Count(rows, stream) + (if row.stream == stream then 1 else 0)
  {
    assert (rows + [row])[..|rows|] == rows;
  }

  /** An insert at a number not past the next one goes in only at the next one. */
  lemma GoesInAtNext(t: Tables, stream: string, seqNo: nat, body: Body)
    requires Numbered(t.events) && 1 <= seqNo <= Count(t.events, stream) + 1
    requires Insert(t, stream, seqNo, body).Ok?
    ensures seqNo == Count(t.events, stream) + 1
  {
    if seqNo <= Count(t.events, stream) {
      assert t.events[..|t.events|] == t.events;
      NumberIsIssued(t.events, |t.events|, stream, seqNo);
    }
  }

  lemma RowCounts(t: Tables, row: Row, u: Tables)
    requires CountersLag(t, t.events) && u.events == t.events + [row] && u.counters == t.counters
    ensures CountersLag(u, u.events)
    ensures Count(u.events, row.stream) == Count(t.events, row.stream) + 1
    ensures forall s :: Count(u.events, s) >= Count(t.events, s)
  {
    forall s ensures Count(u.events, s) == Count(t.events, s) + if s == row.stream then 1 else 0 {
      CountOneMore(t.events, row, s);
    }
    forall s ensures NextSeq(u, s) <= Count(u.events, s) + 1 { assert NextSeq(t, s) <= Count(t.events, s) + 1; }
  }

  lemma InsertLags(t: Tables, stream: string, seqNo: nat, body: Body, u: Tables)
    requires Lagging(t) && 1 <= seqNo <= Count(t.events, stream) + 1
    requires Insert(t, stream, seqNo, body) == Ok(u)
    ensures Lagging(u) && seqNo <= Count(u.events, stream)
    ensures forall s :: Count(u.events, s) >= Count(t.events, s)
  {
    var row := Row(t.issued + 1, stream, seqNo, body);
    GoesInAtNext(t, stream, seqNo, body);
    NumberedGrows(t.events, row);
    RowCounts(t, row, u);
  }

  lemma CounterSet(t: Tables, stream: string, n: Counter)
    requires Lagging(t) && n <= Count(t.events, stream) + 1
    ensures Lagging(SetNextSeq(t, stream, n))
  {
    var u := SetNextSeq(t, stream, n);
    forall s ensures NextSeq(u, s) <= Count(t.events, s) + 1 { assert NextSeq(t, s) <= Count(t.events, s) + 1; }
  }

  lemma PutIsInsert(t: Tables, stream: string, body: Body, n: Counter, u: Tables)
    requires n == NextSeq(t, stream) && Insert(t, stream, n, body) == Ok(u)
    ensures n <= I64_MAX && Put(t, stream, body) == Ok(SetNextSeq(u, stream, n + 1))
  {}

  lemma PutLags(t: Tables, stream: string, body: Body)
    requires Lagging(t) && Put(t, stream, body).Ok?
    ensures Lagging(Put(t, stream, body).value)
  {
    var n := NextSeq(t, stream);
    var u := Insert(t, stream, n, body).value;
    assert n <= Count(t.events, stream) + 1;
    PutIsInsert(t, stream, body, n, u);
    InsertLags(t, stream, n, body, u);
    CounterSet(u, stream, n + 1);
  }

  // ---- the two batches -----------------------------------------------------

  ghost predicate BatchLags(batch: Inserting, stream: string, next: nat) {
    Lagging(batch.t) && 1 <= next <= Count(batch.t.events, stream) + 1
  }

  lemma NextInsertLags(batch: Inserting, stream: string, seqNo: nat, entry: Entry, next: nat)
    requires BatchLags(batch, stream, seqNo) && entry.stream == stream && next == seqNo + 1
    ensures var after := InsertNext(batch, seqNo, entry);
      BatchLags(after, stream, seqNo) && (after.stopped.None? ==> BatchLags(after, stream, next))
  {
    if batch.stopped.None? && Insert(batch.t, stream, seqNo, entry.body).Ok? {
      InsertLags(batch.t, stream, seqNo, entry.body, Insert(batch.t, stream, seqNo, entry.body).value);
    }
  }

  /** What `k` inserts of one stream leave. */
  ghost predicate RunOfInserts(batch: Inserting, stream: string, next: nat) {
    Lagging(batch.t) && (batch.stopped.None? ==> BatchLags(batch, stream, next))
  }

  lemma InsertRunGoesOn(t: Tables, base: Counter, entries: seq<Entry>, j: nat, k: nat, stream: string, at: nat, next: nat)
    requires k == j + 1 <= |entries| && entries[j].stream == stream && at == base + j && next == at + 1
    requires RunOfInserts(InsertRun(t, base, entries, j), stream, at)
    ensures RunOfInserts(InsertRun(t, base, entries, k), stream, next)
  {
    var batch := InsertRun(t, base, entries, j);
    OneMoreInsert(t, base, entries, j, k, at);
    if batch.stopped.None? { NextInsertLags(batch, stream, at, entries[j], next); }
  }

  lemma {:induction false} InsertRunLags(t: Tables, base: Counter, stream: string, entries: seq<Entry>, k: nat, next: nat)
    requires Lagging(t) && forall i :: 0 <= i < |entries| ==> entries[i].stream == stream
    requires base == NextSeq(t, stream) && k <= |entries| && next == base + k
    ensures RunOfInserts(InsertRun(t, base, entries, k), stream, next)
  {
    if k == 0 {
      assert NextSeq(t, stream) <= Count(t.events, stream) + 1;
    } else {
      var j, at := k - 1, next - 1;
      InsertRunLags(t, base, stream, entries, j, at);
      InsertRunGoesOn(t, base, entries, j, k, stream, at, next);
    }
  }

  /** The cached counters of an import lag as stored ones do. */
  ghost predicate RunLags(run: Importing) {
    Lagging(run.t) && forall stream <- run.next :: run.next[stream] <= Count(run.t.events, stream) + 1
  }

  lemma ImportStepLags(run: Importing, exported: Exported)
    requires RunLags(run) && ImportStep(run, exported).Ok?
    ensures RunLags(ImportStep(run, exported).value)
  {
    var stream, seqNo, body := exported.stream, CachedNext(run, exported.stream), RestampedBody(exported.event);
    RestampedBodyIs(exported.event, seqNo);
    InsertStampedIs(run.t, stream, Restamp(exported.event, seqNo).value, body);
    assert NextSeq(run.t, stream) <= Count(run.t.events, stream) + 1;
    InsertLags(run.t, stream, seqNo, body, ImportStep(run, exported).value.t);
  }

  lemma {:induction false} ImportRunLags(t: Tables, list: seq<Exported>, k: nat)
    requires Lagging(t) && k <= |list|
    ensures RunLags(ImportRun(t, list, k).0)
  {
    if k > 0 {
      ImportRunLags(t, list, k - 1);
      var at := ImportRun(t, list, k - 1);
      if at.1.None? && ImportStep(at.0, list[k - 1]).Ok? { ImportStepLags(at.0, list[k - 1]); }
    }
  }

  lemma FlushLags(run: Importing)
    requires RunLags(run)
    ensures Lagging(FlushCounters(run))
  {
    var u := FlushCounters(run);
    forall s ensures NextSeq(u, s) <= Count(u.events, s) + 1 {
      assert NextSeq(run.t, s) <= Count(run.t.events, s) + 1;
    }
  }

  // ---- calls, closures, commits --------------------------------------------

  lemma AppendManyLags(t: Tables, stream: string, events: seq<(U64, Object)>)
    requires Lagging(t)
    ensures Lagging(AppendMany(t, stream, events).0)
  {
    if AllValid(events) && events != [] {
      var base, entries := NextSeq(t, stream), AppendEntries(stream, events);
      var next := base + |entries|;
      InsertRunLags(t, base, stream, entries, |entries|, next);
      var batch := InsertRun(t, base, entries, |events|);
      if batch.stopped.None? { CounterSet(batch.t, stream, next); }
    }
  }

  lemma CallLags(t: Tables, call: Call)
    requires Lagging(t)
    ensures Lagging(CallIn(t, call).0)
  {
    match call {
      case AppendCall(stream, events, _) => AppendManyLags(t, stream, events);
      case ImportCall(list, _) =>
        ImportRunLags(t, list, |list|);
        FlushLags(ImportRun(t, list, |list|).0);
    }
  }

  lemma {:induction false} CallsLag(t: Tables, calls: seq<Call>, k: nat)
    requires Lagging(t) && k <= |calls|
    ensures Lagging(RunCalls(t, calls, k).0)
  {
    if k > 0 {
      CallsLag(t, calls, k - 1);
      CallLags(RunCalls(t, calls, k - 1).0, calls[k - 1]);
    }
  }

  lemma AppendLags(t: Tables, stream: string, event: Object, clock: U64)
    requires Lagging(t)
    ensures Append(t, stream, event, clock).Ok? ==> Lagging(Append(t, stream, event, clock).value.0)
  {
    AppendIsPut(t, stream, event, clock);
    if Append(t, stream, event, clock).Ok? { PutLags(t, stream, StampedBody(event, clock)); }
  }

  lemma CommitLags(t: Tables, write: Write)
    requires Lagging(t)
    ensures Lagging(Exec(t, Commit(write)))
  {
    match write {
      case AppendOne(stream, event, clock) => AppendLags(t, stream, event, clock);
      case AppendBatch(stream, events) => AppendManyLags(t, stream, events);
      case Decide(stream, kinds, decide, clock) =>
        var seen := ObjectsOf(SelectStream(t, stream, kinds, 0, U64_MAX));
        if decide(seen).Some? { AppendLags(t, stream, decide(seen).value, clock); }
      case Expecting(stream, _, event, clock) => AppendLags(t, stream, event, clock);
      case Closure(calls) => CallsLag(t, calls, |calls|);
    }
  }

  // ---- runs ----------------------------------------------------------------

  /** The first `n` rows ever committed are all there. */
  ghost predicate FrontIsLive(w: World, n: nat)
    requires n <= |w.hist|
  {
    forall i :: 0 <= i < n ==> w.hist[i] in w.t.events
  }

  ghost predicate FrontNumbered(w: World, n: nat)
    requires n <= |w.hist|
  {
    FrontIsLive(w, n) ==> Numbered(w.hist[..n])
  }

  /** What a swallowed error cannot take away. */
  ghost predicate NumbersHold(w: World) {
    && (forall n :: 0 <= n <= |w.hist| ==> FrontNumbered(w, n))
    && (FrontIsLive(w, |w.hist|) ==> CountersLag(w.t, w.hist))
  }

  lemma WholeIsHistory(w: World)
    requires LogHolds(w) && FrontIsLive(w, |w.hist|)
    ensures w.t.events == w.hist
  {
    SortedUnique(w.t.events, w.hist);
  }

  lemma NumberedFront(rows: seq<Row>, n: nat)
    requires Numbered(rows) && n <= |rows|
    ensures Numbered(rows[..n])
  {
    forall i | 0 <= i < n ensures NumberedAt(rows[..n], i) {
      assert NumberedAt(rows, i) && rows[..n][..i] == rows[..i];
    }
  }

  /** A front that is live after a commit was live before it. */
  lemma FrontWasLive(w: World, u: World, n: nat)
    requires LogHolds(w) && InPlace(w.t, u.t) && u.hist == w.hist + Added(w.t, u.t)
    requires n <= |w.hist| && FrontIsLive(u, n)
    ensures FrontIsLive(w, n)
  {
    forall i | 0 <= i < n ensures w.hist[i] in w.t.events {
      var r := w.hist[i];
      assert u.hist[i] == r && r in u.t.events;
      assert u.t.events == w.t.events + Added(w.t, u.t);
      if r in Added(w.t, u.t) { FoundInPlace(w.hist, Added(w.t, u.t), r); }
    }
  }

  /** A log nothing was removed from is its history, under counters that lag. */
  lemma WholeLags(w: World)
    requires LogHolds(w) && NumbersHold(w) && FrontIsLive(w, |w.hist|)
    ensures w.t.events == w.hist && Lagging(w.t)
  {
    WholeIsHistory(w);
    assert FrontNumbered(w, |w.hist|) && w.hist[..|w.hist|] == w.hist;
  }

  /** It stays so. */
  lemma WholeCommit(w: World, u: World, write: Write)
    requires LogHolds(w) && NumbersHold(w) && FrontIsLive(w, |w.hist|) && u == Then(w, Commit(write))
    ensures u.hist == u.t.events && Lagging(u.t)
  {
    WholeLags(w);
    CommitAppends(w.t, write);
    AddedJoins(w.t, u.t);
    CommitLags(w.t, write);
  }

  lemma FrontKept(w: World, u: World, write: Write, n: nat)
    requires LogHolds(w) && NumbersHold(w) && u == Then(w, Commit(write)) && n <= |u.hist|
    ensures FrontNumbered(u, n)
  {
    CommitAppends(w.t, write);
    if FrontIsLive(u, n) {
      if n <= |w.hist| {
        FrontWasLive(w, u, n);
        assert FrontNumbered(w, n) && u.hist[..n] == w.hist[..n];
      } else {
        assert FrontIsLive(u, |w.hist|);
        FrontWasLive(w, u, |w.hist|);
        WholeCommit(w, u, write);
        NumberedFront(u.hist, n);
      }
    }
  }

  lemma CommitKeepsNumbers(w: World, write: Write)
    requires LogHolds(w) && NumbersHold(w)
    ensures NumbersHold(Then(w, Commit(write)))
  {
    var u := Then(w, Commit(write));
    forall n | 0 <= n <= |u.hist| ensures FrontNumbered(u, n) { FrontKept(w, u, write, n); }
    if FrontIsLive(u, |u.hist|) {
      assert FrontIsLive(u, |w.hist|);
      CommitAppends(w.t, write);
      FrontWasLive(w, u, |w.hist|);
      WholeCommit(w, u, write);
    }
  }

  lemma OtherKeepsNumbers(w: World, op: Op)
    requires NumbersHold(w) && !op.Commit?
    ensures NumbersHold(Then(w, op))
  {
    var u := Then(w, op);
    CountersUntouched(w.t, op);
    forall r | r in u.t.events ensures r in w.t.events {
      if op.Retain? { RemovalIs(w.t, op.plan, op.guard, op.archived); } else { OtherOpsKeepLog(w.t, op); }
    }
    forall n | 0 <= n <= |u.hist| ensures FrontNumbered(u, n) {
      if FrontIsLive(u, n) { assert FrontIsLive(w, n) && FrontNumbered(w, n); }
    }
    if FrontIsLive(u, |u.hist|) {
      assert FrontIsLive(w, |w.hist|);
      forall s ensures NextSeq(u.t, s) <= Count(u.hist, s) + 1 { assert NextSeq(w.t, s) <= Count(w.hist, s) + 1; }
    }
  }

  lemma NextNumbersHold(ops: seq<Op>, j: nat, k: nat)
    requires k == j + 1 <= |ops| && NumbersHold(Run(Fresh, ops, j))
    ensures NumbersHold(Run(Fresh, ops, k))
  {
    LogAlwaysHolds(ops, j);
    RunNext(Fresh, ops, j, k);
    if ops[j].Commit? {
      CommitKeepsNumbers(Run(Fresh, ops, j), ops[j].write);
    } else {
      OtherKeepsNumbers(Run(Fresh, ops, j), ops[j]);
    }
  }

  lemma FreshNumbersHold()
    ensures NumbersHold(Fresh)
  {
    forall n | 0 <= n <= |Fresh.hist| ensures FrontNumbered(Fresh, n) {}
  }

  /** In every state of every run, whatever closures made of their errors: up to
      the first row removed, each row committed carries its stream's next number. */
  lemma {:induction false} NumbersAlwaysHold(ops: seq<Op>, k: nat)
    requires k <= |ops|
    ensures NumbersHold(Run(Fresh, ops, k))
  {
    if k == 0 {
      FreshNumbersHold();
    } else {
      NumbersAlwaysHold(ops, k - 1);
      NextNumbersHold(ops, k - 1, k);
    }
  }
}
