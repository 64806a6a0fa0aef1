/** Every write route is a run of puts, so what a put keeps every route keeps —
    except a call that fails half way inside a transaction that goes on. */
module Routes {
  import opened Wrappers
  import opened Event
  import opened Rows
  import opened Database
  import opened Writes
  import opened History

  // ---- what a route puts ---------------------------------------------------

  /** The columns an imported record is written as. */
  function RestampedBody(event: Object): Body {
    match Restamp(event, 1)
    case Ok(restamped) => if BodyOf(restamped).Some? then BodyOf(restamped).value else BLANK
    case Err(_) => BLANK
  }

  lemma StampedBodyIs(event: Object, seqNo: U64, clock: U64)
    requires Valid(event)
    ensures var stamped := Stamp(event, seqNo, clock).value;
      && BodyOf(stamped) == Some(StampedBody(event, clock))
      && stamped[SEQ] == Unsigned(seqNo) && stamped[EPOCH_MS] == Unsigned(clock)
    ensures Written(StampedBody(event, clock))
  {
    StampIsStored(event, seqNo, clock);
    StampIsStored(event, 1, clock);
    ReadUndoesWrite(Stamp(event, 1, clock).value);
  }

  lemma StampedRow(event: Object, seqNo: Stored, clock: U64)
    requires Valid(event)
    ensures ObjectOf(seqNo, StampedBody(event, clock)) == Stamp(event, seqNo, clock).value
  {
    StampedBodyIs(event, seqNo, clock);
    StampIsStored(event, seqNo, clock);
    ReadUndoesWrite(Stamp(event, seqNo, clock).value);
  }

  lemma RestampedBodyIs(event: Object, seqNo: U64)
    requires ValidStored(event)
    ensures var restamped := Restamp(event, seqNo).value;
      && BodyOf(restamped) == Some(RestampedBody(event))
      && restamped[SEQ] == Unsigned(seqNo) && restamped[EPOCH_MS].Unsigned?
    ensures Written(RestampedBody(event))
  {
    RestampIsStored(event, seqNo);
    RestampIsStored(event, 1);
    ReadUndoesWrite(Restamp(event, 1).value);
  }

  function ImportEntry(exported: Exported): Entry {
    Entry(exported.stream, RestampedBody(exported.event))
  }

  function ImportEntries(list: seq<Exported>): (entries: seq<Entry>)
    ensures |entries| == |list|
  {
    seq(|list|, i requires 0 <= i < |list| => ImportEntry(list[i]))
  }

  predicate AllStored(list: seq<Exported>) {
    forall e <- list :: ValidStored(e.event)
  }

  // ---- single events -------------------------------------------------------

  lemma InsertStampedIs(t: Tables, stream: string, event: Object, body: Body)
    requires SEQ in event && event[SEQ].Unsigned? && BodyOf(event) == Some(body)
    ensures InsertStamped(t, stream, event).Ok? <==> Insert(t, stream, event[SEQ].n, body).Ok?
    ensures InsertStamped(t, stream, event).Ok? ==>
      InsertStamped(t, stream, event).value
        == (Insert(t, stream, event[SEQ].n, body).value, Committed(event[SEQ].n, event[EPOCH_MS].n, t.issued + 1))
  {}

  /** An append is one put of the stamped event, and answers with where it went. */
  lemma AppendIsPut(t: Tables, stream: string, event: Object, clock: U64)
    ensures var put := Put(t, stream, StampedBody(event, clock));
      && (Append(t, stream, event, clock).Ok? <==> Valid(event) && put.Ok?)
      && (Append(t, stream, event, clock).Ok?
          ==> Append(t, stream, event, clock).value
              == (put.value, Committed(NextSeq(t, stream), clock, t.issued + 1)))
  {
    if Valid(event) {
      var seqNo := NextSeq(t, stream);
      StampedBodyIs(event, seqNo, clock);
      InsertStampedIs(t, stream, Stamp(event, seqNo, clock).value, StampedBody(event, clock));
    }
  }

  lemma ImportOneIsPut(t: Tables, exported: Exported)
    ensures var put := Put(t, exported.stream, RestampedBody(exported.event));
      && (ImportOne(t, exported).Ok? <==> ValidStored(exported.event) && put.Ok?)
      && (ImportOne(t, exported).Ok?
          ==> ImportOne(t, exported).value.0 == put.value
              && ImportOne(t, exported).value.1.position == t.issued + 1
              && ImportOne(t, exported).value.1.seqNo == NextSeq(t, exported.stream))
  {
    if ValidStored(exported.event) {
      var seqNo := NextSeq(t, exported.stream);
      RestampedBodyIs(exported.event, seqNo);
      InsertStampedIs(t, exported.stream, Restamp(exported.event, seqNo).value, RestampedBody(exported.event));
    }
  }

  // ---- batches -------------------------------------------------------------

  lemma PutFromCounter(t: Tables, stream: string, body: Body)
    ensures var meant := SetNextSeq(t, stream, NextSeq(t, stream));
      && (Put(meant, stream, body).Ok? <==> Put(t, stream, body).Ok?)
      && (Put(t, stream, body).Ok? ==> Put(meant, stream, body) == Put(t, stream, body))
  {
    var next := NextSeq(t, stream);
    if Put(t, stream, body).Ok? {
      assert t.counters[stream := next][stream := next + 1] == t.counters[stream := next + 1];
    }
  }

  /** What `k` inserts of a batch stand for: the same puts, which fail together
      with it and otherwise leave the same rows with the counter written. */
  predicate MeansPuts(batch: Inserting, stream: string, base: Counter, k: nat, put: Result<Tables>) {
    && NextSeq(batch.t, stream) == base
    && (put.Ok? <==> batch.stopped.None?)
    && (put.Ok? ==>
          && |batch.out| == k
          && base + k <= I64_MAX + 1
          && put.value == if k == 0 then batch.t else SetNextSeq(batch.t, stream, base + k))
  }

  /** One insert of a batch is one put against the state its rows stand for. */
  lemma InsertIsPut(t: Tables, seqNo: Counter, entry: Entry)
    ensures var put := Put(SetNextSeq(t, entry.stream, seqNo), entry.stream, entry.body);
      var step := Insert(t, entry.stream, seqNo, entry.body);
      && (step.Ok? <==> put.Ok?)
      && (step.Ok? ==> seqNo <= I64_MAX && put.value == SetNextSeq(step.value, entry.stream, seqNo + 1))
  {
    if seqNo <= I64_MAX {
      assert t.counters[entry.stream := seqNo][entry.stream := seqNo + 1] == t.counters[entry.stream := seqNo + 1];
    }
  }

  lemma BatchStep(batch: Inserting, stream: string, base: Counter, k: nat, put: Result<Tables>, entry: Entry)
    requires MeansPuts(batch, stream, base, k, put) && entry.stream == stream
    ensures MeansPuts(InsertNext(batch, base + k, entry), stream, base, k + 1, PutNext(put, entry))
  {
    if put.Ok? {
      if k == 0 { PutFromCounter(batch.t, stream, entry.body); }
      InsertIsPut(batch.t, base + k, entry);
    }
  }

  lemma {:induction false} InsertRunMeansPuts(t: Tables, stream: string, entries: seq<Entry>, k: nat)
    requires k <= |entries| && forall i :: 0 <= i < |entries| ==> entries[i].stream == stream
    ensures MeansPuts(InsertRun(t, NextSeq(t, stream), entries, k), stream, NextSeq(t, stream), k, PutTo(t, entries, k))
  {
    if k > 0 {
      InsertRunMeansPuts(t, stream, entries, k - 1);
      BatchStep(InsertRun(t, NextSeq(t, stream), entries, k - 1), stream, NextSeq(t, stream), k - 1,
                PutTo(t, entries, k - 1), entries[k - 1]);
    }
  }

  /** `append_many` that succeeds is the puts of its events, in order. */
  lemma AppendManyIsPuts(t: Tables, stream: string, events: seq<(U64, Object)>)
    ensures var (after, answer) := AppendMany(t, stream, events);
      && (answer.Ok? <==> AllValid(events) && PutAll(t, AppendEntries(stream, events)).Ok?)
      && (answer.Ok? ==> PutAll(t, AppendEntries(stream, events)) == Ok(after))
  {
    if AllValid(events) && events != [] {
      InsertRunMeansPuts(t, stream, AppendEntries(stream, events), |events|);
    }
  }

  /** The first `k` records are ones an import accepts. */
  predicate StoredTo(list: seq<Exported>, k: nat) {
    k <= |list| && forall i :: 0 <= i < k ==> ValidStored(list[i].event)
  }

  lemma StoredOn(list: seq<Exported>, n: nat, next: nat)
    requires StoredTo(list, n) && n < |list| && ValidStored(list[n].event) && next == n + 1
    ensures StoredTo(list, next)
  {}

  /** An import as far as it went is the puts of as many of its records. */
  ghost predicate ImportAt(t: Tables, list: seq<Exported>, n: nat, at: (Importing, Option<Error>))
    requires n <= |list|
  {
    var (run, stopped) := at;
    var entries, k := ImportEntries(list), |run.out|;
    && k <= n
    && StoredTo(list, k)
    && PutTo(t, entries, k) == Ok(FlushCounters(run))
    && (k == 0 ==> run.t == t)
    && (stopped.None? ==> k == n)
    && (stopped.Some? ==> k < n && (!ValidStored(list[k].event) || PutNext(PutTo(t, entries, k), entries[k]).Err?))
  }

  /** One record of an import is one put against the state the run stands for. */
  lemma ImportStepIsPut(run: Importing, exported: Exported)
    ensures var step := ImportStep(run, exported);
      var put := Put(FlushCounters(run), exported.stream, RestampedBody(exported.event));
      && (step.Ok? <==> ValidStored(exported.event) && put.Ok?)
      && (step.Ok? ==> put.value == FlushCounters(step.value) && |step.value.out| == |run.out| + 1)
  {
    StepRefinesOne(run, exported);
    ImportOneIsPut(FlushCounters(run), exported);
  }

  lemma ImportAtGoesOn(t: Tables, list: seq<Exported>, n: nat, run: Importing, after: Importing, next: nat)
    requires n < |list| && next == n + 1 && ImportAt(t, list, n, (run, None))
    requires ValidStored(list[n].event) && |after.out| == next
    requires PutTo(t, ImportEntries(list), next) == Ok(FlushCounters(after))
    ensures ImportAt(t, list, next, (after, None))
  {
    StoredOn(list, n, next);
  }

  lemma ImportAtStops(t: Tables, list: seq<Exported>, n: nat, run: Importing, error: Error, next: nat)
    requires n < |list| && next == n + 1 && ImportAt(t, list, n, (run, None))
    requires !ValidStored(list[n].event) || PutNext(PutTo(t, ImportEntries(list), n), ImportEntry(list[n])).Err?
    ensures ImportAt(t, list, next, (run, Some(error)))
  {}

  lemma NextPut(t: Tables, entries: seq<Entry>, n: nat, next: nat, sofar: Result<Tables>, entry: Entry)
    requires n < |entries| && next == n + 1 && PutTo(t, entries, n) == sofar && entry == entries[n]
    ensures PutTo(t, entries, next) == PutNext(sofar, entry)
  {}

  lemma ImportAtStep(t: Tables, list: seq<Exported>, n: nat, at: (Importing, Option<Error>), next: nat)
    requires n < |list| && next == n + 1 && ImportAt(t, list, n, at)
    ensures ImportAt(t, list, next, ImportAnother(at, list[n]))
  {
    if at.1.None? {
      ImportStepIsPut(at.0, list[n]);
      NextPut(t, ImportEntries(list), n, next, Ok(FlushCounters(at.0)), ImportEntry(list[n]));
      match ImportStep(at.0, list[n])
      case Ok(after) => ImportAtGoesOn(t, list, n, at.0, after, next);
      case Err(error) => ImportAtStops(t, list, n, at.0, error, next);
    }
  }

  lemma {:induction false} ImportRunIsPuts(t: Tables, list: seq<Exported>, n: nat)
    requires n <= |list|
    ensures ImportAt(t, list, n, ImportRun(t, list, n))
  {
    if n == 0 {
      assert t.counters + map[] == t.counters;
    } else {
      ImportRunIsPuts(t, list, n - 1);
      ImportAtStep(t, list, n - 1, ImportRun(t, list, n - 1), n);
    }
  }

  /** `import_many` that succeeds is the puts of its records, in order. */
  lemma ImportManyIsPuts(t: Tables, list: seq<Exported>)
    ensures var (after, answer) := ImportMany(t, list);
      && (answer.Ok? <==> AllStored(list) && PutAll(t, ImportEntries(list)).Ok?)
      && (answer.Ok? ==> PutAll(t, ImportEntries(list)) == Ok(after))
  {
    ImportRunIsPuts(t, list, |list|);
    var (run, stopped) := ImportRun(t, list, |list|);
    var k := |run.out|;
    if stopped.Some? {
      assert list[k] in list;
      if PutTo(t, ImportEntries(list), k + 1).Err? { PutToStops(t, ImportEntries(list), k + 1, |list|); }
    } else {
      forall e | e in list ensures ValidStored(e.event) {}
    }
  }
}
