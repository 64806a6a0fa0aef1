/** Every route an event takes into the log, as the tables a call leaves and
    what it returns. */
module Writes {
  import opened Wrappers
  import opened Event
  import opened Rows
  import opened Database
  import opened Folding

  datatype Committed = Committed(seqNo: nat, epochMs: U64, position: nat)

  datatype Expected = Unwritten | Seq(n: U64)

  /** One event as it travels. */
  datatype Exported = Exported(stream: string, position: Option<nat>, event: Object)

  /** Insert one stamped event, returning where it landed. */
  function InsertStamped(t: Tables, stream: string, event: Object): Result<(Tables, Committed)> {
    if SEQ !in event || !event[SEQ].Unsigned? || BodyOf(event).None? then Err(Storage)
    else
      var inserted :- Insert(t, stream, event[SEQ].n, BodyOf(event).value);
      Ok((inserted, Committed(event[SEQ].n, event[EPOCH_MS].n, inserted.issued)))
  }

  /** `append`, `append_at`, and the body of every single-event write. */
  function Append(t: Tables, stream: string, event: Object, clock: U64): Result<(Tables, Committed)> {
    var seqNo := NextSeq(t, stream);
    var stamped :- Stamp(event, seqNo, clock);
    var (inserted, committed) :- InsertStamped(t, stream, stamped);
    Ok((SetNextSeq(inserted, stream, seqNo + 1), committed))
  }

  /** The columns an event is stamped into; a refused event has none of note. */
  function StampedBody(event: Object, clock: U64): Body {
    match Stamp(event, 1, clock)
    case Ok(stamped) => if BodyOf(stamped).Some? then BodyOf(stamped).value else BLANK
    case Err(_) => BLANK
  }

  const BLANK := Body(0, "", 0, Obj(map[]), Obj(map[]))

  function AppendEntry(stream: string, event: (U64, Object)): Entry {
    Entry(stream, StampedBody(event.1, event.0))
  }

  function AppendEntries(stream: string, events: seq<(U64, Object)>): (entries: seq<Entry>)
    ensures |entries| == |events|
  {
    seq(|events|, i requires 0 <= i < |events| => AppendEntry(stream, events[i]))
  }

  /** A batch in progress: the rows that went in, before any counter is written,
      and the error that stopped it. */
  datatype Inserting = Inserting(t: Tables, out: seq<Committed>, stopped: Option<Error>)

  /** The first `k` inserts of a batch whose events have all been validated. */
  function InsertRun(t: Tables, base: Counter, entries: seq<Entry>, k: nat): (batch: Inserting)
    requires k <= |entries|
    ensures batch.t.counters == t.counters
    ensures |batch.out| <= k && (batch.stopped.None? ==> |batch.out| == k)
    ensures batch.stopped.None? && k > 0 ==> base + k - 1 <= I64_MAX
  {
    if k == 0 then Inserting(t, [], None)
    else InsertNext(InsertRun(t, base, entries, k - 1), base + k - 1, entries[k - 1])
  }

  function InsertNext(batch: Inserting, seqNo: nat, entry: Entry): Inserting {
    if batch.stopped.Some? then batch
    else
      match Insert(batch.t, entry.stream, seqNo, entry.body)
      case Err(error) => batch.(stopped := Some(error))
      case Ok(inserted) =>
        Inserting(inserted, batch.out + [Committed(seqNo, ToU64(entry.body.epochMs), inserted.issued)], None)
  }

  lemma OneMoreInsert(t: Tables, base: Counter, entries: seq<Entry>, j: nat, k: nat, at: nat)
    requires k == j + 1 <= |entries| && at == base + j
    ensures InsertRun(t, base, entries, k) == InsertNext(InsertRun(t, base, entries, j), at, entries[j])
  {}

  predicate AllValid(events: seq<(U64, Object)>) {
    forall e <- events :: Valid(e.1)
  }

  /** `append_many_at`: one run of sequence numbers, each event keeping its time;
      `append_many` is this with one clock reading for the batch. As for every
      call inside an open transaction, the first part is the state it is left in,
      whatever the call returned. */
  function AppendMany(t: Tables, stream: string, events: seq<(U64, Object)>): (Tables, Result<seq<Committed>>) {
    if !AllValid(events) then (t, Err(Validation))
    else if events == [] then (t, Ok([]))
    else
      var base := NextSeq(t, stream);
      var batch := InsertRun(t, base, AppendEntries(stream, events), |events|);
      if batch.stopped.Some? then (batch.t, Err(batch.stopped.value))
      else (SetNextSeq(batch.t, stream, base + |batch.out|), Ok(batch.out))
  }

  /** A batch once its inserts are done: the counter is written only if they all went. */
  lemma ManyIs(t: Tables, stream: string, events: seq<(U64, Object)>, base: Counter, batch: Inserting, next: nat)
    requires AllValid(events) && events != [] && base == NextSeq(t, stream)
    requires batch == InsertRun(t, base, AppendEntries(stream, events), |events|) && next == base + |batch.out|
    ensures batch.stopped.Some? ==> AppendMany(t, stream, events) == (batch.t, Err(batch.stopped.value))
    ensures batch.stopped.None? ==>
      next <= I64_MAX + 1 && AppendMany(t, stream, events) == (SetNextSeq(batch.t, stream, next), Ok(batch.out))
  {}

  /** `append_expecting`: the head is the stored counter's. */
  function AppendExpecting(t: Tables, stream: string, expected: Expected, event: Object, clock: U64)
    : Result<(Tables, Committed)>
  {
    if !Valid(event) then Err(Validation)
    else
      var next := NextSeq(t, stream);
      var actual := if next == 1 then Unwritten else Seq(next - 1);
      if actual != expected then
        Err(HeadMismatch(if expected.Seq? then expected.n else 0, next - 1))
      else
        Append(t, stream, event, clock)
  }

  function ObjectsOf(rows: seq<Row>): (objects: seq<Object>)
    ensures |objects| == |rows|
  {
    seq(|rows|, i requires 0 <= i < |rows| => ObjectOf(rows[i].seqNo, rows[i].body))
  }

  /** `append_if`: the decision is shown the stream inside the write. */
  function AppendIf(t: Tables, stream: string, kinds: Option<seq<string>>,
                    decide: seq<Object> -> Option<Object>, clock: U64)
    : Result<(Tables, Option<Committed>)>
  {
    var seen := ObjectsOf(SelectStream(t, stream, kinds, 0, U64_MAX));
    match decide(seen)
    case None => Ok((t, None))
    case Some(event) =>
      var (after, committed) :- Append(t, stream, event, clock);
      Ok((after, Some(committed)))
  }

  // ---- the batched import --------------------------------------------------

  /** The import in progress: the rows are in, the counters are only cached. */
  datatype Importing = Importing(t: Tables, next: map<string, Counter>, out: seq<Committed>)

  function CachedNext(run: Importing, stream: string): Counter {
    if stream in run.next then run.next[stream] else NextSeq(run.t, stream)
  }

  function ImportStep(run: Importing, exported: Exported): Result<Importing> {
    var seqNo := CachedNext(run, exported.stream);
    var restamped :- Restamp(exported.event, seqNo);
    var (inserted, committed) :- InsertStamped(run.t, exported.stream, restamped);
    Ok(Importing(inserted, run.next[exported.stream := seqNo + 1], run.out + [committed]))
  }

  /** The loop over the first `k` records, as far as it gets: where it stands, and
      the error that stopped it. */
  function ImportRun(t: Tables, list: seq<Exported>, k: nat): (r: (Importing, Option<Error>))
    requires k <= |list|
    ensures r.0.t.counters == t.counters
  {
    if k == 0 then (Importing(t, map[], []), None)
    else ImportAnother(ImportRun(t, list, k - 1), list[k - 1])
  }

  lemma OneMoreRecord(t: Tables, list: seq<Exported>, j: nat, k: nat)
    requires k == j + 1 <= |list|
    ensures ImportRun(t, list, k) == ImportAnother(ImportRun(t, list, j), list[j])
  {}

  function ImportAnother(at: (Importing, Option<Error>), exported: Exported): (Importing, Option<Error>) {
    if at.1.Some? then at
    else
      match ImportStep(at.0, exported)
      case Ok(after) => (after, None)
      case Err(error) => (at.0, Some(error))
  }

  function FlushCounters(run: Importing): Tables {
    run.t.(counters := run.t.counters + run.next)
  }

  /** `import_many`: the state inside the transaction when it returns, and what
      it returns. A failure leaves the rows inserted and no counter written. */
  function ImportMany(t: Tables, list: seq<Exported>): (Tables, Result<seq<Committed>>) {
    var (run, stopped) := ImportRun(t, list, |list|);
    if stopped.Some? then (run.t, Err(stopped.value)) else (FlushCounters(run), Ok(run.out))
  }

  /** The simple form: read the counter, restamp, insert, write the counter. */
  function ImportOne(t: Tables, exported: Exported): Result<(Tables, Committed)> {
    var seqNo := NextSeq(t, exported.stream);
    var restamped :- Restamp(exported.event, seqNo);
    var (inserted, committed) :- InsertStamped(t, exported.stream, restamped);
    Ok((SetNextSeq(inserted, exported.stream, seqNo + 1), committed))
  }

  function ImportEach(t: Tables, list: seq<Exported>): Result<(Tables, seq<Committed>)> {
    Each(ImportOne, Ok((t, [])), list, |list|)
  }

  /** An insert neither reads nor writes a counter. */
  lemma InsertIgnoresCounters(t: Tables, counters: map<string, Counter>, stream: string, event: Object)
    ensures var r, q := InsertStamped(t, stream, event), InsertStamped(t.(counters := counters), stream, event);
      && (r.Ok? <==> q.Ok?)
      && (r.Err? ==> r == q)
      && (r.Ok? ==> r.value.0.counters == t.counters
                    && q.value.0 == r.value.0.(counters := counters) && q.value.1 == r.value.1)
  {}

  /** What a run stands for: the same rows with the counters written. */
  function Meaning(at: (Importing, Option<Error>)): Result<(Tables, seq<Committed>)> {
    if at.1.Some? then Err(at.1.value) else Ok((FlushCounters(at.0), at.0.out))
  }

  lemma StepRefinesOne(run: Importing, exported: Exported)
    ensures Next(ImportOne, Ok((FlushCounters(run), run.out)), exported)
      == match ImportStep(run, exported)
         case Ok(after) => Ok((FlushCounters(after), after.out))
         case Err(error) => Err(error)
  {
    var each, stream := FlushCounters(run), exported.stream;
    var seqNo := CachedNext(run, stream);
    assert NextSeq(each, stream) == seqNo;
    if ValidStored(exported.event) {
      var restamped := Restamp(exported.event, seqNo).value;
      InsertIgnoresCounters(run.t, each.counters, stream, restamped);
      if ImportStep(run, exported).Ok? {
        assert run.t.counters + run.next[stream := seqNo + 1]
            == (run.t.counters + run.next)[stream := seqNo + 1];
      }
    }
  }

  /** An import that has stopped stays where it is. */
  lemma {:induction false} StoppedStays(t: Tables, list: seq<Exported>, j: nat, k: nat)
    requires j <= k <= |list| && ImportRun(t, list, j).1.Some?
    ensures ImportRun(t, list, k) == ImportRun(t, list, j)
  {
    if j < k { StoppedStays(t, list, j, k - 1); }
  }

  lemma RecordMeansOne(at: (Importing, Option<Error>), exported: Exported)
    ensures Next(ImportOne, Meaning(at), exported) == Meaning(ImportAnother(at, exported))
  {
    if at.1.None? { StepRefinesOne(at.0, exported); }
  }

  lemma {:induction false} RunMeansEach(t: Tables, list: seq<Exported>, k: nat)
    requires k <= |list|
    ensures Each(ImportOne, Ok((t, [])), list, k) == Meaning(ImportRun(t, list, k))
  {
    if k == 0 {
      assert t.counters + map[] == t.counters;
    } else {
      var j := k - 1;
      RunMeansEach(t, list, j);
      OneMoreStep(ImportOne, Ok((t, [])), list, j, k);
      OneMoreRecord(t, list, j, k);
      RecordMeansOne(ImportRun(t, list, j), list[j]);
    }
  }

  /** The cached counters change nothing but when they are written: batched and
      one by one stop at the same record with the same error, or leave the same
      rows, positions, answers and counters, however the streams interleave. */
  lemma BatchRefinesEach(t: Tables, list: seq<Exported>)
    ensures var (after, answer) := ImportMany(t, list);
      ImportEach(t, list) == match answer
                             case Ok(out) => Ok((after, out))
                             case Err(error) => Err(error)
  {
    RunMeansEach(t, list, |list|);
  }

  /** Importing two runs in turn is importing their concatenation. */
  lemma ImportEachConcat(t: Tables, a: seq<Exported>, b: seq<Exported>)
    requires ImportEach(t, a).Ok?
    ensures var (mid, out) := ImportEach(t, a).value;
      ImportEach(t, a + b) == Prefixed(out, ImportEach(mid, b))
  {
    EachJoins(ImportOne, t, a, b);
  }

  /** The public form of both: two transactions of `import_many` leave what one
      over the joined run leaves. */
  lemma ImportManyConcat(t: Tables, a: seq<Exported>, b: seq<Exported>)
    requires ImportMany(t, a).1.Ok?
    ensures var mid := ImportMany(t, a);
      var next := ImportMany(mid.0, b);
      var whole := ImportMany(t, a + b);
      && (next.1.Ok? <==> whole.1.Ok?)
      && (next.1.Ok? ==> whole.0 == next.0 && whole.1.value == mid.1.value + next.1.value)
      && (next.1.Err? ==> whole.1 == next.1)
  {
    BatchRefinesEach(t, a);
    BatchRefinesEach(ImportMany(t, a).0, b);
    BatchRefinesEach(t, a + b);
    ImportEachConcat(t, a, b);
  }

  // ---- the transaction hatch -----------------------------------------------

  /** One call a closure makes on its transaction, and whether it goes on after
      an error instead of returning it. */
  datatype Call =
    | AppendCall(stream: string, events: seq<(U64, Object)>, swallows: bool)
    | ImportCall(list: seq<Exported>, swallows: bool)

  function CallIn(t: Tables, call: Call): (Tables, Result<seq<Committed>>) {
    match call
    case AppendCall(stream, events, _) => AppendMany(t, stream, events)
    case ImportCall(list, _) => ImportMany(t, list)
  }

  /** The first `k` calls of a closure: the state inside the transaction, and what
      the closure would return there. */
  function RunCalls(t: Tables, calls: seq<Call>, k: nat): (Tables, Result<seq<Committed>>)
    requires k <= |calls|
  {
    if k == 0 then (t, Ok([])) else CallAnother(RunCalls(t, calls, k - 1), calls[k - 1])
  }

  function CallAnother(at: (Tables, Result<seq<Committed>>), call: Call): (Tables, Result<seq<Committed>>) {
    if at.1.Err? then at
    else
      var (after, answer) := CallIn(at.0, call);
      match answer
      case Ok(committed) => (after, Ok(at.1.value + committed))
      case Err(error) => (after, if call.swallows then at.1 else Err(error))
  }

  /** `with_transaction`: an error rolls everything back, anything else commits. */
  function Transaction(t: Tables, calls: seq<Call>): Result<(Tables, seq<Committed>)> {
    RolledBack(RunCalls(t, calls, |calls|))
  }

  function RolledBack(left: (Tables, Result<seq<Committed>>)): Result<(Tables, seq<Committed>)> {
    match left.1
    case Ok(committed) => Ok((left.0, committed))
    case Err(error) => Err(error)
  }
}
