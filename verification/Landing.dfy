/** What a write leaves in the log, in terms of what its caller passed: which rows,
    where, with what in them, and what the caller is told. */
module Landing {
  import opened Wrappers
  import opened Event
  import opened Rows
  import opened Database
  import opened Writes
  import opened Routes

  /** Row `i` of what was added is event `i`, stamped with its own time and its place
      in the stream; its coordinates are the ones returned. */
  ghost predicate LandedAt(t: Tables, u: Tables, stream: string, i: nat, event: Object, clock: U64, c: Committed)
    requires |t.events| + i < |u.events|
  {
    var row, seqNo := u.events[|t.events| + i], NextSeq(t, stream) + i;
    && row.position == t.issued + 1 + i && row.stream == stream && row.seqNo == seqNo
    && Stamp(event, row.seqNo, clock) == Ok(ObjectOf(row.seqNo, row.body))
    && c.seqNo == seqNo && c.epochMs == clock && c.position == row.position
  }

  /** The batch was appended as it was passed, event by event, and the stream's
      counter moved past it; nothing else changed. */
  ghost predicate BatchLanded(t: Tables, u: Tables, stream: string, batch: seq<Object>, clock: U64, out: seq<Committed>) {
    && |out| == |batch| && |u.events| == |t.events| + |batch| && t.events <= u.events
    && (forall i :: 0 <= i < |batch| ==> LandedAt(t, u, stream, i, batch[i], clock, out[i]))
    && u.issued == t.issued + |batch|
    && (if batch == [] then u.counters == t.counters
        else stream in u.counters && u.counters[stream] == NextSeq(t, stream) + |batch|
             && u.counters - {stream} == t.counters - {stream})
    && u == t.(events := u.events, issued := u.issued, counters := u.counters)
  }

  /** Room for so many rows: positions left, and the stream's next numbers free. */
  ghost predicate HasRoom(t: Tables, stream: string, n: nat) { RoomFor(t, stream, NextSeq(t, stream), n) }

  ghost predicate RoomFor(t: Tables, stream: string, base: nat, n: nat) {
    t.issued + n <= I64_MAX && forall at :: base <= at < base + n ==> FreeAt(t, stream, at)
  }

  predicate FreeAt(t: Tables, stream: string, seqNo: nat) {
    seqNo <= I64_MAX && forall r <- t.events :: r.stream == stream ==> r.seqNo != seqNo
  }

  // ---- batches -------------------------------------------------------------

  /** The rows of a batch so far, and the answers. */
  ghost predicate RunLanded(t: Tables, stream: string, base: nat, entries: seq<Entry>, k: nat, batch: Inserting)
    requires k <= |entries|
  {
    && t.events <= batch.t.events && |batch.t.events| == |t.events| + k && |batch.out| == k
    && batch.t.issued == t.issued + k
    && batch.t == t.(events := batch.t.events, issued := batch.t.issued)
    && forall i :: 0 <= i < k ==> EntryLanded(t, stream, base, entries, i, batch)
  }

  ghost predicate EntryLanded(t: Tables, stream: string, base: nat, entries: seq<Entry>, i: nat, batch: Inserting)
    requires i < |entries| && i < |batch.out| && |t.events| + i < |batch.t.events|
  {
    var row, c := batch.t.events[|t.events| + i], batch.out[i];
    && row.position == t.issued + 1 + i && row.stream == stream && row.seqNo == base + i && row.body == entries[i].body
    && c == Committed(row.seqNo, ToU64(row.body.epochMs), row.position)
  }

  /** A number past those of the batch is as free as it was. */
  lemma StillFree(t: Tables, stream: string, base: nat, entries: seq<Entry>, k: nat, batch: Inserting, at: nat)
    requires k <= |entries| && RunLanded(t, stream, base, entries, k, batch) && at == base + k
    ensures Taken(batch.t, stream, at) <==> Taken(t, stream, at)
  {
    if r :| r in batch.t.events && r.stream == stream && r.seqNo == at {
      if r !in t.events {
        var j :| 0 <= j < |batch.t.events| && batch.t.events[j] == r;
        assert EntryLanded(t, stream, base, entries, j - |t.events|, batch);
      }
    }
  }

  lemma NextLanded(t: Tables, stream: string, base: nat, entries: seq<Entry>, k: nat, batch: Inserting, at: nat, next: nat)
    requires k < |entries| && RunLanded(t, stream, base, entries, k, batch) && batch.stopped.None?
    requires at == base + k && next == k + 1 && entries[k].stream == stream
    ensures var after := InsertNext(batch, at, entries[k]);
      && after.stopped == (if t.issued + k < I64_MAX && FreeAt(t, stream, at) then None else Some(Storage))
      && (after.stopped.None? ==> RunLanded(t, stream, base, entries, next, after))
  {
    StillFree(t, stream, base, entries, k, batch, at);
    var after := InsertNext(batch, at, entries[k]);
    if after.stopped.None? {
      forall i | 0 <= i < next ensures EntryLanded(t, stream, base, entries, i, after) {
        if i < k { assert EntryLanded(t, stream, base, entries, i, batch); }
      }
    }
  }

  lemma RoomForNext(t: Tables, stream: string, base: nat, k: nat, at: nat, next: nat)
    requires at == base + k && next == k + 1
    ensures RoomFor(t, stream, base, next) <==> RoomFor(t, stream, base, k) && t.issued + k < I64_MAX && FreeAt(t, stream, at)
  {}

  lemma {:induction false} InsertRunLands(t: Tables, stream: string, base: Counter, entries: seq<Entry>, k: nat)
    requires k <= |entries| && t.issued <= I64_MAX && forall i :: 0 <= i < |entries| ==> entries[i].stream == stream
    ensures var batch := InsertRun(t, base, entries, k);
      && batch.stopped == (if RoomFor(t, stream, base, k) then None else Some(Storage))
      && (batch.stopped.None? ==> RunLanded(t, stream, base, entries, k, batch))
  {
    if k > 0 {
      var j, at := k - 1, base + k - 1;
      InsertRunLands(t, stream, base, entries, j);
      OneMoreInsert(t, base, entries, j, k, at);
      RoomForNext(t, stream, base, j, at, k);
      var batch := InsertRun(t, base, entries, j);
      if batch.stopped.None? { NextLanded(t, stream, base, entries, j, batch, at, k); }
    }
  }

  /** What a stamped entry reads back as. */
  lemma ReadsBack(event: Object, clock: U64, seqNo: Stored)
    requires Valid(event)
    ensures Stamp(event, seqNo, clock) == Ok(ObjectOf(seqNo, StampedBody(event, clock)))
    ensures ToU64(StampedBody(event, clock).epochMs) == clock
  {
    StampedRow(event, seqNo, clock);
    StampedBodyIs(event, seqNo, clock);
    CastsRoundTrip(clock, 0);
  }

  /** The events a batch is passed with one clock reading. */
  ghost predicate OneClockBatch(events: seq<(U64, Object)>, batch: seq<Object>, clock: U64) {
    |events| == |batch| && forall i :: 0 <= i < |batch| ==> events[i] == (clock, batch[i])
  }

  lemma BatchValid(events: seq<(U64, Object)>, batch: seq<Object>, clock: U64)
    requires OneClockBatch(events, batch, clock)
    ensures AllValid(events) <==> forall event <- batch :: Valid(event)
  {
    if AllValid(events) {
      forall event | event in batch ensures Valid(event) {
        var i :| 0 <= i < |batch| && batch[i] == event;
        assert events[i] in events;
      }
    }
  }

  lemma RunIsBatch(t: Tables, stream: string, base: Counter, events: seq<(U64, Object)>, entries: seq<Entry>,
                   batch: seq<Object>, clock: U64, run: Inserting, next: Counter)
    requires OneClockBatch(events, batch, clock) && batch != [] && AllValid(events)
    requires base == NextSeq(t, stream) && entries == AppendEntries(stream, events) && next == base + |events|
    requires RunLanded(t, stream, base, entries, |entries|, run)
    ensures BatchLanded(t, SetNextSeq(run.t, stream, next), stream, batch, clock, run.out)
  {
    var u := SetNextSeq(run.t, stream, next);
    forall i | 0 <= i < |batch| ensures LandedAt(t, u, stream, i, batch[i], clock, run.out[i]) {
      assert EntryLanded(t, stream, base, entries, i, run) && events[i] in events;
      ReadsBack(batch[i], clock, u.events[|t.events| + i].seqNo);
    }
  }

  /** What a run of inserts comes to, as an answer. */
  ghost predicate RunEnds(t: Tables, stream: string, batch: seq<Object>, clock: U64, u: Tables, answer: Result<seq<Committed>>) {
    && (if HasRoom(t, stream, |batch|) then answer.Ok? else answer == Err(Storage))
    && (answer.Ok? ==> BatchLanded(t, u, stream, batch, clock, answer.value))
  }

  lemma ValidBatchLands(t: Tables, stream: string, events: seq<(U64, Object)>, batch: seq<Object>, clock: U64)
    requires OneClockBatch(events, batch, clock) && AllValid(events) && batch != []
    ensures var (u, answer) := AppendMany(t, stream, events); RunEnds(t, stream, batch, clock, u, answer)
  {
    var base, entries := NextSeq(t, stream), AppendEntries(stream, events);
    InsertRunLands(t, stream, base, entries, |entries|);
    var run := InsertRun(t, base, entries, |entries|);
    var next := base + |run.out|;
    ManyIs(t, stream, events, base, run, next);
    if run.stopped.None? { RunIsBatch(t, stream, base, events, entries, batch, clock, run, next); }
  }

  /** `append_many`: it goes in exactly when every event is valid and there is room
      for all of them, and then the batch has landed as it was passed. */
  lemma AppendManyLands(t: Tables, stream: string, events: seq<(U64, Object)>, batch: seq<Object>, clock: U64)
    requires OneClockBatch(events, batch, clock)
    ensures var (u, answer) := AppendMany(t, stream, events);
      && (if exists event <- batch :: !Valid(event) then answer == Err(Validation)
          else if HasRoom(t, stream, |batch|) then answer.Ok?
          else answer == Err(Storage))
      && (answer.Ok? ==> BatchLanded(t, u, stream, batch, clock, answer.value))
  {
    BatchValid(events, batch, clock);
    if AllValid(events) && batch != [] { ValidBatchLands(t, stream, events, batch, clock); }
  }

  // ---- single events -------------------------------------------------------

  /** One event, landed. */
  ghost predicate EventLanded(t: Tables, u: Tables, stream: string, event: Object, clock: U64, c: Committed) {
    BatchLanded(t, u, stream, [event], clock, [c])
  }

  /** `append` and its kin: it goes in exactly when the event is valid and there is
      room for it. */
  lemma AppendLands(t: Tables, stream: string, event: Object, clock: U64)
    ensures var answer := Append(t, stream, event, clock);
      && (if !Valid(event) then answer == Err(Validation)
          else if HasRoom(t, stream, 1) then answer.Ok?
          else answer == Err(Storage))
      && (answer.Ok? ==> EventLanded(t, answer.value.0, stream, event, clock, answer.value.1))
  {
    AppendIsPut(t, stream, event, clock);
    var n := NextSeq(t, stream);
    assert HasRoom(t, stream, 1) <==> t.issued < I64_MAX && FreeAt(t, stream, n);
    if Append(t, stream, event, clock).Ok? {
      var (u, c) := Append(t, stream, event, clock).value;
      assert u.events == t.events + [Row(t.issued + 1, stream, n, StampedBody(event, clock))];
      ReadsBack(event, clock, n);
      assert LandedAt(t, u, stream, 0, event, clock, c);
    }
  }

  // ---- imports -------------------------------------------------------------

  /** How many of the first `k` records go to a stream. */
  function Earlier(list: seq<Exported>, k: nat, stream: string): nat
    requires k <= |list|
  {
    if k == 0 then 0 else Earlier(list, k - 1, stream) + if list[k - 1].stream == stream then 1 else 0
  }

  /** The number record `i` is due: its stream's next, past the earlier ones. */
  function DueAt(t: Tables, list: seq<Exported>, i: nat): nat
    requires i < |list|
  {
    NextSeq(t, list[i].stream) + Earlier(list, i, list[i].stream)
  }

  /** Row `i` of what was added is record `i` with its sequence number alone put
      anew, in its stream and at the next position; the answer says so. */
  ghost predicate RecordLanded(t: Tables, u: Tables, list: seq<Exported>, i: nat, c: Committed)
    requires i < |list| && |t.events| + i < |u.events|
  {
    var row, record := u.events[|t.events| + i], list[i];
    && row.position == t.issued + 1 + i && row.stream == record.stream && row.seqNo == DueAt(t, list, i)
    && Restamp(record.event, row.seqNo) == Ok(ObjectOf(row.seqNo, row.body))
    && c.seqNo == row.seqNo && c.position == row.position
    && EPOCH_MS in record.event && record.event[EPOCH_MS] == Unsigned(c.epochMs)
  }

  /** The rows of an import so far, its answers, and its cached counters. */
  ghost predicate ImportLanded(t: Tables, list: seq<Exported>, k: nat, run: Importing)
    requires k <= |list|
  {
    && t.events <= run.t.events && |run.t.events| == |t.events| + k && |run.out| == k
    && run.t.issued == t.issued + k
    && run.t == t.(events := run.t.events, issued := run.t.issued)
    && (forall i :: 0 <= i < k ==> RecordLanded(t, run.t, list, i, run.out[i]))
    && forall s :: CachedAt(t, list, k, run, s)
  }

  ghost predicate CachedAt(t: Tables, list: seq<Exported>, k: nat, run: Importing, s: string)
    requires k <= |list|
  {
    && (s in run.next <==> Earlier(list, k, s) > 0)
    && (s in run.next ==> run.next[s] == NextSeq(t, s) + Earlier(list, k, s))
  }

  lemma {:induction false} EarlierGrows(list: seq<Exported>, j: nat, k: nat, stream: string)
    requires j <= k <= |list|
    ensures Earlier(list, j, stream) <= Earlier(list, k, stream)
    ensures j < k && list[j].stream == stream ==> Earlier(list, j, stream) < Earlier(list, k, stream)
  {
    if j < k { EarlierGrows(list, j, k - 1, stream); }
  }

  /** The number a record is due is as free as it was before the import. */
  lemma StillDue(t: Tables, list: seq<Exported>, k: nat, run: Importing, at: nat)
    requires k < |list| && ImportLanded(t, list, k, run) && at == DueAt(t, list, k)
    ensures Taken(run.t, list[k].stream, at) <==> Taken(t, list[k].stream, at)
  {
    var stream := list[k].stream;
    if r :| r in run.t.events && r.stream == stream && r.seqNo == at {
      if r !in t.events {
        var j :| 0 <= j < |run.t.events| && run.t.events[j] == r;
        var i := j - |t.events|;
        assert RecordLanded(t, run.t, list, i, run.out[i]);
        EarlierGrows(list, i, k, stream);
      }
    }
  }

  lemma CachedIsDue(t: Tables, list: seq<Exported>, k: nat, run: Importing)
    requires k < |list| && ImportLanded(t, list, k, run)
    ensures CachedNext(run, list[k].stream) == DueAt(t, list, k)
  {
    assert CachedAt(t, list, k, run, list[k].stream);
  }

  /** A stored event restamped: the object it becomes, and that it reads back. */
  lemma RestampedReadsBack(event: Object, at: Counter) returns (stamped: Object)
    requires ValidStored(event)
    ensures Restamp(event, at) == Ok(stamped) && BodyOf(stamped) == Some(RestampedBody(event))
    ensures Stamped(stamped) && stamped[SEQ] == Unsigned(at) && stamped[EPOCH_MS] == event[EPOCH_MS]
    ensures at <= I64_MAX ==> stamped == ObjectOf(at, RestampedBody(event))
  {
    stamped := Restamp(event, at).value;
    RestampedBodyIs(event, at);
    RestampIsStored(event, at);
    if at <= I64_MAX { ReadUndoesWrite(stamped); }
  }

  /** What one record that goes in adds. */
  lemma StepLands(run: Importing, exported: Exported, at: Counter)
    requires at == CachedNext(run, exported.stream)
    ensures var step := ImportStep(run, exported);
      && (if !ValidStored(exported.event) then step == Err(Validation)
          else if run.t.issued < I64_MAX && FreeAt(run.t, exported.stream, at) then step.Ok?
          else step == Err(Storage))
      && (step.Ok? ==>
            var row := Row(run.t.issued + 1, exported.stream, at, RestampedBody(exported.event));
            && step.value.t == run.t.(events := run.t.events + [row], issued := run.t.issued + 1)
            && step.value.next == run.next[exported.stream := at + 1]
            && step.value.out == run.out + [Committed(at, exported.event[EPOCH_MS].n, run.t.issued + 1)]
            && Restamp(exported.event, at) == Ok(ObjectOf(at, RestampedBody(exported.event))))
  {
    if ValidStored(exported.event) {
      var stamped := RestampedReadsBack(exported.event, at);
      InsertStampedIs(run.t, exported.stream, stamped, RestampedBody(exported.event));
    }
  }

  lemma RecordLands(t: Tables, list: seq<Exported>, k: nat, run: Importing, next: nat)
    requires k < |list| && next == k + 1 && ImportLanded(t, list, k, run)
    ensures var step := ImportStep(run, list[k]);
      && (if !ValidStored(list[k].event) then step == Err(Validation)
          else if t.issued + k < I64_MAX && FreeAt(t, list[k].stream, DueAt(t, list, k)) then step.Ok?
          else step == Err(Storage))
      && (step.Ok? ==> ImportLanded(t, list, next, step.value))
  {
    var at := DueAt(t, list, k);
    CachedIsDue(t, list, k, run);
    StillDue(t, list, k, run, at);
    StepLands(run, list[k], at);
    var step := ImportStep(run, list[k]);
    if step.Ok? {
      var after := step.value;
      forall i | 0 <= i < next ensures RecordLanded(t, after.t, list, i, after.out[i]) {
        if i < k { assert RecordLanded(t, run.t, list, i, run.out[i]); }
      }
      forall s ensures CachedAt(t, list, next, after, s) { assert CachedAt(t, list, k, run, s); }
    }
  }

  /** Every record is a stored event with room at the number it is due. */
  ghost predicate AllDue(t: Tables, list: seq<Exported>, k: nat)
    requires k <= |list|
  {
    t.issued + k <= I64_MAX && forall i :: 0 <= i < k ==> DueFree(t, list, i)
  }

  ghost predicate DueFree(t: Tables, list: seq<Exported>, i: nat)
    requires i < |list|
  {
    ValidStored(list[i].event) && FreeAt(t, list[i].stream, DueAt(t, list, i))
  }

  /** How an import stands after `k` records. */
  ghost predicate ImportGoes(t: Tables, list: seq<Exported>, k: nat, at: (Importing, Option<Error>))
    requires k <= |list|
  {
    && (at.1.None? <==> AllDue(t, list, k))
    && (at.1.None? ==> ImportLanded(t, list, k, at.0))
    && (at.1.Some? ==> exists j :: 0 <= j < k && StopsAt(t, list, j, at.1.value))
  }

  /** The first record that is refused, and why: it is no stored event, or there is no
      room for it. */
  ghost predicate StopsAt(t: Tables, list: seq<Exported>, j: nat, error: Error)
    requires j < |list|
  {
    AllDue(t, list, j) && !AllDue(t, list, j + 1)
    && error == if ValidStored(list[j].event) then Storage else Validation
  }

  lemma AllDueNext(t: Tables, list: seq<Exported>, j: nat, k: nat)
    requires k == j + 1 <= |list|
    ensures AllDue(t, list, k) <==> AllDue(t, list, j) && t.issued + j < I64_MAX && DueFree(t, list, j)
  {}

  lemma ImportGoesOn(t: Tables, list: seq<Exported>, j: nat, k: nat, at: (Importing, Option<Error>))
    requires k == j + 1 <= |list| && ImportGoes(t, list, j, at)
    ensures ImportGoes(t, list, k, ImportAnother(at, list[j]))
  {
    AllDueNext(t, list, j, k);
    if at.1.None? {
      RecordLands(t, list, j, at.0, k);
      var after := ImportAnother(at, list[j]);
      if after.1.Some? { assert StopsAt(t, list, j, after.1.value); }
    }
  }

  lemma {:induction false} ImportRunLands(t: Tables, list: seq<Exported>, k: nat)
    requires k <= |list|
    ensures ImportGoes(t, list, k, ImportRun(t, list, k))
  {
    if k > 0 {
      var j := k - 1;
      ImportRunLands(t, list, j);
      OneMoreRecord(t, list, j, k);
      ImportGoesOn(t, list, j, k, ImportRun(t, list, j));
    }
  }

  /** Each stream's counter has moved past the records that went to it. */
  ghost predicate CountersMoved(t: Tables, list: seq<Exported>, u: Tables) {
    forall s :: NextSeq(u, s) == NextSeq(t, s) + Earlier(list, |list|, s)
  }

  /** `import_many`: it goes in exactly when every record is a stored event and there
      is room for each at the number it is due; then each has landed in order with
      nothing changed but its number, every stream's counter has moved past its
      own, and no other table is touched. */
  lemma ImportManyLands(t: Tables, list: seq<Exported>)
    ensures var (u, answer) := ImportMany(t, list);
      && (answer.Ok? <==> AllDue(t, list, |list|))
      && (answer.Err? ==> exists j :: 0 <= j < |list| && StopsAt(t, list, j, answer.error))
      && (answer.Ok? ==>
            && |answer.value| == |list| && |u.events| == |t.events| + |list| && t.events <= u.events
            && (forall i :: 0 <= i < |list| ==> RecordLanded(t, u, list, i, answer.value[i]))
            && CountersMoved(t, list, u) && u.issued == t.issued + |list|
            && u == t.(events := u.events, issued := u.issued, counters := u.counters))
  {
    ImportRunLands(t, list, |list|);
    var run, u := ImportRun(t, list, |list|).0, ImportMany(t, list).0;
    if ImportMany(t, list).1.Ok? {
      forall i | 0 <= i < |list| ensures RecordLanded(t, u, list, i, run.out[i]) {
        assert RecordLanded(t, run.t, list, i, run.out[i]);
      }
      forall s ensures NextSeq(u, s) == NextSeq(t, s) + Earlier(list, |list|, s) {
        assert CachedAt(t, list, |list|, run, s);
      }
    }
  }

  /** The stream's head as everyone knows it: the number before its next. */
  predicate HeadIs(t: Tables, stream: string, expected: Expected) {
    match expected
    case Unwritten => NextSeq(t, stream) == 1
    case Seq(n) => n > 0 && NextSeq(t, stream) == n + 1
  }

  /** `append_expecting`: refused with what was expected and what was found, and
      otherwise an append. */
  lemma AppendExpectingLands(t: Tables, stream: string, expected: Expected, event: Object, clock: U64)
    ensures var answer := AppendExpecting(t, stream, expected, event, clock);
      && (if !Valid(event) then answer == Err(Validation)
          else if !HeadIs(t, stream, expected) then
            answer == Err(HeadMismatch(if expected.Unwritten? then 0 else expected.n, NextSeq(t, stream) - 1))
          else if HasRoom(t, stream, 1) then answer.Ok?
          else answer == Err(Storage))
      && (answer.Ok? ==> EventLanded(t, answer.value.0, stream, event, clock, answer.value.1))
  {
    AppendLands(t, stream, event, clock);
  }

  /** `append_if`: the decision is shown the stream from its beginning, of the kinds
      asked for, and what it returns is appended. */
  lemma AppendIfLands(t: Tables, stream: string, kinds: Option<seq<string>>, decide: seq<Object> -> Option<Object>, clock: U64)
    ensures var seen := if kinds == Some([]) then []
                        else OrderBySeq(Pick(t.events, (r: Row) => r.stream == stream && (kinds.None? || r.body.kind in kinds.value)));
      var answer, decided := AppendIf(t, stream, kinds, decide, clock), decide(ObjectsOf(seen));
      if decided.None? then answer == Ok((t, None))
      else
        match Append(t, stream, decided.value, clock)
        case Ok((u, c)) => answer == Ok((u, Some(c)))
        case Err(error) => answer == Err(error)
  {
    var seen := Pick(t.events, (r: Row) => r.stream == stream && (kinds.None? || r.body.kind in kinds.value));
    PickAlike(t.events, (r: Row) => r.stream == stream && r.seqNo >= 0 && (kinds.Some? ==> r.body.kind in kinds.value),
              (r: Row) => r.stream == stream && (kinds.None? || r.body.kind in kinds.value));
    assert OfStream(t.events, stream, kinds, 0) == seen;
    if kinds != Some([]) { assert SelectStream(t, stream, kinds, 0, U64_MAX) == OrderBySeq(seen); }
  }
}
