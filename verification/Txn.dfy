/** The write transaction a closure is handed, and the closure's one door. */
module Txn {
  import opened Wrappers
  import opened Event
  import opened Rows
  import opened Database
  import opened Writes
  import opened Routes
  import opened Announce
  import opened Sqlite

  function Positions(out: seq<Committed>): (positions: seq<nat>)
    ensures |positions| == |out|
  {
    seq(|out|, i requires 0 <= i < |out| => out[i].position)
  }

  // ---- one step of each loop, on values ------------------------------------

  /** One insert of a batch is the insert of the stamped event. */
  lemma StampedInsert(batch: Inserting, stream: string, event: Object, seqNo: U64, clock: U64)
    requires Valid(event) && batch.stopped.None?
    ensures InsertNext(batch, seqNo, AppendEntry(stream, (clock, event)))
      == Extended(batch, Writes.InsertStamped(batch.t, stream, Stamp(event, seqNo, clock).value))
  {
    StampedBodyIs(event, seqNo, clock);
    StampedBodyIs(event, 1, clock);
    CastsRoundTrip(clock, 0);
    InsertStampedIs(batch.t, stream, Stamp(event, seqNo, clock).value, StampedBody(event, clock));
  }

  /** What one more event leaves of a batch. */
  function Extended(batch: Inserting, spec: Result<(Tables, Committed)>): Inserting {
    match spec
    case Ok((t, committed)) => Inserting(t, batch.out + [committed], None)
    case Err(error) => batch.(stopped := Some(error))
  }

  method ValidateAll(events: seq<(U64, Object)>) returns (valid: bool)
    ensures valid <==> AllValid(events)
  {
    for i := 0 to |events|
      invariant forall e <- events[..i] :: Valid(e.1)
    {
      if !Valid(events[i].1) {
        assert events[i] in events;
        return false;
      }
      assert events[..i + 1] == events[..i] + [events[i]];
    }
    assert events[..|events|] == events;
    valid := true;
  }

  lemma {:induction false} InsertStops(t: Tables, base: Counter, entries: seq<Entry>, j: nat, k: nat)
    requires j <= k <= |entries| && InsertRun(t, base, entries, j).stopped.Some?
    ensures InsertRun(t, base, entries, k) == InsertRun(t, base, entries, j)
  {
    if j < k { InsertStops(t, base, entries, j, k - 1); }
  }

  /** Where a batch stands after `k` inserts. */
  ghost predicate RunAt(t: Tables, base: Counter, entries: seq<Entry>, k: nat, batch: Inserting)
    requires k <= |entries|
  {
    batch == InsertRun(t, base, entries, k)
  }

  lemma RunBegins(t: Tables, base: Counter, entries: seq<Entry>)
    ensures RunAt(t, base, entries, 0, Inserting(t, [], None))
  {}

  lemma RunFits(t: Tables, base: Counter, entries: seq<Entry>, k: nat, batch: Inserting)
    requires k <= |entries| && RunAt(t, base, entries, k, batch) && batch.stopped.None?
    ensures base + k <= I64_MAX + 1
  {}

  lemma RunGoesOn(t: Tables, base: Counter, entries: seq<Entry>, k: nat, batch: Inserting,
                  next: nat, seqNo: nat, entry: Entry)
    requires k < |entries| && RunAt(t, base, entries, k, batch)
    requires next == k + 1 && seqNo == base + k && entry == entries[k]
    ensures RunAt(t, base, entries, next, InsertNext(batch, seqNo, entry))
  {}

  /** The next event of a batch, stamped at its number, takes the run one further. */
  lemma StampedGoesOn(t: Tables, base: Counter, stream: string, events: seq<(U64, Object)>, i: nat, batch: Inserting,
                      next: nat, seqNo: U64, e: (U64, Object))
    requires AllValid(events) && i < |events| && batch.stopped.None?
    requires RunAt(t, base, AppendEntries(stream, events), i, batch)
    requires next == i + 1 && seqNo == base + i && e == events[i]
    ensures Valid(e.1)
    ensures RunAt(t, base, AppendEntries(stream, events), next,
                  Extended(batch, Writes.InsertStamped(batch.t, stream, Stamp(e.1, seqNo, e.0).value)))
  {
    assert e in events;
    StampedInsert(batch, stream, e.1, seqNo, e.0);
    RunGoesOn(t, base, AppendEntries(stream, events), i, batch, next, seqNo, AppendEntry(stream, (e.0, e.1)));
  }

  lemma RunStops(t: Tables, base: Counter, entries: seq<Entry>, k: nat, batch: Inserting)
    requires k <= |entries| && RunAt(t, base, entries, k, batch) && batch.stopped.Some?
    ensures InsertRun(t, base, entries, |entries|) == batch
  {
    InsertStops(t, base, entries, k, |entries|);
  }

  class TxnContext {
    const tx: Connection
    var published: seq<nat>

    constructor (tx: Connection)
      ensures this.tx == tx && published == []
    {
      this.tx := tx;
      published := [];
    }

    /** `insert_stamped`: the row is in, or nothing changed. */
    method InsertStamped(stream: string, event: Object) returns (answer: Result<Committed>)
      modifies tx
      ensures Went(old(tx.Tables()), tx.Tables(), Writes.InsertStamped(old(tx.Tables()), stream, event), answer)
    {
      if SEQ !in event || !event[SEQ].Unsigned? || BodyOf(event).None? { return Err(Storage); }
      var inserted := tx.InsertEvent(stream, event[SEQ].n, BodyOf(event).value);
      if inserted.Err? { return Err(inserted.error); }
      answer := Ok(Committed(event[SEQ].n, event[EPOCH_MS].n, inserted.value));
    }

    /** The next event of a batch, stamped and inserted. */
    method InsertAt(ghost began: Tables, base: Counter, stream: string, events: seq<(U64, Object)>, i: nat,
                    ghost out: seq<Committed>, ghost next: nat)
      returns (answer: Result<Committed>)
      requires AllValid(events) && i < |events| && next == i + 1
      requires RunAt(began, base, AppendEntries(stream, events), i, Inserting(tx.Tables(), out, None))
      modifies tx
      ensures RunAt(began, base, AppendEntries(stream, events), next,
                    if answer.Ok? then Inserting(tx.Tables(), out + [answer.value], None)
                    else Inserting(tx.Tables(), out, Some(answer.error)))
    {
      ghost var batch := Inserting(tx.Tables(), out, None);
      RunFits(began, base, AppendEntries(stream, events), i, batch);
      var seqNo: U64, e := base + i, events[i];
      StampedGoesOn(began, base, stream, events, i, batch, next, seqNo, e);
      answer := this.InsertStamped(stream, Stamp(e.1, seqNo, e.0).value);
    }

    /** The inserts of a batch, as far as they go. */
    method InsertBatch(base: Counter, stream: string, events: seq<(U64, Object)>)
      returns (out: seq<Committed>, stopped: Option<Error>)
      requires AllValid(events)
      modifies tx
      ensures InsertRun(old(tx.Tables()), base, AppendEntries(stream, events), |events|)
        == Inserting(tx.Tables(), out, stopped)
    {
      ghost var began, entries := tx.Tables(), AppendEntries(stream, events);
      RunBegins(began, base, entries);
      out, stopped := [], None;
      for i := 0 to |events|
        invariant RunAt(began, base, entries, i, Inserting(tx.Tables(), out, None)) && stopped.None?
      {
        var next := i + 1;
        var inserted := InsertAt(began, base, stream, events, i, out, next);
        if inserted.Err? {
          stopped := Some(inserted.error);
          RunStops(began, base, entries, next, Inserting(tx.Tables(), out, stopped));
          return;
        }
        out := out + [inserted.value];
      }
    }

    /** `append_many_at`. A failure part way leaves the rows that went in and no
        counter written; what becomes of them is the transaction's to decide. */
    method AppendManyAt(stream: string, events: seq<(U64, Object)>) returns (answer: Result<seq<Committed>>)
      modifies this, tx
      ensures (tx.Tables(), answer) == AppendMany(old(tx.Tables()), stream, events)
      ensures published == old(published) + if answer.Ok? then Positions(answer.value) else []
    {
      var valid := ValidateAll(events);
      if !valid { return Err(Validation); }
      if events == [] { return Ok([]); }
      ghost var began := tx.Tables();
      var base := NextSeq(tx.Tables(), stream);
      var out, stopped := this.InsertBatch(base, stream, events);
      var next := base as int + |out|;
      ManyIs(began, stream, events, base, Inserting(tx.Tables(), out, stopped), next);
      if stopped.Some? { return Err(stopped.value); }
      tx.UpsertCounter(stream, next);
      published := published + Positions(out);
      answer := Ok(out);
    }

    /** `append_at`: a batch of one. */
    method AppendAt(stream: string, clock: U64, event: Object) returns (answer: Result<Committed>)
      modifies this, tx
      ensures Went(old(tx.Tables()), tx.Tables(), Append(old(tx.Tables()), stream, event, clock), answer)
      ensures published == old(published) + if answer.Ok? then [answer.value.position] else []
    {
      var seqNo := NextSeq(tx.Tables(), stream);
      var stamped := Stamp(event, seqNo, clock);
      if stamped.Err? { return Err(stamped.error); }
      var inserted := this.InsertStamped(stream, stamped.value);
      if inserted.Err? { return inserted; }
      tx.UpsertCounter(stream, seqNo + 1);
      published := published + [inserted.value.position];
      answer := inserted;
    }

    /** One record of an import, restamped at the cached counter and inserted. */
    method InsertRestamped(ghost run: Importing, next: map<string, Counter>, exported: Exported)
      returns (answer: Result<Committed>, seqNo: Counter)
      requires run.t == tx.Tables() && run.next == next
      modifies tx
      ensures answer.Ok? ==> seqNo <= I64_MAX
      ensures ImportAnother((run, None), exported)
        == if answer.Ok? then
             (Importing(tx.Tables(), next[exported.stream := seqNo + 1], run.out + [answer.value]), None)
           else (Importing(tx.Tables(), next, run.out), Some(answer.error))
    {
      seqNo := if exported.stream in next then next[exported.stream] else NextSeq(tx.Tables(), exported.stream);
      var restamped := Restamp(exported.event, seqNo);
      if restamped.Err? { return Err(restamped.error), seqNo; }
      answer := this.InsertStamped(exported.stream, restamped.value);
    }

    /** The walk of an import: rows go in, counters are only cached. */
    method InsertImported(list: seq<Exported>)
      returns (next: map<string, Counter>, out: seq<Committed>, stopped: Option<Error>)
      modifies tx
      ensures ImportRun(old(tx.Tables()), list, |list|) == (Importing(tx.Tables(), next, out), stopped)
    {
      ghost var began := tx.Tables();
      next, out, stopped := map[], [], None;
      for i := 0 to |list|
        invariant ImportRun(began, list, i) == (Importing(tx.Tables(), next, out), stopped)
        invariant stopped.None?
      {
        var inserted, seqNo := InsertRestamped(ImportRun(began, list, i).0, next, list[i]);
        if inserted.Err? {
          stopped := Some(inserted.error);
          StoppedStays(began, list, i + 1, |list|);
          return;
        }
        out := out + [inserted.value];
        next := next[list[i].stream := seqNo + 1];
      }
    }

    /** Each cached counter is written once, in whatever order the map yields them. */
    method WriteCounters(next: map<string, Counter>)
      modifies tx
      ensures tx.Tables() == old(tx.Tables()).(counters := old(tx.counters) + next)
    {
      ghost var rows := tx.Tables();
      var left := next.Keys;
      while left != {}
        invariant left <= next.Keys
        invariant tx.Tables() == rows.(counters := tx.counters)
        invariant tx.counters == rows.counters + map stream | stream in next.Keys - left :: next[stream]
        decreases |left|
      {
        var stream :| stream in left;
        tx.UpsertCounter(stream, next[stream]);
        left := left - {stream};
      }
      assert (map stream | stream in next.Keys - left :: next[stream]) == next;
    }

    /** `import_many`: the counter is read once per stream and written once per
        stream, however the streams interleave. */
    method ImportMany(list: seq<Exported>) returns (answer: Result<seq<Committed>>)
      modifies this, tx
      ensures (tx.Tables(), answer) == Writes.ImportMany(old(tx.Tables()), list)
      ensures published == old(published) + if answer.Ok? then Positions(answer.value) else []
    {
      var next, out, stopped := this.InsertImported(list);
      if stopped.Some? { return Err(stopped.value); }
      this.WriteCounters(next);
      published := published + Positions(out);
      answer := Ok(out);
    }
  }
}
