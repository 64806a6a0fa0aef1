/** The database: its tables as one value, and the statements the crate runs
    against them. A read is a function; a statement that writes returns the
    tables it leaves, or the error SQLite would raise. */
module Database {
  import opened Wrappers
  import opened Event
  import opened Rows
  import opened Filters

  /** What a projection keeps in its own tables. */
  type Model(==, !new, 0)

  /** A stored sequence counter: where a stream carries on from. */
  type Counter = n: nat | 1 <= n <= I64_MAX + 1 witness 1

  /** One row of `exports`; its id is its place in the table, from 1. */
  datatype Receipt = Receipt(from: Stored, through: Stored, count: nat, whole: bool, landed: bool)

  /** One row of `retention`. */
  datatype LedgerRow = LedgerRow(removed: nat, highest: Stored, archived: bool)

  /** `issued` is the `AUTOINCREMENT` counter, which a rollback takes back with
      the rest and a delete does not. */
  datatype Tables = Tables(
    events: seq<Row>,
    issued: Stored,
    counters: map<string, Counter>,
    checkpoints: map<string, Stored>,
    ledger: seq<LedgerRow>,
    exports: seq<Receipt>,
    models: map<string, Model>)

  const Empty := Tables([], 0, map[], map[], [], [], map[])

  function Max(a: nat, b: nat): (m: nat)
    ensures m >= a && m >= b && (m == a || m == b)
  {
    if a < b then b else a
  }

  // ---- reads ---------------------------------------------------------------

  /** `SELECT COALESCE(MAX(position), 0) FROM events`. */
  function HeadOf(rows: seq<Row>): (head: Stored)
    ensures forall r <- rows :: r.position <= head
    ensures head == 0 || exists r <- rows :: r.position == head
  {
    if rows == [] then 0
    else
      var rest := HeadOf(rows[..|rows| - 1]);
      var last := rows[|rows| - 1];
      assert forall r <- rows :: r in rows[..|rows| - 1] || r == last;
      Max(rest, last.position)
  }

  function Head(t: Tables): Stored { HeadOf(t.events) }

  /** `SELECT COALESCE(MAX(highest_removed), 0) FROM retention`. */
  function WatermarkOf(ledger: seq<LedgerRow>): (w: Stored)
    ensures forall l <- ledger :: l.highest <= w
    ensures w == 0 || exists l <- ledger :: l.highest == w
  {
    if ledger == [] then 0
    else
      var rest := WatermarkOf(ledger[..|ledger| - 1]);
      var last := ledger[|ledger| - 1];
      assert forall l <- ledger :: l in ledger[..|ledger| - 1] || l == last;
      Max(rest, last.highest)
  }

  function Watermark(t: Tables): Stored { WatermarkOf(t.ledger) }

  function LoadCheckpoint(t: Tables, consumer: string): Stored {
    if consumer in t.checkpoints then t.checkpoints[consumer] else 0
  }

  /** A limit past the signed range means no limit. */
  function Limit<T>(rows: seq<T>, limit: nat): seq<T> {
    if limit <= I64_MAX && limit < |rows| then rows[..limit] else rows
  }

  /** The matching rows past a position. */
  function After(rows: seq<Row>, from: nat, f: Filter): seq<Row> {
    Pick(rows, (r: Row) => r.position > from && f.Matches(r))
  }

  /** The cross-stream read: filter, order by position, limit. */
  function SelectStored(t: Tables, from: U64, f: Filter, limit: nat): Result<seq<Row>> {
    if f.SelectsNothing() || limit == 0 then Ok([])
    else if f.NonScalarPair() then Err(Validation)
    else if from > I64_MAX then Err(Validation)
    else if f.Refusal().Some? then Err(f.Refusal().value)
    else Ok(Limit(After(t.events, from, f), limit))
  }

  /** When the cross-stream read answers with rows, and what it says otherwise. An axis
      that lists nothing, or a page of none, never reaches the database, so nothing
      else about the request is looked at. */
  lemma ReadAnswers(t: Tables, from: U64, f: Filter, limit: nat)
    ensures var r := SelectStored(t, from, f, limit);
      if f.kinds == Some([]) || f.streams == Some([]) || limit == 0 then r == Ok([])
      else if from > I64_MAX || !ScalarPairs(f) then r == Err(Validation)
      else if Nameable(f) && Binds(f) then r.Ok?
      else if TooLong(f) then r == Err(Unsupported)
      else r == Err(if Nameable(f) then Storage else Validation)
  {
    RunsExactly(f);
    if f.meta.Some? {
      if ScalarPairs(f) {
        forall pair | pair in f.meta.value ensures IsScalar(pair.1) {
          var i :| 0 <= i < |f.meta.value| && f.meta.value[i] == pair;
        }
      } else {
        var i :| 0 <= i < |f.meta.value| && (f.meta.value[i].1.Null? || f.meta.value[i].1.Arr? || f.meta.value[i].1.Obj?);
        assert f.meta.value[i] in f.meta.value;
      }
    }
  }

  /** No `meta` pair asks for a null, a list or an object. */
  predicate ScalarPairs(f: Filter) {
    f.meta.Some? ==> forall i :: 0 <= i < |f.meta.value| ==>
      var value := f.meta.value[i].1;
      !value.Null? && !value.Arr? && !value.Obj?
  }

  /** One stream's read. The bound is cast to a signed column, so it wraps. */
  function SelectStream(t: Tables, stream: string, kinds: Option<seq<string>>, from: U64, limit: nat)
    : seq<Row>
  {
    if kinds == Some([]) then []
    else Limit(OfStreamFrom(t.events, stream, kinds, ToI64(from)), limit)
  }

  /** In sequence order, which is position order only while the history holds. */
  function OfStreamFrom(rows: seq<Row>, stream: string, kinds: Option<seq<string>>, from: I64): seq<Row> {
    OrderBySeq(OfStream(rows, stream, kinds, from))
  }

  function OfStream(rows: seq<Row>, stream: string, kinds: Option<seq<string>>, from: I64): seq<Row> {
    Pick(rows, (r: Row) => r.stream == stream && r.seqNo >= from && (kinds.Some? ==> r.body.kind in kinds.value))
  }

  function NextSeq(t: Tables, stream: string): Counter {
    if stream in t.counters then t.counters[stream] else 1
  }

  // ---- statements ----------------------------------------------------------

  predicate Taken(t: Tables, stream: string, seqNo: nat) {
    exists r <- t.events :: r.stream == stream && r.seqNo == seqNo
  }

  /** `INSERT INTO events`: refused by `UNIQUE (stream, seq)` and at the rowid
      ceiling; otherwise the row takes the next position. */
  function Insert(t: Tables, stream: string, seqNo: nat, body: Body): Result<Tables> {
    if Taken(t, stream, seqNo) then Err(Storage)
    else if t.issued >= I64_MAX || seqNo > I64_MAX then Err(Storage)
    else Ok(t.(events := t.events + [Row(t.issued + 1, stream, seqNo, body)],
               issued := t.issued + 1))
  }

  function SetNextSeq(t: Tables, stream: string, next: Counter): Tables {
    t.(counters := t.counters[stream := next])
  }

  function SaveCheckpoint(t: Tables, consumer: string, at: U64): Result<Tables> {
    if at > I64_MAX then Err(Validation) else Ok(t.(checkpoints := t.checkpoints[consumer := at]))
  }

  /** The one way a row is meant to be written: at the stream's counter, which
      moves with it. */
  function Put(t: Tables, stream: string, body: Body): Result<Tables> {
    var seqNo := NextSeq(t, stream);
    var inserted :- Insert(t, stream, seqNo, body);
    Ok(SetNextSeq(inserted, stream, seqNo + 1))
  }

  datatype Entry = Entry(stream: string, body: Body)

  /** The first `k` of a run of entries, each put in turn. */
  function PutTo(t: Tables, entries: seq<Entry>, k: nat): Result<Tables>
    requires k <= |entries|
  {
    if k == 0 then Ok(t) else PutNext(PutTo(t, entries, k - 1), entries[k - 1])
  }

  function PutNext(sofar: Result<Tables>, entry: Entry): Result<Tables> {
    if sofar.Err? then sofar else Put(sofar.value, entry.stream, entry.body)
  }

  function PutAll(t: Tables, entries: seq<Entry>): Result<Tables> {
    PutTo(t, entries, |entries|)
  }

  lemma {:induction false} PutToPrefix(t: Tables, a: seq<Entry>, b: seq<Entry>, k: nat)
    requires k <= |a| && a <= b
    ensures PutTo(t, a, k) == PutTo(t, b, k)
  {
    if k > 0 {
      PutToPrefix(t, a, b, k - 1);
      assert a[k - 1] == b[k - 1];
    }
  }

  /** A run that fails has failed at every longer length. */
  lemma {:induction false} PutToStops(t: Tables, entries: seq<Entry>, k: nat, n: nat)
    requires k <= n <= |entries| && PutTo(t, entries, k).Err?
    ensures PutTo(t, entries, n).Err?
  {
    if k < n { PutToStops(t, entries, k, n - 1); }
  }

  /** A run of puts continues where another left off. */
  lemma {:induction false} PutToConcat(t: Tables, a: seq<Entry>, b: seq<Entry>, k: nat)
    requires k <= |b| && PutAll(t, a).Ok?
    ensures PutTo(t, a + b, |a| + k) == PutTo(PutAll(t, a).value, b, k)
  {
    if k == 0 { PutToPrefix(t, a, a + b, |a|); } else { PutToConcat(t, a, b, k - 1); }
  }

  lemma AfterMembers(rows: seq<Row>, from: nat, f: Filter, r: Row)
    ensures r in After(rows, from, f) <==> r in rows && r.position > from && f.Matches(r)
  {}

  lemma AfterSorted(rows: seq<Row>, from: nat, f: Filter)
    requires Sorted(rows)
    ensures Sorted(After(rows, from, f))
  {
    PickSorted(rows, (r: Row) => r.position > from && f.Matches(r));
  }
}
