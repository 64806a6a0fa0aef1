/** The history variable and what every operation keeps of it.

    `hist` is every row ever committed, in commit order, removed ones included.
    Nothing the database does reads it. */
module History {
  import opened Wrappers
  import opened Event
  import opened Rows
  import opened Filters
  import opened Database
  import opened Writes

  function Count(hist: seq<Row>, stream: string): (n: nat)
    ensures n <= |hist|
  {
    if hist == [] then 0
    else Count(hist[..|hist| - 1], stream) + (if hist[|hist| - 1].stream == stream then 1 else 0)
  }

  /** Positions are 1, 2, 3, … in commit order. */
  ghost predicate Placed(hist: seq<Row>) {
    forall i :: 0 <= i < |hist| ==> hist[i].position == i + 1 && Written(hist[i].body)
  }

  /** Each row's sequence number counts its stream's rows up to it. */
  ghost predicate Numbered(hist: seq<Row>) {
    forall i :: 0 <= i < |hist| ==> NumberedAt(hist, i)
  }

  ghost predicate NumberedAt(hist: seq<Row>, i: nat)
    requires i < |hist|
  {
    hist[i].seqNo == Count(hist[..i], hist[i].stream) + 1
  }

  ghost predicate CountersAgree(t: Tables, hist: seq<Row>) {
    forall stream :: NextSeq(t, stream) == Count(hist, stream) + 1
  }

  /** Every live row is the one committed at its position, in order. */
  ghost predicate LiveFrom(t: Tables, hist: seq<Row>) {
    Sorted(t.events) && forall r <- t.events :: 1 <= r.position <= |hist| && hist[r.position - 1] == r
  }

  /** The ledger's maximum is itself the highest removed position. */
  ghost predicate LedgerExact(t: Tables, hist: seq<Row>) {
    && (forall r <- hist :: r.position > Watermark(t) ==> r in t.events)
    && (Watermark(t) > 0 ==> Watermark(t) <= |hist| && hist[Watermark(t) - 1] !in t.events)
  }

  /** The half that rests on positions. */
  ghost predicate Recorded(t: Tables, hist: seq<Row>) {
    t.issued == |hist| && Placed(hist) && LiveFrom(t, hist) && LedgerExact(t, hist)
  }

  /** The whole invariant: the other half rests on the streams' counters. */
  ghost predicate Inv(t: Tables, hist: seq<Row>) {
    Recorded(t, hist) && Numbered(hist) && CountersAgree(t, hist)
  }

  // ---- counting ------------------------------------------------------------

  lemma {:induction false} CountMonotone(hist: seq<Row>, i: nat, stream: string)
    requires i <= |hist|
    ensures Count(hist[..i], stream) <= Count(hist, stream)
    decreases |hist|
  {
    if i < |hist| {
      CountMonotone(hist[..|hist| - 1], i, stream);
      assert hist[..|hist| - 1][..i] == hist[..i];
    } else {
      assert hist[..i] == hist;
    }
  }

  lemma CountThrough(hist: seq<Row>, i: nat, stream: string)
    requires i < |hist|
    ensures Count(hist[..i + 1], stream) == Count(hist[..i], stream) + (if hist[i].stream == stream then 1 else 0)
  {
    assert hist[..i + 1][..i] == hist[..i];
  }

  lemma SeqWithinCount(hist: seq<Row>, i: nat)
    requires Numbered(hist) && i < |hist|
    ensures 1 <= hist[i].seqNo <= Count(hist, hist[i].stream)
  {
    assert NumberedAt(hist, i);
    CountThrough(hist, i, hist[i].stream);
    CountMonotone(hist, i + 1, hist[i].stream);
  }

  lemma {:induction false} NumberIsIssued(hist: seq<Row>, k: nat, stream: string, n: nat)
    requires Numbered(hist) && k <= |hist| && 1 <= n <= Count(hist[..k], stream)
    ensures exists r <- hist :: r.stream == stream && r.seqNo == n
  {
    CountThrough(hist, k - 1, stream);
    if n <= Count(hist[..k - 1], stream) {
      NumberIsIssued(hist, k - 1, stream, n);
    } else {
      assert NumberedAt(hist, k - 1) && hist[k - 1] in hist;
    }
  }

  // ---- appending -----------------------------------------------------------

  /** Tables that differ from `t` by appended rows and moved counters only. */
  predicate OnlyAppends(t: Tables, u: Tables) {
    && t.events <= u.events
    && u == t.(events := u.events, issued := u.issued, counters := u.counters)
  }

  function Added(t: Tables, u: Tables): seq<Row> {
    if |t.events| <= |u.events| then u.events[|t.events|..] else []
  }

  lemma AddedJoins(t: Tables, u: Tables)
    requires OnlyAppends(t, u)
    ensures u.events == t.events + Added(t, u)
  {}

  lemma AddedConcat(t: Tables, u: Tables, v: Tables)
    requires OnlyAppends(t, u) && OnlyAppends(u, v)
    ensures OnlyAppends(t, v) && Added(t, v) == Added(t, u) + Added(u, v)
  {}

  /** The rows stand at the positions that follow. */
  ghost predicate PlacedFrom(rows: seq<Row>, issued: nat) {
    forall i :: 0 <= i < |rows| ==> rows[i].position == issued + 1 + i && Written(rows[i].body)
  }

  /** Rows were appended at the next positions and nothing else was touched but
      counters: what any insert leaves, whether its call succeeded or not. */
  ghost predicate InPlace(t: Tables, u: Tables) {
    OnlyAppends(t, u) && u.issued == t.issued + |Added(t, u)| && PlacedFrom(Added(t, u), t.issued)
  }

  lemma InPlaceConcat(t: Tables, u: Tables, v: Tables)
    requires InPlace(t, u) && InPlace(u, v)
    ensures InPlace(t, v)
  {
    AddedConcat(t, u, v);
  }

  lemma InsertInPlace(t: Tables, stream: string, seqNo: nat, body: Body)
    requires Insert(t, stream, seqNo, body).Ok? && Written(body)
    ensures InPlace(t, Insert(t, stream, seqNo, body).value)
  {}

  /** A row appended in place is found at its position. */
  lemma FoundInPlace(hist: seq<Row>, more: seq<Row>, r: Row)
    requires PlacedFrom(more, |hist|) && r in more
    ensures |hist| < r.position <= |hist + more| && (hist + more)[r.position - 1] == r
  {
    var i :| 0 <= i < |more| && more[i] == r;
    assert (hist + more)[|hist| + i] == r;
  }

  lemma SortedGrows(rows: seq<Row>, issued: nat, more: seq<Row>)
    requires Sorted(rows) && PlacedFrom(more, issued) && forall r <- rows :: r.position <= issued
    ensures Sorted(rows + more)
  {
    forall i, j | 0 <= i < j < |more| ensures more[i].position < more[j].position {}
    SortedConcat(rows, more);
  }

  lemma LiveGrows(t: Tables, hist: seq<Row>, more: seq<Row>, u: Tables)
    requires LiveFrom(t, hist) && PlacedFrom(more, |hist|) && u.events == t.events + more
    ensures LiveFrom(u, hist + more)
  {
    SortedGrows(t.events, |hist|, more);
    forall r | r in u.events ensures 1 <= r.position <= |hist + more| && (hist + more)[r.position - 1] == r {
      if r in more {
        FoundInPlace(hist, more, r);
      } else {
        assert r in t.events;
        assert (hist + more)[r.position - 1] == hist[r.position - 1];
      }
    }
  }

  lemma LedgerGrows(t: Tables, hist: seq<Row>, more: seq<Row>, u: Tables)
    requires LedgerExact(t, hist) && PlacedFrom(more, |hist|)
    requires u.events == t.events + more && u.ledger == t.ledger
    ensures LedgerExact(u, hist + more)
  {
    var mark := Watermark(t);
    assert Watermark(u) == mark;
    forall r | r in hist + more && r.position > mark ensures r in u.events {
      if r in hist { assert r in t.events; }
    }
    if mark > 0 {
      var last := hist[mark - 1];
      if last in more { FoundInPlace(hist, more, last); }
      assert (hist + more)[mark - 1] == last;
    }
  }

  /** Appending in place keeps the positional half, whatever became of counters. */
  lemma RecordedGrows(t: Tables, hist: seq<Row>, u: Tables)
    requires Recorded(t, hist) && InPlace(t, u)
    ensures Recorded(u, hist + Added(t, u))
  {
    var more := Added(t, u);
    assert u.events == t.events + more;
    LiveGrows(t, hist, more, u);
    LedgerGrows(t, hist, more, u);
  }

  // ---- putting -------------------------------------------------------------

  /** The row a put adds. */
  function NewRow(t: Tables, stream: string, body: Body): Row
    requires t.issued < I64_MAX && NextSeq(t, stream) <= I64_MAX
  {
    Row(t.issued + 1, stream, NextSeq(t, stream), body)
  }

  lemma CounterIsFree(t: Tables, hist: seq<Row>, stream: string)
    requires Inv(t, hist)
    ensures !Taken(t, stream, NextSeq(t, stream))
    ensures t.issued < I64_MAX ==> NextSeq(t, stream) <= I64_MAX
  {
    forall r | r in t.events && r.stream == stream ensures r.seqNo < NextSeq(t, stream) {
      SeqWithinCount(hist, r.position - 1);
    }
  }

  lemma NumberedGrows(hist: seq<Row>, row: Row)
    requires Numbered(hist) && row.seqNo == Count(hist, row.stream) + 1
    ensures Numbered(hist + [row])
  {
    var grown := hist + [row];
    forall i | 0 <= i < |grown| ensures NumberedAt(grown, i) {
      assert grown[..i] == hist[..i];
      if i < |hist| { assert NumberedAt(hist, i); }
    }
  }

  lemma CountersGrow(t: Tables, hist: seq<Row>, row: Row, u: Tables, n: Counter, grown: seq<Row>)
    requires CountersAgree(t, hist) && grown == hist + [row]
    requires n == NextSeq(t, row.stream) + 1 && u.counters == t.counters[row.stream := n]
    ensures CountersAgree(u, grown)
  {
    assert grown[..|grown| - 1] == hist;
    forall s ensures NextSeq(u, s) == Count(grown, s) + 1 { assert NextSeq(t, s) == Count(hist, s) + 1; }
  }

  lemma PutIs(t: Tables, stream: string, body: Body)
    requires !Taken(t, stream, NextSeq(t, stream)) && NextSeq(t, stream) <= I64_MAX && t.issued < I64_MAX
    ensures Put(t, stream, body).Ok?
    ensures var row, u := NewRow(t, stream, body), Put(t, stream, body).value;
      && u.events == t.events + [row] && u.issued == t.issued + 1 && u.ledger == t.ledger
      && u.counters == t.counters[stream := NextSeq(t, stream) + 1]
  {}

  /** A row put at its stream's counter extends the history. */
  lemma RowKeeps(t: Tables, hist: seq<Row>, row: Row, u: Tables, n: Counter)
    requires Inv(t, hist) && InPlace(t, u) && Added(t, u) == [row]
    requires row.seqNo == NextSeq(t, row.stream) && n == row.seqNo + 1 && u.counters == t.counters[row.stream := n]
    ensures Inv(u, hist + [row])
  {
    assert NextSeq(t, row.stream) == Count(hist, row.stream) + 1;
    NumberedGrows(hist, row);
    RecordedGrows(t, hist, u);
    CountersGrow(t, hist, row, u, n, hist + [row]);
  }

  /** Below the rowid ceiling a put always succeeds: `UNIQUE (stream, seq)` can
      never fire. It adds one row to the log and to history alike. */
  lemma PutKeeps(t: Tables, hist: seq<Row>, stream: string, body: Body)
    requires Inv(t, hist) && Written(body)
    ensures Put(t, stream, body).Ok? <==> t.issued < I64_MAX
    ensures t.issued < I64_MAX ==>
      NextSeq(t, stream) <= I64_MAX &&
      var row, u := NewRow(t, stream, body), Put(t, stream, body).value;
      u.events == t.events + [row] && Inv(u, hist + [row])
  {
    CounterIsFree(t, hist, stream);
    if t.issued < I64_MAX {
      PutIs(t, stream, body);
      var row, u := NewRow(t, stream, body), Put(t, stream, body).value;
      assert Added(t, u) == [row];
      RowKeeps(t, hist, row, u, NextSeq(t, stream) + 1);
    }
  }

  predicate AllWritten(entries: seq<Entry>) {
    forall e <- entries :: Written(e.body)
  }

  /** The rows are the entries, in order. */
  ghost predicate RowsAre(rows: seq<Row>, entries: seq<Entry>) {
    |rows| == |entries|
    && forall i :: 0 <= i < |rows| ==> rows[i].stream == entries[i].stream && rows[i].body == entries[i].body
  }

  lemma PutOnlyAppends(t: Tables, stream: string, body: Body)
    requires Put(t, stream, body).Ok?
    ensures OnlyAppends(t, Put(t, stream, body).value)
    ensures var added := Added(t, Put(t, stream, body).value);
      |added| == 1 && added[0].stream == stream && added[0].body == body
  {}

  lemma RowsAreConcat(a: seq<Row>, ea: seq<Entry>, b: seq<Row>, eb: seq<Entry>)
    requires RowsAre(a, ea) && RowsAre(b, eb)
    ensures RowsAre(a + b, ea + eb)
  {}

  /** What a run of puts leaves: the rows are appended and history with them. */
  ghost predicate PutsKept(t: Tables, hist: seq<Row>, entries: seq<Entry>, u: Tables) {
    OnlyAppends(t, u) && RowsAre(Added(t, u), entries) && Inv(u, hist + Added(t, u))
  }

  lemma JoinedRow(hist: seq<Row>, added: seq<Row>, row: Row)
    ensures hist + added + [row] == hist + (added + [row])
  {}

  lemma PutsKeptGrow(t: Tables, hist: seq<Row>, entries: seq<Entry>, mid: Tables, last: Entry, row: Row, u: Tables)
    requires PutsKept(t, hist, entries, mid)
    requires OnlyAppends(mid, u) && Added(mid, u) == [row] && row.stream == last.stream && row.body == last.body
    requires Inv(u, hist + Added(t, mid) + [row])
    ensures PutsKept(t, hist, entries + [last], u)
  {
    AddedConcat(t, mid, u);
    RowsAreConcat(Added(t, mid), entries, [row], [last]);
    JoinedRow(hist, Added(t, mid), row);
  }

  lemma PutKept(t: Tables, hist: seq<Row>, entries: seq<Entry>, mid: Tables, last: Entry)
    requires t.issued == |hist|
    requires PutsKept(t, hist, entries, mid) && Written(last.body)
    ensures mid.issued == t.issued + |entries|
    ensures Put(mid, last.stream, last.body).Ok? <==> mid.issued < I64_MAX
    ensures Put(mid, last.stream, last.body).Ok?
      ==> PutsKept(t, hist, entries + [last], Put(mid, last.stream, last.body).value)
  {
    PutKeeps(mid, hist + Added(t, mid), last.stream, last.body);
    if mid.issued < I64_MAX {
      var row := NewRow(mid, last.stream, last.body);
      PutOnlyAppends(mid, last.stream, last.body);
      PutsKeptGrow(t, hist, entries, mid, last, row, Put(mid, last.stream, last.body).value);
    }
  }

  lemma {:induction false} PutToKeeps(t: Tables, hist: seq<Row>, entries: seq<Entry>, k: nat)
    requires Inv(t, hist) && AllWritten(entries) && k <= |entries|
    ensures PutTo(t, entries, k).Ok? <==> t.issued + k <= I64_MAX
    ensures PutTo(t, entries, k).Ok? ==> PutsKept(t, hist, entries[..k], PutTo(t, entries, k).value)
  {
    if k == 0 {
      assert hist + [] == hist;
    } else {
      PutToKeeps(t, hist, entries, k - 1);
      assert entries[..k] == entries[..k - 1] + [entries[k - 1]] && entries[k - 1] in entries;
      if PutTo(t, entries, k - 1).Ok? {
        PutKept(t, hist, entries[..k - 1], PutTo(t, entries, k - 1).value, entries[k - 1]);
      }
    }
  }

  /** Below the ceiling a run of puts always succeeds. */
  lemma PutAllKeeps(t: Tables, hist: seq<Row>, entries: seq<Entry>)
    requires Inv(t, hist) && AllWritten(entries)
    ensures PutAll(t, entries).Ok? <==> t.issued + |entries| <= I64_MAX
    ensures PutAll(t, entries).Ok? ==> PutsKept(t, hist, entries, PutAll(t, entries).value)
  {
    PutToKeeps(t, hist, entries, |entries|);
    assert entries[..|entries|] == entries;
  }
}
