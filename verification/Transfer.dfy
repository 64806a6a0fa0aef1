/** Moving a log: what an export hands out, what an import reports, and when the
    report proves that the copy is the same log. */
module Transfer {
  import opened Wrappers
  import opened Event
  import opened Rows
  import opened Filters
  import opened Database
  import opened Writes
  import opened History
  import opened Routes
  import opened Hatch
  import opened ExactlyOnce
  import opened World
  import opened Numbering

  // ---- the record as JSON --------------------------------------------------

  /** What stands under a key of a record: an event object, or any other value. */
  datatype Member = Plain(json: Json) | Object(fields: Event.Object)

  type Line = map<string, Member>

  function ToJson(e: Exported): Line
    requires e.position.Some? ==> e.position.value <= U64_MAX
  {
    var line := map["stream" := Plain(Str(e.stream)), "event" := Object(e.event)];
    if e.position.Some? then line["position" := Plain(Unsigned(e.position.value))] else line
  }

  /** `position`: a missing key and a `null` are both no witness. */
  function Witness(line: Line): Result<Option<nat>> {
    if "position" !in line || line["position"] == Plain(Null) then Ok(None)
    else if line["position"].Plain? && line["position"].json.Unsigned? then Ok(Some(line["position"].json.n))
    else Err(Validation)
  }

  function FromJson(line: Line): Result<Exported> {
    if !("stream" in line && line["stream"].Plain? && line["stream"].json.Str? && line["stream"].json.s != "") then
      Err(Validation)
    else
      var position :- Witness(line);
      if !("event" in line && line["event"].Object? && ValidStored(line["event"].fields)) then Err(Validation)
      else Ok(Exported(line["stream"].json.s, position, line["event"].fields))
  }

  /** A record survives its JSON form exactly when its event is a stored one and its
      stream has a name; an append accepts the empty name, a record does not. */
  lemma RecordRoundTrips(e: Exported)
    requires e.position.Some? ==> e.position.value <= U64_MAX
    ensures FromJson(ToJson(e)) == Ok(e) <==> e.stream != "" && ValidStored(e.event)
    ensures FromJson(ToJson(e)).Ok? ==> FromJson(ToJson(e)) == Ok(e)
  {}

  /** The three members a record is read from; a position that is null is none. */
  function Read(line: Line): Line {
    map key | key in line && key in {"stream", "event", "position"}
      && !(key == "position" && line[key] == Plain(Null)) :: line[key]
  }

  /** Reading takes back what writing makes and nothing else: a line reads as a record
      exactly when its members are those of the record written out, whatever else the
      line holds, and every other line is refused. */
  lemma ReadsWhatIsWritten(line: Line, e: Exported)
    ensures FromJson(line) == Ok(e) <==>
      && e.stream != "" && ValidStored(e.event)
      && (e.position.Some? ==> e.position.value <= U64_MAX)
      && Read(line) == ToJson(e)
    ensures FromJson(line).Err? ==> FromJson(line) == Err(Validation)
  {
    var read := Read(line);
    if FromJson(line) == Ok(e) {
      assert e.position.Some? <==> "position" in read;
      assert read == ToJson(e);
    } else if (e.position.Some? ==> e.position.value <= U64_MAX) && read == ToJson(e) {
      assert "stream" in read && "event" in read;
      assert "position" in read <==> e.position.Some?;
    }
  }

  // ---- export and import ---------------------------------------------------

  /** An exported row: stored as it is, with its position as a witness. */
  function ExportedOf(r: Row): Exported {
    Exported(r.stream, Some(r.position), ObjectOf(r.seqNo, r.body))
  }

  function ExportedRows(rows: seq<Row>): (list: seq<Exported>)
    ensures |list| == |rows|
  {
    seq(|rows|, i requires 0 <= i < |rows| => ExportedOf(rows[i]))
  }

  function Export(t: Tables, from: U64, filter: Filter, limit: nat): Result<seq<Exported>> {
    var rows :- SelectStored(t, from, filter, limit);
    Ok(ExportedRows(rows))
  }

  /** What an export hands out: live rows the filter matches, past the start and in
      position order, each as a record that restamps back to the row; and nothing
      matching is missing up to the last of them, or at all if the page is short. */
  lemma ExportIsFaithful(t: Tables, from: U64, f: Filter, limit: nat, list: seq<Exported>, rows: seq<Row>)
    requires Sorted(t.events) && AllRowsWritten(t.events)
    requires Export(t, from, f, limit) == Ok(list) && SelectStored(t, from, f, limit) == Ok(rows)
    ensures |list| == |rows| && Sorted(rows)
    ensures forall i :: 0 <= i < |list| ==>
      && rows[i] in t.events && f.Matches(rows[i]) && rows[i].position > from
      && list[i].stream == rows[i].stream && list[i].position == Some(rows[i].position)
      && Restamp(list[i].event, rows[i].seqNo) == Ok(list[i].event)
      && BodyOf(list[i].event) == Some(rows[i].body)
    ensures forall r <- t.events :: r.position > from && f.Matches(r) && r !in rows ==>
      |list| == limit && (rows == [] || r.position > rows[|rows| - 1].position)
  {
    var all := After(t.events, from, f);
    AfterSorted(t.events, from, f);
    PageIsFront(t, f, from, limit, rows);
    forall i | 0 <= i < |list|
      ensures rows[i] in t.events && f.Matches(rows[i]) && rows[i].position > from
      ensures Restamp(list[i].event, rows[i].seqNo) == Ok(list[i].event) && BodyOf(list[i].event) == Some(rows[i].body)
    {
      assert rows[i] == all[i] && all[i] in all;
      WriteUndoesRead(rows[i].seqNo, rows[i].body, rows[i].seqNo);
    }
    forall r | r in all && r !in rows && rows != [] ensures r.position > rows[|rows| - 1].position {
      if r.position <= rows[|rows| - 1].position { InFront(all, rows, r); }
    }
  }

  datatype Report = Report(imported: nat, first: Option<nat>, last: Option<nat>, reproduced: bool)

  const Nothing := Report(0, None, None, true)

  predicate Landed(committed: seq<Committed>, list: seq<Exported>)
    requires |committed| == |list|
  {
    forall i :: 0 <= i < |list| ==> list[i].position == Some(committed[i].position)
  }

  function ReportOf(committed: seq<Committed>, list: seq<Exported>): Report
    requires |committed| == |list|
  {
    if list == [] then Nothing
    else Report(|list|, Some(committed[0].position), Some(committed[|list| - 1].position), Landed(committed, list))
  }

  /** Every record so far was given the next position. */
  ghost predicate InSequence(issued: nat, run: Importing) {
    && run.t.issued == issued + |run.out|
    && forall i :: 0 <= i < |run.out| ==> run.out[i].position == issued + 1 + i
  }

  lemma StaysInSequence(issued: nat, at: (Importing, Option<Error>), exported: Exported)
    requires InSequence(issued, at.0)
    ensures InSequence(issued, ImportAnother(at, exported).0)
  {}

  lemma {:induction false} ImportRunPositions(t: Tables, list: seq<Exported>, k: nat)
    requires k <= |list|
    ensures InSequence(t.issued, ImportRun(t, list, k).0)
  {
    if k > 0 {
      ImportRunPositions(t, list, k - 1);
      StaysInSequence(t.issued, ImportRun(t, list, k - 1), list[k - 1]);
    }
  }

  lemma {:induction false} ImportRunCounts(t: Tables, list: seq<Exported>, k: nat)
    requires k <= |list| && ImportRun(t, list, k).1.None?
    ensures |ImportRun(t, list, k).0.out| == k
  {
    if k > 0 { ImportRunCounts(t, list, k - 1); }
  }

  lemma ImportedPositions(t: Tables, list: seq<Exported>)
    requires ImportMany(t, list).1.Ok?
    ensures var out := ImportMany(t, list).1.value;
      |out| == |list| && forall i :: 0 <= i < |out| ==> out[i].position == t.issued + 1 + i
  {
    ImportRunPositions(t, list, |list|);
    ImportRunCounts(t, list, |list|);
  }

  /** `import`: one transaction. */
  function Import(t: Tables, list: seq<Exported>): Result<(Tables, Report)> {
    if list == [] then Ok((t, Nothing))
    else
      var (after, answer) := ImportMany(t, list);
      match answer
      case Err(error) => Err(error)
      case Ok(committed) =>
        ImportedPositions(t, list);
        Ok((after, ReportOf(committed, list)))
  }

  /** An import of no records touches nothing and has nothing that failed to land. */
  lemma EmptyImport(t: Tables)
    ensures Import(t, []) == Ok((t, Report(0, None, None, true)))
  {}

  /** What an import reports: how many, the first and the last of the run of new
      positions, and whether each record landed on the one it carried. */
  lemma ReportIsRight(t: Tables, list: seq<Exported>)
    requires Import(t, list).Ok? && list != []
    ensures var report := Import(t, list).value.1;
      && report.imported == |list|
      && report.first == Some(t.issued + 1) && report.last == Some(t.issued + |list|)
      && (report.reproduced <==> forall i :: 0 <= i < |list| ==> list[i].position == Some(t.issued + 1 + i))
  {
    ImportedPositions(t, list);
    var out := ImportMany(t, list).1.value;
    assert out[0].position == t.issued + 1 && out[|out| - 1].position == t.issued + |list|;
    if Landed(out, list) {
      forall i | 0 <= i < |list| ensures list[i].position == Some(t.issued + 1 + i) {
        assert list[i].position == Some(out[i].position);
      }
    }
  }

  // ---- a log moved in pages ------------------------------------------------

  function Joined(pages: seq<seq<Row>>, k: nat): seq<Row>
    requires k <= |pages|
  {
    if k == 0 then [] else Joined(pages, k - 1) + pages[k - 1]
  }

  /** A `LogSink` over `target`, shown the first `k` pages: what the target holds,
      and one report per page that was not empty. */
  function Sunk(target: Tables, pages: seq<seq<Row>>, k: nat): Result<(Tables, seq<Report>)>
    requires k <= |pages|
  {
    if k == 0 then Ok((target, [])) else SunkNext(Sunk(target, pages, k - 1), pages[k - 1])
  }

  function SunkNext(sofar: Result<(Tables, seq<Report>)>, page: seq<Row>): Result<(Tables, seq<Report>)> {
    if sofar.Err? || page == [] then sofar
    else
      var (after, report) :- Import(sofar.value.0, ExportedRows(page));
      Ok((after, sofar.value.1 + [report]))
  }

  predicate Reproduced(reports: seq<Report>) {
    forall report <- reports :: report.reproduced
  }

  /** The entries rows are written back as. */
  function EntriesOf(rows: seq<Row>): (entries: seq<Entry>)
    ensures |entries| == |rows|
  {
    seq(|rows|, i requires 0 <= i < |rows| => Entry(rows[i].stream, rows[i].body))
  }

  ghost predicate AllRowsWritten(rows: seq<Row>) {
    forall r <- rows :: Written(r.body)
  }

  /** A row read, exported and restamped is the entry it was written from. */
  lemma ExportedIsEntry(rows: seq<Row>)
    requires AllRowsWritten(rows)
    ensures ImportEntries(ExportedRows(rows)) == EntriesOf(rows)
    ensures AllStored(ExportedRows(rows)) && AllWritten(EntriesOf(rows))
  {
    forall i | 0 <= i < |rows|
      ensures ValidStored(ExportedRows(rows)[i].event)
      ensures ImportEntries(ExportedRows(rows))[i] == EntriesOf(rows)[i] && Written(EntriesOf(rows)[i].body)
    {
      assert rows[i] in rows;
      WriteUndoesRead(rows[i].seqNo, rows[i].body, 1);
    }
  }

  /** What a never-written store holds after some rows were imported into it. */
  ghost predicate Copies(u: Tables, rows: seq<Row>) {
    PutsKept(Empty, [], EntriesOf(rows), u) && u.issued == |rows|
  }

  /** More rows on a copy make a copy of more rows. */
  lemma EntriesConcat(a: seq<Row>, b: seq<Row>)
    ensures EntriesOf(a + b) == EntriesOf(a) + EntriesOf(b)
  {}

  /** A copy, with what it holds and what it was made from named. */
  ghost predicate CopyOf(u: Tables, held: seq<Row>, entries: seq<Entry>) {
    OnlyAppends(Empty, u) && held == Added(Empty, u) && RowsAre(held, entries) && Inv(u, held)
  }

  lemma CopyOfIs(u: Tables, rows: seq<Row>)
    ensures Copies(u, rows) <==> CopyOf(u, Added(Empty, u), EntriesOf(rows)) && u.issued == |rows|
  {
    assert [] + Added(Empty, u) == Added(Empty, u);
  }

  lemma CopyGrows(u: Tables, held: seq<Row>, a: seq<Entry>, v: Tables, b: seq<Entry>, more: seq<Row>)
    requires CopyOf(u, held, a) && OnlyAppends(u, v) && more == Added(u, v) && RowsAre(more, b) && Inv(v, held + more)
    ensures CopyOf(v, held + more, a + b)
  {
    AddedConcat(Empty, u, v);
    RowsAreConcat(held, a, more, b);
  }

  /** More rows on a copy make a copy of more rows. */
  lemma CopiesOn(u: Tables, rows: seq<Row>, page: seq<Row>, v: Tables)
    requires Copies(u, rows) && PutsKept(u, Added(Empty, u), EntriesOf(page), v) && v.issued == u.issued + |page|
    ensures Copies(v, rows + page)
  {
    CopyOfIs(u, rows);
    CopyOfIs(v, rows + page);
    CopyGrows(u, Added(Empty, u), EntriesOf(rows), v, EntriesOf(page), Added(u, v));
    EntriesConcat(rows, page);
  }

  /** Importing exported rows never aborts below the ceiling. */
  lemma PageGoesIn(u: Tables, rows: seq<Row>, page: seq<Row>)
    requires Copies(u, rows) && AllRowsWritten(page) && |rows| + |page| <= I64_MAX
    ensures var (v, answer) := ImportMany(u, ExportedRows(page)); answer.Ok? && Copies(v, rows + page)
  {
    var list, hist := ExportedRows(page), Added(Empty, u);
    assert [] + hist == hist;
    ExportedIsEntry(page);
    ImportManyIsPuts(u, list);
    PutAllKeeps(u, hist, EntriesOf(page));
    CopiesOn(u, rows, page, ImportMany(u, list).0);
  }

  lemma PageCopies(u: Tables, rows: seq<Row>, page: seq<Row>)
    requires Copies(u, rows) && page != [] && AllRowsWritten(page) && |rows| + |page| <= I64_MAX
    ensures var r := Import(u, ExportedRows(page));
      && r.Ok? && Copies(r.value.0, rows + page)
      && (r.value.1.reproduced <==> forall i :: 0 <= i < |page| ==> page[i].position == |rows| + 1 + i)
      && r.value.1.imported == |page|
  {
    PageGoesIn(u, rows, page);
    ImportedPositions(u, ExportedRows(page));
    LandedMeans(ImportMany(u, ExportedRows(page)).1.value, page, |rows|);
  }

  lemma LandedMeans(out: seq<Committed>, page: seq<Row>, issued: nat)
    requires |out| == |page| && forall i :: 0 <= i < |out| ==> out[i].position == issued + 1 + i
    ensures Landed(out, ExportedRows(page)) <==> forall i :: 0 <= i < |page| ==> page[i].position == issued + 1 + i
  {
    var list := ExportedRows(page);
    assert forall i :: 0 <= i < |page| ==> list[i].position == Some(page[i].position);
    if Landed(out, list) {
      forall i | 0 <= i < |page| ensures page[i].position == issued + 1 + i {
        assert list[i].position == Some(out[i].position);
      }
    }
  }

  predicate Counted(rows: seq<Row>) {
    forall i :: 0 <= i < |rows| ==> rows[i].position == i + 1
  }

  lemma CountedConcat(a: seq<Row>, b: seq<Row>)
    ensures Counted(a + b) <==> Counted(a) && forall i :: 0 <= i < |b| ==> b[i].position == |a| + 1 + i
  {
    if Counted(a + b) {
      forall i | 0 <= i < |a| ensures a[i].position == i + 1 { assert (a + b)[i] == a[i]; }
      forall i | 0 <= i < |b| ensures b[i].position == |a| + 1 + i { assert (a + b)[|a| + i] == b[i]; }
    }
  }

  lemma ReproducedOn(reports: seq<Report>, report: Report)
    ensures Reproduced(reports + [report]) <==> Reproduced(reports) && report.reproduced
  {
    if Reproduced(reports + [report]) {
      forall x | x in reports ensures x.reproduced { assert x in reports + [report]; }
      assert report in reports + [report];
    }
  }

  /** Some pages, in one store: copied, and reproduced exactly when their positions
      count from 1. */
  ghost predicate SunkWell(sunk: Result<(Tables, seq<Report>)>, rows: seq<Row>) {
    sunk.Ok? && Copies(sunk.value.0, rows) && (Reproduced(sunk.value.1) <==> Counted(rows))
  }

  lemma SinksNext(sofar: Result<(Tables, seq<Report>)>, rows: seq<Row>, page: seq<Row>, more: seq<Row>)
    requires SunkWell(sofar, rows) && more == rows + page
    requires AllRowsWritten(page) && |more| <= I64_MAX
    ensures SunkWell(SunkNext(sofar, page), more)
  {
    if page == [] {
      assert more == rows;
    } else {
      var (before, reports) := sofar.value;
      PageCopies(before, rows, page);
      CountedConcat(rows, page);
      ReproducedOn(reports, Import(before, ExportedRows(page)).value.1);
    }
  }

  lemma EmptyIsHistory()
    ensures Inv(Empty, [])
  {}

  lemma NothingSunk(pages: seq<seq<Row>>)
    ensures SunkWell(Sunk(Empty, pages, 0), Joined(pages, 0))
  {
    assert EntriesOf([]) == [] && Added(Empty, Empty) == [];
    EmptyIsHistory();
  }

  lemma NextPage(pages: seq<seq<Row>>, j: nat, k: nat, target: Tables)
    requires k == j + 1 <= |pages|
    ensures Joined(pages, k) == Joined(pages, j) + pages[j]
    ensures Sunk(target, pages, k) == SunkNext(Sunk(target, pages, j), pages[j])
    ensures AllRowsWritten(Joined(pages, k)) ==> AllRowsWritten(Joined(pages, j)) && AllRowsWritten(pages[j])
  {
    assert forall r <- Joined(pages, j) :: r in Joined(pages, k);
    assert forall r <- pages[j] :: r in Joined(pages, k);
  }

  lemma {:induction false} PagesCopy(pages: seq<seq<Row>>, k: nat)
    requires k <= |pages| && AllRowsWritten(Joined(pages, k)) && |Joined(pages, k)| <= I64_MAX
    ensures SunkWell(Sunk(Empty, pages, k), Joined(pages, k))
  {
    if k == 0 {
      NothingSunk(pages);
    } else {
      var j := k - 1;
      NextPage(pages, j, k, Empty);
      PagesCopy(pages, j);
      SinksNext(Sunk(Empty, pages, j), Joined(pages, j), pages[j], Joined(pages, k));
    }
  }

  // ---- the same log --------------------------------------------------------

  /** Numbering leaves no choice: the streams and bodies decide the rest. */
  lemma {:induction false} NumberedUnique(a: seq<Row>, b: seq<Row>, k: nat)
    requires Placed(a) && Placed(b) && Numbered(a) && Numbered(b) && k <= |a| && |a| <= |b|
    requires forall i :: 0 <= i < |a| ==> a[i].stream == b[i].stream && a[i].body == b[i].body
    ensures a[..k] == b[..k]
  {
    if k > 0 {
      NumberedUnique(a, b, k - 1);
      assert NumberedAt(a, k - 1) && NumberedAt(b, k - 1);
      assert a[..k] == a[..k - 1] + [a[k - 1]] && b[..k] == b[..k - 1] + [b[k - 1]];
    }
  }

  lemma LiveAreWritten(t: Tables, hist: seq<Row>)
    requires Recorded(t, hist)
    ensures AllRowsWritten(t.events)
  {
    forall r | r in t.events ensures Written(r.body) { assert hist[r.position - 1] == r; }
  }

  lemma {:induction false} CountedHasAll(t: Tables, hist: seq<Row>, i: nat)
    requires Recorded(t, hist) && Counted(t.events) && i < |hist| && hist[i].position <= Head(t)
    ensures hist[i] in t.events
  {
    if t.events != [] { CountedHead(t); }
    var r := t.events[i];
    assert r in t.events && r.position == i + 1;
    assert hist[r.position - 1] == r;
  }

  /** Positions count from 1 exactly when nothing below the head is gone. */
  lemma CountedMeansNoGap(t: Tables, hist: seq<Row>)
    requires Recorded(t, hist)
    ensures Counted(t.events) <==> forall r <- hist :: r.position <= Head(t) ==> r in t.events
  {
    if Counted(t.events) {
      forall r | r in hist && r.position <= Head(t) ensures r in t.events {
        var i :| 0 <= i < |hist| && hist[i] == r;
        CountedHasAll(t, hist, i);
      }
    } else {
      SortedHasRoom(t.events, |hist|, |t.events|);
      var i :| 0 <= i < |t.events| && t.events[i].position != i + 1;
      FirstGap(t, hist, i);
    }
  }

  lemma CountedHead(t: Tables)
    requires Counted(t.events) && t.events != []
    ensures Head(t) == |t.events|
  {
    assert t.events[|t.events| - 1] in t.events;
  }

  /** Some position below a row that stands too high has no live row. */
  lemma {:induction false} FirstGap(t: Tables, hist: seq<Row>, i: nat)
    requires Recorded(t, hist) && i < |t.events| && t.events[i].position != i + 1
    ensures exists r <- hist :: r.position <= Head(t) && r !in t.events
  {
    if i > 0 && t.events[i - 1].position != i {
      FirstGap(t, hist, i - 1);
    } else {
      SortedHasRoom(t.events, |hist|, i + 1);
      assert t.events[i] in t.events;
      var r := hist[i];
      assert r in hist;
      forall j | 0 <= j < |t.events| ensures t.events[j] != r {
        if j < i { assert t.events[j].position <= t.events[i - 1].position; }
        if j > i { assert t.events[i].position < t.events[j].position; }
      }
    }
  }

  lemma CopyIsHistory(u: Tables, rows: seq<Row>)
    requires Copies(u, rows)
    ensures Placed(u.events) && Numbered(u.events) && RowsAre(u.events, EntriesOf(rows))
  {
    assert [] + Added(Empty, u) == u.events;
  }

  /** A copy of rows counted from 1 is those rows exactly when they carry the
      numbers of their streams. */
  lemma CountedCopyIsSame(u: Tables, rows: seq<Row>)
    requires Copies(u, rows) && Counted(rows) && AllRowsWritten(rows)
    ensures u.events == rows <==> Numbered(rows)
  {
    CopyIsHistory(u, rows);
    if Numbered(rows) { NumberedUnique(u.events, rows, |rows|); }
  }

  lemma CountedIsPrefix(t: Tables, hist: seq<Row>)
    requires Recorded(t, hist) && Counted(t.events)
    ensures |t.events| <= |hist| && t.events == hist[..|t.events|]
  {
    SortedHasRoom(t.events, |hist|, |t.events|);
    forall i | 0 <= i < |t.events| ensures t.events[i] == hist[i] { assert t.events[i] in t.events; }
  }

  lemma PrefixIsNumbered(w: World, n: nat)
    requires NumbersHold(w) && n <= |w.hist| && w.t.events == w.hist[..n]
    ensures Numbered(w.t.events)
  {
    forall i | 0 <= i < n ensures w.hist[i] in w.t.events { assert w.t.events[i] == w.hist[i]; }
    assert FrontNumbered(w, n) && FrontIsLive(w, n);
  }

  lemma CountedIsNumbered(w: World)
    requires LogHolds(w) && NumbersHold(w) && Counted(w.t.events)
    ensures Numbered(w.t.events)
  {
    CountedIsPrefix(w.t, w.hist);
    PrefixIsNumbered(w, |w.t.events|);
  }

  /** Whatever the log's sequence numbers are: pages of its live rows go into a
      store never written to, and the reports tell whether any is gone. */
  lemma PagesGoIn(t: Tables, hist: seq<Row>, pages: seq<seq<Row>>)
    requires Recorded(t, hist) && Joined(pages, |pages|) == t.events
    ensures SunkWell(Sunk(Empty, pages, |pages|), t.events)
    ensures Counted(t.events) <==> forall r <- hist :: r.position <= Head(t) ==> r in t.events
    ensures AllRowsWritten(t.events)
  {
    LiveAreWritten(t, hist);
    SortedHasRoom(t.events, |hist|, |t.events|);
    PagesCopy(pages, |pages|);
    CountedMeansNoGap(t, hist);
  }

  /** The same log: in every state of every run a source's live events, exported in
      pages of any sizes and imported into a store never written to, go in. Every
      report says the coordinates were reproduced exactly when nothing below the
      source's head was removed; and then the target holds the source's rows,
      sequence numbers included, though those are never compared. */
  lemma SameLog(ops: seq<Op>, k: nat, pages: seq<seq<Row>>)
    requires k <= |ops| && Joined(pages, |pages|) == Run(Fresh, ops, k).t.events
    ensures Sunk(Empty, pages, |pages|).Ok?
    ensures var (u, reports) := Sunk(Empty, pages, |pages|).value;
      var w := Run(Fresh, ops, k);
      && (Reproduced(reports) <==> forall r <- w.hist :: r.position <= Head(w.t) ==> r in w.t.events)
      && (Reproduced(reports) ==> u.events == w.t.events)
  {
    var w := Run(Fresh, ops, k);
    LogAlwaysHolds(ops, k);
    NumbersAlwaysHold(ops, k);
    PagesGoIn(w.t, w.hist, pages);
    if Counted(w.t.events) {
      CountedIsNumbered(w);
      CountedCopyIsSame(Sunk(Empty, pages, |pages|).value.0, w.t.events);
    }
  }

  /** Nothing removed is enough. */
  lemma UntouchedLogIsReproduced(ops: seq<Op>, k: nat, pages: seq<seq<Row>>)
    requires k <= |ops| && Joined(pages, |pages|) == Run(Fresh, ops, k).t.events
    requires Run(Fresh, ops, k).t.ledger == []
    ensures Sunk(Empty, pages, |pages|).Ok? && Reproduced(Sunk(Empty, pages, |pages|).value.1)
    ensures Sunk(Empty, pages, |pages|).value.0.events == Run(Fresh, ops, k).hist
  {
    SameLog(ops, k, pages);
    LogAlwaysHolds(ops, k);
    WholeIsHistory(Run(Fresh, ops, k));
  }

  // ---- paging an export ----------------------------------------------------

  /** Exporting page by page, each from where the last one ended. */
  function ExportPages(t: Tables, from: Stored, limit: nat): (pages: seq<seq<Row>>)
    requires limit > 0 && Sorted(t.events)
    decreases |After(t.events, from, All)|
  {
    var page := SelectStored(t, from, All, limit).value;
    if page == [] then []
    else
      PageShrinks(t, from, limit, page);
      [page] + ExportPages(t, page[|page| - 1].position, limit)
  }

  lemma InFront(all: seq<Row>, page: seq<Row>, r: Row)
    requires Sorted(all) && page <= all && page != [] && r in all && r.position <= page[|page| - 1].position
    ensures r in page
  {
    var i :| 0 <= i < |all| && all[i] == r;
    assert all[|page| - 1] == page[|page| - 1];
  }

  /** A front and the rows past it are the whole. */
  lemma FrontAndRest(rows: seq<Row>, from: nat, to: nat, all: seq<Row>, page: seq<Row>, rest: seq<Row>)
    requires Sorted(all) && Sorted(rest) && page <= all && page != [] && to == page[|page| - 1].position && from < to
    requires forall r :: r in all <==> r in rows && r.position > from
    requires forall r :: r in rest <==> r in rows && r.position > to
    ensures all == page + rest
  {
    assert all[|page| - 1] == page[|page| - 1];
    forall r | r in page ensures r in all && r.position <= to {}
    forall r | r in all && r.position <= to ensures r in page { InFront(all, page, r); }
    SortedConcat(page, rest);
    SortedUnique(all, page + rest);
  }

  lemma PageShrinks(t: Tables, from: Stored, limit: nat, page: seq<Row>)
    requires Sorted(t.events) && SelectStored(t, from, All, limit) == Ok(page) && page != []
    ensures After(t.events, from, All) == page + After(t.events, page[|page| - 1].position, All)
  {
    var all, to := After(t.events, from, All), page[|page| - 1].position;
    AfterSorted(t.events, from, All);
    AfterSorted(t.events, to, All);
    PageIsFront(t, All, from, limit, page);
    assert page[|page| - 1] in all;
    FrontAndRest(t.events, from, to, all, page, After(t.events, to, All));
  }

  lemma {:induction false} JoinedCons(page: seq<Row>, rest: seq<seq<Row>>, pages: seq<seq<Row>>, k: nat, n: nat)
    requires k <= |rest| && pages == [page] + rest && n == k + 1
    ensures Joined(pages, n) == page + Joined(rest, k)
  {
    if k > 0 {
      JoinedCons(page, rest, pages, k - 1, k);
      assert pages[k] == rest[k - 1];
      assert page + (Joined(rest, k - 1) + rest[k - 1]) == page + Joined(rest, k - 1) + rest[k - 1];
    } else {
      assert Joined(pages, 0) == [];
    }
  }

  /** What one page adds to an export. */
  lemma ExportPagesStep(t: Tables, from: Stored, limit: nat, page: seq<Row>, to: Stored)
    requires limit > 0 && Sorted(t.events) && SelectStored(t, from, All, limit) == Ok(page)
    requires page != [] && to == page[|page| - 1].position
    ensures ExportPages(t, from, limit) == [page] + ExportPages(t, to, limit)
    ensures |After(t.events, to, All)| < |After(t.events, from, All)|
  {
    PageShrinks(t, from, limit, page);
  }

  /** Paging loses nothing, repeats nothing and keeps the order. */
  lemma {:induction false} PagingIsWhole(t: Tables, from: Stored, limit: nat)
    requires limit > 0 && Sorted(t.events)
    ensures var pages := ExportPages(t, from, limit); Joined(pages, |pages|) == After(t.events, from, All)
    decreases |After(t.events, from, All)|
  {
    var page := SelectStored(t, from, All, limit).value;
    if page != [] {
      var to := page[|page| - 1].position;
      PageShrinks(t, from, limit, page);
      ExportPagesStep(t, from, limit, page, to);
      PagingIsWhole(t, to, limit);
      var rest, pages := ExportPages(t, to, limit), ExportPages(t, from, limit);
      JoinedCons(page, rest, pages, |rest|, |pages|);
      assert Joined(pages, |pages|) == page + After(t.events, to, All);
    }
  }

  /** The whole of it: page a log with any limit into a store never written to. */
  lemma MovedLog(ops: seq<Op>, k: nat, limit: nat)
    requires k <= |ops| && limit > 0
    ensures var w := Run(Fresh, ops, k);
      Sorted(w.t.events) &&
      var pages := ExportPages(w.t, 0, limit);
      Sunk(Empty, pages, |pages|).Ok? &&
      var (u, reports) := Sunk(Empty, pages, |pages|).value;
      && (Reproduced(reports) ==> u.events == w.t.events)
      && (w.t.ledger == [] ==> Reproduced(reports))
  {
    var w := Run(Fresh, ops, k);
    LogAlwaysHolds(ops, k);
    var pages := ExportPages(w.t, 0, limit);
    PagingIsWhole(w.t, 0, limit);
    AfterSorted(w.t.events, 0, All);
    SortedUnique(After(w.t.events, 0, All), w.t.events);
    SameLog(ops, k, pages);
    if w.t.ledger == [] { UntouchedLogIsReproduced(ops, k, pages); }
  }
}
