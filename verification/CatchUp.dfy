/** Catching up: batches run until one applies nothing, each its own
    transaction, and why the batch size is invisible in what they leave. */
module CatchUp {
  import opened Wrappers
  import opened Event
  import opened Rows
  import opened Filters
  import opened Database
  import opened Retention
  import opened Projections
  import opened ExactlyOnce
  import opened World

  /** How far the cursor is from the newest row. */
  function Behind(t: Tables, p: Projection): nat {
    var cursor := LoadCheckpoint(t, p.name);
    if cursor < Head(t) then Head(t) - cursor else 0
  }

  /** The batches not yet applied: the matching rows past the cursor. */
  function Remaining(t: Tables, p: Projection): seq<Row> {
    Past(t.events, p, LoadCheckpoint(t, p.name))
  }

  /** A batch that applied something moved the cursor towards the head. */
  lemma BatchProgresses(t: Tables, p: Projection, batch: nat)
    requires RunOnce(t, p, batch).Ok? && RunOnce(t, p, batch).value.1 > 0
    ensures Behind(RunOnce(t, p, batch).value.0, p) < Behind(t, p)
  {
    RunOnceIs(t, p, batch);
    var cursor := LoadCheckpoint(t, p.name);
    var page := SelectStored(t, cursor, p.Wanted(), batch).value;
    PageIsFront(t, p.Wanted(), cursor, batch, page);
    WantedIsFolded(t.events, p, cursor);
    assert page[|page| - 1] in Remaining(t, p);
    AdvanceIs(t, p, Fold(p, ModelOf(t, p), page).value, cursor, SeenThrough(cursor, Head(t), page, batch));
  }

  /** `catch_up`: the tables it leaves, and the total applied or the error that
      stopped it. The batches before the error stay committed. */
  function CatchUp(t: Tables, p: Projection, batch: nat): (Tables, Result<nat>)
    requires batch >= 1
    decreases Behind(t, p)
  {
    match RunOnce(t, p, batch)
    case Err(error) => (t, Err(error))
    case Ok((u, applied)) =>
      if applied == 0 then (u, Ok(0))
      else
        BatchProgresses(t, p, batch);
        Joined(applied, CatchUp(u, p, batch))
  }

  function Joined(applied: nat, rest: (Tables, Result<nat>)): (Tables, Result<nat>) {
    (rest.0, if rest.1.Ok? then Ok(applied + rest.1.value) else rest.1)
  }

  /** More kinds than one statement takes: the check on the list allows two more
      than SQLite does. */
  function TooManyKinds(p: Projection): Option<Error> {
    if p.kinds.None? || |p.kinds.value| <= 32_764 then None
    else if |p.kinds.value| <= 32_766 then Some(Storage)
    else Some(Unsupported)
  }

  /** What stands in the way before anything is applied. */
  function Obstacle(t: Tables, p: Projection): Option<Error> {
    var cursor := LoadCheckpoint(t, p.name);
    if !p.tolerant && cursor < Watermark(t) then Some(Truncated(cursor, Watermark(t)))
    else TooManyKinds(p)
  }

  /** Everything matching applied, and the cursor at the head or where it was. */
  function Settled(t: Tables, p: Projection, model: Model): Tables {
    var cursor := LoadCheckpoint(t, p.name);
    t.(models := t.models[p.name := model],
       checkpoints := if Head(t) > cursor then t.checkpoints[p.name := Head(t)] else t.checkpoints)
  }

  lemma PageOrObstacle(t: Tables, p: Projection, batch: nat)
    requires batch >= 1
    ensures Obstacle(t, p).Some? ==> RunOnce(t, p, batch) == Err(Obstacle(t, p).value)
    ensures Obstacle(t, p).None? ==> SelectStored(t, LoadCheckpoint(t, p.name), p.Wanted(), batch).Ok?
  {
    if p.kinds.Some? { KindsThatFit(p.kinds.value); }
  }

  /** How a batch of so many rows comes out, its cursor moved forward to `to`. */
  ghost predicate BatchEnds(t: Tables, p: Projection, rows: seq<Row>, to: Stored, outcome: Result<(Tables, nat)>) {
    match Fold(p, ModelOf(t, p), rows)
    case None => outcome == Err(Error.Apply)
    case Some(model) =>
      var checkpoints := if to > LoadCheckpoint(t, p.name) then t.checkpoints[p.name := to] else t.checkpoints;
      outcome == Ok((t.(models := t.models[p.name := model], checkpoints := checkpoints), |rows|))
  }

  /** How far such a batch has seen. */
  lemma SeenIs(t: Tables, p: Projection, cursor: Stored, batch: nat, page: seq<Row>)
    requires batch >= 1 && page <= Past(t.events, p, cursor)
    ensures var seen := SeenThrough(cursor, Head(t), page, batch);
      if |page| == batch then seen == page[batch - 1].position else seen == Max(cursor, Head(t))
  {
    if page != [] { assert page[|page| - 1] in Past(t.events, p, cursor); }
  }

  /** A page that was read comes out as its rows folded. */
  lemma PageEnds(t: Tables, p: Projection, batch: nat, page: seq<Row>)
    requires batch >= 1 && (p.tolerant || LoadCheckpoint(t, p.name) >= Watermark(t))
    requires SelectStored(t, LoadCheckpoint(t, p.name), p.Wanted(), batch) == Ok(page)
    requires page <= Past(t.events, p, LoadCheckpoint(t, p.name))
    ensures BatchEnds(t, p, page, if |page| == batch then page[batch - 1].position else Head(t), RunOnce(t, p, batch))
  {
    SeenIs(t, p, LoadCheckpoint(t, p.name), batch, page);
    RunOnceOf(t, p, batch, page);
  }

  lemma BatchComesTo(t: Tables, p: Projection, batch: nat, due: seq<Row>, n: nat)
    requires batch >= 1 && Obstacle(t, p).None? && due == Past(t.events, p, LoadCheckpoint(t, p.name))
    requires n == if batch < |due| && batch <= I64_MAX then batch else |due|
    ensures BatchEnds(t, p, due[..n], if n == batch then due[n - 1].position else Head(t), RunOnce(t, p, batch))
  {
    PageOrObstacle(t, p, batch);
    var cursor := LoadCheckpoint(t, p.name);
    var page := SelectStored(t, cursor, p.Wanted(), batch).value;
    WantedIsFolded(t.events, p, cursor);
    PageIsFirst(t, p.Wanted(), cursor, batch, page);
    assert page == due[..n];
    PageEnds(t, p, batch, page);
  }

  /** One batch, exactly, in terms of the rows: refused when something above a strict
      cursor is gone or the kinds do not fit; otherwise the next `batch` rows of its
      kinds, or all there are, folded in order, or refused whole because one does
      not apply; the cursor then at the last of a full batch, or else at the head
      unless it was past it; and nothing else touched. */
  lemma RunOnceExactly(t: Tables, p: Projection, batch: nat, due: seq<Row>, n: nat)
    requires batch >= 1 && due == Past(t.events, p, LoadCheckpoint(t, p.name))
    requires n == if batch < |due| && batch <= I64_MAX then batch else |due|
    ensures var cursor, outcome := LoadCheckpoint(t, p.name), RunOnce(t, p, batch);
      if !p.tolerant && cursor < Watermark(t) then outcome == Err(Truncated(cursor, Watermark(t)))
      else if TooManyKinds(p).Some? then outcome == Err(TooManyKinds(p).value)
      else BatchEnds(t, p, due[..n], if n == batch then due[n - 1].position else Head(t), outcome)
  {
    if Obstacle(t, p).None? { BatchComesTo(t, p, batch, due, n); } else { PageOrObstacle(t, p, batch); }
  }

  /** The rows a page leaves for the next one. */
  lemma PageThenRest(rows: seq<Row>, p: Projection, cursor: nat, seen: nat, page: seq<Row>)
    requires Sorted(rows) && cursor <= seen && page == Between(rows, p, cursor, seen)
    ensures Past(rows, p, cursor) == page + Past(rows, p, seen)
  {
    PickSorted(rows, (r: Row) => r.position > cursor && p.Folds(r));
    PickSorted(rows, (r: Row) => r.position > seen && p.Folds(r));
    BetweenSorted(rows, p, cursor, seen);
    SortedConcat(page, Past(rows, p, seen));
    SortedUnique(Past(rows, p, cursor), page + Past(rows, p, seen));
  }

  /** A cursor that stays at or below the head changes nothing of what catching up
      settles on; one that reaches it has settled. */
  lemma AdvanceSettles(t: Tables, p: Projection, model: Model, cursor: nat, seen: nat, u: Tables, m: Model)
    requires cursor == LoadCheckpoint(t, p.name) && cursor <= seen <= Max(cursor, Head(t))
    requires Advance(t, p, model, cursor, seen) == Ok(u)
    ensures Settled(u, p, m) == Settled(t, p, m)
    ensures seen == Max(cursor, Head(t)) ==> u == Settled(t, p, model)
  {
    assert u.models[p.name := m] == t.models[p.name := m];
    assert u.checkpoints[p.name := Head(t)] == t.checkpoints[p.name := Head(t)];
  }

  /** What a batch applied is the front of what remained, and the rest remains. */
  lemma BatchTakesFront(t: Tables, p: Projection, batch: nat, u: Tables, applied: nat)
    requires Sorted(t.events) && batch >= 1 && RunOnce(t, p, batch) == Ok((u, applied))
    ensures SameLog(t, u)
    ensures applied <= |Remaining(t, p)| && Remaining(u, p) == Remaining(t, p)[applied..]
    ensures Fold(p, ModelOf(t, p), Remaining(t, p)[..applied]) == Some(ModelOf(u, p))
  {
    RunOnceIs(t, p, batch);
    var cursor := LoadCheckpoint(t, p.name);
    var page := SelectStored(t, cursor, p.Wanted(), batch).value;
    var seen := SeenThrough(cursor, Head(t), page, batch);
    PageIsRange(t, p, cursor, batch, page);
    AdvanceIs(t, p, Fold(p, ModelOf(t, p), page).value, cursor, seen);
    PageThenRest(t.events, p, cursor, seen, page);
  }

  /** Nothing else changes what catching up will settle on. */
  lemma BatchSettles(t: Tables, p: Projection, batch: nat, u: Tables, applied: nat, m: Model)
    requires Sorted(t.events) && batch >= 1 && RunOnce(t, p, batch) == Ok((u, applied))
    ensures Settled(u, p, m) == Settled(t, p, m)
    ensures applied == 0 ==> u == Settled(t, p, ModelOf(t, p)) && Remaining(t, p) == []
    ensures LoadCheckpoint(u, p.name) >= LoadCheckpoint(t, p.name)
  {
    RunOnceIs(t, p, batch);
    var cursor := LoadCheckpoint(t, p.name);
    var page := SelectStored(t, cursor, p.Wanted(), batch).value;
    var seen := SeenThrough(cursor, Head(t), page, batch);
    PageIsRange(t, p, cursor, batch, page);
    PageIsFront(t, p.Wanted(), cursor, batch, page);
    WantedIsFolded(t.events, p, cursor);
    if page != [] { assert page[|page| - 1] in t.events; }
    AdvanceSettles(t, p, Fold(p, ModelOf(t, p), page).value, cursor, seen, u, m);
  }

  /** The model once every remaining event is applied, if each of them can be. */
  function Folded(t: Tables, p: Projection): Option<Model> {
    Fold(p, ModelOf(t, p), Remaining(t, p))
  }

  /** An outcome that does not depend on a batch size: it succeeds exactly when
      nothing stands in the way and every remaining event applies, and then each
      of them was applied once, in order, and the cursor is at the head. */
  ghost predicate Answers(t: Tables, p: Projection, outcome: (Tables, Result<nat>)) {
    if Obstacle(t, p).Some? then outcome == (t, Err(Obstacle(t, p).value))
    else Comes(Folded(t, p), |Remaining(t, p)|,
               Settled(t, p, if Folded(t, p).Some? then Folded(t, p).value else p.initial), outcome)
  }

  /** What an outcome comes to once nothing stands in the way. */
  ghost predicate Comes(folded: Option<Model>, n: nat, settled: Tables, outcome: (Tables, Result<nat>)) {
    if folded.None? then outcome.1 == Err(Error.Apply) else outcome == (settled, Ok(n))
  }

  lemma ComesBefore(folded: Option<Model>, n: nat, settled: Tables, applied: nat, rest: (Tables, Result<nat>), sum: nat)
    requires Comes(folded, n, settled, rest) && sum == applied + n
    ensures Comes(folded, sum, settled, Joined(applied, rest))
  {}

  lemma FoldedOn(t: Tables, p: Projection, u: Tables, applied: nat)
    requires applied <= |Remaining(t, p)| && Remaining(u, p) == Remaining(t, p)[applied..]
    requires Fold(p, ModelOf(t, p), Remaining(t, p)[..applied]) == Some(ModelOf(u, p))
    ensures Folded(t, p) == Folded(u, p)
  {
    var rows := Remaining(t, p);
    assert rows == rows[..applied] + rows[applied..];
    FoldConcat(p, ModelOf(t, p), rows[..applied], rows[applied..]);
  }

  /** An outcome for what remains after a batch is one for the whole. */
  lemma AnswersBefore(t: Tables, p: Projection, u: Tables, applied: nat, rest: (Tables, Result<nat>))
    requires Obstacle(t, p).None? && Obstacle(u, p).None? && Answers(u, p, rest)
    requires Folded(t, p) == Folded(u, p)
    requires Folded(t, p).Some? ==> Settled(u, p, Folded(t, p).value) == Settled(t, p, Folded(t, p).value)
    requires |Remaining(t, p)| == applied + |Remaining(u, p)|
    ensures Answers(t, p, Joined(applied, rest))
  {
    var folded := Folded(t, p);
    if folded.Some? {
      ComesBefore(folded, |Remaining(u, p)|, Settled(t, p, folded.value), applied, rest, |Remaining(t, p)|);
    }
  }

  lemma ObstacleStays(t: Tables, u: Tables, p: Projection)
    requires SameLog(t, u) && LoadCheckpoint(t, p.name) <= LoadCheckpoint(u, p.name)
    ensures Obstacle(t, p).None? ==> Obstacle(u, p).None?
  {}

  /** One batch on the way: the outcome of the rest is the outcome of the whole. */
  ghost predicate OnTheWay(t: Tables, p: Projection, u: Tables, applied: nat) {
    && Obstacle(t, p).None? && Obstacle(u, p).None?
    && Sorted(u.events)
    && Folded(t, p) == Folded(u, p)
    && (Folded(t, p).Some? ==> Settled(u, p, Folded(t, p).value) == Settled(t, p, Folded(t, p).value))
    && |Remaining(t, p)| == applied + |Remaining(u, p)|
    && (applied == 0 ==> Answers(t, p, (u, Ok(0))))
  }

  lemma BatchIsOnTheWay(t: Tables, p: Projection, batch: nat, u: Tables, applied: nat)
    requires Sorted(t.events) && batch >= 1 && Obstacle(t, p).None? && RunOnce(t, p, batch) == Ok((u, applied))
    ensures OnTheWay(t, p, u, applied)
  {
    BatchTakesFront(t, p, batch, u, applied);
    FoldedOn(t, p, u, applied);
    BatchSettles(t, p, batch, u, applied, if Folded(t, p).Some? then Folded(t, p).value else p.initial);
    ObstacleStays(t, u, p);
  }

  /** Catching up, whatever the batch size. */
  lemma {:induction false} CatchUpIs(t: Tables, p: Projection, batch: nat)
    requires Sorted(t.events) && batch >= 1
    ensures Answers(t, p, CatchUp(t, p, batch))
    decreases Behind(t, p)
  {
    PageOrObstacle(t, p, batch);
    if Obstacle(t, p).None? {
      match RunOnce(t, p, batch)
      case Err(error) =>
        PageCannotApply(t, p, batch);
      case Ok((u, applied)) =>
        BatchIsOnTheWay(t, p, batch, u, applied);
        if applied > 0 {
          BatchProgresses(t, p, batch);
          CatchUpIs(u, p, batch);
          AnswersBefore(t, p, u, applied, CatchUp(u, p, batch));
          assert CatchUp(t, p, batch) == Joined(applied, CatchUp(u, p, batch));
        }
    }
  }

  /** A front that cannot be folded keeps the whole from being folded. */
  lemma FrontFails(p: Projection, model: Model, page: seq<Row>, rows: seq<Row>)
    requires page <= rows && Fold(p, model, page).None?
    ensures Fold(p, model, rows).None?
  {
    FoldConcat(p, model, page, rows[|page|..]);
    assert page + rows[|page|..] == rows;
  }

  lemma PageCannotApply(t: Tables, p: Projection, batch: nat)
    requires Sorted(t.events) && batch >= 1 && Obstacle(t, p).None? && RunOnce(t, p, batch).Err?
    ensures RunOnce(t, p, batch) == Err(Error.Apply) && Folded(t, p).None?
  {
    PageOrObstacle(t, p, batch);
    var cursor := LoadCheckpoint(t, p.name);
    var page := SelectStored(t, cursor, p.Wanted(), batch).value;
    PageIsFront(t, p.Wanted(), cursor, batch, page);
    WantedIsFolded(t.events, p, cursor);
    PageIsRange(t, p, cursor, batch, page);
    assert page <= Remaining(t, p);
    FrontFails(p, ModelOf(t, p), page, Remaining(t, p));
  }

  /** Batch size changes nothing: any two answer alike, and when they succeed they
      leave the same tables. */
  lemma BatchSizeChangesNothing(t: Tables, p: Projection, a: nat, b: nat)
    requires Sorted(t.events) && a >= 1 && b >= 1
    ensures CatchUp(t, p, a).1 == CatchUp(t, p, b).1
    ensures CatchUp(t, p, a).1.Ok? ==> CatchUp(t, p, a).0 == CatchUp(t, p, b).0
  {
    CatchUpIs(t, p, a);
    CatchUpIs(t, p, b);
  }

  /** A catch-up that fails half way keeps what its earlier batches did: the model
      is the fold of exactly the rows its cursor has passed. */
  lemma {:induction false} FailureKeepsBatches(t: Tables, p: Projection, batch: nat)
    requires Sorted(t.events) && batch >= 1
    ensures var u := CatchUp(t, p, batch).0;
      var from, to := LoadCheckpoint(t, p.name), LoadCheckpoint(u, p.name);
      && from <= to
      && Fold(p, ModelOf(t, p), Between(t.events, p, from, to)) == Some(ModelOf(u, p))
      && SameLog(t, u)
    decreases Behind(t, p)
  {
    var from := LoadCheckpoint(t, p.name);
    if RunOnce(t, p, batch).Err? || RunOnce(t, p, batch).value.1 == 0 {
      PickNothing(t.events, (r: Row) => from < r.position <= from && p.Folds(r));
    }
    if RunOnce(t, p, batch).Ok? {
      RunOnceIs(t, p, batch);
      var (mid, applied) := RunOnce(t, p, batch).value;
      var page := SelectStored(t, from, p.Wanted(), batch).value;
      var seen := SeenThrough(from, Head(t), page, batch);
      PageIsRange(t, p, from, batch, page);
      AdvanceIs(t, p, Fold(p, ModelOf(t, p), page).value, from, seen);
      if applied > 0 {
        BatchProgresses(t, p, batch);
        FailureKeepsBatches(mid, p, batch);
        var to := LoadCheckpoint(CatchUp(mid, p, batch).0, p.name);
        BetweenSplits(t.events, p, from, seen, to);
        FoldConcat(p, ModelOf(t, p), page, Between(t.events, p, seen, to));
      }
    }
  }

  /** `rebuild`: empty and rewind in one transaction, then catch up. */
  function Rebuild(t: Tables, p: Projection, batch: nat): (Tables, Result<nat>)
    requires batch >= 1
  {
    match Rewind(t, p)
    case Err(error) => (t, Err(error))
    case Ok(rewound) => CatchUp(rewound, p, batch)
  }

  /** The model emptied and the cursor at the beginning. */
  function Emptied(t: Tables, p: Projection): Tables {
    t.(models := t.models[p.name := p.initial], checkpoints := t.checkpoints[p.name := 0])
  }

  lemma RewindEmpties(t: Tables, p: Projection)
    ensures Rewind(t, p)
      == if !p.tolerant && Watermark(t) > 0 then Err(Truncated(0, Watermark(t))) else Ok(Emptied(t, p))
  {}

  /** Settling an emptied projection. */
  lemma EmptiedSettles(t: Tables, p: Projection, model: Model)
    ensures Settled(Emptied(t, p), p, model)
      == t.(models := t.models[p.name := model], checkpoints := t.checkpoints[p.name := Head(t)])
    ensures ModelOf(Emptied(t, p), p) == p.initial
    ensures Remaining(Emptied(t, p), p) == Past(t.events, p, 0)
  {
    assert t.models[p.name := p.initial][p.name := model] == t.models[p.name := model];
    assert t.checkpoints[p.name := 0][p.name := Head(t)] == t.checkpoints[p.name := Head(t)];
  }

  /** A rebuild, exactly, wherever the projection stood: refused on a truncated log
      with nothing touched; with the model emptied and no more when the filter is
      refused; stopped by an event that does not apply; and otherwise the fold of
      the whole log with the cursor at its head. It succeeds in no other case. */
  lemma RebuildForgets(t: Tables, p: Projection, batch: nat)
    requires Sorted(t.events) && batch >= 1
    ensures var (u, answer) := Rebuild(t, p, batch);
      var whole := Past(t.events, p, 0);
      var folded := Fold(p, p.initial, whole);
      if !p.tolerant && Watermark(t) > 0 then
        answer == Err(Truncated(0, Watermark(t))) && u == t
      else if TooManyKinds(p).Some? then
        answer == Err(TooManyKinds(p).value) && u == Emptied(t, p)
      else if folded.None? then
        answer == Err(Error.Apply)
      else
        && answer == Ok(|whole|)
        && u == t.(models := t.models[p.name := folded.value], checkpoints := t.checkpoints[p.name := Head(t)])
  {
    RewindEmpties(t, p);
    if Rewind(t, p).Ok? {
      var folded := Fold(p, p.initial, Past(t.events, p, 0));
      EmptiedSettles(t, p, if folded.Some? then folded.value else p.initial);
      CatchUpIs(Emptied(t, p), p, batch);
    }
  }
}
