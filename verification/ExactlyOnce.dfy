/** Exactly-once over whole runs, and why a registered strict consumer is never
    left behind. */
module ExactlyOnce {
  import opened Wrappers
  import opened Event
  import opened Rows
  import opened Filters
  import opened Database
  import opened Retention
  import opened Projections
  import opened History
  import opened World
  import Guarantees

  /** Every matching event ever committed in a range of positions, removed ones
      included. */
  function Between(rows: seq<Row>, p: Projection, from: nat, through: nat): seq<Row> {
    Pick(rows, (r: Row) => from < r.position <= through && p.Folds(r))
  }

  lemma BetweenSorted(rows: seq<Row>, p: Projection, from: nat, through: nat)
    requires Sorted(rows)
    ensures Sorted(Between(rows, p, from, through))
  {
    PickSorted(rows, (r: Row) => from < r.position <= through && p.Folds(r));
  }

  lemma BetweenSplits(rows: seq<Row>, p: Projection, a: nat, b: nat, c: nat)
    requires Sorted(rows) && a <= b <= c
    ensures Between(rows, p, a, c) == Between(rows, p, a, b) + Between(rows, p, b, c)
  {
    BetweenSorted(rows, p, a, b);
    BetweenSorted(rows, p, b, c);
    BetweenSorted(rows, p, a, c);
    SortedConcat(Between(rows, p, a, b), Between(rows, p, b, c));
    SortedUnique(Between(rows, p, a, c), Between(rows, p, a, b) + Between(rows, p, b, c));
  }

  lemma HistorySorted(hist: seq<Row>)
    requires Placed(hist)
    ensures Sorted(hist)
  {}

  // ---- what a page has seen ------------------------------------------------

  /** A page is the front of the matching rows, and all of them unless full. */
  lemma PageIsFront(t: Tables, f: Filter, cursor: U64, batch: nat, page: seq<Row>)
    requires SelectStored(t, cursor, f, batch) == Ok(page)
    ensures page <= After(t.events, cursor, f)
    ensures |page| == batch || page == After(t.events, cursor, f)
  {
    if f.SelectsNothing() {
      PickNothing(t.events, (r: Row) => r.position > cursor && f.Matches(r));
    }
  }

  /** How long the front is. */
  lemma PageIsFirst(t: Tables, f: Filter, cursor: U64, batch: nat, page: seq<Row>)
    requires SelectStored(t, cursor, f, batch) == Ok(page)
    ensures var all := After(t.events, cursor, f);
      page == all[..if batch < |all| && batch <= I64_MAX then batch else |all|]
  {
    if f.SelectsNothing() { PickNothing(t.events, (r: Row) => r.position > cursor && f.Matches(r)); }
  }

  /** The front of the matching rows, up to the position it has seen through, is
      the whole range: a full page stops at its last row, a short one may claim
      any position at or past every row. */
  lemma FrontIsRange(rows: seq<Row>, p: Projection, cursor: nat, page: seq<Row>, seen: nat)
    requires Sorted(rows) && page <= Past(rows, p, cursor)
    requires page != [] ==> seen >= page[|page| - 1].position
    requires page == Past(rows, p, cursor)
      || seen == (if page == [] then cursor else page[|page| - 1].position)
    ensures page == Between(rows, p, cursor, seen)
  {
    var all := Past(rows, p, cursor);
    PickSorted(rows, (r: Row) => r.position > cursor && p.Folds(r));
    BetweenSorted(rows, p, cursor, seen);
    forall r ensures r in page <==> r in Between(rows, p, cursor, seen) {
      PastMembers(rows, p, cursor, r);
      if r in page {
        var i :| 0 <= i < |page| && page[i] == r;
        assert all[i] == r && all[|page| - 1] == page[|page| - 1];
      } else if r in all {
        var i :| 0 <= i < |all| && all[i] == r;
        assert r !in all[..|page|];
        if page != [] { assert all[|page| - 1] == page[|page| - 1]; }
      }
    }
    SortedUnique(page, Between(rows, p, cursor, seen));
  }

  /** A page holds exactly the matching rows its batch has seen through. */
  lemma PageIsRange(t: Tables, p: Projection, cursor: U64, batch: nat, page: seq<Row>)
    requires Sorted(t.events) && SelectStored(t, cursor, p.Wanted(), batch) == Ok(page)
    ensures var seen := SeenThrough(cursor, Head(t), page, batch);
      cursor <= seen && (seen > cursor ==> seen <= I64_MAX)
      && page == Between(t.events, p, cursor, seen)
  {
    PageIsFront(t, p.Wanted(), cursor, batch, page);
    WantedIsFolded(t.events, p, cursor);
    if page != [] {
      assert page[|page| - 1] in Past(t.events, p, cursor);
    }
    FrontIsRange(t.events, p, cursor, page, SeenThrough(cursor, Head(t), page, batch));
  }

  // ---- exactly once --------------------------------------------------------

  /** The read model is the fold of every matching event ever committed at or
      below the stored cursor. */
  ghost predicate ModelIsFold(w: World, p: Projection) {
    Fold(p, p.initial, Between(w.hist, p, 0, LoadCheckpoint(w.t, p.name))) == Some(ModelOf(w.t, p))
  }

  /** The name belongs to this projection: nothing else writes its cursor or its
      tables. Any number of runners may. */
  ghost predicate Owns(p: Projection, op: Op) {
    && (op.Save? ==> op.consumer != p.name)
    && ((op.Create? || op.Batch? || op.Reset?) && op.projection.name == p.name ==> op.projection == p)
  }

  /** While nothing above `from` was removed, live and committed rows agree. */
  lemma NothingMissingAbove(w: World, p: Projection, from: nat, through: nat)
    requires LogHolds(w) && from >= Watermark(w.t)
    ensures Between(w.t.events, p, from, through) == Between(w.hist, p, from, through)
  {
    HistorySorted(w.hist);
    BetweenSorted(w.t.events, p, from, through);
    BetweenSorted(w.hist, p, from, through);
    forall r ensures r in w.t.events && r.position > from <==> r in w.hist && r.position > from {}
    SortedUnique(Between(w.t.events, p, from, through), Between(w.hist, p, from, through));
  }

  /** The cursor stands within the history there is. */
  ghost predicate CursorWithin(w: World, p: Projection) {
    LoadCheckpoint(w.t, p.name) <= |w.hist|
  }

  /** The model is the fold of history up to the cursor, and the cursor within it. */
  ghost predicate Exact(w: World, p: Projection) {
    ModelIsFold(w, p) && CursorWithin(w, p)
  }

  lemma SeenIsWithin(w: World, p: Projection, cursor: U64, batch: nat, page: seq<Row>)
    requires LogHolds(w) && SelectStored(w.t, cursor, p.Wanted(), batch) == Ok(page)
    ensures SeenThrough(cursor, Head(w.t), page, batch) <= Max(cursor, |w.hist|)
  {
    PageIsFront(w.t, p.Wanted(), cursor, batch, page);
    if page != [] { assert page[|page| - 1] in After(w.t.events, cursor, p.Wanted()); }
  }

  /** Folding the rest of a range onto the fold of its front. */
  lemma FoldAdvances(w: World, p: Projection, cursor: nat, seen: nat, model: Model)
    requires LogHolds(w) && Watermark(w.t) <= cursor <= seen
    requires Fold(p, p.initial, Between(w.hist, p, 0, cursor)) == Some(ModelOf(w.t, p))
    requires Fold(p, ModelOf(w.t, p), Between(w.t.events, p, cursor, seen)) == Some(model)
    ensures Fold(p, p.initial, Between(w.hist, p, 0, seen)) == Some(model)
  {
    NothingMissingAbove(w, p, cursor, seen);
    HistorySorted(w.hist);
    BetweenSplits(w.hist, p, 0, cursor, seen);
    FoldConcat(p, p.initial, Between(w.hist, p, 0, cursor), Between(w.hist, p, cursor, seen));
  }

  lemma AdvanceIs(t: Tables, p: Projection, model: Model, cursor: nat, seen: nat)
    requires Advance(t, p, model, cursor, seen).Ok? && cursor == LoadCheckpoint(t, p.name) && seen >= cursor
    ensures var u := Advance(t, p, model, cursor, seen).value;
      ModelOf(u, p) == model && LoadCheckpoint(u, p.name) == seen && SameLog(t, u)
  {}

  lemma FoldsTo(w: World, p: Projection, seen: nat, model: Model, u: Tables)
    requires Fold(p, p.initial, Between(w.hist, p, 0, seen)) == Some(model)
    requires ModelOf(u, p) == model && LoadCheckpoint(u, p.name) == seen <= |w.hist|
    ensures Exact(World(u, w.hist), p)
  {}

  lemma BatchThatGoesIn(w: World, p: Projection, batch: nat)
    requires LogHolds(w) && Exact(w, p) && !p.tolerant && RunOnce(w.t, p, batch).Ok?
    ensures Exact(World(RunOnce(w.t, p, batch).value.0, w.hist), p)
  {
    var cursor := LoadCheckpoint(w.t, p.name);
    RunOnceIs(w.t, p, batch);
    var page := SelectStored(w.t, cursor, p.Wanted(), batch).value;
    var seen := SeenThrough(cursor, Head(w.t), page, batch);
    var model := Fold(p, ModelOf(w.t, p), page).value;
    PageIsRange(w.t, p, cursor, batch, page);
    SeenIsWithin(w, p, cursor, batch, page);
    AdvanceIs(w.t, p, model, cursor, seen);
    FoldAdvances(w, p, cursor, seen, model);
    FoldsTo(w, p, seen, model, RunOnce(w.t, p, batch).value.0);
  }

  lemma BatchRefused(w: World, p: Projection, batch: nat)
    requires RunOnce(w.t, p, batch).Err?
    ensures Then(w, Batch(p, batch)) == w
  {}

  lemma BatchFolds(w: World, p: Projection, batch: nat)
    requires LogHolds(w) && Exact(w, p) && !p.tolerant
    ensures Exact(Then(w, Batch(p, batch)), p)
  {
    if RunOnce(w.t, p, batch).Ok? {
      BatchThatGoesIn(w, p, batch);
      BatchThen(w, p, batch);
    } else {
      BatchRefused(w, p, batch);
    }
  }

  lemma NothingUpToZero(rows: seq<Row>, p: Projection)
    ensures Between(rows, p, 0, 0) == []
  {
    PickNothing(rows, (r: Row) => 0 < r.position <= 0 && p.Folds(r));
  }

  lemma ResetFolds(w: World, p: Projection)
    requires Exact(w, p)
    ensures Exact(Then(w, Reset(p)), p)
  {
    NothingUpToZero(w.hist, p);
    if Rewind(w.t, p).Ok? {
      var u := Rewind(w.t, p).value;
      assert ModelOf(u, p) == p.initial && LoadCheckpoint(u, p.name) == 0;
      assert Then(w, Reset(p)) == World(u, w.hist);
    }
  }

  /** What is committed later stands at later positions. */
  lemma LaterRowsAreAbove(hist: seq<Row>, grown: seq<Row>, p: Projection, c: nat)
    requires Placed(hist) && Placed(grown) && hist <= grown && c <= |hist|
    ensures Between(grown, p, 0, c) == Between(hist, p, 0, c)
  {
    HistorySorted(hist);
    HistorySorted(grown);
    BetweenSorted(hist, p, 0, c);
    BetweenSorted(grown, p, 0, c);
    forall r | r in grown && r.position <= c ensures r in hist {
      var i :| 0 <= i < |grown| && grown[i] == r;
      assert hist[i] == r;
    }
    assert forall i :: 0 <= i < |hist| ==> grown[i] == hist[i];
    SortedUnique(Between(grown, p, 0, c), Between(hist, p, 0, c));
  }

  /** New history is past every cursor, so no fold sees it early. */
  lemma GrowthIsUnseen(w: World, op: Op, p: Projection)
    requires LogHolds(w) && op.Commit? && LoadCheckpoint(w.t, p.name) <= |w.hist|
    ensures var u := Then(w, op);
      Between(u.hist, p, 0, LoadCheckpoint(w.t, p.name)) == Between(w.hist, p, 0, LoadCheckpoint(w.t, p.name))
  {
    OpKeepsPositions(w, op);
    LaterRowsAreAbove(w.hist, Then(w, op).hist, p, LoadCheckpoint(w.t, p.name));
  }

  /** Tables that agree on one projection's cursor and model. */
  predicate Alike(t: Tables, u: Tables, p: Projection) {
    LoadCheckpoint(u, p.name) == LoadCheckpoint(t, p.name) && ModelOf(u, p) == ModelOf(t, p)
  }

  lemma AdvanceLeavesOthers(t: Tables, q: Projection, model: Model, cursor: nat, seen: nat, p: Projection)
    requires q.name != p.name && Advance(t, q, model, cursor, seen).Ok?
    ensures Alike(t, Advance(t, q, model, cursor, seen).value, p)
  {}

  lemma BatchLeavesOthers(t: Tables, q: Projection, batch: nat, p: Projection)
    requires q.name != p.name && RunOnce(t, q, batch).Ok?
    ensures Alike(t, RunOnce(t, q, batch).value.0, p)
  {
    RunOnceIs(t, q, batch);
    var cursor := LoadCheckpoint(t, q.name);
    var page := SelectStored(t, cursor, q.Wanted(), batch).value;
    AdvanceLeavesOthers(t, q, Fold(q, ModelOf(t, q), page).value, cursor, SeenThrough(cursor, Head(t), page, batch), p);
  }

  /** An operation that is not this projection's leaves its cursor and model. */
  lemma OthersLeaveIt(t: Tables, op: Op, p: Projection)
    requires Owns(p, op) && (op.Batch? || op.Reset? ==> op.projection.name != p.name)
    requires !op.Commit?
    ensures Alike(t, Exec(t, op), p)
  {
    match op {
      case Retain(plan, guard, archived) => RemovalIs(t, plan, guard, archived);
      case Batch(q, batch) => if RunOnce(t, q, batch).Ok? { BatchLeavesOthers(t, q, batch, p); }
      case _ =>
    }
  }

  lemma OpKeepsExact(w: World, op: Op, p: Projection)
    requires LogHolds(w) && Exact(w, p) && Owns(p, op) && !p.tolerant
    ensures Exact(Then(w, op), p)
  {
    if op.Commit? {
      GrowthIsUnseen(w, op, p);
      CommitAppends(w.t, op.write);
    } else if op.Batch? && op.projection == p {
      BatchFolds(w, p, op.batch);
    } else if op.Reset? && op.projection == p {
      ResetFolds(w, p);
    } else {
      OthersLeaveIt(w.t, op, p);
      assert Then(w, op).hist == w.hist;
    }
  }

  lemma NextIsExact(ops: seq<Op>, j: nat, k: nat, p: Projection)
    requires k == j + 1 <= |ops| && Owns(p, ops[j]) && !p.tolerant
    requires Exact(Run(Fresh, ops, j), p)
    ensures Exact(Run(Fresh, ops, k), p)
  {
    LogAlwaysHolds(ops, j);
    OpKeepsExact(Run(Fresh, ops, j), ops[j], p);
    RunNext(Fresh, ops, j, k);
  }

  /** Exactly once: in every state of every run, whatever was appended, imported,
      exported, removed (by force too), failed, rewound or batched between,
      whatever closures made of their errors, and however many runners shared the
      projection, its read model is the fold of
      every matching event ever committed at or below its stored cursor. */
  lemma {:induction false} FoldedExactlyOnce(ops: seq<Op>, k: nat, p: Projection)
    requires k <= |ops| && !p.tolerant && forall op <- ops :: Owns(p, op)
    ensures Exact(Run(Fresh, ops, k), p)
  {
    if k == 0 {
      NothingUpToZero([], p);
    } else {
      FoldedExactlyOnce(ops, k - 1, p);
      NextIsExact(ops, k - 1, k, p);
    }
  }

  // ---- never stranded ------------------------------------------------------

  /** A strict consumer that has checked in stands at or above the watermark. */
  ghost predicate NotStranded(t: Tables, p: Projection) {
    p.name in t.checkpoints ==> t.checkpoints[p.name] >= Watermark(t)
  }

  lemma RemovalStrandsNobody(t: Tables, plan: Plan, guard: Guard, archived: bool, p: Projection)
    requires NotStranded(t, p) && guard != Force
    ensures NotStranded(Exec(t, Retain(plan, guard, archived)), p)
  {
    var applied := Retention.Apply(t, plan, guard, archived);
    if applied.Ok? && applied.value.0 != t {
      assert applied.value.0.ledger[..|t.ledger|] == t.ledger;
      assert !SomeoneBehind(t, HeadOf(Doomed(t, plan)));
    }
  }

  /** The name is this projection's and no plan is forced. */
  ghost predicate Unforced(p: Projection, op: Op) {
    Owns(p, op) && (op.Retain? ==> op.guard != Force)
  }

  lemma BatchStrandsNobody(t: Tables, q: Projection, batch: nat, p: Projection)
    requires NotStranded(t, p) && !p.tolerant && (q.name == p.name ==> q == p) && RunOnce(t, q, batch).Ok?
    ensures NotStranded(RunOnce(t, q, batch).value.0, p)
  {
    RunOnceIs(t, q, batch);
    var cursor := LoadCheckpoint(t, q.name);
    var page := SelectStored(t, cursor, q.Wanted(), batch).value;
    var model, seen := Fold(q, ModelOf(t, q), page).value, SeenThrough(cursor, Head(t), page, batch);
    AdvanceWritesItsOwn(t, q, model, cursor, seen);
  }

  lemma OpStrandsNobody(t: Tables, op: Op, p: Projection)
    requires NotStranded(t, p) && Unforced(p, op) && !p.tolerant
    ensures NotStranded(Exec(t, op), p)
  {
    match op {
      case Commit(write) => CommitAppends(t, write);
      case Retain(plan, guard, archived) => RemovalStrandsNobody(t, plan, guard, archived, p);
      case Batch(q, batch) => if RunOnce(t, q, batch).Ok? { BatchStrandsNobody(t, q, batch, p); }
      case _ =>
    }
  }

  lemma {:induction false} NobodyIsStranded(ops: seq<Op>, k: nat, p: Projection)
    requires k <= |ops|
    requires !p.tolerant && forall op <- ops :: Unforced(p, op)
    ensures NotStranded(Run(Fresh, ops, k).t, p)
  {
    if k > 0 {
      NobodyIsStranded(ops, k - 1, p);
      OpStrandsNobody(Run(Fresh, ops, k - 1).t, ops[k - 1], p);
      RunNext(Fresh, ops, k - 1, k);
    }
  }

  predicate RefusedAsTruncated(t: Tables, p: Projection, batch: nat) {
    RunOnce(t, p, batch).Err? && RunOnce(t, p, batch).error.Truncated?
  }

  lemma TruncatedMeansStranded(t: Tables, p: Projection, batch: nat)
    ensures RefusedAsTruncated(t, p, batch) <==> !p.tolerant && LoadCheckpoint(t, p.name) < Watermark(t)
  {}

  /** In every state of every run a batch is refused as truncated exactly when the
      projection is strict and an event committed above its cursor is gone. */
  lemma RefusedWhenSomethingIsGone(ops: seq<Op>, k: nat, p: Projection, batch: nat)
    requires k <= |ops|
    ensures var w := Run(Fresh, ops, k);
      RefusedAsTruncated(w.t, p, batch) <==>
        !p.tolerant && !Guarantees.AllThereAbove(w, LoadCheckpoint(w.t, p.name))
  {
    var w := Run(Fresh, ops, k);
    LogAlwaysHolds(ops, k);
    TruncatedMeansStranded(w.t, p, batch);
    Guarantees.VouchedExactly(w, LoadCheckpoint(w.t, p.name));
  }

  /** Without `Force`, a strict projection whose cursor only its runner writes is
      never refused as truncated once that cursor is stored. */
  lemma RegisteredIsNeverTruncated(ops: seq<Op>, k: nat, p: Projection, batch: nat)
    requires k <= |ops| && !p.tolerant && forall op <- ops :: Unforced(p, op)
    requires p.name in Run(Fresh, ops, k).t.checkpoints
    ensures !RefusedAsTruncated(Run(Fresh, ops, k).t, p, batch)
  {
    NobodyIsStranded(ops, k, p);
    TruncatedMeansStranded(Run(Fresh, ops, k).t, p, batch);
  }

  /** The guard sees stored rows only: a strict projection that has not checked in
      is refused as truncated after any removal the guard allowed. */
  lemma UnregisteredIsStranded(t: Tables, plan: Plan, p: Projection, batch: nat)
    requires !p.tolerant && p.name !in t.checkpoints
    requires Retention.Apply(t, plan, RegisteredConsumers, false).Ok?
    requires Doomed(t, plan) != [] && forall r <- t.events :: r.position > 0
    ensures var u := Retention.Apply(t, plan, RegisteredConsumers, false).value.0;
      RunOnce(u, p, batch) == Err(Truncated(0, Watermark(u)))
  {
    var u := Retention.Apply(t, plan, RegisteredConsumers, false).value.0;
    assert Doomed(t, plan)[0] in Doomed(t, plan);
    assert u.ledger[|t.ledger|] in u.ledger;
  }
}
