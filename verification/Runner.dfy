/** The projection runner as it runs: a name held, a batch folded in one
    transaction, batches until one applies nothing. */
module Runner {
  import opened Wrappers
  import opened Event
  import opened Rows
  import opened Filters
  import opened Database
  import opened Retention
  import opened Projections
  import opened Sqlite
  import Whole = CatchUp

  /** Folding one more row. */
  lemma FoldNext(p: Projection, model: Model, rows: seq<Row>, i: nat)
    requires i < |rows|
    ensures Fold(p, model, rows[..i + 1])
      == if Fold(p, model, rows[..i]).None? then None else p.apply(Fold(p, model, rows[..i]).value, rows[i])
  {
    assert rows[..i + 1][..i] == rows[..i];
  }

  lemma {:induction false} FoldStops(p: Projection, model: Model, rows: seq<Row>, i: nat)
    requires i <= |rows| && Fold(p, model, rows[..i]).None?
    ensures Fold(p, model, rows).None?
    decreases |rows| - i
  {
    if i < |rows| {
      FoldNext(p, model, rows, i);
      FoldStops(p, model, rows, i + 1);
    } else {
      assert rows[..i] == rows;
    }
  }

  /** What one batch does to a catch-up that comes to `rest`: it ends it, or leaves
      `then` to do, which is less. */
  ghost predicate Again(t: Tables, p: Projection, u: Tables, answer: Result<nat>,
                        rest: (Tables, Result<nat>), left: (Tables, Result<nat>))
  {
    match answer
    case Err(_) => rest == (u, answer)
    case Ok(applied) =>
      if applied == 0 then rest == (u, answer)
      else rest == Whole.Joined(applied, left) && Whole.Behind(u, p) < Whole.Behind(t, p)
  }

  lemma BatchIsAgain(t: Tables, p: Projection, batch: nat, u: Tables, answer: Result<nat>)
    requires batch >= 1 && Went(t, u, Projections.RunOnce(t, p, batch), answer)
    ensures Again(t, p, u, answer, Whole.CatchUp(t, p, batch), Whole.CatchUp(u, p, batch))
  {
    if answer.Ok? && answer.value > 0 { Whole.BatchProgresses(t, p, batch); }
  }

  /** What a catch-up comes to is what it has applied and what the rest comes to. */
  ghost predicate AddsUp(whole: (Tables, Result<nat>), total: nat, rest: (Tables, Result<nat>)) {
    whole == Whole.Joined(total, rest)
  }

  lemma AddsUpOn(whole: (Tables, Result<nat>), total: nat, rest: (Tables, Result<nat>), applied: nat,
                 left: (Tables, Result<nat>), sum: nat)
    requires AddsUp(whole, total, rest) && rest == Whole.Joined(applied, left) && sum == total + applied
    ensures AddsUp(whole, sum, left)
  {}

  lemma AddsUpEnds(whole: (Tables, Result<nat>), total: nat, rest: (Tables, Result<nat>))
    requires AddsUp(whole, total, rest)
    ensures rest.1.Err? ==> whole == rest
    ensures rest.1 == Ok(0) ==> whole == (rest.0, Ok(total))
  {}

  class ProjectionRunner {
    const shared: Shared
    const projection: Projection
    var batch: nat

    constructor (shared: Shared, projection: Projection)
      ensures this.shared == shared && this.projection == projection && batch == 256
    {
      this.shared, this.projection, batch := shared, projection, 256;
    }

    /** `with_batch`: at least one event a transaction. */
    method WithBatch(batch: nat)
      modifies this
      ensures this.batch >= 1 && (batch >= 1 ==> this.batch == batch)
    {
      this.batch := if batch == 0 then 1 else batch;
    }

    /** Apply a page on the connection, one row at a time. */
    method ApplyPage(page: seq<Row>) returns (failed: bool)
      modifies shared.isle
      ensures var folded := Fold(projection, ModelOf(old(shared.isle.Tables()), projection), page);
        && (failed <==> folded.None?)
        && (!failed ==>
              shared.isle.Tables()
              == old(shared.isle.Tables()).(models := old(shared.isle.models)[projection.name := folded.value]))
    {
      ghost var was := shared.isle.Tables();
      var model := ModelOf(shared.isle.Tables(), projection);
      shared.isle.WriteModel(projection.name, model);
      for i := 0 to |page|
        invariant Fold(projection, ModelOf(was, projection), page[..i]) == Some(model)
        invariant shared.isle.Tables() == was.(models := was.models[projection.name := model])
      {
        FoldNext(projection, ModelOf(was, projection), page, i);
        var applied := projection.apply(model, page[i]);
        if applied.None? {
          FoldStops(projection, ModelOf(was, projection), page, i + 1);
          return true;
        }
        model := applied.value;
        shared.isle.WriteModel(projection.name, model);
      }
      assert page[..|page|] == page;
      failed := false;
    }

    /** `run_once`: the check, the page, the applies and the cursor share one
        transaction; any failure leaves the tables as they were. */
    method RunOnce() returns (answer: Result<nat>)
      modifies shared.isle
      ensures Went(old(shared.isle.Tables()), shared.isle.Tables(),
                   Projections.RunOnce(old(shared.isle.Tables()), projection, batch), answer)
    {
      var began := shared.isle.Tables();
      var cursor := LoadCheckpoint(began, projection.name);
      if !projection.tolerant && cursor < Watermark(began) {
        return Err(Truncated(cursor, Watermark(began)));
      }
      var head := Head(began);
      var events := SelectStored(began, cursor, projection.Wanted(), batch);
      if events.Err? { return Err(events.error); }
      var page := events.value;
      RunOnceOf(began, projection, batch, page);
      var failed := ApplyPage(page);
      if failed {
        shared.isle.Restore(began);
        return Err(Error.Apply);
      }
      var last := if page == [] then cursor else page[|page| - 1].position;
      var seen := if |page| == batch then last else Max(last, head);
      if seen > cursor {
        var saved := shared.isle.UpsertCheckpoint(projection.name, seen);
      }
      answer := Ok(|page|);
    }

    /** One more batch of a catch-up that comes to `rest`. */
    method RunAgain(ghost rest: (Tables, Result<nat>)) returns (answer: Result<nat>, ghost left: (Tables, Result<nat>))
      requires batch >= 1 && rest == Whole.CatchUp(shared.isle.Tables(), projection, batch)
      modifies shared.isle
      ensures left == Whole.CatchUp(shared.isle.Tables(), projection, batch)
      ensures Again(old(shared.isle.Tables()), projection, shared.isle.Tables(), answer, rest, left)
    {
      ghost var t := shared.isle.Tables();
      answer := this.RunOnce();
      ghost var u := shared.isle.Tables();
      left := Whole.CatchUp(u, projection, batch);
      BatchIsAgain(t, projection, batch, u, answer);
    }

    /** `catch_up`: batches until one applies nothing; an error keeps the batches
        before it. */
    method CatchUp() returns (answer: Result<nat>)
      requires batch >= 1
      modifies shared.isle
      ensures (shared.isle.Tables(), answer) == Whole.CatchUp(old(shared.isle.Tables()), projection, batch)
    {
      ghost var whole := Whole.CatchUp(shared.isle.Tables(), projection, batch);
      ghost var rest := whole;
      var total := 0;
      while true
        invariant rest == Whole.CatchUp(shared.isle.Tables(), projection, batch)
        invariant AddsUp(whole, total, rest)
        decreases Whole.Behind(shared.isle.Tables(), projection)
      {
        var applied, left := RunAgain(rest);
        AddsUpEnds(whole, total, rest);
        if applied.Err? { return applied; }
        if applied.value == 0 { return Ok(total); }
        var sum := total + applied.value;
        AddsUpOn(whole, total, rest, applied.value, left, sum);
        total, rest := sum, left;
      }
    }

    /** `rebuild`: the model emptied and the cursor rewound in one transaction, or
        refused before anything is emptied; then a catch-up. */
    method Rebuild() returns (answer: Result<nat>)
      requires batch >= 1
      modifies shared.isle
      ensures (shared.isle.Tables(), answer) == Whole.Rebuild(old(shared.isle.Tables()), projection, batch)
    {
      if !projection.tolerant && 0 < Watermark(shared.isle.Tables()) {
        return Err(Truncated(0, Watermark(shared.isle.Tables())));
      }
      shared.isle.WriteModel(projection.name, projection.initial);
      var saved := shared.isle.UpsertCheckpoint(projection.name, 0);
      answer := this.CatchUp();
    }
  }

  /** `projection_runner`: a second live runner for a name is refused. */
  method NewRunner(shared: Shared, projection: Projection) returns (answer: Result<ProjectionRunner>)
    modifies shared`liveRunners
    ensures answer.Ok? <==> projection.name !in old(shared.liveRunners)
    ensures answer.Err? ==> answer.error == Unsupported && shared.liveRunners == old(shared.liveRunners)
    ensures answer.Ok? ==> answer.value.projection == projection && answer.value.shared == shared
    ensures answer.Ok? ==> shared.liveRunners == old(shared.liveRunners) + {projection.name}
  {
    var taken := shared.TakeName(projection.name);
    if taken.Err? { return Err(taken.error); }
    var runner := new ProjectionRunner(shared, projection);
    answer := Ok(runner);
  }
}
