/** Projections: a batch is folded and its cursor moved in one transaction. */
module Projections {
  import opened Wrappers
  import opened Event
  import opened Rows
  import opened Filters
  import opened Database
  import opened Retention

  /** A projection as the runner sees it. `apply` works on the read-model tables
      and may fail; the upcaster chain is part of it. */
  datatype Projection = Projection(
    name: string,
    kinds: Option<seq<string>>,
    tolerant: bool,
    initial: Model,
    apply: (Model, Row) -> Option<Model>)
  {
    function Wanted(): Filter { OfKinds(kinds) }

    /** The rows it folds: those of the kinds it names, or all of them. */
    predicate Folds(r: Row) { kinds.None? || r.body.kind in kinds.value }
  }

  /** The rows a projection folds past a position, in order. */
  function Past(rows: seq<Row>, p: Projection, from: nat): seq<Row> {
    Pick(rows, (r: Row) => r.position > from && p.Folds(r))
  }

  lemma PastMembers(rows: seq<Row>, p: Projection, from: nat, r: Row)
    ensures r in Past(rows, p, from) <==> r in rows && r.position > from && p.Folds(r)
  {}

  /** The filter a batch reads under selects exactly those rows. */
  lemma WantedIsFolded(rows: seq<Row>, p: Projection, from: nat)
    ensures forall r :: p.Wanted().Matches(r) <==> p.Folds(r)
    ensures After(rows, from, p.Wanted()) == Past(rows, p, from)
  {
    PickAlike(rows, (r: Row) => r.position > from && p.Wanted().Matches(r), (r: Row) => r.position > from && p.Folds(r));
  }

  function ModelOf(t: Tables, p: Projection): Model {
    if p.name in t.models then t.models[p.name] else p.initial
  }

  /** Apply rows in order; `None` as soon as one of them fails. */
  function Fold(p: Projection, model: Model, rows: seq<Row>): Option<Model> {
    if rows == [] then Some(model)
    else
      match Fold(p, model, rows[..|rows| - 1])
      case None => None
      case Some(before) => p.apply(before, rows[|rows| - 1])
  }

  lemma {:induction false} FoldConcat(p: Projection, model: Model, a: seq<Row>, b: seq<Row>)
    ensures Fold(p, model, a + b)
      == if Fold(p, model, a).Some? then Fold(p, Fold(p, model, a).value, b) else None
  {
    if b == [] {
      assert a + b == a;
    } else {
      FoldConcat(p, model, a, b[..|b| - 1]);
      assert (a + b)[..|a + b| - 1] == a + b[..|b| - 1];
    }
  }

  /** `init`: the tables exist afterwards, and keep what they held. */
  function Init(t: Tables, p: Projection): Tables {
    t.(models := t.models[p.name := ModelOf(t, p)])
  }

  /** How far a batch has seen: a full one stops at its last event, a short one
      has exhausted the range up to the head read before it. */
  function SeenThrough(cursor: nat, head: nat, page: seq<Row>, batch: nat): nat {
    var last := Through(cursor, page);
    if |page| == batch then last else Max(last, head)
  }

  /** At most one batch, in one transaction. Returns how many were applied. */
  function RunOnce(t: Tables, p: Projection, batch: nat): Result<(Tables, nat)> {
    var cursor := LoadCheckpoint(t, p.name);
    if !p.tolerant && RequireCompleteFrom(t, cursor).Err? then
      Err(RequireCompleteFrom(t, cursor).error)
    else
      var page :- SelectStored(t, cursor, p.Wanted(), batch);
      match Fold(p, ModelOf(t, p), page)
      case None => Err(Wrappers.Apply)
      case Some(model) =>
        var moved :- Advance(t, p, model, cursor, SeenThrough(cursor, Head(t), page, batch));
        Ok((moved, |page|))
  }

  /** The model and the cursor move together; the cursor only forward. */
  function Advance(t: Tables, p: Projection, model: Model, cursor: nat, seen: nat): Result<Tables> {
    var applied := t.(models := t.models[p.name := model]);
    if seen > cursor && seen > I64_MAX then Err(Validation)
    else if seen > cursor then SaveCheckpoint(applied, p.name, seen)
    else Ok(applied)
  }

  /** What a successful batch is. */
  lemma RunOnceIs(t: Tables, p: Projection, batch: nat)
    requires RunOnce(t, p, batch).Ok?
    ensures var cursor := LoadCheckpoint(t, p.name);
      && (p.tolerant || cursor >= Watermark(t))
      && SelectStored(t, cursor, p.Wanted(), batch).Ok?
      && var page := SelectStored(t, cursor, p.Wanted(), batch).value;
         && Fold(p, ModelOf(t, p), page).Some?
         && Advance(t, p, Fold(p, ModelOf(t, p), page).value, cursor, SeenThrough(cursor, Head(t), page, batch))
            == Ok(RunOnce(t, p, batch).value.0)
         && RunOnce(t, p, batch).value.1 == |page|
  {}

  /** What a batch comes to, once its page is read. */
  lemma RunOnceOf(t: Tables, p: Projection, batch: nat, page: seq<Row>)
    requires p.tolerant || LoadCheckpoint(t, p.name) >= Watermark(t)
    requires SelectStored(t, LoadCheckpoint(t, p.name), p.Wanted(), batch) == Ok(page)
    ensures var cursor := LoadCheckpoint(t, p.name);
      var seen := SeenThrough(cursor, Head(t), page, batch);
      var folded := Fold(p, ModelOf(t, p), page);
      && seen <= I64_MAX
      && RunOnce(t, p, batch)
         == if folded.None? then Err(Wrappers.Apply)
            else
              var applied := t.(models := t.models[p.name := folded.value]);
              Ok((if seen > cursor then applied.(checkpoints := t.checkpoints[p.name := seen]) else applied, |page|))
  {}

  lemma AdvanceWritesItsOwn(t: Tables, p: Projection, model: Model, cursor: nat, seen: nat)
    requires Advance(t, p, model, cursor, seen).Ok?
    ensures var u := Advance(t, p, model, cursor, seen).value;
      u == t.(models := u.models, checkpoints := u.checkpoints)
  {}

  /** Empty the model and rewind the cursor in one transaction. */
  function Rewind(t: Tables, p: Projection): Result<Tables> {
    if !p.tolerant && RequireCompleteFrom(t, 0).Err? then Err(RequireCompleteFrom(t, 0).error)
    else SaveCheckpoint(t.(models := t.models[p.name := p.initial]), p.name, 0)
  }
}
