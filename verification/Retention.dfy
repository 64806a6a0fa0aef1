/** Removing events: what a plan selects, what each guard refuses, the export
    receipts one of them rests on, and the ledger a removal leaves. */
module Retention {
  import opened Wrappers
  import opened Event
  import opened Rows
  import opened Filters
  import opened Database

  datatype Plan = Before(position: U64) | OlderThan(epochMs: U64) | Streams(streams: seq<string>)
  {
    /** Both numeric plans refuse a value the column cannot hold. */
    function Refusal(): Option<Error> {
      match this
      case Before(position) => if position > I64_MAX then Some(Validation) else None
      case OlderThan(epochMs) => if epochMs > I64_MAX then Some(Validation) else None
      case Streams(streams) => if |streams| > MAX_PLACEHOLDERS then Some(Unsupported) else None
    }

    /** The `WHERE` clause. Ages compare as the signed column stores them. */
    predicate Selects(row: Row) {
      match this
      case Before(position) => row.position <= position
      case OlderThan(epochMs) => row.body.epochMs < epochMs
      case Streams(streams) => row.stream in streams
    }
  }

  /** What a plan takes, in a row's own terms: positions up to its own, times before
      its cutoff and those past the signed maximum, streams it names. */
  predicate Takes(plan: Plan, r: Row) {
    match plan
    case Before(position) => r.position <= position
    case OlderThan(cutoff) => ToU64(r.body.epochMs) < cutoff || ToU64(r.body.epochMs) > I64_MAX
    case Streams(names) => r.stream in names
  }

  /** Whether the plan's value is one the column can hold, or its names as many as a
      statement takes. */
  predicate Storable(plan: Plan) {
    match plan
    case Before(position) => position <= I64_MAX
    case OlderThan(cutoff) => cutoff <= I64_MAX
    case Streams(names) => |names| <= 32_766
  }

  lemma SelectsWhatItTakes(plan: Plan)
    requires Storable(plan)
    ensures forall r :: plan.Selects(r) <==> Takes(plan, r)
  {}

  lemma RefusesWhatDoesNotFit(plan: Plan)
    ensures plan.Refusal()
      == if Storable(plan) then None else Some(if plan.Streams? then Unsupported else Validation)
  {}

  /** An age plan means what it says of every time up to the signed maximum, and
      takes every event whose time is past it whatever the cutoff. */
  lemma AgePlanMeaning(cutoff: U64, time: U64, row: Row)
    requires cutoff <= I64_MAX && row.body.epochMs == ToI64(time)
    ensures (OlderThan(cutoff).Selects(row) <==> time < cutoff) <==> time <= I64_MAX
  {}

  datatype Guard = RegisteredConsumers | Force | ExportedFirst

  datatype Report = Report(removed: nat, highest: Option<nat>, streams: nat)

  const Nothing := Report(0, None, 0)

  // ---- the chain of receipts -----------------------------------------------

  predicate Covers(r: Receipt, p: nat) {
    r.from < p <= r.through
  }

  ghost predicate Covered(receipts: seq<Receipt>, p: nat) {
    exists r <- receipts :: Covers(r, p)
  }

  predicate Vouches(r: Receipt) { r.landed && r.whole }

  function Vouching(t: Tables): seq<Receipt> {
    Pick(t.exports, (r: Receipt) => Vouches(r))
  }

  predicate Ordered(rs: seq<Receipt>) {
    forall i, j :: 0 <= i < j < |rs| ==> rs[i].from <= rs[j].from
  }

  predicate NotAfter(a: Receipt, b: Receipt) {
    a.from < b.from || (a.from == b.from && a.through <= b.through)
  }

  function InsertOrdered(r: Receipt, rs: seq<Receipt>): (out: seq<Receipt>)
    ensures forall x :: x in out <==> x == r || x in rs
    ensures Ordered(rs) ==> Ordered(out)
  {
    if rs == [] then [r]
    else if NotAfter(r, rs[0]) then [r] + rs
    else
      var rest := InsertOrdered(r, rs[1..]);
      assert forall x :: x in rs <==> x == rs[0] || x in rs[1..];
      assert Ordered(rs) ==> Ordered(rs[1..]) && forall x <- rest :: rs[0].from <= x.from;
      [rs[0]] + rest
  }

  /** `ORDER BY from_position, through`. */
  function OrderByFrom(rs: seq<Receipt>): (out: seq<Receipt>)
    ensures forall x :: x in out <==> x in rs
    ensures Ordered(out)
  {
    if rs == [] then [] else InsertOrdered(rs[0], OrderByFrom(rs[1..]))
  }

  /** The walk: a page that starts at or before the reach and ends past it
      extends the chain. */
  function Reach(rs: seq<Receipt>): Stored {
    if rs == [] then 0
    else
      var sofar := Reach(rs[..|rs| - 1]);
      var r := rs[|rs| - 1];
      if r.from <= sofar && r.through > sofar then r.through else sofar
  }

  function ExportedThrough(t: Tables): Stored {
    Reach(OrderByFrom(Vouching(t)))
  }

  lemma {:induction false} ReachCovers(rs: seq<Receipt>, p: nat)
    requires 1 <= p <= Reach(rs)
    ensures Covered(rs, p)
  {
    var front, last := rs[..|rs| - 1], rs[|rs| - 1];
    if p <= Reach(front) {
      ReachCovers(front, p);
      var r :| r in front && Covers(r, p);
      assert r in rs;
    } else {
      assert last in rs && Covers(last, p);
    }
  }

  lemma {:induction false} ReachStops(rs: seq<Receipt>)
    requires Ordered(rs)
    ensures forall r <- rs :: r.through <= Reach(rs) || r.from > Reach(rs)
  {
    if rs != [] {
      var front, last := rs[..|rs| - 1], rs[|rs| - 1];
      ReachStops(front);
      assert forall r <- rs :: r in front || r == last;
      assert forall r <- front :: r.from <= last.from;
    }
  }

  /** Everything up to `r` is covered and the next position is not. */
  ghost predicate ChainEnd(receipts: seq<Receipt>, r: nat) {
    (forall p :: 1 <= p <= r ==> Covered(receipts, p)) && !Covered(receipts, r + 1)
  }

  /** The greedy walk is exact: for every table of receipts it finds the one
      position up to which landed, whole receipts cover without a gap. */
  lemma GreedyChainIsExact(t: Tables, r: nat)
    ensures ChainEnd(Vouching(t), r) <==> r == ExportedThrough(t)
  {
    var rs := OrderByFrom(Vouching(t));
    var reach: nat := ExportedThrough(t);
    forall p | 1 <= p <= reach ensures Covered(Vouching(t), p) {
      ReachCovers(rs, p);
      var x :| x in rs && Covers(x, p);
      assert x in Vouching(t);
    }
    ReachStops(rs);
    assert !Covered(Vouching(t), reach + 1);
  }

  /** It depends only on which intervals have landed whole, not on their ids,
      their order or how often each was taken; and more of them never lower it. */
  lemma ChainDependsOnIntervals(t: Tables, u: Tables)
    requires forall p :: Covered(Vouching(t), p) ==> Covered(Vouching(u), p)
    ensures ExportedThrough(t) <= ExportedThrough(u)
    ensures (forall p :: Covered(Vouching(u), p) ==> Covered(Vouching(t), p))
      ==> ExportedThrough(t) == ExportedThrough(u)
  {
    GreedyChainIsExact(t, ExportedThrough(t));
    GreedyChainIsExact(u, ExportedThrough(u));
  }

  // ---- the two moments of an export ----------------------------------------

  /** The end of a page: its last position, or where it started. */
  function Through(from: nat, page: seq<Row>): nat {
    if page == [] then from else page[|page| - 1].position
  }

  /** The receipt of a page handed out: taken, not landed. Its id is returned. */
  function WriteReceipt(t: Tables, from: U64, page: seq<Row>, f: Filter): Result<(Tables, nat)> {
    if from > I64_MAX then Err(Validation)
    else
      var receipt := Receipt(from, Through(from, page), |page|, f.Whole(), false);
      Ok((t.(exports := t.exports + [receipt]), |t.exports| + 1))
  }

  /** The caller's word that the page landed. Confirming twice is one
      confirmation; an id no receipt has is refused. */
  function Confirm(t: Tables, id: nat): Result<Tables> {
    if 1 <= id <= |t.exports| then
      Ok(t.(exports := t.exports[id - 1 := t.exports[id - 1].(landed := true)]))
    else
      Err(Validation)
  }

  /** Confirming one more receipt, or writing one, never takes the chain back. */
  lemma ConfirmNeverLowers(t: Tables, id: nat)
    requires Confirm(t, id).Ok?
    ensures ExportedThrough(t) <= ExportedThrough(Confirm(t, id).value)
  {
    var u := Confirm(t, id).value;
    forall p | Covered(Vouching(t), p) ensures Covered(Vouching(u), p) {
      var r :| r in Vouching(t) && Covers(r, p);
      var i :| 0 <= i < |t.exports| && t.exports[i] == r;
      assert Covers(u.exports[i], p) && u.exports[i] in u.exports;
      assert u.exports[i] in Vouching(u);
    }
    ChainDependsOnIntervals(t, u);
  }

  /** A confirmed whole page that starts inside the chain carries it to its end. */
  lemma ConfirmExtends(t: Tables, id: nat)
    requires Confirm(t, id).Ok?
    requires t.exports[id - 1].whole && t.exports[id - 1].from <= ExportedThrough(t)
    ensures ExportedThrough(Confirm(t, id).value) >= t.exports[id - 1].through
  {
    var u, r := Confirm(t, id).value, t.exports[id - 1];
    ConfirmNeverLowers(t, id);
    assert u.exports[id - 1] in u.exports;
    assert u.exports[id - 1] in OrderByFrom(Vouching(u));
    ReachStops(OrderByFrom(Vouching(u)));
  }

  // ---- the removal ---------------------------------------------------------

  function Doomed(t: Tables, plan: Plan): seq<Row> {
    Pick(t.events, (r: Row) => plan.Selects(r))
  }

  function Spared(t: Tables, plan: Plan): seq<Row> {
    Pick(t.events, (r: Row) => !plan.Selects(r))
  }

  predicate SomeoneBehind(t: Tables, highest: nat) {
    exists consumer <- t.checkpoints :: t.checkpoints[consumer] < highest
  }

  /** The highest position a plan would take, or nothing. */
  function HighestMatching(t: Tables, plan: Plan): Result<Option<nat>> {
    if plan.Refusal().Some? then Err(plan.Refusal().value)
    else if Doomed(t, plan) == [] then Ok(None)
    else Ok(Some(HeadOf(Doomed(t, plan))))
  }

  /** One transaction: count, guard, delete, ledger. */
  function Apply(t: Tables, plan: Plan, guard: Guard, archived: bool): Result<(Tables, Report)> {
    var reach :- HighestMatching(t, plan);
    if reach.None? then Ok((t, Nothing))
    else
      var doomed, highest := Doomed(t, plan), reach.value;
      if guard == ExportedFirst && highest > ExportedThrough(t) then
        Err(NotExported(highest, ExportedThrough(t)))
      else if guard != Force && SomeoneBehind(t, highest) then
        Err(ConsumerBehind(highest))
      else
        Ok((t.(events := Spared(t, plan), ledger := t.ledger + [LedgerRow(|doomed|, highest, archived)]),
            Report(|doomed|, Some(highest), |set r <- doomed :: r.stream|)))
  }

  /** The positions up to every row a plan takes are covered by landed whole
      receipts. */
  ghost predicate AllExported(t: Tables, plan: Plan) {
    forall r <- t.events, p: nat :: Takes(plan, r) && 1 <= p <= r.position ==> Covered(Vouching(t), p)
  }

  /** Every stored consumer is at or past every row a plan takes. */
  ghost predicate NobodyBehind(t: Tables, plan: Plan) {
    forall r <- t.events, consumer <- t.checkpoints :: Takes(plan, r) ==> t.checkpoints[consumer] >= r.position
  }

  /** The highest row a plan takes. */
  ghost predicate IsTop(t: Tables, plan: Plan, top: Row) {
    top in t.events && Takes(plan, top) && forall r <- t.events :: Takes(plan, r) ==> r.position <= top.position
  }

  lemma DoomedAreTaken(t: Tables, plan: Plan, r: Row)
    requires Storable(plan)
    ensures r in Doomed(t, plan) <==> r in t.events && Takes(plan, r)
    ensures r in Spared(t, plan) <==> r in t.events && !Takes(plan, r)
  {
    SelectsWhatItTakes(plan);
  }

  lemma DoomedTop(t: Tables, plan: Plan) returns (top: Row)
    requires Storable(plan) && Doomed(t, plan) != []
    ensures IsTop(t, plan, top) && top.position == HeadOf(Doomed(t, plan))
  {
    assert Doomed(t, plan)[0] in Doomed(t, plan);
    top :| top in Doomed(t, plan) && (top.position == HeadOf(Doomed(t, plan)) || HeadOf(Doomed(t, plan)) == 0);
    DoomedAreTaken(t, plan, top);
    assert top.position == HeadOf(Doomed(t, plan));
    forall r | r in t.events && Takes(plan, r) ensures r.position <= top.position {
      DoomedAreTaken(t, plan, r);
      assert r in Doomed(t, plan);
    }
  }

  lemma ReachIsCoverage(t: Tables, plan: Plan, top: Row)
    requires IsTop(t, plan, top)
    ensures top.position <= ExportedThrough(t) <==> AllExported(t, plan)
  {
    GreedyChainIsExact(t, ExportedThrough(t));
    if top.position > ExportedThrough(t) { assert !Covered(Vouching(t), ExportedThrough(t) + 1); }
  }

  lemma BehindMeans(t: Tables, plan: Plan, top: Row)
    requires IsTop(t, plan, top)
    ensures SomeoneBehind(t, top.position) <==> !NobodyBehind(t, plan)
  {}

  lemma NothingDoomed(t: Tables, plan: Plan)
    requires Storable(plan)
    ensures Doomed(t, plan) == [] <==> forall r <- t.events :: !Takes(plan, r)
  {
    forall r | r in t.events ensures Takes(plan, r) <==> r in Doomed(t, plan) { DoomedAreTaken(t, plan, r); }
    if Doomed(t, plan) != [] { assert Doomed(t, plan)[0] in Doomed(t, plan); }
  }

  /** When a plan goes through, in terms of what is in the tables: its value is one
      the column can hold, everything it would take is covered by confirmed exports
      if the guard asks for them, and nobody registered is behind any of it unless
      it is forced. */
  lemma PlanGoesThrough(t: Tables, plan: Plan, guard: Guard, archived: bool)
    ensures Apply(t, plan, guard, archived).Ok? <==>
      && Storable(plan)
      && (guard == ExportedFirst ==> AllExported(t, plan))
      && (guard != Force ==> NobodyBehind(t, plan))
  {
    RefusesWhatDoesNotFit(plan);
    if Storable(plan) {
      NothingDoomed(t, plan);
      if Doomed(t, plan) != [] {
        var top := DoomedTop(t, plan);
        ReachIsCoverage(t, plan, top);
        BehindMeans(t, plan, top);
      }
    }
  }

  /** What refuses a plan, and in what words: a value that does not fit; else the
      highest row it takes and the end of the chain, if the chain does not cover it;
      else that row, which some consumer has not reached. */
  lemma PlanRefusals(t: Tables, plan: Plan, guard: Guard, archived: bool, top: Row)
    requires Storable(plan) ==> IsTop(t, plan, top)
    ensures var answer := Apply(t, plan, guard, archived);
      if !Storable(plan) then answer == Err(if plan.Streams? then Unsupported else Validation)
      else if guard == ExportedFirst && !AllExported(t, plan) then
        answer.Err? && answer.error.NotExported?
        && answer.error.upTo == top.position && ChainEnd(Vouching(t), answer.error.exportedThrough)
      else if guard != Force && !NobodyBehind(t, plan) then
        answer == Err(ConsumerBehind(top.position))
      else
        answer.Ok?
  {
    RefusesWhatDoesNotFit(plan);
    if Storable(plan) {
      NothingDoomed(t, plan);
      var highest := DoomedTop(t, plan);
      ReachIsCoverage(t, plan, top);
      BehindMeans(t, plan, top);
      GreedyChainIsExact(t, ExportedThrough(t));
    }
  }

  /** The rows a plan takes, counted. */
  lemma DoomedCount(t: Tables, plan: Plan)
    ensures |Doomed(t, plan)| == |t.events| - |Spared(t, plan)|
    ensures Doomed(t, plan) == [] ==> Spared(t, plan) == t.events
  {
    PickSplits(t.events, (r: Row) => plan.Selects(r), (r: Row) => !plan.Selects(r));
    if Doomed(t, plan) == [] { PickAll(t.events, (r: Row) => !plan.Selects(r)); }
  }

  lemma DoomedStreams(t: Tables, plan: Plan)
    requires Storable(plan)
    ensures (set r <- Doomed(t, plan) :: r.stream) == set r <- t.events | Takes(plan, r) :: r.stream
  {
    forall r ensures r in Doomed(t, plan) <==> r in t.events && Takes(plan, r) { DoomedAreTaken(t, plan, r); }
  }

  lemma SparedAreNotTaken(t: Tables, plan: Plan)
    requires Storable(plan)
    ensures Spared(t, plan) == Pick(t.events, (r: Row) => !Takes(plan, r))
  {
    SelectsWhatItTakes(plan);
    PickAlike(t.events, (r: Row) => !plan.Selects(r), (r: Row) => !Takes(plan, r));
  }

  lemma WentThrough(t: Tables, plan: Plan, guard: Guard, archived: bool)
    requires Apply(t, plan, guard, archived).Ok?
    ensures Storable(plan)
    ensures var (u, report) := Apply(t, plan, guard, archived).value;
      if Doomed(t, plan) == [] then u == t && report == Nothing
      else
        var highest, removed := HeadOf(Doomed(t, plan)), |Doomed(t, plan)|;
        && u == t.(events := Spared(t, plan), ledger := t.ledger + [LedgerRow(removed, highest, archived)])
        && report == Report(removed, Some(highest), |set r <- Doomed(t, plan) :: r.stream|)
  {
    RefusesWhatDoesNotFit(plan);
  }

  /** What a plan that goes through leaves: exactly the rows it does not take, in the
      order they stood, counted right, with one more ledger row if any went; nothing
      else changes. */
  lemma PlanRemovesExactly(t: Tables, plan: Plan, guard: Guard, archived: bool)
    requires Apply(t, plan, guard, archived).Ok?
    ensures var (u, report) := Apply(t, plan, guard, archived).value;
      && u.events == Pick(t.events, (r: Row) => !Takes(plan, r))
      && report.removed == |t.events| - |u.events|
      && report.streams == |set r <- t.events | Takes(plan, r) :: r.stream|
      && (report.highest.None? <==> forall r <- t.events :: !Takes(plan, r))
      && (report.highest.Some? ==>
            && (exists r <- t.events :: Takes(plan, r) && r.position == report.highest.value)
            && (forall r <- t.events :: Takes(plan, r) ==> r.position <= report.highest.value))
      && u == t.(events := u.events,
                 ledger := t.ledger + if report.removed == 0 then []
                                      else [LedgerRow(report.removed, report.highest.value, archived)])
  {
    WentThrough(t, plan, guard, archived);
    NothingDoomed(t, plan);
    DoomedCount(t, plan);
    DoomedStreams(t, plan);
    SparedAreNotTaken(t, plan);
    if Doomed(t, plan) != [] { var top := DoomedTop(t, plan); }
    assert t.ledger + [] == t.ledger;
  }

  /** In so many words, for each kind of plan. */
  lemma PlanLeaves(t: Tables, plan: Plan, guard: Guard, archived: bool, r: Row)
    requires Apply(t, plan, guard, archived).Ok?
    ensures r in Apply(t, plan, guard, archived).value.0.events <==>
      r in t.events &&
      match plan
      case Before(position) => r.position > position
      case OlderThan(cutoff) => cutoff <= ToU64(r.body.epochMs) <= I64_MAX
      case Streams(names) => r.stream !in names
  {
    PlanRemovesExactly(t, plan, guard, archived);
  }

  datatype Completeness = Complete | Incomplete(removedUpTo: nat)

  function CompletenessFrom(t: Tables, from: nat): Completeness {
    if from < Watermark(t) then Incomplete(Watermark(t)) else Complete
  }

  function RequireCompleteFrom(t: Tables, from: nat): Result<()> {
    if from < Watermark(t) then Err(Truncated(from, Watermark(t))) else Ok(())
  }
}
