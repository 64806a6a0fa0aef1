/** Whole runs: any sequence of transactions, each committing or leaving the
    tables as they were, and what is true of every state they reach. */
module World {
  import opened Wrappers
  import opened Event
  import opened Rows
  import opened Filters
  import opened Database
  import opened Writes
  import opened Retention
  import opened Projections
  import opened History
  import opened Routes
  import opened Hatch
  import opened Placing

  /** A write route: `append`, `append_at` and `detach_append` are the first. */
  datatype Write =
    | AppendOne(stream: string, event: Object, clock: U64)
    | AppendBatch(stream: string, events: seq<(U64, Object)>)
    | Decide(stream: string, kinds: Option<seq<string>>, decide: seq<Object> -> Option<Object>, clock: U64)
    | Expecting(stream: string, expected: Expected, event: Object, clock: U64)
    | Closure(calls: seq<Call>)

  /** One transaction on the database. The page of a receipt is whatever some
      earlier read returned. */
  datatype Op =
    | Commit(write: Write)
    | Retain(plan: Plan, guard: Guard, archived: bool)
    | Take(from: U64, page: seq<Row>, filter: Filter)
    | Land(id: nat)
    | Save(consumer: string, at: U64)
    | Create(projection: Projection)
    | Batch(projection: Projection, batch: nat)
    | Reset(projection: Projection)

  function First<A, B>(r: Result<(A, B)>): Result<A> {
    if r.Ok? then Ok(r.value.0) else Err(r.error)
  }

  function WriteStep(t: Tables, w: Write): Result<Tables> {
    match w
    case AppendOne(stream, event, clock) => First(Append(t, stream, event, clock))
    case AppendBatch(stream, events) => First(RolledBack(AppendMany(t, stream, events)))
    case Decide(stream, kinds, decide, clock) => First(AppendIf(t, stream, kinds, decide, clock))
    case Expecting(stream, expected, event, clock) => First(AppendExpecting(t, stream, expected, event, clock))
    case Closure(calls) => First(Transaction(t, calls))
  }

  function Step(t: Tables, op: Op): Result<Tables> {
    match op
    case Commit(w) => WriteStep(t, w)
    case Retain(plan, guard, archived) => First(Retention.Apply(t, plan, guard, archived))
    case Take(from, page, f) => First(WriteReceipt(t, from, page, f))
    case Land(id) => Confirm(t, id)
    case Save(consumer, at) => SaveCheckpoint(t, consumer, at)
    case Create(p) => Ok(Init(t, p))
    case Batch(p, batch) => First(RunOnce(t, p, batch))
    case Reset(p) => Rewind(t, p)
  }

  /** A transaction that fails is rolled back. */
  function Exec(t: Tables, op: Op): Tables {
    if Step(t, op).Ok? then Step(t, op).value else t
  }

  /** What each transaction leaves: what its call leaves if that succeeds, and the
      tables as they were if not. A saved cursor is the one saved; a receipt taken is
      the page's, not landed, and landing it changes only that; a projection's
      tables once created are kept; a reset empties them and rewinds. */
  lemma OpLeaves(t: Tables, op: Op)
    ensures var u := Exec(t, op);
      match op
      case Commit(write) => u == CommitLeaves(t, write)
      case Retain(plan, guard, archived) => RolledIn(t, u, Retention.Apply(t, plan, guard, archived))
      case Take(from, page, f) =>
        var through := if page == [] then from else page[|page| - 1].position;
        u == if from > I64_MAX then t else t.(exports := t.exports + [Receipt(from, through, |page|, f.Whole(), false)])
      case Land(id) =>
        u == if id == 0 || id > |t.exports| then t
             else t.(exports := t.exports[id - 1 := t.exports[id - 1].(landed := true)])
      case Save(consumer, at) =>
        u == if at > I64_MAX then t else t.(checkpoints := t.checkpoints[consumer := at])
      case Create(p) =>
        u == t.(models := if p.name in t.models then t.models else t.models[p.name := p.initial])
      case Batch(p, batch) => RolledIn(t, u, RunOnce(t, p, batch))
      case Reset(p) =>
        u == if !p.tolerant && Watermark(t) > 0 then t
             else t.(models := t.models[p.name := p.initial], checkpoints := t.checkpoints[p.name := 0])
  {
    if op.Create? && op.projection.name in t.models {
      assert t.models[op.projection.name := t.models[op.projection.name]] == t.models;
    }
  }

  ghost predicate RolledIn<A>(t: Tables, u: Tables, r: Result<(Tables, A)>) {
    u == if r.Ok? then r.value.0 else t
  }

  /** A commit of each kind. */
  function CommitLeaves(t: Tables, write: Write): Tables {
    match write
    case AppendOne(stream, event, clock) =>
      (match Append(t, stream, event, clock) case Ok((u, _)) => u case Err(_) => t)
    case AppendBatch(stream, events) =>
      (match AppendMany(t, stream, events) case (u, Ok(_)) => u case (_, Err(_)) => t)
    case Decide(stream, kinds, decide, clock) =>
      (match AppendIf(t, stream, kinds, decide, clock) case Ok((u, _)) => u case Err(_) => t)
    case Expecting(stream, expected, event, clock) =>
      (match AppendExpecting(t, stream, expected, event, clock) case Ok((u, _)) => u case Err(_) => t)
    case Closure(calls) =>
      (match RunCalls(t, calls, |calls|) case (u, Ok(_)) => u case (_, Err(_)) => t)
  }

  datatype World = World(t: Tables, hist: seq<Row>)

  const Fresh := World(Empty, [])

  /** History grows by what a write appended, and by nothing else. */
  function Then(w: World, op: Op): World {
    var u := Exec(w.t, op);
    World(u, if op.Commit? then w.hist + Added(w.t, u) else w.hist)
  }

  lemma BatchThen(w: World, p: Projection, batch: nat)
    requires RunOnce(w.t, p, batch).Ok?
    ensures Then(w, Batch(p, batch)) == World(RunOnce(w.t, p, batch).value.0, w.hist)
    ensures Exec(w.t, Batch(p, batch)) == RunOnce(w.t, p, batch).value.0
  {}

  function Run(w: World, ops: seq<Op>, k: nat): World
    requires k <= |ops|
  {
    if k == 0 then w else Then(Run(w, ops, k - 1), ops[k - 1])
  }

  lemma RunNext(w: World, ops: seq<Op>, j: nat, k: nat)
    requires k == j + 1 <= |ops|
    ensures Run(w, ops, k) == Then(Run(w, ops, j), ops[j])
  {}

  lemma {:induction false} RunOfPrefix(w: World, ops: seq<Op>, more: seq<Op>, k: nat)
    requires k <= |ops|
    ensures Run(w, ops + more, k) == Run(w, ops, k)
  {
    if k > 0 {
      RunOfPrefix(w, ops, more, k - 1);
      assert (ops + more)[k - 1] == ops[k - 1];
    }
  }

  lemma RunOneMore(w: World, ops: seq<Op>, op: Op, ran: seq<Op>)
    requires ran == ops + [op]
    ensures Run(w, ran, |ran|) == Then(Run(w, ops, |ops|), op)
  {
    RunOfPrefix(w, ops, [op], |ops|);
    RunNext(w, ran, |ops|, |ran|);
  }

  /** The one thing asked of callers: no closure goes on after a call that failed
      with rows inserted. */
  ghost predicate Sound(t: Tables, op: Op) {
    op.Commit? && op.write.Closure? ==> !Breaks(t, op.write.calls, |op.write.calls|)
  }

  ghost predicate SoundAt(w: World, ops: seq<Op>, k: nat)
    requires k < |ops|
  {
    Sound(Run(w, ops, k).t, ops[k])
  }

  ghost predicate SoundRun(w: World, ops: seq<Op>) {
    forall k :: 0 <= k < |ops| ==> SoundAt(w, ops, k)
  }

  ghost predicate Holds(w: World) { Inv(w.t, w.hist) }

  /** The positional half, which no closure can break. */
  ghost predicate LogHolds(w: World) { Recorded(w.t, w.hist) }

  // ---- every operation keeps the history -----------------------------------

  lemma AppendKeeps(t: Tables, hist: seq<Row>, stream: string, event: Object, clock: U64)
    requires Inv(t, hist) && Append(t, stream, event, clock).Ok?
    ensures var u := Append(t, stream, event, clock).value.0;
      OnlyAppends(t, u) && Inv(u, hist + Added(t, u))
  {
    AppendIsPut(t, stream, event, clock);
    StampedBodyIs(event, 1, clock);
    var entries := [Entry(stream, StampedBody(event, clock))];
    assert PutTo(t, entries, 0) == Ok(t);
    assert PutAll(t, entries) == PutNext(PutTo(t, entries, 0), entries[0]);
    PutAllKeeps(t, hist, entries);
  }

  /** A commit only appends, at the positions that follow, even one whose closure
      broke the numbering. */
  lemma CommitAppends(t: Tables, write: Write)
    ensures InPlace(t, Exec(t, Commit(write)))
  {
    NothingAdded(t);
    match write {
      case AppendOne(stream, event, clock) => AppendInPlace(t, stream, event, clock);
      case AppendBatch(stream, events) => CallInPlace(t, AppendCall(stream, events, false));
      case Decide(stream, kinds, decide, clock) =>
        var seen := ObjectsOf(SelectStream(t, stream, kinds, 0, U64_MAX));
        if decide(seen).Some? { AppendInPlace(t, stream, decide(seen).value, clock); }
      case Expecting(stream, _, event, clock) => AppendInPlace(t, stream, event, clock);
      case Closure(calls) => CallsInPlace(t, calls, |calls|);
    }
  }

  /** Most operations write tables the history does not rest on. */
  predicate SameLog(t: Tables, u: Tables) {
    u.events == t.events && u.issued == t.issued && u.counters == t.counters && u.ledger == t.ledger
  }

  lemma BatchKeepsReceipts(t: Tables, p: Projection, batch: nat)
    requires RunOnce(t, p, batch).Ok?
    ensures RunOnce(t, p, batch).value.0.exports == t.exports && SameLog(t, RunOnce(t, p, batch).value.0)
  {
    RunOnceIs(t, p, batch);
    var cursor := LoadCheckpoint(t, p.name);
    var page := SelectStored(t, cursor, p.Wanted(), batch).value;
    AdvanceWritesItsOwn(t, p, Fold(p, ModelOf(t, p), page).value, cursor, SeenThrough(cursor, Head(t), page, batch));
  }

  /** Only a receipt taken or landed changes the table of receipts. */
  lemma ReceiptsUntouched(t: Tables, op: Op)
    requires !op.Take? && !op.Land?
    ensures Exec(t, op).exports == t.exports
  {
    match op {
      case Commit(write) => CommitAppends(t, write);
      case Batch(p, batch) => if RunOnce(t, p, batch).Ok? { BatchKeepsReceipts(t, p, batch); }
      case _ =>
    }
  }

  lemma WriteKeeps(t: Tables, hist: seq<Row>, w: Write)
    requires Inv(t, hist) && WriteStep(t, w).Ok? && Sound(t, Commit(w))
    ensures var u := WriteStep(t, w).value;
      OnlyAppends(t, u) && Inv(u, hist + Added(t, u))
  {
    assert hist + [] == hist;
    match w {
      case AppendOne(stream, event, clock) => AppendKeeps(t, hist, stream, event, clock);
      case AppendBatch(stream, events) => AppendEnds(t, hist, stream, events, false);
      case Decide(stream, kinds, decide, clock) =>
        var seen := ObjectsOf(SelectStream(t, stream, kinds, 0, U64_MAX));
        if decide(seen).Some? { AppendKeeps(t, hist, stream, decide(seen).value, clock); }
      case Expecting(stream, expected, event, clock) => AppendKeeps(t, hist, stream, event, clock);
      case Closure(calls) => TransactionKeepsHistory(t, hist, calls);
    }
  }

  /** What a plan leaves when it removes something. */
  function Removed(t: Tables, plan: Plan, archived: bool): Tables {
    t.(events := Spared(t, plan),
       ledger := t.ledger + [LedgerRow(|Doomed(t, plan)|, HeadOf(Doomed(t, plan)), archived)])
  }

  lemma RemovalIs(t: Tables, plan: Plan, guard: Guard, archived: bool)
    ensures var u := Exec(t, Retain(plan, guard, archived));
      u == t || (Doomed(t, plan) != [] && u == Removed(t, plan, archived))
  {}

  /** A removal moves the mark to the highest position it took, or leaves it above. */
  lemma MarkMoves(hist: seq<Row>, live: seq<Row>, kept: seq<Row>, plan: Plan, mark: nat, top: Row, after: nat)
    requires forall r <- hist :: r.position > mark ==> r in live
    requires mark > 0 ==> mark <= |hist| && hist[mark - 1] !in live
    requires forall r :: r in kept <==> r in live && !plan.Selects(r)
    requires top in live && plan.Selects(top) && forall r <- live :: plan.Selects(r) ==> r.position <= top.position
    requires 1 <= top.position <= |hist| && hist[top.position - 1] == top
    requires after == Max(mark, top.position)
    ensures forall r <- hist :: r.position > after ==> r in kept
    ensures after <= |hist| && hist[after - 1] !in kept
  {}

  lemma RemovalKeepsLedger(t: Tables, hist: seq<Row>, plan: Plan, u: Tables, top: Row)
    requires LiveFrom(t, hist) && LedgerExact(t, hist)
    requires u.events == Spared(t, plan)
    requires top in t.events && plan.Selects(top)
    requires forall r <- t.events :: plan.Selects(r) ==> r.position <= top.position
    requires Watermark(u) == Max(Watermark(t), top.position)
    ensures LedgerExact(u, hist)
  {
    MarkMoves(hist, t.events, u.events, plan, Watermark(t), top, Watermark(u));
  }

  /** The highest position a plan takes is some row's. */
  lemma HighestIsDoomed(t: Tables, plan: Plan)
    requires Doomed(t, plan) != [] && forall r <- t.events :: r.position >= 1
    ensures exists r <- Doomed(t, plan) :: r.position == HeadOf(Doomed(t, plan))
  {
    assert Doomed(t, plan)[0] in Doomed(t, plan);
  }

  lemma RemovalKeepsLive(t: Tables, hist: seq<Row>, plan: Plan, u: Tables)
    requires LiveFrom(t, hist) && u.events == Spared(t, plan)
    ensures LiveFrom(u, hist)
  {
    PickSorted(t.events, (r: Row) => !plan.Selects(r));
  }

  lemma CountersStay(t: Tables, hist: seq<Row>, u: Tables)
    requires CountersAgree(t, hist) && u.counters == t.counters
    ensures CountersAgree(u, hist)
  {
    forall s ensures NextSeq(u, s) == Count(hist, s) + 1 { assert NextSeq(t, s) == Count(hist, s) + 1; }
  }

  lemma RemovalRecorded(t: Tables, hist: seq<Row>, plan: Plan, archived: bool, u: Tables)
    requires Recorded(t, hist) && Doomed(t, plan) != [] && u == Removed(t, plan, archived)
    ensures Recorded(u, hist)
  {
    assert u.ledger[..|t.ledger|] == t.ledger;
    HighestIsDoomed(t, plan);
    var top :| top in Doomed(t, plan) && top.position == HeadOf(Doomed(t, plan));
    RemovalKeepsLedger(t, hist, plan, u, top);
    RemovalKeepsLive(t, hist, plan, u);
  }

  lemma BatchKeepsLog(t: Tables, p: Projection, batch: nat)
    ensures SameLog(t, Exec(t, Batch(p, batch)))
  {
    if RunOnce(t, p, batch).Ok? { BatchKeepsReceipts(t, p, batch); }
  }

  lemma OtherOpsKeepLog(t: Tables, op: Op)
    requires !op.Commit? && !op.Retain?
    ensures SameLog(t, Exec(t, op))
  {
    match op
    case Batch(p, batch) => BatchKeepsLog(t, p, batch);
    case _ =>
  }

  lemma RetainKeepsPositions(t: Tables, hist: seq<Row>, plan: Plan, guard: Guard, archived: bool)
    requires Recorded(t, hist)
    ensures Recorded(Exec(t, Retain(plan, guard, archived)), hist)
  {
    RemovalIs(t, plan, guard, archived);
    var u := Exec(t, Retain(plan, guard, archived));
    if u != t { RemovalRecorded(t, hist, plan, archived, u); }
  }

  lemma SameLogRecorded(t: Tables, hist: seq<Row>, u: Tables)
    requires Recorded(t, hist) && SameLog(t, u)
    ensures Recorded(u, hist)
  {}

  lemma OthersKeepPositions(w: World, op: Op)
    requires LogHolds(w) && !op.Commit? && !op.Retain?
    ensures LogHolds(Then(w, op))
  {
    OtherOpsKeepLog(w.t, op);
    SameLogRecorded(w.t, w.hist, Exec(w.t, op));
  }

  /** Every transaction keeps the positional half, with nothing asked of callers. */
  lemma OpKeepsPositions(w: World, op: Op)
    requires LogHolds(w)
    ensures LogHolds(Then(w, op))
  {
    match op {
      case Commit(write) =>
        CommitAppends(w.t, write);
        RecordedGrows(w.t, w.hist, Exec(w.t, op));
      case Retain(plan, guard, archived) => RetainKeepsPositions(w.t, w.hist, plan, guard, archived);
      case _ => OthersKeepPositions(w, op);
    }
  }

  lemma CountersUntouched(t: Tables, op: Op)
    requires !op.Commit?
    ensures Exec(t, op).counters == t.counters
  {
    if op.Retain? {
      RemovalIs(t, op.plan, op.guard, op.archived);
    } else {
      OtherOpsKeepLog(t, op);
    }
  }

  lemma CommitKeeps(t: Tables, hist: seq<Row>, write: Write)
    requires Inv(t, hist) && Sound(t, Commit(write))
    ensures var u := Exec(t, Commit(write)); OnlyAppends(t, u) && Inv(u, hist + Added(t, u))
  {
    assert hist + [] == hist;
    if WriteStep(t, write).Ok? { WriteKeeps(t, hist, write); }
  }

  lemma OpKeeps(w: World, op: Op)
    requires Holds(w) && Sound(w.t, op)
    ensures Holds(Then(w, op))
  {
    if op.Commit? {
      CommitKeeps(w.t, w.hist, op.write);
    } else {
      OpKeepsPositions(w, op);
      CountersUntouched(w.t, op);
      CountersStay(w.t, w.hist, Exec(w.t, op));
    }
  }

  lemma FreshLogHolds(ops: seq<Op>)
    ensures LogHolds(Run(Fresh, ops, 0))
  {
    assert Run(Fresh, ops, 0) == Fresh;
  }

  lemma NextLogHolds(ops: seq<Op>, j: nat, k: nat)
    requires k == j + 1 <= |ops| && LogHolds(Run(Fresh, ops, j))
    ensures LogHolds(Run(Fresh, ops, k))
  {
    OpKeepsPositions(Run(Fresh, ops, j), ops[j]);
    RunNext(Fresh, ops, j, k);
  }

  /** The positional half in every state of every run, whatever closures made of
      their errors: positions ever committed are 1..N in commit order, the live rows
      are the committed ones in order, and the ledger knows the highest removed. */
  lemma {:induction false} LogAlwaysHolds(ops: seq<Op>, k: nat)
    requires k <= |ops|
    ensures LogHolds(Run(Fresh, ops, k))
  {
    if k == 0 {
      FreshLogHolds(ops);
    } else {
      var j := k - 1;
      LogAlwaysHolds(ops, j);
      NextLogHolds(ops, j, k);
    }
  }

  lemma FreshHolds(ops: seq<Op>)
    ensures Holds(Run(Fresh, ops, 0))
  {
    assert Run(Fresh, ops, 0) == Fresh;
  }

  lemma NextHolds(ops: seq<Op>, j: nat, k: nat)
    requires SoundRun(Fresh, ops) && k == j + 1 <= |ops| && Holds(Run(Fresh, ops, j))
    ensures Holds(Run(Fresh, ops, k))
  {
    assert SoundAt(Fresh, ops, j);
    OpKeeps(Run(Fresh, ops, j), ops[j]);
    RunNext(Fresh, ops, j, k);
  }

  /** History invariant: in every reachable state positions ever committed are
      1..N, each stream's numbers count its rows, the counters agree, the live rows
      are the committed ones in order, and the ledger knows the highest removed. */
  lemma {:induction false} HistoryHolds(ops: seq<Op>, k: nat)
    requires SoundRun(Fresh, ops) && k <= |ops|
    ensures Holds(Run(Fresh, ops, k))
  {
    if k == 0 {
      FreshHolds(ops);
    } else {
      var j := k - 1;
      HistoryHolds(ops, j);
      NextHolds(ops, j, k);
    }
  }
}
