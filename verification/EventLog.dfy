/** The log's own operations as they run: the chain of receipts walked, a plan
    applied, an export recorded and confirmed, an import. */
module EventLog {
  import opened Wrappers
  import opened Event
  import opened Rows
  import opened Filters
  import opened Database
  import opened Writes
  import opened Retention
  import opened History
  import opened World
  import opened Announce
  import Guarantees
  import opened Sqlite
  import opened Store
  import Transfer

  lemma ReachExtends(rs: seq<Receipt>, i: nat)
    requires i < |rs|
    ensures Reach(rs[..i + 1])
      == if rs[i].from <= Reach(rs[..i]) && rs[i].through > Reach(rs[..i]) then rs[i].through else Reach(rs[..i])
  {
    assert rs[..i + 1][..i] == rs[..i];
  }

  /** What an import that went in publishes: the last of its new positions. */
  function Heard(watch: Watch, report: Transfer.Report): Watch {
    if report.last.Some? then watch.Publish(report.last.value) else watch
  }

  function HeardAll(watch: Watch, reports: seq<Transfer.Report>): Watch {
    if reports == [] then watch
    else Heard(HeardAll(watch, reports[..|reports| - 1]), reports[|reports| - 1])
  }

  class SqliteEventLog {
    const shared: Shared

    constructor (shared: Shared)
      ensures this.shared == shared
    {
      this.shared := shared;
    }

    /** `exported_through`: one pass over the receipts in `from` order. What it finds
        is the end of the chain: every position up to it is covered by a landed
        whole receipt, and the next one is not. */
    method ExportedThrough() returns (reach: Stored)
      ensures reach == Retention.ExportedThrough(shared.isle.Tables())
      ensures ChainEnd(Vouching(shared.isle.Tables()), reach)
    {
      var rows := OrderByFrom(Vouching(shared.isle.Tables()));
      reach := 0;
      for i := 0 to |rows|
        invariant reach == Reach(rows[..i])
      {
        ReachExtends(rows, i);
        if rows[i].from <= reach && rows[i].through > reach { reach := rows[i].through; }
      }
      assert rows[..|rows|] == rows;
      GreedyChainIsExact(shared.isle.Tables(), reach);
    }

    /** `completeness_from`: what it answers of any history the log records. */
    method CompletenessFrom(from: U64) returns (answer: Completeness)
      ensures answer == Retention.CompletenessFrom(shared.isle.Tables(), from)
      ensures forall hist :: Recorded(shared.isle.Tables(), hist) ==>
        Guarantees.SaysOf(World(shared.isle.Tables(), hist), from, answer)
    {
      ghost var t := shared.isle.Tables();
      var watermark := Watermark(shared.isle.Tables());
      answer := if from < watermark then Incomplete(watermark) else Complete;
      forall hist | Recorded(t, hist) ensures Guarantees.SaysOf(World(t, hist), from, answer) {
        Guarantees.VouchedExactly(World(t, hist), from);
      }
    }

    /** `apply`: counted, guarded, removed and entered in the ledger in one
        transaction, or nothing happened. */
    method Apply(plan: Plan, guard: Guard, archived: bool) returns (answer: Result<Retention.Report>)
      modifies shared.isle
      ensures Went(old(shared.isle.Tables()), shared.isle.Tables(),
                   Retention.Apply(old(shared.isle.Tables()), plan, guard, archived), answer)
    {
      var isle := shared.isle;
      if plan.Refusal().Some? { return Err(plan.Refusal().value); }
      var doomed := Doomed(isle.Tables(), plan);
      if doomed == [] { return Ok(Retention.Nothing); }
      var highest := HeadOf(doomed);
      if guard == ExportedFirst {
        var reach := ExportedThrough();
        if highest > reach { return Err(NotExported(highest, reach)); }
      }
      if guard != Force && SomeoneBehind(isle.Tables(), highest) {
        return Err(ConsumerBehind(highest));
      }
      isle.events := Spared(isle.Tables(), plan);
      isle.ledger := isle.ledger + [LedgerRow(|doomed|, highest, archived)];
      answer := Ok(Retention.Report(|doomed|, Some(highest), |set r <- doomed :: r.stream|));
    }

    /** The second half of `export_recorded`: the receipt of a page already read. */
    method WriteReceipt(from: U64, page: seq<Row>, filter: Filter) returns (answer: Result<nat>)
      modifies shared.isle
      ensures Went(old(shared.isle.Tables()), shared.isle.Tables(),
                   Retention.WriteReceipt(old(shared.isle.Tables()), from, page, filter), answer)
    {
      if from > I64_MAX { return Err(Validation); }
      var isle := shared.isle;
      isle.exports := isle.exports + [Receipt(from, Through(from, page), |page|, filter.Whole(), false)];
      answer := Ok(|isle.exports|);
    }

    /** `confirm_export`: idempotent; an id no receipt has is refused. */
    method ConfirmExport(id: nat) returns (answer: Result<()>)
      modifies shared.isle
      ensures var spec := Confirm(old(shared.isle.Tables()), id);
        if spec.Ok? then shared.isle.Tables() == spec.value && answer == Ok(())
        else shared.isle.Tables() == old(shared.isle.Tables()) && answer == Err(spec.error)
      ensures answer.Ok? ==>
        Retention.ExportedThrough(old(shared.isle.Tables())) <= Retention.ExportedThrough(shared.isle.Tables())
    {
      var isle := shared.isle;
      if !(1 <= id <= |isle.exports|) { return Err(Validation); }
      ConfirmNeverLowers(isle.Tables(), id);
      isle.exports := isle.exports[id - 1 := isle.exports[id - 1].(landed := true)];
      answer := Ok(());
    }

    /** `export`: the rows as stored, each with its position as a witness. */
    method Export(from: U64, filter: Filter, limit: nat) returns (answer: Result<seq<Exported>>)
      ensures answer == Transfer.Export(shared.isle.Tables(), from, filter, limit)
    {
      var rows := SelectStored(shared.isle.Tables(), from, filter, limit);
      if rows.Err? { return Err(rows.error); }
      var records := [];
      for i := 0 to |rows.value|
        invariant |records| == i && forall j :: 0 <= j < i ==> records[j] == Transfer.ExportedOf(rows.value[j])
      {
        records := records + [Transfer.ExportedOf(rows.value[i])];
      }
      assert records == Transfer.ExportedRows(rows.value);
      answer := Ok(records);
    }

    /** `import`: one transaction, and a report of where everything landed. */
    method Import(list: seq<Exported>) returns (answer: Result<Transfer.Report>)
      modifies shared`notify, shared.isle
      ensures Went(old(shared.isle.Tables()), shared.isle.Tables(),
                   Transfer.Import(old(shared.isle.Tables()), list), answer)
      ensures shared.notify == if answer.Ok? then Heard(old(shared.notify), answer.value) else old(shared.notify)
    {
      if list == [] { return Ok(Transfer.Nothing); }
      ghost var t := shared.isle.Tables();
      OneCallIs(t, ImportCall(list, false));
      var committed := WithTransaction(shared, [ImportCall(list, false)]);
      if committed.Err? { return Err(committed.error); }
      Transfer.ImportedPositions(t, list);
      var out := committed.value;
      HighestOfRun(out, t.issued);
      var reproduced := LandedWhereTheyWere(out, list);
      answer := Ok(Transfer.Report(|out|, Some(out[0].position), Some(out[|out| - 1].position), reproduced));
    }
  }

  /** A record with no witness cannot be said to have landed back on it. */
  method LandedWhereTheyWere(out: seq<Committed>, list: seq<Exported>) returns (reproduced: bool)
    requires |out| == |list|
    ensures reproduced <==> Transfer.Landed(out, list)
  {
    reproduced := true;
    for i := 0 to |list|
      invariant reproduced <==> forall j :: 0 <= j < i ==> list[j].position == Some(out[j].position)
    {
      reproduced := reproduced && list[i].position == Some(out[i].position);
    }
  }

  /** A closure of one call that returns its error. */
  lemma OneCallIs(t: Tables, call: Call)
    requires !call.swallows
    ensures Transaction(t, [call])
      == match CallIn(t, call).1
         case Ok(out) => Ok((CallIn(t, call).0, out))
         case Err(error) => Err(error)
  {
    assert RunCalls(t, [call], 0) == (t, Ok([]));
    assert RunCalls(t, [call], 1) == CallAnother((t, Ok([])), call);
    if CallIn(t, call).1.Ok? { assert [] + CallIn(t, call).1.value == CallIn(t, call).1.value; }
  }

  /** A `LogSink`: each page that is not empty is imported into another log, and the
      reports are kept. */
  class LogSink {
    const target: SqliteEventLog
    var reports: seq<Transfer.Report>

    constructor (target: SqliteEventLog)
      ensures this.target == target && reports == []
    {
      this.target := target;
      reports := [];
    }

    method Write(page: seq<Row>) returns (answer: Result<()>)
      modifies this, target.shared`notify, target.shared.isle
      ensures var spec := Transfer.SunkNext(Ok((old(target.shared.isle.Tables()), old(reports))), page);
        if spec.Ok? then answer.Ok? && (target.shared.isle.Tables(), reports) == spec.value
        else answer == Err(spec.error) && reports == old(reports)
             && target.shared.isle.Tables() == old(target.shared.isle.Tables())
      ensures target.shared.notify
        == if answer.Ok? && page != [] then Heard(old(target.shared.notify), reports[|reports| - 1])
           else old(target.shared.notify)
    {
      if page == [] { return Ok(()); }
      var report := target.Import(Transfer.ExportedRows(page));
      if report.Err? { return Err(report.error); }
      reports := reports + [report.value];
      answer := Ok(());
    }

    /** Where the sink stands after `k` pages it took. */
    ghost predicate At(began: Tables, watch: Watch, pages: seq<seq<Row>>, k: nat)
      reads this, target.shared, target.shared.isle
    {
      && k <= |pages|
      && SunkAt(began, pages, k, Ok((target.shared.isle.Tables(), reports)))
      && target.shared.notify == HeardAll(watch, reports)
    }

    method WriteNext(pages: seq<seq<Row>>, k: nat, next: nat, ghost began: Tables, ghost watch: Watch)
      returns (answer: Result<()>)
      requires next == k + 1 <= |pages| && At(began, watch, pages, k)
      modifies this, target.shared`notify, target.shared.isle
      ensures answer.Ok? ==> At(began, watch, pages, next)
      ensures answer.Err? ==> At(began, watch, pages, k) && Transfer.Sunk(began, pages, next) == Err(answer.error)
    {
      ghost var sofar := reports;
      SunkGoesOn(began, pages, k, Ok((target.shared.isle.Tables(), reports)));
      answer := Write(pages[k]);
      if answer.Ok? && pages[k] != [] { assert reports[..|reports| - 1] == sofar; }
    }

    /** Pages shown in order until one is refused: what the target holds, what the
        reports say and what was published are those of the pages that went in. */
    method WriteAll(pages: seq<seq<Row>>) returns (answer: Result<()>, written: nat)
      requires reports == []
      modifies this, target.shared`notify, target.shared.isle
      ensures written <= |pages| && (answer.Ok? <==> written == |pages|)
      ensures Transfer.Sunk(old(target.shared.isle.Tables()), pages, written) == Ok((target.shared.isle.Tables(), reports))
      ensures answer.Err? ==> Transfer.Sunk(old(target.shared.isle.Tables()), pages, written + 1) == Err(answer.error)
      ensures target.shared.notify == HeardAll(old(target.shared.notify), reports)
    {
      ghost var began, watch := target.shared.isle.Tables(), target.shared.notify;
      written := 0;
      while written < |pages|
        invariant At(began, watch, pages, written)
      {
        answer := WriteNext(pages, written, written + 1, began, watch);
        if answer.Err? { return; }
        written := written + 1;
      }
      answer := Ok(());
    }

    /** The conjunction over the pages; true before the first. */
    method ReproducedCoordinates() returns (all: bool)
      ensures all <==> Transfer.Reproduced(reports)
    {
      all := true;
      for i := 0 to |reports|
        invariant all <==> forall j :: 0 <= j < i ==> reports[j].reproduced
      {
        all := all && reports[i].reproduced;
      }
    }
  }

  ghost predicate SunkAt(t: Tables, pages: seq<seq<Row>>, k: nat, sofar: Result<(Tables, seq<Transfer.Report>)>)
    requires k <= |pages|
  {
    sofar == Transfer.Sunk(t, pages, k)
  }

  lemma SunkGoesOn(t: Tables, pages: seq<seq<Row>>, k: nat, sofar: Result<(Tables, seq<Transfer.Report>)>)
    requires k < |pages| && SunkAt(t, pages, k, sofar)
    ensures SunkAt(t, pages, k + 1, Transfer.SunkNext(sofar, pages[k]))
  {}
}
