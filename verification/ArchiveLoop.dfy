/** `archive_then_retain`: the loop that exports what a plan would remove, page by
    page, and then applies the plan, while other handles go on writing. */
module ArchiveLoop {
  import opened Wrappers
  import opened Event
  import opened Rows
  import opened Filters
  import opened Database
  import opened Retention
  import opened Growth
  import opened Sqlite
  import opened EventLog
  import Transfer

  /** Where the pages go: it may refuse any write. `shown` and `taken` are history:
      every row it was handed, and the pages it answered `Ok` for. */
  class Sink {
    var shown: seq<Row>
    var taken: seq<seq<Row>>
    var writes: nat
    const fails: nat -> bool

    constructor (fails: nat -> bool)
      ensures shown == [] && taken == [] && writes == 0 && this.fails == fails
    {
      shown, taken, writes, this.fails := [], [], 0, fails;
    }

    method Write(page: seq<Row>) returns (answer: Result<()>)
      modifies this
      ensures shown == old(shown) + page && writes == old(writes) + 1
      ensures answer == if fails(old(writes)) then Err(Error.Sink) else Ok(())
      ensures taken == old(taken) + if answer.Ok? then [page] else []
    {
      answer := if fails(writes) then Err(Error.Sink) else Ok(());
      if answer.Ok? { taken := taken + [page]; }
      shown, writes := shown + page, writes + 1;
    }
  }

  /** One of the writes from `lo` up to `hi` is refused. */
  ghost predicate Refused(fails: nat -> bool, lo: nat, hi: nat) {
    exists n :: lo <= n < hi && fails(n)
  }

  function Flat(pages: seq<seq<Row>>): seq<Row> {
    if pages == [] then [] else Flat(pages[..|pages| - 1]) + pages[|pages| - 1]
  }

  lemma FlatOn(pages: seq<seq<Row>>, page: seq<Row>)
    ensures Flat(pages + [page]) == Flat(pages) + page
  {
    assert (pages + [page])[..|pages|] == pages;
  }

  // ---- other handles -------------------------------------------------------

  /** No receipt is lost or altered, and none is taken back once landed. */
  ghost predicate ReceiptsKept(t: Tables, u: Tables) {
    |t.exports| <= |u.exports|
    && forall k :: 0 <= k < |t.exports| ==>
         u.exports[k].(landed := true) == t.exports[k].(landed := true) && (t.exports[k].landed ==> u.exports[k].landed)
  }

  /** What other handles may have made of the log by the next look: anything their
      transactions do, other archives included. */
  ghost predicate Follows(t: Tables, u: Tables) {
    Ordinary(u) && ExportedThrough(t) <= ExportedThrough(u) && ReceiptsKept(t, u)
  }

  type Env = (nat, Tables) -> Tables

  ghost predicate Allowed(env: Env) {
    forall g, t :: Ordinary(t) ==> Follows(t, env(g, t))
  }

  ghost predicate Quiet(env: Env) {
    forall g, t :: env(g, t) == t
  }

  /** The other handles. They are let in between any two steps of the archive;
      `gaps` is history: what they found each time, and what they left. */
  class Others {
    const env: Env
    var turns: nat
    ghost var gaps: seq<(Tables, Tables)>

    constructor (env: Env)
      ensures this.env == env && turns == 0 && gaps == []
    {
      this.env, turns, gaps := env, 0, [];
    }

    ghost predicate Valid()
      reads this
    {
      Allowed(env) && turns == |gaps|
    }

    /** Time passes, and others write. */
    method LetIn(isle: Connection)
      requires Valid() && Ordinary(isle.Tables())
      modifies this, isle
      ensures Valid() && Follows(old(isle.Tables()), isle.Tables())
      ensures isle.Tables() == env(|old(gaps)|, old(isle.Tables()))
      ensures gaps == old(gaps) + [(old(isle.Tables()), isle.Tables())]
    {
      ghost var found := isle.Tables();
      isle.Restore(env(turns, isle.Tables()));
      turns, gaps := turns + 1, gaps + [(found, isle.Tables())];
    }
  }

  // ---- what the loop keeps -------------------------------------------------

  /** The receipt's range ends with the page, starts below it and counts it. */
  predicate IsOf(r: Receipt, page: seq<Row>) {
    page != [] && r.through == page[|page| - 1].position && r.count == |page| && forall row <- page :: r.from < row.position
  }

  ghost predicate Took(pages: seq<seq<Row>>, r: Receipt) {
    exists page <- pages :: IsOf(r, page)
  }

  predicate NewlyLanded(t: Tables, u: Tables, k: nat)
    requires k < |u.exports|
  {
    u.exports[k].landed && !(k < |t.exports| && t.exports[k].landed)
  }

  /** What the archive itself may write: receipts, and it lands none but of a page
      the sink took. */
  ghost predicate Own(t: Tables, u: Tables, took: seq<seq<Row>>) {
    && u == t.(exports := u.exports)
    && ReceiptsKept(t, u)
    && forall k :: 0 <= k < |u.exports| && NewlyLanded(t, u, k) ==> Took(took, u.exports[k])
  }

  lemma TookOn(took: seq<seq<Row>>, page: seq<Row>, r: Receipt)
    requires Took(took, r)
    ensures Took(took + [page], r)
  {
    var p :| p in took && IsOf(r, p);
    assert p in took + [page];
  }

  lemma OwnTook(t: Tables, u: Tables, took: seq<seq<Row>>, page: seq<Row>)
    requires Own(t, u, took)
    ensures Own(t, u, took + [page])
  {
    forall k | 0 <= k < |u.exports| && NewlyLanded(t, u, k) ensures Took(took + [page], u.exports[k]) {
      TookOn(took, page, u.exports[k]);
    }
  }

  lemma OwnOn(t: Tables, u: Tables, v: Tables, took: seq<seq<Row>>)
    requires Own(t, u, took) && Own(u, v, took)
    ensures Own(t, v, took)
  {
    forall k | 0 <= k < |v.exports| && NewlyLanded(t, v, k) ensures Took(took, v.exports[k]) {
      if !NewlyLanded(u, v, k) { assert NewlyLanded(t, u, k); }
    }
  }

  /** The tables the others last left, before the `i`-th time they were let in. */
  ghost function Since(start: Tables, gaps: seq<(Tables, Tables)>, i: nat): Tables
    requires i <= |gaps|
  {
    if i == 0 then start else gaps[i - 1].1
  }

  ghost predicate WovenAt(env: Env, start: Tables, gaps: seq<(Tables, Tables)>, took: seq<seq<Row>>, i: nat)
    requires i < |gaps|
  {
    && Own(Since(start, gaps, i), gaps[i].0, took)
    && gaps[i].1 == env(i, gaps[i].0) && Follows(gaps[i].0, gaps[i].1)
  }

  /** From `start` to `t` everything was written by the others, but for receipts; and
      of these the archive landed none but of pages the sink took. */
  ghost predicate Woven(env: Env, start: Tables, gaps: seq<(Tables, Tables)>, took: seq<seq<Row>>, t: Tables) {
    && (forall i :: 0 <= i < |gaps| ==> WovenAt(env, start, gaps, took, i))
    && Own(Since(start, gaps, |gaps|), t, took)
  }

  lemma WovenOn(env: Env, start: Tables, gaps: seq<(Tables, Tables)>, took: seq<seq<Row>>, t: Tables,
                more: seq<(Tables, Tables)>, u: Tables)
    requires Woven(env, start, gaps, took, t) && u == env(|gaps|, t) && Follows(t, u) && more == gaps + [(t, u)]
    ensures Woven(env, start, more, took, u)
  {
    forall i | 0 <= i < |more| ensures WovenAt(env, start, more, took, i) {
      if i < |gaps| {
        assert WovenAt(env, start, gaps, took, i);
        assert Since(start, more, i) == Since(start, gaps, i);
      }
    }
  }

  lemma WovenTook(env: Env, start: Tables, gaps: seq<(Tables, Tables)>, took: seq<seq<Row>>, t: Tables, page: seq<Row>)
    requires Woven(env, start, gaps, took, t)
    ensures Woven(env, start, gaps, took + [page], t)
  {
    forall i | 0 <= i < |gaps| ensures WovenAt(env, start, gaps, took + [page], i) {
      assert WovenAt(env, start, gaps, took, i);
      OwnTook(Since(start, gaps, i), gaps[i].0, took, page);
    }
    OwnTook(Since(start, gaps, |gaps|), t, took, page);
  }

  /** Another handle landed the receipt, the `i`-th time others were let in. */
  predicate LandedInGap(gaps: seq<(Tables, Tables)>, i: nat, k: nat)
    requires i < |gaps|
  {
    k < |gaps[i].1.exports| && NewlyLanded(gaps[i].0, gaps[i].1, k)
  }

  /** Who landed a receipt. */
  ghost predicate Accounted(start: Tables, gaps: seq<(Tables, Tables)>, took: seq<seq<Row>>, t: Tables, k: nat)
    requires k < |t.exports|
  {
    || (k < |start.exports| && start.exports[k].landed)
    || (exists i :: 0 <= i < |gaps| && LandedInGap(gaps, i, k))
    || Took(took, t.exports[k])
  }

  lemma AccountedOn(start: Tables, gaps: seq<(Tables, Tables)>, took: seq<seq<Row>>, t: Tables, u: Tables, k: nat,
                    front: seq<(Tables, Tables)>)
    requires front <= gaps && k < |t.exports| && k < |u.exports| && Accounted(start, front, took, t, k)
    requires u.exports[k].(landed := true) == t.exports[k].(landed := true)
    ensures Accounted(start, gaps, took, u, k)
  {
    if i :| 0 <= i < |front| && LandedInGap(front, i, k) {
      assert LandedInGap(gaps, i, k);
    } else if Took(took, t.exports[k]) {
      var page :| page in took && IsOf(t.exports[k], page);
      assert IsOf(u.exports[k], page);
    }
  }

  /** Every receipt that stands landed was landed before the archive began, or by
      another handle while it ran, or is of a page the sink took. */
  lemma {:induction false} LandedIsAccounted(env: Env, start: Tables, gaps: seq<(Tables, Tables)>, took: seq<seq<Row>>,
                                             t: Tables, k: nat)
    requires Woven(env, start, gaps, took, t) && k < |t.exports| && t.exports[k].landed
    ensures Accounted(start, gaps, took, t, k)
    decreases |gaps|
  {
    var since := Since(start, gaps, |gaps|);
    if !NewlyLanded(since, t, k) && gaps != [] {
      var front, last := gaps[..|gaps| - 1], gaps[|gaps| - 1];
      if NewlyLanded(last.0, last.1, k) {
        assert LandedInGap(gaps, |gaps| - 1, k);
      } else {
        WovenFront(env, start, gaps, took);
        LandedIsAccounted(env, start, front, took, last.0, k);
        AccountedOn(start, gaps, took, last.0, t, k, front);
      }
    }
  }

  lemma WovenFront(env: Env, start: Tables, gaps: seq<(Tables, Tables)>, took: seq<seq<Row>>)
    requires gaps != [] && forall i :: 0 <= i < |gaps| ==> WovenAt(env, start, gaps, took, i)
    ensures Woven(env, start, gaps[..|gaps| - 1], took, gaps[|gaps| - 1].0)
    ensures Follows(gaps[|gaps| - 1].0, gaps[|gaps| - 1].1)
  {
    var front := gaps[..|gaps| - 1];
    forall i | 0 <= i < |front| ensures WovenAt(env, start, front, took, i) {
      assert WovenAt(env, start, gaps, took, i) && Since(start, front, i) == Since(start, gaps, i);
    }
    assert WovenAt(env, start, gaps, took, |gaps| - 1);
    assert Since(start, front, |front|) == Since(start, gaps, |front|);
  }

  /** What the sink has been shown of this archive. */
  ghost predicate Shown(from: nat, cursor: nat, rows: seq<Row>) {
    from <= cursor && Sorted(rows) && forall r <- rows :: from < r.position <= cursor
  }

  /** What is also true while nobody else writes: only receipts have changed, the
      chain has reached the cursor, and the sink took all there was on the way. */
  ghost predicate Alone(start: Tables, t: Tables, from: nat, cursor: nat, took: seq<seq<Row>>) {
    && Own(start, t, took)
    && cursor <= ExportedThrough(t)
    && forall r <- start.events :: from < r.position <= cursor ==> r in Flat(took)
  }

  ghost predicate Going(start: Tables, t: Tables, others: Others, from: nat, cursor: nat, took: seq<seq<Row>>)
    reads others
  {
    && others.Valid()
    && Ordinary(t)
    && Woven(others.env, start, others.gaps, took, t)
    && Shown(from, cursor, Flat(took))
    && (Quiet(others.env) ==> Alone(start, t, from, cursor, took))
  }

  /** The archive waits while others are let in. */
  method Pause(isle: Connection, others: Others,
               ghost start: Tables, ghost from: nat, ghost cursor: nat, ghost took: seq<seq<Row>>)
    requires Going(start, isle.Tables(), others, from, cursor, took)
    modifies isle, others
    ensures Going(start, isle.Tables(), others, from, cursor, took)
    ensures Follows(old(isle.Tables()), isle.Tables())
    ensures Quiet(others.env) ==> isle.Tables() == old(isle.Tables())
  {
    ghost var found, gaps := isle.Tables(), others.gaps;
    others.LetIn(isle);
    WovenOn(others.env, start, gaps, took, found, others.gaps, isle.Tables());
  }

  /** What the archive itself writes goes on from there. */
  lemma OwnStep(start: Tables, t: Tables, u: Tables, others: Others, from: nat, cursor: nat, took: seq<seq<Row>>)
    requires Going(start, t, others, from, cursor, took) && Own(t, u, took) && ExportedThrough(t) <= ExportedThrough(u)
    ensures Going(start, u, others, from, cursor, took)
  {
    OwnOn(Since(start, others.gaps, |others.gaps|), t, u, took);
    if Quiet(others.env) { OwnOn(start, t, u, took); }
  }

  /** A page is what comes next, and it is empty only when nothing does. */
  ghost predicate NextPage(t: Tables, cursor: nat, page: seq<Row>) {
    && Sorted(page)
    && (page != [] ==> cursor < Through(cursor, page))
    && (forall r <- page :: cursor < r.position <= Through(cursor, page))
    && (forall r <- t.events :: cursor < r.position <= Through(cursor, page) ==> r in page)
    && (page == [] ==> forall r <- t.events :: r.position <= cursor)
  }

  /** The front of everything past a cursor. */
  lemma FrontIsNext(cursor: Stored, all: seq<Row>, page: seq<Row>)
    requires Sorted(all) && page <= all && page != []
    requires forall r <- all :: r.position > cursor
    ensures Sorted(page) && cursor < Through(cursor, page)
    ensures forall r <- page :: cursor < r.position <= Through(cursor, page)
    ensures forall r <- all :: r.position <= Through(cursor, page) ==> r in page
  {
    assert all[|page| - 1] == page[|page| - 1] && all[|page| - 1] in all;
    forall r | r in all && r.position <= Through(cursor, page) ensures r in page { Transfer.InFront(all, page, r); }
  }

  lemma PageIsNext(t: Tables, cursor: Stored, limit: nat, page: seq<Row>)
    requires Ordinary(t) && limit > 0 && SelectStored(t, cursor, All, limit) == Ok(page)
    ensures NextPage(t, cursor, page)
  {
    var all := Database.After(t.events, cursor, All);
    AfterSorted(t.events, cursor, All);
    assert page <= all && (page == [] ==> all == []);
    forall r | r in t.events ensures r in all <==> r.position > cursor {}
    if page != [] { FrontIsNext(cursor, all, page); }
  }

  lemma ShownOn(from: nat, cursor: nat, rows: seq<Row>, page: seq<Row>)
    requires Shown(from, cursor, rows) && Sorted(page) && page != [] && cursor < Through(cursor, page)
    requires forall r <- page :: cursor < r.position <= Through(cursor, page)
    ensures Shown(from, Through(cursor, page), rows + page)
  {
    SortedConcat(rows, page);
  }

  lemma ReceiptKeepsChain(t: Tables, from: U64, page: seq<Row>, f: Filter)
    requires WriteReceipt(t, from, page, f).Ok?
    ensures ExportedThrough(WriteReceipt(t, from, page, f).value.0) == ExportedThrough(t)
  {
    PickAppend(t.exports, Receipt(from, Through(from, page), |page|, f.Whole(), false), (r: Receipt) => Vouches(r));
  }

  // ---- the loop ------------------------------------------------------------

  datatype Outcome = Dry | Failed | Landed(through: Stored)

  /** Whether the receipt with this id is the one for a page. */
  ghost predicate ReceiptIs(t: Tables, id: nat, cursor: nat, page: seq<Row>) {
    1 <= id <= |t.exports| && t.exports[id - 1].from == cursor && t.exports[id - 1].through == Through(cursor, page)
    && t.exports[id - 1].whole && t.exports[id - 1].count == |page|
  }

  lemma WrittenIsOwn(t: Tables, from: U64, page: seq<Row>, f: Filter, took: seq<seq<Row>>)
    requires WriteReceipt(t, from, page, f).Ok?
    ensures Own(t, WriteReceipt(t, from, page, f).value.0, took)
  {}

  /** `export_recorded`: the page off a reader, then its receipt. Others are let in
      before either. */
  method ExportRecorded(log: SqliteEventLog, others: Others, cursor: Stored, limit: nat,
                        ghost start: Tables, ghost from: nat, ghost took: seq<seq<Row>>)
    returns (page: seq<Row>, id: nat, ghost read: Tables)
    requires limit > 0 && Going(start, log.shared.isle.Tables(), others, from, cursor, took)
    modifies log.shared.isle, others
    ensures Going(start, log.shared.isle.Tables(), others, from, cursor, took)
    ensures SelectStored(read, cursor, All, limit) == Ok(page) && NextPage(read, cursor, page)
    ensures Quiet(others.env) ==> read.events == start.events
    ensures ReceiptIs(log.shared.isle.Tables(), id, cursor, page)
  {
    var isle := log.shared.isle;
    Pause(isle, others, start, from, cursor, took);
    read := isle.Tables();
    page := SelectStored(isle.Tables(), cursor, All, limit).value;
    PageIsNext(read, cursor, limit, page);
    Pause(isle, others, start, from, cursor, took);
    ghost var t := isle.Tables();
    ReceiptKeepsChain(t, cursor, page, All);
    WrittenIsOwn(t, cursor, page, All, took);
    var receipt := log.WriteReceipt(cursor, page, All);
    id := receipt.value;
    OwnStep(start, t, isle.Tables(), others, from, cursor, took);
  }

  /** A page that was read past a cursor. */
  ghost predicate PageFrom(page: seq<Row>, cursor: nat) {
    && page != [] && Sorted(page) && cursor < Through(cursor, page)
    && forall r <- page :: cursor < r.position <= Through(cursor, page)
  }

  /** The sink took one more page. */
  lemma GoingTook(start: Tables, t: Tables, others: Others, from: nat, cursor: nat, took: seq<seq<Row>>, page: seq<Row>)
    requires Going(start, t, others, from, cursor, took) && PageFrom(page, cursor)
    ensures Woven(others.env, start, others.gaps, took + [page], t)
    ensures Shown(from, Through(cursor, page), Flat(took + [page]))
    ensures Quiet(others.env) ==> Own(start, t, took + [page])
  {
    WovenTook(others.env, start, others.gaps, took, t, page);
    ShownOn(from, cursor, Flat(took), page);
    FlatOn(took, page);
    if Quiet(others.env) { OwnTook(start, t, took, page); }
  }

  lemma ConfirmIsOwn(t: Tables, id: nat, cursor: nat, page: seq<Row>, took: seq<seq<Row>>)
    requires ReceiptIs(t, id, cursor, page) && PageFrom(page, cursor) && page in took
    ensures Confirm(t, id).Ok? && Own(t, Confirm(t, id).value, took)
  {
    var u := Confirm(t, id).value;
    assert Took(took, u.exports[id - 1]);
    forall k | 0 <= k < |u.exports| && NewlyLanded(t, u, k) ensures Took(took, u.exports[k]) {
      assert k == id - 1;
    }
  }

  /** A page that was taken and then confirmed: the loop goes on past it. */
  lemma ConfirmGoesOn(start: Tables, t: Tables, others: Others, from: nat, cursor: nat, took: seq<seq<Row>>,
                      page: seq<Row>, id: nat)
    requires Going(start, t, others, from, cursor, took) && PageFrom(page, cursor) && ReceiptIs(t, id, cursor, page)
    requires Quiet(others.env) ==> forall r <- start.events :: cursor < r.position <= Through(cursor, page) ==> r in page
    ensures Confirm(t, id).Ok?
    ensures Going(start, Confirm(t, id).value, others, from, Through(cursor, page), took + [page])
  {
    var more := took + [page];
    GoingTook(start, t, others, from, cursor, took, page);
    ConfirmIsOwn(t, id, cursor, page, more);
    var u := Confirm(t, id).value;
    OwnOn(Since(start, others.gaps, |others.gaps|), t, u, more);
    if Quiet(others.env) {
      OwnOn(start, t, u, more);
      ConfirmExtends(t, id);
      FlatOn(took, page);
    }
  }

  /** Hand the page over, and confirm its receipt only once the sink has taken it. A
      refusal is the sink's own answer, and leaves the tables alone. */
  method HandOver(log: SqliteEventLog, sink: Sink, others: Others, cursor: Stored, page: seq<Row>, id: nat,
                  ghost start: Tables, ghost from: nat, ghost took: seq<seq<Row>>)
    returns (answer: Result<()>)
    requires Going(start, log.shared.isle.Tables(), others, from, cursor, took)
    requires ReceiptIs(log.shared.isle.Tables(), id, cursor, page) && PageFrom(page, cursor)
    requires Quiet(others.env) ==> forall r <- start.events :: cursor < r.position <= Through(cursor, page) ==> r in page
    modifies log.shared.isle, sink, others
    ensures sink.shown == old(sink.shown) + page && sink.writes == old(sink.writes) + 1
    ensures answer == if sink.fails(old(sink.writes)) then Err(Error.Sink) else Ok(())
    ensures sink.taken == old(sink.taken) + if answer.Ok? then [page] else []
    ensures answer.Ok? ==> Going(start, log.shared.isle.Tables(), others, from, Through(cursor, page), took + [page])
    ensures answer.Err? ==> Going(start, log.shared.isle.Tables(), others, from, cursor, took)
                            && log.shared.isle.Tables() == old(log.shared.isle.Tables())
  {
    var isle := log.shared.isle;
    answer := sink.Write(page);
    if answer.Err? { return; }
    Pause(isle, others, start, from, cursor, took);
    ConfirmGoesOn(start, isle.Tables(), others, from, cursor, took, page, id);
    answer := log.ConfirmExport(id);
  }

  /** One turn of the loop: it fails exactly when the sink refuses the page. */
  method ExportPage(log: SqliteEventLog, sink: Sink, others: Others, at: Stored, limit: nat,
                    ghost start: Tables, ghost from: nat, ghost took: seq<seq<Row>>)
    returns (outcome: Outcome, ghost page: seq<Row>)
    requires limit > 0 && Going(start, log.shared.isle.Tables(), others, from, at, took)
    modifies log.shared.isle, sink, others
    ensures sink.shown == old(sink.shown) + page
    ensures sink.taken == old(sink.taken) + if outcome.Landed? then [page] else []
    ensures outcome.Dry? ==> page == [] && sink.writes == old(sink.writes)
    ensures !outcome.Dry? ==> page != [] && sink.writes == old(sink.writes) + 1
    ensures !outcome.Dry? ==> (outcome.Failed? <==> sink.fails(old(sink.writes)))
    ensures !outcome.Dry? ==> Shown(from, Through(at, page), Flat(took) + page)
    ensures outcome.Landed? ==> outcome.through > at
    ensures outcome.Landed? ==> Going(start, log.shared.isle.Tables(), others, from, outcome.through, took + [page])
    ensures !outcome.Landed? ==> Going(start, log.shared.isle.Tables(), others, from, at, took)
    ensures outcome.Dry? && Quiet(others.env) ==> forall r <- start.events :: r.position <= at
  {
    var records, id, read := ExportRecorded(log, others, at, limit, start, from, took);
    page := records;
    if records == [] { return Dry, page; }
    ShownOn(from, at, Flat(took), page);
    var handed := HandOver(log, sink, others, at, records, id, start, from, took);
    outcome := if handed.Ok? then Landed(Through(at, records)) else Failed;
  }

  /** What a run of turns leaves shown: the pages taken, and after them the one that
      was refused, if one was. */
  ghost predicate Handed(begun: nat, was: seq<Row>, now: seq<Row>, more: seq<Row>, took: seq<seq<Row>>, failed: bool) {
    && now == was + more && Shown(begun, I64_MAX, more)
    && Flat(took) <= more && (failed <==> |Flat(took)| < |more|)
  }

  lemma HandedOn(begun: nat, was: seq<Row>, took: seq<seq<Row>>, page: seq<Row>, now: seq<Row>, through: Stored)
    requires now == was + Flat(took) + page && page != [] && Shown(begun, through, Flat(took) + page)
    ensures Handed(begun, was, now, Flat(took) + page, took, true)
    ensures Handed(begun, was, now, Flat(took + [page]), took + [page], false)
  {
    assert was + Flat(took) + page == was + (Flat(took) + page);
    FlatOn(took, page);
  }

  /** What the sink's own history says of a run of turns. */
  ghost predicate Writes(sink: Sink, taken: seq<seq<Row>>, writes: nat, took: seq<seq<Row>>, failed: bool)
    reads sink
  {
    && sink.taken == taken + took && writes <= sink.writes
    && (failed <==> Refused(sink.fails, writes, sink.writes))
  }

  lemma RefusedOn(fails: nat -> bool, lo: nat, n: nat, hi: nat)
    requires lo <= n && hi == n + 1 && !Refused(fails, lo, n)
    ensures Refused(fails, lo, hi) <==> fails(n)
  {}

  /** The loop: until the target is reached, the log runs dry, or the sink refuses a
      page. */
  method ExportAll(log: SqliteEventLog, sink: Sink, others: Others, limit: nat, begun: Stored, target: nat, ghost start: Tables)
    returns (failed: bool, ghost at: Stored, ghost took: seq<seq<Row>>, ghost more: seq<Row>)
    requires limit > 0 && Going(start, log.shared.isle.Tables(), others, begun, begun, [])
    requires Quiet(others.env) ==> exists r <- start.events :: r.position == target
    modifies log.shared.isle, sink, others
    ensures Going(start, log.shared.isle.Tables(), others, begun, at, took)
    ensures Handed(begun, old(sink.shown), sink.shown, more, took, failed)
    ensures Writes(sink, old(sink.taken), old(sink.writes), took, failed)
    ensures !failed ==> Quiet(others.env) ==> at >= target
  {
    var cursor := begun;
    failed, at, took, more := false, begun, [], [];
    ghost var taken, writes := sink.taken, sink.writes;
    while cursor < target
      invariant at == cursor && !failed && Going(start, log.shared.isle.Tables(), others, begun, cursor, took)
      invariant Handed(begun, old(sink.shown), sink.shown, more, took, false) && more == Flat(took)
      invariant Writes(sink, taken, writes, took, false)
      decreases target - cursor
    {
      ghost var n := sink.writes;
      var outcome, page := ExportPage(log, sink, others, cursor, limit, start, begun, took);
      if outcome.Dry? { break; }
      RefusedOn(sink.fails, writes, n, sink.writes);
      HandedOn(begun, old(sink.shown), took, page, sink.shown, Through(cursor, page));
      if outcome.Failed? {
        failed, more := true, Flat(took) + page;
        break;
      }
      took := took + [page];
      more := Flat(took);
      cursor := outcome.through;
      at := cursor;
    }
  }

  /** What an archive that nobody disturbed may end as. Whatever it ended as, every
      receipt it landed is of a page the sink took and every page taken counts for
      the next call; and what it removed past the chain it found is in such a page. */
  ghost predicate AloneEnds(start: Tables, t: Tables, plan: Plan, answer: Result<Retention.Report>, took: seq<seq<Row>>) {
    && Own(start, start.(exports := t.exports), took)
    && (forall r <- Flat(took) :: r.position <= ExportedThrough(t))
    && match HighestMatching(start, plan)
       case Err(error) => t == start && answer == Err(error)
       case Ok(None) => t == start && answer == Ok(Retention.Nothing) && took == []
       case Ok(Some(highest)) =>
         if answer == Err(Error.Sink) then t == start.(exports := t.exports)
         else
           && ExportedThrough(t) >= highest
           && (forall r <- start.events :: ExportedThrough(start) < r.position <= highest ==> r in Flat(took))
           && if SomeoneBehind(start, highest) then
                answer == Err(ConsumerBehind(highest)) && t == start.(exports := t.exports)
              else
                var doomed := Doomed(start, plan);
                && answer == Ok(Retention.Report(|doomed|, Some(highest), |set r <- doomed :: r.stream|))
                && t == start.(events := Spared(start, plan), exports := t.exports,
                               ledger := start.ledger + [LedgerRow(|doomed|, highest, true)])
  }

  lemma HandedFrom(from: nat, begun: nat, was: seq<Row>, now: seq<Row>, more: seq<Row>, took: seq<seq<Row>>, failed: bool)
    requires Handed(begun, was, now, more, took, failed) && from <= begun
    ensures Handed(from, was, now, more, took, failed)
  {}

  /** The plan applied by an archive that was alone and reached its target. */
  lemma AloneApplies(start: Tables, t: Tables, plan: Plan, highest: nat, begun: nat, at: nat, took: seq<seq<Row>>)
    requires HighestMatching(start, plan) == Ok(Some(highest)) && begun == ExportedThrough(start)
    requires Alone(start, t, begun, at, took) && Shown(begun, at, Flat(took)) && at >= highest
    ensures var applied := Retention.Apply(t, plan, ExportedFirst, true);
      if applied.Ok? then AloneEnds(start, applied.value.0, plan, Ok(applied.value.1), took)
      else AloneEnds(start, t, plan, Err(applied.error), took)
  {
    assert Doomed(t, plan) == Doomed(start, plan) && Spared(t, plan) == Spared(start, plan);
    assert SomeoneBehind(t, highest) == SomeoneBehind(start, highest);
  }

  lemma BeginsGoing(start: Tables, others: Others)
    requires others.Valid() && others.gaps == [] && Ordinary(start)
    ensures Going(start, start, others, 0, 0, [])
  {}

  /** The chain's end is where the loop begins. */
  lemma BeginsAt(start: Tables, t: Tables, others: Others, begun: nat)
    requires Going(start, t, others, 0, 0, []) && begun == ExportedThrough(t)
    ensures Going(start, t, others, begun, begun, [])
  {}

  lemma TargetIsThere(start: Tables, plan: Plan, highest: nat)
    requires HighestMatching(start, plan) == Ok(Some(highest))
    ensures exists r <- start.events :: r.position == highest
  {
    assert Doomed(start, plan)[0] in Doomed(start, plan);
    var r :| r in Doomed(start, plan) && (r.position == highest || highest == 0);
  }

  /** The plan, applied under the guard that cannot be lowered. */
  method ApplyPlan(log: SqliteEventLog, plan: Plan, others: Others, ghost start: Tables, ghost highest: nat,
                   ghost begun: nat, ghost at: nat, ghost took: seq<seq<Row>>)
    returns (answer: Result<Retention.Report>, ghost last: Tables)
    requires Going(start, log.shared.isle.Tables(), others, begun, at, took)
    requires HighestMatching(start, plan) == Ok(Some(highest))
    requires Quiet(others.env) ==> at >= highest && begun == ExportedThrough(start)
    modifies log.shared.isle, others
    ensures Woven(others.env, start, others.gaps, took, last)
    ensures Went(last, log.shared.isle.Tables(), Retention.Apply(last, plan, ExportedFirst, true), answer)
    ensures Quiet(others.env) ==> AloneEnds(start, log.shared.isle.Tables(), plan, answer, took)
  {
    Pause(log.shared.isle, others, start, begun, at, took);
    last := log.shared.isle.Tables();
    if Quiet(others.env) { AloneApplies(start, last, plan, highest, begun, at, took); }
    answer := log.Apply(plan, ExportedFirst, true);
  }

  /** How an archive ends, from the tables it last found: refused before it began, a
      write of the sink failed and nothing is removed, or its plan was answered
      there under the exported guard. */
  ghost predicate Ends(last: Tables, t: Tables, plan: Plan, limit: nat, answer: Result<Retention.Report>) {
    if limit == 0 then t == last && answer == Err(Validation)
    else if answer == Err(Error.Sink) then t == last
    else Went(last, t, Retention.Apply(last, plan, ExportedFirst, true), answer)
  }

  lemma NoReach(t: Tables, plan: Plan)
    ensures match HighestMatching(t, plan)
            case Err(error) => Retention.Apply(t, plan, ExportedFirst, true) == Err(error) && error != Error.Sink
            case Ok(None) => Retention.Apply(t, plan, ExportedFirst, true) == Ok((t, Retention.Nothing))
            case Ok(_) => true
  {}

  lemma PlanIsNoSink(t: Tables, plan: Plan, guard: Guard, archived: bool)
    ensures Retention.Apply(t, plan, guard, archived) != Err(Error.Sink)
  {}

  /** The export up to the plan's reach, and then the plan. */
  method ArchiveUpTo(log: SqliteEventLog, plan: Plan, sink: Sink, limit: nat, others: Others, target: nat, ghost start: Tables)
    returns (answer: Result<Retention.Report>, ghost took: seq<seq<Row>>, ghost more: seq<Row>, ghost last: Tables)
    requires limit > 0 && Going(start, log.shared.isle.Tables(), others, 0, 0, [])
    requires start == log.shared.isle.Tables() && HighestMatching(start, plan) == Ok(Some(target))
    modifies log.shared.isle, sink, others
    ensures Handed(ExportedThrough(start), old(sink.shown), sink.shown, more, took, answer == Err(Error.Sink))
    ensures Writes(sink, old(sink.taken), old(sink.writes), took, answer == Err(Error.Sink))
    ensures Woven(others.env, start, others.gaps, took, last)
    ensures Ends(last, log.shared.isle.Tables(), plan, limit, answer)
    ensures Quiet(others.env) ==> AloneEnds(start, log.shared.isle.Tables(), plan, answer, took)
  {
    var isle := log.shared.isle;
    Pause(isle, others, start, 0, 0, []);
    var begun := log.ExportedThrough();
    BeginsAt(start, isle.Tables(), others, begun);
    TargetIsThere(start, plan, target);
    var failed, at, pages, shown := ExportAll(log, sink, others, limit, begun, target, start);
    HandedFrom(ExportedThrough(start), begun, old(sink.shown), sink.shown, shown, pages, failed);
    took, more, last := pages, shown, isle.Tables();
    if failed { return Err(Error.Sink), took, more, last; }
    answer, last := ApplyPlan(log, plan, others, start, target, begun, at, took);
    PlanIsNoSink(last, plan, ExportedFirst, true);
  }

  /** `archive_then_retain`. Whatever others do between its steps, other archives
      included, it ends and shows the sink strictly increasing positions past the
      end of the chain it found; itself it writes nothing but receipts, and lands
      none but of pages the sink took, until its plan is answered, once, on the
      tables it finds then. It ends with the sink's error exactly when a write was
      refused, and then removes nothing. Alone, it removes exactly the plan's events
      once the sink has taken every event up to the highest of them; it removes
      nothing when a consumer is behind, and what it exported then counts for the
      next call. */
  method ArchiveThenRetain(log: SqliteEventLog, plan: Plan, sink: Sink, limit: nat, others: Others)
    returns (answer: Result<Retention.Report>, ghost took: seq<seq<Row>>, ghost more: seq<Row>, ghost last: Tables)
    requires others.Valid() && others.gaps == [] && Ordinary(log.shared.isle.Tables())
    modifies log.shared.isle, sink, others
    ensures Handed(ExportedThrough(old(log.shared.isle.Tables())), old(sink.shown), sink.shown, more, took,
                   answer == Err(Error.Sink))
    ensures Writes(sink, old(sink.taken), old(sink.writes), took, answer == Err(Error.Sink))
    ensures Woven(others.env, old(log.shared.isle.Tables()), others.gaps, took, last)
    ensures Ends(last, log.shared.isle.Tables(), plan, limit, answer)
    ensures Quiet(others.env) && limit > 0 ==>
      AloneEnds(old(log.shared.isle.Tables()), log.shared.isle.Tables(), plan, answer, took)
  {
    took, more := [], [];
    assert sink.shown + [] == sink.shown && sink.taken + [] == sink.taken;
    ghost var start := log.shared.isle.Tables();
    last := start;
    if limit == 0 { return Err(Validation), took, more, last; }
    NoReach(start, plan);
    var target := HighestMatching(log.shared.isle.Tables(), plan);
    if target.Err? { return Err(target.error), took, more, last; }
    if target.value.None? { return Ok(Retention.Nothing), took, more, last; }
    BeginsGoing(start, others);
    answer, took, more, last := ArchiveUpTo(log, plan, sink, limit, others, target.value.value, start);
  }
}
