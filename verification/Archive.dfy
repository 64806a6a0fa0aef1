/** Archive safety: pages are read off a reader, their receipts written later and
    confirmed later still, and writers and removals land in between. */
module Archive {
  import opened Wrappers
  import opened Event
  import opened Rows
  import opened Filters
  import opened Database
  import opened Retention
  import opened World
  import opened Growth
  import opened Rising

  /** A page as a reader handed it out. */
  datatype Page = Page(from: U64, filter: Filter, rows: seq<Row>)
  {
    function Through(): nat { Retention.Through(from, rows) }
  }

  /** The database, the pages read so far, and the page behind each receipt. */
  datatype Archive = Archive(t: Tables, pages: seq<Page>, taken: seq<Page>)

  /** `export_recorded` is two steps: the read, and the receipt of some page that
      was read. Every other transaction is a third. */
  datatype Act = Look(from: U64, filter: Filter, limit: nat) | Receive(read: nat) | Do(op: Op)

  function Next(a: Archive, act: Act): Archive {
    match act
    case Look(from, filter, limit) =>
      var rows := SelectStored(a.t, from, filter, limit);
      if rows.Err? then a else a.(pages := a.pages + [Page(from, filter, rows.value)])
    case Receive(read) =>
      if read >= |a.pages| then a
      else
        var page := a.pages[read];
        var written := WriteReceipt(a.t, page.from, page.rows, page.filter);
        if written.Err? then a else a.(t := written.value.0, taken := a.taken + [page])
    case Do(op) =>
      if op.Take? then a else a.(t := Exec(a.t, op))
  }

  const Unused := Archive(Empty, [], [])

  function After(acts: seq<Act>, k: nat): Archive
    requires k <= |acts|
  {
    if k == 0 then Unused else Next(After(acts, k - 1), acts[k - 1])
  }

  // ---- an archive is a run of transactions with reads beside it -------------

  /** What each step puts to the database: a receipt is that of the page it names, and
      a read is no transaction. */
  function Transactions(acts: seq<Act>, k: nat): seq<Op>
    requires k <= |acts|
  {
    if k == 0 then [] else Transactions(acts, k - 1) + Asked(After(acts, k - 1).pages, acts[k - 1])
  }

  function Asked(pages: seq<Page>, act: Act): seq<Op> {
    match act
    case Look(_, _, _) => []
    case Receive(read) =>
      if read < |pages| then [Take(pages[read].from, pages[read].rows, pages[read].filter)] else []
    case Do(op) => if op.Take? then [] else [op]
  }

  lemma StepIsAsked(a: Archive, act: Act, asked: seq<Op>)
    requires asked == Asked(a.pages, act)
    ensures asked == [] || exists op :: asked == [op]
    ensures Next(a, act).t == if asked == [] then a.t else Exec(a.t, asked[0])
  {}

  lemma RunsJoin(ops: seq<Op>, asked: seq<Op>, ran: seq<Op>, t: Tables, u: Tables)
    requires ran == ops + asked && t == Run(Fresh, ops, |ops|).t
    requires asked == [] || exists op :: asked == [op]
    requires u == if asked == [] then t else Exec(t, asked[0])
    ensures u == Run(Fresh, ran, |ran|).t
  {
    if asked == [] { assert ran == ops; } else { RunOneMore(Fresh, ops, asked[0], ran); }
  }

  /** The tables an archive reaches are those its transactions reach, run one after
      another with nothing beside them. */
  lemma {:induction false} TablesAreTheRuns(acts: seq<Act>, k: nat, ops: seq<Op>)
    requires k <= |acts| && ops == Transactions(acts, k)
    ensures After(acts, k).t == Run(Fresh, ops, |ops|).t
  {
    if k > 0 {
      var a, before := After(acts, k - 1), Transactions(acts, k - 1);
      var asked := Asked(a.pages, acts[k - 1]);
      TablesAreTheRuns(acts, k - 1, before);
      StepIsAsked(a, acts[k - 1], asked);
      RunsJoin(before, asked, ops, a.t, Next(a, acts[k - 1]).t);
    }
  }

  lemma OneMoreAct(acts: seq<Act>, k: nat, n: nat)
    requires n == k + 1 <= |acts|
    ensures After(acts, n) == Next(After(acts, k), acts[k])
  {}

  /** A page once read can be recorded at any later time: it stays, where it was put. */
  lemma {:induction false} PageIsKept(acts: seq<Act>, k: nat, n: nat, rows: seq<Row>)
    requires k < n <= |acts| && acts[k].Look?
    requires SelectStored(After(acts, k).t, acts[k].from, acts[k].filter, acts[k].limit) == Ok(rows)
    ensures After(acts, k).pages + [Page(acts[k].from, acts[k].filter, rows)] <= After(acts, n).pages
  {
    if n > k + 1 {
      var m := n - 1;
      PageIsKept(acts, k, m, rows);
      OneMoreAct(acts, m, n);
    } else {
      OneMoreAct(acts, k, n);
    }
  }

  // ---- what a page goes on holding -----------------------------------------

  /** Every live row in a whole page's range is in the page. */
  ghost predicate StillHolds(t: Tables, page: Page) {
    && (page.rows != [] ==> page.Through() <= t.issued)
    && (page.filter.Whole() ==>
          forall r <- t.events :: page.from < r.position <= page.Through() ==> r in page.rows)
  }

  lemma HoldsOn(t: Tables, u: Tables, page: Page)
    requires StillHolds(t, page) && Grows(t, u)
    ensures StillHolds(u, page)
  {}

  lemma PageHolds(t: Tables, from: U64, filter: Filter, limit: nat, rows: seq<Row>)
    requires Ordinary(t) && SelectStored(t, from, filter, limit) == Ok(rows)
    ensures StillHolds(t, Page(from, filter, rows))
  {
    if rows != [] {
      var all := Database.After(t.events, from, filter);
      AfterSorted(t.events, from, filter);
      assert rows <= all;
      var last := rows[|rows| - 1];
      assert last in all;
      WholeSelectsEverything(filter);
      forall r | r in t.events && filter.Whole() && from < r.position <= last.position ensures r in rows {
        assert r in all;
        var i :| 0 <= i < |all| && all[i] == r;
        assert all[|rows| - 1] == last;
      }
    }
  }

  /** Each receipt is the receipt of the page it was written for. */
  ghost predicate TakenAt(a: Archive, k: nat)
    requires k < |a.taken| == |a.t.exports|
  {
    var page, receipt := a.taken[k], a.t.exports[k];
    && receipt.from == page.from && receipt.through == page.Through() && receipt.whole == page.filter.Whole()
    && StillHolds(a.t, page)
  }

  ghost predicate Faithful(a: Archive) {
    && Ordinary(a.t)
    && (forall page <- a.pages :: StillHolds(a.t, page))
    && |a.taken| == |a.t.exports|
    && (forall k :: 0 <= k < |a.taken| ==> TakenAt(a, k))
  }

  lemma LookIsFaithful(a: Archive, from: U64, filter: Filter, limit: nat)
    requires Faithful(a)
    ensures Faithful(Next(a, Look(from, filter, limit)))
  {
    var rows, b := SelectStored(a.t, from, filter, limit), Next(a, Look(from, filter, limit));
    if rows.Ok? {
      PageHolds(a.t, from, filter, limit, rows.value);
      forall k | 0 <= k < |b.taken| ensures TakenAt(b, k) { assert TakenAt(a, k); }
    }
  }

  lemma ReceiptIsFaithful(a: Archive, read: nat)
    requires Faithful(a)
    ensures Faithful(Next(a, Receive(read)))
  {
    var b := Next(a, Receive(read));
    if b != a {
      assert StillHolds(a.t, a.pages[read]);
      forall k | 0 <= k < |b.taken| ensures TakenAt(b, k) {
        if k < |a.taken| { assert TakenAt(a, k); }
      }
    }
  }

  /** Any other transaction leaves the receipts, or lands one. */
  lemma ReceiptsStay(t: Tables, op: Op)
    requires !op.Take?
    ensures var u := Exec(t, op);
      |u.exports| == |t.exports|
      && forall k :: 0 <= k < |t.exports| ==> u.exports[k].(landed := t.exports[k].landed) == t.exports[k]
  {
    if !op.Land? { ReceiptsUntouched(t, op); }
  }

  lemma OpIsFaithful(a: Archive, op: Op)
    requires Faithful(a)
    ensures Faithful(Next(a, Do(op)))
  {
    if !op.Take? {
      var b := Next(a, Do(op));
      OpGrows(a.t, op);
      ReceiptsStay(a.t, op);
      forall page | page in b.pages ensures StillHolds(b.t, page) { HoldsOn(a.t, b.t, page); }
      forall k | 0 <= k < |b.taken| ensures TakenAt(b, k) {
        assert TakenAt(a, k) && b.t.exports[k].(landed := a.t.exports[k].landed) == a.t.exports[k];
        HoldsOn(a.t, b.t, b.taken[k]);
      }
    }
  }

  lemma {:induction false} AlwaysFaithful(acts: seq<Act>, k: nat)
    requires k <= |acts|
    ensures Faithful(After(acts, k))
  {
    if k > 0 {
      AlwaysFaithful(acts, k - 1);
      var a := After(acts, k - 1);
      match acts[k - 1]
      case Look(from, filter, limit) => LookIsFaithful(a, from, filter, limit);
      case Receive(read) => ReceiptIsFaithful(a, read);
      case Do(op) => OpIsFaithful(a, op);
    }
  }

  // ---- nothing is removed that was not archived ----------------------------

  /** A row is in a page whose whole receipt has been confirmed. */
  ghost predicate Archived(a: Archive, row: Row)
    requires |a.taken| == |a.t.exports|
  {
    exists k :: 0 <= k < |a.taken| && Vouches(a.t.exports[k]) && row in a.taken[k].rows
  }

  lemma ChainIsArchived(a: Archive, row: Row)
    requires Faithful(a) && row in a.t.events && row.position <= ExportedThrough(a.t)
    ensures Archived(a, row)
  {
    GreedyChainIsExact(a.t, ExportedThrough(a.t));
    assert Covered(Vouching(a.t), row.position);
    var receipt :| receipt in Vouching(a.t) && Covers(receipt, row.position);
    var k :| 0 <= k < |a.t.exports| && a.t.exports[k] == receipt;
    assert TakenAt(a, k);
  }

  /** Archive safety: however page reads, receipts, confirmations, writes and
      removals interleave, a row removed under the exported guard is in a page
      whose whole receipt was confirmed before the removal. */
  lemma {:induction false} RemovedWasArchived(acts: seq<Act>, k: nat, plan: Plan, archived: bool, row: Row)
    requires k < |acts| && acts[k] == Do(Retain(plan, ExportedFirst, archived))
    requires row in After(acts, k).t.events && row !in After(acts, k + 1).t.events
    ensures |After(acts, k).taken| == |After(acts, k).t.exports| && Archived(After(acts, k), row)
  {
    AlwaysFaithful(acts, k);
    var a := After(acts, k);
    assert row in Doomed(a.t, plan);
    ChainIsArchived(a, row);
  }
}
