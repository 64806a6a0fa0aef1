/** Paged reads: a replay or a subscription, as a client that borrows the log for
    one look at a time while transactions land between its looks. */
module Subscription {
  import opened Wrappers
  import opened Event
  import opened Rows
  import opened Filters
  import opened Database
  import opened Growth

  const BATCH: nat := 256

  /** When one round reads the head, and when it reads its page. */
  datatype Look = Look(head: nat, page: nat)

  /** Rounds in time order, any number of transactions between any two reads. */
  predicate Timely(log: seq<Tables>, looks: seq<Look>) {
    && (forall i :: 0 <= i < |looks| ==> looks[i].head <= looks[i].page < |log|)
    && (forall i :: 0 < i < |looks| ==> looks[i - 1].page <= looks[i].head)
  }

  /** No live matching event between the start and the cursor is unyielded. */
  ghost predicate NothingMissed(t: Tables, from: nat, cursor: nat, f: Filter, out: seq<Row>) {
    forall r <- t.events :: from < r.position <= cursor && f.Matches(r) ==> r in out
  }

  /** No live matching event past the start is unyielded. */
  ghost predicate NothingLeft(t: Tables, from: nat, f: Filter, out: seq<Row>) {
    forall r <- t.events :: from < r.position && f.Matches(r) ==> r in out
  }

  /** What has been yielded is in position order, wanted, and past the start. */
  ghost predicate InOrder(from: nat, cursor: nat, f: Filter, out: seq<Row>) {
    Sorted(out) && forall r <- out :: from < r.position <= cursor && f.Matches(r)
  }

  /** Where a reader stands against the log it last looked at. */
  ghost predicate Stands(t: Tables, from: nat, cursor: nat, f: Filter, out: seq<Row>) {
    && InOrder(from, cursor, f, out)
    && NothingMissed(t, from, cursor, f, out)
    && from <= cursor <= Max(from, t.issued)
  }

  /** A later state has nothing new at or below a position issued before it. */
  lemma StandsLater(t: Tables, u: Tables, from: nat, cursor: nat, f: Filter, out: seq<Row>)
    requires Stands(t, from, cursor, f, out) && Grows(t, u)
    ensures Stands(u, from, cursor, f, out)
  {}

  /** Where a page has been read to. */
  function Reached(start: U64, page: seq<Row>, n: nat): U64
    requires n <= |page|
  {
    if n == 0 then start else page[n - 1].position
  }

  lemma NextIsPast(t: Tables, start: U64, f: Filter, page: seq<Row>, n: nat)
    requires Ordinary(t) && page <= After(t.events, start, f) && n < |page|
    ensures Reached(start, page, n) < page[n].position <= t.issued && f.Matches(page[n])
  {
    var all := After(t.events, start, f);
    AfterSorted(t.events, start, f);
    assert page[n] == all[n] && all[n] in all;
    if n > 0 { assert page[n - 1] == all[n - 1]; }
  }

  /** Nothing live lies between two events of a page. */
  lemma NothingBetween(t: Tables, start: U64, f: Filter, page: seq<Row>, n: nat, r: Row)
    requires Ordinary(t) && page <= After(t.events, start, f) && n < |page|
    requires r in t.events && f.Matches(r) && Reached(start, page, n) < r.position <= page[n].position && start < r.position
    ensures r == page[n]
  {
    var all := After(t.events, start, f);
    AfterSorted(t.events, start, f);
    assert r in all;
    var i :| 0 <= i < |all| && all[i] == r;
    assert page[n] == all[n];
    if n > 0 { assert page[n - 1] == all[n - 1]; }
  }

  /** One more event of a page. */
  lemma YieldsNext(t: Tables, from: nat, start: U64, f: Filter, page: seq<Row>, n: nat, out: seq<Row>, more: seq<Row>)
    requires Ordinary(t) && page <= After(t.events, start, f) && n < |page| && from <= start
    requires start <= Reached(start, page, n) && Stands(t, from, Reached(start, page, n), f, out)
    requires more == out + [page[n]]
    ensures start <= page[n].position && Stands(t, from, page[n].position, f, more)
  {
    NextIsPast(t, start, f, page, n);
    forall r | r in t.events && Reached(start, page, n) < r.position <= page[n].position && f.Matches(r)
      ensures r == page[n]
    {
      NothingBetween(t, start, f, page, n, r);
    }
  }

  /** A short page has exhausted the range: whatever position follows it, nothing
      live has been missed. */
  lemma ShortPageExhausts(t: Tables, from: nat, start: U64, f: Filter, page: seq<Row>, out: seq<Row>)
    requires page == After(t.events, start, f) && Ordinary(t) && start <= Reached(start, page, |page|)
    requires NothingMissed(t, from, Reached(start, page, |page|), f, out) && forall r <- page :: r in out
    ensures NothingLeft(t, from, f, out)
  {
    forall r | r in t.events && from < r.position && f.Matches(r) ensures r in out {
      if r.position > start { assert r in page; }
    }
  }

  /** What one round owes its consumer: the first 256 live rows the filter matches
      past its start, all of them if there are fewer. */
  function Due(t: Tables, start: nat, f: Filter): (rows: seq<Row>)
    ensures |rows| <= 256
  {
    var all := Pick(t.events, (r: Row) => r.position > start && f.Matches(r));
    if |all| <= 256 then all else all[..256]
  }

  lemma PageIs(t: Tables, cursor: U64, f: Filter, page: seq<Row>)
    requires SelectStored(t, cursor, f, BATCH) == Ok(page)
    ensures page == Due(t, cursor, f)
    ensures page <= After(t.events, cursor, f)
    ensures |page| != BATCH ==> page == After(t.events, cursor, f)
  {
    if f.SelectsNothing() { PickNothing(t.events, (r: Row) => r.position > cursor && f.Matches(r)); }
  }

  /** Part of the way through a page. */
  ghost predicate Within(t: Tables, from: nat, start: U64, f: Filter, page: seq<Row>, before: seq<Row>,
                         n: nat, cursor: nat, out: seq<Row>)
  {
    && n <= |page| && out == before + page[..n]
    && start <= cursor == Reached(start, page, n)
    && Stands(t, from, cursor, f, out)
  }

  lemma WithinOn(t: Tables, from: nat, start: U64, f: Filter, page: seq<Row>, before: seq<Row>,
                 n: nat, cursor: nat, out: seq<Row>, next: nat, more: seq<Row>)
    requires Ordinary(t) && page <= After(t.events, start, f) && from <= start
    requires Within(t, from, start, f, page, before, n, cursor, out) && n < |page|
    requires next == n + 1 && more == out + [page[n]]
    ensures Within(t, from, start, f, page, before, next, page[n].position, more)
  {
    YieldsNext(t, from, start, f, page, n, out, more);
    FrontOn(page, before, n, out, next, more);
  }

  lemma FrontOn(page: seq<Row>, before: seq<Row>, n: nat, out: seq<Row>, next: nat, more: seq<Row>)
    requires n < |page| && out == before + page[..n] && next == n + 1 && more == out + [page[n]]
    ensures more == before + page[..next]
  {
    assert page[..next] == page[..n] + [page[n]];
  }

  /** Each event of a page in turn, until the consumer drops the stream. */
  method YieldPage(ghost t: Tables, from: nat, start: U64, f: Filter, page: seq<Row>, before: seq<Row>, take: nat)
    returns (out: seq<Row>, cursor: U64, n: nat)
    requires Ordinary(t) && page <= After(t.events, start, f) && from <= start
    requires Stands(t, from, start, f, before)
    ensures Within(t, from, start, f, page, before, n, cursor, out)
    ensures n == |page| || |out| >= take
  {
    out, cursor, n := before, start, 0;
    assert before + page[..0] == before;
    while n < |page| && |out| < take
      invariant Within(t, from, start, f, page, before, n, cursor, out)
    {
      var recorded, next, more := page[n], n + 1, out + [page[n]];
      WithinOn(t, from, start, f, page, before, n, cursor, out, next, more);
      cursor, out, n := recorded.position, more, next;
    }
  }

  /** The transaction the last of so many rounds read its page at. */
  function LastLook(looks: seq<Look>, rounds: nat): nat
    requires rounds <= |looks|
  {
    if rounds == 0 then 0 else looks[rounds - 1].page
  }

  ghost predicate FromLooks(log: seq<Tables>, looks: seq<Look>, rounds: nat, out: seq<Row>)
    requires Timely(log, looks) && rounds <= |looks|
  {
    forall r <- out :: exists i :: 0 <= i < rounds && r in log[looks[i].page].events
  }

  lemma PageIsFromLook(log: seq<Tables>, looks: seq<Look>, rounds: nat, from: nat, f: Filter, before: seq<Row>, start: nat, some: seq<Row>)
    requires Timely(log, looks) && rounds < |looks| && FromLooks(log, looks, rounds, before)
    requires some <= After(log[looks[rounds].page].events, start, f)
    ensures FromLooks(log, looks, rounds + 1, before + some)
  {
    forall r | r in before + some ensures exists i :: 0 <= i < rounds + 1 && r in log[looks[i].page].events {
      if r in some {
        assert r in After(log[looks[rounds].page].events, start, f);
      }
    }
  }

  /** After so many rounds, at the moment of the last page. */
  ghost predicate Progress(log: seq<Tables>, looks: seq<Look>, rounds: nat, from: nat, cursor: nat, f: Filter, out: seq<Row>)
    requires Timely(log, looks) && rounds <= |looks|
  {
    && FromLooks(log, looks, rounds, out)
    && LastLook(looks, rounds) < |log|
    && Stands(log[LastLook(looks, rounds)], from, cursor, f, out)
  }

  /** From its last look on, a reader has missed nothing live up to its cursor. */
  lemma NeverMissed(log: seq<Tables>, last: nat, from: nat, cursor: nat, f: Filter, out: seq<Row>, k: nat)
    requires Growing(log) && last <= k < |log| && Stands(log[last], from, cursor, f, out)
    ensures Stands(log[k], from, cursor, f, out)
  {
    assert GrowsTo(log[last], log[k]);
    StandsLater(log[last], log[k], from, cursor, f, out);
  }

  lemma NextLook(log: seq<Tables>, looks: seq<Look>, rounds: nat, from: nat, cursor: nat, f: Filter, out: seq<Row>)
    requires Growing(log) && Timely(log, looks) && rounds < |looks| && Progress(log, looks, rounds, from, cursor, f, out)
    ensures var t := log[looks[rounds].page];
      Ordinary(t) && Stands(t, from, cursor, f, out) && Head(log[looks[rounds].head]) <= t.issued
  {
    NeverMissed(log, LastLook(looks, rounds), from, cursor, f, out, looks[rounds].page);
    assert GrowsTo(log[looks[rounds].head], log[looks[rounds].page]);
    assert GrowsTo(log[looks[rounds].head], log[looks[rounds].head]);
  }

  /** A round that yielded some of its page. */
  lemma RoundProgresses(log: seq<Tables>, looks: seq<Look>, rounds: nat, from: nat, start: U64, f: Filter, before: seq<Row>,
                        page: seq<Row>, n: nat, cursor: nat, out: seq<Row>)
    requires Timely(log, looks) && rounds < |looks| && Progress(log, looks, rounds, from, start, f, before)
    requires page <= After(log[looks[rounds].page].events, start, f)
    requires Within(log[looks[rounds].page], from, start, f, page, before, n, cursor, out)
    ensures Progress(log, looks, rounds + 1, from, cursor, f, out)
  {
    PageIsFromLook(log, looks, rounds, from, f, before, start, page[..n]);
  }

  /** The range was exhausted at the last look; a tail has moved to the head. */
  ghost predicate Exhausted(log: seq<Tables>, looks: seq<Look>, rounds: nat, from: nat, cursor: nat, f: Filter, out: seq<Row>, tail: bool)
    requires Timely(log, looks) && rounds <= |looks|
  {
    && rounds > 0
    && NothingLeft(log[looks[rounds - 1].page], from, f, out)
    && (tail ==> cursor >= Head(log[looks[rounds - 1].head]))
  }

  /** The whole of a short page: the jump to a head read before it skips nothing. */
  lemma JumpIsSafe(log: seq<Tables>, looks: seq<Look>, rounds: nat, from: nat, start: U64, f: Filter, before: seq<Row>,
                   page: seq<Row>, cursor: nat, out: seq<Row>, head: nat, tail: bool)
    requires Timely(log, looks) && rounds < |looks|
    requires var t := log[looks[rounds].page];
      && Ordinary(t) && page == After(t.events, start, f)
      && Within(t, from, start, f, page, before, |page|, cursor, out)
      && head <= t.issued
    requires Progress(log, looks, rounds + 1, from, cursor, f, out)
    requires tail ==> head == Head(log[looks[rounds].head])
    ensures Progress(log, looks, rounds + 1, from, Max(cursor, head), f, out)
    ensures Exhausted(log, looks, rounds + 1, from, Max(cursor, head), f, out, tail)
  {
    ShortPageExhausts(log[looks[rounds].page], from, start, f, page, out);
  }

  /** A round that was not refused: it yields what it owes, or what of it the consumer
      took, and it has exhausted the range exactly when that was all and short of a
      full page. */
  ghost predicate Yielded(t: Tables, start: nat, f: Filter, before: seq<Row>, take: nat, out: seq<Row>, exhausted: bool) {
    var due := Due(t, start, f);
    && before <= out && out[|before|..] <= due
    && (out[|before|..] == due || |out| >= take)
    && (exhausted <==> out[|before|..] == due && |due| < 256)
  }

  /** One round: the head, then the page, then the page's events, then the jump. */
  method Round(log: seq<Tables>, looks: seq<Look>, rounds: nat, from: U64, start: U64, f: Filter, tail: bool,
               before: seq<Row>, take: nat)
    returns (out: seq<Row>, cursor: U64, exhausted: bool, error: Option<Error>)
    requires Growing(log) && Timely(log, looks) && rounds < |looks| && Progress(log, looks, rounds, from, start, f, before)
    ensures error.None? ==> Progress(log, looks, rounds + 1, from, cursor, f, out)
    ensures error.None? ==> Yielded(log[looks[rounds].page], start, f, before, take, out, exhausted)
    ensures exhausted ==> error.None? && Exhausted(log, looks, rounds + 1, from, cursor, f, out, tail)
    ensures error.Some? ==> out == before && cursor == start
    ensures error.Some? ==> SelectStored(log[looks[rounds].page], start, f, BATCH) == Err(error.value)
  {
    NextLook(log, looks, rounds, from, start, f, before);
    var head := if tail then Head(log[looks[rounds].head]) else 0;
    var batch := SelectStored(log[looks[rounds].page], start, f, BATCH);
    if batch.Err? {
      return before, start, false, Some(batch.error);
    }
    var page := batch.value;
    PageIs(log[looks[rounds].page], start, f, page);
    var n;
    out, cursor, n := YieldPage(log[looks[rounds].page], from, start, f, page, before, take);
    RoundProgresses(log, looks, rounds, from, start, f, before, page, n, cursor, out);
    assert out[|before|..] == page[..n];
    if |page| == BATCH || n < |page| {
      return out, cursor, false, None;
    }
    JumpIsSafe(log, looks, rounds, from, start, f, before, page, cursor, out, head, tail);
    cursor, exhausted, error := Max(cursor, head), true, None;
  }

  /** How much a reader that was not dropped has yielded: its last round was short or
      full, and every round of a replay but the last was full. */
  ghost predicate Filled(yielded: nat, take: nat, rounds: nat, tail: bool, exhausted: bool) {
    yielded < take ==>
      && (rounds > 0 ==> exhausted || yielded >= 256)
      && (!tail ==> exhausted || yielded == 256 * rounds)
  }

  /** No more is yielded than was ever issued. */
  lemma YieldsFit(t: Tables, from: nat, cursor: nat, f: Filter, out: seq<Row>)
    requires Stands(t, from, cursor, f, out)
    ensures |out| <= t.issued
  {
    if out != [] {
      assert out[0] in out;
      SortedHasRoom(out, cursor, |out|);
    }
  }

  /** From the last page read on. */
  ghost predicate StandsOn(log: seq<Tables>, last: nat, from: nat, cursor: nat, f: Filter, out: seq<Row>) {
    forall k :: last <= k < |log| ==> Stands(log[k], from, cursor, f, out)
  }

  lemma EndsStanding(log: seq<Tables>, looks: seq<Look>, rounds: nat, from: nat, cursor: nat, f: Filter, out: seq<Row>)
    requires Growing(log) && Timely(log, looks) && rounds <= |looks| && Progress(log, looks, rounds, from, cursor, f, out)
    ensures InOrder(from, cursor, f, out) && StandsOn(log, LastLook(looks, rounds), from, cursor, f, out)
    ensures |out| <= log[|log| - 1].issued
  {
    forall k | LastLook(looks, rounds) <= k < |log| ensures Stands(log[k], from, cursor, f, out) {
      NeverMissed(log, LastLook(looks, rounds), from, cursor, f, out, k);
    }
    YieldsFit(log[|log| - 1], from, cursor, f, out);
  }

  /** One more round that was not refused. */
  lemma FilledByRound(t: Tables, start: nat, f: Filter, before: seq<Row>, take: nat, out: seq<Row>, was: bool, exhausted: bool,
                      rounds: nat, next: nat, tail: bool)
    requires Yielded(t, start, f, before, take, out, exhausted) && |before| < take && (was ==> tail) && next == rounds + 1
    requires Filled(|before|, take, rounds, tail, was)
    ensures Filled(|out|, take, next, tail, exhausted)
  {}

  /** Where the loop stands between rounds. */
  ghost predicate Reading(log: seq<Tables>, looks: seq<Look>, rounds: nat, from: nat, cursor: nat, f: Filter, tail: bool,
                          take: nat, out: seq<Row>, exhausted: bool)
    requires Timely(log, looks) && rounds <= |looks|
  {
    && Progress(log, looks, rounds, from, cursor, f, out)
    && (exhausted ==> Exhausted(log, looks, rounds, from, cursor, f, out, tail))
    && Filled(|out|, take, rounds, tail, exhausted)
  }

  /** One more round of the loop. */
  method ReadOn(log: seq<Tables>, looks: seq<Look>, rounds: nat, next: nat, from: U64, start: U64, f: Filter, tail: bool,
                before: seq<Row>, take: nat, was: bool)
    returns (out: seq<Row>, cursor: U64, exhausted: bool, error: Option<Error>)
    requires Growing(log) && Timely(log, looks) && rounds < |looks| && next == rounds + 1
    requires Reading(log, looks, rounds, from, start, f, tail, take, before, was) && |before| < take && (was ==> tail)
    ensures error.None? ==> Reading(log, looks, next, from, cursor, f, tail, take, out, exhausted)
    ensures error.Some? ==> out == before && cursor == start && !exhausted
    ensures error.Some? ==> SelectStored(log[looks[rounds].page], start, f, BATCH) == Err(error.value)
  {
    out, cursor, exhausted, error := Round(log, looks, rounds, from, start, f, tail, before, take);
    if error.None? {
      FilledByRound(log[looks[rounds].page], start, f, before, take, out, was, exhausted, rounds, next, tail);
    }
  }

  /** The loop behind `replay` and `subscribe`, for as many rounds as `looks` has or
      until the consumer has taken enough. A subscription (`tail`) waits after a
      short page and goes on; a replay ends. Whatever was committed or removed
      between the reads, what was yielded is strictly in position order, and no
      live matching event up to the cursor is missing from it, then or later. Every
      round but one that ends the range yields 256 events, so a replay that is not
      dropped or refused comes to its end. */
  method Paged(log: seq<Tables>, looks: seq<Look>, from: U64, f: Filter, tail: bool, take: nat)
    returns (out: seq<Row>, cursor: U64, rounds: nat, exhausted: bool, error: Option<Error>)
    requires log != [] && Growing(log) && Timely(log, looks)
    ensures rounds <= |looks| && InOrder(from, cursor, f, out) && FromLooks(log, looks, rounds, out)
    ensures StandsOn(log, LastLook(looks, rounds), from, cursor, f, out)
    ensures exhausted ==> Exhausted(log, looks, rounds, from, cursor, f, out, tail)
    ensures error.None? ==> rounds == |looks| || (exhausted && !tail) || |out| >= take
    ensures error.None? ==> Filled(|out|, take, rounds, tail, exhausted)
    ensures error.None? && |out| < take && !tail && 256 * |looks| > log[|log| - 1].issued ==> exhausted
    ensures error.Some? ==>
      rounds < |looks| && SelectStored(log[looks[rounds].page], cursor, f, BATCH) == Err(error.value)
  {
    out, cursor, rounds, exhausted, error := [], from, 0, false, None;
    while rounds < |looks| && |out| < take
      invariant rounds <= |looks| && error.None? && (exhausted ==> tail)
      invariant Reading(log, looks, rounds, from, cursor, f, tail, take, out, exhausted)
      decreases |looks| - rounds
    {
      out, cursor, exhausted, error := ReadOn(log, looks, rounds, rounds + 1, from, cursor, f, tail, out, take, exhausted);
      if error.Some? {
        break;
      }
      rounds := rounds + 1;
      if exhausted && !tail {
        break;
      }
    }
    EndsStanding(log, looks, rounds, from, cursor, f, out);
  }
}
