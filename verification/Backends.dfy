/** The two backends on one stream, asked the same things. */
module Backends {
  import opened Wrappers
  import opened Event
  import opened Rows
  import opened Database
  import opened Writes
  import opened Routes
  import History
  import Mem

  // ---- the durable store's remaining reads ---------------------------------

  function Mine(t: Tables, stream: string): seq<Row> {
    Pick(t.events, (r: Row) => r.stream == stream)
  }

  function Reversed<T>(list: seq<T>): (r: seq<T>)
    ensures |r| == |list|
    ensures forall i :: 0 <= i < |list| ==> r[i] == list[|list| - 1 - i]
  {
    if list == [] then [] else [list[|list| - 1]] + Reversed(list[..|list| - 1])
  }

  /** `read_last`: the newest `n` in descending order, reversed on the way back. */
  function ReadLast(t: Tables, stream: string, n: nat): seq<Row> {
    Reversed(Limit(Reversed(OrderBySeq(Mine(t, stream))), n))
  }

  lemma {:induction false} ReversedFront<T>(rows: seq<T>, m: nat, d: nat)
    requires m + d == |rows|
    ensures Reversed(Reversed(rows)[..m]) == rows[d..]
  {
    var front := Reversed(rows)[..m];
    forall i | 0 <= i < m ensures Reversed(front)[i] == rows[d..][i] { assert front[m - 1 - i] == rows[|rows| - m + i]; }
  }

  /** Limiting the descending rows and reversing them again leaves the last ones. */
  lemma {:induction false} ReversedTail(rows: seq<Row>, n: nat)
    ensures Reversed(Limit(Reversed(rows), n)) == if n <= I64_MAX && n < |rows| then rows[|rows| - n..] else rows
  {
    var m := if n <= I64_MAX && n < |rows| then n else |rows|;
    assert Limit(Reversed(rows), n) == Reversed(rows)[..m];
    ReversedFront(rows, m, |rows| - m);
  }

  /** `SELECT MAX(seq)`. */
  function MaxSeq(rows: seq<Row>): (top: Option<nat>)
    ensures top.None? <==> rows == []
    ensures top.Some? ==> (exists r <- rows :: r.seqNo == top.value) && forall r <- rows :: r.seqNo <= top.value
  {
    if rows == [] then None
    else
      var rest, last := MaxSeq(rows[..|rows| - 1]), rows[|rows| - 1];
      assert forall r <- rows :: r in rows[..|rows| - 1] || r == last;
      if rest.Some? && rest.value > last.seqNo then rest else Some(last.seqNo)
  }

  // ---- one conversation ----------------------------------------------------

  /** A request to either store. A batch comes with one clock reading per event;
      the durable store uses the first for all of them. */
  datatype Request =
    | Append(event: Object, clock: U64)
    | AppendMany(batch: seq<Object>, clocks: seq<U64>)
    | AppendIf(kinds: Option<seq<string>>, decide: seq<Object> -> Option<Object>, clock: U64)
    | ReadKinds(kinds: Option<seq<string>>, from: U64, limit: nat)
    | ReadLastFew(n: nat)
    | Head
    | Len

  datatype Answer =
    | Refused(error: Error)
    | Accepted(landed: seq<Mem.Landed>)
    | Events(events: seq<Object>)
    | Newest(seqNo: Option<nat>)
    | Count(n: nat)

  function LandedOf(c: Committed): Mem.Landed { Mem.Landed(c.seqNo, c.epochMs) }

  function AllLanded(out: seq<Committed>): (landed: seq<Mem.Landed>)
    ensures |landed| == |out|
  {
    seq(|out|, i requires 0 <= i < |out| => LandedOf(out[i]))
  }

  function OneClock(batch: seq<Object>, clocks: seq<U64>): (events: seq<(U64, Object)>)
    requires |batch| == |clocks|
    ensures |events| == |batch|
  {
    seq(|batch|, i requires 0 <= i < |batch| => (clocks[0], batch[i]))
  }

  predicate WellFormed(request: Request) {
    request.AppendMany? ==> |request.batch| == |request.clocks|
  }

  function Durable(t: Tables, stream: string, request: Request): (Tables, Answer)
    requires WellFormed(request)
  {
    match request
    case Append(event, clock) =>
      (match Writes.Append(t, stream, event, clock)
       case Ok((u, c)) => (u, Accepted([LandedOf(c)]))
       case Err(error) => (t, Refused(error)))
    case AppendMany(batch, clocks) =>
      (match RolledBack(Writes.AppendMany(t, stream, OneClock(batch, clocks)))
       case Ok((u, out)) => (u, Accepted(AllLanded(out)))
       case Err(error) => (t, Refused(error)))
    case AppendIf(kinds, decide, clock) =>
      (match Writes.AppendIf(t, stream, kinds, decide, clock)
       case Ok((u, c)) => (u, Accepted(if c.Some? then [LandedOf(c.value)] else []))
       case Err(error) => (t, Refused(error)))
    case ReadKinds(kinds, from, limit) => (t, Events(ObjectsOf(SelectStream(t, stream, kinds, from, limit))))
    case ReadLastFew(n) => (t, Events(ObjectsOf(ReadLast(t, stream, n))))
    case Head => (t, Newest(MaxSeq(Mine(t, stream))))
    case Len => (t, Count(|Mine(t, stream)|))
  }

  /** How many events a request may add. */
  function Weight(request: Request): nat {
    match request
    case Append(_, _) => 1
    case AppendMany(batch, _) => |batch|
    case AppendIf(_, _, _) => 1
    case _ => 0
  }

  function InMemory(events: seq<Object>, request: Request): (seq<Object>, Answer)
    requires WellFormed(request) && |events| + Weight(request) <= U64_MAX
  {
    match request
    case Append(event, clock) =>
      (match Mem.Append(events, event, clock)
       case Ok((after, landed)) => (after, Accepted([landed]))
       case Err(error) => (events, Refused(error)))
    case AppendMany(batch, clocks) =>
      (match Mem.AppendMany(events, batch, clocks)
       case Ok((after, landed)) => (after, Accepted(landed))
       case Err(error) => (events, Refused(error)))
    case AppendIf(kinds, decide, clock) =>
      (match Mem.AppendIf(events, kinds, decide, clock)
       case Ok((after, landed)) => (after, Accepted(if landed.Some? then [landed.value] else []))
       case Err(error) => (events, Refused(error)))
    case ReadKinds(kinds, from, limit) => (events, Events(Mem.Project(events, kinds, from, limit)))
    case ReadLastFew(n) => (events, Events(Mem.ReadLast(events, n)))
    case Head => (events, Newest(Mem.Head(events)))
    case Len => (events, Count(|events|))
  }

  // ---- the relation between them -------------------------------------------

  function AsObject(r: Row): Object { ObjectOf(r.seqNo, r.body) }

  /** The durable stream is the list: same events, numbered by their place, with
      the counter one past the end. */
  ghost predicate Same(t: Tables, stream: string, events: seq<Object>) {
    var rows := Mine(t, stream);
    && |rows| == |events| <= t.issued
    && (forall i :: 0 <= i < |rows| ==> rows[i].seqNo == i + 1 && AsObject(rows[i]) == events[i])
    && NextSeq(t, stream) == |events| + 1
  }

  lemma FreeNext(t: Tables, stream: string, events: seq<Object>)
    requires Same(t, stream, events)
    ensures !Taken(t, stream, NextSeq(t, stream))
  {
    forall r | r in t.events && r.stream == stream ensures r.seqNo <= |events| {
      assert r in Mine(t, stream);
    }
  }

  lemma SamePush(t: Tables, u: Tables, stream: string, events: seq<Object>, row: Row, pushed: Object)
    requires Same(t, stream, events) && u.events == t.events + [row] && u.issued == t.issued + 1
    requires row.stream == stream && row.seqNo == |events| + 1 && AsObject(row) == pushed
    requires NextSeq(u, stream) == |events| + 2
    ensures Same(u, stream, events + [pushed])
  {
    PickAppend(t.events, row, (r: Row) => r.stream == stream);
    assert Mine(u, stream) == Mine(t, stream) + [row];
  }

  /** One put is one push of the object it stores. */
  lemma PutIsPush(t: Tables, stream: string, events: seq<Object>, event: Object, clock: U64)
    requires Same(t, stream, events) && Valid(event) && t.issued < I64_MAX
    ensures var put := Put(t, stream, StampedBody(event, clock));
      put.Ok? && put.value.issued == t.issued + 1
      && Same(put.value, stream, events + [Stamp(event, |events| + 1, clock).value])
  {
    var body, next := StampedBody(event, clock), |events| + 1;
    FreeNext(t, stream, events);
    StampedRow(event, next, clock);
    History.PutIs(t, stream, body);
    SamePush(t, Put(t, stream, body).value, stream, events, History.NewRow(t, stream, body), Stamp(event, next, clock).value);
  }

  lemma AppendsAgree(t: Tables, stream: string, events: seq<Object>, event: Object, clock: U64)
    requires Same(t, stream, events) && t.issued < I64_MAX
    ensures var d, m := Writes.Append(t, stream, event, clock), Mem.Append(events, event, clock);
      && (d.Ok? <==> m.Ok?)
      && (d.Err? ==> m.error == d.error)
      && (d.Ok? ==> Same(d.value.0, stream, m.value.0) && LandedOf(d.value.1) == m.value.1
                    && d.value.0.issued == t.issued + 1)
  {
    AppendIsPut(t, stream, event, clock);
    if Valid(event) { PutIsPush(t, stream, events, event, clock); }
  }

  // ---- batches -------------------------------------------------------------

  /** The clock did not move during the batch. */
  predicate OneReading(clocks: seq<U64>) {
    forall i :: 0 <= i < |clocks| ==> clocks[i] == clocks[0]
  }

  lemma OneClockIsValid(batch: seq<Object>, clocks: seq<U64>)
    requires |batch| == |clocks|
    ensures Mem.AllValid(batch) <==> Writes.AllValid(OneClock(batch, clocks))
  {
    var events := OneClock(batch, clocks);
    if Mem.AllValid(batch) {
      forall e | e in events ensures Valid(e.1) {
        var i :| 0 <= i < |events| && events[i] == e;
        assert batch[i] in batch;
      }
    }
    if Writes.AllValid(events) {
      forall event | event in batch ensures Valid(event) {
        var i :| 0 <= i < |batch| && batch[i] == event;
        assert events[i] in events;
      }
    }
  }

  lemma NextPutIsPush(t: Tables, stream: string, events: seq<Object>, entry: Entry, event: Object, clock: U64)
    requires Same(t, stream, events) && Valid(event) && t.issued < I64_MAX
    requires entry == AppendEntry(stream, (clock, event))
    ensures var put := PutNext(Ok(t), entry);
      && put.Ok? && put.value.issued == t.issued + 1
      && Same(put.value, stream, Mem.Append(events, event, clock).value.0)
  {
    PutIsPush(t, stream, events, event, clock);
  }

  /** So many puts of a batch have pushed the same events. */
  ghost predicate Pushed(t: Tables, put: Result<Tables>, stream: string, events: seq<Object>, k: nat) {
    put.Ok? && put.value.issued == t.issued + k && Same(put.value, stream, events)
  }

  lemma {:induction false} PutsArePushes(t: Tables, stream: string, events: seq<Object>, batch: seq<Object>, clocks: seq<U64>,
                                       entries: seq<Entry>, k: nat)
    requires Same(t, stream, events) && |batch| == |clocks| && k <= |batch| && Mem.AllValid(batch)
    requires t.issued + |batch| <= I64_MAX
    requires |entries| == |batch| && forall i :: 0 <= i < |batch| ==> entries[i] == AppendEntry(stream, (clocks[i], batch[i]))
    ensures Pushed(t, PutTo(t, entries, k), stream, Mem.AppendTo(events, batch, clocks, k).0, k)
  {
    if k > 0 {
      PutsArePushes(t, stream, events, batch, clocks, entries, k - 1);
      assert batch[k - 1] in batch;
      NextPutIsPush(PutTo(t, entries, k - 1).value, stream, Mem.AppendTo(events, batch, clocks, k - 1).0,
                    entries[k - 1], batch[k - 1], clocks[k - 1]);
    }
  }

  /** What each insert of a batch answers. */
  lemma {:induction false} InsertRunAnswers(t: Tables, base: Counter, entries: seq<Entry>, k: nat)
    requires k <= |entries| && InsertRun(t, base, entries, k).stopped.None?
    ensures forall i :: 0 <= i < k ==>
      LandedOf(InsertRun(t, base, entries, k).out[i]) == Mem.Landed(base + i, ToU64(entries[i].body.epochMs))
  {
    if k > 0 {
      var j, at := k - 1, base + k - 1;
      InsertRunAnswers(t, base, entries, j);
      OneMoreInsert(t, base, entries, j, k, at);
    }
  }

  lemma {:induction false} MemAnswers(events: seq<Object>, batch: seq<Object>, clocks: seq<U64>, k: nat)
    requires k <= |batch| == |clocks| && Mem.AllValid(batch) && |events| + |batch| <= U64_MAX
    ensures forall i :: 0 <= i < k ==> Mem.AppendTo(events, batch, clocks, k).1[i] == Mem.Landed(|events| + 1 + i, clocks[i])
  {
    if k > 0 {
      MemAnswers(events, batch, clocks, k - 1);
      assert batch[k - 1] in batch;
    }
  }

  lemma ClockIsKept(event: Object, clock: U64)
    requires Valid(event)
    ensures ToU64(StampedBody(event, clock).epochMs) == clock
  {
    StampedBodyIs(event, 1, clock);
    CastsRoundTrip(clock, 0);
  }

  /** The two lists of answers, one by one. */
  lemma AnswersAgree(base: Counter, entries: seq<Entry>, out: seq<Committed>, stream: string,
                     batch: seq<Object>, clocks: seq<U64>, landed: seq<Mem.Landed>)
    requires |entries| == |out| == |batch| == |clocks| == |landed| && Mem.AllValid(batch)
    requires forall i :: 0 <= i < |batch| ==> entries[i] == AppendEntry(stream, (clocks[i], batch[i]))
    requires forall i :: 0 <= i < |out| ==> LandedOf(out[i]) == Mem.Landed(base + i, ToU64(entries[i].body.epochMs))
    requires forall i :: 0 <= i < |batch| ==> landed[i] == Mem.Landed(base + i, clocks[i])
    ensures AllLanded(out) == landed
  {
    forall i | 0 <= i < |batch| ensures LandedOf(out[i]) == landed[i] {
      assert batch[i] in batch;
      ClockIsKept(batch[i], clocks[i]);
    }
  }

  lemma ManyReturnsRun(t: Tables, stream: string, events: seq<(U64, Object)>, out: seq<Committed>)
    requires events != [] && Writes.AppendMany(t, stream, events).1 == Ok(out)
    ensures var run := InsertRun(t, NextSeq(t, stream), AppendEntries(stream, events), |events|);
      run.stopped.None? && out == run.out
  {}

  lemma RunAnswersAgree(t: Tables, stream: string, base: Counter, entries: seq<Entry>, run: Inserting,
                        batch: seq<Object>, clocks: seq<U64>, landed: seq<Mem.Landed>)
    requires |entries| == |batch| == |clocks| == |landed| && Mem.AllValid(batch)
    requires forall i :: 0 <= i < |batch| ==> entries[i] == AppendEntry(stream, (clocks[i], batch[i]))
    requires run == InsertRun(t, base, entries, |entries|) && run.stopped.None?
    requires forall i :: 0 <= i < |batch| ==> landed[i] == Mem.Landed(base + i, clocks[i])
    ensures AllLanded(run.out) == landed
  {
    InsertRunAnswers(t, base, entries, |entries|);
    AnswersAgree(base, entries, run.out, stream, batch, clocks, landed);
  }

  lemma BatchAnswersAgree(t: Tables, stream: string, events: seq<Object>, batch: seq<Object>, clocks: seq<U64>,
                          stamps: seq<(U64, Object)>, out: seq<Committed>)
    requires Same(t, stream, events) && |batch| == |clocks| && batch != [] && Mem.AllValid(batch) && OneReading(clocks)
    requires |events| + |batch| <= U64_MAX
    requires stamps == OneClock(batch, clocks) && Writes.AppendMany(t, stream, stamps).1 == Ok(out)
    ensures AllLanded(out) == Mem.AppendTo(events, batch, clocks, |batch|).1
  {
    var entries := AppendEntries(stream, stamps);
    ManyReturnsRun(t, stream, stamps, out);
    MemAnswers(events, batch, clocks, |batch|);
    RunAnswersAgree(t, stream, NextSeq(t, stream), entries, InsertRun(t, NextSeq(t, stream), entries, |stamps|),
                    batch, clocks, Mem.AppendTo(events, batch, clocks, |batch|).1);
  }

  lemma BatchesAgree(t: Tables, stream: string, events: seq<Object>, batch: seq<Object>, clocks: seq<U64>)
    requires Same(t, stream, events) && |batch| == |clocks| && OneReading(clocks) && t.issued + |batch| <= I64_MAX
    ensures var d, m := RolledBack(Writes.AppendMany(t, stream, OneClock(batch, clocks))), Mem.AppendMany(events, batch, clocks);
      && (d.Ok? <==> m.Ok?)
      && (d.Err? ==> m.error == d.error)
      && (d.Ok? ==> Same(d.value.0, stream, m.value.0) && AllLanded(d.value.1) == m.value.1
                    && d.value.0.issued == t.issued + |batch|)
  {
    OneClockIsValid(batch, clocks);
    if Mem.AllValid(batch) {
      AppendManyIsPuts(t, stream, OneClock(batch, clocks));
      PutsArePushes(t, stream, events, batch, clocks, AppendEntries(stream, OneClock(batch, clocks)), |batch|);
      var stamps := OneClock(batch, clocks);
      if batch != [] {
        BatchAnswersAgree(t, stream, events, batch, clocks, stamps, Writes.AppendMany(t, stream, stamps).1.value);
      }
    }
  }

  // ---- reads ---------------------------------------------------------------

  predicate RowWanted(r: Row, kinds: Option<seq<string>>, from: I64) {
    r.seqNo >= from && (kinds.Some? ==> r.body.kind in kinds.value)
  }

  /** Selecting from the stream's rows and from its objects. */
  lemma SelectionsAgree(rows: seq<Row>, events: seq<Object>, kinds: Option<seq<string>>, from: Stored, limit: nat)
    requires |rows| == |events| && forall i :: 0 <= i < |rows| ==> AsObject(rows[i]) == events[i]
    ensures ObjectsOf(Limit(Pick(rows, (r: Row) => RowWanted(r, kinds, from)), limit)) == Mem.Project(events, kinds, from, limit)
      || limit > I64_MAX
    ensures ObjectsOf(Pick(rows, (r: Row) => RowWanted(r, kinds, from)))
      == Pick(events, (event: Object) => Mem.Wanted(event, kinds, from))
  {
    PickMapped(rows, events, AsObject, (r: Row) => RowWanted(r, kinds, from),
               (event: Object) => Mem.Wanted(event, kinds, from));
  }

  lemma StreamSelection(t: Tables, stream: string, events: seq<Object>, kinds: Option<seq<string>>, from: Stored)
    requires Same(t, stream, events)
    ensures OfStreamFrom(t.events, stream, kinds, from) == Pick(Mine(t, stream), (r: Row) => RowWanted(r, kinds, from))
  {
    PickWithin(t.events, (r: Row) => r.stream == stream, (r: Row) => RowWanted(r, kinds, from),
               (r: Row) => r.stream == stream && r.seqNo >= from && (kinds.Some? ==> r.body.kind in kinds.value));
    PickRising(Mine(t, stream), (r: Row) => RowWanted(r, kinds, from));
    OrderedStays(OfStream(t.events, stream, kinds, from));
  }

  lemma ReadsAgree(t: Tables, stream: string, events: seq<Object>, kinds: Option<seq<string>>, from: U64, limit: nat)
    requires Same(t, stream, events) && from <= I64_MAX
    ensures ObjectsOf(SelectStream(t, stream, kinds, from, limit)) == Mem.Project(events, kinds, from, limit)
  {
    StreamSelection(t, stream, events, kinds, from);
    SelectionsAgree(Mine(t, stream), events, kinds, from, limit);
    if kinds == Some([]) { PickNothing(events, (event: Object) => Mem.Wanted(event, kinds, from)); }
  }

  lemma {:induction false} TailsAgree(rows: seq<Row>, events: seq<Object>, d: nat)
    requires d <= |rows| == |events| && forall i :: 0 <= i < |rows| ==> AsObject(rows[i]) == events[i]
    ensures ObjectsOf(rows[d..]) == events[d..]
  {
    forall i | 0 <= i < |rows| - d ensures ObjectsOf(rows[d..])[i] == events[d..][i] { assert rows[d..][i] == rows[d + i]; }
  }

  lemma ReadLastIs(t: Tables, stream: string, n: nat)
    requires SeqRises(Mine(t, stream)) && |Mine(t, stream)| <= I64_MAX
    ensures var mine := Mine(t, stream); ReadLast(t, stream, n) == mine[if n < |mine| then |mine| - n else 0..]
  {
    var mine := Mine(t, stream);
    OrderedStays(mine);
    ReversedTail(mine, n);
    assert mine[0..] == mine;
  }

  lemma {:induction false} LastAgree(t: Tables, stream: string, events: seq<Object>, n: nat)
    requires Same(t, stream, events)
    ensures ObjectsOf(ReadLast(t, stream, n)) == Mem.ReadLast(events, n)
  {
    var mine := Mine(t, stream);
    ReadLastIs(t, stream, n);
    var d := if n < |mine| then |mine| - n else 0;
    TailsAgree(mine, events, d);
  }

  lemma HeadsAgree(t: Tables, stream: string, events: seq<Object>)
    requires Same(t, stream, events)
    ensures MaxSeq(Mine(t, stream)) == Mem.Head(events)
  {
    var rows := Mine(t, stream);
    if rows != [] { assert rows[|rows| - 1] in rows && AsObject(rows[|rows| - 1]) == events[|events| - 1]; }
  }

  // ---- the conversation ----------------------------------------------------

  /** What the two backends are promised to agree on: a clock that does not move
      inside a batch, and a read that starts in the signed range. */
  predicate Usual(request: Request) {
    && WellFormed(request)
    && (request.AppendMany? ==> OneReading(request.clocks))
    && (request.ReadKinds? ==> request.from <= I64_MAX)
  }

  /** With room below the position ceiling. */
  predicate Ordinary(t: Tables, request: Request) {
    Usual(request) && t.issued + Weight(request) <= I64_MAX
  }

  lemma RequestsAgree(t: Tables, stream: string, events: seq<Object>, request: Request)
    requires Same(t, stream, events) && Ordinary(t, request)
    ensures var (u, d) := Durable(t, stream, request);
      var (after, m) := InMemory(events, request);
      d == m && Same(u, stream, after) && u.issued <= t.issued + Weight(request)
  {
    match request
    case Append(event, clock) => AppendsAgree(t, stream, events, event, clock);
    case AppendMany(batch, clocks) => BatchesAgree(t, stream, events, batch, clocks);
    case AppendIf(kinds, decide, clock) =>
      ReadsAgree(t, stream, events, kinds, 0, U64_MAX);
      var decision := decide(Mem.Project(events, kinds, 0, U64_MAX));
      if decision.Some? { AppendsAgree(t, stream, events, decision.value, clock); }
    case ReadKinds(kinds, from, limit) => ReadsAgree(t, stream, events, kinds, from, limit);
    case ReadLastFew(n) => LastAgree(t, stream, events, n);
    case Head => HeadsAgree(t, stream, events);
    case Len =>
  }

  function DurableTo(t: Tables, stream: string, requests: seq<Request>, k: nat): (Tables, seq<Answer>)
    requires k <= |requests| && forall r <- requests :: WellFormed(r)
  {
    if k == 0 then (t, [])
    else
      var (before, answers) := DurableTo(t, stream, requests, k - 1);
      var (after, answer) := Durable(before, stream, requests[k - 1]);
      (after, answers + [answer])
  }

  function TotalWeight(requests: seq<Request>, k: nat): nat
    requires k <= |requests|
  {
    if k == 0 then 0 else TotalWeight(requests, k - 1) + Weight(requests[k - 1])
  }

  lemma {:induction false} WeightGrows(requests: seq<Request>, j: nat, k: nat)
    requires j <= k <= |requests|
    ensures TotalWeight(requests, j) <= TotalWeight(requests, k)
  {
    if j < k { WeightGrows(requests, j, k - 1); }
  }

  /** The in-memory store, which has no ceiling of its own to hit. */
  function InMemoryTo(events: seq<Object>, requests: seq<Request>, k: nat): (r: (seq<Object>, seq<Answer>))
    requires k <= |requests| && forall r <- requests :: WellFormed(r)
    requires |events| + TotalWeight(requests, k) <= U64_MAX
    ensures |r.0| <= |events| + TotalWeight(requests, k)
  {
    if k == 0 then (events, [])
    else
      var (before, answers) := InMemoryTo(events, requests, k - 1);
      InMemoryGrows(before, requests[k - 1]);
      var (after, answer) := InMemory(before, requests[k - 1]);
      (after, answers + [answer])
  }

  lemma InMemoryGrows(events: seq<Object>, request: Request)
    requires WellFormed(request) && |events| + Weight(request) <= U64_MAX
    ensures |InMemory(events, request).0| <= |events| + Weight(request)
  {}

  /** Both stores so far: the same answers, and the same events held. */
  ghost predicate Agreed(t: Tables, stream: string, durable: (Tables, seq<Answer>), memory: (seq<Object>, seq<Answer>), weight: nat) {
    durable.1 == memory.1 && Same(durable.0, stream, memory.0) && durable.0.issued <= t.issued + weight
  }

  lemma AgreedOn(t: Tables, stream: string, durable: (Tables, seq<Answer>), memory: (seq<Object>, seq<Answer>), weight: nat,
                 request: Request, more: nat)
    requires Agreed(t, stream, durable, memory, weight) && Usual(request)
    requires more == weight + Weight(request) && t.issued + more <= I64_MAX
    ensures |memory.0| + Weight(request) <= U64_MAX
    ensures var (u, d) := Durable(durable.0, stream, request);
      var (after, m) := InMemory(memory.0, request);
      Agreed(t, stream, (u, durable.1 + [d]), (after, memory.1 + [m]), more)
  {
    RequestsAgree(durable.0, stream, memory.0, request);
  }

  /** Backends agree: any conversation with one stream, from two stores that hold
      the same events, gets the same answers — accepted or refused, the same
      numbers, times and events — and leaves them holding the same again. */
  lemma {:induction false} BackendsAgree(t: Tables, stream: string, events: seq<Object>, requests: seq<Request>, k: nat)
    requires Same(t, stream, events) && k <= |requests|
    requires t.issued + TotalWeight(requests, |requests|) <= I64_MAX
    requires forall r <- requests :: WellFormed(r) && Usual(r)
    ensures |events| + TotalWeight(requests, k) <= U64_MAX
    ensures Agreed(t, stream, DurableTo(t, stream, requests, k), InMemoryTo(events, requests, k), TotalWeight(requests, k))
  {
    WeightGrows(requests, k, |requests|);
    if k > 0 {
      BackendsAgree(t, stream, events, requests, k - 1);
      assert requests[k - 1] in requests;
      AgreedOn(t, stream, DurableTo(t, stream, requests, k - 1), InMemoryTo(events, requests, k - 1),
               TotalWeight(requests, k - 1), requests[k - 1], TotalWeight(requests, k));
    }
  }

  /** Both start the same: a stream nobody has written to. */
  lemma NeverWrittenAgrees(t: Tables, stream: string)
    requires stream !in t.counters && forall r <- t.events :: r.stream != stream
    ensures Same(t, stream, [])
  {
    PickNothing(t.events, (r: Row) => r.stream == stream);
  }

  // ---- where they part -----------------------------------------------------

  /** Past the signed range the durable bound wraps and reads everything, while the
      list has nothing that high: the reads agree exactly when the bound is in
      range or there was nothing to read. */
  lemma BoundPastRangeParts(t: Tables, stream: string, events: seq<Object>, kinds: Option<seq<string>>, from: U64, limit: nat)
    requires Same(t, stream, events)
    ensures ObjectsOf(SelectStream(t, stream, kinds, from, limit)) == Mem.Project(events, kinds, from, limit)
      <==> from <= I64_MAX || limit == 0 || Mem.Project(events, kinds, 0, 1) == []
  {
    if from <= I64_MAX {
      ReadsAgree(t, stream, events, kinds, from, limit);
    } else {
      ReadsAgree(t, stream, events, kinds, 0, limit);
      assert OfStreamFrom(t.events, stream, kinds, ToI64(from)) == OfStreamFrom(t.events, stream, kinds, 0) by {
        PickSame(t.events, stream, kinds, ToI64(from));
      }
      forall event | event in events ensures !Mem.Wanted(event, kinds, from) {
        var i :| 0 <= i < |events| && events[i] == event;
        assert AsObject(Mine(t, stream)[i]) == event;
      }
      PickNothing(events, (event: Object) => Mem.Wanted(event, kinds, from));
    }
  }

  lemma {:induction false} PickSame(rows: seq<Row>, stream: string, kinds: Option<seq<string>>, from: I64)
    requires from < 0
    ensures OfStream(rows, stream, kinds, from) == OfStream(rows, stream, kinds, 0)
  {
    if rows != [] { PickSame(rows[..|rows| - 1], stream, kinds, from); }
  }

  /** A clock that moves inside a batch is told apart: the durable store stamps the
      whole batch with one reading, the list stamps each event with its own. */
  lemma TickingClockParts(t: Tables, stream: string, events: seq<Object>, batch: seq<Object>, clocks: seq<U64>)
    requires Same(t, stream, events) && |batch| == |clocks| && batch != [] && Mem.AllValid(batch)
    requires t.issued + |batch| <= I64_MAX
    ensures Durable(t, stream, AppendMany(batch, clocks)).1 == InMemory(events, AppendMany(batch, clocks)).1
      <==> OneReading(clocks)
  {
    if OneReading(clocks) {
      BatchesAgree(t, stream, events, batch, clocks);
    } else {
      var once := seq(|clocks|, i => clocks[0]);
      assert OneClock(batch, clocks) == OneClock(batch, once);
      BatchesAgree(t, stream, events, batch, once);
      MemAnswers(events, batch, once, |batch|);
      MemAnswers(events, batch, clocks, |batch|);
      var i :| 0 <= i < |clocks| && clocks[i] != clocks[0];
      assert Mem.AppendTo(events, batch, once, |batch|).1[i] != Mem.AppendTo(events, batch, clocks, |batch|).1[i];
    }
  }
}
