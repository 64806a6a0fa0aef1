/** What a caller may rely on in any reachable state. */
module Guarantees {
  import opened Wrappers
  import opened Event
  import opened Rows
  import opened Filters
  import opened Database
  import opened Writes
  import opened Retention
  import opened History
  import opened Routes
  import opened Hatch
  import opened World
  import opened Numbering

  lemma NumbersRise(w: World, i: nat, j: nat)
    requires Holds(w) && i < j < |w.hist| && w.hist[i].stream == w.hist[j].stream
    ensures w.hist[i].seqNo < w.hist[j].seqNo
  {
    assert NumberedAt(w.hist, i) && NumberedAt(w.hist, j);
    CountThrough(w.hist, i, w.hist[i].stream);
    CountMonotone(w.hist[..j], i + 1, w.hist[i].stream);
    assert w.hist[..j][..i + 1] == w.hist[..i + 1];
  }

  /** No position is ever issued twice, whatever has been removed since and
      whatever closures did; no (stream, seq) pair either while the history holds. */
  lemma NothingIsReissued(ops: seq<Op>, k: nat, i: nat, j: nat)
    requires k <= |ops| && i < j < |Run(Fresh, ops, k).hist|
    ensures var w := Run(Fresh, ops, k);
      && w.hist[i].position < w.hist[j].position
      && (Holds(w) && w.hist[i].stream == w.hist[j].stream ==> w.hist[i].seqNo < w.hist[j].seqNo)
  {
    LogAlwaysHolds(ops, k);
    var w := Run(Fresh, ops, k);
    if Holds(w) && w.hist[i].stream == w.hist[j].stream { NumbersRise(w, i, j); }
  }

  /** The numbers a stream was ever given are exactly 1 to its counter. */
  lemma StreamNumbersAreExact(w: World, stream: string, n: nat)
    requires Holds(w)
    ensures (exists r <- w.hist :: r.stream == stream && r.seqNo == n) <==> 1 <= n < NextSeq(w.t, stream)
  {
    assert NextSeq(w.t, stream) == Count(w.hist, stream) + 1;
    assert w.hist[..|w.hist|] == w.hist;
    if 1 <= n < NextSeq(w.t, stream) { NumberIsIssued(w.hist, |w.hist|, stream, n); }
    if r :| r in w.hist && r.stream == stream && r.seqNo == n {
      var i :| 0 <= i < |w.hist| && w.hist[i] == r;
      SeqWithinCount(w.hist, i);
    }
  }

  lemma LiveNumbersRise(w: World, r: Row, q: Row)
    requires Holds(w) && r in w.t.events && q in w.t.events && r.stream == q.stream && r.position < q.position
    ensures r.seqNo < q.seqNo
  {
    NumbersRise(w, r.position - 1, q.position - 1);
  }

  /** While the history holds a stream's rows rise in sequence as they stand, so
      reading them `ORDER BY seq` is reading them in position order. */
  lemma StreamReadIsInSeqOrder(w: World, stream: string, kinds: Option<seq<string>>, from: I64)
    requires Holds(w)
    ensures var rows := OfStream(w.t.events, stream, kinds, from);
      SeqRises(rows) && Sorted(rows) && OfStreamFrom(w.t.events, stream, kinds, from) == rows
  {
    var rows := OfStream(w.t.events, stream, kinds, from);
    PickSorted(w.t.events, (r: Row) => r.stream == stream && r.seqNo >= from && (kinds.Some? ==> r.body.kind in kinds.value));
    forall i, j | 0 <= i < j < |rows| ensures rows[i].seqNo < rows[j].seqNo {
      assert rows[i] in rows && rows[j] in rows;
      LiveNumbersRise(w, rows[i], rows[j]);
    }
    OrderedStays(rows);
  }

  /** Nothing ever committed above `from` has been removed. */
  ghost predicate AllThereAbove(w: World, from: nat) {
    forall r <- w.hist :: r.position > from ==> r in w.t.events
  }

  /** What an answer about completeness says of history: everything past `from` is
      there, or the position it names is the last that is not. */
  ghost predicate SaysOf(w: World, from: nat, answer: Completeness) {
    match answer
    case Complete => AllThereAbove(w, from)
    case Incomplete(last) =>
      from < last <= |w.hist| && w.hist[last - 1] !in w.t.events && AllThereAbove(w, last)
  }

  lemma VouchedExactly(w: World, from: nat)
    requires LogHolds(w)
    ensures from >= Watermark(w.t) <==> AllThereAbove(w, from)
    ensures SaysOf(w, from, CompletenessFrom(w.t, from))
  {
    var mark: nat := Watermark(w.t);
    if from < mark { assert w.hist[mark - 1] in w.hist; }
  }

  /** Completeness is exact in every state of every run: a fold from `from` is
      vouched for precisely when every event ever committed above it is still
      there, and otherwise told the last position that is gone. */
  lemma CompletenessIsExact(ops: seq<Op>, k: nat, from: nat)
    requires k <= |ops|
    ensures var w := Run(Fresh, ops, k);
      && (CompletenessFrom(w.t, from) == Complete <==> AllThereAbove(w, from))
      && SaysOf(w, from, CompletenessFrom(w.t, from))
  {
    LogAlwaysHolds(ops, k);
    VouchedExactly(Run(Fresh, ops, k), from);
  }

  lemma AppendAnswers(w: World, stream: string, event: Object, clock: U64)
    requires Holds(w) && Valid(event) && w.t.issued < I64_MAX
    ensures Append(w.t, stream, event, clock).Ok?
    ensures Append(w.t, stream, event, clock).value.1 == Committed(NextSeq(w.t, stream), clock, w.t.issued + 1)
  {
    AppendIsPut(w.t, stream, event, clock);
    StampedBodyIs(event, 1, clock);
    PutKeeps(w.t, w.hist, stream, StampedBody(event, clock));
  }

  /** An expected head is a claim about everything ever appended to the stream,
      not about the rows that survive. */
  lemma ExpectedSpeaksAboutHistory(w: World, stream: string, expected: Expected, event: Object, clock: U64)
    requires Holds(w) && Valid(event) && w.t.issued < I64_MAX
    ensures var answer := AppendExpecting(w.t, stream, expected, event, clock);
      var ever := Count(w.hist, stream);
      && (answer.Ok? <==> if expected.Unwritten? then ever == 0 else expected.n >= 1 && ever == expected.n)
      && (answer.Err? ==> answer.error.HeadMismatch? && answer.error.actual == ever)
      && (answer.Ok? ==> answer.value.1 == Committed(ever + 1, clock, w.t.issued + 1))
  {
    assert NextSeq(w.t, stream) == Count(w.hist, stream) + 1;
    AppendAnswers(w, stream, event, clock);
  }

  /** An append that goes into a log nothing was removed from found a counter that
      does not lag. */
  lemma AppendFindsCount(w: World, stream: string, event: Object, clock: U64)
    requires LogHolds(w) && NumbersHold(w) && FrontIsLive(w, |w.hist|)
    requires Append(w.t, stream, event, clock).Ok?
    ensures NextSeq(w.t, stream) == Count(w.hist, stream) + 1
    ensures Append(w.t, stream, event, clock).value.1 == Committed(Count(w.hist, stream) + 1, clock, w.t.issued + 1)
  {
    var body := StampedBody(event, clock);
    WholeLags(w);
    AppendIsPut(w.t, stream, event, clock);
    assert NextSeq(w.t, stream) <= Count(w.t.events, stream) + 1;
    GoesInAtNext(w.t, stream, NextSeq(w.t, stream), body);
  }

  /** In any run, whatever closures swallowed, while nothing has been removed: a
      commit means the expectation was true of everything ever appended, for a
      counter that lags is refused by `UNIQUE (stream, seq)`. */
  lemma CommitMeansExpected(ops: seq<Op>, k: nat, stream: string, expected: Expected, event: Object, clock: U64)
    requires k <= |ops| && AllThereAbove(Run(Fresh, ops, k), 0)
    requires AppendExpecting(Run(Fresh, ops, k).t, stream, expected, event, clock).Ok?
    ensures var w := Run(Fresh, ops, k);
      var ever := Count(w.hist, stream);
      && (if expected.Unwritten? then ever == 0 else ever == expected.n >= 1)
      && AppendExpecting(w.t, stream, expected, event, clock).value.1 == Committed(ever + 1, clock, w.t.issued + 1)
  {
    var w := Run(Fresh, ops, k);
    LogAlwaysHolds(ops, k);
    NumbersAlwaysHold(ops, k);
    forall i | 0 <= i < |w.hist| ensures w.hist[i] in w.t.events { assert w.hist[i] in w.hist; }
    assert FrontIsLive(w, |w.hist|);
    AppendFindsCount(w, stream, event, clock);
  }

  /** Below the ceiling every append of a valid event succeeds: `UNIQUE (stream,
      seq)` never refuses one. */
  lemma ValidAppendsSucceed(w: World, stream: string, event: Object, clock: U64)
    requires Holds(w)
    ensures Append(w.t, stream, event, clock).Ok? <==> Valid(event) && w.t.issued < I64_MAX
  {
    AppendIsPut(w.t, stream, event, clock);
    if Valid(event) {
      StampedBodyIs(event, 1, clock);
      PutKeeps(w.t, w.hist, stream, StampedBody(event, clock));
    }
  }

  // ---- where the hypothesis on closures is needed --------------------------

  const GOOD: Object := map[KIND := Str("k"), EPOCH_MS := Unsigned(0), SCHEMA_VERSION := Unsigned(1)]

  /** A closure that swallows the error of a half-done import commits a row its
      stream's counter does not know of. */
  lemma SwallowedImportBreaks()
    ensures var call := ImportCall([Exported("s", None, GOOD), Exported("s", None, map[])], true);
      Transaction(Empty, [call]).Ok? && Breaks(Empty, [call], 1)
  {
    var call := ImportCall([Exported("s", None, GOOD), Exported("s", None, map[])], true);
    assert RunCalls(Empty, [call], 0) == (Empty, Ok([]));
    assert !ValidStored(call.list[1].event) && call.list[1] in call.list;
    assert LeavesRows(Empty, call);
    assert BreaksAt(Empty, [call], 0);
    assert Inv(Empty, []);
    CallEndsOf(Empty, [], call);
    var left := CallIn(Empty, call);
    assert left.1.Err?;
    assert RunCalls(Empty, [call], 1) == (left.0, Ok([]));
  }

  lemma ForcedRemoval(t: Tables, plan: Plan, r: Row)
    requires plan.Refusal().None? && r in t.events && plan.Selects(r)
    ensures var freed := Exec(t, Retain(plan, Force, false));
      freed.events == Spared(t, plan) && freed.counters == t.counters && freed.issued == t.issued
  {
    assert r in Doomed(t, plan);
  }

  /** Such a stream refuses every append while the row is there; once the row is
      removed, the number it had is handed out again. */
  lemma StrandedNumberIsReissued(t: Tables, stream: string, plan: Plan, event: Object, clock: U64)
    requires Stuck(t, stream) && Valid(event) && t.issued < I64_MAX && NextSeq(t, stream) <= I64_MAX
    requires plan.Refusal().None? && forall r <- t.events :: r.stream == stream ==> plan.Selects(r)
    ensures Append(t, stream, event, clock).Err?
    ensures var freed := Exec(t, Retain(plan, Force, false));
      && Append(freed, stream, event, clock).Ok?
      && Taken(t, stream, Append(freed, stream, event, clock).value.1.seqNo)
  {
    var freed := Exec(t, Retain(plan, Force, false));
    var r :| r in t.events && r.stream == stream && r.seqNo == NextSeq(t, stream);
    ForcedRemoval(t, plan, r);
    assert !Taken(freed, stream, NextSeq(t, stream));
    AppendIsPut(t, stream, event, clock);
    AppendIsPut(freed, stream, event, clock);
  }
}
