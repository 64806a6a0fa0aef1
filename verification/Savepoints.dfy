/** Savepoints. A closure holds the raw transaction besides its calls, and may set a
    savepoint on it and roll back to it. The tables then are those of the calls that
    were not rolled back; the buffered positions still name the ones that were. */
module Savepoints {
  import opened Wrappers
  import opened Event
  import opened Rows
  import opened Database
  import opened Writes
  import opened History
  import opened Routes
  import opened Hatch
  import opened World
  import opened Announce

  /** A savepoint is named by its place among those set and not released. */
  datatype Step = Do(call: Call) | Savepoint | RollbackTo(n: nat) | Release(n: nat)

  /** What a rollback to a savepoint returns to. */
  datatype Saved = Saved(t: Tables, kept: seq<Committed>)

  /** A closure under way. `out` is all its calls returned, which is what it buffers;
      `kept` and `lost` are history: the part that still stands, and the rest. */
  datatype Within = Within(
    t: Tables, saved: seq<Saved>, out: seq<Committed>, kept: seq<Committed>, lost: seq<Committed>, failed: Option<Error>)

  function Begun(t: Tables): Within { Within(t, [], [], [], [], None) }

  function Dropped(kept: seq<Committed>, back: seq<Committed>): seq<Committed> {
    if back <= kept then kept[|back|..] else []
  }

  function Next(s: Within, step: Step): Within {
    if s.failed.Some? then s
    else
      match step
      case Do(call) =>
        var (after, answer) := CallIn(s.t, call);
        (match answer
         case Ok(committed) => s.(t := after, out := s.out + committed, kept := s.kept + committed)
         case Err(error) => s.(t := after, failed := if call.swallows then None else Some(error)))
      case Savepoint => s.(saved := s.saved + [Saved(s.t, s.kept)])
      case RollbackTo(n) =>
        if n >= |s.saved| then s
        else
          s.(t := s.saved[n].t, kept := s.saved[n].kept, lost := s.lost + Dropped(s.kept, s.saved[n].kept),
             saved := s.saved[..n + 1])
      case Release(n) => if n >= |s.saved| then s else s.(saved := s.saved[..n])
  }

  function After(t: Tables, steps: seq<Step>, k: nat): Within
    requires k <= |steps|
  {
    if k == 0 then Begun(t) else Next(After(t, steps, k - 1), steps[k - 1])
  }

  // ---- the calls that stand ------------------------------------------------

  /** The calls not rolled back, and how many there were at each savepoint. */
  datatype Standing = Standing(calls: seq<Call>, marks: seq<nat>)

  function NextStanding(s: Standing, step: Step): Standing {
    match step
    case Do(call) => s.(calls := s.calls + [call])
    case Savepoint => s.(marks := s.marks + [|s.calls|])
    case RollbackTo(n) =>
      if n < |s.marks| && s.marks[n] <= |s.calls| then Standing(s.calls[..s.marks[n]], s.marks[..n + 1]) else s
    case Release(n) => if n < |s.marks| then s.(marks := s.marks[..n]) else s
  }

  function StandingAfter(steps: seq<Step>, k: nat): Standing
    requires k <= |steps|
  {
    if k == 0 then Standing([], []) else NextStanding(StandingAfter(steps, k - 1), steps[k - 1])
  }

  lemma {:induction false} CallsPrefix(t: Tables, a: seq<Call>, b: seq<Call>, k: nat)
    requires k <= |a| && a <= b
    ensures RunCalls(t, a, k) == RunCalls(t, b, k)
  {
    if k > 0 { CallsPrefix(t, a, b, k - 1); }
  }

  /** A closure that has not ended had not ended before, and its answer has grown. */
  lemma {:induction false} AnswerGrows(t: Tables, calls: seq<Call>, j: nat, k: nat)
    requires j <= k <= |calls| && RunCalls(t, calls, k).1.Ok?
    ensures RunCalls(t, calls, j).1.Ok? && RunCalls(t, calls, j).1.value <= RunCalls(t, calls, k).1.value
  {
    if j < k { AnswerGrows(t, calls, j, k - 1); }
  }

  ghost predicate MarkIs(t: Tables, s: Within, standing: Standing, i: nat)
    requires i < |s.saved| == |standing.marks|
  {
    standing.marks[i] <= |standing.calls|
    && RunCalls(t, standing.calls, standing.marks[i]) == (s.saved[i].t, Ok(s.saved[i].kept))
  }

  /** The closure stands where its standing calls alone would have brought it, and so
      does every savepoint. */
  ghost predicate Stands(t: Tables, s: Within, standing: Standing) {
    && |s.saved| == |standing.marks|
    && RunCalls(t, standing.calls, |standing.calls|) == (s.t, Ok(s.kept))
    && (forall i, j :: 0 <= i <= j < |standing.marks| ==> standing.marks[i] <= standing.marks[j])
    && (forall i :: 0 <= i < |s.saved| ==> MarkIs(t, s, standing, i))
  }

  lemma CallStands(t: Tables, s: Within, standing: Standing, call: Call)
    requires Stands(t, s, standing) && s.failed.None? && Next(s, Do(call)).failed.None?
    ensures Stands(t, Next(s, Do(call)), NextStanding(standing, Do(call)))
  {
    var u, calls := Next(s, Do(call)), standing.calls + [call];
    CallsPrefix(t, standing.calls, calls, |standing.calls|);
    OneMoreCall(t, calls, |standing.calls|, |calls|);
    forall i | 0 <= i < |u.saved| ensures MarkIs(t, u, NextStanding(standing, Do(call)), i) {
      assert MarkIs(t, s, standing, i);
      CallsPrefix(t, standing.calls, calls, standing.marks[i]);
    }
  }

  lemma SavepointStands(t: Tables, s: Within, standing: Standing)
    requires Stands(t, s, standing) && s.failed.None?
    ensures Stands(t, Next(s, Savepoint), NextStanding(standing, Savepoint))
  {
    var u, next := Next(s, Savepoint), NextStanding(standing, Savepoint);
    forall i | 0 <= i < |standing.marks| ensures standing.marks[i] <= |standing.calls| { assert MarkIs(t, s, standing, i); }
    forall i | 0 <= i < |u.saved| ensures MarkIs(t, u, next, i) {
      if i < |s.saved| { assert MarkIs(t, s, standing, i); }
    }
  }

  lemma RollbackStands(t: Tables, s: Within, standing: Standing, n: nat)
    requires Stands(t, s, standing) && s.failed.None? && n < |s.saved|
    ensures Stands(t, Next(s, RollbackTo(n)), NextStanding(standing, RollbackTo(n)))
  {
    assert MarkIs(t, s, standing, n);
    var u, next := Next(s, RollbackTo(n)), NextStanding(standing, RollbackTo(n));
    CallsPrefix(t, next.calls, standing.calls, |next.calls|);
    forall i | 0 <= i < |u.saved| ensures MarkIs(t, u, next, i) {
      assert MarkIs(t, s, standing, i) && standing.marks[i] <= standing.marks[n];
      CallsPrefix(t, next.calls, standing.calls, next.marks[i]);
    }
  }

  lemma ReleaseStands(t: Tables, s: Within, standing: Standing, n: nat)
    requires Stands(t, s, standing) && s.failed.None?
    ensures Stands(t, Next(s, Release(n)), NextStanding(standing, Release(n)))
  {
    var u, next := Next(s, Release(n)), NextStanding(standing, Release(n));
    forall i | 0 <= i < |u.saved| ensures MarkIs(t, u, next, i) { assert MarkIs(t, s, standing, i); }
  }

  lemma {:induction false} AlwaysStands(t: Tables, steps: seq<Step>, k: nat)
    requires k <= |steps| && After(t, steps, k).failed.None?
    ensures Stands(t, After(t, steps, k), StandingAfter(steps, k))
  {
    if k > 0 {
      AlwaysStands(t, steps, k - 1);
      var s, standing := After(t, steps, k - 1), StandingAfter(steps, k - 1);
      match steps[k - 1]
      case Do(call) => CallStands(t, s, standing, call);
      case Savepoint => SavepointStands(t, s, standing);
      case RollbackTo(n) => if n < |s.saved| { RollbackStands(t, s, standing, n); }
      case Release(n) => ReleaseStands(t, s, standing, n);
    }
  }

  /** A closure with savepoints commits what the closure of its standing calls would:
      whatever is proved of the tables a closure leaves holds of it too. */
  lemma SavepointsLeaveStandingCalls(t: Tables, steps: seq<Step>)
    requires After(t, steps, |steps|).failed.None?
    ensures var s := After(t, steps, |steps|);
      Transaction(t, StandingAfter(steps, |steps|).calls) == Ok((s.t, s.kept))
  {
    AlwaysStands(t, steps, |steps|);
  }

  // ---- what is announced ---------------------------------------------------

  lemma DroppedJoins(kept: seq<Committed>, back: seq<Committed>)
    requires back <= kept
    ensures Highest(kept) == Max(Highest(back), Highest(Dropped(kept, back)))
  {
    assert back + kept[|back|..] == kept;
    HighestConcat(back, kept[|back|..]);
  }

  /** What was buffered is what stands and what was lost. */
  ghost predicate Split(s: Within) { Highest(s.out) == Max(Highest(s.kept), Highest(s.lost)) }

  lemma StepSplits(t: Tables, s: Within, standing: Standing, step: Step)
    requires Split(s) && Stands(t, s, standing) && s.failed.None?
    ensures Split(Next(s, step))
  {
    match step
    case Do(call) =>
      if CallIn(s.t, call).1.Ok? {
        HighestConcat(s.out, CallIn(s.t, call).1.value);
        HighestConcat(s.kept, CallIn(s.t, call).1.value);
      }
    case RollbackTo(n) =>
      if n < |s.saved| {
        assert MarkIs(t, s, standing, n);
        AnswerGrows(t, standing.calls, standing.marks[n], |standing.calls|);
        DroppedJoins(s.kept, s.saved[n].kept);
        HighestConcat(s.lost, Dropped(s.kept, s.saved[n].kept));
      }
    case _ =>
  }

  lemma {:induction false} AlwaysSplit(t: Tables, steps: seq<Step>, k: nat)
    requires k <= |steps| && After(t, steps, k).failed.None?
    ensures Split(After(t, steps, k))
  {
    if k > 0 {
      AlwaysSplit(t, steps, k - 1);
      AlwaysStands(t, steps, k - 1);
      StepSplits(t, After(t, steps, k - 1), StandingAfter(steps, k - 1), steps[k - 1]);
    }
  }

  /** A closure with savepoints publishes nothing that was not issued exactly when the
      log has grown back to every position its rollbacks gave up. */
  lemma LostPositionsAreAnnounced(t: Tables, steps: seq<Step>)
    requires After(t, steps, |steps|).failed.None?
    ensures var s := After(t, steps, |steps|);
      Highest(s.out) <= s.t.issued <==> Highest(s.lost) <= s.t.issued
    ensures After(t, steps, |steps|).lost == [] ==>
      Highest(After(t, steps, |steps|).out) <= After(t, steps, |steps|).t.issued
  {
    AlwaysStands(t, steps, |steps|);
    AlwaysSplit(t, steps, |steps|);
    var calls := StandingAfter(steps, |steps|).calls;
    ClosureAnnouncesIssued(t, calls, |calls|);
  }

  const UNDONE: Call := AppendCall("s", [(0, map[KIND := Str("k")])], false)

  /** The input: an append rolled back to a savepoint. Its position is published over
      an empty log, and the commit that is given it next wakes nobody. */
  lemma RolledBackPositionIsPublished()
    ensures var s := After(Empty, [Savepoint, Do(UNDONE), RollbackTo(0)], 3);
      && s.failed.None? && s.t == Empty && Highest(s.out) == 1
      && var watch := Watch(0, 0).Publish(Highest(s.out));
         Announced(s.t, Closure([UNDONE])) == Some(1) && watch.Publish(1) == watch
  {
    var steps := [Savepoint, Do(UNDONE), RollbackTo(0)];
    var event: Object := map[KIND := Str("k")];
    assert Valid(event) && UNDONE.events[0].1 == event;
    UndoneGoesIn();
    var begun := Begun(Empty);
    assert After(Empty, steps, 0) == begun;
    assert After(Empty, steps, 1) == Next(begun, Savepoint);
    assert After(Empty, steps, 2) == Next(After(Empty, steps, 1), Do(UNDONE));
    assert After(Empty, steps, 3) == Next(After(Empty, steps, 2), RollbackTo(0));
  }

  lemma ClosureOfOne(t: Tables, call: Call)
    requires CallIn(t, call).1.Ok?
    ensures Returned(t, Closure([call])) == CallIn(t, call).1.value
  {
    assert RunCalls(t, [call], 0) == (t, Ok([]));
    assert RunCalls(t, [call], 1) == CallAnother((t, Ok([])), call);
    assert [] + CallIn(t, call).1.value == CallIn(t, call).1.value;
  }

  lemma UndoneGoesIn()
    ensures CallIn(Empty, UNDONE).1.Ok? && CallIn(Empty, UNDONE).1.value != []
    ensures Highest(CallIn(Empty, UNDONE).1.value) == 1
    ensures Announced(Empty, Closure([UNDONE])) == Some(1)
  {
    var entries := AppendEntries("s", UNDONE.events);
    assert InsertRun(Empty, 1, entries, 0) == Inserting(Empty, [], None);
    assert InsertRun(Empty, 1, entries, 1) == InsertNext(Inserting(Empty, [], None), 1, entries[0]);
    var out := CallIn(Empty, UNDONE).1.value;
    assert |out| == 1 && out[0].position == 1 && out[..0] == [];
    ClosureOfOne(Empty, UNDONE);
  }
}
