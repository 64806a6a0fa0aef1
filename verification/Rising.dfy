/** Every transaction of every run leaves a state the log has grown to. */
module Rising {
  import opened Wrappers
  import opened Event
  import opened Rows
  import opened Database
  import opened Writes
  import opened Retention
  import opened History
  import opened Routes
  import opened World
  import opened Growth

  lemma AppendGrows(t: Tables, stream: string, event: Object, clock: U64)
    requires Ordinary(t) && Append(t, stream, event, clock).Ok?
    ensures GrowsTo(t, Append(t, stream, event, clock).value.0)
  {
    var stamped := Stamp(event, NextSeq(t, stream), clock).value;
    InsertStampedGrows(t, stream, stamped);
    SameRowsGrow(t, InsertStamped(t, stream, stamped).value.0, Append(t, stream, event, clock).value.0);
  }

  lemma CommitGrows(t: Tables, write: Write)
    requires Ordinary(t)
    ensures GrowsTo(t, Exec(t, Commit(write)))
  {
    if WriteStep(t, write).Ok? {
      match write {
        case AppendOne(stream, event, clock) => AppendGrows(t, stream, event, clock);
        case AppendBatch(stream, events) => CallGrows(t, AppendCall(stream, events, false));
        case Decide(stream, kinds, decide, clock) =>
          var seen := ObjectsOf(SelectStream(t, stream, kinds, 0, U64_MAX));
          if decide(seen).Some? { AppendGrows(t, stream, decide(seen).value, clock); }
        case Expecting(stream, _, event, clock) => AppendGrows(t, stream, event, clock);
        case Closure(calls) => CallsGrow(t, calls, |calls|);
      }
    }
  }

  lemma RemovalGrows(t: Tables, plan: Plan, guard: Guard, archived: bool)
    requires Ordinary(t)
    ensures GrowsTo(t, Exec(t, Retain(plan, guard, archived)))
  {
    RemovalIs(t, plan, guard, archived);
    PickSorted(t.events, (r: Row) => !plan.Selects(r));
  }

  lemma UntouchedGrows(t: Tables, op: Op)
    requires Ordinary(t) && !op.Commit? && !op.Retain?
    ensures GrowsTo(t, Exec(t, op))
  {
    OtherOpsKeepLog(t, op);
    SameRowsGrow(t, t, Exec(t, op));
  }

  /** Every transaction leaves a state the log has grown to. This asks nothing of
      the closures: one that breaks the counters still only adds at the end. */
  lemma {:induction false} OpGrows(t: Tables, op: Op)
    requires Ordinary(t)
    ensures GrowsTo(t, Exec(t, op))
  {
    match op {
      case Commit(write) => CommitGrows(t, write);
      case Retain(plan, guard, archived) => RemovalGrows(t, plan, guard, archived);
      case _ => UntouchedGrows(t, op);
    }
  }

  lemma {:induction false} RunGrows(w: World, ops: seq<Op>, i: nat, j: nat)
    requires Ordinary(w.t) && i <= j <= |ops|
    ensures GrowsTo(Run(w, ops, i).t, Run(w, ops, j).t)
  {
    if i < j {
      RunGrows(w, ops, i, j - 1);
      OpGrows(Run(w, ops, j - 1).t, ops[j - 1]);
      GrowsOn(Run(w, ops, i).t, Run(w, ops, j - 1).t, Run(w, ops, j).t);
    } else if j > 0 {
      RunGrows(w, ops, j - 1, j);
    }
  }

  /** The states of a run, before and after each transaction. */
  function States(ops: seq<Op>): (log: seq<Tables>)
    ensures |log| == |ops| + 1
  {
    seq(|ops| + 1, k requires 0 <= k <= |ops| => Run(Fresh, ops, k).t)
  }

  lemma RunIsGrowing(ops: seq<Op>)
    ensures Growing(States(ops))
  {
    var log := States(ops);
    forall i, j | 0 <= i <= j < |log| ensures GrowsTo(log[i], log[j]) { RunGrows(Fresh, ops, i, j); }
  }

  // ---- a plan by position cannot grow --------------------------------------

  lemma {:induction false} LongerThanAll(names: set<string>) returns (n: nat)
    ensures forall name <- names :: |name| < n
    decreases |names|
  {
    if names == {} {
      n := 0;
    } else {
      var name :| name in names;
      var m := LongerThanAll(names - {name});
      n := Max(m, |name| + 1);
    }
  }

  /** There is always a stream nobody has written to. */
  lemma UnwrittenStream(t: Tables) returns (stream: string)
    ensures NextSeq(t, stream) == 1 && !Taken(t, stream, 1)
  {
    var names := t.counters.Keys + set r | r in t.events :: r.stream;
    var n := LongerThanAll(names);
    stream := seq(n, _ => 'a');
    assert stream !in names;
  }

  /** Below the ceiling some append goes in at the next position. */
  lemma SomeAppendGoesIn(t: Tables) returns (write: Write)
    requires t.issued < I64_MAX
    ensures var u := Exec(t, Commit(write)); exists r <- u.events :: r.position == t.issued + 1
  {
    var stream := UnwrittenStream(t);
    var event: Object := map[KIND := Str("k")];
    write := AppendOne(stream, event, 0);
    AppendIsPut(t, stream, event, 0);
    PutIs(t, stream, StampedBody(event, 0));
    var u := Exec(t, Commit(write));
    assert u.events[|t.events|] == NewRow(t, stream, StampedBody(event, 0));
  }

  /** What the plan selects later was there before. */
  ghost predicate SelectsOnlyOld(bound: Stored, t: Tables, u: Tables) {
    forall r <- u.events :: Before(bound).Selects(r) ==> r in t.events
  }

  /** In no state a run from here reaches does the plan select a new row. */
  ghost predicate CannotGrow(bound: Stored, w: World) {
    forall later: seq<Op>, k: nat :: k <= |later| ==> SelectsOnlyOld(bound, w.t, Run(w, later, k).t)
  }

  /** No plan by position can grow while a reader works towards it, whatever
      transactions come later, exactly when its bound has been issued already:
      above that the very next append may fall below the bound. */
  lemma BeforeCannotGrow(w: World, bound: Stored)
    requires Ordinary(w.t)
    ensures CannotGrow(bound, w) <==> bound <= w.t.issued
  {
    if bound <= w.t.issued {
      forall later: seq<Op>, k: nat | k <= |later| ensures SelectsOnlyOld(bound, w.t, Run(w, later, k).t) {
        RunGrows(w, later, 0, k);
        assert Run(w, later, 0) == w;
      }
    } else {
      var write := SomeAppendGoesIn(w.t);
      var later := [Commit(write)];
      assert Run(w, later, 1) == Then(w, later[0]) by { assert Run(w, later, 0) == w; }
      assert !SelectsOnlyOld(bound, w.t, Run(w, later, 1).t);
    }
  }
}
