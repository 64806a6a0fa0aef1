/** Following: a runner that catches up, waits for the published position to
    change, and catches up again, while commits land in any order and announce
    themselves late. */
module Follow {
  import opened Wrappers
  import opened Event
  import opened Rows
  import opened Filters
  import opened Database
  import opened Writes
  import opened Retention
  import opened Projections
  import opened History
  import opened World
  import opened Growth
  import opened Rising
  import opened ExactlyOnce
  import opened Announce
  import Whole = CatchUp

  datatype Phase = Marking | CatchingUp | Parked | Ended

  /** `late` holds the announcements of commits that are in but not published.
      `marked` and `looked` are history: the value when the runner last marked the
      channel as seen, and the last position issued at its last batch. */
  datatype Following = Following(
    w: World, watch: Watch, late: seq<nat>, phase: Phase, seen: nat, marked: nat, looked: nat)

  datatype Move =
    | Transact(op: Op, here: bool)
    | Publish(i: nat)
    | Mark
    | Round
    | Wake

  function Announcements(t: Tables, op: Op, here: bool): seq<nat> {
    if here && op.Commit? && Announced(t, op.write).Some? then [Announced(t, op.write).value] else []
  }

  function Removed(late: seq<nat>, i: nat): (rest: seq<nat>)
    requires i < |late|
    ensures forall x :: x in late <==> x in rest || x == late[i]
  {
    assert late == late[..i] + [late[i]] + late[i + 1..];
    late[..i] + late[i + 1..]
  }

  /** One move of the runner, of a writer, or of a publisher. A commit is announced
      if its writer is in this process (`here`) and is not a detached append. A
      wake is the channel or the poll interval, so it is always possible while
      parked. */
  function Next(f: Following, p: Projection, batch: nat, move: Move): Following {
    match move
    case Transact(op, here) =>
      f.(w := Then(f.w, op), late := f.late + Announcements(f.w.t, op, here))
    case Publish(i) =>
      if i < |f.late| then f.(watch := f.watch.Publish(f.late[i]), late := Removed(f.late, i)) else f
    case Mark =>
      if f.phase == Marking then f.(phase := CatchingUp, seen := f.watch.version, marked := f.watch.value) else f
    case Round =>
      if f.phase == CatchingUp then AfterRound(f, p, batch) else f
    case Wake =>
      if f.phase == Parked then f.(phase := Marking) else f
  }

  /** One batch of the catch-up: it ends the follow, goes on, or parks it. */
  function AfterRound(f: Following, p: Projection, batch: nat): Following {
    match RunOnce(f.w.t, p, batch)
    case Err(_) => f.(phase := Ended)
    case Ok((_, applied)) =>
      f.(w := Then(f.w, Batch(p, batch)), looked := f.w.t.issued,
         phase := if applied == 0 then Parked else CatchingUp)
  }

  /** A handle just opened on a log, new or not: the channel is seeded with the head
      and nothing is on its way to it. */
  ghost predicate Opened(f: Following) {
    f.phase == Marking && f.late == [] && f.watch.value == Head(f.w.t)
  }

  function After(start: Following, p: Projection, batch: nat, moves: seq<Move>, k: nat): Following
    requires k <= |moves|
  {
    if k == 0 then start else Next(After(start, p, batch, moves, k - 1), p, batch, moves[k - 1])
  }

  lemma OneMoreMove(start: Following, p: Projection, batch: nat, moves: seq<Move>, j: nat, k: nat)
    requires k == j + 1 <= |moves|
    ensures After(start, p, batch, moves, k) == Next(After(start, p, batch, moves, j), p, batch, moves[j])
  {}

  // ---- a follow is a run of transactions -----------------------------------

  /** What each move puts to the database: a writer its transaction, and the runner
      its batch while it is catching up. */
  function Asked(f: Following, p: Projection, batch: nat, move: Move): seq<Op> {
    match move
    case Transact(op, _) => [op]
    case Round => if f.phase == CatchingUp then [Batch(p, batch)] else []
    case _ => []
  }

  function Transactions(start: Following, p: Projection, batch: nat, moves: seq<Move>, k: nat): seq<Op>
    requires k <= |moves|
  {
    if k == 0 then []
    else
      var f := After(start, p, batch, moves, k - 1);
      Transactions(start, p, batch, moves, k - 1) + Asked(f, p, batch, moves[k - 1])
  }

  lemma {:induction false} OneMoreAsked(start: Following, p: Projection, batch: nat, moves: seq<Move>, j: nat, k: nat)
    requires k == j + 1 <= |moves|
    ensures Transactions(start, p, batch, moves, k)
      == Transactions(start, p, batch, moves, j) + Asked(After(start, p, batch, moves, j), p, batch, moves[j])
  {}

  lemma MoveIsAsked(f: Following, p: Projection, batch: nat, move: Move, asked: seq<Op>)
    requires asked == Asked(f, p, batch, move)
    ensures asked == [] || exists op :: asked == [op]
    ensures Next(f, p, batch, move).w == if asked == [] then f.w else Then(f.w, asked[0])
  {}

  lemma RunsJoin(start: World, ops: seq<Op>, asked: seq<Op>, ran: seq<Op>, v: World, w: World)
    requires ran == ops + asked && v == Run(start, ops, |ops|)
    requires asked == [] || exists op :: asked == [op]
    requires w == if asked == [] then v else Then(v, asked[0])
    ensures w == Run(start, ran, |ran|)
  {
    if asked == [] { assert ran == ops; } else { RunOneMore(start, ops, asked[0], ran); }
  }

  /** The log a follow reads is the one its writers and its own batches make, run one
      after another with no channel and nobody waiting. */
  lemma {:induction false} LogIsTheRun(start: Following, p: Projection, batch: nat, moves: seq<Move>, k: nat, ops: seq<Op>)
    requires k <= |moves| && ops == Transactions(start, p, batch, moves, k)
    ensures After(start, p, batch, moves, k).w == Run(start.w, ops, |ops|)
  {
    if k > 0 {
      var j := k - 1;
      var f, before := After(start, p, batch, moves, j), Transactions(start, p, batch, moves, j);
      var asked := Asked(f, p, batch, moves[j]);
      LogIsTheRun(start, p, batch, moves, j, before);
      OneMoreAsked(start, p, batch, moves, j, k);
      OneMoreMove(start, p, batch, moves, j, k);
      MoveIsAsked(f, p, batch, moves[j], asked);
      RunsJoin(start.w, before, asked, ops, f.w, Next(f, p, batch, moves[j]).w);
    }
  }

  /** What one move hands the publishers, and what it sends. */
  function Handed(f: Following, move: Move): multiset<nat> {
    if move.Transact? then multiset(Announcements(f.w.t, move.op, move.here)) else multiset{}
  }

  function Sent(f: Following, move: Move): multiset<nat> {
    if move.Publish? && move.i < |f.late| then multiset{f.late[move.i]} else multiset{}
  }

  function AllHanded(start: Following, p: Projection, batch: nat, moves: seq<Move>, k: nat): multiset<nat>
    requires k <= |moves|
  {
    if k == 0 then multiset{}
    else AllHanded(start, p, batch, moves, k - 1) + Handed(After(start, p, batch, moves, k - 1), moves[k - 1])
  }

  function AllSent(start: Following, p: Projection, batch: nat, moves: seq<Move>, k: nat): multiset<nat>
    requires k <= |moves|
  {
    if k == 0 then multiset{}
    else AllSent(start, p, batch, moves, k - 1) + Sent(After(start, p, batch, moves, k - 1), moves[k - 1])
  }

  lemma {:induction false} OneMoreHanded(start: Following, p: Projection, batch: nat, moves: seq<Move>, j: nat, k: nat)
    requires k == j + 1 <= |moves|
    ensures AllHanded(start, p, batch, moves, k)
      == AllHanded(start, p, batch, moves, j) + Handed(After(start, p, batch, moves, j), moves[j])
  {}

  lemma {:induction false} OneMoreSent(start: Following, p: Projection, batch: nat, moves: seq<Move>, j: nat, k: nat)
    requires k == j + 1 <= |moves|
    ensures AllSent(start, p, batch, moves, k)
      == AllSent(start, p, batch, moves, j) + Sent(After(start, p, batch, moves, j), moves[j])
  {}

  lemma MoveBalances(f: Following, p: Projection, batch: nat, move: Move)
    ensures multiset(Next(f, p, batch, move).late) + Sent(f, move) == multiset(f.late) + Handed(f, move)
  {
    if move.Publish? && move.i < |f.late| {
      assert f.late == f.late[..move.i] + [f.late[move.i]] + f.late[move.i + 1..];
    }
  }

  lemma BalancesAdd(late: multiset<nat>, later: multiset<nat>, begun: multiset<nat>,
                    sent: multiset<nat>, handed: multiset<nat>, s: multiset<nat>, h: multiset<nat>)
    requires late + sent == begun + handed && later + s == late + h
    ensures later + (sent + s) == begun + (handed + h)
  {
    assert later + (sent + s) == (later + s) + sent;
    assert begun + (handed + h) == (late + sent) + h == (late + h) + sent;
  }

  /** Each commit is announced once: what was handed over is what was sent and what is
      still on its way, none of it twice and none of it lost. */
  lemma {:induction false} EachSentOnce(start: Following, p: Projection, batch: nat, moves: seq<Move>, k: nat)
    requires k <= |moves|
    ensures multiset(After(start, p, batch, moves, k).late) + AllSent(start, p, batch, moves, k)
      == multiset(start.late) + AllHanded(start, p, batch, moves, k)
  {
    if k > 0 {
      var j := k - 1;
      EachSentOnce(start, p, batch, moves, j);
      OneMoreMove(start, p, batch, moves, j, k);
      OneMoreHanded(start, p, batch, moves, j, k);
      OneMoreSent(start, p, batch, moves, j, k);
      var f := After(start, p, batch, moves, j);
      MoveBalances(f, p, batch, moves[j]);
      BalancesAdd(multiset(f.late), multiset(Next(f, p, batch, moves[j]).late), multiset(start.late),
        AllSent(start, p, batch, moves, j), AllHanded(start, p, batch, moves, j), Sent(f, moves[j]), Handed(f, moves[j]));
    }
  }

  /** The name's cursor is this runner's: nobody saves it or rewinds it meanwhile.
      Another process may run the same projection. */
  ghost predicate Undisturbed(p: Projection, move: Move) {
    move.Transact? ==> Owns(p, move.op) && (move.op.Reset? ==> move.op.projection.name != p.name)
  }

  // ---- what every move keeps -----------------------------------------------

  /** Nothing is published or announced that was not issued. */
  ghost predicate Issued(f: Following) {
    f.watch.value <= f.w.t.issued && forall position <- f.late :: position <= f.w.t.issued
  }

  /** While the channel has not changed since the mark, it holds what it held. */
  ghost predicate MarkHolds(f: Following) {
    f.phase != Marking ==>
      && f.seen <= f.watch.version
      && (f.seen == f.watch.version ==> f.watch.value == f.marked)
      && f.marked <= f.w.t.issued
  }

  /** A parked runner is past everything issued when it last looked, which is at
      least everything published when it marked. */
  ghost predicate ParkedPast(f: Following, p: Projection) {
    f.phase == Parked ==>
      && f.marked <= f.looked <= f.w.t.issued
      && forall r <- f.w.t.events :: r.position <= f.looked ==> r.position <= LoadCheckpoint(f.w.t, p.name)
  }

  ghost predicate Steady(f: Following, p: Projection) {
    Ordinary(f.w.t) && Issued(f) && MarkHolds(f) && ParkedPast(f, p)
  }

  lemma RoundAdvances(t: Tables, p: Projection, batch: nat)
    requires RunOnce(t, p, batch).Ok? && Ordinary(t)
    ensures LoadCheckpoint(RunOnce(t, p, batch).value.0, p.name) >= LoadCheckpoint(t, p.name)
    ensures batch > 0 && RunOnce(t, p, batch).value.1 == 0
      ==> LoadCheckpoint(RunOnce(t, p, batch).value.0, p.name) >= Head(t)
  {
    RunOnceIs(t, p, batch);
    var cursor := LoadCheckpoint(t, p.name);
    var page := SelectStored(t, cursor, p.Wanted(), batch).value;
    PageIsRange(t, p, cursor, batch, page);
    AdvanceIs(t, p, Fold(p, ModelOf(t, p), page).value, cursor, SeenThrough(cursor, Head(t), page, batch));
  }

  lemma CursorStays(t: Tables, op: Op, p: Projection)
    requires Ordinary(t) && Undisturbed(p, Transact(op, true))
    ensures LoadCheckpoint(Exec(t, op), p.name) >= LoadCheckpoint(t, p.name)
  {
    if op.Commit? {
      CommitAppends(t, op.write);
    } else if op.Batch? && op.projection.name == p.name {
      if RunOnce(t, p, op.batch).Ok? { RoundAdvances(t, p, op.batch); }
    } else {
      OthersLeaveIt(t, op, p);
    }
  }

  lemma ParkedOn(f: Following, g: Following, p: Projection)
    requires ParkedPast(f, p) && Grows(f.w.t, g.w.t)
    requires g.phase == f.phase && g.marked == f.marked && g.looked == f.looked
    requires LoadCheckpoint(g.w.t, p.name) >= LoadCheckpoint(f.w.t, p.name)
    ensures ParkedPast(g, p)
  {}

  lemma TransactIsSteady(f: Following, p: Projection, batch: nat, op: Op, here: bool)
    requires Steady(f, p) && Undisturbed(p, Transact(op, here))
    ensures Steady(Next(f, p, batch, Transact(op, here)), p)
  {
    var g := Next(f, p, batch, Transact(op, here));
    OpGrows(f.w.t, op);
    CursorStays(f.w.t, op, p);
    ParkedOn(f, g, p);
    if op.Commit? { AnnouncedIsIssued(f.w.t, op.write); }
  }

  lemma BatchSettles(f: Following, g: Following, p: Projection, u: Tables, applied: nat)
    requires Steady(f, p) && f.phase == CatchingUp
    requires GrowsTo(f.w.t, u) && u.issued == f.w.t.issued && u.events == f.w.t.events
    requires applied == 0 ==> LoadCheckpoint(u, p.name) >= Head(u)
    requires g == f.(w := World(u, f.w.hist), looked := f.w.t.issued, phase := if applied == 0 then Parked else CatchingUp)
    ensures Steady(g, p)
  {}

  lemma RoundIsSteady(f: Following, p: Projection, batch: nat)
    requires Steady(f, p) && batch > 0
    ensures Steady(Next(f, p, batch, Round), p)
  {
    if f.phase == CatchingUp && RunOnce(f.w.t, p, batch).Ok? {
      var (u, applied) := RunOnce(f.w.t, p, batch).value;
      BatchThen(f.w, p, batch);
      OpGrows(f.w.t, Batch(p, batch));
      OtherOpsKeepLog(f.w.t, Batch(p, batch));
      RoundAdvances(f.w.t, p, batch);
      BatchSettles(f, Next(f, p, batch, Round), p, u, applied);
    }
  }

  lemma MoveIsSteady(f: Following, p: Projection, batch: nat, move: Move)
    requires Steady(f, p) && batch > 0 && Undisturbed(p, move)
    ensures Steady(Next(f, p, batch, move), p)
  {
    match move
    case Transact(op, here) => TransactIsSteady(f, p, batch, op, here);
    case Round => RoundIsSteady(f, p, batch);
    case Publish(i) =>
      if i < |f.late| { assert f.late[i] in f.late; }
    case _ =>
  }

  lemma {:induction false} AlwaysSteady(start: Following, p: Projection, batch: nat, moves: seq<Move>, k: nat)
    requires Opened(start) && Ordinary(start.w.t)
    requires batch > 0 && k <= |moves| && forall move <- moves :: Undisturbed(p, move)
    ensures Steady(After(start, p, batch, moves, k), p)
  {
    if k > 0 {
      var j := k - 1;
      AlwaysSteady(start, p, batch, moves, j);
      OneMoreMove(start, p, batch, moves, j, k);
      MoveIsSteady(After(start, p, batch, moves, j), p, batch, moves[j]);
    }
  }

  // ---- no lost wake-up -----------------------------------------------------

  /** Parked, and `changed()` would not return. */
  predicate Asleep(f: Following) {
    f.phase == Parked && f.seen == f.watch.version
  }

  /** The cursor is past every live event at or below the published position. */
  ghost predicate PastPublished(f: Following, p: Projection) {
    forall r <- f.w.t.events :: r.position <= f.watch.value ==> r.position <= LoadCheckpoint(f.w.t, p.name)
  }

  /** No lost wake-up: whenever the runner is parked with no unseen change, its
      cursor is past every live event at or below the published position, however
      late or out of order the publishes came. The published position was always
      issued. */
  lemma NoLostWakeUp(start: Following, p: Projection, batch: nat, moves: seq<Move>, k: nat)
    requires Opened(start) && Ordinary(start.w.t)
    requires batch > 0 && k <= |moves| && forall move <- moves :: Undisturbed(p, move)
    ensures var f := After(start, p, batch, moves, k);
      (Asleep(f) ==> PastPublished(f, p)) && f.watch.value <= f.w.t.issued
  {
    AlwaysSteady(start, p, batch, moves, k);
  }

  lemma MoveNeverLowers(f: Following, p: Projection, batch: nat, move: Move)
    ensures f.watch.value <= Next(f, p, batch, move).watch.value
  {}

  /** The published position never falls. */
  lemma {:induction false} PublishedNeverFalls(start: Following, p: Projection, batch: nat, moves: seq<Move>, j: nat, k: nat)
    requires j <= k <= |moves|
    ensures After(start, p, batch, moves, j).watch.value <= After(start, p, batch, moves, k).watch.value
  {
    if j < k {
      var i := k - 1;
      PublishedNeverFalls(start, p, batch, moves, j, i);
      OneMoreMove(start, p, batch, moves, i, k);
      MoveNeverLowers(After(start, p, batch, moves, i), p, batch, moves[i]);
    }
  }

  // ---- every commit is announced -------------------------------------------

  /** Every live event is published or about to be. */
  ghost predicate Owed(f: Following) {
    forall r <- f.w.t.events :: OwedTo(f, r.position)
  }

  ghost predicate OwedTo(f: Following, at: nat) {
    at <= f.watch.value || exists position <- f.late :: at <= position
  }

  /** A writer in this process whose closures propagate their errors. */
  ghost predicate Announcing(f: Following, move: Move) {
    move.Transact? ==> move.here && Sound(f.w.t, move.op)
  }

  ghost predicate AnnouncingRun(start: Following, p: Projection, batch: nat, moves: seq<Move>) {
    forall k :: 0 <= k < |moves| ==> AnnouncingAt(start, p, batch, moves, k)
  }

  ghost predicate AnnouncingAt(start: Following, p: Projection, batch: nat, moves: seq<Move>, k: nat)
    requires k < |moves|
  {
    Announcing(After(start, p, batch, moves, k), moves[k])
  }

  /** What was owed stays owed while announcements only join. */
  lemma StillOwed(f: Following, g: Following, at: nat)
    requires OwedTo(f, at) && f.watch.value <= g.watch.value && forall position <- f.late :: position in g.late
    ensures OwedTo(g, at)
  {}

  lemma CommitOwes(f: Following, p: Projection, batch: nat, write: Write)
    requires Holds(f.w) && Owed(f) && Sound(f.w.t, Commit(write))
    ensures Owed(Next(f, p, batch, Transact(Commit(write), true)))
  {
    var g := Next(f, p, batch, Transact(Commit(write), true));
    CommitNames(f.w.t, f.w.hist, write);
    CommitKeeps(f.w.t, f.w.hist, write);
    assert forall position <- f.late :: position in g.late;
    forall r | r in g.w.t.events ensures OwedTo(g, r.position) {
      if r in f.w.t.events {
        StillOwed(f, g, r.position);
      } else {
        assert Returned(f.w.t, write) != [];
        assert g.late[|f.late|] == g.w.t.issued && g.late[|f.late|] in g.late;
      }
    }
  }

  lemma PublishOwes(f: Following, p: Projection, batch: nat, i: nat)
    requires Owed(f)
    ensures Owed(Next(f, p, batch, Publish(i)))
  {
    var g := Next(f, p, batch, Publish(i));
    if i < |f.late| {
      forall r | r in g.w.t.events ensures OwedTo(g, r.position) {
        assert OwedTo(f, r.position);
        if r.position > f.watch.value {
          var position :| position in f.late && r.position <= position;
          assert position in Removed(f.late, i) || position == f.late[i];
        }
      }
    }
  }

  lemma OthersOwe(f: Following, p: Projection, batch: nat, move: Move)
    requires Owed(f) && !move.Publish? && !(move.Transact? && move.op.Commit?)
    ensures Owed(Next(f, p, batch, move))
  {
    var g := Next(f, p, batch, move);
    match move {
      case Transact(op, here) =>
        if op.Retain? { RemovalIs(f.w.t, op.plan, op.guard, op.archived); } else { OtherOpsKeepLog(f.w.t, op); }
        assert f.late + [] == f.late;
      case Round => OtherOpsKeepLog(f.w.t, Batch(p, batch));
      case _ =>
    }
    assert g.late == f.late && g.watch == f.watch;
    forall r | r in g.w.t.events ensures OwedTo(g, r.position) { assert OwedTo(f, r.position); }
  }

  /** What a run in one process keeps besides. */
  ghost predicate Kept(f: Following) { Holds(f.w) && Owed(f) }

  lemma HistoryIsKept(f: Following, p: Projection, batch: nat, move: Move)
    requires Holds(f.w) && Announcing(f, move)
    ensures Holds(Next(f, p, batch, move).w)
  {
    match move
    case Transact(op, _) => OpKeeps(f.w, op);
    case Round => OpKeeps(f.w, Batch(p, batch));
    case _ =>
  }

  lemma MoveIsKept(f: Following, p: Projection, batch: nat, move: Move)
    requires Kept(f) && Announcing(f, move)
    ensures Kept(Next(f, p, batch, move))
  {
    HistoryIsKept(f, p, batch, move);
    if move.Transact? && move.op.Commit? {
      CommitOwes(f, p, batch, move.op.write);
    } else if move.Publish? {
      PublishOwes(f, p, batch, move.i);
    } else {
      OthersOwe(f, p, batch, move);
    }
  }

  lemma OpenedIsKept(start: Following)
    requires Opened(start) && Holds(start.w)
    ensures Kept(start)
  {
    forall r | r in start.w.t.events ensures OwedTo(start, r.position) {}
  }

  /** One more move of such a run. */
  lemma KeptOn(start: Following, p: Projection, batch: nat, moves: seq<Move>, j: nat, k: nat)
    requires k == j + 1 <= |moves| && AnnouncingRun(start, p, batch, moves)
    requires Kept(After(start, p, batch, moves, j))
    ensures Kept(After(start, p, batch, moves, k))
  {
    assert AnnouncingAt(start, p, batch, moves, j);
    OneMoreMove(start, p, batch, moves, j, k);
    MoveIsKept(After(start, p, batch, moves, j), p, batch, moves[j]);
  }

  lemma {:induction false} AlwaysKept(start: Following, p: Projection, batch: nat, moves: seq<Move>, k: nat)
    requires Opened(start) && Holds(start.w) && k <= |moves| && AnnouncingRun(start, p, batch, moves)
    ensures Kept(After(start, p, batch, moves, k))
  {
    if k > 0 {
      var j := k - 1;
      AlwaysKept(start, p, batch, moves, j);
      KeptOn(start, p, batch, moves, j, k);
    } else {
      OpenedIsKept(start);
    }
  }

  /** The wake is on its way: when every writer is in this process and propagates
      its errors, a sleeping runner that has not folded some live event has a
      publish still to come that will wake it. */
  lemma {:induction false} WakeIsOnItsWay(start: Following, p: Projection, batch: nat, moves: seq<Move>, k: nat)
    requires Opened(start) && Holds(start.w)
    requires batch > 0 && k <= |moves| && AnnouncingRun(start, p, batch, moves)
    requires forall move <- moves :: Undisturbed(p, move)
    ensures var f := After(start, p, batch, moves, k);
      Asleep(f) && (exists r <- f.w.t.events :: r.position > LoadCheckpoint(f.w.t, p.name)) ==>
        exists position <- f.late :: f.watch.Publish(position).version != f.seen
  {
    AlwaysSteady(start, p, batch, moves, k);
    AlwaysKept(start, p, batch, moves, k);
    var f := After(start, p, batch, moves, k);
    if r :| Asleep(f) && r in f.w.t.events && r.position > LoadCheckpoint(f.w.t, p.name) {
      assert OwedTo(f, r.position) && r.position > f.watch.value;
      var position :| position in f.late && r.position <= position;
      assert f.watch.Publish(position).version != f.seen;
    }
  }

  // ---- a wake leads to a fold ----------------------------------------------

  function Rounds(n: nat): (moves: seq<Move>)
    ensures |moves| == n && forall i :: 0 <= i < n ==> moves[i] == Round
  {
    seq(n, i => Round)
  }

  lemma {:induction false} MovesPrefix(start: Following, p: Projection, batch: nat, a: seq<Move>, b: seq<Move>, k: nat)
    requires k <= |a| && a <= b
    ensures After(start, p, batch, a, k) == After(start, p, batch, b, k)
  {
    if k > 0 { MovesPrefix(start, p, batch, a, b, k - 1); }
  }

  lemma SameMoveOn(start: Following, p: Projection, batch: nat, c: seq<Move>, m: nat, n: nat, mid: Following, b: seq<Move>, j: nat, k: nat)
    requires n == m + 1 <= |c| && k == j + 1 <= |b| && c[m] == b[j]
    requires After(start, p, batch, c, m) == After(mid, p, batch, b, j)
    ensures After(start, p, batch, c, n) == After(mid, p, batch, b, k)
  {
    OneMoreMove(start, p, batch, c, m, n);
    OneMoreMove(mid, p, batch, b, j, k);
  }

  lemma FrontThenRest(a: seq<Move>, b: seq<Move>, c: seq<Move>, i: nat, n: nat)
    requires c == a + b && i < |b| && n == |a| + i
    ensures a <= c && n < |c| && c[n] == b[i]
  {}

  /** A run goes on from where its front came to. */
  lemma {:induction false} MovesJoin(start: Following, p: Projection, batch: nat, a: seq<Move>, b: seq<Move>, c: seq<Move>,
                                     mid: Following, k: nat, n: nat)
    requires c == a + b && mid == After(start, p, batch, a, |a|) && k <= |b| && n == |a| + k
    ensures After(start, p, batch, c, n) == After(mid, p, batch, b, k)
  {
    if k == 0 {
      MovesPrefix(start, p, batch, a, c, n);
    } else {
      var j, m := k - 1, n - 1;
      FrontThenRest(a, b, c, j, m);
      MovesJoin(start, p, batch, a, b, c, mid, j, m);
      SameMoveOn(start, p, batch, c, m, n, mid, b, j, k);
    }
  }

  /** Batches asked of a runner that is not catching up do nothing. */
  lemma {:induction false} RoundsIdle(f: Following, p: Projection, batch: nat, moves: seq<Move>, k: nat)
    requires f.phase != CatchingUp && k <= |moves| && forall i :: 0 <= i < |moves| ==> moves[i] == Round
    ensures After(f, p, batch, moves, k) == f
  {
    if k > 0 { RoundsIdle(f, p, batch, moves, k - 1); }
  }

  lemma RoundFirst(f: Following, p: Projection, batch: nat, n: nat, rest: nat)
    requires n == rest + 1
    ensures After(f, p, batch, Rounds(n), n) == After(Next(f, p, batch, Round), p, batch, Rounds(rest), rest)
  {
    var first := [Round];
    assert Rounds(n) == first + Rounds(rest);
    OneMoreMove(f, p, batch, first, 0, 1);
    assert After(f, p, batch, first, 0) == f;
    MovesJoin(f, p, batch, first, Rounds(rest), Rounds(n), Next(f, p, batch, Round), rest, n);
  }

  /** What a catch-up comes to leaves the runner parked, or ended by its error. */
  ghost predicate CaughtUp(f: Following, whole: (Tables, Result<nat>), g: Following) {
    && g.w == World(whole.0, f.w.hist) && g.phase == (if whole.1.Ok? then Parked else Ended)
    && g.watch == f.watch && g.late == f.late && g.seen == f.seen && g.marked == f.marked
  }

  lemma CaughtUpBefore(f: Following, mid: Following, rest: (Tables, Result<nat>), applied: nat, g: Following)
    requires CaughtUp(mid, rest, g) && mid.w.hist == f.w.hist
    requires mid.watch == f.watch && mid.late == f.late && mid.seen == f.seen && mid.marked == f.marked
    ensures CaughtUp(f, Whole.Joined(applied, rest), g)
  {}

  lemma RoundEnds(f: Following, p: Projection, batch: nat)
    requires batch >= 1 && f.phase == CatchingUp
    requires RunOnce(f.w.t, p, batch).Err? || RunOnce(f.w.t, p, batch).value.1 == 0
    ensures CaughtUp(f, Whole.CatchUp(f.w.t, p, batch), Next(f, p, batch, Round))
    ensures Next(f, p, batch, Round).phase != CatchingUp
  {
    if RunOnce(f.w.t, p, batch).Ok? { BatchThen(f.w, p, batch); }
  }

  /** Enough batches are a catch-up. */
  lemma {:induction false} RoundsCatchUp(f: Following, p: Projection, batch: nat, n: nat)
    requires batch >= 1 && f.phase == CatchingUp && n > Whole.Behind(f.w.t, p)
    ensures CaughtUp(f, Whole.CatchUp(f.w.t, p, batch), After(f, p, batch, Rounds(n), n))
    decreases Whole.Behind(f.w.t, p)
  {
    var g, rest := Next(f, p, batch, Round), n - 1;
    RoundFirst(f, p, batch, n, rest);
    if RunOnce(f.w.t, p, batch).Err? || RunOnce(f.w.t, p, batch).value.1 == 0 {
      RoundEnds(f, p, batch);
      RoundsIdle(g, p, batch, Rounds(rest), rest);
    } else {
      var (u, applied) := RunOnce(f.w.t, p, batch).value;
      BatchThen(f.w, p, batch);
      Whole.BatchProgresses(f.w.t, p, batch);
      RoundsCatchUp(g, p, batch, rest);
      CaughtUpBefore(f, g, Whole.CatchUp(u, p, batch), applied, After(g, p, batch, Rounds(rest), rest));
    }
  }

  /** A wake is followed by a fold: from any wait, the wake, the mark and enough
      batches with nothing in between leave what a whole catch-up leaves, parked
      again with the channel marked as seen, or ended by its error. */
  lemma WakeLeadsToFold(f: Following, p: Projection, batch: nat, n: nat)
    requires batch >= 1 && f.phase == Parked && n > Whole.Behind(f.w.t, p)
    ensures var whole := Whole.CatchUp(f.w.t, p, batch);
      var g := After(f, p, batch, [Wake, Mark] + Rounds(n), n + 2);
      && g.w == World(whole.0, f.w.hist)
      && g.phase == (if whole.1.Ok? then Parked else Ended)
      && g.watch == f.watch && g.late == f.late && g.seen == f.watch.version
  {
    var woken := [Wake, Mark];
    assert After(f, p, batch, woken, 0) == f;
    OneMoreMove(f, p, batch, woken, 0, 1);
    OneMoreMove(f, p, batch, woken, 1, 2);
    var mid := After(f, p, batch, woken, 2);
    assert mid == f.(phase := CatchingUp, seen := f.watch.version, marked := f.watch.value);
    MovesJoin(f, p, batch, woken, Rounds(n), woken + Rounds(n), mid, n, n + 2);
    RoundsCatchUp(mid, p, batch, n);
  }

  /** A follow ends by the error of a batch and in no other way. */
  lemma {:induction false} EndsByError(start: Following, p: Projection, batch: nat, moves: seq<Move>, k: nat)
    requires k <= |moves| && start.phase != Ended && After(start, p, batch, moves, k).phase == Ended
    ensures exists j :: 0 <= j < k && EndedAt(start, p, batch, moves, j)
  {
    var j := k - 1;
    OneMoreMove(start, p, batch, moves, j, k);
    if After(start, p, batch, moves, j).phase == Ended {
      EndsByError(start, p, batch, moves, j);
    } else {
      assert EndedAt(start, p, batch, moves, j);
    }
  }

  ghost predicate EndedAt(start: Following, p: Projection, batch: nat, moves: seq<Move>, j: nat)
    requires j < |moves|
  {
    var f := After(start, p, batch, moves, j);
    moves[j] == Round && f.phase == CatchingUp && RunOnce(f.w.t, p, batch).Err?
  }

  // ---- exactly once, while following ---------------------------------------

  ghost predicate Tracks(w: World, p: Projection) { LogHolds(w) && Exact(w, p) }

  lemma OpTracks(w: World, op: Op, p: Projection)
    requires Tracks(w, p) && !p.tolerant && Owns(p, op)
    ensures Tracks(Then(w, op), p)
  {
    OpKeepsPositions(w, op);
    OpKeepsExact(w, op, p);
  }

  /** What a move does to the world is one transaction, or nothing. */
  lemma MoveIsOp(f: Following, p: Projection, batch: nat, move: Move)
    ensures var w := Next(f, p, batch, move).w;
      w == f.w || (move.Transact? && w == Then(f.w, move.op)) || (move.Round? && w == Then(f.w, Batch(p, batch)))
  {}

  lemma MoveTracks(f: Following, p: Projection, batch: nat, move: Move)
    requires Tracks(f.w, p) && !p.tolerant && (move.Transact? ==> Owns(p, move.op))
    ensures Tracks(Next(f, p, batch, move).w, p)
  {
    MoveIsOp(f, p, batch, move);
    if move.Transact? { OpTracks(f.w, move.op, p); }
    if move.Round? { OpTracks(f.w, Batch(p, batch), p); }
  }

  /** Following keeps the model exact: whatever log it was opened on, writers in any
      process, closures that swallow their errors, other runners, rewinds and forced
      removals, the model is at every moment the fold of all it wants that was
      ever committed up to its cursor. */
  lemma {:induction false} FollowedExactlyOnce(start: Following, p: Projection, batch: nat, moves: seq<Move>, k: nat)
    requires Tracks(start.w, p) && !p.tolerant
    requires k <= |moves| && forall move <- moves :: move.Transact? ==> Owns(p, move.op)
    ensures Tracks(After(start, p, batch, moves, k).w, p)
  {
    if k > 0 {
      var j := k - 1;
      FollowedExactlyOnce(start, p, batch, moves, j);
      OneMoreMove(start, p, batch, moves, j, k);
      MoveTracks(After(start, p, batch, moves, j), p, batch, moves[j]);
    }
  }
}
