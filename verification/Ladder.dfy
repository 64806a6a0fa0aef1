/** The schema ladder: one transaction per step, any number of openers racing over
    one version number. */
module Ladder {
  import opened Wrappers

  const TARGET: nat := 5

  /** The names the ladder uses, matched as SQLite matches them, and any other. */
  datatype Name =
    | EVENTS | CHECKPOINTS | RETENTION | STREAM_SEQ | EXPORTS
    | STREAM_KIND_SEQ | KIND_POSITION | EPOCH_MS | NO_UPDATE
    | OTHER(name: string)

  /** What each step creates. */
  const LADDER: seq<set<Name>> := [
    {EVENTS, STREAM_KIND_SEQ, KIND_POSITION, CHECKPOINTS},
    {RETENTION, EPOCH_MS},
    {STREAM_SEQ},
    {NO_UPDATE},
    {EXPORTS}]

  /** The crate's own tables; `sqlite_sequence` is deliberately not checked. */
  const RESERVED: set<Name> := {EVENTS, STREAM_SEQ, CHECKPOINTS, RETENTION, EXPORTS}

  /** The step that creates the stored counters and fills them. */
  const BACKFILL: nat := 2

  /** A file: `user_version`, the names taken in its schema and which of them are
      tables, the live (stream, seq) pairs, the stored counters, and, as history,
      the ladder steps committed to it so far. */
  datatype File = File(
    version: int,
    names: set<Name>,
    tables: set<Name>,
    live: seq<(string, nat)>,
    counters: map<string, nat>,
    steps: seq<nat>)

  /** `MAX(seq)` of one stream; 0 when it has no live event. */
  function MaxSeq(live: seq<(string, nat)>, stream: string): (top: nat)
    ensures forall pair <- live :: pair.0 == stream ==> pair.1 <= top
  {
    if live == [] then 0
    else
      var rest, last := MaxSeq(live[..|live| - 1], stream), live[|live| - 1];
      assert forall pair <- live :: pair in live[..|live| - 1] || pair == last;
      if last.0 == stream && last.1 > rest then last.1 else rest
  }

  /** `SELECT stream, MAX(seq) + 1 … GROUP BY stream`. */
  function Backfilled(live: seq<(string, nat)>): map<string, nat> {
    map stream | stream in (set pair <- live :: pair.0) :: MaxSeq(live, stream) + 1
  }

  /** One step's statements and the version they leave, in one transaction. */
  function Apply(file: File, step: nat): Result<File>
    requires step < |LADDER|
  {
    if LADDER[step] * file.names != {} then Err(Storage)
    else
      Ok(file.(version := step + 1,
               names := file.names + LADDER[step],
               tables := file.tables + LADDER[step] * RESERVED,
               counters := if step == BACKFILL then Backfilled(file.live) else file.counters,
               steps := file.steps + [step]))
  }

  /** One turn of the loop: the version is read inside the step's transaction. */
  function Turn(file: File, step: nat): Result<File>
    requires step < |LADDER|
  {
    if file.version > TARGET then Err(Storage)
    else if file.version != step then Ok(file)
    else if step == 0 && RESERVED * file.tables != {} then Err(Unsupported)
    else Apply(file, step)
  }

  /** The loop with nobody else about, as far as step `k`; the steps before an
      error stay committed. */
  function MigrateTo(file: File, k: nat): (File, Option<Error>)
    requires k <= |LADDER|
  {
    if k == 0 then (file, None)
    else
      var (before, stopped) := MigrateTo(file, k - 1);
      if stopped.Some? then (before, stopped)
      else
        match Turn(before, k - 1)
        case Ok(after) => (after, None)
        case Err(error) => (before, Some(error))
  }

  function Migrate(file: File): (File, Option<Error>) { MigrateTo(file, |LADDER|) }

  /** No name a step still to come would create is taken. */
  predicate Clear(file: File) {
    forall step :: 0 <= step < |LADDER| && step >= file.version ==> LADDER[step] * file.names == {}
  }

  /** What SQLite keeps: a table is a schema object. */
  predicate TablesAreNames(file: File) { file.tables <= file.names }

  lemma StepsAreDisjoint(a: nat, b: nat)
    requires a < b < |LADDER|
    ensures LADDER[a] * LADDER[b] == {}
  {}

  /** A reserved table is one the ladder has still to create, at version 0. */
  lemma ReservedIsComing(name: Name)
    requires name in RESERVED
    ensures exists step :: 0 <= step < |LADDER| && name in LADDER[step]
  {
    assert name in LADDER[0] || name in LADDER[1] || name in LADDER[2] || name in LADDER[4];
  }

  /** At a clear file between the versions, a turn always goes through, and brings
      the version to the step after it if it stood at the step. */
  lemma ClearTurn(file: File, step: nat)
    requires step < |LADDER| && 0 <= file.version <= TARGET && Clear(file) && TablesAreNames(file)
    ensures var turn := Turn(file, step);
      && turn.Ok? && Clear(turn.value) && TablesAreNames(turn.value)
      && turn.value.version == (if file.version == step then step + 1 else file.version)
      && turn.value.steps == (if file.version == step then file.steps + [step] else file.steps)
  {
    if file.version == step {
      if step == 0 {
        forall name | name in RESERVED ensures name !in file.names {
          ReservedIsComing(name);
          var later :| 0 <= later < |LADDER| && name in LADDER[later];
          assert LADDER[later] * file.names == {};
          assert name !in LADDER[later] * file.names;
        }
      }
      forall next | step < next < |LADDER| ensures LADDER[next] * Turn(file, step).value.names == {} {
        StepsAreDisjoint(step, next);
      }
    }
  }

  function StepsFrom(version: nat, to: nat): (steps: seq<nat>)
    requires version <= to
    ensures |steps| == to - version
  {
    seq(to - version, i requires 0 <= i < to - version => version + i)
  }

  lemma StepsFromNext(version: nat, to: nat)
    requires version <= to
    ensures StepsFrom(version, to + 1) == StepsFrom(version, to) + [to]
  {}

  // ---- any number of openers -----------------------------------------------

  /** Where an opener stands: the next step it will try, or refused. */
  datatype Opener = At(step: nat) | Refused(error: Error)

  /** One turn of some opener; or an append by one that has finished. */
  datatype Move = Try(opener: nat) | Use(opener: nat, stream: string)

  datatype Race = Race(file: File, openers: seq<Opener>)

  predicate Finished(opener: Opener) { opener == At(|LADDER|) }

  function NextSeq(file: File, stream: string): nat {
    if stream in file.counters then file.counters[stream] else 1
  }

  function Append(file: File, stream: string): File {
    var n := NextSeq(file, stream);
    file.(live := file.live + [(stream, n)], counters := file.counters[stream := n + 1])
  }

  function Next(race: Race, move: Move): Race {
    if move.opener >= |race.openers| then race
    else
      var opener := race.openers[move.opener];
      match move
      case Try(i) =>
        if opener.Refused? || opener.step >= |LADDER| then race
        else
          (match Turn(race.file, opener.step)
           case Ok(file) => Race(file, race.openers[i := At(opener.step + 1)])
           case Err(error) => race.(openers := race.openers[i := Refused(error)]))
      case Use(_, stream) =>
        if Finished(opener) then race.(file := Append(race.file, stream)) else race
  }

  function After(race: Race, moves: seq<Move>, k: nat): Race
    requires k <= |moves|
  {
    if k == 0 then race else Next(After(race, moves, k - 1), moves[k - 1])
  }

  /** The stored counters are past every live event. */
  ghost predicate Counted(file: File) {
    forall pair <- file.live :: pair.1 < NextSeq(file, pair.0)
  }

  /** From the step that stores the counters on. */
  ghost predicate CountedOnceStored(file: File) {
    file.version > BACKFILL ==> Counted(file)
  }

  /** What every turn keeps: no opener is ahead of the version it has read. */
  ghost predicate Orderly(race: Race, start: File) {
    var file := race.file;
    && 0 <= start.version <= file.version <= TARGET
    && Clear(file) && TablesAreNames(file)
    && file.steps == start.steps + StepsFrom(start.version, file.version)
    && (forall i :: 0 <= i < |race.openers| ==> InStep(race, i))
    && CountedOnceStored(file)
  }

  ghost predicate InStep(race: Race, i: nat)
    requires i < |race.openers|
  {
    race.openers[i].At? && race.openers[i].step <= race.file.version
  }

  /** Counters that are what the live events say: one past each stream's highest, and
      none for a stream without any. */
  ghost predicate CountersOf(live: seq<(string, nat)>, counters: map<string, nat>) {
    && (forall pair <- live :: pair.0 in counters && pair.1 < counters[pair.0])
    && (forall stream <- counters :: counters[stream] > 0 && (stream, counters[stream] - 1) in live)
  }

  lemma {:induction false} MaxSeqIsLive(live: seq<(string, nat)>, stream: string)
    requires exists pair <- live :: pair.0 == stream
    ensures (stream, MaxSeq(live, stream)) in live
  {
    var front, last := live[..|live| - 1], live[|live| - 1];
    if pair :| pair in front && pair.0 == stream {
      MaxSeqIsLive(front, stream);
    } else {
      NoneLive(front, stream);
    }
  }

  lemma {:induction false} NoneLive(live: seq<(string, nat)>, stream: string)
    requires forall pair <- live :: pair.0 != stream
    ensures MaxSeq(live, stream) == 0
  {
    if live != [] {
      assert live[|live| - 1] in live;
      NoneLive(live[..|live| - 1], stream);
    }
  }

  /** The backfill leaves exactly those. */
  lemma BackfillCounts(live: seq<(string, nat)>, file: File)
    requires file.live == live && file.counters == Backfilled(live)
    ensures CountersOf(live, file.counters) && Counted(file)
  {
    forall pair | pair in live ensures pair.0 in file.counters && pair.1 < file.counters[pair.0] {
      assert pair.0 in (set p <- live :: p.0);
    }
    forall stream | stream in file.counters ensures (stream, file.counters[stream] - 1) in live {
      var pair :| pair in live && pair.0 == stream;
      MaxSeqIsLive(live, stream);
    }
  }

  /** What a step that is due commits: its names and no others, the version past it,
      and counters only with the table that holds them; what is stored already is
      never written again. */
  lemma StepCommits(file: File, step: nat)
    requires step < |LADDER| && Turn(file, step).Ok?
    ensures var after := Turn(file, step).value;
      if file.version != step then after == file
      else
        && after.version == step + 1 && after.names == file.names + LADDER[step]
        && after.tables == file.tables + LADDER[step] * {EVENTS, CHECKPOINTS, RETENTION, STREAM_SEQ, EXPORTS}
        && after.live == file.live && after.steps == file.steps + [step]
        && (if STREAM_SEQ in LADDER[step] then CountersOf(file.live, after.counters) else after.counters == file.counters)
  {
    if file.version == step && step == BACKFILL { BackfillCounts(file.live, Turn(file, step).value); }
  }

  lemma TurnCounts(file: File, step: nat)
    requires step < |LADDER| && Turn(file, step).Ok? && CountedOnceStored(file)
    ensures CountedOnceStored(Turn(file, step).value)
  {
    var after := Turn(file, step).value;
    if file.version == step == BACKFILL { BackfillCounts(file.live, after); }
    if file.version == step && step > BACKFILL {
      forall pair | pair in after.live ensures pair.1 < NextSeq(after, pair.0) {
        assert NextSeq(after, pair.0) == NextSeq(file, pair.0);
      }
    }
  }

  lemma TryIsOrderly(race: Race, start: File, i: nat)
    requires Orderly(race, start) && i < |race.openers|
    requires race.openers[i].At? && race.openers[i].step < |LADDER|
    ensures Orderly(Next(race, Try(i)), start)
  {
    var step := race.openers[i].step;
    assert InStep(race, i);
    ClearTurn(race.file, step);
    TurnCounts(race.file, step);
    if race.file.version == step {
      StepsFromNext(start.version, step);
      assert start.steps + StepsFrom(start.version, step) + [step] == start.steps + (StepsFrom(start.version, step) + [step]);
    }
    var next := Next(race, Try(i));
    forall j | 0 <= j < |next.openers| ensures InStep(next, j) { assert InStep(race, j); }
  }

  lemma UseIsOrderly(race: Race, start: File, i: nat, stream: string)
    requires Orderly(race, start) && i < |race.openers| && Finished(race.openers[i])
    ensures Orderly(Next(race, Use(i, stream)), start)
  {
    assert InStep(race, i);
    var next := Next(race, Use(i, stream));
    forall j | 0 <= j < |next.openers| ensures InStep(next, j) { assert InStep(race, j); }
    forall pair | pair in next.file.live ensures pair.1 < NextSeq(next.file, pair.0) {
      if pair in race.file.live { assert pair.1 < NextSeq(race.file, pair.0); }
    }
  }

  lemma {:induction false} AlwaysOrderly(start: Race, moves: seq<Move>, k: nat)
    requires Orderly(start, start.file) && k <= |moves|
    ensures Orderly(After(start, moves, k), start.file)
    ensures |After(start, moves, k).openers| == |start.openers|
  {
    if k > 0 {
      AlwaysOrderly(start, moves, k - 1);
      var race, move := After(start, moves, k - 1), moves[k - 1];
      if move.opener < |race.openers| {
        assert InStep(race, move.opener);
        if move.Try? && race.openers[move.opener].step < |LADDER| {
          TryIsOrderly(race, start.file, move.opener);
        } else if move.Use? && Finished(race.openers[move.opener]) {
          UseIsOrderly(race, start.file, move.opener, move.stream);
        }
      }
    }
  }

  /** A file this build may open, and openers that have not begun. */
  ghost predicate Openable(start: Race) {
    && 0 <= start.file.version <= TARGET && Clear(start.file) && TablesAreNames(start.file)
    && CountedOnceStored(start.file)
    && forall i :: 0 <= i < |start.openers| ==> start.openers[i] == At(0)
  }

  /** Racing openers: however their turns interleave, and whatever the ones that
      finished append meanwhile, none is refused, each missing step has committed
      at most once and in order, an opener that has finished sees the target
      version with every missing step committed, and from the step that stores
      the counters on every live number is below its stream's. */
  lemma RacingOpeners(start: Race, moves: seq<Move>, k: nat, i: nat)
    requires Openable(start) && k <= |moves| && i < |start.openers|
    ensures var race := After(start, moves, k);
      && |race.openers| == |start.openers| && race.openers[i].At?
      && start.file.version <= race.file.version <= TARGET
      && race.file.steps == start.file.steps + StepsFrom(start.file.version, race.file.version)
      && (Finished(race.openers[i]) ==> race.file.version == TARGET)
      && (race.file.version > BACKFILL ==> Counted(race.file))
  {
    OpenableIsOrderly(start);
    AlwaysOrderly(start, moves, k);
    assert InStep(After(start, moves, k), i);
  }

  function Tries(moves: seq<Move>, i: nat, k: nat): nat
    requires k <= |moves|
  {
    if k == 0 then 0 else Tries(moves, i, k - 1) + (if moves[k - 1] == Try(i) then 1 else 0)
  }

  lemma MoveOf(race: Race, start: File, move: Move, i: nat, step: nat)
    requires Orderly(race, start) && i < |race.openers| && race.openers[i] == At(step) && step <= |LADDER|
    ensures Next(race, move).openers[i]
      == At(if move == Try(i) && step < |LADDER| then step + 1 else step)
  {
    assert InStep(race, i);
    if move == Try(i) && step < |LADDER| {
      TryIsOrderly(race, start, i);
      assert InStep(Next(race, move), i);
    }
    if move.Try? && move.opener < |race.openers| { assert InStep(race, move.opener); }
  }

  /** Each turn of an opener takes it one step on, whatever the others do meanwhile, so
      it is finished at its fifth. */
  lemma {:induction false} FinishedAtItsFifth(start: Race, moves: seq<Move>, k: nat, i: nat)
    requires Openable(start) && k <= |moves| && i < |start.openers|
    ensures |After(start, moves, k).openers| == |start.openers|
    ensures After(start, moves, k).openers[i] == At(if Tries(moves, i, k) < 5 then Tries(moves, i, k) else 5)
  {
    if k > 0 {
      var j := k - 1;
      FinishedAtItsFifth(start, moves, j, i);
      OpenableIsOrderly(start);
      AlwaysOrderly(start, moves, j);
      MoveOf(After(start, moves, j), start.file, moves[j], i, if Tries(moves, i, j) < 5 then Tries(moves, i, j) else 5);
    }
  }

  lemma OpenableIsOrderly(start: Race)
    requires Openable(start)
    ensures Orderly(start, start.file)
  {
    assert start.file.steps + [] == start.file.steps;
    forall j | 0 <= j < |start.openers| ensures InStep(start, j) {}
  }

  /** An append by an opener that has finished takes a number past every live one of its
      stream, stores the one after it, and touches no other stream's. */
  lemma UseLands(start: Race, moves: seq<Move>, k: nat, j: nat, i: nat, stream: string)
    requires Openable(start) && k == j + 1 <= |moves| && moves[j] == Use(i, stream)
    requires i < |After(start, moves, j).openers| && Finished(After(start, moves, j).openers[i])
    ensures var file, after := After(start, moves, j).file, After(start, moves, k).file;
      && after.live != [] && after.live[..|after.live| - 1] == file.live
      && var (name, n) := after.live[|after.live| - 1];
        && name == stream
        && (forall pair <- file.live :: pair.0 == stream ==> pair.1 < n)
        && n == (if stream in file.counters then file.counters[stream] else 1)
        && after == file.(live := after.live, counters := file.counters[stream := n + 1])
  {
    OpenableIsOrderly(start);
    AlwaysOrderly(start, moves, j);
    assert InStep(After(start, moves, j), i);
  }

  // ---- one opener alone, on any file ---------------------------------------

  lemma {:induction false} ClearMigrates(file: File, k: nat)
    requires 0 <= file.version <= TARGET && Clear(file) && TablesAreNames(file) && k <= |LADDER|
    ensures var (after, stopped) := MigrateTo(file, k);
      && stopped.None? && Clear(after) && TablesAreNames(after)
      && after.version == (if k > file.version then k else file.version)
  {
    if k > 0 {
      ClearMigrates(file, k - 1);
      ClearTurn(MigrateTo(file, k - 1).0, k - 1);
    }
  }

  lemma {:induction false} WaitsForVersion(file: File, k: nat)
    requires k <= |LADDER| && file.version <= TARGET && (file.version < 0 || k <= file.version)
    ensures MigrateTo(file, k) == (file, None)
  {
    if k > 0 { WaitsForVersion(file, k - 1); }
  }

  lemma {:induction false} StoppedStays(file: File, j: nat, k: nat)
    requires j <= k <= |LADDER| && MigrateTo(file, j).1.Some?
    ensures MigrateTo(file, k) == MigrateTo(file, j)
  {
    if j < k { StoppedStays(file, j, k - 1); }
  }

  /** Names only accumulate, so a name that is in the way of a step stays there. */
  lemma {:induction false} NamesStay(file: File, k: nat)
    requires k <= |LADDER|
    ensures file.names <= MigrateTo(file, k).0.names
  {
    if k > 0 { NamesStay(file, k - 1); }
  }

  lemma {:induction false} StepApplied(file: File, k: nat)
    requires k <= |LADDER| && 0 <= file.version <= k && MigrateTo(file, k).1.None? && file.version <= TARGET
    ensures MigrateTo(file, k).0.version == k
    ensures forall step :: file.version <= step < k ==> LADDER[step] * file.names == {}
  {
    if k > file.version {
      StepApplied(file, k - 1);
      NamesStay(file, k - 1);
    } else {
      WaitsForVersion(file, k);
    }
  }

  /** A lone opener brings a file to the target exactly when its version is one of
      the ladder's and no name it still needs is taken; and it refuses a newer
      file, and a table of its own at version 0, before changing anything. */
  lemma MigrateSucceedsExactly(file: File)
    requires TablesAreNames(file)
    ensures (Migrate(file).1.None? && Migrate(file).0.version == TARGET) <==> 0 <= file.version <= TARGET && Clear(file)
    ensures file.version > TARGET ==> Migrate(file) == (file, Some(Storage))
    ensures file.version == 0 && RESERVED * file.tables != {} ==> Migrate(file) == (file, Some(Unsupported))
  {
    assert MigrateTo(file, 0) == (file, None);
    if file.version > TARGET {
      StoppedStays(file, 1, |LADDER|);
    } else if file.version < 0 {
      WaitsForVersion(file, |LADDER|);
    } else {
      if Clear(file) { ClearMigrates(file, |LADDER|); }
      if Migrate(file).1.None? { StepApplied(file, |LADDER|); }
      if file.version == 0 && RESERVED * file.tables != {} { StoppedStays(file, 1, |LADDER|); }
    }
  }

  /** The version is a signed number: below zero every step is skipped, and a file
      with no tables at all is opened as if it were current. */
  lemma NegativeVersionIsNotMigrated(file: File)
    requires file.version < 0
    ensures Migrate(file) == (file, None)
  {
    WaitsForVersion(file, |LADDER|);
  }

  // ---- the loop ------------------------------------------------------------

  /** The file as the connection sees it. */
  class Connection {
    var file: File

    constructor (file: File)
      ensures this.file == file
    {
      this.file := file;
    }

    /** `migrate`: each step is tried in order, in a transaction of its own. */
    method Migrate() returns (stopped: Option<Error>)
      modifies this
      ensures (file, stopped) == MigrateTo(old(file), |LADDER|)
    {
      var index := 0;
      while index < |LADDER|
        invariant index <= |LADDER| && MigrateTo(old(file), index) == (file, None)
      {
        ghost var before := file;
        var current := file.version;
        if current > TARGET {
          StoppedStays(old(file), index + 1, |LADDER|);
          return Some(Storage);
        }
        if current != index {
          index := index + 1;
          continue;
        }
        if index == 0 && RESERVED * file.tables != {} {
          StoppedStays(old(file), index + 1, |LADDER|);
          return Some(Unsupported);
        }
        if LADDER[index] * file.names != {} {
          StoppedStays(old(file), index + 1, |LADDER|);
          return Some(Storage);
        }
        if index == BACKFILL {
          file := file.(counters := Backfilled(file.live));
        }
        file := file.(names := file.names + LADDER[index], tables := file.tables + LADDER[index] * RESERVED);
        file := file.(version := index + 1, steps := file.steps + [index]);
        index := index + 1;
      }
      stopped := None;
    }
  }
}
