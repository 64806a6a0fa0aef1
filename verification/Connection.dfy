/** The connection the crate writes through: the tables as state, and the
    statements that change them. */
module Sqlite {
  import opened Wrappers
  import opened Event
  import opened Rows
  import opened Database
  import opened Announce

  /** A call that either went as its function says or left the tables alone. */
  ghost predicate Went<A(!new)>(before: Tables, after: Tables, spec: Result<(Tables, A)>, answer: Result<A>) {
    match spec
    case Ok((tables, value)) => after == tables && answer == Ok(value)
    case Err(error) => after == before && answer == Err(error)
  }

  class Connection {
    var events: seq<Row>
    var issued: Stored
    var counters: map<string, Counter>
    var checkpoints: map<string, Stored>
    var ledger: seq<LedgerRow>
    var exports: seq<Receipt>
    var models: map<string, Model>

    function Tables(): Tables
      reads this
    {
      Database.Tables(events, issued, counters, checkpoints, ledger, exports, models)
    }

    constructor ()
      ensures Tables() == Empty
    {
      events, issued, counters, checkpoints, ledger, exports, models := [], 0, map[], map[], [], [], map[];
    }

    /** Put the tables back as they were: a dropped transaction leaves what it found. */
    method Restore(began: Tables)
      modifies this
      ensures Tables() == began
    {
      events, issued, counters := began.events, began.issued, began.counters;
      checkpoints, ledger, exports, models := began.checkpoints, began.ledger, began.exports, began.models;
    }

    /** `INSERT INTO events`, answering with the position the row was given. */
    method InsertEvent(stream: string, seqNo: nat, body: Body) returns (answer: Result<nat>)
      modifies this
      ensures var spec := Insert(old(Tables()), stream, seqNo, body);
        if spec.Ok? then Tables() == spec.value && answer == Ok(spec.value.issued)
        else Tables() == old(Tables()) && answer == Err(spec.error)
    {
      if Taken(Tables(), stream, seqNo) { return Err(Storage); }
      if issued >= I64_MAX || seqNo > I64_MAX { return Err(Storage); }
      issued := issued + 1;
      events := events + [Row(issued, stream, seqNo, body)];
      answer := Ok(issued);
    }

    /** `INSERT INTO stream_seq … ON CONFLICT DO UPDATE`. */
    method UpsertCounter(stream: string, next: Counter)
      modifies this
      ensures Tables() == SetNextSeq(old(Tables()), stream, next)
    {
      counters := counters[stream := next];
    }

    /** `INSERT INTO checkpoints … ON CONFLICT DO UPDATE`. */
    method UpsertCheckpoint(consumer: string, at: U64) returns (answer: Result<()>)
      modifies this
      ensures var spec := SaveCheckpoint(old(Tables()), consumer, at);
        if spec.Ok? then Tables() == spec.value && answer == Ok(())
        else Tables() == old(Tables()) && answer == Err(spec.error)
    {
      if at > I64_MAX { return Err(Validation); }
      checkpoints := checkpoints[consumer := at];
      answer := Ok(());
    }

    /** A projection's own statements, on its own tables. */
    method WriteModel(name: string, model: Model)
      modifies this
      ensures Tables() == old(Tables()).(models := old(models)[name := model])
    {
      models := models[name := model];
    }
  }

  /** What every handle on one database shares: the connection, the wake-up channel
      and the names that live runners hold. */
  class Shared {
    const isle: Connection
    var notify: Watch
    var liveRunners: set<string>

    constructor ()
      ensures isle.Tables() == Empty && notify == Watch(0, 0) && liveRunners == {}
      ensures fresh(isle)
    {
      isle := new Connection();
      notify, liveRunners := Watch(0, 0), {};
    }

    /** `publish`: the compare and the store are one step, so the value only rises. */
    method Publish(position: nat)
      modifies this`notify
      ensures notify == old(notify).Publish(position)
      ensures old(notify).value <= notify.value && position <= notify.value
    {
      if position > notify.value {
        notify := Watch(position, notify.version + 1);
      }
    }

    /** A runner's name is its checkpoint's key, so only one may hold it. */
    method TakeName(name: string) returns (answer: Result<()>)
      modifies this`liveRunners
      ensures answer.Ok? <==> name !in old(liveRunners)
      ensures answer.Err? ==> answer == Err(Unsupported)
      ensures liveRunners == old(liveRunners) + {name}
    {
      if name in liveRunners { return Err(Unsupported); }
      liveRunners := liveRunners + {name};
      answer := Ok(());
    }

    method ReleaseName(name: string)
      modifies this`liveRunners
      ensures liveRunners == old(liveRunners) - {name}
    {
      liveRunners := liveRunners - {name};
    }
  }
}
