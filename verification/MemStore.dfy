/** The in-memory backend as the object it is, each method against its function. */
module MemStore {
  import opened Wrappers
  import opened Event
  import Mem

  /** The store as an object: one handle, one list. */
  class MemEventStore {
    var events: seq<Object>

    constructor ()
      ensures events == []
    {
      events := [];
    }

    method Append(event: Object, clock: U64) returns (answer: Result<Mem.Landed>)
      requires |events| < U64_MAX
      modifies this
      ensures var spec := Mem.Append(old(events), event, clock);
        if spec.Ok? then events == spec.value.0 && answer == Ok(spec.value.1)
        else events == old(events) && answer == Err(spec.error)
    {
      var seqNo := |events| + 1;
      var stamped := Stamp(event, seqNo, clock);
      if stamped.Err? { return Err(stamped.error); }
      events := events + [stamped.value];
      answer := Ok(Mem.Landed(seqNo, clock));
    }

    /** The whole batch is validated before any of it is written. */
    method AppendMany(batch: seq<Object>, clocks: seq<U64>) returns (answer: Result<seq<Mem.Landed>>)
      requires |batch| == |clocks| && |events| + |batch| <= U64_MAX
      modifies this
      ensures var spec := Mem.AppendMany(old(events), batch, clocks);
        if spec.Ok? then events == spec.value.0 && answer == Ok(spec.value.1)
        else events == old(events) && answer == Err(spec.error)
    {
      var i := 0;
      while i < |batch|
        invariant i <= |batch| && events == old(events)
        invariant forall event <- batch[..i] :: Valid(event)
      {
        if !Valid(batch[i]) {
          assert batch[i] in batch;
          return Err(Validation);
        }
        assert batch[..i + 1] == batch[..i] + [batch[i]];
        i := i + 1;
      }
      assert batch[..i] == batch;
      var committed := [];
      i := 0;
      while i < |batch|
        invariant i <= |batch|
        invariant (events, committed) == Mem.AppendTo(old(events), batch, clocks, i)
      {
        assert batch[i] in batch;
        var landed := this.Append(batch[i], clocks[i]);
        committed := committed + [landed.value];
        i := i + 1;
      }
      answer := Ok(committed);
    }

    method AppendIf(kinds: Option<seq<string>>, decide: seq<Object> -> Option<Object>, clock: U64)
      returns (answer: Result<Option<Mem.Landed>>)
      requires |events| < U64_MAX
      modifies this
      ensures var spec := Mem.AppendIf(old(events), kinds, decide, clock);
        if spec.Ok? then events == spec.value.0 && answer == Ok(spec.value.1)
        else events == old(events) && answer == Err(spec.error)
    {
      match decide(Mem.Project(events, kinds, 0, U64_MAX)) {
        case None => answer := Ok(None);
        case Some(event) =>
          var landed := this.Append(event, clock);
          answer := if landed.Ok? then Ok(Some(landed.value)) else Err(landed.error);
      }
    }
  }
}
