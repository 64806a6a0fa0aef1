/** The in-memory store: one stream as a list of stamped events, whose numbers
    are derived from its length. */
module Mem {
  import opened Wrappers
  import opened Event
  import opened Rows

  /** What a store without positions answers a write with. */
  datatype Landed = Landed(seqNo: nat, epochMs: U64)

  function StoredSeq(event: Object): nat {
    if SEQ in event && event[SEQ].Unsigned? then event[SEQ].n else 0
  }

  predicate Wanted(event: Object, kinds: Option<seq<string>>, from: nat) {
    && StoredSeq(event) >= from
    && (kinds.Some? ==> KIND in event && event[KIND].Str? && event[KIND].s in kinds.value)
  }

  function Take<T>(list: seq<T>, limit: nat): seq<T> {
    if limit < |list| then list[..limit] else list
  }

  function Project(events: seq<Object>, kinds: Option<seq<string>>, from: U64, limit: nat): seq<Object> {
    Take(Pick(events, (event: Object) => Wanted(event, kinds, from)), limit)
  }

  function Append(events: seq<Object>, event: Object, clock: U64): Result<(seq<Object>, Landed)>
    requires |events| < U64_MAX
  {
    var stamped :- Stamp(event, |events| + 1, clock);
    Ok((events + [stamped], Landed(|events| + 1, clock)))
  }

  predicate AllValid(batch: seq<Object>) { forall event <- batch :: Valid(event) }

  /** The first `k` events of a batch, each with a clock reading of its own. */
  function AppendTo(events: seq<Object>, batch: seq<Object>, clocks: seq<U64>, k: nat): (r: (seq<Object>, seq<Landed>))
    requires k <= |batch| == |clocks| && AllValid(batch) && |events| + |batch| <= U64_MAX
    ensures |r.0| == |events| + k && |r.1| == k
  {
    if k == 0 then (events, [])
    else
      var (before, landed) := AppendTo(events, batch, clocks, k - 1);
      assert batch[k - 1] in batch;
      var (after, last) := Append(before, batch[k - 1], clocks[k - 1]).value;
      (after, landed + [last])
  }

  function AppendMany(events: seq<Object>, batch: seq<Object>, clocks: seq<U64>): Result<(seq<Object>, seq<Landed>)>
    requires |batch| == |clocks| && |events| + |batch| <= U64_MAX
  {
    if AllValid(batch) then Ok(AppendTo(events, batch, clocks, |batch|)) else Err(Validation)
  }

  function AppendIf(events: seq<Object>, kinds: Option<seq<string>>, decide: seq<Object> -> Option<Object>, clock: U64)
    : Result<(seq<Object>, Option<Landed>)>
    requires |events| < U64_MAX
  {
    match decide(Project(events, kinds, 0, U64_MAX))
    case None => Ok((events, None))
    case Some(event) =>
      var (after, landed) :- Append(events, event, clock);
      Ok((after, Some(landed)))
  }

  function ReadLast(events: seq<Object>, n: nat): seq<Object> {
    events[if n < |events| then |events| - n else 0..]
  }

  function Head(events: seq<Object>): Option<nat> {
    if events == [] then None else Some(StoredSeq(events[|events| - 1]))
  }

  /** Every event is stamped with its place. */
  ghost predicate Placed(events: seq<Object>) {
    forall i :: 0 <= i < |events| ==> StoredSeq(events[i]) == i + 1
  }

  lemma AppendIsPlaced(events: seq<Object>, event: Object, clock: U64)
    requires Placed(events) && |events| < U64_MAX
    ensures Append(events, event, clock).Ok? <==> Valid(event)
    ensures Append(events, event, clock).Ok? ==> Placed(Append(events, event, clock).value.0)
  {
    if Valid(event) { StampIsStored(event, |events| + 1, clock); }
  }
}
