/** The event envelope: what a caller may write, what the store stamps, and what
    an event that comes from another store must carry. */
module Event {
  import opened Wrappers

  const U64_MAX: int := 0xFFFF_FFFF_FFFF_FFFF
  const I64_MAX: int := 0x7FFF_FFFF_FFFF_FFFF

  type U64 = n: nat | n <= U64_MAX
  type I64 = i: int | -I64_MAX - 1 <= i <= I64_MAX

  /** A JSON value. A number is a `u64`, a negative `i64`, or neither. */
  datatype Json =
    | Null
    | Bool(b: bool)
    | Unsigned(n: U64)
    | Negative(i: I64)
    | Float(r: real)
    | Str(s: string)
    | Arr(items: seq<Json>)
    | Obj(fields: map<string, Json>)

  /** A top-level key: one of the six the envelope knows, or any other name. */
  datatype Key = KIND | META | DATA | SEQ | EPOCH_MS | SCHEMA_VERSION | OTHER(name: string)

  type Object = map<Key, Json>

  const DEFAULT_SCHEMA_VERSION: U64 := 1

  const CALLER_FIELDS: set<Key> := {KIND, META, DATA, SCHEMA_VERSION}
  const STORED_FIELDS: set<Key> := CALLER_FIELDS + {SEQ, EPOCH_MS}

  predicate IsScalar(value: Json) {
    value.Str? || value.Unsigned? || value.Negative? || value.Float? || value.Bool?
  }

  /** `meta` is one level deep and holds scalars only. */
  predicate ValidMeta(meta: Json) {
    meta.Obj? && forall key <- meta.fields :: IsScalar(meta.fields[key])
  }

  predicate ValidKind(event: Object) {
    KIND in event && event[KIND].Str? && event[KIND].s != []
  }

  predicate ValidLevels(event: Object) {
    && (META in event ==> ValidMeta(event[META]))
    && (DATA in event ==> event[DATA].Obj?)
    && (SCHEMA_VERSION in event ==> event[SCHEMA_VERSION].Unsigned?)
  }

  /** The contract a caller's event is held to before anything is written. */
  predicate Valid(event: Object) {
    ValidKind(event) && event.Keys <= CALLER_FIELDS && ValidLevels(event)
  }

  /** The contract of an event that already carries the store-written fields. */
  predicate ValidStored(event: Object) {
    && event.Keys <= STORED_FIELDS
    && ValidLevels(event)
    && (SEQ in event ==> event[SEQ].Unsigned?)
    && ValidKind(event)
    && EPOCH_MS in event && event[EPOCH_MS].Unsigned?
    && SCHEMA_VERSION in event
  }

  /** What a caller may append, and no other field, each of its own shape: a kind that
      is a string and not empty; `meta` an object of no nulls, arrays or objects;
      `data` an object; the version an unsigned number. */
  lemma ValidIs(event: Object)
    ensures Valid(event) <==>
      && KIND in event && event[KIND].Str? && |event[KIND].s| > 0
      && (forall key <- event :: key == KIND || key == META || key == DATA || key == SCHEMA_VERSION)
      && (META in event ==> FlatObject(event[META]))
      && (DATA in event ==> event[DATA].Obj?)
      && (SCHEMA_VERSION in event ==> event[SCHEMA_VERSION].Unsigned?)
  {}

  /** What an import accepts: the same with the time and the version there, and the
      number if it is there, each an unsigned number. */
  lemma ValidStoredIs(event: Object)
    ensures ValidStored(event) <==>
      && KIND in event && event[KIND].Str? && |event[KIND].s| > 0
      && (forall key <- event :: !key.OTHER?)
      && (META in event ==> FlatObject(event[META]))
      && (DATA in event ==> event[DATA].Obj?)
      && EPOCH_MS in event && event[EPOCH_MS].Unsigned?
      && SCHEMA_VERSION in event && event[SCHEMA_VERSION].Unsigned?
      && (SEQ in event ==> event[SEQ].Unsigned?)
  {}

  predicate FlatObject(value: Json) {
    value.Obj? && forall key <- value.fields ::
      var v := value.fields[key]; !v.Null? && !v.Arr? && !v.Obj?
  }

  function OrInsert(event: Object, key: Key, value: Json): Object {
    if key in event then event else event[key := value]
  }

  /** Validate, then fill in the store-written fields. The schema version is the
      author's to choose; the default is for an author who did not. */
  function Stamp(event: Object, seqNo: U64, epochMs: U64): Result<Object> {
    if !Valid(event) then Err(Validation)
    else
      var filled := OrInsert(OrInsert(event, META, Obj(map[])), DATA, Obj(map[]));
      Ok(OrInsert(filled[SEQ := Unsigned(seqNo)][EPOCH_MS := Unsigned(epochMs)],
                  SCHEMA_VERSION, Unsigned(DEFAULT_SCHEMA_VERSION)))
  }

  /** The transfer's counterpart: only `seq` is reassigned. */
  function Restamp(stored: Object, seqNo: U64): Result<Object> {
    if !ValidStored(stored) then Err(Validation)
    else Ok(OrInsert(OrInsert(stored, META, Obj(map[])), DATA, Obj(map[]))[SEQ := Unsigned(seqNo)])
  }

  /** An object the store may write: all six fields, each of its own type. */
  predicate Stamped(event: Object) {
    && ValidStored(event)
    && event.Keys == STORED_FIELDS
  }

  /** What a stamp is for: every caller-written field survives, the coordinates
      are the store's, what the caller left out gets its default, and nothing else
      appears. The result is a stored event, which a caller may not append. */
  lemma StampIsStored(event: Object, seqNo: U64, epochMs: U64)
    requires Stamp(event, seqNo, epochMs).Ok?
    ensures var e := Stamp(event, seqNo, epochMs).value;
      && Stamped(e) && !Valid(e)
      && e[SEQ] == Unsigned(seqNo) && e[EPOCH_MS] == Unsigned(epochMs)
      && (forall key <- event :: e[key] == event[key])
      && (forall key | key in {META, DATA} && key !in event :: e[key] == Obj(map[]))
      && (SCHEMA_VERSION !in event ==> e[SCHEMA_VERSION] == Unsigned(1))
  {
    var e := Stamp(event, seqNo, epochMs).value;
    assert e.Keys == STORED_FIELDS by {
      forall key ensures key in e.Keys <==> key in STORED_FIELDS {}
    }
  }

  lemma RestampIsStored(stored: Object, seqNo: U64)
    requires Restamp(stored, seqNo).Ok?
    ensures var e := Restamp(stored, seqNo).value;
      && Stamped(e)
      && e[SEQ] == Unsigned(seqNo)
      && (forall key <- stored | key != SEQ :: e[key] == stored[key])
      && (forall key | key in {META, DATA} && key !in stored :: e[key] == Obj(map[]))
  {
    var e := Restamp(stored, seqNo).value;
    assert e.Keys == STORED_FIELDS by {
      forall key ensures key in e.Keys <==> key in STORED_FIELDS {}
    }
  }
}
