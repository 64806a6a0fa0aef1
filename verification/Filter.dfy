/** Which events a cross-stream read wants. */
module Filters {
  import opened Wrappers
  import opened Event
  import opened Rows
  import StreamPrefix
  import Utf8

  const MAX_PLACEHOLDERS: nat := 32_766

  /** An integer past the signed range as the nearest double, ties to even: from
      2^63 to 2^64 doubles stand 2048 apart. */
  function ToDouble(n: U64): nat {
    var q, low := n / 2048, n % 2048;
    if low > 1024 || (low == 1024 && q % 2 == 1) then (q + 1) * 2048 else q * 2048
  }

  /** What `json_extract` hands back, as far as equality goes: a boolean is its
      number, and a missing key or a JSON `null` is `NULL`. */
  datatype Sql = SqlNull | Number(r: real) | Text(s: string) | Structured

  function SqlOf(value: Json): Sql {
    match value
    case Null => SqlNull
    case Bool(b) => Number(if b then 1.0 else 0.0)
    case Unsigned(n) => Number(if n <= I64_MAX then n as real else ToDouble(n) as real)
    case Negative(i) => Number(i as real)
    case Float(r) => Number(r)
    case Str(s) => Text(s)
    case Arr(_) => Structured
    case Obj(_) => Structured
  }

  /** `NULL = NULL` is not true in SQL. */
  predicate SqlEqual(a: Sql, b: Sql) {
    a == b && !a.SqlNull?
  }

  function Extract(meta: Json, key: string): Sql {
    if meta.Obj? && key in meta.fields then SqlOf(meta.fields[key]) else SqlNull
  }

  datatype Filter = Filter(
    kinds: Option<seq<string>>,
    streams: Option<seq<string>>,
    meta: Option<seq<(string, Json)>>,
    prefix: Option<string>)
  {
    predicate SelectsNothing() {
      (kinds.Some? && kinds.value == []) || (streams.Some? && streams.value == [])
    }

    /** `validate`: a value the `meta` axis cannot match. */
    predicate NonScalarPair() {
      meta.Some? && exists pair <- meta.value :: !IsScalar(pair.1)
    }

    /** How many parameters the statement binds: the cursor, the four axes and the
        limit. */
    function Parameters(): nat {
      2 + (if streams.Some? then |streams.value| else 0)
        + (if prefix.None? || prefix.value == "" then 0
           else if StreamPrefix.Bound(prefix.value).Some? then 2 else 1)
        + (if kinds.Some? then |kinds.value| else 0)
        + (if meta.Some? then |meta.value| else 0)
    }

    /** The later reasons a backend refuses the filter rather than run it: a list
        over the limit, a key no path can name, and at last SQLite itself, when the
        axes together bind more parameters than it allows. */
    function Refusal(): Option<Error> {
      if streams.Some? && |streams.value| > MAX_PLACEHOLDERS then Some(Unsupported)
      else if kinds.Some? && |kinds.value| > MAX_PLACEHOLDERS then Some(Unsupported)
      else if meta.Some? && |meta.value| > MAX_PLACEHOLDERS then Some(Unsupported)
      else if meta.Some? && exists pair <- meta.value :: pair.0 == "" || '\"' in pair.0 then Some(Validation)
      else if Parameters() > MAX_PLACEHOLDERS then Some(Storage)
      else None
    }

    /** The `WHERE` clause on one row: four axes, ANDed. The prefix axis is the
        byte range the source binds, not a prefix test. */
    predicate Matches(row: Row) {
      && (kinds.Some? ==> row.body.kind in kinds.value)
      && (streams.Some? ==> row.stream in streams.value)
      && (meta.Some? ==> forall pair <- meta.value :: SqlEqual(Extract(row.body.meta, pair.0), SqlOf(pair.1)))
      && (prefix.Some? && prefix.value != "" ==> InPrefixRange(row.stream, prefix.value))
    }

    /** Whether a receipt under this filter vouches for the whole of its range. */
    predicate Whole() {
      && kinds.None?
      && streams.None?
      && (meta.None? || meta.value == [])
      && (prefix.None? || prefix.value == "")
    }
  }

  const All := Filter(None, None, None, None)

  function OfKinds(kinds: Option<seq<string>>): Filter {
    Filter(kinds, None, None, None)
  }

  predicate InPrefixRange(stream: string, prefix: string) {
    var name := Utf8.EncodeAll(stream);
    && !Utf8.BytesBelow(name, Utf8.EncodeAll(prefix))
    && (StreamPrefix.Bound(prefix).Some?
        ==> Utf8.BytesBelow(name, Utf8.EncodeAll(StreamPrefix.Bound(prefix).value)))
  }

  /** What a filter selects, in a row's own terms: its kind and its stream among those
      named, its stream's name beginning with the prefix, and each `meta` pair's
      value held under the pair's key. */
  lemma MatchesMeans(f: Filter, row: Row)
    ensures f.Matches(row) <==>
      && (f.kinds.None? || row.body.kind in f.kinds.value)
      && (f.streams.None? || row.stream in f.streams.value)
      && (f.prefix.None? || f.prefix.value <= row.stream)
      && (f.meta.None? || forall i :: 0 <= i < |f.meta.value| ==> HeldUnder(row.body.meta, f.meta.value[i]))
  {
    if f.prefix.Some? { PrefixAxis(f, row); }
    if f.meta.Some? {
      forall i | 0 <= i < |f.meta.value|
        ensures HeldUnder(row.body.meta, f.meta.value[i])
          <==> SqlEqual(Extract(row.body.meta, f.meta.value[i].0), SqlOf(f.meta.value[i].1))
      {}
      if forall i :: 0 <= i < |f.meta.value| ==> HeldUnder(row.body.meta, f.meta.value[i]) {
        forall pair | pair in f.meta.value ensures SqlEqual(Extract(row.body.meta, pair.0), SqlOf(pair.1)) {
          var i :| 0 <= i < |f.meta.value| && f.meta.value[i] == pair;
          assert HeldUnder(row.body.meta, f.meta.value[i]);
        }
      } else {
        var i :| 0 <= i < |f.meta.value| && !HeldUnder(row.body.meta, f.meta.value[i]);
        assert f.meta.value[i] in f.meta.value;
      }
    }
  }

  /** A value that is not null, and the same in the database, under the key. */
  predicate HeldUnder(meta: Json, pair: (string, Json)) {
    meta.Obj? && pair.0 in meta.fields && !meta.fields[pair.0].Null? && SqlOf(meta.fields[pair.0]) == SqlOf(pair.1)
  }

  /** The prefix axis means what its field says: the name starts with the prefix,
      and the empty prefix places no condition. */
  lemma PrefixAxis(f: Filter, row: Row)
    requires f.prefix.Some?
    ensures f.Matches(row)
      <==> f.(prefix := None).Matches(row) && f.prefix.value <= row.stream
  {
    StreamPrefix.PrefixRangeIsExact(f.prefix.value, row.stream);
  }

  lemma NothingSelected(f: Filter, row: Row)
    requires f.SelectsNothing()
    ensures !f.Matches(row)
  {}

  /** A name longer than every name listed. */
  function Longer(names: seq<string>): (n: string)
    ensures forall name <- names :: |name| < |n|
  {
    if names == [] then "x"
    else
      var rest := Longer(names[1..]);
      if |names[0]| < |rest| then rest else names[0] + "x"
  }

  /** `whole` is exact: it holds of a filter precisely when no row could have
      been left out of the range it selected. */
  lemma WholeSelectsEverything(f: Filter)
    ensures f.Whole() <==> forall row: Row :: f.Matches(row)
  {
    var blank := Body(0, "", 0, Obj(map[]), Obj(map[]));
    var plain := Row(1, "", 1, blank);
    if !f.Whole() {
      if f.kinds.Some? {
        assert !f.Matches(plain.(body := blank.(kind := Longer(f.kinds.value))));
      } else if f.streams.Some? {
        assert !f.Matches(plain.(stream := Longer(f.streams.value)));
      } else if f.meta.Some? && f.meta.value != [] {
        assert f.meta.value[0] in f.meta.value;
        assert !f.Matches(plain);
      } else {
        PrefixAxis(f, plain);
        assert !f.Matches(plain);
      }
    }
  }

  /** What a `meta` pair matches, exactly: the same string, or the same number as
      the database holds it, where a boolean counts as 1 or 0. A key the event
      lacks matches nothing. */
  lemma MetaPairMatches(meta: Json, key: string, value: Json)
    requires ValidMeta(meta) && IsScalar(value)
    ensures SqlEqual(Extract(meta, key), SqlOf(value)) <==>
      && key in meta.fields
      && (meta.fields[key].Str? <==> value.Str?)
      && (if value.Str? then meta.fields[key] == value
          else SqlOf(meta.fields[key]).r == SqlOf(value).r)
  {
    if key in meta.fields { assert IsScalar(meta.fields[key]); }
  }

  /** No multiple of 2048 is nearer, and of two as near the even one is taken. */
  lemma NearestDouble(n: U64, m: nat)
    ensures ToDouble(n) % 2048 == 0
    ensures Apart(n, ToDouble(n)) <= Apart(n, 2048 * m)
    ensures Apart(n, ToDouble(n)) == Apart(n, 2048 * m) && ToDouble(n) != 2048 * m
      ==> ToDouble(n) / 2048 % 2 == 0
  {
    var q := n / 2048;
    assert m <= q ==> 2048 * m <= 2048 * q;
    assert m > q ==> 2048 * m >= 2048 * q + 2048;
    assert ToDouble(n) == 2048 * q || ToDouble(n) == 2048 * (q + 1);
  }

  function Apart(a: nat, b: nat): nat {
    if a < b then b - a else a - b
  }

  lemma DoublesAreWide(n: U64)
    requires n > I64_MAX
    ensures ToDouble(n) > I64_MAX
    ensures ToDouble(n) - 1024 <= n <= ToDouble(n) + 1024
  {}

  /** Two unsigned numbers match as numbers do up to the signed maximum; past it two
      match exactly when the same double is nearest to both. */
  lemma UnsignedMatch(a: U64, b: U64)
    ensures SqlEqual(SqlOf(Unsigned(a)), SqlOf(Unsigned(b))) <==>
      a == b || (a > I64_MAX && b > I64_MAX && ToDouble(a) == ToDouble(b))
  {
    if a > I64_MAX { DoublesAreWide(a); }
    if b > I64_MAX { DoublesAreWide(b); }
  }

  /** So a filter on 2^63 selects an event that holds 2^63 + 1. */
  lemma WideNumbersCollide()
    ensures SqlEqual(Extract(Obj(map["n" := Unsigned(I64_MAX + 2)]), "n"), SqlOf(Unsigned(I64_MAX + 1)))
  {}

  /** The check on a list's length promises 32 766 names. Two of the parameters are
      the statement's own, so two lengths pass the check and fail in SQLite. */
  lemma KindsThatFit(kinds: seq<string>)
    ensures OfKinds(Some(kinds)).Refusal()
      == if |kinds| <= MAX_PLACEHOLDERS - 2 then None
         else if |kinds| <= MAX_PLACEHOLDERS then Some(Storage)
         else Some(Unsupported)
  {}

  function Listed<T>(axis: Option<seq<T>>): nat {
    if axis.Some? then |axis.value| else 0
  }

  /** How many ends the range of a prefix has: none without one, and no upper end when
      the prefix is the last character alone, however often. */
  function Ends(prefix: Option<string>): nat {
    if prefix.None? || prefix.value == "" then 0
    else if forall c <- prefix.value :: c == StreamPrefix.CHAR_MAX then 1
    else 2
  }

  /** Every `meta` pair has a key a path can name. */
  predicate Nameable(f: Filter) {
    f.meta.Some? ==> forall i :: 0 <= i < |f.meta.value| ==> f.meta.value[i].0 != "" && '\"' !in f.meta.value[i].0
  }

  predicate TooLong(f: Filter) {
    Listed(f.kinds) > MAX_PLACEHOLDERS || Listed(f.streams) > MAX_PLACEHOLDERS || Listed(f.meta) > MAX_PLACEHOLDERS
  }

  /** All that the statement binds: its cursor and its limit, every name and value
      listed, and the ends of the prefix's range. */
  predicate Binds(f: Filter) {
    Listed(f.kinds) + Listed(f.streams) + Listed(f.meta) + Ends(f.prefix) <= MAX_PLACEHOLDERS - 2
  }

  /** A filter runs exactly when its keys can be named and all it binds fits in one
      statement, which leaves no list too long; and what each refusal says. */
  lemma RunsExactly(f: Filter)
    ensures f.Refusal() ==
      if Nameable(f) && Binds(f) then None
      else if TooLong(f) then Some(Unsupported)
      else if !Nameable(f) then Some(Validation)
      else Some(Storage)
  {
    if f.prefix.Some? { StreamPrefix.NoBoundExactly(f.prefix.value); }
    if f.meta.Some? {
      if Nameable(f) {
        forall pair | pair in f.meta.value ensures pair.0 != "" && '\"' !in pair.0 {
          var i :| 0 <= i < |f.meta.value| && f.meta.value[i] == pair;
        }
      } else {
        var i :| 0 <= i < |f.meta.value| && (f.meta.value[i].0 == "" || '\"' in f.meta.value[i].0);
        assert f.meta.value[i] in f.meta.value;
      }
    }
  }

  /** The documentation says a boolean filter matches "the same boolean". It also
      matches the number: a stored `1` is selected by `true`. */
  lemma BooleanMatchesANumber()
    ensures SqlEqual(Extract(Obj(map["closed" := Unsigned(1)]), "closed"), SqlOf(Bool(true)))
  {}
}
