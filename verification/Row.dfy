/** Rows of the `events` table, and the two directions between a row and the
    event object it was written from. */
module Rows {
  import opened Wrappers
  import opened Event

  type Stored = n: nat | n <= I64_MAX

  /** The columns a row carries besides its coordinates. Time and schema version
      are `u64` outside and a signed 64-bit column inside. */
  datatype Body = Body(epochMs: I64, kind: string, version: I64, meta: Json, data: Json)

  datatype Row = Row(position: Stored, stream: string, seqNo: Stored, body: Body)

  /** `as i64` on a `u64`, and back: both wrap. */
  function ToI64(u: U64): I64 {
    if u <= I64_MAX then u else u - U64_MAX - 1
  }

  function ToU64(i: I64): U64 {
    if i >= 0 then i else i + U64_MAX + 1
  }

  /** The columns of a stamped event; `None` for one that is not stamped. */
  function BodyOf(event: Object): Option<Body> {
    if KIND in event && event[KIND].Str?
       && EPOCH_MS in event && event[EPOCH_MS].Unsigned?
       && SCHEMA_VERSION in event && event[SCHEMA_VERSION].Unsigned?
    then
      Some(Body(ToI64(event[EPOCH_MS].n), event[KIND].s, ToI64(event[SCHEMA_VERSION].n),
                if META in event then event[META] else Null,
                if DATA in event then event[DATA] else Null))
    else None
  }

  /** Reading a row back into the event object. */
  function ObjectOf(seqNo: Stored, body: Body): Object {
    map[KIND := Str(body.kind), META := body.meta, DATA := body.data, SEQ := Unsigned(seqNo),
        EPOCH_MS := Unsigned(ToU64(body.epochMs)), SCHEMA_VERSION := Unsigned(ToU64(body.version))]
  }

  /** What every row the store wrote satisfies. */
  predicate Written(body: Body) {
    body.kind != [] && ValidMeta(body.meta) && body.data.Obj?
  }

  lemma CastsRoundTrip(u: U64, i: I64)
    ensures ToU64(ToI64(u)) == u && ToI64(ToU64(i)) == i
  {}

  /** Writing a stamped event and reading the row gives the event back, over the
      whole `u64` range of its time and version. */
  lemma ReadUndoesWrite(event: Object)
    requires Stamped(event) && event[SEQ].n <= I64_MAX
    ensures BodyOf(event).Some? && Written(BodyOf(event).value)
    ensures ObjectOf(event[SEQ].n, BodyOf(event).value) == event
  {
    var back := ObjectOf(event[SEQ].n, BodyOf(event).value);
    assert back.Keys == STORED_FIELDS == event.Keys;
  }

  /** Reading a row gives an object a transfer accepts, and writing that object
      again gives the row's columns back: a row survives any number of moves. */
  lemma WriteUndoesRead(seqNo: Stored, body: Body, next: Stored)
    requires Written(body)
    ensures Stamped(ObjectOf(seqNo, body))
    ensures BodyOf(ObjectOf(seqNo, body)) == Some(body)
    ensures Restamp(ObjectOf(seqNo, body), next) == Ok(ObjectOf(next, body))
  {
    var e := ObjectOf(seqNo, body);
    assert e.Keys == STORED_FIELDS;
    assert e[SEQ := Unsigned(next)] == ObjectOf(next, body);
  }

  // ---- sequences of rows in position order -------------------------------

  ghost predicate Sorted(rows: seq<Row>) {
    forall i, j :: 0 <= i < j < |rows| ==> rows[i].position < rows[j].position
  }

  /** The rows a predicate selects, in the order they stand. */
  function Pick<T(!new)>(rows: seq<T>, keep: T -> bool): (r: seq<T>)
    ensures |r| <= |rows|
    ensures forall x :: x in r <==> x in rows && keep(x)
  {
    if rows == [] then []
    else
      var front := Pick(rows[..|rows| - 1], keep);
      if keep(rows[|rows| - 1]) then front + [rows[|rows| - 1]] else front
  }

  lemma {:induction false} PickSorted(rows: seq<Row>, keep: Row -> bool)
    requires Sorted(rows)
    ensures Sorted(Pick(rows, keep))
  {
    if rows != [] {
      var front := rows[..|rows| - 1];
      PickSorted(front, keep);
      forall x | x in Pick(front, keep)
        ensures x.position < rows[|rows| - 1].position
      {}
    }
  }

  lemma PickNothing<T(!new)>(rows: seq<T>, keep: T -> bool)
    requires forall x <- rows :: !keep(x)
    ensures Pick(rows, keep) == []
  {}

  /** Two ways to say the same selection. */
  lemma {:induction false} PickAlike<T(!new)>(rows: seq<T>, a: T -> bool, b: T -> bool)
    requires forall x <- rows :: a(x) <==> b(x)
    ensures Pick(rows, a) == Pick(rows, b)
  {
    if rows != [] {
      assert rows[|rows| - 1] in rows;
      PickAlike(rows[..|rows| - 1], a, b);
    }
  }

  lemma {:induction false} PickAll<T(!new)>(rows: seq<T>, keep: T -> bool)
    requires |Pick(rows, keep)| == |rows|
    ensures Pick(rows, keep) == rows
  {
    if rows != [] { PickAll(rows[..|rows| - 1], keep); }
  }

  lemma PickAppend<T(!new)>(rows: seq<T>, row: T, keep: T -> bool)
    ensures Pick(rows + [row], keep) == Pick(rows, keep) + if keep(row) then [row] else []
  {
    assert (rows + [row])[..|rows|] == rows;
  }

  /** What is kept and what is not add up to the whole. */
  lemma {:induction false} PickSplits<T(!new)>(rows: seq<T>, keep: T -> bool, drop: T -> bool)
    requires forall x <- rows :: drop(x) <==> !keep(x)
    ensures |Pick(rows, keep)| + |Pick(rows, drop)| == |rows|
  {
    if rows != [] {
      assert rows[|rows| - 1] in rows;
      PickSplits(rows[..|rows| - 1], keep, drop);
    }
  }

  /** Selecting from a selection is selecting by both. */
  lemma {:induction false} PickWithin<T(!new)>(rows: seq<T>, outer: T -> bool, inner: T -> bool, both: T -> bool)
    requires forall x <- rows :: both(x) <==> outer(x) && inner(x)
    ensures Pick(rows, both) == Pick(Pick(rows, outer), inner)
  {
    if rows != [] {
      var front, last := rows[..|rows| - 1], rows[|rows| - 1];
      assert rows == front + [last];
      PickWithin(front, outer, inner, both);
      if outer(last) { PickAppend(Pick(front, outer), last, inner); }
    }
  }

  /** Selecting commutes with a map the selection respects. */
  lemma {:induction false} PickMapped<A(!new), B(!new)>(a: seq<A>, b: seq<B>, f: A -> B, keepA: A -> bool, keepB: B -> bool)
    requires |a| == |b| && forall i :: 0 <= i < |a| ==> b[i] == f(a[i]) && (keepA(a[i]) <==> keepB(b[i]))
    ensures |Pick(a, keepA)| == |Pick(b, keepB)|
    ensures forall i :: 0 <= i < |Pick(a, keepA)| ==> Pick(b, keepB)[i] == f(Pick(a, keepA)[i])
  {
    if a != [] {
      PickMapped(a[..|a| - 1], b[..|b| - 1], f, keepA, keepB);
    }
  }

  /** Two position-ordered sequences with the same members are the same. */
  lemma {:induction false} SortedUnique(a: seq<Row>, b: seq<Row>)
    requires Sorted(a) && Sorted(b)
    requires forall r :: r in a <==> r in b
    ensures a == b
  {
    assert a != [] ==> a[0] in b;
    assert b != [] ==> b[0] in a;
    if a != [] {
      var x, y := a[|a| - 1], b[|b| - 1];
      assert x in b && y in a;
      assert x == y;
      var a', b' := a[..|a| - 1], b[..|b| - 1];
      forall r ensures r in a' <==> r in b' {
        if r in a' { assert r in b && r.position < x.position; }
        if r in b' { assert r in a && r.position < y.position; }
      }
      SortedUnique(a', b');
    }
  }

  lemma SortedConcat(a: seq<Row>, b: seq<Row>)
    requires Sorted(a) && Sorted(b)
    requires forall r, q :: r in a && q in b ==> r.position < q.position
    ensures Sorted(a + b)
  {}

  /** So many rows in position order take up as many positions. */
  lemma {:induction false} SortedHasRoom(rows: seq<Row>, top: nat, k: nat)
    requires Sorted(rows) && k <= |rows| && forall r <- rows :: 1 <= r.position <= top
    ensures k <= top && (k > 0 ==> k <= rows[k - 1].position)
  {
    if k > 0 {
      SortedHasRoom(rows, top, k - 1);
      assert rows[k - 1] in rows;
    }
  }

  // ---- sequence order ------------------------------------------------------

  ghost predicate SeqRises(rows: seq<Row>) {
    forall i, j :: 0 <= i < j < |rows| ==> rows[i].seqNo < rows[j].seqNo
  }

  predicate InSeqOrder(rows: seq<Row>) {
    forall i, j :: 0 <= i < j < |rows| ==> rows[i].seqNo <= rows[j].seqNo
  }

  function InsertBySeq(r: Row, rows: seq<Row>): seq<Row> {
    if rows == [] || r.seqNo <= rows[0].seqNo then [r] + rows else [rows[0]] + InsertBySeq(r, rows[1..])
  }

  /** `ORDER BY seq`. */
  function OrderBySeq(rows: seq<Row>): seq<Row> {
    if rows == [] then [] else InsertBySeq(rows[0], OrderBySeq(rows[1..]))
  }

  lemma {:induction false} InsertKeepsRows(r: Row, rows: seq<Row>)
    ensures multiset(InsertBySeq(r, rows)) == multiset([r] + rows)
  {
    if rows != [] && r.seqNo > rows[0].seqNo {
      InsertKeepsRows(r, rows[1..]);
      assert rows == [rows[0]] + rows[1..];
    }
  }

  lemma InsertMembers(r: Row, rows: seq<Row>, x: Row)
    ensures x in InsertBySeq(r, rows) <==> x == r || x in rows
  {
    InsertKeepsRows(r, rows);
    assert x in InsertBySeq(r, rows) <==> x in multiset(InsertBySeq(r, rows));
    assert x in [r] + rows <==> x in multiset([r] + rows);
  }

  lemma {:induction false} InsertIsOrdered(r: Row, rows: seq<Row>)
    requires InSeqOrder(rows)
    ensures InSeqOrder(InsertBySeq(r, rows))
  {
    if rows != [] && r.seqNo > rows[0].seqNo {
      InsertIsOrdered(r, rows[1..]);
      forall x | x in InsertBySeq(r, rows[1..]) ensures rows[0].seqNo <= x.seqNo { InsertMembers(r, rows[1..], x); }
    }
  }

  /** The same rows, in sequence order. */
  lemma {:induction false} OrderIsBySeq(rows: seq<Row>)
    ensures InSeqOrder(OrderBySeq(rows)) && multiset(OrderBySeq(rows)) == multiset(rows)
  {
    if rows != [] {
      OrderIsBySeq(rows[1..]);
      InsertIsOrdered(rows[0], OrderBySeq(rows[1..]));
      InsertKeepsRows(rows[0], OrderBySeq(rows[1..]));
      assert rows == [rows[0]] + rows[1..];
    }
  }

  /** Rows whose numbers rise stay as they stand. */
  lemma {:induction false} OrderedStays(rows: seq<Row>)
    requires SeqRises(rows)
    ensures OrderBySeq(rows) == rows
  {
    if rows != [] {
      OrderedStays(rows[1..]);
      assert rows == [rows[0]] + rows[1..];
    }
  }

  lemma {:induction false} PickRising(rows: seq<Row>, keep: Row -> bool)
    requires SeqRises(rows)
    ensures SeqRises(Pick(rows, keep))
  {
    if rows != [] {
      var front := rows[..|rows| - 1];
      PickRising(front, keep);
      forall x | x in Pick(front, keep)
        ensures x.seqNo < rows[|rows| - 1].seqNo
      {}
    }
  }
}
