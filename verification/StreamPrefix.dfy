/** `stream_prefix_bound`: the exclusive upper end of the range of stream names
    that start with a prefix, and why that range is exact. */
module StreamPrefix {
  import opened Wrappers
  import opened Utf8

  const CHAR_MAX := '\U{10FFFF}'

  /** The next scalar value, stepping over the surrogate range. */
  function NextScalar(c: char): (r: Option<char>)
    ensures r.None? <==> c == CHAR_MAX
    ensures r.Some? ==> c < r.value
  {
    if c == CHAR_MAX then None
    else if c == '\U{D7FF}' then Some('\U{E000}')
    else Some((c as int + 1) as char)
  }

  /** Nothing lies between a scalar value and its successor. */
  lemma NothingBetween(c: char, d: char)
    requires NextScalar(c).Some?
    ensures d < NextScalar(c).value <==> d <= c
  {}

  /** The bound, defined from the front: the carry of the rest decides whether
      this character has to move. */
  function Bound(prefix: string): Option<string> {
    if prefix == [] then None
    else
      match Bound(prefix[1..])
      case Some(rest) => Some([prefix[0]] + rest)
      case None =>
        match NextScalar(prefix[0])
        case Some(next) => Some([next])
        case None => None
  }

  /** There is no bound exactly when no character of the prefix has a successor. */
  lemma {:induction false} NoBoundExactly(prefix: string)
    ensures Bound(prefix).None? <==> forall c <- prefix :: c == CHAR_MAX
  {
    if prefix != [] {
      NoBoundExactly(prefix[1..]);
      assert forall c <- prefix[1..] :: c in prefix;
      assert prefix[0] in prefix;
      assert prefix == [prefix[0]] + prefix[1..];
      if Bound(prefix).None? { assert prefix[0] == CHAR_MAX && Bound(prefix[1..]).None?; }
    }
  }

  /** The source's loop: from the last character back, the first that has a
      successor takes it and everything after it is dropped. */
  method StreamPrefixBound(prefix: string) returns (bound: Option<string>)
    ensures bound == Bound(prefix)
  {
    var at := |prefix|;
    while at > 0
      invariant 0 <= at <= |prefix|
      invariant Bound(prefix[at..]) == None
    {
      at := at - 1;
      assert prefix[at..][1..] == prefix[at + 1..];
      var next := NextScalar(prefix[at]);
      if next.Some? {
        assert Bound(prefix[at..]) == Some([next.value]);
        BoundKeepsFront(prefix[..at], prefix[at..]);
        assert prefix[..at] + prefix[at..] == prefix;
        return Some(prefix[..at] + [next.value]);
      }
    }
    assert prefix[0..] == prefix;
    return None;
  }

  lemma {:induction false} BoundKeepsFront(front: string, rest: string)
    requires Bound(rest).Some?
    ensures Bound(front + rest) == Some(front + Bound(rest).value)
  {
    if front == [] {
      assert front + rest == rest && front + Bound(rest).value == Bound(rest).value;
    } else {
      BoundKeepsFront(front[1..], rest);
      assert (front + rest)[1..] == front[1..] + rest;
      assert [front[0]] + (front[1..] + Bound(rest).value) == front + Bound(rest).value;
    }
  }

  predicate InRange(name: string, prefix: string) {
    !Below(name, prefix) && (Bound(prefix).None? || Below(name, Bound(prefix).value))
  }

  lemma {:induction false} InRangeIsPrefix(name: string, prefix: string)
    ensures InRange(name, prefix) <==> prefix <= name
  {
    if prefix != [] && name != [] {
      InRangeIsPrefix(name[1..], prefix[1..]);
      var n, h := name[0], prefix[0];
      assert prefix <= name <==> n == h && prefix[1..] <= name[1..] by {
        if n == h && prefix[1..] <= name[1..] {
          assert prefix == [h] + prefix[1..] && name == [n] + name[1..];
        }
      }
      if Bound(prefix[1..]).Some? {
        assert Bound(prefix).value[1..] == Bound(prefix[1..]).value;
      } else if NextScalar(h).Some? {
        NothingBetween(h, n);
        assert Below(name, Bound(prefix).value) <==> n <= h;
      }
    }
  }

  /** `prefix <= name < bound`, compared as bytes of UTF-8, holds exactly of the
      names that start with `prefix`; where there is no bound the range is open. */
  lemma PrefixRangeIsExact(prefix: string, name: string)
    ensures
      (&& !BytesBelow(EncodeAll(name), EncodeAll(prefix))
       && (Bound(prefix).Some? ==> BytesBelow(EncodeAll(name), EncodeAll(Bound(prefix).value))))
      <==> prefix <= name
  {
    Utf8KeepsOrder(name, prefix);
    if Bound(prefix).Some? { Utf8KeepsOrder(name, Bound(prefix).value); }
    InRangeIsPrefix(name, prefix);
  }

  lemma {:induction false} BelowTransitive(a: string, b: string, c: string)
    requires Below(a, b) && !Below(c, b)
    ensures Below(a, c)
  {
    if a != [] && c != [] && a[0] == b[0] == c[0] { BelowTransitive(a[1..], b[1..], c[1..]); }
  }

  ghost predicate AboveEveryName(prefix: string, upper: string) {
    forall name: string :: prefix <= name ==> BytesBelow(EncodeAll(name), EncodeAll(upper))
  }

  /** The bound is the least string above every name that starts with `prefix`,
      and where it is `None` no string is above them all. */
  lemma BoundIsLeast(prefix: string, upper: string)
    ensures AboveEveryName(prefix, upper)
      <==> Bound(prefix).Some? && !BytesBelow(EncodeAll(upper), EncodeAll(Bound(prefix).value))
  {
    if Bound(prefix).Some? && !BytesBelow(EncodeAll(upper), EncodeAll(Bound(prefix).value)) {
      var bound := Bound(prefix).value;
      Utf8KeepsOrder(upper, bound);
      forall name: string | prefix <= name
        ensures BytesBelow(EncodeAll(name), EncodeAll(upper))
      {
        InRangeIsPrefix(name, prefix);
        BelowTransitive(name, bound, upper);
        Utf8KeepsOrder(name, upper);
      }
    }
    if AboveEveryName(prefix, upper) {
      if Bound(prefix).Some? { Utf8KeepsOrder(upper, Bound(prefix).value); }
      if Bound(prefix).None? || Below(upper, Bound(prefix).value) {
        assert prefix <= prefix;
        Utf8KeepsOrder(prefix, upper);
        if !Below(upper, prefix) {
          InRangeIsPrefix(upper, prefix);
          BelowIrreflexive(EncodeAll(upper));
        } else {
          Utf8KeepsOrder(upper, prefix);
          BelowAsymmetric(EncodeAll(prefix), EncodeAll(upper));
        }
        assert false;
      }
    }
  }
}
