/** The index name made from a `meta` key, and which keys share one. An index is
    created only if its name is free, so a second key under a taken name gets no
    index and no error. */
module MetaIndex {
  import opened Utf8

  predicate PlainChar(c: char) {
    'a' <= c <= 'z' || 'A' <= c <= 'Z' || '0' <= c <= '9' || c == '_'
  }

  predicate Plain(key: string) {
    forall c <- key :: PlainChar(c)
  }

  const DIGITS: string := "0123456789abcdef"

  /** Two lower-case hexadecimal digits. */
  function Hex(octet: nat): string {
    [DIGITS[octet / 16 % 16], DIGITS[octet % 16]]
  }

  function HexAll(octets: Bytes): string {
    if octets == [] then [] else Hex(octets[0]) + HexAll(octets[1..])
  }

  function Spelled(key: string): string {
    if Plain(key) then key else "x" + HexAll(EncodeAll(key))
  }

  function IndexName(key: string): string { "events_meta_" + Spelled(key) }

  /** An ASCII letter or digit, or an underscore, by its code. */
  predicate Identifying(c: char) {
    var code := c as int;
    0x30 <= code <= 0x39 || 0x41 <= code <= 0x5A || code == 0x5F || 0x61 <= code <= 0x7A
  }

  lemma {:induction false} HexIdentifies(octets: Bytes)
    ensures forall c <- HexAll(octets) :: Identifying(c)
  {
    if octets != [] {
      HexIdentifies(octets[1..]);
      assert forall i :: 0 <= i < 16 ==> Identifying(DIGITS[i]);
    }
  }

  /** Any key, quotes and blanks and all, gives a name that needs no quoting, and a key
      that needed none stands in it as it is. */
  lemma NameIsAnIdentifier(key: string)
    ensures forall c <- IndexName(key) :: Identifying(c)
    ensures (forall c <- key :: Identifying(c)) ==> IndexName(key) == "events_meta_" + key
  {
    HexIdentifies(EncodeAll(key));
    assert forall c <- "events_meta_" :: Identifying(c);
    assert IndexName(key) == "events_meta_" + Spelled(key);
  }

  /** SQLite compares names without regard to ASCII case. */
  function Lower(s: string): (l: string)
    ensures |l| == |s|
    ensures forall i :: 0 <= i < |s| ==> l[i] == LowerChar(s[i])
  {
    seq(|s|, i requires 0 <= i < |s| => LowerChar(s[i]))
  }

  function LowerChar(c: char): char {
    if 'A' <= c <= 'Z' then (c as int + 32) as char else c
  }

  predicate SameIndex(a: string, b: string) { Lower(IndexName(a)) == Lower(IndexName(b)) }

  /** The same letters, some of them in the other case. */
  predicate SameButForCase(a: string, b: string) {
    |a| == |b| && forall i :: 0 <= i < |a| ==> a[i] == b[i] || Raised(a[i], b[i]) || Raised(b[i], a[i])
  }

  predicate Raised(upper: char, lower: char) {
    0x41 <= upper as int <= 0x5A && lower as int == upper as int + 0x20
  }

  lemma LowerIsBlindToCase(a: string, b: string)
    ensures Lower(a) == Lower(b) <==> SameButForCase(a, b)
  {
    if Lower(a) == Lower(b) {
      forall i | 0 <= i < |a| ensures a[i] == b[i] || Raised(a[i], b[i]) || Raised(b[i], a[i]) {
        assert LowerChar(a[i]) == Lower(a)[i] == Lower(b)[i] == LowerChar(b[i]);
      }
    }
  }

  lemma LowerConcat(a: string, b: string)
    ensures Lower(a + b) == Lower(a) + Lower(b)
  {}

  lemma OneHexIsLower(octet: nat)
    ensures Lower(Hex(octet)) == Hex(octet)
  {
    assert forall i :: 0 <= i < 16 ==> LowerChar(DIGITS[i]) == DIGITS[i];
  }

  lemma {:induction false} HexIsLower(octets: Bytes)
    ensures Lower("x" + HexAll(octets)) == "x" + HexAll(octets)
    ensures Lower(HexAll(octets)) == HexAll(octets)
  {
    if octets != [] {
      HexIsLower(octets[1..]);
      OneHexIsLower(octets[0]);
      LowerConcat(Hex(octets[0]), HexAll(octets[1..]));
    }
    LowerConcat("x", HexAll(octets));
  }

  predicate AreOctets(b: Bytes) { forall i :: 0 <= i < |b| ==> b[i] < 0x100 }

  lemma {:induction false} HexTellsApart(a: Bytes, b: Bytes)
    requires AreOctets(a) && AreOctets(b) && HexAll(a) == HexAll(b)
    ensures a == b
  {
    if a != [] && b != [] {
      var x, y := HexAll(a), HexAll(b);
      assert x[..2] == Hex(a[0]) && y[..2] == Hex(b[0]) && x[2..] == HexAll(a[1..]) && y[2..] == HexAll(b[1..]);
      DigitsTellApart(a[0], b[0]);
      HexTellsApart(a[1..], b[1..]);
    } else {
      assert a != [] ==> HexAll(a) != [];
      assert b != [] ==> HexAll(b) != [];
    }
  }

  function ValueOf(digit: char): int {
    if digit <= '9' then digit as int - 0x30 else digit as int - 0x61 + 10
  }

  lemma DigitHasValue(i: nat)
    requires i < 16
    ensures ValueOf(DIGITS[i]) == i
  {}

  lemma HexHasValue(octet: nat)
    requires octet < 0x100
    ensures ValueOf(Hex(octet)[0]) * 16 + ValueOf(Hex(octet)[1]) == octet
  {
    var high, low := octet / 16 % 16, octet % 16;
    DigitHasValue(high);
    DigitHasValue(low);
    assert octet == high * 16 + low;
    assert Hex(octet)[0] == DIGITS[high] && Hex(octet)[1] == DIGITS[low];
  }

  lemma DigitsTellApart(a: nat, b: nat)
    requires a < 0x100 && b < 0x100 && Hex(a) == Hex(b)
    ensures a == b
  {
    HexHasValue(a);
    HexHasValue(b);
  }

  lemma {:induction false} EncodedAreOctets(s: string)
    ensures AreOctets(EncodeAll(s))
  {
    if s != [] {
      EncodedAreOctets(s[1..]);
    }
  }

  lemma {:induction false} DifferentAreOrdered(a: string, b: string)
    requires a != b
    ensures Below(a, b) || Below(b, a)
  {
    if a != [] && b != [] && a[0] == b[0] {
      assert a == [a[0]] + a[1..] && b == [b[0]] + b[1..];
      DifferentAreOrdered(a[1..], b[1..]);
    }
  }

  lemma EncodingTellsApart(a: string, b: string)
    requires EncodeAll(a) == EncodeAll(b)
    ensures a == b
  {
    if a != b {
      DifferentAreOrdered(a, b);
      Utf8KeepsOrder(a, b);
      Utf8KeepsOrder(b, a);
      BelowIrreflexive(EncodeAll(a));
    }
  }

  /** Exactly which keys share an index: two plain keys that differ in case only, or
      a plain key that happens to be the hexadecimal spelling of another. Two keys
      that are both spelled in hexadecimal never do. */
  lemma {:induction false} SharedIndexExactly(a: string, b: string)
    ensures SameIndex(a, b) <==>
      if Plain(a) && Plain(b) then SameButForCase(a, b)
      else if Plain(a) then SameButForCase(a, "x" + HexAll(EncodeAll(b)))
      else if Plain(b) then SameButForCase(b, "x" + HexAll(EncodeAll(a)))
      else a == b
  {
    LowerIsBlindToCase(Spelled(a), Spelled(b));
    LowerIsBlindToCase(Spelled(b), Spelled(a));
    LowerConcat("events_meta_", Spelled(a));
    LowerConcat("events_meta_", Spelled(b));
    assert SameIndex(a, b) <==> Lower(Spelled(a)) == Lower(Spelled(b)) by {
      var n := Lower("events_meta_");
      assert (n + Lower(Spelled(a)))[|n|..] == Lower(Spelled(a));
      assert (n + Lower(Spelled(b)))[|n|..] == Lower(Spelled(b));
    }
    HexIsLower(EncodeAll(a));
    HexIsLower(EncodeAll(b));
    if !Plain(a) && !Plain(b) && Lower(Spelled(a)) == Lower(Spelled(b)) {
      assert ("x" + HexAll(EncodeAll(a)))[1..] == HexAll(EncodeAll(a));
      assert ("x" + HexAll(EncodeAll(b)))[1..] == HexAll(EncodeAll(b));
      EncodedAreOctets(a);
      EncodedAreOctets(b);
      HexTellsApart(EncodeAll(a), EncodeAll(b));
      EncodingTellsApart(a, b);
    }
  }

  lemma DotSpelled()
    ensures Spelled(".") == "x2e"
  {
    assert !Plain(".") by { assert '.' in "."; }
    assert EncodeAll(".") == Encode('.') + EncodeAll("") == [0x2e];
    assert HexAll([0x2e]) == Hex(0x2e) + HexAll([]) == "2e";
  }

  /** So the name is not one to one: a dot and the plain key that spells it. */
  lemma DotAndItsSpellingShare()
    ensures SameIndex(".", "x2e")
  {
    DotSpelled();
    assert Plain("x2e") && Spelled("x2e") == "x2e";
  }
}
