/** UTF-8 as section 3 of RFC 3629 defines it, and the order a bytewise
    comparison of it gives.

    A Dafny `char` is a Unicode scalar value, as a Rust `char` is, so a Dafny
    `string` is a Rust `String`. */
module Utf8 {
  import opened Wrappers

  type Bytes = seq<nat>

  /** The octets of one scalar value: one to four of them, by range. */
  function Encode(c: char): (b: Bytes)
    ensures 1 <= |b| <= 4
  {
    var n := c as int;
    if n < 0x80 then [n]
    else if n < 0x800 then [0xC0 + n / 0x40, 0x80 + n % 0x40]
    else if n < 0x1_0000 then [0xE0 + n / 0x1000, 0x80 + n / 0x40 % 0x40, 0x80 + n % 0x40]
    else [0xF0 + n / 0x4_0000, 0x80 + n / 0x1000 % 0x40, 0x80 + n / 0x40 % 0x40, 0x80 + n % 0x40]
  }

  predicate Tail(octet: nat) { 0x80 <= octet < 0xC0 }

  /** The scalar value some octets spell, read as the standard reads them: a lead that
      gives the length, tails of six bits each, no spelling longer than it need be,
      no surrogate and nothing past the last scalar value. */
  function Decode(b: Bytes): Option<nat> {
    if |b| == 1 && b[0] < 0x80 then Some(b[0])
    else if |b| == 2 && 0xC0 <= b[0] < 0xE0 && Tail(b[1]) then
      var n := (b[0] - 0xC0) * 0x40 + (b[1] - 0x80);
      if n < 0x80 then None else Some(n)
    else if |b| == 3 && 0xE0 <= b[0] < 0xF0 && Tail(b[1]) && Tail(b[2]) then
      var n := (b[0] - 0xE0) * 0x1000 + (b[1] - 0x80) * 0x40 + (b[2] - 0x80);
      if n < 0x800 || 0xD800 <= n < 0xE000 then None else Some(n)
    else if |b| == 4 && 0xF0 <= b[0] < 0xF8 && Tail(b[1]) && Tail(b[2]) && Tail(b[3]) then
      var n := (b[0] - 0xF0) * 0x4_0000 + (b[1] - 0x80) * 0x1000 + (b[2] - 0x80) * 0x40 + (b[3] - 0x80);
      if n < 0x1_0000 || n > 0x10_FFFF then None else Some(n)
    else None
  }

  /** A number in base 64, last digit first. */
  lemma Digit(rest: nat, digit: nat)
    requires digit < 0x40
    ensures (rest * 0x40 + digit) / 0x40 == rest && (rest * 0x40 + digit) % 0x40 == digit
  {}

  lemma DigitsOf(n: nat)
    ensures n == n / 0x40 * 0x40 + n % 0x40
    ensures n / 0x1000 == n / 0x40 / 0x40
    ensures n / 0x4_0000 == n / 0x1000 / 0x40
  {}

  lemma EncodeDecodes(c: char)
    ensures Decode(Encode(c)) == Some(c as nat)
  {
    var n := c as nat;
    DigitsOf(n);
    if 0x800 <= n < 0x1_0000 { DigitsOf(n / 0x40); }
    if 0x1_0000 <= n { FourDigits(n); }
  }

  lemma FourDigits(n: nat)
    ensures n == n / 0x4_0000 * 0x4_0000 + n / 0x1000 % 0x40 * 0x1000 + n / 0x40 % 0x40 * 0x40 + n % 0x40
  {
    DigitsOf(n);
    DigitsOf(n / 0x40);
    DigitsOf(n / 0x1000);
  }

  lemma DecodeOfThree(b: Bytes, n: nat)
    requires |b| == 3 && Decode(b) == Some(n)
    ensures 0xE0 + n / 0x1000 == b[0] && 0x80 + n / 0x40 % 0x40 == b[1] && 0x80 + n % 0x40 == b[2]
  {
    var front := (b[0] - 0xE0) * 0x40 + (b[1] - 0x80);
    Digit(b[0] - 0xE0, b[1] - 0x80);
    Digit(front, b[2] - 0x80);
    DigitsOf(n);
  }

  lemma DecodeOfFour(b: Bytes, n: nat)
    requires |b| == 4 && Decode(b) == Some(n)
    ensures 0xF0 + n / 0x4_0000 == b[0] && 0x80 + n / 0x1000 % 0x40 == b[1]
    ensures 0x80 + n / 0x40 % 0x40 == b[2] && 0x80 + n % 0x40 == b[3]
  {
    var front := (b[0] - 0xF0) * 0x40 + (b[1] - 0x80);
    var next := front * 0x40 + (b[2] - 0x80);
    Digit(b[0] - 0xF0, b[1] - 0x80);
    Digit(front, b[2] - 0x80);
    Digit(next, b[3] - 0x80);
    DigitsOf(n);
  }

  lemma DecodeEncodes(c: char, b: Bytes)
    requires Decode(b) == Some(c as nat)
    ensures b == Encode(c)
  {
    var n := c as nat;
    if |b| == 2 {
      Digit(b[0] - 0xC0, b[1] - 0x80);
    } else if |b| == 3 {
      DecodeOfThree(b, n);
    } else if |b| == 4 {
      DecodeOfFour(b, n);
    }
  }

  /** Every scalar value has one spelling, and this is it. */
  lemma OneSpelling(c: char, b: Bytes)
    ensures Decode(b) == Some(c as nat) <==> b == Encode(c)
  {
    EncodeDecodes(c);
    if Decode(b) == Some(c as nat) { DecodeEncodes(c, b); }
  }

  function EncodeAll(s: string): Bytes {
    if s == [] then [] else Encode(s[0]) + EncodeAll(s[1..])
  }

  /** `memcmp` order on octets, a shorter string below its own extensions. */
  predicate BytesBelow(a: Bytes, b: Bytes) {
    b != [] && (a == [] || a[0] < b[0] || (a[0] == b[0] && BytesBelow(a[1..], b[1..])))
  }

  /** The same order on the scalar values themselves. */
  predicate Below(a: string, b: string) {
    b != [] && (a == [] || a[0] < b[0] || (a[0] == b[0] && Below(a[1..], b[1..])))
  }

  lemma {:induction false} SharedHead(h: Bytes, x: Bytes, y: Bytes)
    ensures BytesBelow(h + x, h + y) <==> BytesBelow(x, y)
  {
    if h == [] {
      assert h + x == x && h + y == y;
    } else {
      assert (h + x)[1..] == h[1..] + x && (h + y)[1..] == h[1..] + y;
      SharedHead(h[1..], x, y);
    }
  }

  /** Two encodings of one length differ at an octet that decides as the scalar
      values do. */
  lemma DecideAt(h: Bytes, i: nat, j: nat, x: Bytes, y: Bytes)
    requires i < j
    ensures BytesBelow(h + [i] + x, h + [j] + y)
  {
    SharedHead(h, [i] + x, [j] + y);
    assert h + ([i] + x) == h + [i] + x && h + ([j] + y) == h + [j] + y;
  }

  /** A number is compared by its leading base-64 digits, then by its last. */
  lemma DigitsOrder(n: nat, m: nat)
    requires n < m
    ensures n / 0x40 < m / 0x40 || (n / 0x40 == m / 0x40 && n % 0x40 < m % 0x40)
  {}

  /** The first octet that differs, among encodings of one length. */
  ghost predicate PartAt(b: Bytes, e: Bytes, k: nat) {
    1 <= k < |b| == |e| && b[..k] == e[..k] && b[k] < e[k]
  }

  lemma LaterOctets3(c: char, d: char) returns (k: nat)
    requires c < d && |Encode(c)| == |Encode(d)| == 3 && Encode(c)[0] == Encode(d)[0]
    ensures PartAt(Encode(c), Encode(d), k)
  {
    DigitsOrder(c as int, d as int);
    DigitsOrder2(c as int, d as int);
    k := if Encode(c)[1] < Encode(d)[1] then 1 else 2;
  }

  lemma LaterOctets4(c: char, d: char) returns (k: nat)
    requires c < d && |Encode(c)| == |Encode(d)| == 4 && Encode(c)[0] == Encode(d)[0]
    ensures PartAt(Encode(c), Encode(d), k)
  {
    var b, e := Encode(c), Encode(d);
    DigitsOrder(c as int, d as int);
    DigitsOrder2(c as int, d as int);
    DigitsOrder3(c as int, d as int);
    k := if b[1] < e[1] then 1 else if b[2] < e[2] then 2 else 3;
  }

  /** The leading octets decide, or the encodings have one length and the first
      octet that differs does. */
  lemma LeadingOctets(c: char, d: char)
    requires c < d
    ensures var b, e := Encode(c), Encode(d); b[0] < e[0] || exists k :: PartAt(b, e, k)
  {
    var b, e := Encode(c), Encode(d);
    if |b| == |e| && b[0] == e[0] {
      DigitsOrder(c as int, d as int);
      if |b| == 2 { assert PartAt(b, e, 1); }
      if |b| == 3 { var k := LaterOctets3(c, d); }
      if |b| == 4 { var k := LaterOctets4(c, d); }
    }
  }

  lemma DigitsOrder2(n: nat, m: nat)
    requires n / 0x40 <= m / 0x40
    ensures n / 0x1000 < m / 0x1000 || (n / 0x1000 == m / 0x1000 && n / 0x40 % 0x40 <= m / 0x40 % 0x40)
    ensures n / 0x1000 == m / 0x1000 && n / 0x40 % 0x40 == m / 0x40 % 0x40 ==> n / 0x40 == m / 0x40
  {
    assert n / 0x1000 == n / 0x40 / 0x40 && m / 0x1000 == m / 0x40 / 0x40;
  }

  lemma DigitsOrder3(n: nat, m: nat)
    requires n / 0x1000 <= m / 0x1000
    ensures n / 0x4_0000 < m / 0x4_0000
      || (n / 0x4_0000 == m / 0x4_0000 && n / 0x1000 % 0x40 <= m / 0x1000 % 0x40)
    ensures n / 0x4_0000 == m / 0x4_0000 && n / 0x1000 % 0x40 == m / 0x1000 % 0x40 ==> n / 0x1000 == m / 0x1000
  {
    assert n / 0x4_0000 == n / 0x1000 / 0x40 && m / 0x4_0000 == m / 0x1000 / 0x40;
  }

  /** Sequences of one length are decided where they first differ. */
  lemma FirstDifference(b: Bytes, e: Bytes, k: nat, x: Bytes, y: Bytes)
    requires k < |b| == |e| && b[..k] == e[..k] && b[k] < e[k]
    ensures BytesBelow(b + x, e + y)
  {
    DecideAt(b[..k], b[k], e[k], b[k + 1..] + x, e[k + 1..] + y);
    assert b[..k] + [b[k]] + (b[k + 1..] + x) == b + x;
    assert e[..k] + [e[k]] + (e[k + 1..] + y) == e + y;
  }

  /** No encoding is a prefix of another's, and the lower scalar value has the
      lower octets, whatever follows either. */
  lemma EncodeOrders(c: char, d: char, x: Bytes, y: Bytes)
    requires c < d
    ensures BytesBelow(Encode(c) + x, Encode(d) + y)
  {
    LeadingOctets(c, d);
    var b, e := Encode(c), Encode(d);
    if b[0] >= e[0] {
      var k :| PartAt(b, e, k);
      FirstDifference(b, e, k, x, y);
    }
  }

  lemma BelowIrreflexive(a: Bytes)
    ensures !BytesBelow(a, a)
  {}

  lemma {:induction false} BelowAsymmetric(a: Bytes, b: Bytes)
    requires BytesBelow(a, b)
    ensures !BytesBelow(b, a)
  {
    if a != [] && a[0] == b[0] { BelowAsymmetric(a[1..], b[1..]); }
  }

  /** Comparing UTF-8 bytewise compares the strings by scalar value. */
  lemma {:induction false} Utf8KeepsOrder(a: string, b: string)
    ensures BytesBelow(EncodeAll(a), EncodeAll(b)) <==> Below(a, b)
  {
    if a != [] && b != [] {
      if a[0] == b[0] {
        SharedHead(Encode(a[0]), EncodeAll(a[1..]), EncodeAll(b[1..]));
        Utf8KeepsOrder(a[1..], b[1..]);
      } else if a[0] < b[0] {
        EncodeOrders(a[0], b[0], EncodeAll(a[1..]), EncodeAll(b[1..]));
      } else {
        EncodeOrders(b[0], a[0], EncodeAll(b[1..]), EncodeAll(a[1..]));
        BelowAsymmetric(EncodeAll(b), EncodeAll(a));
      }
    }
  }
}
