/** Cutting an error text at a character boundary. Texts are the bytes of UTF-8 as section 4 of RFC 3629 defines it. */
module Utf8Truncation {
  type Byte = x: int | 0 <= x < 256

  const MAX_BYTES: nat := 100

  predicate Tail(b: Byte) {
    0x80 <= b <= 0xBF
  }

  predicate SecondFits(lead: Byte, second: Byte) {
    if lead == 0xE0 then 0xA0 <= second <= 0xBF
    else if lead == 0xED then 0x80 <= second <= 0x9F
    else if lead == 0xF0 then 0x90 <= second <= 0xBF
    else if lead == 0xF4 then 0x80 <= second <= 0x8F
    else Tail(second)
  }

  /** How many bytes a character with this lead byte has; 0 when no character starts with it. */
  function LengthOf(lead: Byte): nat {
    if lead <= 0x7F then 1
    else if 0xC2 <= lead <= 0xDF then 2
    else if 0xE0 <= lead <= 0xEF then 3
    else if 0xF0 <= lead <= 0xF4 then 4
    else 0
  }

  predicate CharAt(s: seq<Byte>, i: nat) {
    && i < |s| && LengthOf(s[i]) > 0 && i + LengthOf(s[i]) <= |s|
    && (LengthOf(s[i]) > 1 ==> SecondFits(s[i], s[i + 1]))
    && forall j | i < j < i + LengthOf(s[i]) :: Tail(s[j])
  }

  /** From `i` on, the text is a sequence of characters. */
  predicate ValidFrom(s: seq<Byte>, i: nat)
    decreases |s| - i
  {
    i == |s| || (CharAt(s, i) && ValidFrom(s, i + LengthOf(s[i])))
  }

  predicate Valid(s: seq<Byte>) {
    ValidFrom(s, 0)
  }

  // ---------------------------------------------------------------- valid texts are the encoded ones

  /** The code points there are encodings for: all but the surrogates. */
  predicate Scalar(c: int) {
    0 <= c < 0xD800 || 0xE000 <= c <= 0x10FFFF
  }

  /** The encoding of a code point, six bits to a byte behind the first. */
  function EncodeChar(c: int): (bytes: seq<Byte>)
    requires Scalar(c)
    ensures 1 <= |bytes| <= 4
  {
    if c < 0x80 then [c]
    else if c < 0x800 then [0xC0 + c / 64, 0x80 + c % 64]
    else if c < 0x10000 then [0xE0 + c / 4096, 0x80 + c / 64 % 64, 0x80 + c % 64]
    else [0xF0 + c / 262144, 0x80 + c / 4096 % 64, 0x80 + c / 64 % 64, 0x80 + c % 64]
  }

  predicate Starts(s: seq<Byte>, i: nat, bytes: seq<Byte>) {
    i + |bytes| <= |s| && forall j | 0 <= j < |bytes| :: s[i + j] == bytes[j]
  }

  lemma EncodedBytes(c: int)
    requires Scalar(c)
    ensures
      var b := EncodeChar(c);
      && LengthOf(b[0]) == |b| && (|b| > 1 ==> SecondFits(b[0], b[1])) && forall j | 0 < j < |b| :: Tail(b[j])
  {}

  lemma EncodedIsChar(s: seq<Byte>, i: nat, c: int)
    requires Scalar(c) && Starts(s, i, EncodeChar(c))
    ensures CharAt(s, i) && LengthOf(s[i]) == |EncodeChar(c)|
  {
    EncodedBytes(c);
    StartsAsChar(s, i, EncodeChar(c));
  }

  lemma StartsAsChar(s: seq<Byte>, i: nat, b: seq<Byte>)
    requires b != [] && Starts(s, i, b) && LengthOf(b[0]) == |b| && forall j | 0 < j < |b| :: Tail(b[j])
    requires |b| > 1 ==> SecondFits(b[0], b[1])
    ensures CharAt(s, i) && LengthOf(s[i]) == |b|
  {
    assert s[i + 0] == b[0];
    if |b| > 1 {
      assert s[i + 1] == b[1];
    }
    forall j | i < j < i + |b| ensures Tail(s[j]) {
      assert s[i + (j - i)] == b[j - i];
    }
  }

  /** The six-bit digits of a number. */
  lemma Digits(c: int, a: int, b: int, x: int, y: int)
    requires c == a * 262144 + b * 4096 + x * 64 + y && 0 <= a && 0 <= b < 64 && 0 <= x < 64 && 0 <= y < 64
    ensures c / 262144 == a && c / 4096 % 64 == b && c / 64 % 64 == x && c % 64 == y
    ensures c / 4096 == a * 64 + b && c / 64 == a * 4096 + b * 64 + x
  {
    SixBits(c, a * 4096 + b * 64 + x, y);
    SixBits(a * 4096 + b * 64 + x, a * 64 + b, x);
    SixBits(a * 64 + b, a, b);
    TwelveBits(c, a * 64 + b, x * 64 + y);
    EighteenBits(c, a, b * 4096 + x * 64 + y);
  }

  lemma SixBits(c: int, a: int, b: int)
    requires c == a * 64 + b && 0 <= b < 64
    ensures c / 64 == a && c % 64 == b
  {}

  lemma TwelveBits(c: int, a: int, b: int)
    requires c == a * 4096 + b && 0 <= b < 4096
    ensures c / 4096 == a
  {}

  lemma EighteenBits(c: int, a: int, b: int)
    requires c == a * 262144 + b && 0 <= b < 262144
    ensures c / 262144 == a
  {}

  lemma TwoBytes(lead: int, x: int) returns (c: int)
    requires 0xC2 <= lead <= 0xDF && 0x80 <= x <= 0xBF
    ensures Scalar(c) && EncodeChar(c) == [lead, x]
  {
    c := (lead - 0xC0) * 64 + (x - 0x80);
    Digits(c, 0, 0, lead - 0xC0, x - 0x80);
  }

  lemma ThreeBytes(lead: Byte, x: Byte, y: Byte) returns (c: int)
    requires 0xE0 <= lead <= 0xEF && Tail(x) && Tail(y) && SecondFits(lead, x)
    ensures Scalar(c) && EncodeChar(c) == [lead, x, y]
  {
    var a: int, b: int, d: int := lead, x, y;
    c := (a - 0xE0) * 4096 + (b - 0x80) * 64 + (d - 0x80);
    Digits(c, 0, a - 0xE0, b - 0x80, d - 0x80);
  }

  lemma FourBytes(lead: Byte, x: Byte, y: Byte, z: Byte) returns (c: int)
    requires 0xF0 <= lead <= 0xF4 && Tail(x) && Tail(y) && Tail(z) && SecondFits(lead, x)
    ensures Scalar(c) && EncodeChar(c) == [lead, x, y, z]
  {
    var a: int, b: int, d: int, e: int := lead, x, y, z;
    c := (a - 0xF0) * 262144 + (b - 0x80) * 4096 + (d - 0x80) * 64 + (e - 0x80);
    Digits(c, a - 0xF0, b - 0x80, d - 0x80, e - 0x80);
  }

  lemma CharIsEncoded(s: seq<Byte>, i: nat) returns (c: int)
    requires CharAt(s, i)
    ensures Scalar(c) && |EncodeChar(c)| == LengthOf(s[i]) && Starts(s, i, EncodeChar(c))
  {
    var n := LengthOf(s[i]);
    if n == 1 {
      c := s[i];
      assert EncodeChar(c) == [s[i]];
    } else if n == 2 {
      assert Tail(s[i + 1]);
      c := TwoBytes(s[i], s[i + 1]);
    } else if n == 3 {
      assert Tail(s[i + 1]) && Tail(s[i + 2]);
      c := ThreeBytes(s[i], s[i + 1], s[i + 2]);
    } else {
      assert Tail(s[i + 1]) && Tail(s[i + 2]) && Tail(s[i + 3]);
      c := FourBytes(s[i], s[i + 1], s[i + 2], s[i + 3]);
    }
  }

  predicate Scalars(cs: seq<int>) {
    forall k | 0 <= k < |cs| :: Scalar(cs[k])
  }

  function EncodeAll(cs: seq<int>): seq<Byte>
    requires Scalars(cs)
  {
    if cs == [] then [] else EncodeChar(cs[0]) + EncodeAll(cs[1..])
  }

  lemma {:induction false} EncodedIsValid(before: seq<Byte>, cs: seq<int>)
    requires Scalars(cs)
    ensures ValidFrom(before + EncodeAll(cs), |before|)
    decreases |cs|
  {
    if cs != [] {
      var first := EncodeChar(cs[0]);
      EncodedIsValid(before + first, cs[1..]);
      CharFirst(before, cs[0], EncodeAll(cs[1..]));
      assert before + first + EncodeAll(cs[1..]) == before + EncodeAll(cs);
    }
  }

  lemma CharFirst(before: seq<Byte>, c: int, rest: seq<Byte>)
    requires Scalar(c) && ValidFrom(before + EncodeChar(c) + rest, |before + EncodeChar(c)|)
    ensures ValidFrom(before + EncodeChar(c) + rest, |before|)
  {
    EncodedIsChar(before + EncodeChar(c) + rest, |before|, c);
  }

  lemma {:induction false} ValidIsEncoded(s: seq<Byte>, i: nat) returns (cs: seq<int>)
    requires i <= |s| && ValidFrom(s, i)
    ensures Scalars(cs) && s[i..] == EncodeAll(cs)
    decreases |s| - i
  {
    cs := [];
    if i < |s| {
      var c := CharIsEncoded(s, i);
      var n := LengthOf(s[i]);
      var rest := ValidIsEncoded(s, i + n);
      cs := [c] + rest;
      assert cs[1..] == rest && s[i..] == s[i..i + n] + s[i + n..] && s[i..i + n] == EncodeChar(c);
    }
  }

  /** A text is valid exactly if it is the encoding of some sequence of code points. */
  lemma ValidIffEncoded(s: seq<Byte>)
    ensures Valid(s) <==> exists cs :: Scalars(cs) && s == EncodeAll(cs)
  {
    if Valid(s) {
      var cs := ValidIsEncoded(s, 0);
      assert s[0..] == s;
    }
    if cs :| Scalars(cs) && s == EncodeAll(cs) {
      EncodedIsValid([], cs);
      assert [] + EncodeAll(cs) == s;
    }
  }

  // ---------------------------------------------------------------- boundaries

  /** Reading characters from `i` on, one comes to stand at `k`. */
  predicate Reaches(s: seq<Byte>, i: nat, k: nat)
    decreases |s| - i
  {
    i == k || (i < k && CharAt(s, i) && Reaches(s, i + LengthOf(s[i]), k))
  }

  /** The standard library's test, which looks at a single byte. */
  predicate IsCharBoundary(s: seq<Byte>, i: nat) {
    i == 0 || i == |s| || (i < |s| && !Tail(s[i]))
  }

  lemma LeadIsNotTail(s: seq<Byte>, i: nat)
    requires CharAt(s, i)
    ensures !Tail(s[i])
  {}

  /** In valid text, the single byte tells whether a position lies between two characters. */
  lemma {:induction false} BoundaryIffReached(s: seq<Byte>, i: nat, k: nat)
    requires ValidFrom(s, i) && i <= k <= |s| && (i == 0 || i < |s| ==> IsCharBoundary(s, i))
    ensures IsCharBoundary(s, k) || k == i <==> Reaches(s, i, k)
    decreases |s| - i
  {
    if i < k {
      var next := i + LengthOf(s[i]);
      if next <= k {
        if next < |s| {
          LeadIsNotTail(s, next);
        }
        BoundaryIffReached(s, next, k);
      } else {
        assert Tail(s[k]);
      }
    }
  }

  lemma CharInPrefix(s: seq<Byte>, k: nat, i: nat)
    requires i < k <= |s|
    ensures CharAt(s[..k], i) <==> CharAt(s, i) && i + LengthOf(s[i]) <= k
  {
    if CharAt(s[..k], i) {
      assert forall j | i < j < i + LengthOf(s[i]) :: s[..k][j] == s[j];
    }
  }

  /** A prefix is valid exactly when it ends where a character ends. */
  lemma {:induction false} PrefixValidIffReached(s: seq<Byte>, k: nat, i: nat)
    requires i <= k <= |s|
    ensures ValidFrom(s[..k], i) <==> Reaches(s, i, k)
    decreases k - i
  {
    if i < k {
      CharInPrefix(s, k, i);
      if CharAt(s, i) && i + LengthOf(s[i]) <= k {
        PrefixValidIffReached(s, k, i + LengthOf(s[i]));
      }
    }
  }

  lemma PrefixValidIffBoundary(s: seq<Byte>, k: nat)
    requires Valid(s) && k <= |s|
    ensures Valid(s[..k]) <==> IsCharBoundary(s, k)
  {
    PrefixValidIffReached(s, k, 0);
    BoundaryIffReached(s, 0, k);
  }

  /** No character is longer than four bytes, so a boundary is never more than three bytes back. */
  lemma {:induction false} BoundaryNearby(s: seq<Byte>, i: nat, k: nat) returns (j: nat)
    requires ValidFrom(s, i) && IsCharBoundary(s, i) && i <= k <= |s|
    ensures j <= k < j + 4 && IsCharBoundary(s, j)
    decreases |s| - i
  {
    j := i;
    if i + 4 <= k {
      var next := i + LengthOf(s[i]);
      if next < |s| {
        LeadIsNotTail(s, next);
      }
      j := BoundaryNearby(s, next, k);
    }
  }

  /** The text itself when it is short, and else its longest valid prefix of at most a hundred bytes. */
  method Snippet(s: seq<Byte>) returns (r: seq<Byte>)
    requires Valid(s)
    ensures |s| <= 100 ==> r == s
    ensures |s| > 100 ==> 97 <= |r| <= 100
    ensures |r| <= |s| && r == s[..|r|] && Valid(r)
    ensures forall k | |r| < k <= 100 && k <= |s| :: !Valid(s[..k])
  {
    if |s| <= MAX_BYTES {
      assert s[..|s|] == s;
      return s;
    }
    var idx := MAX_BYTES;
    while idx > 0 && !IsCharBoundary(s, idx)
      invariant idx <= MAX_BYTES
      invariant 0 <= idx
      invariant forall k: nat | idx < k <= MAX_BYTES :: !IsCharBoundary(s, k)
    {
      idx := idx - 1;
    }
    var j := BoundaryNearby(s, 0, MAX_BYTES);
    forall k | idx <= k <= MAX_BYTES ensures Valid(s[..k]) <==> IsCharBoundary(s, k) {
      PrefixValidIffBoundary(s, k);
    }
    r := s[..idx];
  }
}
