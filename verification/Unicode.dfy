/** UTF-8 from the other side: the well-formed texts are exactly the encodings of sequences of Unicode scalar
    values (section 3.9 of the Unicode Standard), and a replacement character stands for a longest start of
    one. */
module Unicode {
  import opened BanchoTypes
  import opened Wire
  import opened LossyText

  // Every code point but the surrogates.
  predicate Scalar(c: int) {
    0 <= c < 0xD800 || 0xE000 <= c < 0x11_0000
  }

  function Encoded(c: int): (s: bytes)
    requires Scalar(c)
    ensures 1 <= |s| <= 4
  {
    if c < 0x80 then [c]
    else if c < 0x800 then [0xC0 + c / 64, 0x80 + c % 64]
    else if c < 0x1_0000 then [0xE0 + c / 4096, 0x80 + c / 64 % 64, 0x80 + c % 64]
    else [0xF0 + c / 262144, 0x80 + c / 4096 % 64, 0x80 + c / 64 % 64, 0x80 + c % 64]
  }

  predicate Scalars(cs: seq<int>) {
    forall c :: c in cs ==> Scalar(c)
  }

  function EncodedAll(cs: seq<int>): bytes
    requires Scalars(cs)
  {
    if cs == [] then [] else Encoded(cs[0]) + EncodedAll(cs[1..])
  }

  // ---------- one character ----------

  lemma ThreeDigits(a: nat, b: nat, d: nat)
    requires b < 64 && d < 64
    ensures var c := a * 4096 + b * 64 + d; c / 4096 == a && c / 64 % 64 == b && c % 64 == d
  {
    var c := a * 4096 + b * 64 + d;
    assert c / 64 == a * 64 + b;
  }

  lemma FourDigits(a: nat, b: nat, d: nat, e: nat)
    requires b < 64 && d < 64 && e < 64
    ensures var c := a * 262144 + b * 4096 + d * 64 + e;
      c / 262144 == a && c / 4096 % 64 == b && c / 64 % 64 == d && c % 64 == e
  {
    var c := a * 262144 + b * 4096 + d * 64 + e;
    assert c / 4096 == a * 64 + b;
    assert c / 64 == (a * 64 + b) * 64 + d;
  }

  // The scalar value whose encoding begins with these bytes, missing ones taken for 0x80.
  function ScalarOf2(a: u8, b: u8): int {
    (a - 0xC0) * 64 + (b - 0x80)
  }

  function ScalarOf3(a: u8, b: u8, d: u8): int {
    (a - 0xE0) * 4096 + (b - 0x80) * 64 + (d - 0x80)
  }

  function ScalarOf4(a: u8, b: u8, d: u8, e: u8): int {
    (a - 0xF0) * 262144 + (b - 0x80) * 4096 + (d - 0x80) * 64 + (e - 0x80)
  }

  lemma Two(a: u8, b: u8)
    requires 0xC2 <= a < 0xE0 && Trailing(b)
    ensures Scalar(ScalarOf2(a, b)) && Encoded(ScalarOf2(a, b)) == [a, b]
  {
  }

  lemma Three(a: u8, b: u8, d: u8)
    requires 0xE0 <= a < 0xF0 && SecondOk(a, b) && Trailing(d)
    ensures Scalar(ScalarOf3(a, b, d)) && Encoded(ScalarOf3(a, b, d)) == [a, b, d]
  {
    ThreeDigits(a - 0xE0, b - 0x80, d - 0x80);
  }

  lemma Four(a: u8, b: u8, d: u8, e: u8)
    requires 0xF0 <= a < 0xF5 && SecondOk(a, b) && Trailing(d) && Trailing(e)
    ensures Scalar(ScalarOf4(a, b, d, e)) && Encoded(ScalarOf4(a, b, d, e)) == [a, b, d, e]
  {
    FourDigits(a - 0xF0, b - 0x80, d - 0x80, e - 0x80);
  }

  // A well-formed character is the encoding of a scalar value.
  lemma CharIsScalar(s: bytes)
    requires CharLength(s) > 0
    ensures exists c :: Scalar(c) && Encoded(c) == s[..CharLength(s)]
  {
    hide Encoded;
    var n := CharLength(s);
    if n == 1 { OneByte(s[0]); assert s[..1] == [s[0]]; }
    else if n == 2 { Two(s[0], s[1]); assert s[..2] == [s[0], s[1]]; }
    else if n == 3 { Three(s[0], s[1], s[2]); assert s[..3] == [s[0], s[1], s[2]]; }
    else { Four(s[0], s[1], s[2], s[3]); assert s[..4] == [s[0], s[1], s[2], s[3]]; }
  }

  lemma OneByte(a: u8)
    requires a < 0x80
    ensures Scalar(a) && Encoded(a) == [a]
  {
  }

  // What the bytes of an encoding are like.
  predicate Shape(s: bytes) {
    || (|s| == 1 && s[0] < 0x80)
    || (|s| == 2 && 0xC2 <= s[0] < 0xE0 && Trailing(s[1]))
    || (|s| == 3 && 0xE0 <= s[0] < 0xF0 && SecondOk(s[0], s[1]) && Trailing(s[2]))
    || (|s| == 4 && 0xF0 <= s[0] < 0xF5 && SecondOk(s[0], s[1]) && Trailing(s[2]) && Trailing(s[3]))
  }

  lemma Shape3(c: int)
    requires Scalar(c) && 0x800 <= c < 0x1_0000
    ensures Shape(Encoded(c))
  {
    var (a, b) := (c / 4096, c / 64 % 64);
    assert c / 64 == a * 64 + b;
    assert c < 0xD800 ==> !(a == 13 && b >= 32);
    assert c >= 0xE000 ==> a >= 14;
  }

  lemma Shape4(c: int)
    requires Scalar(c) && 0x1_0000 <= c
    ensures Shape(Encoded(c))
  {
    var (a, b) := (c / 262144, c / 4096 % 64);
    assert c / 4096 == a * 64 + b;
    assert 16 <= a * 64 + b < 272;
  }

  lemma ShapeOf(c: int)
    requires Scalar(c)
    ensures Shape(Encoded(c))
  {
    if 0x800 <= c < 0x1_0000 { Shape3(c); } else if c >= 0x1_0000 { Shape4(c); }
  }

  lemma ShapeIsChar(s: bytes, r: bytes)
    requires Shape(s)
    ensures CharLength(s + r) == |s|
  {
    var t := s + r;
    assert forall i :: 0 <= i < |s| ==> t[i] == s[i];
  }

  // ---------- texts ----------

  lemma {:induction false} EncodingsAreUtf8(cs: seq<int>)
    requires Scalars(cs)
    ensures Utf8(EncodedAll(cs))
  {
    hide Encoded; hide CharLength; hide Shape;
    if cs != [] {
      assert cs[0] in cs && forall c :: c in cs[1..] ==> c in cs;
      EncodingsAreUtf8(cs[1..]);
      ShapeOf(cs[0]);
      ShapeIsChar(Encoded(cs[0]), EncodedAll(cs[1..]));
      assert EncodedAll(cs)[|Encoded(cs[0])|..] == EncodedAll(cs[1..]);
    }
  }

  lemma {:induction false} Utf8IsEncoded(s: bytes)
    requires Utf8(s)
    ensures exists cs :: Scalars(cs) && EncodedAll(cs) == s
  {
    hide Encoded; hide CharLength;
    if s == [] {
      assert Scalars([]) && EncodedAll([]) == s;
    } else {
      var n := CharLength(s);
      Utf8IsEncoded(s[n..]);
      var cs :| Scalars(cs) && EncodedAll(cs) == s[n..];
      CharIsScalar(s);
      var c :| Scalar(c) && Encoded(c) == s[..n];
      assert ([c] + cs)[1..] == cs;
      assert s == s[..n] + s[n..];
      assert Scalars([c] + cs) && EncodedAll([c] + cs) == s;
    }
  }

  // A text is well formed exactly when it encodes some sequence of scalar values.
  lemma Utf8Iff(s: bytes)
    ensures Utf8(s) <==> exists cs :: Scalars(cs) && EncodedAll(cs) == s
  {
    if Utf8(s) { Utf8IsEncoded(s); }
    if cs :| Scalars(cs) && EncodedAll(cs) == s { EncodingsAreUtf8(cs); }
  }

  // ---------- replacement characters ----------

  // The first n bytes of s begin an encoding that is longer.
  ghost predicate Begins(s: bytes, n: nat)
    requires n <= |s|
  {
    exists c :: Scalar(c) && n < |Encoded(c)| && Encoded(c)[..n] == s[..n]
  }

  lemma BeginsFrom(s: bytes, n: nat, c: int)
    requires Scalar(c) && n <= |s| && n < |Encoded(c)| && Encoded(c)[..n] == s[..n]
    ensures Begins(s, n)
  {
  }

  lemma BeginningIsBad(s: bytes, n: nat)
    requires s != [] && CharLength(s) == 0 && 2 <= n <= |s| && n <= BadLength(s)
    ensures Begins(s, n)
  {
    hide Begins; hide Encoded;
    if s[0] < 0xF0 {
      Three(s[0], s[1], 0x80);
      var c := ScalarOf3(s[0], s[1], 0x80);
      assert s[..2] == [s[0], s[1]] == Encoded(c)[..2];
      BeginsFrom(s, 2, c);
    } else if n == 2 {
      Four(s[0], s[1], 0x80, 0x80);
      var c := ScalarOf4(s[0], s[1], 0x80, 0x80);
      assert s[..2] == [s[0], s[1]] == Encoded(c)[..2];
      BeginsFrom(s, 2, c);
    } else {
      Four(s[0], s[1], s[2], 0x80);
      var c := ScalarOf4(s[0], s[1], s[2], 0x80);
      assert s[..3] == [s[0], s[1], s[2]] == Encoded(c)[..3];
      BeginsFrom(s, 3, c);
    }
  }

  lemma BadIsBeginning(s: bytes, n: nat)
    requires s != [] && CharLength(s) == 0 && 2 <= n <= |s| && Begins(s, n)
    ensures n <= BadLength(s)
  {
    hide Encoded;
    var c :| Scalar(c) && n < |Encoded(c)| && Encoded(c)[..n] == s[..n];
    ShapeOf(c);
    var t := Encoded(c);
    assert forall i :: 0 <= i < n ==> s[..n][i] == s[i] && t[..n][i] == t[i];
    assert s[0] == t[0] && s[1] == t[1];
  }

  // Where no character stands, one replacement character stands for the longest stretch that begins one, or
  // for one byte if there is none of two or more.
  lemma BadLengthIsLongest(s: bytes, n: nat)
    requires s != [] && CharLength(s) == 0 && 2 <= n <= |s|
    ensures n <= BadLength(s) <==> Begins(s, n)
  {
    hide Begins; hide BadLength; hide CharLength;
    if n <= BadLength(s) { BeginningIsBad(s, n); }
    if Begins(s, n) { BadIsBeginning(s, n); }
  }
}
