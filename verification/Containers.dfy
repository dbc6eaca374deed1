/** What the three image walkers share: big-endian numbers, and output put in front of what is still
    to come. */
module Containers {
  import opened Wrappers
  import opened BanchoTypes
  import opened Uleb128

  function Be(x: nat, k: nat): (s: bytes)
    ensures |s| == k
  {
    if k == 0 then [] else Be(x / 256, k - 1) + [x % 256]
  }

  function BeNum(s: bytes): nat {
    if s == [] then 0 else 256 * BeNum(s[..|s| - 1]) + s[|s| - 1]
  }

  lemma {:induction false} BeOfNum(s: bytes)
    ensures Be(BeNum(s), |s|) == s
  {
    if s != [] {
      BeOfNum(s[..|s| - 1]);
      assert s == s[..|s| - 1] + [s[|s| - 1]];
    }
  }

  lemma {:induction false} BeValue(x: nat, k: nat)
    requires x < Pow(256, k)
    ensures BeNum(Be(x, k)) == x
  {
    if k > 0 {
      BeValue(x / 256, k - 1);
      assert Be(x, k)[..k - 1] == Be(x / 256, k - 1);
    }
  }

  // Two-byte and four-byte fields.
  lemma BeRoundTrip(x: nat, k: nat)
    requires (k == 4 && x < 0x1_0000_0000) || (k == 2 && x < 0x1_0000)
    ensures BeNum(Be(x, k)) == x
  {
    assert Pow(256, 2) == 0x1_0000;
    assert Pow(256, 3) == 0x100_0000;
    assert Pow(256, 4) == 0x1_0000_0000;
    BeValue(x, k);
  }

  lemma {:induction false} BeBounded(s: bytes)
    ensures BeNum(s) < Pow(256, |s|)
  {
    if s != [] { BeBounded(s[..|s| - 1]); }
  }

  lemma BeBelow(s: bytes)
    ensures |s| == 4 ==> BeNum(s) < 0x1_0000_0000
    ensures |s| == 2 ==> BeNum(s) < 0x1_0000
  {
    assert Pow(256, 2) == 0x1_0000;
    assert Pow(256, 3) == 0x100_0000;
    assert Pow(256, 4) == 0x1_0000_0000;
    BeBounded(s);
  }

  function Joined(front: bytes, r: Option<bytes>): Option<bytes> {
    match r
    case None => None
    case Some(back) => Some(front + back)
  }

  lemma JoinedNothing(r: Option<bytes>)
    ensures Joined([], r) == r
  {
    if r.Some? { assert [] + r.value == r.value; }
  }

  lemma JoinedTwice(a: bytes, b: bytes, r: Option<bytes>)
    ensures Joined(a, Joined(b, r)) == Joined(a + b, r)
  {
    if r.Some? { assert a + (b + r.value) == a + b + r.value; }
  }
}
