/** Variable-length integers (section 7.6 of DWARF Version 5), as written and read by
    src/protocol/uleb128.rs: little-endian groups of seven bits, all but the last marked. */
module Uleb128 {
  import opened Wrappers
  import opened BanchoTypes

  // Halted is no error the code returns: an allocation panics or aborts the process, and whatever would
  // come after it is never carried out.
  datatype WireError = UnexpectedEof | InvalidData | Halted

  datatype Parse<+T> = Read(value: T, rest: bytes) | Fail(error: WireError) {
    predicate IsFailure() { Fail? }
    function PropagateFailure<U>(): Parse<U> requires Fail? { Fail(error) }
    function Extract(): (T, bytes) requires Read? { (value, rest) }
  }

  const TWO64 := 0x1_0000_0000_0000_0000

  // ---------- specification ----------

  function Encode(v: nat): bytes {
    if v < 128 then [v] else [v % 128 + 128] + Encode(v / 128)
  }

  // How many marked bytes stand at the front.
  function Marked(s: bytes): nat {
    if s == [] || s[0] < 128 then 0 else 1 + Marked(s[1..])
  }

  // The sum of the groups, the i-th weighted by 128 to the power i.
  function Value(groups: bytes): nat {
    if groups == [] then 0 else groups[0] % 128 + 128 * Value(groups[1..])
  }

  // The first unmarked byte ends the number; ten marked bytes in a row are refused.
  function Decode(s: bytes): Parse<u64> {
    var n := Marked(s);
    MarkedInRange(s);
    if n >= 10 then Fail(InvalidData)
    else if n == |s| then Fail(UnexpectedEof)
    else Read(Value(s[..n + 1]) % TWO64, s[n + 1..])
  }

  lemma MarkedInRange(s: bytes)
    ensures Marked(s) <= |s|
    ensures Marked(s) < |s| ==> s[Marked(s)] < 128
  {
  }

  function Pow(base: nat, k: nat): (p: nat)
    ensures base > 0 ==> p > 0
  {
    if k == 0 then 1 else base * Pow(base, k - 1)
  }

  // ---------- the two directions undo each other ----------

  lemma {:induction false} EncodeShape(v: nat, r: bytes)
    ensures Marked(Encode(v) + r) == |Encode(v)| - 1
    ensures Value(Encode(v)) == v
  {
    if v >= 128 {
      EncodeShape(v / 128, r);
      assert (Encode(v) + r)[1..] == Encode(v / 128) + r;
      assert Encode(v)[1..] == Encode(v / 128);
    }
  }

  // No shorter list of groups can hold v.
  lemma {:induction false} EncodeIsShortest(v: nat, k: nat)
    requires k >= 1
    ensures |Encode(v)| <= k <==> v < Pow(128, k)
  {
    if v >= 128 {
      if k > 1 { EncodeIsShortest(v / 128, k - 1); }
    } else {
      PowGrows(k);
    }
  }

  lemma {:induction false} PowGrows(k: nat)
    requires k >= 1
    ensures Pow(128, k) >= 128
  {
    if k > 1 { PowGrows(k - 1); }
  }

  lemma {:induction false} ValueBelow(groups: bytes)
    ensures Value(groups) < Pow(128, |groups|)
  {
    if groups != [] { ValueBelow(groups[1..]); }
  }

  // Any other groups with the same value are at least as many.
  lemma EncodeIsLeast(v: nat, groups: bytes)
    requires Value(groups) == v && groups != []
    ensures |Encode(v)| <= |groups|
  {
    ValueBelow(groups);
    EncodeIsShortest(v, |groups|);
  }

  lemma EncodeAtMostTen(v: u64)
    ensures 1 <= |Encode(v)| <= 10
  {
    assert Pow(128, 10) == 0x40_0000_0000_0000_0000 by {
      assert Pow(128, 5) == 0x8_0000_0000;
      assert Pow(128, 7) == 128 * 128 * Pow(128, 5);
      assert Pow(128, 10) == 128 * 128 * 128 * Pow(128, 7);
    }
    EncodeIsShortest(v, 10);
  }

  lemma RoundTrip(v: u64, r: bytes)
    ensures Decode(Encode(v) + r) == Read(v, r)
  {
    hide Encode; hide Marked; hide Value;
    EncodeShape(v, r);
    EncodeAtMostTen(v);
    var s := Encode(v) + r;
    assert s[..|Encode(v)|] == Encode(v);
    assert s[|Encode(v)|..] == r;
  }

  // Whatever is read takes at most ten bytes and is the sum of its groups modulo 2^64.
  lemma ReadsAtMostTen(s: bytes)
    requires Decode(s).Read?
    ensures var n := |s| - |Decode(s).rest|;
      1 <= n <= 10 && Decode(s).rest == s[n..] && Decode(s).value == Value(s[..n]) % TWO64
  {
    MarkedInRange(s);
  }

  // ---------- bits ----------

  // Bitwise or.
  function Or(a: nat, b: nat): nat
    decreases a + b
  {
    if a == 0 then b else if b == 0 then a
    else (if a % 2 == 1 || b % 2 == 1 then 1 else 0) + 2 * Or(a / 2, b / 2)
  }

  // Or-ing numbers that share no bit adds them.
  lemma {:induction false} OrAdds(a: nat, b: nat, k: nat)
    requires a < Pow(2, k) && b % Pow(2, k) == 0
    ensures Or(a, b) == a + b
  {
    if a != 0 && b != 0 {
      HalfDivides(b, k);
      OrAdds(a / 2, b / 2, k - 1);
    }
  }

  lemma HalfDivides(b: nat, k: nat)
    requires k >= 1 && b % Pow(2, k) == 0
    ensures b % 2 == 0 && (b / 2) % Pow(2, k - 1) == 0
  {
    var p := Pow(2, k - 1);
    var q := b / (2 * p);
    assert b == (2 * p) * q == 2 * (p * q);
    DivMod(p * q, p, q, 0);
  }

  lemma DivMod(x: int, p: nat, q: int, r: nat)
    requires x == p * q + r && r < p
    ensures x % p == r && x / p == q
  {
    assert p * (x / p - q) == r - x % p;
    if x / p != q { NoSmallMultiple(p, x / p - q); }
  }

  lemma NoSmallMultiple(p: nat, d: int)
    requires d != 0
    ensures p * d >= p || p * d + p <= 0
  {
    if d > 0 { OneMore(p, d - 1); } else { OneMore(p, -d - 1); Negated(p, d); }
  }

  lemma OneMore(p: nat, q: nat)
    ensures p * (q + 1) == p * q + p && p * q >= 0
  {
  }

  lemma Negated(p: nat, d: int)
    ensures p * -d == -(p * d)
  {
  }

  lemma {:induction false} PowAdds(base: nat, a: nat, b: nat)
    ensures Pow(base, a + b) == Pow(base, a) * Pow(base, b)
  {
    if a > 0 {
      PowAdds(base, a - 1, b);
      Regrouped(base, Pow(base, a - 1), Pow(base, b));
    }
  }

  lemma Regrouped(x: int, y: int, z: int)
    ensures x * (y * z) == x * y * z
  {
  }

  lemma PowTwo64()
    ensures Pow(2, 64) == TWO64
  {
    assert Pow(2, 8) == 256;
    PowAdds(2, 8, 8);
    PowAdds(2, 16, 16);
    PowAdds(2, 32, 32);
  }

  // A group shifted into place, cut to 64 bits, and or-ed onto what came before.
  lemma ShiftedGroup(result: nat, group: nat, shift: nat)
    requires shift <= 63 && result < Pow(2, shift)
    ensures Or(result, group * Pow(2, shift) % TWO64) == (result + group * Pow(2, shift)) % TWO64
  {
    var p, q := Pow(2, shift), Pow(2, 64 - shift);
    PowTwo64();
    PowAdds(2, shift, 64 - shift);
    CutMultiple(result, group, p, q);
    DivMod(p * (group % q), p, group % q, 0);
    OrAdds(result, p * (group % q), shift);
  }

  // Cutting group * p to a multiple p * q keeps the low part of group.
  lemma CutMultiple(result: nat, group: nat, p: nat, q: nat)
    requires result < p && q > 0
    ensures p * q > 0 && p * (group % q) >= 0
    ensures group * p % (p * q) == p * (group % q)
    ensures (result + group * p) % (p * q) == result + p * (group % q)
  {
    var high, j := group / q, group % q;
    Regroup(group, p, q, high, j);
    Fits(p, q, j);
    DivMod(group * p, p * q, high, p * j);
    DivMod(result + group * p, p * q, high, result + p * j);
  }

  lemma Regroup(group: nat, p: nat, q: nat, high: nat, j: nat)
    requires group == q * high + j
    ensures group * p == p * q * high + p * j
  {
    var a := q * high;
    assert (a + j) * p == a * p + j * p;
    assert p * q * high == p * a;
  }

  lemma Fits(p: nat, q: nat, j: nat)
    requires j < q && p > 0
    ensures 0 <= p * j && p * j + p <= p * q
  {
    var d := q - j - 1;
    assert p * q == p * j + p + p * d by { assert q == j + 1 + d; }
    assert p * d >= 0;
  }

  // ---------- the code ----------

  // write_uleb128: appends the groups of value to buf.
  method WriteUleb128(value: u64, buf: bytes) returns (after: bytes)
    ensures after == buf + Encode(value)
  {
    after := buf;
    var v: nat := value;
    var more := true;
    while more
      invariant more ==> after + Encode(v) == buf + Encode(value)
      invariant !more ==> after == buf + Encode(value)
      decreases more, v
    {
      var byte: u8 := v % 128;
      ghost var now := after;
      v := v / 128;
      if v != 0 { byte := byte + 128; }
      after := after + [byte];
      if v == 0 { more := false; } else { assert after + Encode(v) == now + ([byte] + Encode(v)); }
    }
  }

  lemma {:induction false} ValueSplit(a: bytes, b: u8)
    ensures Value(a + [b]) == Value(a) + b % 128 * Pow(128, |a|)
  {
    if a == [] {
      assert ([] + [b])[1..] == [];
    } else {
      ValueSplit(a[1..], b);
      assert (a + [b])[1..] == a[1..] + [b];
    }
  }

  lemma {:induction false} MarkedPrefix(s: bytes, k: nat)
    requires k <= |s| && forall i :: 0 <= i < k ==> s[i] >= 128
    ensures Marked(s) == k + Marked(s[k..])
  {
    if k > 0 {
      MarkedPrefix(s[1..], k - 1);
      assert s[1..][k - 1..] == s[k..];
    }
  }

  lemma {:induction false} PowSquares(k: nat)
    ensures Pow(128, k) == Pow(2, 7 * k)
  {
    if k > 0 {
      PowSquares(k - 1);
      var p := Pow(2, 7 * (k - 1));
      assert Pow(2, 7 * (k - 1) + 1) == 2 * p;
      assert Pow(2, 7 * (k - 1) + 2) == 4 * p;
      assert Pow(2, 7 * (k - 1) + 3) == 8 * p;
      assert Pow(2, 7 * (k - 1) + 4) == 16 * p;
      assert Pow(2, 7 * (k - 1) + 5) == 32 * p;
      assert Pow(2, 7 * (k - 1) + 6) == 64 * p;
    }
  }

  // read_uleb128: reads from the front of cursor and leaves what follows.
  method ReadUleb128(cursor: bytes) returns (r: Result<u64, WireError>, after: bytes)
    ensures match Decode(cursor)
      case Read(v, rest) => r == Ok(v) && after == rest
      case Fail(e) => r == Err(e)
  {
    after := cursor;
    var result: nat, shift: nat := 0, 0;
    ghost var k: nat := 0;
    while true
      invariant k <= 9 && shift == 7 * k && k <= |cursor| && after == cursor[k..]
      invariant forall i :: 0 <= i < k ==> cursor[i] >= 128
      invariant result == Value(cursor[..k])
      decreases 10 - k
    {
      MarkedPrefix(cursor, k);
      if after == [] { return Err(UnexpectedEof), after; }
      var byte := after[0];
      after := after[1..];
      ValueBelow(cursor[..k]);
      PowSquares(k);
      ShiftedGroup(result, byte % 128, shift);
      ValueSplit(cursor[..k], byte);
      assert cursor[..k] + [byte] == cursor[..k + 1];
      result := Or(result, byte % 128 * Pow(2, shift) % TWO64);
      if byte < 128 { return Ok(result), after; }
      shift := shift + 7;
      MarkedPrefix(cursor, k + 1);
      if shift >= 64 { return Err(InvalidData), after; }
      NoOverflow(cursor[..k + 1]);
      k := k + 1;
    }
  }

  lemma NoOverflow(groups: bytes)
    requires |groups| <= 9
    ensures Value(groups) % TWO64 == Value(groups)
  {
    ValueBelow(groups);
    PowSquares(|groups|);
    PowTwo64();
    PowAdds(2, 7 * |groups|, 64 - 7 * |groups|);
    assert Pow(2, 7 * |groups|) * 1 <= Pow(2, 7 * |groups|) * Pow(2, 64 - 7 * |groups|);
  }
}
