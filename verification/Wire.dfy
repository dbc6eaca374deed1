/** The bytes of numbers, texts and packet headers: what src/protocol/writer.rs appends and
    src/protocol/reader.rs takes off the front, and that the one undoes the other. */
module Wire {
  import opened Wrappers
  import opened BanchoTypes
  import opened Uleb128

  // ---------- numbers, little-endian ----------

  function Le(x: nat, k: nat): (s: bytes)
    ensures |s| == k
  {
    if k == 0 then [] else [x % 256] + Le(x / 256, k - 1)
  }

  function Num(s: bytes): nat {
    if s == [] then 0 else s[0] + 256 * Num(s[1..])
  }

  lemma {:induction false} NumOfLe(x: nat, k: nat)
    ensures Num(Le(x, k)) == x % Pow(256, k)
  {
    if k > 0 {
      NumOfLe(x / 256, k - 1);
      assert Le(x, k)[1..] == Le(x / 256, k - 1);
      var p := Pow(256, k - 1);
      var y := x / 256;
      DivMod(x, 256 * p, y / p, x % 256 + 256 * (y % p));
    }
  }

  lemma {:induction false} LeOfNum(s: bytes)
    ensures Le(Num(s), |s|) == s
  {
    if s != [] { LeOfNum(s[1..]); }
  }

  lemma {:induction false} NumBelow(s: bytes)
    ensures Num(s) < Pow(256, |s|)
  {
    if s != [] { NumBelow(s[1..]); }
  }

  lemma Pow256()
    ensures Pow(256, 1) == 0x100 && Pow(256, 2) == 0x1_0000 && Pow(256, 4) == 0x1_0000_0000
  {
    assert Pow(256, 3) == 0x100_0000;
  }

  function GetNum(s: bytes, k: nat): Parse<nat> {
    if |s| < k then Fail(UnexpectedEof) else Read(Num(s[..k]), s[k..])
  }

  lemma NumRoundTrip(x: nat, k: nat, r: bytes)
    requires x < Pow(256, k)
    ensures GetNum(Le(x, k) + r, k) == Read(x, r)
  {
    NumOfLe(x, k);
    assert (Le(x, k) + r)[..k] == Le(x, k);
    assert (Le(x, k) + r)[k..] == r;
  }

  function GetU8(s: bytes): Parse<u8> {
    if s == [] then Fail(UnexpectedEof) else Read(s[0], s[1..])
  }

  function PutBool(b: bool): bytes {
    [if b then 1 else 0]
  }

  function GetBool(s: bytes): Parse<bool> {
    var (x, rest) :- GetU8(s);
    Read(x != 0, rest)
  }

  function PutU16(x: u16): bytes {
    Le(x, 2)
  }

  function GetU16(s: bytes): Parse<u16> {
    var (x, rest) :- GetNum(s, 2);
    NumBelow(s[..2]);
    Pow256();
    Read(x, rest)
  }

  function PutU32(x: u32): (s: bytes)
    ensures |s| == 4
  {
    Le(x, 4)
  }

  function GetU32(s: bytes): Parse<u32> {
    var (x, rest) :- GetNum(s, 4);
    NumBelow(s[..4]);
    Pow256();
    Read(x, rest)
  }

  // Two's complement.
  function PutI32(x: int): bytes {
    PutU32(x % 0x1_0000_0000)
  }

  function GetI32(s: bytes): Parse<i32> {
    var (x, rest) :- GetU32(s);
    Read(if x >= 0x8000_0000 then x - 0x1_0000_0000 else x, rest)
  }

  function GetBytes(s: bytes, n: nat): Parse<bytes> {
    if |s| < n then Fail(UnexpectedEof) else Read(s[..n], s[n..])
  }

  // read_bytes makes room for n bytes before it looks whether they are there. Here memory is the greatest
  // length for which the allocator grants that room.
  function GetRoom(s: bytes, n: nat, memory: nat): Parse<bytes> {
    if n > memory then Fail(Halted) else GetBytes(s, n)
  }

  // An f64 is eight bytes that nothing here interprets.
  function GetF64(s: bytes): Parse<F64> {
    var (raw, rest) :- GetBytes(s, 8);
    Read(raw, rest)
  }

  lemma U8RoundTrip(x: u8, r: bytes)
    ensures GetU8([x] + r) == Read(x, r)
  {
    assert ([x] + r)[1..] == r;
  }

  lemma BoolRoundTrip(b: bool, r: bytes)
    ensures GetBool(PutBool(b) + r) == Read(b, r)
  {
    U8RoundTrip(if b then 1 else 0, r);
  }

  lemma U16RoundTrip(x: u16, r: bytes)
    ensures GetU16(PutU16(x) + r) == Read(x, r)
  {
    Pow256();
    NumRoundTrip(x, 2, r);
  }

  lemma U32RoundTrip(x: u32, r: bytes)
    ensures GetU32(PutU32(x) + r) == Read(x, r)
  {
    Pow256();
    NumRoundTrip(x, 4, r);
  }

  lemma I32RoundTrip(x: i32, r: bytes)
    ensures GetI32(PutI32(x) + r) == Read(x, r)
  {
    U32RoundTrip(x % 0x1_0000_0000, r);
  }

  lemma BytesRoundTrip(x: bytes, r: bytes)
    ensures GetBytes(x + r, |x|) == Read(x, r)
  {
    assert (x + r)[..|x|] == x;
    assert (x + r)[|x|..] == r;
  }

  // ---------- texts ----------

  predicate Trailing(b: u8) {
    0x80 <= b < 0xC0
  }

  // The length of the well-formed character at the front (table 3-7 of the Unicode Standard), or 0.
  function CharLength(s: bytes): (n: nat)
    ensures n <= |s|
  {
    if s == [] then 0
    else if s[0] < 0x80 then 1
    else if |s| >= 2 && 0xC2 <= s[0] < 0xE0 && Trailing(s[1]) then 2
    else if |s| >= 3 && 0xE0 <= s[0] < 0xF0 && Trailing(s[1]) && Trailing(s[2])
      && (s[0] == 0xE0 ==> s[1] >= 0xA0) && (s[0] == 0xED ==> s[1] < 0xA0) then 3
    else if |s| >= 4 && 0xF0 <= s[0] < 0xF5 && Trailing(s[1]) && Trailing(s[2]) && Trailing(s[3])
      && (s[0] == 0xF0 ==> s[1] >= 0x90) && (s[0] == 0xF4 ==> s[1] < 0x90) then 4
    else 0
  }

  // String::from_utf8 accepts s.
  predicate Utf8(s: bytes) {
    s == [] || (CharLength(s) > 0 && Utf8(s[CharLength(s)..]))
  }

  // What a Rust String can hold: UTF-8, with a length that fits a u64.
  predicate Text(s: bytes) {
    Utf8(s) && |s| < TWO64
  }

  // A text that the allocator has room for.
  predicate TextWithin(s: bytes, memory: nat) {
    Text(s) && |s| <= memory
  }

  const NO_TEXT: u8 := 0x00
  const SOME_TEXT: u8 := 0x0B

  function PutString(s: bytes): bytes {
    if s == [] then [NO_TEXT] else [SOME_TEXT] + (Encode(|s| % TWO64) + s)
  }

  function GetString(s: bytes, memory: nat): Parse<bytes> {
    var (indicator, s1) :- GetU8(s);
    if indicator == NO_TEXT then Read([], s1)
    else if indicator != SOME_TEXT then Fail(InvalidData) else
    var (len, s2) :- Decode(s1);
    var (text, s3) :- GetRoom(s2, len, memory);
    if Utf8(text) then Read(text, s3) else Fail(InvalidData)
  }

  // Where the reader stands after a text, read or not: a length that is not there is not skipped, and
  // bytes that are not there leave nothing.
  function AfterText(s: bytes): bytes {
    match GetU8(s)
    case Fail(_) => []
    case Read(indicator, s1) =>
      if indicator != SOME_TEXT then s1 else
      match Decode(s1)
      case Fail(_) => s1
      case Read(len, s2) => if |s2| < len then [] else s2[len..]
  }

  // The length a text declares, if it gets that far.
  function Declared(s: bytes): set<nat> {
    if s == [] || s[0] != SOME_TEXT then {} else
    match Decode(s[1..])
    case Fail(_) => {}
    case Read(len, _) => {len}
  }

  ghost predicate AllAtMost(lengths: set<nat>, memory: nat) {
    forall n :: n in lengths ==> n <= memory
  }

  // No length declared exceeds this, so nothing is ever refused.
  const UNLIMITED: nat := TWO64

  // Reading a text halts exactly when the length it declares is refused, and makes no other difference
  // to what is read or where the reader is left.
  lemma StringHaltsIff(s: bytes, memory: nat)
    ensures GetString(s, memory) == Fail(Halted) <==> !AllAtMost(Declared(s), memory)
    ensures AllAtMost(Declared(s), memory) ==> GetString(s, memory) == GetString(s, UNLIMITED)
    ensures GetString(s, UNLIMITED) != Fail(Halted)
    ensures GetString(s, memory).Read? ==> GetString(s, memory).rest == AfterText(s)
  {
  }

  lemma StringRoundTrip(s: bytes, r: bytes, memory: nat)
    requires TextWithin(s, memory)
    ensures GetString(PutString(s) + r, memory) == Read(s, r)
  {
    if s == [] {
      U8RoundTrip(NO_TEXT, r);
    } else {
      var body := Encode(|s|) + s;
      assert PutString(s) + r == [SOME_TEXT] + (body + r);
      U8RoundTrip(SOME_TEXT, body + r);
      assert body + r == Encode(|s|) + (s + r);
      RoundTrip(|s|, s + r);
      BytesRoundTrip(s, r);
    }
  }

  // Only well-formed text comes out.
  lemma StringsReadAreTexts(s: bytes, memory: nat)
    requires GetString(s, memory).Read?
    ensures TextWithin(GetString(s, memory).value, memory)
  {
  }

  lemma Regroup4(a: bytes, b: bytes, c: bytes, d: bytes)
    ensures a + b + c + d == a + (b + (c + d))
  {
  }

  // ---------- packet headers ----------

  const HEADER := 7

  // build_packet: id, an unused compression flag, the length cut to 32 bits, the payload.
  function Framed(id: u16, payload: bytes): bytes {
    PutU16(id) + ([0] + (PutU32(|payload| % 0x1_0000_0000) + payload))
  }

  // Ok(None) of read_packet_header is None here.
  function GetHeader(s: bytes): Option<(u16, u32, bytes)> {
    if |s| < HEADER then None
    else
      var id := GetU16(s);
      var len := GetU32(s[3..]);
      Some((id.value, len.value, s[7..]))
  }

  lemma HeaderRoundTrip(id: u16, payload: bytes, r: bytes)
    ensures GetHeader(Framed(id, payload) + r) == Some((id, |payload| % 0x1_0000_0000, payload + r))
  {
    var len := |payload| % 0x1_0000_0000;
    var s := Framed(id, payload) + r;
    var s1 := [0] + (PutU32(len) + payload);
    assert s == PutU16(id) + (s1 + r);
    U16RoundTrip(id, s1 + r);
    assert s[3..] == PutU32(len) + (payload + r);
    U32RoundTrip(len, payload + r);
    assert s[7..] == payload + r;
  }

  // ---------- the reader ----------

  // A result agrees with a parse when it carries the same value or error, and the reader now
  // stands where the parse left off. Where the reader stands after an error, only the methods whose
  // callers read on say.
  ghost predicate Agrees<T(!new)>(r: Result<T, WireError>, p: Parse<T>, left: bytes) {
    match p
    case Read(v, rest) => r == Ok(v) && left == rest
    case Fail(e) => r == Err(e)
  }

  class PacketReader {
    const data: bytes
    const memory: nat
    var pos: nat

    ghost predicate Valid()
      reads this
    {
      pos <= |data|
    }

    ghost function Left(): bytes
      reads this
      requires Valid()
    {
      data[pos..]
    }

    constructor (input: bytes, memory: nat)
      ensures Valid() && Left() == input && data == input && pos == 0 && this.memory == memory
    {
      data := input;
      this.memory := memory;
      pos := 0;
    }

    method Remaining() returns (n: nat)
      requires Valid()
      ensures n == |Left()|
    {
      n := |data| - pos;
    }

    // read_exact, which uses up what is there even when it is too little
    method ReadExact(n: nat) returns (r: Result<bytes, WireError>)
      requires Valid()
      modifies this
      ensures Valid() && Agrees(r, GetBytes(old(Left()), n), Left())
      ensures r.Err? ==> Left() == []
    {
      if |data| - pos < n {
        pos := |data|;
        return Err(UnexpectedEof);
      }
      assert data[pos..pos + n] == Left()[..n] && data[pos + n..] == Left()[n..];
      r := Ok(data[pos..pos + n]);
      pos := pos + n;
    }

    method ReadBytes(n: nat) returns (r: Result<bytes, WireError>)
      requires Valid()
      modifies this
      ensures Valid() && Agrees(r, GetRoom(old(Left()), n, memory), Left())
      ensures r == Err(UnexpectedEof) ==> Left() == []
    {
      if n > memory { return Err(Halted); }
      r := ReadExact(n);
    }

    method ReadU8() returns (r: Result<u8, WireError>)
      requires Valid()
      modifies this
      ensures Valid() && Agrees(r, GetU8(old(Left())), Left())
      ensures r.Err? ==> Left() == []
    {
      if pos >= |data| { return Err(UnexpectedEof); }
      r := Ok(data[pos]);
      pos := pos + 1;
    }

    method ReadBool() returns (r: Result<bool, WireError>)
      requires Valid()
      modifies this
      ensures Valid() && Agrees(r, GetBool(old(Left())), Left())
    {
      var x :- ReadU8();
      return Ok(x != 0);
    }

    method ReadNum(k: nat) returns (r: Result<nat, WireError>)
      requires Valid()
      modifies this
      ensures Valid() && Agrees(r, GetNum(old(Left()), k), Left())
    {
      var raw :- ReadExact(k);
      var x: nat := 0;
      var i := k;
      while i > 0
        invariant 0 <= i <= k == |raw| && x == Num(raw[i..])
      {
        i := i - 1;
        assert raw[i..][1..] == raw[i + 1..];
        x := raw[i] + 256 * x;
      }
      assert raw[0..] == raw;
      return Ok(x);
    }

    method ReadU16() returns (r: Result<u16, WireError>)
      requires Valid()
      modifies this
      ensures Valid() && Agrees(r, GetU16(old(Left())), Left())
    {
      ghost var s := Left();
      var x :- ReadNum(2);
      NumBelow(s[..2]);
      Pow256();
      return Ok(x);
    }

    method ReadU32() returns (r: Result<u32, WireError>)
      requires Valid()
      modifies this
      ensures Valid() && Agrees(r, GetU32(old(Left())), Left())
    {
      ghost var s := Left();
      var x :- ReadNum(4);
      NumBelow(s[..4]);
      Pow256();
      return Ok(x);
    }

    method ReadI32() returns (r: Result<i32, WireError>)
      requires Valid()
      modifies this
      ensures Valid() && Agrees(r, GetI32(old(Left())), Left())
    {
      var raw :- ReadU32();
      var x: int := raw;
      return Ok(if x >= 0x8000_0000 then x - 0x1_0000_0000 else x);
    }

    method ReadF64() returns (r: Result<F64, WireError>)
      requires Valid()
      modifies this
      ensures Valid() && Agrees(r, GetF64(old(Left())), Left())
    {
      var raw :- ReadExact(8);
      return Ok(raw);
    }

    method ReadOsuString() returns (r: Result<bytes, WireError>)
      requires Valid()
      modifies this
      ensures Valid() && Agrees(r, GetString(old(Left()), memory), Left())
      ensures r == Err(Halted) || Left() == AfterText(old(Left()))
    {
      var indicator :- ReadU8();
      if indicator == NO_TEXT { return Ok([]); }
      if indicator != SOME_TEXT { return Err(InvalidData); }
      ghost var s1 := Left();
      var slice := data[pos..];
      var len, after := ReadUleb128(slice);
      if len.Err? { return Err(len.error); }
      ReadsAtMostTen(s1);
      pos := |data| - |after|;
      assert Left() == after;
      var text :- ReadBytes(len.value);
      if Utf8(text) { return Ok(text); } else { return Err(InvalidData); }
    }

    method ReadPacketHeader() returns (r: Option<(u16, u32)>)
      requires Valid()
      modifies this
      ensures Valid()
      ensures match GetHeader(old(Left()))
        case None => r == None && pos == old(pos)
        case Some((id, len, rest)) => r == Some((id, len)) && Left() == rest
    {
      if |data| - pos < HEADER { return None; }
      ghost var s := Left();
      var id := ReadU16();
      assert Left() == s[2..];
      var flag := ReadU8();
      assert Left() == s[3..];
      var len := ReadU32();
      return Some((id.value, len.value));
    }
  }

  // ---------- the writer ----------

  class PacketWriter {
    var buffer: bytes

    constructor ()
      ensures buffer == []
    {
      buffer := [];
    }

    method WriteU8(x: u8)
      modifies this
      ensures buffer == old(buffer) + [x]
    {
      buffer := buffer + [x];
    }

    method WriteBool(b: bool)
      modifies this
      ensures buffer == old(buffer) + PutBool(b)
    {
      buffer := buffer + [if b then 1 else 0];
    }

    // The k bytes of x, the lowest first.
    method WriteNum(x: nat, k: nat)
      modifies this
      ensures buffer == old(buffer) + Le(x, k)
    {
      var y, i := x, k;
      while i > 0
        invariant 0 <= i <= k && buffer + Le(y, i) == old(buffer) + Le(x, k)
      {
        assert buffer + Le(y, i) == buffer + [y % 256] + Le(y / 256, i - 1);
        buffer := buffer + [y % 256];
        y := y / 256;
        i := i - 1;
      }
    }

    method WriteU16(x: u16)
      modifies this
      ensures buffer == old(buffer) + PutU16(x)
    {
      WriteNum(x, 2);
    }

    method WriteU32(x: u32)
      modifies this
      ensures buffer == old(buffer) + PutU32(x)
    {
      WriteNum(x, 4);
    }

    method WriteI32(x: i32)
      modifies this
      ensures buffer == old(buffer) + PutI32(x)
    {
      WriteNum(x % 0x1_0000_0000, 4);
    }

    method WriteBytes(s: bytes)
      modifies this
      ensures buffer == old(buffer) + s
    {
      buffer := buffer + s;
    }

    method WriteOsuString(s: bytes)
      modifies this
      ensures buffer == old(buffer) + PutString(s)
    {
      if s == [] {
        buffer := buffer + [NO_TEXT];
      } else {
        hide Encode;
        ghost var before := buffer;
        buffer := buffer + [SOME_TEXT];
        buffer := WriteUleb128(|s| % TWO64, buffer);
        buffer := buffer + s;
        Regroup4(before, [SOME_TEXT], Encode(|s| % TWO64), s);
      }
    }
  }

  // PacketWriter::build_packet
  method BuildPacket(id: u16, payload: bytes) returns (packet: bytes)
    ensures packet == Framed(id, payload)
  {
    var w := new PacketWriter();
    w.WriteU16(id);
    w.WriteU8(0);
    w.WriteU32(|payload| % 0x1_0000_0000);
    w.WriteBytes(payload);
    packet := w.buffer;
  }
}
