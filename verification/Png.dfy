/** Stripping metadata from PNG files (src/server/avatars.rs): the walk over the bytes refines
    "parse the chunks, drop those that carry metadata, write the rest back" (PNG section 3.2 of RFC 2083). */
module Png {
  import opened Wrappers
  import opened BanchoTypes
  import opened Containers
  import opened Sequences

  // Length, type, data, CRC. The CRC is carried along and never checked.
  datatype Chunk = Chunk(kind: bytes, data: bytes, crc: bytes)

  const SIGNATURE: bytes := [0x89, 80, 78, 71, 13, 10, 26, 10]
  const IEND: bytes := [73, 69, 78, 68]
  const EXIF: bytes := [101, 88, 73, 102]
  const TEXT: bytes := [116, 69, 88, 116]
  const ZTXT: bytes := [122, 84, 88, 116]
  const ITXT: bytes := [105, 84, 88, 116]
  const ICCP: bytes := [105, 67, 67, 80]

  predicate IsMetadata(kind: bytes) {
    kind == EXIF || kind == TEXT || kind == ZTXT || kind == ITXT || kind == ICCP
  }

  // ---------- specification ----------

  predicate ChunkOk(c: Chunk) {
    |c.kind| == 4 && |c.crc| == 4 && |c.data| < 0x1_0000_0000
  }

  // A file ends with its only IEND.
  predicate FileOk(cs: seq<Chunk>) {
    cs != [] && ChunkOk(cs[0]) && if |cs| == 1 then cs[0].kind == IEND else cs[0].kind != IEND && FileOk(cs[1..])
  }

  function ChunkBytes(c: Chunk): bytes {
    Be(|c.data|, 4) + (c.kind + (c.data + c.crc))
  }

  function Size(c: Chunk): nat {
    12 + |c.data|
  }

  function Written(cs: seq<Chunk>): bytes {
    if cs == [] then [] else ChunkBytes(cs[0]) + Written(cs[1..])
  }

  // The chunk at the front.
  function Front(s: bytes): (c: Option<Chunk>)
    ensures c.Some? ==> 12 + |c.value.data| <= |s|
  {
    if |s| < 12 then None else
    var length := BeNum(s[..4]);
    if 12 + length > |s| then None
    else Some(Chunk(s[4..8], s[8..8 + length], s[8 + length..12 + length]))
  }

  lemma FrontFits(s: bytes)
    ensures Front(s).Some? ==> ChunkOk(Front(s).value) && ChunkBytes(Front(s).value) == s[..Size(Front(s).value)]
  {
    if Front(s).Some? {
      var length := BeNum(s[..4]);
      BeOfNum(s[..4]);
      BeBelow(s[..4]);
      FourCuts(s, 4, 8, 8 + length, 12 + length);
    }
  }

  // The chunks up to an IEND that must stand at the very end.
  function Parsed(s: bytes): Option<seq<Chunk>>
    decreases |s|
  {
    match Front(s)
    case None => None
    case Some(c) =>
      var rest := s[Size(c)..];
      if c.kind == IEND then (if rest == [] then Some([c]) else None)
      else match Parsed(rest)
        case None => None
        case Some(cs) => Some([c] + cs)
  }

  function Cleaned(cs: seq<Chunk>): seq<Chunk> {
    if cs == [] then []
    else if IsMetadata(cs[0].kind) then Cleaned(cs[1..])
    else [cs[0]] + Cleaned(cs[1..])
  }

  // Cleaning goes piece by piece and keeps the order.
  lemma {:induction false} CleanedJoins(a: seq<Chunk>, b: seq<Chunk>)
    ensures Cleaned(a + b) == Cleaned(a) + Cleaned(b)
  {
    if a == [] {
      assert a + b == b;
    } else {
      assert (a + b)[1..] == a[1..] + b;
      CleanedJoins(a[1..], b);
    }
  }

  // What is left of the chunks in s, written back.
  function Remainder(s: bytes): Option<bytes> {
    match Parsed(s)
    case None => None
    case Some(cs) => Some(Written(Cleaned(cs)))
  }

  function Strip(s: bytes): Option<bytes> {
    if !(SIGNATURE <= s) then None else
    match Remainder(s[8..])
    case None => None
    case Some(out) => Some(SIGNATURE + out)
  }

  // ---------- parsing and writing undo each other ----------

  lemma FrontOfWritten(c: Chunk, r: bytes)
    requires ChunkOk(c)
    ensures Front(ChunkBytes(c) + r) == Some(c) && (ChunkBytes(c) + r)[Size(c)..] == r
  {
    var s := ChunkBytes(c) + r;
    BeRoundTrip(|c.data|, 4);
    FourPieces(Be(|c.data|, 4), c.kind, c.data, c.crc, r);
  }

  lemma {:induction false} WrittenParses(cs: seq<Chunk>)
    requires FileOk(cs)
    ensures Parsed(Written(cs)) == Some(cs)
  {
    hide Front; hide ChunkBytes; hide ChunkOk;
    var rest := Written(cs[1..]);
    FrontOfWritten(cs[0], rest);
    if |cs| > 1 {
      WrittenParses(cs[1..]);
      assert cs == [cs[0]] + cs[1..];
    } else {
      assert cs == [cs[0]];
    }
  }

  lemma {:induction false} ParsedIsWritten(s: bytes)
    requires Parsed(s).Some?
    ensures FileOk(Parsed(s).value) && Written(Parsed(s).value) == s
    decreases |s|
  {
    hide Front; hide ChunkBytes; hide ChunkOk;
    FrontFits(s);
    var c := Front(s).value;
    var rest := s[Size(c)..];
    assert s == ChunkBytes(c) + rest;
    if c.kind == IEND {
      assert Written([c]) == ChunkBytes(c) + Written([]);
    } else {
      ParsedIsWritten(rest);
    }
  }

  lemma {:induction false} CleanedIsFile(cs: seq<Chunk>)
    requires FileOk(cs)
    ensures FileOk(Cleaned(cs))
  {
    if |cs| > 1 {
      CleanedIsFile(cs[1..]);
      assert IsMetadata(cs[0].kind) || Cleaned(cs)[1..] == Cleaned(cs[1..]);
    }
  }

  lemma {:induction false} CleanedTwice(cs: seq<Chunk>)
    ensures Cleaned(Cleaned(cs)) == Cleaned(cs)
    ensures forall c :: c in Cleaned(cs) <==> c in cs && !IsMetadata(c.kind)
  {
    if cs != [] { CleanedTwice(cs[1..]); }
  }

  lemma {:induction false} CleanedIsShorter(cs: seq<Chunk>)
    ensures |Written(Cleaned(cs))| <= |Written(cs)|
  {
    if cs != [] { CleanedIsShorter(cs[1..]); }
  }

  // ---------- main results ----------

  // A file is accepted exactly when it is the signature and a well-formed chunk list, and then what
  // comes out is that list without its metadata.
  lemma StripMeaning(cs: seq<Chunk>)
    requires FileOk(cs)
    ensures Strip(SIGNATURE + Written(cs)) == Some(SIGNATURE + Written(Cleaned(cs)))
  {
    WrittenParses(cs);
    assert (SIGNATURE + Written(cs))[8..] == Written(cs);
  }

  lemma StripAccepts(s: bytes)
    ensures Strip(s).Some? <==> exists cs :: FileOk(cs) && s == SIGNATURE + Written(cs)
  {
    if Strip(s).Some? {
      ParsedIsWritten(s[8..]);
      assert s == SIGNATURE + s[8..];
    }
    if cs :| FileOk(cs) && s == SIGNATURE + Written(cs) { StripMeaning(cs); }
  }

  lemma StripIsShorter(s: bytes)
    requires Strip(s).Some?
    ensures |Strip(s).value| <= |s|
  {
    ParsedIsWritten(s[8..]);
    CleanedIsShorter(Parsed(s[8..]).value);
  }

  lemma StripTwice(s: bytes)
    requires Strip(s).Some?
    ensures Strip(Strip(s).value) == Strip(s)
  {
    var cs := Parsed(s[8..]).value;
    ParsedIsWritten(s[8..]);
    CleanedIsFile(cs);
    StripMeaning(Cleaned(cs));
    CleanedTwice(cs);
  }

  // ---------- the code ----------

  lemma RemainderStep(s: bytes, c: Chunk)
    requires Front(s) == Some(c)
    ensures c.kind == IEND ==> Remainder(s) == if Size(c) == |s| then Some(s) else None
    ensures c.kind != IEND ==>
      Remainder(s) == Joined(if IsMetadata(c.kind) then [] else s[..Size(c)], Remainder(s[Size(c)..]))
  {
    FrontFits(s);
    if c.kind == IEND {
      assert Cleaned([c]) == [c] + Cleaned([]);
      assert Written([c]) == ChunkBytes(c) + Written([]);
      if Size(c) == |s| { assert ChunkBytes(c) + Written([]) == s; }
    } else if Parsed(s[Size(c)..]).Some? {
      var cs := Parsed(s[Size(c)..]).value;
      assert ([c] + cs)[1..] == cs;
      assert ([c] + Cleaned(cs))[1..] == Cleaned(cs);
      assert Cleaned([c] + cs) == if IsMetadata(c.kind) then Cleaned(cs) else [c] + Cleaned(cs);
      assert [] + Written(Cleaned(cs)) == Written(Cleaned(cs));
    }
  }

  lemma NoFront(s: bytes)
    requires Front(s).None?
    ensures Remainder(s).None?
  {
  }

  // One turn of the walk, from the bytes written so far.
  lemma Advance(before: bytes, s: bytes, c: Chunk)
    requires Front(s) == Some(c)
    ensures var after := if IsMetadata(c.kind) then before else before + s[..Size(c)];
      Joined(before, Remainder(s)) ==
        if c.kind != IEND then Joined(after, Remainder(s[Size(c)..])) else if Size(c) == |s| then Some(after) else None
  {
    hide Remainder; hide Front; hide IsMetadata;
    assert !IsMetadata(IEND) by { IendIsKept(); }
    RemainderStep(s, c);
    JoinedTwice(before, if IsMetadata(c.kind) then [] else s[..Size(c)], Remainder(s[Size(c)..]));
    assert before + [] == before;
    if Size(c) == |s| { assert s[..Size(c)] == s; }
  }

  lemma IendIsKept()
    ensures !IsMetadata(IEND)
  {
  }

  // strip_png_metadata
  method StripPng(input: bytes) returns (r: Option<bytes>)
    ensures r == Strip(input)
  {
    hide Remainder; hide Joined; hide Front; hide IsMetadata;
    if !(SIGNATURE <= input) { return None; }
    var output := SIGNATURE;
    var offset := 8;
    var sawIend := false;
    ghost var whole, kept := Remainder(input[8..]), [];
    JoinedNothing(whole);
    while offset + 12 <= |input| && !sawIend
      invariant 8 <= offset <= |input| && output == SIGNATURE + kept
      invariant sawIend ==> whole == if offset == |input| then Some(kept) else None
      invariant !sawIend ==> whole == Joined(kept, Remainder(input[offset..]))
      decreases |input| - offset, !sawIend
    {
      ghost var s := input[offset..];
      var length := BeNum(input[offset..offset + 4]);
      var end := offset + 12 + length;
      var kind := input[offset + 4..offset + 8];
      FrontAt(input, offset);
      if end > |input| { NoFront(s); NothingJoined(kept); return None; }
      ghost var c := Front(s).value;
      Advance(kept, s, c);
      if !IsMetadata(kind) {
        output := output + input[offset..end];
        kept := kept + input[offset..end];
      }
      offset := end;
      if kind == IEND { sawIend := true; }
    }
    if !sawIend { ShortTail(input[offset..]); NothingJoined(kept); }
    return if sawIend && offset == |input| then Some(output) else None;
  }

  lemma FrontAt(input: bytes, offset: nat)
    requires offset + 12 <= |input|
    ensures var (s, length) := (input[offset..], BeNum(input[offset..offset + 4]));
      var end := offset + 12 + length;
      if end > |input| then Front(s).None?
      else
        && Front(s).Some? && Front(s).value.kind == input[offset + 4..offset + 8] && Size(Front(s).value) == 12 + length
        && s[..12 + length] == input[offset..end] && s[12 + length..] == input[end..]
  {
    assert input[offset..][..4] == input[offset..offset + 4];
    assert input[offset..][4..8] == input[offset + 4..offset + 8];
  }

  lemma ShortTail(s: bytes)
    requires |s| < 12
    ensures Remainder(s).None?
  {
  }

  lemma NothingJoined(a: bytes)
    ensures Joined(a, None) == None
  {
  }
}
