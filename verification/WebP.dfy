/** Stripping metadata from WebP files (src/server/avatars.rs): the walk over the bytes refines
    "parse the chunks, drop EXIF and XMP, clear their flags in VP8X, write the rest back under a
    recomputed size" (sections 2.3 to 2.7 of RFC 9649). */
module WebP {
  import opened Wrappers
  import opened BanchoTypes
  import opened Uleb128
  import opened Wire
  import opened Containers
  import opened Sequences

  const RIFF: bytes := [82, 73, 70, 70]
  const WEBP: bytes := [87, 69, 66, 80]
  const EXIF: bytes := [69, 88, 73, 70]
  const XMP: bytes := [88, 77, 80, 32]
  const VP8X: bytes := [86, 80, 56, 88]

  // Data of odd length is followed by one byte of padding, kept as it is.
  datatype Chunk = Chunk(kind: bytes, data: bytes, pad: bytes)

  predicate IsMetadata(kind: bytes) {
    kind == EXIF || kind == XMP
  }

  // ---------- specification ----------

  predicate ChunkOk(c: Chunk) {
    |c.kind| == 4 && |c.data| < 0x1_0000_0000 && |c.pad| == |c.data| % 2
  }

  predicate ChunksOk(cs: seq<Chunk>) {
    forall c :: c in cs ==> ChunkOk(c)
  }

  function Size(c: Chunk): nat {
    8 + |c.data| + |c.data| % 2
  }

  function ChunkBytes(c: Chunk): bytes {
    c.kind + (Le(|c.data|, 4) + (c.data + c.pad))
  }

  function Written(cs: seq<Chunk>): bytes {
    if cs == [] then [] else ChunkBytes(cs[0]) + Written(cs[1..])
  }

  // A whole file. The size field counts everything after itself.
  function FileBytes(body: bytes): bytes {
    RIFF + (Le(|body| + 4, 4) + (WEBP + body))
  }

  function Front(s: bytes): (c: Option<Chunk>)
    ensures c.Some? ==> Size(c.value) <= |s|
  {
    if |s| < 8 then None else
    var length := Num(s[4..8]);
    var size := 8 + length + length % 2;
    if size > |s| then None else Some(Chunk(s[..4], s[8..8 + length], s[8 + length..size]))
  }

  function Parsed(s: bytes): Option<seq<Chunk>>
    decreases |s|
  {
    if s == [] then Some([]) else
    match Front(s)
    case None => None
    case Some(c) =>
      match Parsed(s[Size(c)..])
      case None => None
      case Some(cs) => Some([c] + cs)
  }

  // Bits 2 and 3, the XMP and EXIF flags, cleared.
  function ClearFlags(b: u8): u8 {
    b / 16 * 16 + b % 4
  }

  function Patched(c: Chunk): Chunk {
    if c.kind == VP8X && |c.data| >= 1 then c.(data := c.data[0 := ClearFlags(c.data[0])]) else c
  }

  function Cleaned(cs: seq<Chunk>): seq<Chunk> {
    if cs == [] then []
    else if IsMetadata(cs[0].kind) then Cleaned(cs[1..])
    else [Patched(cs[0])] + Cleaned(cs[1..])
  }

  // Cleaning goes piece by piece and keeps the order.
  lemma {:induction false} CleanedJoins(a: seq<Chunk>, b: seq<Chunk>)
    ensures Cleaned(a + b) == Cleaned(a) + Cleaned(b)
  {
    if a == [] {
      assert a + b == b;
    } else {
      assert (a + b)[1..] == a[1..] + b;
      CleanedJoins(a[1..], b);
    }
  }

  function Remainder(s: bytes): Option<bytes> {
    match Parsed(s)
    case None => None
    case Some(cs) => Some(Written(Cleaned(cs)))
  }

  function Strip(s: bytes): Option<bytes> {
    if |s| < 12 || s[..4] != RIFF || s[8..12] != WEBP || Num(s[4..8]) + 8 != |s| then None else
    match Remainder(s[12..])
    case None => None
    case Some(out) => Some(FileBytes(out))
  }

  // ---------- parsing and writing undo each other ----------

  lemma SizeField(n: nat)
    requires n < 0x1_0000_0000
    ensures Num(Le(n, 4)) == n
  {
    Pow256();
    NumOfLe(n, 4);
  }

  lemma FrontOfWritten(c: Chunk, r: bytes)
    requires ChunkOk(c)
    ensures Front(ChunkBytes(c) + r) == Some(c) && (ChunkBytes(c) + r)[Size(c)..] == r && |ChunkBytes(c)| == Size(c)
  {
    hide Le; hide Num;
    var s := ChunkBytes(c) + r;
    SizeField(|c.data|);
    FourPieces(c.kind, Le(|c.data|, 4), c.data, c.pad, r);
  }

  lemma FrontFits(s: bytes)
    ensures Front(s).Some? ==> ChunkOk(Front(s).value) && ChunkBytes(Front(s).value) == s[..Size(Front(s).value)]
  {
    hide Le; hide Num;
    if Front(s).Some? {
      var length := Num(s[4..8]);
      var size := 8 + length + length % 2;
      Pow256();
      NumBelow(s[4..8]);
      LeOfNum(s[4..8]);
      FourCuts(s, 4, 8, 8 + length, size);
    }
  }

  lemma {:induction false} WrittenParses(cs: seq<Chunk>)
    requires ChunksOk(cs)
    ensures Parsed(Written(cs)) == Some(cs)
  {
    hide Front; hide ChunkBytes; hide ChunkOk;
    if cs != [] {
      FrontOfWritten(cs[0], Written(cs[1..]));
      WrittenParses(cs[1..]);
      assert cs == [cs[0]] + cs[1..];
    }
  }

  lemma {:induction false} ParsedIsWritten(s: bytes)
    requires Parsed(s).Some?
    ensures ChunksOk(Parsed(s).value) && Written(Parsed(s).value) == s
    decreases |s|
  {
    hide Front; hide ChunkBytes; hide ChunkOk;
    if s != [] {
      FrontFits(s);
      var c := Front(s).value;
      ParsedIsWritten(s[Size(c)..]);
      var cs := Parsed(s[Size(c)..]).value;
      assert ([c] + cs)[1..] == cs;
      assert s == s[..Size(c)] + s[Size(c)..];
    }
  }

  lemma FlagsCleared(b: u8)
    ensures ClearFlags(b) / 4 % 4 == 0 && ClearFlags(ClearFlags(b)) == ClearFlags(b)
    ensures ClearFlags(b) % 4 == b % 4 && ClearFlags(b) / 16 == b / 16
  {
    var x := ClearFlags(b);
    DivMod(x, 16, b / 16, b % 4);
    DivMod(x, 4, 4 * (b / 16), b % 4);
  }

  // Nothing that carries metadata is left, and no VP8X chunk announces any.
  predicate Clean(c: Chunk) {
    !IsMetadata(c.kind) && (c.kind == VP8X && |c.data| >= 1 ==> c.data[0] / 4 % 4 == 0)
  }

  lemma PatchedOk(c: Chunk)
    ensures ChunkOk(c) ==> ChunkOk(Patched(c))
    ensures |ChunkBytes(Patched(c))| == |ChunkBytes(c)| && Patched(c).kind == c.kind
    ensures Patched(Patched(c)) == Patched(c)
    ensures !IsMetadata(c.kind) ==> Clean(Patched(c))
  {
    hide ClearFlags; hide Le;
    if c.kind == VP8X && |c.data| >= 1 {
      FlagsCleared(c.data[0]);
      assert Patched(Patched(c)).data == Patched(c).data;
    }
  }

  lemma {:induction false} CleanedIsClean(cs: seq<Chunk>)
    ensures ChunksOk(cs) ==> ChunksOk(Cleaned(cs))
    ensures forall c :: c in Cleaned(cs) ==> Clean(c)
    ensures Cleaned(Cleaned(cs)) == Cleaned(cs)
    ensures |Written(Cleaned(cs))| <= |Written(cs)|
  {
    hide ChunkOk; hide ChunkBytes; hide Patched; hide Clean; hide IsMetadata;
    if cs != [] {
      CleanedIsClean(cs[1..]);
      PatchedOk(cs[0]);
    }
  }

  // ---------- main results ----------

  lemma FileParts(body: bytes)
    requires |body| + 4 < 0x1_0000_0000
    ensures var s := FileBytes(body);
      |s| == |body| + 12 && s[..4] == RIFF && s[8..12] == WEBP && Num(s[4..8]) == |s| - 8 && s[12..] == body
  {
    hide Le; hide Num;
    var s := FileBytes(body);
    SizeField(|body| + 4);
    assert s[4..8] == Le(|body| + 4, 4);
  }

  lemma StripMeaning(cs: seq<Chunk>)
    requires ChunksOk(cs) && |Written(cs)| + 4 < 0x1_0000_0000
    ensures Strip(FileBytes(Written(cs))) == Some(FileBytes(Written(Cleaned(cs))))
  {
    hide Parsed; hide Written; hide Cleaned; hide FileBytes;
    WrittenParses(cs);
    FileParts(Written(cs));
  }

  lemma StripAccepts(s: bytes)
    ensures Strip(s).Some? <==> exists cs ::
      ChunksOk(cs) && |Written(cs)| + 4 < 0x1_0000_0000 && s == FileBytes(Written(cs))
  {
    hide Parsed; hide Written; hide Cleaned; hide ChunksOk;
    if Strip(s).Some? { StripParts(s); }
    if cs :| ChunksOk(cs) && |Written(cs)| + 4 < 0x1_0000_0000 && s == FileBytes(Written(cs)) { StripMeaning(cs); }
  }

  lemma StripParts(s: bytes)
    requires Strip(s).Some?
    ensures var cs := Parsed(s[12..]).value;
      ChunksOk(cs) && |Written(cs)| + 4 < 0x1_0000_0000 && s == FileBytes(Written(cs))
  {
    hide Parsed; hide Written; hide Le; hide Num; hide ChunksOk;
    ParsedIsWritten(s[12..]);
    Pow256();
    NumBelow(s[4..8]);
    LeOfNum(s[4..8]);
    assert s == s[..4] + (s[4..8] + (s[8..12] + s[12..]));
  }

  // The output is no longer than the input, its size field is its length less 8, and it is clean.
  lemma StripResult(s: bytes)
    requires Strip(s).Some?
    ensures var out := Strip(s).value;
      && |out| <= |s| && Num(out[4..8]) == |out| - 8
      && Parsed(out[12..]).Some? && forall c :: c in Parsed(out[12..]).value ==> Clean(c)
  {
    hide Parsed; hide Written; hide Cleaned; hide FileBytes; hide Clean; hide Num; hide ChunksOk;
    var cs := Parsed(s[12..]).value;
    StripParts(s);
    CleanedIsClean(cs);
    FileParts(Written(cs));
    FileParts(Written(Cleaned(cs)));
    WrittenParses(Cleaned(cs));
  }

  lemma StripTwice(s: bytes)
    requires Strip(s).Some?
    ensures Strip(Strip(s).value) == Strip(s)
  {
    hide Parsed; hide Written; hide Cleaned; hide FileBytes; hide Clean; hide ChunksOk;
    var cs := Parsed(s[12..]).value;
    StripParts(s);
    CleanedIsClean(cs);
    StripMeaning(Cleaned(cs));
  }

  // ---------- the code ----------

  lemma RemainderStep(s: bytes)
    ensures s == [] ==> Remainder(s) == Some([])
    ensures s != [] && Front(s).None? ==> Remainder(s).None?
    ensures s != [] && Front(s).Some? ==>
      var c := Front(s).value;
      Remainder(s) == Joined(if IsMetadata(c.kind) then [] else ChunkBytes(Patched(c)), Remainder(s[Size(c)..]))
  {
    hide ChunkBytes; hide Front; hide IsMetadata; hide Patched;
    if s != [] && Front(s).Some? {
      var c := Front(s).value;
      if Parsed(s[Size(c)..]).Some? {
        var cs := Parsed(s[Size(c)..]).value;
        assert ([c] + cs)[1..] == cs;
        assert ([Patched(c)] + Cleaned(cs))[1..] == Cleaned(cs);
        assert [] + Written(Cleaned(cs)) == Written(Cleaned(cs));
      }
    }
  }

  lemma Advance(before: bytes, s: bytes)
    ensures s == [] ==> Joined(before, Remainder(s)) == Some(before)
    ensures s != [] && Front(s).None? ==> Joined(before, Remainder(s)).None?
    ensures s != [] && Front(s).Some? ==>
      var c := Front(s).value;
      Joined(before, Remainder(s)) ==
        Joined(if IsMetadata(c.kind) then before else before + ChunkBytes(Patched(c)), Remainder(s[Size(c)..]))
  {
    hide Remainder; hide Front; hide IsMetadata; hide ChunkBytes; hide Patched;
    RemainderStep(s);
    assert before + [] == before;
    if s != [] && Front(s).Some? {
      var c := Front(s).value;
      JoinedTwice(before, if IsMetadata(c.kind) then [] else ChunkBytes(Patched(c)), Remainder(s[Size(c)..]));
    }
  }

  lemma FrontAt(input: bytes, offset: nat)
    requires offset + 8 <= |input|
    ensures var (s, length) := (input[offset..], Num(input[offset + 4..offset + 8]));
      var end := offset + 8 + length + length % 2;
      if end > |input| then Front(s).None?
      else
        && Front(s).Some? && ChunkOk(Front(s).value) && Front(s).value.kind == input[offset..offset + 4] &&
          |Front(s).value.data| == length
        && ChunkBytes(Front(s).value) == input[offset..end] && s[end - offset..] == input[end..]
  {
    hide Num;
    var s := input[offset..];
    assert s[..4] == input[offset..offset + 4] && s[4..8] == input[offset + 4..offset + 8];
    var length := Num(s[4..8]);
    var end := offset + 8 + length + length % 2;
    if end <= |input| {
      FrontFits(s);
      assert s[..end - offset] == input[offset..end];
    }
  }

  // Clearing the flags in place in the output is patching the chunk.
  lemma PatchInPlace(c: Chunk)
    requires ChunkOk(c) && c.kind == VP8X && |c.data| >= 1
    ensures ChunkBytes(Patched(c)) == ChunkBytes(c)[8 := ClearFlags(ChunkBytes(c)[8])]
  {
    hide Le;
    var raw := ChunkBytes(c);
    assert raw == (c.kind + Le(|c.data|, 4)) + (c.data + c.pad);
    assert raw[8] == c.data[0];
    var data := c.data[0 := ClearFlags(c.data[0])];
    assert raw[8 := ClearFlags(raw[8])] == (c.kind + Le(|c.data|, 4)) + (data + c.pad);
  }

  // strip_webp_metadata
  method StripWebP(input: bytes) returns (r: Option<bytes>)
    ensures r == Strip(input)
  {
    hide Remainder; hide IsMetadata; hide Joined; hide Front; hide ChunkBytes; hide ChunkOk; hide Patched;
    hide Num; hide FileBytes;
    if |input| < 12 || input[..4] != RIFF || input[8..12] != WEBP { return None; }
    var declared := Num(input[4..8]) + 8;
    if declared != |input| { return None; }
    var output := RIFF + [0, 0, 0, 0] + WEBP;
    var offset := 12;
    ghost var whole, kept := Remainder(input[12..]), [];
    JoinedNothing(whole);
    while offset + 8 <= |input|
      invariant 12 <= offset <= |input| && output == RIFF + [0, 0, 0, 0] + WEBP + kept
      invariant whole == Joined(kept, Remainder(input[offset..]))
      decreases |input| - offset
    {
      ghost var s := input[offset..];
      Advance(kept, s);
      FrontAt(input, offset);
      var kind := input[offset..offset + 4];
      var length := Num(input[offset + 4..offset + 8]);
      var end := offset + 8 + length + length % 2;
      if end > |input| { return None; }
      if !IsMetadata(kind) {
        var chunk := PatchChunk(input[offset..end], kind, length, Front(s).value);
        output := output + chunk;
        kept := kept + chunk;
      }
      offset := end;
    }
    Advance(kept, input[offset..]);
    if offset != |input| { ShortTail(input[offset..]); return None; }
    assert input[offset..] == [];
    FitsInput(input, kept);
    output := PutSize(output, kept);
    return Some(output);
  }

  // One kept chunk, with the flags of a VP8X chunk cleared.
  method PatchChunk(raw: bytes, kind: bytes, length: nat, ghost c: Chunk) returns (chunk: bytes)
    requires ChunkOk(c) && raw == ChunkBytes(c) && kind == c.kind && length == |c.data|
    ensures chunk == ChunkBytes(Patched(c))
  {
    chunk := raw;
    if kind == VP8X && length >= 1 {
      PatchInPlace(c);
      chunk := chunk[8 := ClearFlags(chunk[8])];
    }
  }

  // The size field is written last; it always fits, since nothing was added.
  method PutSize(output: bytes, ghost kept: bytes) returns (after: bytes)
    requires output == RIFF + [0, 0, 0, 0] + WEBP + kept && |kept| + 4 < 0x1_0000_0000
    ensures after == FileBytes(kept)
  {
    hide Le;
    var size := Le(|output| - 8, 4);
    after := output[..4] + size + output[8..];
    assert after == RIFF + (Le(|kept| + 4, 4) + (WEBP + kept));
  }

  lemma FitsInput(input: bytes, kept: bytes)
    requires |input| >= 12 && input[..4] == RIFF && input[8..12] == WEBP && Num(input[4..8]) + 8 == |input|
    requires Remainder(input[12..]) == Some(kept)
    ensures |kept| + 4 < 0x1_0000_0000
  {
    hide Parsed; hide Written; hide Cleaned; hide FileBytes; hide Num; hide ChunksOk;
    StripParts(input);
    FileParts(Written(Parsed(input[12..]).value));
    CleanedIsClean(Parsed(input[12..]).value);
  }

  lemma ShortTail(s: bytes)
    requires |s| < 8
    ensures Front(s).None?
  {
  }
}
