/** The numbers, names and layouts that the protocol and the file formats fix, written out once more as a
    reader of the source sees them: bits of a byte, ASCII texts, offsets of fields. */
module Literals {
  import opened BanchoTypes
  import opened Wire
  import opened Packets
  import opened Rounds
  import opened Network
  import opened Framing
  import Containers
  import Png
  import Jpeg
  import WebP
  import Multipart
  import LossyText

  // ---------- bits ----------

  // Whether bit k of b is set, p being 2^k.
  predicate Bit(b: u8, p: nat)
    requires p > 0
  {
    b / p % 2 == 1
  }

  // SLOT_HAS_PLAYER is bits 2 to 6; READY and NOT_READY are bits 2 and 3.
  lemma PlayerBits(status: u8)
    ensures HasPlayer(status) <==>
      Bit(status, 4) || Bit(status, 8) || Bit(status, 16) || Bit(status, 32) || Bit(status, 64)
    ensures Waiting(status) <==> Bit(status, 4) || Bit(status, 8)
  {
    var n := status / 4;
    assert status / 8 == n / 2 && status / 16 == n / 4 && status / 32 == n / 8 && status / 64 == n / 16;
    assert HasPlayer(status) <==> n % 32 != 0;
    assert Waiting(status) <==> n % 4 != 0;
    LowBits(n);
  }

  lemma LowBits(n: nat)
    requires n < 64
    ensures n % 4 != 0 <==> n % 2 == 1 || n / 2 % 2 == 1
    ensures n % 32 != 0 <==> n % 2 == 1 || n / 2 % 2 == 1 || n / 4 % 2 == 1 || n / 8 % 2 == 1 || n / 16 % 2 == 1
  {
    var m := n / 4;
    assert n / 8 == m / 2 && n / 16 == m / 4;
    assert n % 32 != 0 <==> n % 4 != 0 || m % 8 != 0;
    ThreeBits(m);
  }

  lemma ThreeBits(m: nat)
    requires m < 16
    ensures m % 8 != 0 <==> m % 2 == 1 || m / 2 % 2 == 1 || m / 4 % 2 == 1
  {
  }

  // The EXIF and XMP flags of VP8X are bits 3 and 2; clearing them touches no other bit.
  lemma FlagBits(b: u8)
    ensures var c := WebP.ClearFlags(b);
      && !Bit(c, 4) && !Bit(c, 8)
      && (Bit(c, 1) <==> Bit(b, 1)) && (Bit(c, 2) <==> Bit(b, 2)) && (Bit(c, 16) <==> Bit(b, 16))
      && (Bit(c, 32) <==> Bit(b, 32)) && (Bit(c, 64) <==> Bit(b, 64)) && (Bit(c, 128) <==> Bit(b, 128))
  {
    var (c, high, low) := (WebP.ClearFlags(b), b / 16, b % 4);
    assert c == 16 * high + low && c / 4 == 4 * high && c / 8 == 2 * high && c / 16 == high;
    assert c / 2 == 8 * high + low / 2 && b / 2 % 2 == low / 2 && low % 2 == b % 2;
    SameHigh(b, c);
  }

  lemma SameHigh(b: u8, c: u8)
    requires b / 16 == c / 16
    ensures b / 32 == c / 32 && b / 64 == c / 64 && b / 128 == c / 128
  {
    assert b / 32 == b / 16 / 2 && c / 32 == c / 16 / 2 && b / 64 == b / 16 / 4 && c / 64 == c / 16 / 4;
    assert b / 128 == b / 16 / 8 && c / 128 == c / 16 / 8;
  }

  // ---------- byte order ----------

  // Packets and RIFF put the lowest byte first, PNG and JPEG the highest.
  lemma ByteOrders(a: u8, b: u8, c: u8, d: u8)
    ensures Num([a, b]) == a + 0x100 * b && Containers.BeNum([a, b]) == 0x100 * a + b
    ensures Num([a, b, c, d]) == a + 0x100 * b + 0x1_0000 * c + 0x100_0000 * d
    ensures Containers.BeNum([a, b, c, d]) == 0x100_0000 * a + 0x1_0000 * b + 0x100 * c + d
  {
    assert [a, b][1..] == [b] && [b][1..] == [];
    assert [a, b][..1] == [a] && [a][..0] == [];
    assert [a, b, c, d][1..] == [b, c, d] && [b, c, d][1..] == [c, d] && [c, d][1..] == [d] && [d][1..] == [];
    assert [a, b, c, d][..3] == [a, b, c] && [a, b, c][..2] == [a, b];
    assert Num([]) == 0 && Num([b]) == b && Num([d]) == d && Num([c, d]) == c + 256 * Num([d]);
    assert Num([b, c, d]) == b + 256 * Num([c, d]);
    assert Containers.BeNum([]) == 0 && Containers.BeNum([a]) == a && Containers.BeNum([a, b]) == 256 * a + b;
    assert Containers.BeNum([a, b, c]) == 256 * Containers.BeNum([a, b]) + c;
  }

  // ---------- texts and headers ----------

  // An empty text is a zero byte; any other is 11, its length and its bytes.
  lemma TextLayout(c: u8)
    ensures PutString([]) == [0] && PutString([c]) == [11, 1, c]
  {
  }

  // id, an unused byte, the length, the payload.
  lemma HeaderLayout(id: u16, payload: bytes)
    requires |payload| < 0x1_0000_0000
    ensures var s := Framed(id, payload);
      |s| == 7 + |payload| && Num(s[..2]) == id && s[2] == 0 && Num(s[3..7]) == |payload| && s[7..] == payload
  {
    var s := Framed(id, payload);
    Pow256();
    NumOfLe(id, 2);
    NumOfLe(|payload|, 4);
    assert s[..2] == PutU16(id) && s[3..7] == PutU32(|payload|) && s[7..] == payload;
  }

  // ---------- score frames ----------

  lemma FrameHits(f: Frame)
    ensures var s := PutHits(f);
      && |s| == 12 && Num(s[..2]) == f.total300 && Num(s[2..4]) == f.total100 && Num(s[4..6]) == f.total50
      && Num(s[6..8]) == f.totalGeki && Num(s[8..10]) == f.totalKatu && Num(s[10..12]) == f.totalMiss
  {
    hide PutU16;
    var s := PutHits(f);
    forall x: u16 ensures |PutU16(x)| == 2 && Num(PutU16(x)) == x { NumberBack(x); }
    assert s[..2] == PutU16(f.total300) && s[2..4] == PutU16(f.total100) && s[4..6] == PutU16(f.total50);
    assert s[6..8] == PutU16(f.totalGeki) && s[8..10] == PutU16(f.totalKatu) && s[10..12] == PutU16(f.totalMiss);
  }

  lemma NumberBack(x: u16)
    ensures |PutU16(x)| == 2 && Num(PutU16(x)) == x
  {
    Pow256();
    NumOfLe(x, 2);
  }

  lemma WideBack(x: i32)
    ensures |PutI32(x)| == 4 && Num(PutI32(x)) == x % 0x1_0000_0000
  {
    Pow256();
    NumOfLe(x % 0x1_0000_0000, 4);
  }

  lemma FrameState(f: Frame)
    ensures var s := PutState(f);
      && |s| == 12 && Num(s[..4]) == f.totalScore % 0x1_0000_0000 && Num(s[4..6]) == f.maxCombo
      && Num(s[6..8]) == f.currentCombo && s[8] == (if f.perfect then 1 else 0) && s[9] == f.hp && s[10] == f.tag
      && s[11] == (if f.scoreV2 then 1 else 0)
  {
    hide PutU16; hide PutI32;
    var s := PutState(f);
    WideBack(f.totalScore);
    NumberBack(f.maxCombo);
    NumberBack(f.currentCombo);
    assert s[..4] == PutI32(f.totalScore) && s[4..6] == PutU16(f.maxCombo) && s[6..8] == PutU16(f.currentCombo);
  }

  // A frame has 29 bytes, and 16 more in ScoreV2; every field at its offset.
  lemma FrameLayout(f: Frame)
    ensures var s := FrameBytes(f);
      && |s| == (if f.scoreV2 then 45 else 29) && Num(s[..4]) == f.time % 0x1_0000_0000 && s[4] == f.slotId
      && s[5..17] == PutHits(f) && s[17..29] == PutState(f)
      && (f.scoreV2 ==> s[29..37] == f.comboPortion && s[37..45] == f.bonusPortion)
  {
    hide PutHits; hide PutState; hide PutI32;
    FrameHits(f);
    FrameState(f);
    WideBack(f.time);
    var s := FrameBytes(f);
    assert s[..4] == PutI32(f.time) && s[5..17] == PutHits(f) && s[17..29] == PutState(f);
  }

  // ---------- rooms ----------

  // The fields of a room one after another, as they are written.
  lemma RoomLayout(m: Match, send: bool)
    ensures MatchBytes(m, send) ==
      PutU16(m.id) + [if m.inProgress then 1 else 0] + [m.matchType] + PutU32(m.activeMods) +
      PutString(m.name) + PutString(ShownPassword(m, send)) +
      PutString(m.beatmapName) + PutI32(m.beatmapId) + PutString(m.beatmapMd5) +
      PutStatuses(m.slots, 0) + PutTeams(m.slots, 0) + PutUsers(m.slots, 0) +
      PutI32(m.host) + [m.playMode] + [m.scoringType] + [m.teamType] + [if m.freemod then 1 else 0] +
      (if m.freemod then PutMods(m.slots, 0) else []) + PutU32(m.seed)
  {
    hide PutU16; hide PutU32; hide PutString; hide PutI32; hide PutStatuses; hide PutTeams; hide PutUsers; hide PutMods;
    hide ShownPassword;
  }

  lemma NextStatus(slots: Slots, n: nat)
    requires n <= 16
    ensures PutStatuses(slots, n) == if n == 16 then [] else [slots[n].status] + PutStatuses(slots, n + 1)
  {
  }

  // One byte for each slot from the n-th on.
  lemma {:induction false} StatusLayout(slots: Slots, n: nat)
    requires n <= 16
    ensures |PutStatuses(slots, n)| == 16 - n
    ensures forall k :: n <= k < 16 ==> PutStatuses(slots, n)[k - n] == slots[k].status
    decreases 16 - n
  {
    hide PutStatuses;
    NextStatus(slots, n);
    if n < 16 {
      StatusLayout(slots, n + 1);
      var rest := PutStatuses(slots, n + 1);
      forall k | n <= k < 16 ensures ([slots[n].status] + rest)[k - n] == slots[k].status {
        if k > n { assert rest[k - (n + 1)] == slots[k].status; }
      }
    }
  }

  lemma NextTeam(slots: Slots, n: nat)
    requires n <= 16
    ensures PutTeams(slots, n) == if n == 16 then [] else [slots[n].team] + PutTeams(slots, n + 1)
  {
  }

  // One byte for each slot from the n-th on.
  lemma {:induction false} TeamLayout(slots: Slots, n: nat)
    requires n <= 16
    ensures |PutTeams(slots, n)| == 16 - n
    ensures forall k :: n <= k < 16 ==> PutTeams(slots, n)[k - n] == slots[k].team
    decreases 16 - n
  {
    hide PutTeams;
    NextTeam(slots, n);
    if n < 16 {
      TeamLayout(slots, n + 1);
      var rest := PutTeams(slots, n + 1);
      forall k | n <= k < 16 ensures ([slots[n].team] + rest)[k - n] == slots[k].team {
        if k > n { assert rest[k - (n + 1)] == slots[k].team; }
      }
    }
  }

  lemma {:induction false} ModsLayout(slots: Slots, n: nat, k: nat)
    requires n <= k < 16
    ensures |PutMods(slots, n)| == 4 * (16 - n)
    ensures PutMods(slots, n)[4 * (k - n)..4 * (k - n) + 4] == PutU32(slots[k].mods)
    decreases 16 - n
  {
    hide PutU32;
    var rest := if n == 15 then [] else PutMods(slots, n + 1);
    if n < 15 { ModsLayout(slots, n + 1, if k > n then k else k + 1); }
    assert PutMods(slots, n) == PutU32(slots[n].mods) + rest;
    if k > n {
      assert PutMods(slots, n)[4 * (k - n)..4 * (k - n) + 4] == rest[4 * (k - n - 1)..4 * (k - n - 1) + 4];
    }
  }

  // ---------- results in words ----------

  // The number that decimal digits stand for.
  function Number(s: string): int {
    if s == [] then 0 else 10 * Number(s[..|s| - 1]) + (s[|s| - 1] as int - '0' as int)
  }

  // A number is written in decimal, without leading zeros.
  lemma {:induction false} DigitsRead(n: nat)
    ensures forall c :: c in Digits(n) ==> '0' <= c <= '9'
    ensures Digits(n) != [] && (Digits(n)[0] == '0' <==> n == 0) && Number(Digits(n)) == n
  {
    if n >= 10 {
      DigitsRead(n / 10);
      assert Digits(n)[..|Digits(n)| - 1] == Digits(n / 10);
    } else {
      assert Digits(n)[..0] == [];
    }
  }

  lemma TeamText(o: Outcome)
    requires o.teamVs
    ensures o.team == 1 ==> Announcement(o) == Ascii("Team Vs match concluded! Winner: Blue Team")
    ensures o.team == 2 ==> Announcement(o) == Ascii("Team Vs match concluded! Winner: Red Team")
    ensures o.team != 1 && o.team != 2 ==> Announcement(o) == Ascii("Team Vs match concluded! Winner: Draw")
  {
  }

  // The points in brackets.
  function InBrackets(score: nat): string {
    " (" + Digits(score) + " points)"
  }

  lemma ScoreText(score: nat)
    ensures Ascii(InBrackets(score)) == Ascii(" (") + Decimal(score) + Ascii(" points)")
  {
    hide Digits; hide Ascii;
    AsciiJoins(" (" + Digits(score), " points)");
    AsciiJoins(" (", Digits(score));
  }

  lemma SoloText(o: Outcome)
    requires !o.teamVs && 0 <= o.best.score
    ensures Announcement(o) ==
      Ascii("Match concluded! Winner: ") + NameText(o.best.name) + Ascii(InBrackets(o.best.score))
  {
    hide Digits; hide Ascii; hide Decimal; hide NameText; hide InBrackets;
    ScoreText(o.best.score);
  }

  lemma NumberedText(user: nat)
    ensures NameText(Numbered(user)) == Ascii("Player " + Digits(user))
  {
    hide Digits; hide Ascii;
    AsciiJoins("Player ", Digits(user));
  }

  // What #multiplayer reads when a round is over.
  lemma ResultTexts(o: Outcome)
    ensures o.teamVs ==>
      Announcement(o) ==
      if o.team == 1 then Ascii("Team Vs match concluded! Winner: Blue Team")
      else if o.team == 2 then Ascii("Team Vs match concluded! Winner: Red Team")
      else Ascii("Team Vs match concluded! Winner: Draw")
    ensures !o.teamVs && o.best.name.Known? && 0 <= o.best.score ==>
      Announcement(o) ==
      Ascii("Match concluded! Winner: ") + o.best.name.text + Ascii(InBrackets(o.best.score))
    ensures !o.teamVs && o.best.name.Numbered? && 0 <= o.best.name.user && 0 <= o.best.score ==>
      Announcement(o) ==
      Ascii("Match concluded! Winner: ") + Ascii("Player " + Digits(o.best.name.user)) + Ascii(InBrackets(o.best.score))
  {
    hide Digits; hide Ascii; hide InBrackets; hide Announcement;
    if o.teamVs {
      TeamText(o);
    } else if 0 <= o.best.score {
      SoloText(o);
      if o.best.name.Numbered? && 0 <= o.best.name.user { NumberedText(o.best.name.user); }
    }
  }

  lemma AsciiJoins(a: string, b: string)
    ensures Ascii(a + b) == Ascii(a) + Ascii(b)
  {
  }

  // ---------- names ----------

  // The five channels.
  lemma ChannelNames()
    ensures OSU == Ascii("#osu") && ANNOUNCE == Ascii("#announce") && LOBBY == Ascii("#lobby")
    ensures MULTIPLAYER == Ascii("#multiplayer") && SPECTATOR == Ascii("#spectator")
  {
  }

  // The chunks and segments that carry metadata.
  lemma MetadataNames(kind: bytes, marker: u8)
    ensures Png.IsMetadata(kind) <==>
      kind in {Ascii("eXIf"), Ascii("tEXt"), Ascii("zTXt"), Ascii("iTXt"), Ascii("iCCP")}
    ensures WebP.IsMetadata(kind) <==> kind in {Ascii("EXIF"), Ascii("XMP ")}
    ensures Jpeg.IsMetadata(marker) <==> marker in {0xE1, 0xED, 0xFE}
  {
    assert Png.EXIF == Ascii("eXIf") && Png.TEXT == Ascii("tEXt") && Png.ZTXT == Ascii("zTXt");
    assert Png.ITXT == Ascii("iTXt") && Png.ICCP == Ascii("iCCP");
    assert WebP.EXIF == Ascii("EXIF") && WebP.XMP == Ascii("XMP ");
  }

  // What becomes of a single chunk or segment: dropped when it carries metadata, kept when not, but for the
  // flags of VP8X.
  lemma PieceByPiece(c: Png.Chunk, g: Jpeg.Segment, w: WebP.Chunk)
    ensures Png.Cleaned([c]) ==
      if c.kind in {Ascii("eXIf"), Ascii("tEXt"), Ascii("zTXt"), Ascii("iTXt"), Ascii("iCCP")} then [] else [c]
    ensures Jpeg.Cleaned([g]) == if g.marker in {0xE1, 0xED, 0xFE} then [] else [g]
    ensures WebP.Cleaned([w]) ==
      if w.kind in {Ascii("EXIF"), Ascii("XMP ")} then []
      else if w.kind == Ascii("VP8X") && w.data != [] then [w.(data := [WebP.ClearFlags(w.data[0])] + w.data[1..])]
      else [w]
  {
    MetadataNames(c.kind, g.marker);
    MetadataNames(w.kind, g.marker);
    FormatNames();
    assert [c][1..] == [] && [g][1..] == [] && [w][1..] == [];
    if w.data != [] { assert w.data[0 := WebP.ClearFlags(w.data[0])] == [WebP.ClearFlags(w.data[0])] + w.data[1..]; }
  }

  // Length, kind, data and CRC of a PNG chunk; kind, length, data and padding of a RIFF chunk; fill, marker,
  // length and data of a JPEG segment.
  lemma ChunkLayouts(c: Png.Chunk, g: Jpeg.Segment, w: WebP.Chunk)
    requires Png.ChunkOk(c) && WebP.ChunkOk(w) && Jpeg.SegmentOk(g)
    ensures var (s, n) := (Png.ChunkBytes(c), |c.data|);
      |s| == 12 + n && Containers.BeNum(s[..4]) == n && s[4..8] == c.kind && s[8..8 + n] == c.data &&
        s[8 + n..] == c.crc
    ensures var (s, n) := (WebP.ChunkBytes(w), |w.data|);
      |s| == 8 + n + n % 2 && s[..4] == w.kind && Num(s[4..8]) == n && s[8..8 + n] == w.data && s[8 + n..] == w.pad
    ensures var (s, k) := (Jpeg.SegmentBytes(g), g.fill);
      && k < |s| && (forall i :: 0 <= i < k ==> s[i] == 0xFF) && s[k] == g.marker
      && (g.marker == 1 || 0xD0 <= g.marker <= 0xD7 ==> |s| == k + 1)
      && (g.marker != 1 && !(0xD0 <= g.marker <= 0xD7) ==>
            |s| == k + 3 + |g.body| && Containers.BeNum(s[k + 1..k + 3]) == 2 + |g.body| && s[k + 3..] == g.body)
  {
    PngLayout(c);
    RiffLayout(w);
    SegmentLayout(g);
  }

  lemma PngLayout(c: Png.Chunk)
    requires Png.ChunkOk(c)
    ensures var (s, n) := (Png.ChunkBytes(c), |c.data|);
      |s| == 12 + n && Containers.BeNum(s[..4]) == n && s[4..8] == c.kind && s[8..8 + n] == c.data &&
        s[8 + n..] == c.crc
  {
    hide Containers.Be; hide Containers.BeNum;
    var (s, n) := (Png.ChunkBytes(c), |c.data|);
    Containers.BeRoundTrip(n, 4);
    assert s[..4] == Containers.Be(n, 4) && s[4..8] == c.kind && s[8..8 + n] == c.data && s[8 + n..] == c.crc;
  }

  lemma RiffLayout(w: WebP.Chunk)
    requires WebP.ChunkOk(w)
    ensures var (s, n) := (WebP.ChunkBytes(w), |w.data|);
      |s| == 8 + n + n % 2 && s[..4] == w.kind && Num(s[4..8]) == n && s[8..8 + n] == w.data && s[8 + n..] == w.pad
  {
    hide Le; hide Num;
    var (s, n) := (WebP.ChunkBytes(w), |w.data|);
    WebP.SizeField(n);
    assert s[..4] == w.kind && s[4..8] == Le(n, 4) && s[8..8 + n] == w.data && s[8 + n..] == w.pad;
  }

  lemma SegmentLayout(g: Jpeg.Segment)
    requires Jpeg.SegmentOk(g)
    ensures var (s, k) := (Jpeg.SegmentBytes(g), g.fill);
      && k < |s| && (forall i :: 0 <= i < k ==> s[i] == 0xFF) && s[k] == g.marker
      && (g.marker == 1 || 0xD0 <= g.marker <= 0xD7 ==> |s| == k + 1)
      && (g.marker != 1 && !(0xD0 <= g.marker <= 0xD7) ==>
            |s| == k + 3 + |g.body| && Containers.BeNum(s[k + 1..k + 3]) == 2 + |g.body| && s[k + 3..] == g.body)
  {
    hide Containers.Be; hide Containers.BeNum; hide Jpeg.Fill;
    var (s, k) := (Jpeg.SegmentBytes(g), g.fill);
    if !Jpeg.Standalone(g.marker) {
      var n := |g.body| + 2;
      Containers.BeRoundTrip(n, 2);
      assert s == Jpeg.Fill(k) + ([g.marker] + (Containers.Be(n, 2) + g.body));
      assert s[k + 1..k + 3] == Containers.Be(n, 2) && s[k + 3..] == g.body;
    }
  }

  // A RIFF file: its name, the length of what follows, the kind and the chunks.
  lemma RiffFile(body: bytes)
    requires |body| + 4 < 0x1_0000_0000
    ensures var s := WebP.FileBytes(body);
      |s| == 12 + |body| && s[..4] == Ascii("RIFF") && Num(s[4..8]) == |s| - 8 && s[8..12] == Ascii("WEBP") &&
        s[12..] == body
  {
    hide Le; hide Num;
    FormatNames();
    var s := WebP.FileBytes(body);
    WebP.SizeField(|body| + 4);
    assert s[..4] == WebP.RIFF && s[4..8] == Le(|body| + 4, 4) && s[8..12] == WebP.WEBP && s[12..] == body;
  }

  lemma FormatNames()
    ensures Png.SIGNATURE == [0x89] + Ascii("PNG") + [13, 10, 26, 10] && Png.IEND == Ascii("IEND")
    ensures WebP.RIFF == Ascii("RIFF") && WebP.WEBP == Ascii("WEBP") && WebP.VP8X == Ascii("VP8X")
    ensures Jpeg.SOI == [0xFF, 0xD8] && Jpeg.SOS == 0xDA && Jpeg.EOI == 0xD9
    ensures forall b: u8 :: Jpeg.Standalone(b) <==> b in {0x01, 0xD0, 0xD1, 0xD2, 0xD3, 0xD4, 0xD5, 0xD6, 0xD7}
  {
  }

  lemma FormNames()
    ensures Multipart.NAME_IS == Ascii("name=") + [34] && Multipart.FILENAME_IS == Ascii("filename=")
    ensures Multipart.SCORE == Ascii("score") && Multipart.SCORE_REPLAY == Ascii("score_replay")
    ensures Multipart.LZMA == [0x5D, 0, 0, 0x20, 0] && Multipart.DASHES == Ascii("--")
    ensures Multipart.BLANK == [13, 10, 13, 10] && LossyText.REPLACEMENT == [0xEF, 0xBF, 0xBD]
  {
  }
}
