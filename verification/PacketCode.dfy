/** The builders and parsers of src/protocol/packets.rs over a PacketWriter and a PacketReader,
    each proved to compute the layout of module Packets. */
module PacketCode {
  import opened Wrappers
  import opened BanchoTypes
  import opened Uleb128
  import opened Wire
  import opened Packets

  // ---------- rooms ----------

  method WriteHead(w: PacketWriter, m: Match, password: bytes)
    modifies w
    ensures w.buffer == old(w.buffer) + PutHead(m, password)
  {
    hide PutU16; hide PutBool; hide PutU32; hide PutString;
    w.WriteU16(m.id);
    w.WriteBool(m.inProgress);
    w.WriteU8(m.matchType);
    w.WriteU32(m.activeMods);
    w.WriteOsuString(m.name);
    w.WriteOsuString(password);
    assert w.buffer == old(w.buffer) + PutHead(m, password);
  }

  method WriteMap(w: PacketWriter, m: Match)
    modifies w
    ensures w.buffer == old(w.buffer) + PutMap(m)
  {
    hide PutString; hide PutI32;
    w.WriteOsuString(m.beatmapName);
    w.WriteI32(m.beatmapId);
    w.WriteOsuString(m.beatmapMd5);
    assert w.buffer == old(w.buffer) + PutMap(m);
  }

  method WriteStatuses(w: PacketWriter, slots: Slots)
    modifies w
    ensures w.buffer == old(w.buffer) + PutStatuses(slots, 0)
  {
    ghost var b0 := w.buffer;
    var i := 0;
    while i < 16
      invariant i <= 16 && w.buffer + PutStatuses(slots, i) == b0 + PutStatuses(slots, 0)
    {
      assert w.buffer + PutStatuses(slots, i) == (w.buffer + [slots[i].status]) + PutStatuses(slots, i + 1);
      w.WriteU8(slots[i].status);
      i := i + 1;
    }
    assert w.buffer + [] == w.buffer;
  }

  method WriteTeams(w: PacketWriter, slots: Slots)
    modifies w
    ensures w.buffer == old(w.buffer) + PutTeams(slots, 0)
  {
    ghost var b0 := w.buffer;
    var i := 0;
    while i < 16
      invariant i <= 16 && w.buffer + PutTeams(slots, i) == b0 + PutTeams(slots, 0)
    {
      assert w.buffer + PutTeams(slots, i) == (w.buffer + [slots[i].team]) + PutTeams(slots, i + 1);
      w.WriteU8(slots[i].team);
      i := i + 1;
    }
    assert w.buffer + [] == w.buffer;
  }

  method WriteSlots(w: PacketWriter, slots: Slots)
    modifies w
    ensures w.buffer == old(w.buffer) + PutSlots(slots)
  {
    hide PutStatuses; hide PutTeams; hide PutUsers;
    WriteStatuses(w, slots);
    WriteTeams(w, slots);
    WriteUsers(w, slots);
    assert w.buffer == old(w.buffer) + PutSlots(slots);
  }

  // The user ids of the occupied slots only.
  method WriteUsers(w: PacketWriter, slots: Slots)
    modifies w
    ensures w.buffer == old(w.buffer) + PutUsers(slots, 0)
  {
    hide PutI32;
    ghost var b0 := w.buffer;
    var i := 0;
    while i < 16
      invariant i <= 16 && w.buffer + PutUsers(slots, i) == b0 + PutUsers(slots, 0)
    {
      if HasPlayer(slots[i].status) {
        assert w.buffer + PutUsers(slots, i) == (w.buffer + PutI32(slots[i].user)) + PutUsers(slots, i + 1);
        w.WriteI32(slots[i].user);
      }
      i := i + 1;
    }
    assert w.buffer + [] == w.buffer;
  }

  method WriteMods(w: PacketWriter, slots: Slots)
    modifies w
    ensures w.buffer == old(w.buffer) + PutMods(slots, 0)
  {
    hide PutU32;
    ghost var b0 := w.buffer;
    var i := 0;
    while i < 16
      invariant i <= 16 && w.buffer + PutMods(slots, i) == b0 + PutMods(slots, 0)
    {
      assert w.buffer + PutMods(slots, i) == (w.buffer + PutU32(slots[i].mods)) + PutMods(slots, i + 1);
      w.WriteU32(slots[i].mods);
      i := i + 1;
    }
    assert w.buffer + [] == w.buffer;
  }

  method WriteTail(w: PacketWriter, m: Match)
    modifies w
    ensures w.buffer == old(w.buffer) + PutTail(m)
  {
    hide PutI32; hide PutBool; hide PutU32; hide PutMods;
    w.WriteI32(m.host);
    w.WriteU8(m.playMode);
    w.WriteU8(m.scoringType);
    w.WriteU8(m.teamType);
    w.WriteBool(m.freemod);
    assert w.buffer == old(w.buffer) + PutSettings(m);
    if m.freemod { WriteMods(w, m.slots); }
    w.WriteU32(m.seed);
    assert w.buffer == old(w.buffer) + PutTail(m);
  }

  method BuildMatchPacket(packetId: u16, m: Match, sendPassword: bool) returns (packet: bytes)
    ensures packet == Framed(packetId, MatchBytes(m, sendPassword))
  {
    hide PutHead; hide PutMap; hide PutSlots; hide PutTail; hide Framed;
    var w := new PacketWriter();
    WriteHead(w, m, if sendPassword then m.password.GetOr([]) else if m.password.Some? then SPACE else []);
    WriteMap(w, m);
    WriteSlots(w, m.slots);
    WriteTail(w, m);
    assert w.buffer == MatchBytes(m, sendPassword);
    packet := BuildPacket(packetId, w.buffer);
  }

  method ReadHead(rd: PacketReader) returns (r: Result<Match, WireError>)
    requires rd.Valid()
    modifies rd
    ensures rd.Valid() && Agrees(r, GetHead(old(rd.Left()), rd.memory), rd.Left())
  {
    hide GetU16; hide GetBool; hide GetU8; hide GetU32; hide GetString; hide NewMatch;
    var id :- rd.ReadU16();
    var inProgress :- rd.ReadBool();
    var matchType :- rd.ReadU8();
    var activeMods :- rd.ReadU32();
    var name :- rd.ReadOsuString();
    var password :- rd.ReadOsuString();
    return Ok(NewMatch().(id := id, inProgress := inProgress, matchType := matchType, activeMods := activeMods,
      name := name, password := if password == [] then None else Some(password)));
  }

  method ReadMap(rd: PacketReader, m: Match) returns (r: Result<Match, WireError>)
    requires rd.Valid()
    modifies rd
    ensures rd.Valid() && Agrees(r, GetMap(m, old(rd.Left()), rd.memory), rd.Left())
  {
    hide GetI32; hide GetString;
    var beatmapName :- rd.ReadOsuString();
    var beatmapId :- rd.ReadI32();
    var beatmapMd5 :- rd.ReadOsuString();
    return Ok(m.(beatmapName := beatmapName, beatmapId := beatmapId, beatmapMd5 := beatmapMd5));
  }

  method ReadStatuses(rd: PacketReader, before: Slots) returns (r: Result<Slots, WireError>)
    requires rd.Valid()
    modifies rd
    ensures rd.Valid() && Agrees(r, GetStatuses(before, 0, old(rd.Left())), rd.Left())
  {
    hide GetU8;
    var slots, i := before, 0;
    while i < 16
      invariant i <= 16 && rd.Valid()
      invariant GetStatuses(before, 0, old(rd.Left())) == GetStatuses(slots, i, rd.Left())
    {
      var x :- rd.ReadU8();
      slots := slots[i := slots[i].(status := x)];
      i := i + 1;
    }
    return Ok(slots);
  }

  method ReadTeams(rd: PacketReader, before: Slots) returns (r: Result<Slots, WireError>)
    requires rd.Valid()
    modifies rd
    ensures rd.Valid() && Agrees(r, GetTeams(before, 0, old(rd.Left())), rd.Left())
  {
    hide GetU8;
    var slots, i := before, 0;
    while i < 16
      invariant i <= 16 && rd.Valid()
      invariant GetTeams(before, 0, old(rd.Left())) == GetTeams(slots, i, rd.Left())
    {
      var x :- rd.ReadU8();
      slots := slots[i := slots[i].(team := x)];
      i := i + 1;
    }
    return Ok(slots);
  }

  method ReadUsers(rd: PacketReader, before: Slots) returns (r: Result<Slots, WireError>)
    requires rd.Valid()
    modifies rd
    ensures rd.Valid() && Agrees(r, GetUsers(before, 0, old(rd.Left())), rd.Left())
  {
    hide GetI32;
    var slots, i := before, 0;
    while i < 16
      invariant i <= 16 && rd.Valid()
      invariant GetUsers(before, 0, old(rd.Left())) == GetUsers(slots, i, rd.Left())
    {
      if HasPlayer(slots[i].status) {
        var x :- rd.ReadI32();
        slots := slots[i := slots[i].(user := x)];
      } else {
        slots := slots[i := slots[i].(user := -1)];
      }
      i := i + 1;
    }
    return Ok(slots);
  }

  method ReadMods(rd: PacketReader, before: Slots) returns (r: Result<Slots, WireError>)
    requires rd.Valid()
    modifies rd
    ensures rd.Valid() && Agrees(r, GetMods(before, 0, old(rd.Left())), rd.Left())
  {
    hide GetU32;
    var slots, i := before, 0;
    while i < 16
      invariant i <= 16 && rd.Valid()
      invariant GetMods(before, 0, old(rd.Left())) == GetMods(slots, i, rd.Left())
    {
      var x :- rd.ReadU32();
      slots := slots[i := slots[i].(mods := x)];
      i := i + 1;
    }
    return Ok(slots);
  }

  method ReadSlots(rd: PacketReader, before: Slots) returns (r: Result<Slots, WireError>)
    requires rd.Valid()
    modifies rd
    ensures rd.Valid() && Agrees(r, GetSlots(before, old(rd.Left())), rd.Left())
  {
    hide GetStatuses; hide GetTeams; hide GetUsers;
    var slots :- ReadStatuses(rd, before);
    slots :- ReadTeams(rd, slots);
    slots :- ReadUsers(rd, slots);
    return Ok(slots);
  }

  method ReadSettings(rd: PacketReader, m: Match) returns (r: Result<Match, WireError>)
    requires rd.Valid()
    modifies rd
    ensures rd.Valid() && Agrees(r, GetSettings(m, old(rd.Left())), rd.Left())
  {
    hide GetI32; hide GetU8; hide GetBool;
    var host :- rd.ReadI32();
    var playMode :- rd.ReadU8();
    var scoringType :- rd.ReadU8();
    var teamType :- rd.ReadU8();
    var freemod :- rd.ReadBool();
    return Ok(m.(host := host, playMode := playMode, scoringType := scoringType, teamType := teamType,
      freemod := freemod));
  }

  method ReadSeed(rd: PacketReader) returns (r: Result<u32, WireError>)
    requires rd.Valid()
    modifies rd
    ensures rd.Valid() && Agrees(r, GetSeed(old(rd.Left())), rd.Left())
  {
    hide GetU32;
    var n := rd.Remaining();
    if n < 4 { return Ok(0); }
    r := rd.ReadU32();
  }

  method ReadTail(rd: PacketReader, before: Match) returns (r: Result<Match, WireError>)
    requires rd.Valid()
    modifies rd
    ensures rd.Valid() && Agrees(r, GetTail(before, old(rd.Left())), rd.Left())
  {
    hide GetSettings; hide GetMods; hide GetSeed;
    var m :- ReadSettings(rd, before);
    var slots := m.slots;
    if m.freemod { slots :- ReadMods(rd, slots); }
    var seed :- ReadSeed(rd);
    return Ok(m.(slots := slots, seed := seed));
  }

  method ParseMatch(rd: PacketReader) returns (r: Result<Match, WireError>)
    requires rd.Valid()
    modifies rd
    ensures rd.Valid() && Agrees(r, GetMatch(old(rd.Left()), rd.memory), rd.Left())
  {
    hide GetHead; hide GetMap; hide GetSlots; hide GetTail;
    var m :- ReadHead(rd);
    m :- ReadMap(rd, m);
    var slots :- ReadSlots(rd, m.slots);
    r := ReadTail(rd, m.(slots := slots));
  }

  // ---------- score frames ----------

  method WriteHits(w: PacketWriter, f: Frame)
    modifies w
    ensures w.buffer == old(w.buffer) + PutHits(f)
  {
    hide PutU16;
    w.WriteU16(f.total300);
    w.WriteU16(f.total100);
    w.WriteU16(f.total50);
    w.WriteU16(f.totalGeki);
    w.WriteU16(f.totalKatu);
    w.WriteU16(f.totalMiss);
    assert w.buffer == old(w.buffer) + PutHits(f);
  }

  method WriteState(w: PacketWriter, f: Frame)
    modifies w
    ensures w.buffer == old(w.buffer) + PutState(f)
  {
    hide PutU16; hide PutI32; hide PutBool;
    w.WriteI32(f.totalScore);
    w.WriteU16(f.maxCombo);
    w.WriteU16(f.currentCombo);
    w.WriteBool(f.perfect);
    w.WriteU8(f.hp);
    w.WriteU8(f.tag);
    w.WriteBool(f.scoreV2);
    assert w.buffer == old(w.buffer) + PutState(f);
  }

  method BuildScoreUpdate(f: Frame) returns (packet: bytes)
    ensures packet == Framed(CHO_MATCH_SCORE_UPDATE, FrameBytes(f))
  {
    hide PutHits; hide PutState; hide PutI32; hide Framed;
    var w := new PacketWriter();
    w.WriteI32(f.time);
    w.WriteU8(f.slotId);
    WriteHits(w, f);
    WriteState(w, f);
    if f.scoreV2 {
      w.WriteBytes(f.comboPortion);
      w.WriteBytes(f.bonusPortion);
    }
    assert w.buffer == FrameBytes(f);
    packet := BuildPacket(CHO_MATCH_SCORE_UPDATE, w.buffer);
  }

  method ReadHits(rd: PacketReader, f: Frame) returns (r: Result<Frame, WireError>)
    requires rd.Valid()
    modifies rd
    ensures rd.Valid() && Agrees(r, GetHits(f, old(rd.Left())), rd.Left())
  {
    hide GetU16;
    var total300 :- rd.ReadU16();
    var total100 :- rd.ReadU16();
    var total50 :- rd.ReadU16();
    var totalGeki :- rd.ReadU16();
    var totalKatu :- rd.ReadU16();
    var totalMiss :- rd.ReadU16();
    return Ok(f.(total300 := total300, total100 := total100, total50 := total50, totalGeki := totalGeki,
                 totalKatu := totalKatu, totalMiss := totalMiss));
  }

  method ReadState(rd: PacketReader, f: Frame) returns (r: Result<Frame, WireError>)
    requires rd.Valid()
    modifies rd
    ensures rd.Valid() && Agrees(r, GetState(f, old(rd.Left())), rd.Left())
  {
    hide GetU16; hide GetI32; hide GetU8; hide GetBool;
    var totalScore :- rd.ReadI32();
    var maxCombo :- rd.ReadU16();
    var currentCombo :- rd.ReadU16();
    var perfect :- rd.ReadBool();
    var hp :- rd.ReadU8();
    var tag :- rd.ReadU8();
    var scoreV2 :- rd.ReadBool();
    return Ok(f.(totalScore := totalScore, maxCombo := maxCombo, currentCombo := currentCombo, perfect := perfect,
                 hp := hp, tag := tag, scoreV2 := scoreV2));
  }

  method ReadPortions(rd: PacketReader, f: Frame) returns (r: Result<Frame, WireError>)
    requires rd.Valid()
    modifies rd
    ensures rd.Valid() && Agrees(r, GetPortions(f, old(rd.Left())), rd.Left())
  {
    hide GetF64;
    var n := rd.Remaining();
    var combo, bonus := ZERO_F64, ZERO_F64;
    if f.scoreV2 && n >= 16 {
      combo :- rd.ReadF64();
      bonus :- rd.ReadF64();
    }
    return Ok(f.(comboPortion := combo, bonusPortion := bonus));
  }

  method ParseScoreFrame(rd: PacketReader) returns (r: Result<Frame, WireError>)
    requires rd.Valid()
    modifies rd
    ensures rd.Valid() && Agrees(r, GetFrame(old(rd.Left())), rd.Left())
  {
    hide GetHits; hide GetState; hide GetPortions; hide GetI32; hide GetU8;
    var time :- rd.ReadI32();
    var slotId :- rd.ReadU8();
    var f :- ReadHits(rd, NO_FRAME.(time := time, slotId := slotId));
    f :- ReadState(rd, f);
    r := ReadPortions(rd, f);
  }

  // build_relayed_match_score_update: byte 4 is replaced, every other byte is kept.
  method BuildRelayedScoreUpdate(payload: bytes, slotId: u8) returns (r: Result<bytes, WireError>)
    ensures r == if |payload| <= 4 then Err(UnexpectedEof) else Ok(Framed(CHO_MATCH_SCORE_UPDATE, payload[4 := slotId]))
  {
    if |payload| <= 4 { return Err(UnexpectedEof); }
    var relayed := payload[4 := slotId];
    var packet := BuildPacket(CHO_MATCH_SCORE_UPDATE, relayed);
    return Ok(packet);
  }
}
