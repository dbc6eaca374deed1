/** The other end of the wire: what a client sends for each thing it wants done, and what it makes of each
    packet it gets. The server understands the one and the client the other. */
module ClientSide {
  import opened BanchoTypes
  import opened Uleb128
  import opened Wire
  import opened Packets
  import opened Rounds
  import opened Network
  import opened Server
  import opened Framing
  import opened Orders

  // The packet numbers of src/protocol/constants.rs.
  const OSU_LOGOUT: u16 := 2
  const OSU_START_SPECTATING: u16 := 16
  const OSU_STOP_SPECTATING: u16 := 17
  const OSU_SPECTATE_FRAMES: u16 := 18
  const OSU_CANT_SPECTATE: u16 := 21
  const OSU_LOBBY_PART: u16 := 29
  const OSU_LOBBY_JOIN: u16 := 30
  const OSU_MATCH_CREATE: u16 := 31
  const OSU_MATCH_JOIN: u16 := 32
  const OSU_MATCH_PART: u16 := 33
  const OSU_MATCH_CHANGE_SLOT: u16 := 38
  const OSU_MATCH_READY: u16 := 39
  const OSU_MATCH_LOCK: u16 := 40
  const OSU_MATCH_CHANGE_SETTINGS: u16 := 41
  const OSU_MATCH_START: u16 := 44
  const OSU_MATCH_SCORE_UPDATE: u16 := 47
  const OSU_MATCH_COMPLETE: u16 := 49
  const OSU_MATCH_CHANGE_MODS: u16 := 51
  const OSU_MATCH_LOAD_COMPLETE: u16 := 52
  const OSU_MATCH_NO_BEATMAP: u16 := 54
  const OSU_MATCH_NOT_READY: u16 := 55
  const OSU_MATCH_FAILED: u16 := 56
  const OSU_MATCH_HAS_BEATMAP: u16 := 59
  const OSU_MATCH_SKIP_REQUEST: u16 := 60
  const OSU_CHANNEL_JOIN: u16 := 63
  const OSU_MATCH_CHANGE_HOST: u16 := 70
  const OSU_MATCH_CHANGE_TEAM: u16 := 77
  const OSU_CHANNEL_PART: u16 := 78

  const CHO_SEND_MESSAGE: u16 := 7
  const CHO_HANDLE_USER_QUIT: u16 := 12
  const CHO_SPECTATOR_JOINED: u16 := 13
  const CHO_SPECTATOR_LEFT: u16 := 14
  const CHO_SPECTATE_FRAMES: u16 := 15
  const CHO_SPECTATOR_CANT_SPECTATE: u16 := 22
  const CHO_MATCH_UPDATE: u16 := 26
  const CHO_MATCH_NEW: u16 := 27
  const CHO_MATCH_DISBAND: u16 := 28
  const CHO_MATCH_JOIN_SUCCESS: u16 := 36
  const CHO_MATCH_JOIN_FAIL: u16 := 37
  const CHO_FELLOW_SPECTATOR_JOINED: u16 := 42
  const CHO_FELLOW_SPECTATOR_LEFT: u16 := 43
  const CHO_MATCH_START: u16 := 46
  const CHO_MATCH_TRANSFER_HOST: u16 := 50
  const CHO_MATCH_ALL_PLAYERS_LOADED: u16 := 53
  const CHO_MATCH_PLAYER_FAILED: u16 := 57
  const CHO_MATCH_COMPLETE: u16 := 58
  const CHO_CHANNEL_JOIN_SUCCESS: u16 := 64
  const CHO_MATCH_PLAYER_SKIPPED: u16 := 81
  const CHO_CHANNEL_PART: u16 := 90

  // ---------- what a client sends ----------

  // The packet a client sends to have this done.
  function Asked(arm: Arm): RawPacket {
    match arm
    case LobbyJoin => RawPacket(OSU_LOBBY_JOIN, [])
    case LobbyPart => RawPacket(OSU_LOBBY_PART, [])
    case CreateRoom(m) => RawPacket(OSU_MATCH_CREATE, MatchBytes(m, true))
    case JoinRoom(id, password) => RawPacket(OSU_MATCH_JOIN, PutI32(id) + PutString(password))
    case PartRoom => RawPacket(OSU_MATCH_PART, [])
    case ChangeSlot(target) => RawPacket(OSU_MATCH_CHANGE_SLOT, PutI32(target))
    case SetReady => RawPacket(OSU_MATCH_READY, [])
    case SetNotReady => RawPacket(OSU_MATCH_NOT_READY, [])
    case NoBeatmap => RawPacket(OSU_MATCH_NO_BEATMAP, [])
    case HasBeatmap => RawPacket(OSU_MATCH_HAS_BEATMAP, [])
    case Lock(target) => RawPacket(OSU_MATCH_LOCK, PutI32(target))
    case ChangeSettings(m) => RawPacket(OSU_MATCH_CHANGE_SETTINGS, MatchBytes(m, true))
    case ChangeMods(mods) => RawPacket(OSU_MATCH_CHANGE_MODS, PutU32(mods))
    case ChangeTeam => RawPacket(OSU_MATCH_CHANGE_TEAM, [])
    case ChangeHost(target) => RawPacket(OSU_MATCH_CHANGE_HOST, PutI32(target))
    case StartRound(_) => RawPacket(OSU_MATCH_START, [])
    case LoadComplete => RawPacket(OSU_MATCH_LOAD_COMPLETE, [])
    case ScoreUpdate(payload, _) => RawPacket(OSU_MATCH_SCORE_UPDATE, payload)
    case Failed => RawPacket(OSU_MATCH_FAILED, [])
    case SkipRequest => RawPacket(OSU_MATCH_SKIP_REQUEST, [])
    case CompleteRound => RawPacket(OSU_MATCH_COMPLETE, [])
    case StartSpectating(host) => RawPacket(OSU_START_SPECTATING, PutI32(host))
    case StopSpectating => RawPacket(OSU_STOP_SPECTATING, [])
    case SpectateFrames(raw) => RawPacket(OSU_SPECTATE_FRAMES, raw)
    case CantSpectate => RawPacket(OSU_CANT_SPECTATE, [])
    case JoinChannel(c) => RawPacket(OSU_CHANNEL_JOIN, PutString(c))
    case PartChannel(c) => RawPacket(OSU_CHANNEL_PART, PutString(c))
  }

  // What can be sent: texts of which there is room, and a score payload that is that of a frame.
  predicate Sendable(arm: Arm, memory: nat) {
    match arm
    case CreateRoom(m) => Texts(m, memory)
    case ChangeSettings(m) => Texts(m, memory)
    case JoinRoom(_, password) => TextWithin(password, memory)
    case JoinChannel(c) => TextWithin(c, memory)
    case PartChannel(c) => TextWithin(c, memory)
    case ScoreUpdate(payload, frame) => GetFrame(payload).Read? && GetFrame(payload).value == frame
    case _ => true
  }

  // What the server makes of it: rooms in normal form, and the time at which a START arrives.
  function Arrived(arm: Arm, now: int): Arm {
    match arm
    case CreateRoom(m) => CreateRoom(Normal(m))
    case ChangeSettings(m) => Arm.ChangeSettings(Normal(m))
    case StartRound(_) => StartRound(now)
    case _ => arm
  }

  lemma RoomsArrive(m: Match, memory: nat, now: int)
    requires Texts(m, memory)
    ensures OrderOf(Asked(CreateRoom(m)), memory, now) == Play(CreateRoom(Normal(m)))
    ensures OrderOf(Asked(Arm.ChangeSettings(m)), memory, now) == Play(Arm.ChangeSettings(Normal(m)))
  {
    hide GetMatch; hide MatchBytes; hide Texts; hide Normal;
    SentMatchParses(m, [], memory);
    assert MatchBytes(m, true) + [] == MatchBytes(m, true);
  }

  lemma NumberArrives(x: i32)
    ensures GetI32(PutI32(x)) == Read(x, [])
  {
    hide PutI32; hide GetI32;
    I32RoundTrip(x, []);
    assert PutI32(x) + [] == PutI32(x);
  }

  lemma TextArrives(s: bytes, memory: nat)
    requires TextWithin(s, memory)
    ensures GetString(PutString(s), memory) == Read(s, [])
  {
    hide PutString; hide GetString; hide TextWithin;
    StringRoundTrip(s, [], memory);
    assert PutString(s) + [] == PutString(s);
  }

  lemma ModsArrive(x: u32)
    ensures GetU32(PutU32(x)) == Read(x, [])
  {
    hide GetU32;
    U32RoundTrip(x, []);
    assert PutU32(x) + [] == PutU32(x);
  }

  lemma NumbersArrive(arm: Arm, memory: nat, now: int)
    requires arm.ChangeSlot? || arm.Lock? || arm.ChangeHost? || arm.StartSpectating? || arm.ChangeMods?
    ensures OrderOf(Asked(arm), memory, now) == Play(arm)
  {
    hide PutI32; hide GetI32; hide GetU32; hide GetString; hide GetMatch; hide GetFrame;
    match arm
    case ChangeSlot(x) => NumberArrives(x);
    case Lock(x) => NumberArrives(x);
    case ChangeHost(x) => NumberArrives(x);
    case StartSpectating(x) => NumberArrives(x);
    case ChangeMods(x) => ModsArrive(x);
  }

  lemma TextsArrive(arm: Arm, memory: nat, now: int)
    requires Sendable(arm, memory) && (arm.JoinRoom? || arm.JoinChannel? || arm.PartChannel?)
    ensures OrderOf(Asked(arm), memory, now) == Play(arm)
  {
    hide PutI32; hide GetI32; hide GetU32; hide GetString; hide PutString; hide GetMatch; hide GetFrame;
    hide TextWithin;
    match arm
    case JoinRoom(id, password) =>
      I32RoundTrip(id, PutString(password));
      TextArrives(password, memory);
    case JoinChannel(c) => TextArrives(c, memory);
    case PartChannel(c) => TextArrives(c, memory);
  }

  // The server does what a client asks for: each packet is understood as the one thing it was sent for, and
  // only LOGOUT as a logout.
  lemma AskedIsUnderstood(arm: Arm, memory: nat, now: int)
    requires Sendable(arm, memory)
    ensures OrderOf(Asked(arm), memory, now) == Play(Arrived(arm, now))
    ensures OrderOf(RawPacket(OSU_LOGOUT, []), memory, now) == Logout
  {
    hide PutI32; hide GetI32; hide GetU32; hide GetString; hide PutString; hide GetMatch; hide GetFrame;
    hide MatchBytes; hide Normal; hide TextWithin; hide Texts;
    if arm.CreateRoom? || arm.ChangeSettings? { RoomsArrive(arm.asked, memory, now); }
    else if arm.ChangeSlot? || arm.Lock? || arm.ChangeHost? || arm.StartSpectating? || arm.ChangeMods? {
      NumbersArrive(arm, memory, now);
    } else if arm.JoinRoom? || arm.JoinChannel? || arm.PartChannel? { TextsArrive(arm, memory, now); }
  }

  lemma OthersAreNoScores(p: RawPacket, memory: nat, now: int)
    requires p.id != OSU_MATCH_SCORE_UPDATE
    ensures var order := OrderOf(p, memory, now); order.Play? ==> !order.arm.ScoreUpdate?
  {
    hide GetI32; hide GetU32; hide GetString; hide GetMatch; hide GetFrame; hide TextsOrder; hide TextsLengths;
    hide Declared; hide AllAtMost; hide AfterByte;
    if p.id in {0, 1, 25} {
      TextsHaltIff(AfterByte(p.payload), 2, memory);
      TextsHaltIff(p.payload, 3, memory);
    }
  }

  // Only a payload that is a frame is taken for a score, and with the frame that it is.
  lemma ScoresAreFrames(p: RawPacket, memory: nat, now: int)
    ensures var order := OrderOf(p, memory, now);
      order.Play? && order.arm.ScoreUpdate? <==> p.id == OSU_MATCH_SCORE_UPDATE && GetFrame(p.payload).Read?
    ensures var order := OrderOf(p, memory, now);
      order.Play? && order.arm.ScoreUpdate? ==> Read(order.arm.frame, GetFrame(p.payload).rest) == GetFrame(p.payload)
    ensures var order := OrderOf(p, memory, now);
      order.Play? && order.arm.ScoreUpdate? ==> order.arm.payload == p.payload
  {
    hide GetFrame;
    if p.id != OSU_MATCH_SCORE_UPDATE {
      hide OrderOf;
      OthersAreNoScores(p, memory, now);
    }
  }

  function AskedAll(arms: seq<Arm>): seq<RawPacket> {
    if arms == [] then [] else [Asked(arms[0])] + AskedAll(arms[1..])
  }

  function ArrivedAll(arms: seq<Arm>, user: i32, now: int): seq<Action> {
    if arms == [] then [] else [From(user, Arrived(arms[0], now))] + ArrivedAll(arms[1..], user, now)
  }

  // A request in which a client asks for several things, and perhaps logs out behind them: all are carried
  // out in that order, nothing else is, and nothing behind a logout.
  lemma {:induction false} RequestIsUnderstood(arms: seq<Arm>, leaves: bool, rest: bytes, memory: nat, user: i32,
    now: int)
    requires forall a :: a in arms ==> Sendable(a, memory) && Sized(Asked(a)) && |Asked(a).payload| <= memory
    requires !leaves ==> rest == []
    ensures var quit := if leaves then FramedPacket(RawPacket(OSU_LOGOUT, [])) + rest else [];
      CourseOf(Stream(AskedAll(arms)) + quit, memory, user, now) ==
        Course(ArrivedAll(arms, user, now) + if leaves then [Action.Disconnect(user, 0)] else [], true)
  {
    hide Receive; hide OrderOf; hide Asked; hide Sendable; hide Arrived; hide NextPacket; hide FramedPacket;
    var quit := if leaves then FramedPacket(RawPacket(OSU_LOGOUT, [])) + rest else [];
    if arms == [] {
      assert [] + quit == quit;
      if leaves {
        PacketArrives(RawPacket(OSU_LOGOUT, []), rest, memory);
        LogoutIs(RawPacket(OSU_LOGOUT, []), memory, now);
      } else {
        EndsHere(memory);
      }
    } else {
      var body := Stream(AskedAll(arms[1..])) + quit;
      assert arms[0] in arms && forall a :: a in arms[1..] ==> a in arms;
      RequestIsUnderstood(arms[1..], leaves, rest, memory, user, now);
      PacketArrives(Asked(arms[0]), body, memory);
      AskedIsUnderstood(arms[0], memory, now);
      assert AskedAll(arms)[1..] == AskedAll(arms[1..]);
      assert Stream(AskedAll(arms)) + quit == FramedPacket(Asked(arms[0])) + body;
      CourseTurn(FramedPacket(Asked(arms[0])) + body, [], memory, user, now);
      NoneBefore(CourseOf(FramedPacket(Asked(arms[0])) + body, memory, user, now));
    }
  }

  lemma EndsHere(memory: nat)
    ensures Receive([], memory) == Fail(UnexpectedEof)
  {
  }

  lemma PacketArrives(p: RawPacket, r: bytes, memory: nat)
    requires Sized(p) && |p.payload| <= memory
    ensures Receive(FramedPacket(p) + r, memory) == Read(p, r)
  {
    hide GetHeader; hide Framed;
    HeaderRoundTrip(p.id, p.payload, r);
    BytesRoundTrip(p.payload, r);
  }

  // ---------- what a client gets ----------

  datatype News = Told(p: Packet) | Chat(sender: bytes, content: bytes, target: bytes, id: i32) | Unknown

  function NewsOfRoom(payload: bytes, memory: nat, f: Match -> Packet): News {
    match GetMatch(payload, memory)
    case Read(m, _) => Told(f(m))
    case Fail(_) => Unknown
  }

  function NewsOfNumber(payload: bytes, f: i32 -> News): News {
    match GetI32(payload)
    case Read(x, _) => f(x)
    case Fail(_) => Unknown
  }

  function NewsOfText(payload: bytes, memory: nat, f: bytes -> Packet): News {
    match GetString(payload, memory)
    case Read(x, _) => Told(f(x))
    case Fail(_) => Unknown
  }

  function NewsOfQuit(payload: bytes): News {
    match GetI32(payload)
    case Read(user, rest) => if |rest| == 1 then Told(Packet.UserQuit(user, rest[0])) else Unknown
    case Fail(_) => Unknown
  }

  function NewsOfChat(payload: bytes, memory: nat): Parse<News> {
    var (sender, s) :- GetString(payload, memory);
    var (content, s) :- GetString(s, memory);
    var (target, s) :- GetString(s, memory);
    var (id, s) :- GetI32(s);
    Read(Chat(sender, content, target, id), s)
  }

  // What a client makes of a packet.
  function NewsOf(r: RawPacket, memory: nat): News {
    var raw := r.payload;
    if r.id == CHO_MATCH_UPDATE then NewsOfRoom(raw, memory, m => Packet.MatchUpdate(m))
    else if r.id == CHO_MATCH_NEW then NewsOfRoom(raw, memory, m => Packet.MatchNew(m))
    else if r.id == CHO_MATCH_JOIN_SUCCESS then NewsOfRoom(raw, memory, m => Packet.MatchJoinSuccess(m))
    else if r.id == CHO_MATCH_START then NewsOfRoom(raw, memory, m => Packet.MatchStart(m))
    else if r.id == CHO_MATCH_JOIN_FAIL then Told(Packet.MatchJoinFail)
    else if r.id == CHO_MATCH_DISBAND then
      NewsOfNumber(raw, (x: i32) => if 0 <= x < 65536 then Told(Packet.MatchDisband(x)) else Unknown)
    else if r.id == CHO_MATCH_SCORE_UPDATE then Told(Packet.MatchScoreUpdate(raw))
    else if r.id == CHO_MATCH_TRANSFER_HOST then Told(Packet.MatchTransferHost)
    else if r.id == CHO_MATCH_ALL_PLAYERS_LOADED then Told(Packet.MatchAllPlayersLoaded)
    else if r.id == CHO_MATCH_PLAYER_FAILED then
      NewsOfNumber(raw, (x: i32) => if x >= 0 then Told(Packet.MatchPlayerFailed(x)) else Unknown)
    else if r.id == CHO_MATCH_PLAYER_SKIPPED then
      NewsOfNumber(raw, (x: i32) => if x >= 0 then Told(Packet.MatchPlayerSkipped(x)) else Unknown)
    else if r.id == CHO_MATCH_COMPLETE then Told(Packet.MatchComplete)
    else if r.id == CHO_SPECTATOR_JOINED then
      NewsOfNumber(raw, (x: i32) => Told(Packet.SpectatorJoined(x)))
    else if r.id == CHO_SPECTATOR_LEFT then
      NewsOfNumber(raw, (x: i32) => Told(Packet.SpectatorLeft(x)))
    else if r.id == CHO_FELLOW_SPECTATOR_JOINED then
      NewsOfNumber(raw, (x: i32) => Told(Packet.FellowSpectatorJoined(x)))
    else if r.id == CHO_FELLOW_SPECTATOR_LEFT then
      NewsOfNumber(raw, (x: i32) => Told(Packet.FellowSpectatorLeft(x)))
    else if r.id == CHO_SPECTATOR_CANT_SPECTATE then
      NewsOfNumber(raw, (x: i32) => Told(Packet.SpectatorCantSpectate(x)))
    else if r.id == CHO_SPECTATE_FRAMES then Told(Packet.SpectateFrames(raw))
    else if r.id == CHO_CHANNEL_JOIN_SUCCESS then NewsOfText(raw, memory, c => Packet.ChannelJoinSuccess(c))
    else if r.id == CHO_CHANNEL_PART then NewsOfText(raw, memory, c => Packet.ChannelPart(c))
    else if r.id == CHO_HANDLE_USER_QUIT then NewsOfQuit(raw)
    else if r.id == CHO_SEND_MESSAGE then (match NewsOfChat(raw, memory) case Read(n, _) => n case Fail(_) => Unknown)
    else Unknown
  }

  // What a packet tells: a room without its password but for the newcomer, in normal form, and a result in
  // words.
  function Meaning(p: Packet, bot: Bot): News {
    match p
    case MatchUpdate(m) => Told(Packet.MatchUpdate(Normal(Hidden(m))))
    case MatchNew(m) => Told(Packet.MatchNew(Normal(Hidden(m))))
    case MatchStart(m) => Told(Packet.MatchStart(Normal(Hidden(m))))
    case MatchJoinSuccess(m) => Told(Packet.MatchJoinSuccess(Normal(m)))
    case RoundConcluded(o) => Chat(bot.name, Announcement(o), MULTIPLAYER, bot.id)
    case _ => Told(p)
  }

  predicate IsI32(x: int) {
    -0x8000_0000 <= x < 0x8000_0000
  }

  // What the server sends: texts of which there is room, and numbers of 32 bits.
  predicate Receivable(p: Packet, bot: Bot, memory: nat) {
    match p
    case MatchUpdate(m) => Texts(m, memory) && memory >= 1
    case MatchNew(m) => Texts(m, memory) && memory >= 1
    case MatchStart(m) => Texts(m, memory) && memory >= 1
    case MatchJoinSuccess(m) => Texts(m, memory)
    case MatchPlayerFailed(slot) => IsI32(slot)
    case MatchPlayerSkipped(slot) => IsI32(slot)
    case SpectatorJoined(user) => IsI32(user)
    case SpectatorLeft(user) => IsI32(user)
    case FellowSpectatorJoined(user) => IsI32(user)
    case FellowSpectatorLeft(user) => IsI32(user)
    case SpectatorCantSpectate(user) => IsI32(user)
    case UserQuit(user, _) => IsI32(user)
    case ChannelJoinSuccess(c) => TextWithin(c, memory)
    case ChannelPart(c) => TextWithin(c, memory)
    case RoundConcluded(o) =>
      TextWithin(bot.name, memory) && TextWithin(Announcement(o), memory) && TextWithin(MULTIPLAYER, memory)
    case Other(_, _) => false
    case _ => true
  }

  predicate ShowsRoom(p: Packet) {
    p.MatchUpdate? || p.MatchNew? || p.MatchStart? || p.MatchJoinSuccess?
  }

  lemma RoomNews(p: Packet, bot: Bot, memory: nat)
    requires Receivable(p, bot, memory) && ShowsRoom(p)
    ensures NewsOf(Raw(p, bot), memory) == Meaning(p, bot)
  {
    hide GetMatch; hide MatchBytes; hide Texts; hide Normal; hide GetString; hide GetI32; hide Hidden;
    if p.MatchJoinSuccess? {
      SentMatchParses(p.room, [], memory);
      assert MatchBytes(p.room, true) + [] == MatchBytes(p.room, true);
    } else {
      HiddenMatchParses(p.room, [], memory);
      assert MatchBytes(p.room, false) + [] == MatchBytes(p.room, false);
    }
  }

  predicate TellsNumber(p: Packet) {
    || p.MatchPlayerFailed? || p.MatchPlayerSkipped? || p.SpectatorJoined? || p.SpectatorLeft? || p.MatchDisband?
    || p.FellowSpectatorJoined? || p.FellowSpectatorLeft? || p.SpectatorCantSpectate?
  }

  function NumberIn(p: Packet): int
    requires TellsNumber(p)
  {
    match p
    case MatchPlayerFailed(slot) => slot
    case MatchPlayerSkipped(slot) => slot
    case SpectatorJoined(user) => user
    case SpectatorLeft(user) => user
    case FellowSpectatorJoined(user) => user
    case FellowSpectatorLeft(user) => user
    case SpectatorCantSpectate(user) => user
    case MatchDisband(id) => id
  }

  lemma NumberNews(p: Packet, bot: Bot, memory: nat)
    requires Receivable(p, bot, memory) && TellsNumber(p)
    ensures NewsOf(Raw(p, bot), memory) == Meaning(p, bot)
  {
    hide GetMatch; hide MatchBytes; hide GetString; hide GetI32; hide PutI32;
    NumberArrives(NumberIn(p));
  }

  lemma ChatNews(o: Outcome, bot: Bot, memory: nat)
    requires Receivable(Packet.RoundConcluded(o), bot, memory)
    ensures NewsOf(Raw(Packet.RoundConcluded(o), bot), memory) == Meaning(Packet.RoundConcluded(o), bot)
  {
    hide GetMatch; hide GetString; hide PutString; hide GetI32; hide PutI32; hide Announcement; hide TextWithin;
    var r3 := PutI32(bot.id);
    var r2 := PutString(MULTIPLAYER) + r3;
    var r1 := PutString(Announcement(o)) + r2;
    Regroup4(PutString(bot.name), PutString(Announcement(o)), PutString(MULTIPLAYER), r3);
    StringRoundTrip(bot.name, r1, memory);
    StringRoundTrip(Announcement(o), r2, memory);
    StringRoundTrip(MULTIPLAYER, r3, memory);
    NumberArrives(bot.id);
  }

  lemma QuitNews(user: i32, how: u8, bot: Bot, memory: nat)
    ensures NewsOf(Raw(Packet.UserQuit(user, how), bot), memory) == Told(Packet.UserQuit(user, how))
  {
    hide GetMatch; hide GetString; hide GetI32; hide PutI32;
    I32RoundTrip(user, [how]);
  }

  // A client understands every packet the modelled arms send as what it means, and so as no other.
  lemma SentIsUnderstood(p: Packet, bot: Bot, memory: nat)
    requires Receivable(p, bot, memory)
    ensures NewsOf(Raw(p, bot), memory) == Meaning(p, bot)
  {
    hide GetMatch; hide MatchBytes; hide GetString; hide PutString; hide GetI32; hide PutI32; hide Texts;
    hide TextWithin; hide Announcement; hide ChatMessage; hide Meaning;
    if ShowsRoom(p) { RoomNews(p, bot, memory); }
    else if TellsNumber(p) { NumberNews(p, bot, memory); }
    else if p.RoundConcluded? { ChatNews(p.outcome, bot, memory); MeaningOfChat(p.outcome, bot); }
    else if p.UserQuit? { QuitNews(p.user, p.how, bot, memory); PlainMeaning(p, bot); }
    else {
      PlainMeaning(p, bot);
      if p.ChannelJoinSuccess? || p.ChannelPart? { TextArrives(p.channel, memory); }
    }
  }

  lemma MeaningOfChat(o: Outcome, bot: Bot)
    ensures Meaning(Packet.RoundConcluded(o), bot) == Chat(bot.name, Announcement(o), MULTIPLAYER, bot.id)
  {
    hide Announcement;
  }

  lemma PlainMeaning(p: Packet, bot: Bot)
    requires !ShowsRoom(p) && !p.RoundConcluded?
    ensures Meaning(p, bot) == Told(p)
  {
    hide Announcement;
  }
}
