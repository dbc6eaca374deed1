/** What a polling client receives: in every state a server can reach, the byte queue of every session
    decodes to exactly the packets queued for it. This needs every payload to fit the 32-bit length
    field, which the limit on request bodies provides. */
module Delivery {
  import opened Wrappers
  import opened BanchoTypes
  import opened Uleb128
  import opened Wire
  import opened Packets
  import opened Framing
  import opened Rooms
  import opened Rounds
  import opened Spectating
  import opened Network
  import opened Server
  import opened Runs

  // More than any request body: packets arrive through a router that sets no limit of its own
  // (src/server/mod.rs:22-31), and the framework then reads at most 2 MiB.
  const LIMIT := 20 * 1024 * 1024

  predicate SmallMatch(m: Match) {
    |m.name| <= LIMIT && |m.password.GetOr([])| <= LIMIT && |m.beatmapName| <= LIMIT && |m.beatmapMd5| <= LIMIT
  }

  predicate SmallName(name: Name) {
    match name
    case Known(text) => |text| <= LIMIT
    case Numbered(user) => -0x8000_0000 <= user < 0x8000_0000
  }

  predicate SmallOutcome(o: Outcome) {
    SmallName(o.best.name) && -0x8000_0000 <= o.best.score < 0x8000_0000
  }

  predicate SmallPacket(p: Packet) {
    match p
    case MatchUpdate(m) => SmallMatch(m)
    case MatchNew(m) => SmallMatch(m)
    case MatchJoinSuccess(m) => SmallMatch(m)
    case MatchStart(m) => SmallMatch(m)
    case MatchScoreUpdate(payload) => |payload| <= LIMIT
    case RoundConcluded(outcome) => SmallOutcome(outcome)
    case SpectateFrames(raw) => |raw| <= LIMIT
    case ChannelJoinSuccess(channel) => |channel| <= LIMIT
    case ChannelPart(channel) => |channel| <= LIMIT
    case Other(_, payload) => |payload| < 0x1_0000_0000
    case MatchJoinFail => true
    case MatchDisband(_) => true
    case MatchTransferHost => true
    case MatchAllPlayersLoaded => true
    case MatchPlayerFailed(_) => true
    case MatchPlayerSkipped(_) => true
    case MatchComplete => true
    case SpectatorJoined(_) => true
    case SpectatorLeft(_) => true
    case FellowSpectatorJoined(_) => true
    case FellowSpectatorLeft(_) => true
    case SpectatorCantSpectate(_) => true
    case UserQuit(_, _) => true
  }

  // ---------- small packets fit their frame ----------

  lemma StringSize(s: bytes)
    requires |s| <= LIMIT
    ensures |PutString(s)| <= LIMIT + 11
  {
    EncodeAtMostTen(|s|);
  }

  lemma {:induction false} SlotFieldSizes(slots: Slots, k: nat)
    requires k <= 16
    ensures |PutStatuses(slots, k)| <= 16 && |PutTeams(slots, k)| <= 16
    ensures |PutUsers(slots, k)| <= 4 * (16 - k) && |PutMods(slots, k)| <= 4 * (16 - k)
    ensures |PutStatuses(slots, k)| == 16 - k && |PutTeams(slots, k)| == 16 - k
    decreases 16 - k
  {
    if k < 16 { SlotFieldSizes(slots, k + 1); }
  }

  lemma MatchSize(m: Match, send: bool)
    requires SmallMatch(m)
    ensures |MatchBytes(m, send)| < 0x1_0000_0000
  {
    hide PutString; hide PutStatuses; hide PutTeams; hide PutUsers; hide PutMods; hide Le;
    StringSize(m.name);
    StringSize(ShownPassword(m, send));
    StringSize(m.beatmapName);
    StringSize(m.beatmapMd5);
    SlotFieldSizes(m.slots, 0);
  }

  lemma {:induction false} DigitsSize(n: nat, k: nat)
    requires k >= 1 && n < Pow(10, k)
    ensures |Digits(n)| <= k
  {
    if n >= 10 { DigitsSize(n / 10, k - 1); }
  }

  lemma DecimalSize(n: int)
    requires -0x8000_0000 <= n <= 0x8000_0000
    ensures |Decimal(n)| <= 11
  {
    assert Pow(10, 5) == 100000;
    assert Pow(10, 10) == 100000 * Pow(10, 5) by { PowAdds(10, 5, 5); }
    DigitsSize(if n < 0 then -n else n, 10);
  }

  lemma AnnouncementSize(o: Outcome)
    requires SmallOutcome(o)
    ensures |Announcement(o)| <= LIMIT + 100
  {
    DecimalSize(o.best.score);
    if o.best.name.Numbered? { DecimalSize(o.best.name.user); }
  }

  lemma SmallFits(p: Packet, bot: Bot)
    requires SmallPacket(p) && |bot.name| <= LIMIT
    ensures Sized(Raw(p, bot))
  {
    hide MatchBytes; hide PutString; hide Announcement; hide Le;
    if p.MatchUpdate? || p.MatchNew? || p.MatchStart? { MatchSize(p.room, false); }
    else if p.MatchJoinSuccess? { MatchSize(p.room, true); }
    else if p.RoundConcluded? { ChatSize(bot, p.outcome); }
    else if p.ChannelJoinSuccess? || p.ChannelPart? { StringSize(p.channel); }
  }

  lemma ChatSize(bot: Bot, o: Outcome)
    requires SmallOutcome(o) && |bot.name| <= LIMIT
    ensures |ChatMessage(bot, Announcement(o), MULTIPLAYER)| < 0x1_0000_0000
  {
    hide Announcement; hide Le;
    AnnouncementSize(o);
    StringSize(bot.name);
    StringSize(MULTIPLAYER);
    EncodeAtMostTen(|Announcement(o)|);
  }

  // ---------- everything stays small ----------

  ghost predicate SmallSession(s: Session) {
    |s.name| <= LIMIT && forall i :: 0 <= i < |s.queue| ==> SmallPacket(s.queue[i])
  }

  ghost predicate SmallNet(net: Net) {
    forall t :: t in net.sessions ==> SmallSession(net.sessions[t])
  }

  ghost predicate SmallRooms(r: Rooms) {
    forall id :: id in r.matches ==> SmallMatch(r.matches[id])
  }

  ghost predicate SmallView(v: View) {
    SmallNet(v.net) && SmallRooms(v.rooms)
  }

  // A request no longer than the limit, and replies of other arms that fit their frame.
  predicate SmallArm(arm: Arm) {
    match arm
    case CreateRoom(asked) => SmallMatch(asked)
    case ChangeSettings(asked) => SmallMatch(asked)
    case ScoreUpdate(payload, _) => |payload| <= LIMIT
    case SpectateFrames(raw) => |raw| <= LIMIT
    case JoinChannel(channel) => |channel| <= LIMIT
    case PartChannel(channel) => |channel| <= LIMIT
    case _ => true
  }

  predicate SmallAction(a: Action) {
    match a
    case From(_, arm) => SmallArm(arm)
    case Login(_, _, name, presence, stats) => |name| <= LIMIT && SmallPacket(presence) && SmallPacket(stats)
    case Disconnect(_, _) => true
    case Poll(_) => true
    case Tell(_, p) => SmallPacket(p)
    case TellAll(p) => SmallPacket(p)
    case TellChannel(_, p, _) => SmallPacket(p)
  }

  lemma PushIsSmall(s: Session, p: Packet)
    requires SmallSession(s) && SmallPacket(p)
    ensures SmallSession(Push(s, p))
  {
    hide SmallPacket;
  }

  lemma PostIsSmall(net: Net, who: set<int>, p: Packet)
    requires SmallNet(net) && SmallPacket(p)
    ensures SmallNet(Post(net, who, p))
  {
    hide SmallPacket; hide SmallSession; hide Push;
    forall t | t in net.sessions ensures SmallSession(Push(net.sessions[t], p)) { PushIsSmall(net.sessions[t], p); }
  }

  lemma PostAllIsSmall(net: Net, p: Packet)
    requires SmallNet(net) && SmallPacket(p)
    ensures SmallNet(PostAll(net, p))
  {
    hide SmallPacket; hide SmallSession; hide Push;
    forall t | t in net.sessions ensures SmallSession(Push(net.sessions[t], p)) { PushIsSmall(net.sessions[t], p); }
  }

  lemma PostsAreSmall()
    ensures forall net, who, p {:trigger Post(net, who, p)} ::
      SmallNet(net) && SmallPacket(p) ==> SmallNet(Post(net, who, p))
  {
    forall net, who, p | SmallNet(net) && SmallPacket(p) ensures SmallNet(Post(net, who, p)) {
      PostIsSmall(net, who, p);
    }
  }

  lemma {:induction false} PostEachIsSmall(net: Net, user: int, ps: seq<Packet>)
    requires SmallNet(net) && forall i :: 0 <= i < |ps| ==> SmallPacket(ps[i])
    ensures SmallNet(PostEach(net, user, ps))
  {
    hide SmallPacket; hide SmallNet; hide Post;
    if ps != [] {
      PostEachIsSmall(net, user, ps[..|ps| - 1]);
      PostIsSmall(PostEach(net, user, ps[..|ps| - 1]), {user}, ps[|ps| - 1]);
    }
  }

  lemma EnrolIsSmall(net: Net, user: i32, channel: bytes)
    requires SmallNet(net)
    ensures SmallNet(Enrol(net, user, channel)) && SmallNet(Withdraw(net, user, channel))
  {
    hide SmallPacket;
    forall t | t in net.sessions ensures SmallSession(net.sessions[t]) { }
  }

  lemma RemovalIsSmall(r: Rooms, user: int)
    requires SmallRooms(r)
    ensures var (r', gone) := RemoveUser(r, user);
      SmallRooms(r') && (gone.Some? ==> SmallMatch(gone.value.room))
  {
    hide SmallMatch;
    if user in r.userToMatch && r.userToMatch[user] in r.matches {
      var m := r.matches[r.userToMatch[user]];
      match FirstUser(m.slots, user)
      case None =>
      case Some(i) => VacateIsSmall(m, i, user);
    }
  }

  lemma VacateIsSmall(m: Match, i: nat, user: int)
    requires i < 16 && SmallMatch(m)
    ensures SmallMatch(Vacate(m, i, user))
  {
  }

  lemma FarewellIsSmall(net: Net, gone: Option<Removal>)
    requires SmallNet(net) && (gone.Some? ==> SmallMatch(gone.value.room))
    ensures SmallNet(Farewell(net, gone))
  {
    hide SmallNet; hide Post; hide SmallMatch;
    PostsAreSmall();
  }

  lemma LeaveIsSmall(v: View, user: i32)
    requires SmallView(v)
    ensures SmallView(Leave(v, user))
  {
    hide SmallNet; hide SmallRooms; hide Farewell; hide RemoveUser; hide SmallMatch;
    RemovalIsSmall(v.rooms, user);
    FarewellIsSmall(v.net, RemoveUser(v.rooms, user).1);
  }

  lemma WelcomeIsSmall(net: Net, user: i32, m: Match)
    requires SmallNet(net) && SmallMatch(m)
    ensures SmallNet(Welcome(net, user, m))
  {
    hide SmallNet; hide Post; hide Enrol; hide SmallMatch;
    PostsAreSmall();
    var net1 := Post(Post(net, {user as int}, Packet.MatchJoinSuccess(m)), {user as int},
      Packet.ChannelJoinSuccess(MULTIPLAYER));
    EnrolIsSmall(net1, user, MULTIPLAYER);
  }

  lemma NewRoomIsSmall(r: Rooms, user: i32, asked: Match)
    requires SmallRooms(r) && SmallMatch(asked)
    ensures SmallRooms(OpenRoom(r, user, asked)) && SmallMatch(NewRoom(r.nextId, user, asked))
  {
  }

  lemma FoundIsSmall(v: View, user: i32, asked: Match)
    requires SmallView(v) && SmallMatch(asked)
    ensures SmallView(Found(v, user, asked))
  {
    hide SmallNet; hide SmallRooms; hide Post; hide Welcome; hide NewRoom; hide OpenRoom; hide SmallMatch;
    PostsAreSmall();
    NewRoomIsSmall(v.rooms, user, asked);
    WelcomeIsSmall(v.net, user, NewRoom(v.rooms.nextId, user, asked));
  }

  lemma EnterIsSmall(r: Rooms, user: i32, id: u16)
    requires SmallRooms(r) && id in r.matches
    ensures SmallRooms(Enter(r, user, id)) && id in Enter(r, user, id).matches &&
      SmallMatch(Enter(r, user, id).matches[id])
  {
  }

  lemma JoinIsSmall(v: View, user: i32, wanted: i32, password: bytes)
    requires SmallView(v)
    ensures SmallView(DoJoin(v, user, wanted, password))
  {
    hide SmallNet; hide SmallRooms; hide Post; hide Welcome; hide Enter; hide SmallMatch; hide Leave; hide CanJoin;
    var id: u16 := wanted % 0x1_0000;
    PostsAreSmall();
    LeaveIsSmall(v, user);
    var v1 := Leave(v, user);
    if id in v1.rooms.matches {
      EnterIsSmall(v1.rooms, user, id);
      WelcomeIsSmall(v1.net, user, Enter(v1.rooms, user, id).matches[id]);
    }
  }

  // ---------- inside a room ----------

  lemma {:induction false} BestIsSmall(slots: Slots, scores: map<int, Frame>, names: map<i32, bytes>, k: nat)
    requires k <= 16 && forall u :: u in names ==> |names[u]| <= LIMIT
    ensures SmallName(BestOf(Rows(slots, scores, names, k)).name)
    ensures -1 <= BestOf(Rows(slots, scores, names, k)).score < 0x8000_0000
  {
    if k > 0 {
      BestIsSmall(slots, scores, names, k - 1);
      var rows := Rows(slots, scores, names, k - 1);
      if Occupied(slots[k - 1]) {
        var row := RowOf(slots[k - 1], k - 1, scores, names);
        assert (rows + [row])[..|rows|] == rows;
      }
    }
  }

  lemma NamesAreSmall(net: Net)
    requires SmallNet(net)
    ensures forall u :: u in NamesOf(net) ==> |NamesOf(net)[u]| <= LIMIT
  {
    hide SmallPacket;
  }

  lemma EndIsSmall(v: View, id: u16)
    requires SmallView(v) && id in v.rooms.matches
    ensures SmallView(EndRound(v, id))
  {
    hide SmallNet; hide SmallRooms; hide Post; hide SmallMatch; hide SmallOutcome; hide Close; hide Closed;
    hide NamesOf; hide Members;
    PostsAreSmall();
    NamesAreSmall(v.net);
    ClosedIsSmall(v.rooms, id);
    CloseIsSmall(v.rooms.matches[id], ScoresOf(v.rooms, id), NamesOf(v.net));
  }

  lemma ClosedIsSmall(r: Rooms, id: u16)
    requires SmallRooms(r) && id in r.matches
    ensures SmallMatch(r.matches[id]) && SmallMatch(Closed(r.matches[id]))
    ensures forall r': Rooms :: r'.matches == r.matches[id := Closed(r.matches[id])] ==> SmallRooms(r')
  {
  }

  lemma CloseIsSmall(m: Match, scores: map<int, Frame>, names: map<i32, bytes>)
    requires forall u :: u in names ==> |names[u]| <= LIMIT
    ensures SmallOutcome(Close(m, scores, names))
  {
    hide Rows; hide BestOf; hide Mark; hide TeamTotal;
    BestIsSmall(m.slots, scores, names, 16);
  }

  lemma FinishIsSmall(v: View, id: u16)
    requires SmallView(v)
    ensures SmallView(DoFinish(v, id))
  {
    hide SmallView; hide EndRound; hide ShouldFinish;
    if id in v.rooms.matches { EndIsSmall(v, id); }
  }

  lemma RoomIsSmall(r: Rooms, id: u16, m: Match)
    requires SmallRooms(r) && SmallMatch(m)
    ensures SmallRooms(WithRoom(r, id, m))
  {
  }

  lemma ShowIsSmall(v: View, id: u16, m: Match, lobbyToo: bool)
    requires SmallView(v) && SmallMatch(m)
    ensures SmallView(Show(v, id, m, lobbyToo))
  {
    hide SmallNet; hide SmallRooms; hide Post; hide SmallMatch;
    PostsAreSmall();
    RoomIsSmall(v.rooms, id, m);
  }

  // The room a packet leads to has the texts of the room before, or those asked for.
  lemma ChangesAreSmall(m: Match, user: i32, arm: Arm)
    requires SmallMatch(m) && SmallArm(arm)
    ensures arm.ChangeSlot? && MovedTo(m, user, arm.target).Some? ==> SmallMatch(MovedTo(m, user, arm.target).value)
    ensures forall status {:trigger WithOwnStatus(m, user, status)} ::
      SmallMatch(WithOwnStatus(m, user, status).GetOr(m))
    ensures arm.Lock? && WithLock(m, user, arm.target).Some? ==> SmallMatch(WithLock(m, user, arm.target).value)
    ensures arm.ChangeSettings? && WithSettings(m, user, arm.asked).Some? ==>
      SmallMatch(WithSettings(m, user, arm.asked).value)
    ensures arm.ChangeMods? && WithMods(m, user, arm.mods).Some? ==> SmallMatch(WithMods(m, user, arm.mods).value)
    ensures WithTeam(m, user).Some? ==> SmallMatch(WithTeam(m, user).value)
    ensures arm.ChangeHost? && WithHost(m, user, arm.target).Some? ==> SmallMatch(WithHost(m, user, arm.target).value)
    ensures Started(m, user).Some? ==> SmallMatch(Started(m, user).value)
  {
  }

  lemma BeginIsSmall(v: View, id: u16, m: Match, now: int)
    requires SmallView(v) && SmallMatch(m)
    ensures SmallView(BeginRound(v, id, m, now))
  {
    hide SmallNet; hide Post; hide SmallMatch;
    PostsAreSmall();
  }

  lemma InRoomIsSmall(v: View, user: i32, id: u16, arm: Arm)
    requires SmallView(v) && id in v.rooms.matches && SmallArm(arm)
    ensures SmallView(InRoom(v, user, id, arm))
  {
    hide SmallNet; hide SmallRooms; hide Post; hide SmallMatch; hide Show; hide BeginRound; hide DoFinish;
    hide WithOwnStatus; hide MovedTo;
    hide WithLock; hide WithSettings; hide WithMods; hide WithTeam; hide WithHost; hide Started;
    hide Occupants; hide PlayingUsers;
    var m := v.rooms.matches[id];
    PostsAreSmall();
    assert SmallMatch(m) by { RoomAtIsSmall(v.rooms, id); }
    ChangesAreSmall(m, user, arm);
    if arm.ChangeTeam? { TeamIsSmall(v, user, id, m); }
    else if arm.ChangeHost? { HostIsSmall(v, user, id, m, arm.target); }
    else if arm.StartRound? {
      if Started(m, user).Some? { BeginIsSmall(v, id, Started(m, user).value, arm.now); }
    } else if arm.CompleteRound? { CompleteIsSmall(v, user, id, m); }
    else if arm.LoadComplete? || arm.ScoreUpdate? || arm.Failed? || arm.SkipRequest? {
      SignalIsSmall(v, user, id, m, arm);
    }
    else { StatusIsSmall(v, user, id, m, arm); }
  }

  lemma RoomAtIsSmall(r: Rooms, id: u16)
    requires SmallRooms(r) && id in r.matches
    ensures SmallMatch(r.matches[id])
  {
  }

  lemma TeamIsSmall(v: View, user: i32, id: u16, m: Match)
    requires SmallView(v) && SmallMatch(m)
    ensures SmallView(DoTeam(v, user, id, m))
  {
    hide SmallView; hide Show; hide DoFinish; hide WithTeam; hide SmallMatch;
    ChangesAreSmall(m, user, Arm.ChangeTeam);
    if WithTeam(m, user).Some? {
      ShowIsSmall(v, id, WithTeam(m, user).value, false);
      FinishIsSmall(Show(v, id, WithTeam(m, user).value, false), id);
    }
  }

  lemma HostIsSmall(v: View, user: i32, id: u16, m: Match, target: i32)
    requires SmallView(v) && SmallMatch(m)
    ensures SmallView(DoHost(v, user, id, m, target))
  {
    hide SmallNet; hide SmallRooms; hide Show; hide Post; hide WithHost; hide SmallMatch;
    PostsAreSmall();
    ChangesAreSmall(m, user, Arm.ChangeHost(target));
    if WithHost(m, user, target).Some? {
      var m' := WithHost(m, user, target).value;
      ShowIsSmall(v.(net := Post(v.net, {m'.host as int}, Packet.MatchTransferHost)), id, m', true);
    }
  }

  lemma CompleteIsSmall(v: View, user: i32, id: u16, m: Match)
    requires SmallView(v) && SmallMatch(m)
    ensures SmallView(DoComplete(v, user, id, m))
  {
    hide SmallNet; hide SmallRooms; hide DoFinish; hide WithOwnStatus; hide SmallMatch;
    ChangesAreSmall(m, user, CompleteRound);
    var m' := WithOwnStatus(m, user, SLOT_COMPLETE).GetOr(m);
    RoomIsSmall(v.rooms, id, m');
    FinishIsSmall(v.(rooms := WithRoom(v.rooms, id, m')), id);
  }

  // Arms that change no room.
  lemma SignalIsSmall(v: View, user: i32, id: u16, m: Match, arm: Arm)
    requires SmallView(v) && SmallArm(arm) && id in v.rooms.matches && m == v.rooms.matches[id]
    requires arm.LoadComplete? || arm.ScoreUpdate? || arm.Failed? || arm.SkipRequest?
    ensures SmallView(InRoom(v, user, id, arm))
  {
    hide SmallNet; hide Post; hide SmallMatch; hide Occupants; hide PlayingUsers;
    PostsAreSmall();
  }

  // Arms that show a changed room.
  lemma StatusIsSmall(v: View, user: i32, id: u16, m: Match, arm: Arm)
    requires SmallView(v) && SmallArm(arm) && id in v.rooms.matches && m == v.rooms.matches[id]
    requires !arm.ChangeTeam? && !arm.ChangeHost? && !arm.StartRound? && !arm.CompleteRound?
    requires !arm.LoadComplete? && !arm.ScoreUpdate? && !arm.Failed? && !arm.SkipRequest?
    ensures SmallView(InRoom(v, user, id, arm))
  {
    hide SmallView; hide Show; hide SmallMatch; hide WithOwnStatus; hide MovedTo; hide WithLock;
    hide WithSettings; hide WithMods;
    assert SmallMatch(m) by { ViewRoomIsSmall(v, id); }
    ChangesAreSmall(m, user, arm);
    forall m', lobbyToo | SmallMatch(m') ensures SmallView(Show(v, id, m', lobbyToo)) {
      ShowIsSmall(v, id, m', lobbyToo);
    }
  }

  lemma ViewRoomIsSmall(v: View, id: u16)
    requires SmallView(v) && id in v.rooms.matches
    ensures SmallMatch(v.rooms.matches[id])
  {
  }

  // ---------- spectators, sessions ----------

  lemma StopIsSmall(v: View, user: i32)
    requires SmallView(v)
    ensures SmallView(DoStopSpectating(v, user))
  {
    hide SmallNet; hide SmallRooms; hide Post; hide Stop;
    PostsAreSmall();
  }

  lemma WatchingIsSmall(v: View, user: i32, host: i32)
    requires SmallView(v)
    ensures SmallView(BeginWatching(v, user, host))
  {
    hide SmallNet; hide SmallRooms; hide Post; hide PostEach; hide Enrol; hide Start;
    PostsAreSmall();
    var list := WatchersOf(v.watch, host);
    var net1 := Post(v.net, Watchers(v.watch, host), Packet.FellowSpectatorJoined(user));
    PostEachIsSmall(net1, user, FellowsOf(list));
    var net4 := Post(Post(PostEach(net1, user, FellowsOf(list)), {host as int}, Packet.SpectatorJoined(user)),
                     {user as int}, Packet.ChannelJoinSuccess(SPECTATOR));
    EnrolIsSmall(net4, user, SPECTATOR);
  }

  lemma ChatterIsSmall(v: View, user: i32, arm: Arm)
    requires SmallView(v) && IsChatter(arm) && SmallArm(arm)
    ensures SmallView(Chatter(v, user, arm))
  {
    hide SmallNet; hide SmallRooms; hide Post; hide Enrol; hide Withdraw;
    PostsAreSmall();
    if arm.JoinChannel? { EnrolIsSmall(v.net, user, arm.channel); }
    else if arm.PartChannel? { EnrolIsSmall(v.net, user, arm.channel); }
    else if arm.LobbyPart? { SameSessions(v.net, v.net.(lobby := v.net.lobby - {user})); }
  }

  lemma SameSessions(net: Net, net': Net)
    requires SmallNet(net) && net'.sessions == net.sessions
    ensures SmallNet(net')
  {
  }

  lemma ListingIsSmall(v: View, user: i32, order: seq<u16>)
    requires SmallView(v) && forall id :: id in order ==> id in v.rooms.matches
    ensures SmallView(DoLobbyJoin(v, user, order))
  {
    hide PostEach; hide SmallMatch; hide SmallSession;
    PostEachIsSmall(v.net.(lobby := v.net.lobby + {user}), user, Listing(v.rooms.matches, order));
  }

  lemma FewerSessions(net: Net, user: i32)
    requires SmallNet(net)
    ensures SmallNet(DropSession(net, user)) && SmallNet(LeaveChannels(net, user))
  {
    hide SmallSession;
  }

  lemma DropIsSmall(v: View, user: i32)
    requires SmallView(v)
    ensures SmallView(DropUser(v, user))
  {
    hide SmallNet; hide SmallRooms; hide Post; hide DropSession; hide LeaveChannels; hide Leave;
    hide DoStopSpectating; hide DropHost;
    PostsAreSmall();
    FewerSessions(v.net, user);
    LeaveIsSmall(v.(net := DropSession(v.net, user)), user);
    var v1 := Leave(v.(net := DropSession(v.net, user)), user);
    StopIsSmall(v1, user);
    var v2 := DoStopSpectating(v1, user);
    FewerSessions(Post(v2.net, Watchers(v2.watch, user), Packet.SpectatorLeft(user)), user);
  }

  lemma LoginIsSmall(v: View, user: i32, token: Token, name: bytes, presence: Packet, stats: Packet)
    requires SmallView(v) && |name| <= LIMIT && SmallPacket(presence) && SmallPacket(stats)
    ensures SmallView(DoLogin(v, user, token, name, presence, stats))
  {
    hide SmallRooms; hide DropUser; hide PostAll; hide SmallPacket; hide SmallSession; hide JoinStartChannel;
    DropIsSmall(v, user);
    var v1 := DropUser(v, user);
    var net1 := JoinStartChannel(JoinStartChannel(v1.net, user, OSU), user, ANNOUNCE);
    JoinKeepsSessions(v1.net, user, OSU);
    JoinKeepsSessions(JoinStartChannel(v1.net, user, OSU), user, ANNOUNCE);
    PostAllIsSmall(net1, presence);
    PostAllIsSmall(PostAll(net1, presence), stats);
    EmptyQueueIsSmall(user, name);
  }

  lemma JoinKeepsSessions(net: Net, user: i32, channel: bytes)
    ensures JoinStartChannel(net, user, channel).sessions == net.sessions
  {
  }

  lemma EmptyQueueIsSmall(user: i32, name: bytes)
    requires |name| <= LIMIT
    ensures SmallSession(Session(user, name, [], {OSU, ANNOUNCE}))
  {
  }

  lemma PollIsSmall(v: View, user: i32)
    requires SmallView(v)
    ensures SmallView(DoPoll(v, user))
  {
    hide SmallPacket; hide SmallRooms;
  }

  lemma ArmIsSmall(v: View, user: i32, arm: Arm, order: seq<u16>)
    requires SmallView(v) && SmallArm(arm) && forall id :: id in order ==> id in v.rooms.matches
    ensures SmallView(DoArm(v, user, arm, order))
  {
    hide SmallView; hide DoLobbyJoin; hide Leave; hide Found; hide DoJoin; hide DoFinish; hide RemoveUser;
    hide DoStopSpectating;
    hide BeginWatching; hide Chatter; hide InRoom; hide StrayLoad; hide SmallMatch;
    if arm.LobbyJoin? { ListingIsSmall(v, user, order); }
    else if arm.CreateRoom? { LeaveIsSmall(v, user); FoundIsSmall(Leave(v, user), user, arm.asked); }
    else if arm.JoinRoom? { JoinIsSmall(v, user, arm.id, arm.password); }
    else if arm.PartRoom? { PartIsSmall(v, user); }
    else if arm.StartSpectating? { StopIsSmall(v, user); WatchingIsSmall(DoStopSpectating(v, user), user, arm.host); }
    else if arm.StopSpectating? { StopIsSmall(v, user); }
    else if IsChatter(arm) { ChatterIsSmall(v, user, arm); }
    else if RoomOf(v.rooms, user).Some? { InRoomIsSmall(v, user, RoomOf(v.rooms, user).value, arm); }
    else { StrayIsSmall(v, user); }
  }

  lemma StrayIsSmall(v: View, user: i32)
    requires SmallView(v)
    ensures SmallView(StrayLoad(v, user))
  {
    hide SmallNet; hide SmallMatch;
  }

  lemma PartIsSmall(v: View, user: i32)
    requires SmallView(v)
    ensures SmallView(DoPart(v, user))
  {
    hide SmallView; hide Leave; hide DoFinish; hide RemoveUser;
    LeaveIsSmall(v, user);
    match RemoveUser(v.rooms, user).1
    case None =>
    case Some(g) => FinishIsSmall(Leave(v, user), g.id);
  }

  lemma StepIsSmall(v: View, a: Action, v': View)
    requires SmallView(v) && SmallAction(a) && Step(v, a, v')
    ensures SmallView(v')
  {
    hide SmallNet; hide SmallRooms; hide DoArm; hide DoLogin; hide DropUser; hide DoPoll; hide Post;
    hide PostAll; hide Members;
    hide SmallPacket; hide SmallArm;
    PostsAreSmall();
    match a
    case From(user, arm) =>
      var order :| GoodOrder(v.rooms, order) && v' == DoArm(v, user, arm, order);
      ArmIsSmall(v, user, arm, order);
    case Login(user, token, name, presence, stats) => LoginIsSmall(v, user, token, name, presence, stats);
    case Disconnect(user, how) =>
      DropIsSmall(v, user);
      QuitIsSmall(user, how);
      PostAllIsSmall(DropUser(v, user).net, Packet.UserQuit(user, how));
    case Poll(user) => PollIsSmall(v, user);
    case Tell(user, p) =>
    case TellAll(p) => PostAllIsSmall(v.net, p);
    case TellChannel(c, p, except) =>
  }

  lemma QuitIsSmall(user: i32, how: u8)
    ensures SmallPacket(Packet.UserQuit(user, how))
  {
  }

  // ---------- main result ----------

  lemma {:induction false} RunIsSmall(views: seq<View>, acts: seq<Action>, n: nat)
    requires Run(views, acts) && n < |views| && forall i :: 0 <= i < |acts| ==> SmallAction(acts[i])
    ensures SmallView(views[n])
  {
    hide SmallView; hide SmallAction; hide Step;
    if n == 0 {
      StartIsSmall();
    } else {
      RunIsSmall(views, acts, n - 1);
      StepIsSmall(views[n - 1], acts[n - 1], views[n]);
    }
  }

  lemma StartIsSmall()
    ensures SmallView(START)
  {
  }

  // In every state of every run, whatever the clients send, what a session would be given by its next
  // poll decodes to exactly the packets queued for it, in order, with nothing left over.
  lemma EveryQueueDecodes(views: seq<View>, acts: seq<Action>, n: nat, t: Token, bot: Bot)
    requires Run(views, acts) && n < |views| && (forall i :: 0 <= i < |acts| ==> SmallAction(acts[i])) &&
      |bot.name| <= LIMIT
    requires t in views[n].net.sessions
    ensures var q := views[n].net.sessions[t].queue;
      Decoded(QueueBytes(q, bot)) == RawQueue(q, bot) && Tail(QueueBytes(q, bot)) == []
  {
    hide Run; hide SmallAction; hide SmallPacket; hide Raw; hide QueueBytes; hide RawQueue; hide Decoded; hide Tail;
    RunIsSmall(views, acts, n);
    var q := views[n].net.sessions[t].queue;
    assert SmallSession(views[n].net.sessions[t]);
    forall i | 0 <= i < |q| ensures Sized(Raw(q[i], bot)) { SmallFits(q[i], bot); }
    QueueDelivers(q, bot);
  }
}
