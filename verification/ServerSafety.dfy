/** Safety over whole runs of the server: what every step keeps, and what a disconnect leaves behind. */
module ServerSafety {
  import opened Wrappers
  import opened BanchoTypes
  import opened Rooms
  import opened Rounds
  import opened RoomSafety
  import opened Spectating
  import opened Network
  import opened Server

  // What every state of every run keeps.
  ghost predicate Inv(v: View) {
    && NetInv(v.net)
    && RoomsInv(v.rooms, v.trace)
    && v.rooms.userToMatch.Keys <= Online(v.net)
    && WatchInv(v.watch, Online(v.net))
  }

  lemma StartIsSafe()
    ensures Inv(START)
  {
  }

  // ---------- packets alone change nothing that matters ----------

  lemma PostsKeep()
    ensures forall net, who, p {:trigger Post(net, who, p)} ::
      && (NetInv(net) ==> NetInv(Post(net, who, p)))
      && Post(net, who, p).tokens == net.tokens && Post(net, who, p).lobby == net.lobby
  {
    forall net, who, p | NetInv(net) ensures NetInv(Post(net, who, p)) {
      PostKeeps(net, who, p);
    }
  }

  // The network may hear about it; who is online does not change.
  ghost predicate Heard(net: Net, net': Net) {
    NetInv(net') && net'.tokens == net.tokens
  }

  // Nobody moved between rooms, hosts or the network.
  ghost predicate StaysSafe(v: View, v': View) {
    && Heard(v.net, v'.net)
    && RoomsInv(v'.rooms, v'.trace) && v'.rooms.userToMatch == v.rooms.userToMatch
    && v'.watch == v.watch
  }

  lemma StayingKeeps(v: View, v': View)
    requires Inv(v) && StaysSafe(v, v')
    ensures Inv(v')
  {
  }

  // ---------- packets inside a room ----------

  lemma ShowSafe(v: View, id: u16, m: Match, lobbyToo: bool)
    requires Inv(v) && id in v.rooms.matches && QuietChange(v.rooms.matches[id], m)
    ensures StaysSafe(v, Show(v, id, m, lobbyToo))
  {
    hide NetInv; hide Post; hide RoomsInv; hide QuietChange;
    PostsKeep();
    QuietSafe(v.rooms, v.trace, id, m);
  }

  lemma ShowIfSafe(v: View, id: u16, m': Option<Match>, lobbyToo: bool)
    requires Inv(v) && id in v.rooms.matches && (m'.Some? ==> QuietChange(v.rooms.matches[id], m'.value))
    ensures StaysSafe(v, ShowIf(v, id, m', lobbyToo))
  {
    hide NetInv; hide RoomsInv; hide QuietChange; hide Show;
    if m'.Some? { ShowSafe(v, id, m'.value, lobbyToo); }
  }

  lemma FinishStays(v: View, id: u16)
    requires Inv(v)
    ensures StaysSafe(v, DoFinish(v, id))
  {
    hide NetInv; hide Post; hide RoomsInv; hide Close; hide Closed; hide ShouldFinish; hide NamesOf;
    PostsKeep();
    if id in v.rooms.matches && v.rooms.matches[id].inProgress {
      FinishSafe(v.rooms, v.trace, id, NamesOf(v.net));
    }
  }

  lemma StartStays(v: View, user: i32, id: u16, now: int)
    requires Inv(v) && id in v.rooms.matches
    ensures StaysSafe(v, DoStart(v, user, id, v.rooms.matches[id], now))
  {
    hide NetInv; hide Post; hide RoomsInv; hide Started;
    PostsKeep();
    if Started(v.rooms.matches[id], user).Some? {
      StartSafe(v.rooms, v.trace, id, user, now);
    }
  }

  lemma LoadStays(v: View, user: i32, id: u16)
    requires Inv(v) && id in v.rooms.matches
    ensures StaysSafe(v, DoLoad(v, user, id, v.rooms.matches[id]))
  {
    hide NetInv; hide Post; hide RoomsInv; hide PlayingUsers; hide Justified;
    PostsKeep();
    var loaded := LoadedOf(v.rooms, id) + {user as int};
    var r1 := v.rooms.(loaded := v.rooms.loaded[id := loaded]);
    var tr1 := v.trace + [Loaded(id, user)];
    LoadJustified(v.trace, id, user);
    RecordSafe(v.rooms, r1, v.trace, Loaded(id, user));
    var playing := PlayingUsers(v.rooms.matches[id].slots);
    if playing <= loaded {
      AllLoadedJustified(r1, tr1, id, playing);
      RecordSafe(r1, r1, tr1, AllLoaded(id, playing));
    }
  }

  lemma LoadJustified(tr: seq<Event>, id: u16, user: int)
    ensures Justified(tr, Loaded(id, user))
  {
  }

  lemma AllLoadedJustified(r: Rooms, tr: seq<Event>, id: u16, playing: set<int>)
    requires RoomsInv(r, tr) && id in r.matches
    requires playing == PlayingUsers(r.matches[id].slots) && playing <= LoadedOf(r, id)
    ensures Justified(tr, AllLoaded(id, playing))
  {
    hide SeatInv; hide NumberInv; hide SafeHistory;
    var slots := r.matches[id].slots;
    if u :| u in playing {
      var i :| 0 <= i < 16 && slots[i].status == SLOT_PLAYING && slots[i].user == u;
      assert AnyPlaying(slots);
      assert InStep(r, tr, id);
    }
  }

  lemma ScoreStays(v: View, user: i32, id: u16, payload: bytes, frame: Frame)
    requires Inv(v) && id in v.rooms.matches
    ensures StaysSafe(v, DoScore(v, user, id, v.rooms.matches[id], payload, frame))
  {
    hide NetInv; hide Post; hide RoomsInv;
    PostsKeep();
    var seat := FirstUser(v.rooms.matches[id].slots, user);
    if seat.Some? && |payload| > 4 {
      var e := Scored(id, user, frame.(slotId := seat.value));
      var r1 := v.rooms.(lastScores := v.rooms.lastScores[id := ScoresOf(v.rooms, id)[user := e.frame]]);
      RecordSafe(v.rooms, r1, v.trace, e);
    }
  }

  lemma CompleteStays(v: View, user: i32, id: u16)
    requires Inv(v) && id in v.rooms.matches && user > 0
    ensures StaysSafe(v, DoComplete(v, user, id, v.rooms.matches[id]))
  {
    hide NetInv; hide RoomsInv; hide DoFinish; hide QuietChange; hide RoomOk; hide WithOwnStatus;
    var m := v.rooms.matches[id];
    var m' := WithOwnStatus(m, user, SLOT_COMPLETE);
    var v1 := v.(rooms := WithRoom(v.rooms, id, m'.GetOr(m)));
    RoomInGoodOrder(v, id);
    if m'.Some? {
      OwnStatusQuiet(m, user, SLOT_COMPLETE);
      QuietSafe(v.rooms, v.trace, id, m'.value);
    } else {
      assert WithRoom(v.rooms, id, m) == v.rooms;
    }
    StayingKeeps(v, v1);
    FinishStays(v1, id);
  }

  lemma RoomInGoodOrder(v: View, id: u16)
    requires Inv(v) && id in v.rooms.matches
    ensures RoomOk(v.rooms.matches[id]) && v.rooms.matches[id].id == id
  {
    RoomIsOk(v.rooms, id);
  }

  lemma TeamStays(v: View, user: i32, id: u16)
    requires Inv(v) && id in v.rooms.matches
    ensures StaysSafe(v, DoTeam(v, user, id, v.rooms.matches[id]))
  {
    hide NetInv; hide RoomsInv; hide DoFinish; hide QuietChange; hide RoomOk; hide Show; hide WithTeam;
    var m := v.rooms.matches[id];
    RoomInGoodOrder(v, id);
    if WithTeam(m, user).Some? {
      TeamQuiet(m, user);
      var v1 := Show(v, id, WithTeam(m, user).value, false);
      ShowSafe(v, id, WithTeam(m, user).value, false);
      StayingKeeps(v, v1);
      FinishStays(v1, id);
    }
  }

  lemma HostStays(v: View, user: i32, id: u16, target: int)
    requires Inv(v) && id in v.rooms.matches
    ensures StaysSafe(v, DoHost(v, user, id, v.rooms.matches[id], target))
  {
    hide NetInv; hide RoomsInv; hide Post; hide QuietChange; hide RoomOk; hide Show; hide WithHost;
    var m := v.rooms.matches[id];
    RoomInGoodOrder(v, id);
    PostsKeep();
    match WithHost(m, user, target)
    case None =>
    case Some(m') =>
      HostQuiet(m, user, target);
      var v1 := v.(net := Post(v.net, {m'.host as int}, Packet.MatchTransferHost));
      StayingKeeps(v, v1);
      ShowSafe(v1, id, m', true);
  }

  lemma NoticeStays(v: View, user: i32, id: u16, failed: bool)
    requires Inv(v) && id in v.rooms.matches
    ensures StaysSafe(v, DoNotice(v, user, v.rooms.matches[id], failed))
  {
    hide NetInv; hide RoomsInv; hide Post;
    PostsKeep();
  }

  // The arms that set the sender's own status.
  lemma StatusStays(v: View, user: i32, id: u16, status: u8, lobbyToo: bool)
    requires Inv(v) && id in v.rooms.matches && user > 0 && status in {SLOT_READY, SLOT_NOT_READY, SLOT_NO_MAP}
    ensures StaysSafe(v, ShowIf(v, id, WithOwnStatus(v.rooms.matches[id], user, status), lobbyToo))
  {
    hide NetInv; hide RoomsInv; hide QuietChange; hide RoomOk; hide ShowIf; hide WithOwnStatus; hide StaysSafe;
    var m := v.rooms.matches[id];
    RoomInGoodOrder(v, id);
    if WithOwnStatus(m, user, status).Some? { OwnStatusQuiet(m, user, status); }
    ShowIfSafe(v, id, WithOwnStatus(m, user, status), lobbyToo);
  }

  lemma InRoomStays(v: View, user: i32, id: u16, arm: Arm)
    requires Inv(v) && id in v.rooms.matches && user > 0
    ensures StaysSafe(v, InRoom(v, user, id, arm))
  {
    hide NetInv; hide RoomsInv; hide QuietChange; hide RoomOk; hide ShowIf;
    hide DoTeam; hide DoHost; hide DoStart; hide DoLoad; hide DoScore; hide DoComplete; hide DoNotice;
    hide MovedTo; hide WithOwnStatus; hide WithLock; hide WithSettings; hide WithMods;
    var m := v.rooms.matches[id];
    RoomInGoodOrder(v, id);
    match arm
    case ChangeSlot(target) =>
      if MovedTo(m, user, target).Some? { MovedQuiet(m, user, target); }
      ShowIfSafe(v, id, MovedTo(m, user, target), true);
    case SetReady => StatusStays(v, user, id, SLOT_READY, true);
    case SetNotReady => StatusStays(v, user, id, SLOT_NOT_READY, true);
    case NoBeatmap => StatusStays(v, user, id, SLOT_NO_MAP, false);
    case HasBeatmap => StatusStays(v, user, id, SLOT_NOT_READY, false);
    case Lock(target) =>
      if WithLock(m, user, target).Some? { LockQuiet(m, user, target); }
      ShowIfSafe(v, id, WithLock(m, user, target), true);
    case ChangeSettings(asked) =>
      if WithSettings(m, user, asked).Some? { SettingsQuiet(m, user, asked); }
      ShowIfSafe(v, id, WithSettings(m, user, asked), true);
    case ChangeMods(mods) =>
      if WithMods(m, user, mods).Some? { ModsQuiet(m, user, mods); }
      ShowIfSafe(v, id, WithMods(m, user, mods), false);
    case ChangeTeam => TeamStays(v, user, id);
    case ChangeHost(target) => HostStays(v, user, id, target);
    case StartRound(now) => StartStays(v, user, id, now);
    case LoadComplete => LoadStays(v, user, id);
    case ScoreUpdate(payload, frame) => ScoreStays(v, user, id, payload, frame);
    case CompleteRound => CompleteStays(v, user, id);
    case Failed => NoticeStays(v, user, id, true);
    case SkipRequest => NoticeStays(v, user, id, false);
    case _ =>
  }

  // ---------- moving between rooms ----------

  lemma FarewellHeard(net: Net, gone: Option<Removal>)
    requires NetInv(net)
    ensures Heard(net, Farewell(net, gone))
  {
    hide NetInv; hide Post;
    PostsKeep();
  }

  lemma WelcomeHeard(net: Net, user: i32, m: Match)
    requires NetInv(net) && user in net.tokens
    ensures Heard(net, Welcome(net, user, m))
  {
    hide NetInv; hide Post;
    PostsKeep();
    EnrolKeeps(Post(Post(net, {user as int}, Packet.MatchJoinSuccess(m)), {user as int},
      Packet.ChannelJoinSuccess(MULTIPLAYER)), user, MULTIPLAYER);
  }

  lemma LeaveKeepsInv(v: View, user: i32)
    requires Inv(v)
    ensures Inv(Leave(v, user)) && Heard(v.net, Leave(v, user).net) && Leave(v, user).watch == v.watch
    ensures user !in Leave(v, user).rooms.userToMatch
  {
    hide NetInv; hide RoomsInv; hide RemoveUser; hide Farewell;
    LeaveSafe(v.rooms, v.trace, user);
    FarewellHeard(v.net, RemoveUser(v.rooms, user).1);
  }

  // The number a create is about to use is not that of a room still open.
  predicate NumberFree(v: View, user: int) {
    v.rooms.nextId !in RemoveUser(v.rooms, user).0.matches
  }

  lemma CreateKeeps(v: View, user: i32, asked: Match)
    requires Inv(v) && user in v.net.tokens
    ensures Inv(DoCreate(v, user, asked)) && DoCreate(v, user, asked).net.tokens == v.net.tokens
  {
    hide NetInv; hide RoomsInv; hide RemoveUser; hide Leave; hide OpenRoom; hide NewRoom; hide Welcome; hide Post;
    LeaveKeepsInv(v, user);
    LeaveRooms(v, user);
    var v1 := Leave(v, user);
    UserIsPositive(v.net, user);
    OpenSafe(v1.rooms, v1.trace, user, asked);
    WelcomeHeard(v1.net, user, NewRoom(v1.rooms.nextId, user, asked));
    PostsKeep();
    OpenMap(v1.rooms, user, asked);
  }

  lemma LeaveRooms(v: View, user: i32)
    ensures Leave(v, user).rooms == RemoveUser(v.rooms, user).0 && Leave(v, user).trace == v.trace
    ensures Leave(v, user).rooms.nextId == v.rooms.nextId
  {
    RemovalShrinks(v.rooms, user);
  }

  lemma OpenMap(r: Rooms, user: i32, asked: Match)
    ensures OpenRoom(r, user, asked).userToMatch == r.userToMatch[user as int := r.nextId]
  {
  }

  lemma UserIsPositive(net: Net, user: i32)
    requires NetInv(net) && user in net.tokens
    ensures user > 0
  {
  }

  lemma JoinKeeps(v: View, user: i32, wanted: i32, password: bytes)
    requires Inv(v) && user in v.net.tokens
    ensures Inv(DoJoin(v, user, wanted, password)) && DoJoin(v, user, wanted, password).net.tokens == v.net.tokens
  {
    hide NetInv; hide RoomsInv; hide RemoveUser; hide Leave; hide Welcome; hide Post; hide CanJoin; hide SitDown;
    var id: u16 := wanted % 0x1_0000;
    PostsKeep();
    if CanJoin(v.rooms, id, password) {
      LeaveKeepsInv(v, user);
      LeaveRooms(v, user);
      var v1 := Leave(v, user);
      UserIsPositive(v.net, user);
      if id in v1.rooms.matches {
        StillOpen(v.rooms, user, id, password);
        EnterSafe(v1.rooms, v1.trace, user, id);
        WelcomeHeard(v1.net, user, Enter(v1.rooms, user, id).matches[id]);
      }
    }
  }

  lemma PartKeeps(v: View, user: i32)
    requires Inv(v)
    ensures Inv(DoPart(v, user)) && DoPart(v, user).net.tokens == v.net.tokens
  {
    hide Inv; hide Leave; hide DoFinish; hide RemoveUser;
    LeaveKeepsInv(v, user);
    match RemoveUser(v.rooms, user).1
    case None =>
    case Some(g) =>
      FinishStays(Leave(v, user), g.id);
      StayingKeeps(Leave(v, user), DoFinish(Leave(v, user), g.id));
  }

  // ---------- spectators, lobby, channels ----------

  lemma StopSpectatingKeeps(v: View, user: i32)
    requires Inv(v)
    ensures Inv(DoStopSpectating(v, user)) && user !in DoStopSpectating(v, user).watch.target
    ensures DoStopSpectating(v, user).net.tokens == v.net.tokens
  {
    hide NetInv; hide RoomsInv; hide Post; hide WatchInv; hide Stop;
    PostsKeep();
    StopKeeps(v.watch, Online(v.net), user);
    StopNone(v.watch, user);
  }

  lemma StopNone(w: Watch, user: int)
    ensures Stop(w, user).1.None? <==> user !in w.target
  {
  }

  lemma StartSpectatingKeeps(v: View, user: i32, host: i32)
    requires Inv(v) && user in v.net.tokens
    ensures Inv(DoStartSpectating(v, user, host)) && DoStartSpectating(v, user, host).net.tokens == v.net.tokens
  {
    hide NetInv; hide RoomsInv; hide Post; hide WatchInv; hide PostEach; hide Enrol; hide DoStopSpectating;
    hide Spectating.Start;
    StopSpectatingKeeps(v, user);
    PostsKeep();
    var v1 := DoStopSpectating(v, user);
    if host in v1.net.tokens && host != user {
      StartKeeps(v1.watch, Online(v1.net), user, host);
      var net1 := Post(v1.net, Watchers(v1.watch, host), Packet.FellowSpectatorJoined(user));
      var list := FellowsOf(WatchersOf(v1.watch, host));
      PostEachKeeps(net1, user, list);
      var net4 := Post(Post(PostEach(net1, user, list), {host as int}, Packet.SpectatorJoined(user)),
                       {user as int}, Packet.ChannelJoinSuccess(SPECTATOR));
      EnrolKeeps(net4, user, SPECTATOR);
    }
  }

  lemma LobbyJoinKeeps(v: View, user: i32, order: seq<u16>)
    requires Inv(v) && user in v.net.tokens && forall id :: id in order ==> id in v.rooms.matches
    ensures Inv(DoLobbyJoin(v, user, order)) && DoLobbyJoin(v, user, order).net.tokens == v.net.tokens
  {
    hide RoomsInv; hide WatchInv; hide PostEach;
    PostEachKeeps(v.net.(lobby := v.net.lobby + {user}), user, Listing(v.rooms.matches, order));
  }

  lemma ArmKeeps(v: View, user: i32, arm: Arm, order: seq<u16>)
    requires Inv(v) && user in v.net.tokens && forall id :: id in order ==> id in v.rooms.matches
    ensures Inv(DoArm(v, user, arm, order)) && DoArm(v, user, arm, order).net.tokens == v.net.tokens
  {
    hide Inv; hide DoCreate; hide DoJoin; hide DoPart; hide DoStartSpectating; hide DoStopSpectating; hide DoLobbyJoin;
    hide DoRoomArm; hide Chatter;
    if arm.CreateRoom? { CreateKeeps(v, user, arm.asked); }
    else if arm.JoinRoom? { JoinKeeps(v, user, arm.id, arm.password); }
    else if arm.PartRoom? { PartKeeps(v, user); }
    else if arm.StartSpectating? { StartSpectatingKeeps(v, user, arm.host); }
    else if arm.StopSpectating? { StopSpectatingKeeps(v, user); }
    else if arm.LobbyJoin? { LobbyJoinKeeps(v, user, order); }
    else if IsChatter(arm) {
      SocialArmKeeps(v, user, arm, order);
    } else {
      RoomArmKeeps(v, user, arm);
    }
  }

  lemma SocialArmKeeps(v: View, user: i32, arm: Arm, order: seq<u16>)
    requires Inv(v) && user in v.net.tokens && forall id :: id in order ==> id in v.rooms.matches
    requires IsChatter(arm)
    ensures Inv(DoArm(v, user, arm, order)) && DoArm(v, user, arm, order).net.tokens == v.net.tokens
  {
    hide RoomsInv; hide WatchInv; hide Post; hide NetInv; hide Enrol; hide Withdraw;
    PostsKeep();
    if arm.JoinChannel? { EnrolKeeps(v.net, user, arm.channel); }
    else if arm.PartChannel? { WithdrawKeeps(v.net, user, arm.channel); }
    else if arm.LobbyPart? { LobbyPartKeeps(v.net, user); }
  }

  lemma RoomArmKeeps(v: View, user: i32, arm: Arm)
    requires Inv(v) && user in v.net.tokens
    ensures Inv(DoRoomArm(v, user, arm)) && DoRoomArm(v, user, arm).net.tokens == v.net.tokens
  {
    hide RoomsInv; hide InRoom; hide NetInv; hide StrayLoad;
    UserIsPositive(v.net, user);
    if RoomOf(v.rooms, user).Some? {
      var id := RoomOf(v.rooms, user).value;
      InRoomStays(v, user, id, arm);
      StayingKeeps(v, InRoom(v, user, id, arm));
    } else if arm.LoadComplete? {
      StrayStays(v, user);
      StayingKeeps(v, StrayLoad(v, user));
    }
  }

  lemma StrayStays(v: View, user: i32)
    requires Inv(v)
    ensures StaysSafe(v, StrayLoad(v, user))
  {
    hide NetInv; hide RoomsInv; hide Justified;
    if user in v.rooms.userToMatch {
      var id := v.rooms.userToMatch[user];
      LoadJustified(v.trace, id, user);
      RecordSafe(v.rooms, StrayLoad(v, user).rooms, v.trace, Loaded(id, user));
    }
  }

  lemma LobbyPartKeeps(net: Net, user: i32)
    requires NetInv(net)
    ensures NetInv(net.(lobby := net.lobby - {user}))
  {
  }
}
