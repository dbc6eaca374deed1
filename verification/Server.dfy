/** The whole server state as a value, and the effect on it of each packet a client may send,
    of a login and of a disconnect. */
module Server {
  import opened Wrappers
  import opened BanchoTypes
  import opened Rooms
  import opened Rounds
  import opened Spectating
  import opened Network

  datatype View = View(net: Net, rooms: Rooms, watch: Watch, trace: seq<Event>)

  const START := View(START_NET, NO_ROOMS, NO_ONE_WATCHING, [])

  datatype Arm =
    | LobbyJoin
    | LobbyPart
    | CreateRoom(asked: Match)
    | JoinRoom(id: i32, password: bytes)
    | PartRoom
    | ChangeSlot(target: i32)
    | SetReady
    | SetNotReady
    | NoBeatmap
    | HasBeatmap
    | Lock(target: i32)
    | ChangeSettings(asked: Match)
    | ChangeMods(mods: u32)
    | ChangeTeam
    | ChangeHost(target: i32)
    | StartRound(now: int)
    | LoadComplete
    | ScoreUpdate(payload: bytes, frame: Frame)
    | Failed
    | SkipRequest
    | CompleteRound
    | StartSpectating(host: i32)
    | StopSpectating
    | SpectateFrames(raw: bytes)
    | CantSpectate
    | JoinChannel(channel: bytes)
    | PartChannel(channel: bytes)

  datatype Action =
    | From(user: i32, arm: Arm)
    | Login(user: i32, token: Token, name: bytes, presence: Packet, stats: Packet)
    | Disconnect(user: i32, how: u8)
    | Poll(user: i32)
    | Tell(user: i32, packet: Packet)                  // any arm that only answers its sender
    | TellAll(packet: Packet)                          // any arm that only broadcasts
    | TellChannel(channel: bytes, packet: Packet, except: i32)

  // ---------- rooms ----------

  // Everyone concerned hears that a user left a room.
  function Farewell(net: Net, gone: Option<Removal>): Net {
    match gone
    case None => net
    case Some(g) =>
      if g.disbanded then Post(net, net.lobby, Packet.MatchDisband(g.id))
      else
        var net1 := Post(net, Occupants(g.room.slots), Packet.MatchUpdate(g.room));
        Post(net1, net1.lobby, Packet.MatchUpdate(g.room))
  }

  function Leave(v: View, user: i32): View {
    var (rooms, gone) := RemoveUser(v.rooms, user);
    v.(rooms := rooms, net := Farewell(v.net, gone))
  }

  function Welcome(net: Net, user: i32, m: Match): Net {
    var net1 := Post(net, {user as int}, Packet.MatchJoinSuccess(m));
    Enrol(Post(net1, {user as int}, Packet.ChannelJoinSuccess(MULTIPLAYER)), user, MULTIPLAYER)
  }

  function DoCreate(v: View, user: i32, asked: Match): View {
    Found(Leave(v, user), user, asked)
  }

  // The user, now in no room, founds one.
  function Found(v: View, user: i32, asked: Match): View {
    var id := v.rooms.nextId;
    var m := NewRoom(id, user, asked);
    var net := Welcome(v.net, user, m);
    v.(rooms := OpenRoom(v.rooms, user, asked),
       net := Post(net, net.lobby, Packet.MatchNew(m)),
       trace := v.trace + [Opened(id)])
  }

  function DoJoin(v: View, user: i32, wanted: i32, password: bytes): View {
    var id: u16 := wanted % 0x1_0000;
    if !CanJoin(v.rooms, id, password) then v.(net := Post(v.net, {user as int}, Packet.MatchJoinFail)) else
    var v1 := Leave(v, user);
    if id !in v1.rooms.matches then v1 else
    var rooms := Enter(v1.rooms, user, id);
    var m := rooms.matches[id];
    var net := Welcome(v1.net, user, m);
    var net2 := Post(net, Occupants(m.slots) - {user as int}, Packet.MatchUpdate(m));
    v1.(rooms := rooms, net := Post(net2, net2.lobby, Packet.MatchUpdate(m)))
  }

  // The room shown to its people and the lobby, then the result announced in the chat channel.
  function ResultNet(net: Net, m: Match, outcome: Outcome): Net {
    var net1 := Post(net, Occupants(m.slots), Packet.MatchUpdate(m));
    var net2 := Post(net1, net1.lobby, Packet.MatchUpdate(m));
    if outcome.teamVs || outcome.best.name != Known([])
    then Post(net2, Members(net2, MULTIPLAYER), Packet.RoundConcluded(outcome)) else net2
  }

  function EndRound(v: View, id: u16): View
    requires id in v.rooms.matches
  {
    var r := v.rooms;
    var m := r.matches[id];
    var outcome := Close(m, ScoresOf(r, id), NamesOf(v.net));
    v.(rooms := r.(matches := r.matches[id := Closed(m)], startTimes := r.startTimes - {id},
                   lastScores := r.lastScores - {id}, loaded := r.loaded - {id}),
       net := ResultNet(Post(v.net, Occupants(m.slots), Packet.MatchComplete), Closed(m), outcome),
       trace := v.trace + [Ended(id, outcome)])
  }

  function DoFinish(v: View, id: u16): View {
    if id !in v.rooms.matches || !v.rooms.matches[id].inProgress || !ShouldFinish(v.rooms.matches[id]) then v
    else EndRound(v, id)
  }

  function DoPart(v: View, user: i32): View {
    var v1 := Leave(v, user);
    match RemoveUser(v.rooms, user).1
    case None => v1
    case Some(g) => if g.disbanded then v1 else DoFinish(v1, g.id)
  }

  // The sender's room becomes m', and its people, and sometimes the lobby, see it.
  function Show(v: View, id: u16, m': Match, lobbyToo: bool): View {
    var net := Post(v.net, Occupants(m'.slots), Packet.MatchUpdate(m'));
    v.(rooms := WithRoom(v.rooms, id, m'),
       net := if lobbyToo then Post(net, net.lobby, Packet.MatchUpdate(m')) else net)
  }

  function ShowIf(v: View, id: u16, m': Option<Match>, lobbyToo: bool): View {
    if m'.Some? then Show(v, id, m'.value, lobbyToo) else v
  }

  function DoTeam(v: View, user: i32, id: u16, m: Match): View {
    var m' := WithTeam(m, user);
    if m'.Some? then DoFinish(Show(v, id, m'.value, false), id) else v
  }

  function DoHost(v: View, user: i32, id: u16, m: Match, target: int): View {
    match WithHost(m, user, target)
    case None => v
    case Some(m') => Show(v.(net := Post(v.net, {m'.host as int}, Packet.MatchTransferHost)), id, m', true)
  }

  function DoStart(v: View, user: i32, id: u16, m: Match, now: int): View {
    match Started(m, user)
    case None => v
    case Some(m') => BeginRound(v, id, m', now)
  }

  function BeginRound(v: View, id: u16, m: Match, now: int): View {
    var net := Post(v.net, Occupants(m.slots), Packet.MatchStart(m));
    var r := WithRoom(v.rooms, id, m);
    v.(rooms := r.(startTimes := r.startTimes[id := now], lastScores := r.lastScores[id := map[]],
                   loaded := r.loaded[id := {}]),
       net := Post(net, net.lobby, Packet.MatchUpdate(m)),
       trace := v.trace + [Began(id)])
  }

  function DoLoad(v: View, user: i32, id: u16, m: Match): View {
    var loaded := LoadedOf(v.rooms, id) + {user as int};
    var v1 := v.(rooms := v.rooms.(loaded := v.rooms.loaded[id := loaded]),
                 trace := v.trace + [Loaded(id, user)]);
    var playing := PlayingUsers(m.slots);
    if playing <= loaded
    then v1.(net := Post(v1.net, Occupants(m.slots), Packet.MatchAllPlayersLoaded),
             trace := v1.trace + [AllLoaded(id, playing)])
    else v1
  }

  function DoScore(v: View, user: i32, id: u16, m: Match, payload: bytes, frame: Frame): View {
    match FirstUser(m.slots, user)
    case None => v
    case Some(i) =>
      if |payload| <= 4 then v else
      var kept := frame.(slotId := i);
      v.(rooms := v.rooms.(lastScores := v.rooms.lastScores[id := ScoresOf(v.rooms, id)[user := kept]]),
         net := Post(v.net, Occupants(m.slots), Packet.MatchScoreUpdate(payload[4 := i])),
         trace := v.trace + [Scored(id, user, kept)])
  }

  function DoComplete(v: View, user: i32, id: u16, m: Match): View {
    var m' := WithOwnStatus(m, user, SLOT_COMPLETE).GetOr(m);
    DoFinish(v.(rooms := WithRoom(v.rooms, id, m')), id)
  }

  function DoNotice(v: View, user: i32, m: Match, failed: bool): View {
    match FirstUser(m.slots, user)
    case None => v
    case Some(i) =>
      v.(net := Post(v.net, Occupants(m.slots), if failed then Packet.MatchPlayerFailed(i)
        else Packet.MatchPlayerSkipped(i)))
  }

  function InRoom(v: View, user: i32, id: u16, arm: Arm): View
    requires id in v.rooms.matches
  {
    var m := v.rooms.matches[id];
    match arm
    case ChangeSlot(target) => ShowIf(v, id, MovedTo(m, user, target), true)
    case SetReady => ShowIf(v, id, WithOwnStatus(m, user, SLOT_READY), true)
    case SetNotReady => ShowIf(v, id, WithOwnStatus(m, user, SLOT_NOT_READY), true)
    case NoBeatmap => ShowIf(v, id, WithOwnStatus(m, user, SLOT_NO_MAP), false)
    case HasBeatmap => ShowIf(v, id, WithOwnStatus(m, user, SLOT_NOT_READY), false)
    case Lock(target) => ShowIf(v, id, WithLock(m, user, target), true)
    case ChangeSettings(asked) => ShowIf(v, id, WithSettings(m, user, asked), true)
    case ChangeMods(mods) => ShowIf(v, id, WithMods(m, user, mods), false)
    case ChangeTeam => DoTeam(v, user, id, m)
    case ChangeHost(target) => DoHost(v, user, id, m, target)
    case StartRound(now) => DoStart(v, user, id, m, now)
    case LoadComplete => DoLoad(v, user, id, m)
    case ScoreUpdate(payload, frame) => DoScore(v, user, id, m, payload, frame)
    case CompleteRound => DoComplete(v, user, id, m)
    case Failed => DoNotice(v, user, m, true)
    case SkipRequest => DoNotice(v, user, m, false)
    case _ => v
  }

  // ---------- spectators, channels, lobby ----------

  function Watchers(w: Watch, host: int): set<int> {
    Elements(WatchersOf(w, host))
  }

  function DoStopSpectating(v: View, user: i32): View {
    var (watch, host) := Stop(v.watch, user);
    match host
    case None => v
    case Some(h) =>
      var net := Post(v.net, {h}, Packet.SpectatorLeft(user));
      v.(watch := watch, net := Post(net, Watchers(watch, h), Packet.FellowSpectatorLeft(user)))
  }

  function FellowsOf(list: seq<int>): seq<Packet> {
    seq(|list|, i requires 0 <= i < |list| => Packet.FellowSpectatorJoined(list[i]))
  }

  function DoStartSpectating(v: View, user: i32, host: i32): View {
    var v1 := DoStopSpectating(v, user);
    if host !in v1.net.tokens || host == user then v1 else BeginWatching(v1, user, host)
  }

  function BeginWatching(v: View, user: i32, host: i32): View {
    var net1 := Post(v.net, Watchers(v.watch, host), Packet.FellowSpectatorJoined(user));
    var net2 := PostEach(net1, user, FellowsOf(WatchersOf(v.watch, host)));
    var net3 := Post(net2, {host as int}, Packet.SpectatorJoined(user));
    var net4 := Post(net3, {user as int}, Packet.ChannelJoinSuccess(SPECTATOR));
    v.(watch := Start(v.watch, user, host), net := Enrol(net4, user, SPECTATOR))
  }

  function DoCantSpectate(v: View, user: i32): View {
    if user !in v.watch.target then v else
    var host := v.watch.target[user];
    var net := Post(v.net, {host}, Packet.SpectatorCantSpectate(user));
    v.(net := Post(net, Watchers(v.watch, host), Packet.SpectatorCantSpectate(user)))
  }

  // One packet for each open room; the order is that of a hash map's values, so it is a parameter.
  function Listing(matches: map<u16, Match>, order: seq<u16>): seq<Packet>
    requires forall id :: id in order ==> id in matches
  {
    seq(|order|, i requires 0 <= i < |order| => Packet.MatchNew(matches[order[i]]))
  }

  function DoLobbyJoin(v: View, user: i32, order: seq<u16>): View
    requires forall id :: id in order ==> id in v.rooms.matches
  {
    v.(net := PostEach(v.net.(lobby := v.net.lobby + {user}), user, Listing(v.rooms.matches, order)))
  }

  // ---------- sessions ----------

  // remove_session: the rooms, then the watched host, then the watchers, then the channels.
  function DropUser(v: View, user: i32): View {
    if user !in v.net.tokens then v else
    var v1 := Leave(v.(net := DropSession(v.net, user)), user);
    var v2 := DoStopSpectating(v1, user);
    var net := Post(v2.net, Watchers(v2.watch, user), Packet.SpectatorLeft(user));
    v2.(watch := DropHost(v2.watch, user), net := LeaveChannels(net, user))
  }

  function DoDisconnect(v: View, user: i32, how: u8): View {
    if user !in v.net.tokens then v else
    var v1 := DropUser(v, user);
    v1.(net := PostAll(v1.net, Packet.UserQuit(user, how)))
  }

  function JoinStartChannel(net: Net, user: i32, channel: bytes): Net {
    net.(channels := if channel in net.channels then net.channels[channel := net.channels[channel] + {user}]
      else net.channels)
  }

  function DoLogin(v: View, user: i32, token: Token, name: bytes, presence: Packet, stats: Packet): View {
    var v1 := DropUser(v, user);
    var net1 := JoinStartChannel(JoinStartChannel(v1.net, user, OSU), user, ANNOUNCE);
    var net2 := PostAll(PostAll(net1, presence), stats);
    v1.(net := AddSession(net2, token, Session(user, name, [], {OSU, ANNOUNCE})))
  }

  function DoPoll(v: View, user: i32): View {
    v.(net := v.net.(sessions := map t | t in v.net.sessions ::
      if v.net.sessions[t].user == user then v.net.sessions[t].(queue := []) else v.net.sessions[t]))
  }

  predicate IsChatter(arm: Arm) {
    arm.LobbyPart? || arm.SpectateFrames? || arm.CantSpectate? || arm.JoinChannel? || arm.PartChannel?
  }

  // The arms that change no room and nobody's watching.
  function Chatter(v: View, user: i32, arm: Arm): View
    requires IsChatter(arm)
  {
    match arm
    case LobbyPart => v.(net := v.net.(lobby := v.net.lobby - {user}))
    case SpectateFrames(raw) => v.(net := Post(v.net, Watchers(v.watch, user), Packet.SpectateFrames(raw)))
    case CantSpectate => DoCantSpectate(v, user)
    case JoinChannel(c) => v.(net := Post(Enrol(v.net, user, c), {user as int}, Packet.ChannelJoinSuccess(c)))
    case PartChannel(c) => v.(net := Post(Withdraw(v.net, user, c), {user as int}, Packet.ChannelPart(c)))
  }

  // ---------- one step ----------

  // One packet from a user whose token is live. order is the order in which a lobby listing is sent.
  function DoArm(v: View, user: i32, arm: Arm, order: seq<u16>): View
    requires forall id :: id in order ==> id in v.rooms.matches
  {
    match arm
    case LobbyJoin => DoLobbyJoin(v, user, order)
    case CreateRoom(asked) => DoCreate(v, user, asked)
    case JoinRoom(id, password) => DoJoin(v, user, id, password)
    case PartRoom => DoPart(v, user)
    case StartSpectating(host) => DoStartSpectating(v, user, host)
    case StopSpectating => DoStopSpectating(v, user)
    case _ => if IsChatter(arm) then Chatter(v, user, arm) else DoRoomArm(v, user, arm)
  }

  // Ignored from a user who is mapped to no room, and nearly so from one whose room is gone.
  function DoRoomArm(v: View, user: i32, arm: Arm): View {
    match RoomOf(v.rooms, user)
    case None => if arm.LoadComplete? then StrayLoad(v, user) else v
    case Some(id) => InRoom(v, user, id, arm)
  }

  // A load is noted before the room is looked up.
  function StrayLoad(v: View, user: i32): View {
    if user !in v.rooms.userToMatch then v else
    var id := v.rooms.userToMatch[user];
    v.(rooms := v.rooms.(loaded := v.rooms.loaded[id := LoadedOf(v.rooms, id) + {user as int}]),
       trace := v.trace + [Loaded(id, user)])
  }

  // Which actions can happen: packets need a live session, and a login a fresh token.
  predicate Enabled(v: View, a: Action) {
    match a
    case From(user, _) => user in v.net.tokens
    case Login(user, token, _, _, _) => user > 0 && token !in v.net.sessions
    case _ => true
  }

  // A listing names each open room once.
  ghost predicate GoodOrder(r: Rooms, order: seq<u16>) {
    && (forall id :: id in order <==> id in r.matches)
    && (forall i, j :: 0 <= i < j < |order| ==> order[i] != order[j])
  }

  ghost predicate Step(v: View, a: Action, v': View) {
    Enabled(v, a) &&
    match a
    case From(user, arm) => exists order :: GoodOrder(v.rooms, order) && v' == DoArm(v, user, arm, order)
    case Login(user, token, name, presence, stats) => v' == DoLogin(v, user, token, name, presence, stats)
    case Disconnect(user, how) => v' == DoDisconnect(v, user, how)
    case Poll(user) => v' == DoPoll(v, user)
    case Tell(user, p) => v' == v.(net := Post(v.net, {user as int}, p))
    case TellAll(p) => v' == v.(net := PostAll(v.net, p))
    case TellChannel(c, p, except) => v' == v.(net := Post(v.net, Members(v.net, c) - {except as int}, p))
  }
}
