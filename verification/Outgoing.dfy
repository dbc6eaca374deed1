/** Which packets each step sends. Whatever is already queued for a client stays queued, in order, until
    the client polls or goes; and a step adds only packets of its own kinds. */
module Outgoing {
  import opened Wrappers
  import opened BanchoTypes
  import opened Rooms
  import opened Rounds
  import opened Spectating
  import opened Network
  import opened Server

  predicate ArmSends(arm: Arm, p: Packet) {
    match arm
    case LobbyJoin => p.MatchNew?
    case CreateRoom(_) => p.MatchUpdate? || p.MatchDisband? || p.MatchJoinSuccess? || p.ChannelJoinSuccess? ||
      p.MatchNew?
    case JoinRoom(_, _) => p.MatchUpdate? || p.MatchDisband? || p.MatchJoinSuccess? || p.ChannelJoinSuccess? ||
      p.MatchJoinFail?
    case PartRoom => p.MatchUpdate? || p.MatchDisband? || p.MatchComplete? || p.RoundConcluded?
    case ChangeTeam => p.MatchUpdate? || p.MatchComplete? || p.RoundConcluded?
    case CompleteRound => p.MatchUpdate? || p.MatchComplete? || p.RoundConcluded?
    case ChangeHost(_) => p.MatchUpdate? || p.MatchTransferHost?
    case StartRound(_) => p.MatchUpdate? || p.MatchStart?
    case LoadComplete => p.MatchAllPlayersLoaded?
    case ScoreUpdate(_, _) => p.MatchScoreUpdate?
    case Failed => p.MatchPlayerFailed?
    case SkipRequest => p.MatchPlayerSkipped?
    case StartSpectating(_) => p.SpectatorLeft? || p.FellowSpectatorLeft? || p.FellowSpectatorJoined? ||
      p.SpectatorJoined? || p.ChannelJoinSuccess?
    case StopSpectating => p.SpectatorLeft? || p.FellowSpectatorLeft?
    case SpectateFrames(_) => p.SpectateFrames?
    case CantSpectate => p.SpectatorCantSpectate?
    case JoinChannel(_) => p.ChannelJoinSuccess?
    case PartChannel(_) => p.ChannelPart?
    case LobbyPart => false
    case _ => p.MatchUpdate?
  }

  // What a departure sends.
  predicate FarewellPacket(p: Packet) {
    p.MatchUpdate? || p.MatchDisband? || p.SpectatorLeft? || p.FellowSpectatorLeft?
  }

  predicate Sends(a: Action, p: Packet) {
    match a
    case From(_, arm) => ArmSends(arm, p)
    case Login(_, _, _, presence, stats) => FarewellPacket(p) || p == presence || p == stats
    case Disconnect(_, _) => FarewellPacket(p) || p.UserQuit?
    case Poll(_) => false
    case Tell(_, q) => p == q
    case TellAll(q) => p == q
    case TellChannel(_, q, _) => p == q
  }

  // Every session that is still there has its queue extended by packets the action sends.
  ghost predicate Extends(before: seq<Packet>, after: seq<Packet>, a: Action) {
    before <= after && forall i :: |before| <= i < |after| ==> Sends(a, after[i])
  }

  ghost predicate Adds(net0: Net, net: Net, a: Action) {
    && net.sessions.Keys <= net0.sessions.Keys
    && forall t :: t in net.sessions ==> Extends(net0.sessions[t].queue, net.sessions[t].queue, a)
  }

  lemma NothingAdded(net: Net, a: Action)
    ensures Adds(net, net, a)
  {
  }

  lemma PushExtends(before: seq<Packet>, s: Session, p: Packet, a: Action)
    requires Extends(before, s.queue, a) && Sends(a, p)
    ensures Extends(before, Push(s, p).queue, a)
  {
    hide Sends;
  }

  lemma PostAdds(net0: Net, net: Net, who: set<int>, p: Packet, a: Action)
    requires Adds(net0, net, a) && Sends(a, p)
    ensures Adds(net0, Post(net, who, p), a)
  {
    hide Sends; hide Extends; hide Push;
    forall t | t in net.sessions ensures Extends(net0.sessions[t].queue, Push(net.sessions[t], p).queue, a) {
      PushExtends(net0.sessions[t].queue, net.sessions[t], p, a);
    }
  }

  lemma PostAllAdds(net0: Net, net: Net, p: Packet, a: Action)
    requires Adds(net0, net, a) && Sends(a, p)
    ensures Adds(net0, PostAll(net, p), a)
  {
    hide Sends; hide Extends; hide Push;
    forall t | t in net.sessions ensures Extends(net0.sessions[t].queue, Push(net.sessions[t], p).queue, a) {
      PushExtends(net0.sessions[t].queue, net.sessions[t], p, a);
    }
  }

  lemma PostsAdd(net0: Net, a: Action)
    ensures forall net, who, p {:trigger Post(net, who, p)} ::
      Adds(net0, net, a) && Sends(a, p) ==> Adds(net0, Post(net, who, p), a)
  {
    forall net, who, p | Adds(net0, net, a) && Sends(a, p) ensures Adds(net0, Post(net, who, p), a) {
      PostAdds(net0, net, who, p, a);
    }
  }

  lemma {:induction false} PostEachAdds(net0: Net, net: Net, user: int, ps: seq<Packet>, a: Action)
    requires Adds(net0, net, a) && forall i :: 0 <= i < |ps| ==> Sends(a, ps[i])
    ensures Adds(net0, PostEach(net, user, ps), a)
  {
    hide Sends; hide Adds; hide Post;
    if ps != [] {
      PostEachAdds(net0, net, user, ps[..|ps| - 1], a);
      PostAdds(net0, PostEach(net, user, ps[..|ps| - 1]), {user}, ps[|ps| - 1], a);
    }
  }

  // Channels, the lobby and departures touch no queue of those who stay.
  lemma EnrolAdds(net0: Net, net: Net, user: i32, channel: bytes, a: Action)
    requires Adds(net0, net, a)
    ensures Adds(net0, Enrol(net, user, channel), a) && Adds(net0, Withdraw(net, user, channel), a)
  {
    hide Extends;
  }

  lemma SameSessionsAdd(net0: Net, net: Net, net': Net, a: Action)
    requires Adds(net0, net, a) && net'.sessions == net.sessions
    ensures Adds(net0, net', a)
  {
  }

  lemma DropAdds(net0: Net, net: Net, user: i32, a: Action)
    requires Adds(net0, net, a)
    ensures Adds(net0, DropSession(net, user), a) && Adds(net0, LeaveChannels(net, user), a)
  {
    hide Extends;
  }

  // ---------- rooms ----------

  ghost predicate SendsUpdates(a: Action) {
    forall m: Match :: Sends(a, Packet.MatchUpdate(m))
  }

  ghost predicate SendsDisbands(a: Action) {
    forall id: u16 :: Sends(a, Packet.MatchDisband(id))
  }

  lemma FarewellAdds(net0: Net, net: Net, gone: Option<Removal>, a: Action)
    requires Adds(net0, net, a) && SendsUpdates(a) && SendsDisbands(a)
    ensures Adds(net0, Farewell(net, gone), a)
  {
    hide Adds; hide Post; hide Sends;
    PostsAdd(net0, a);
  }

  lemma LeaveAdds(net0: Net, v: View, user: i32, a: Action)
    requires Adds(net0, v.net, a) && SendsUpdates(a) && SendsDisbands(a)
    ensures Adds(net0, Leave(v, user).net, a)
  {
    hide Adds; hide RemoveUser; hide Sends; hide Farewell;
    FarewellAdds(net0, v.net, RemoveUser(v.rooms, user).1, a);
  }

  lemma WelcomeAdds(net0: Net, net: Net, user: i32, m: Match, a: Action)
    requires Adds(net0, net, a) && Sends(a, Packet.MatchJoinSuccess(m)) &&
      Sends(a, Packet.ChannelJoinSuccess(MULTIPLAYER))
    ensures Adds(net0, Welcome(net, user, m), a)
  {
    hide Adds; hide Post; hide Enrol; hide Sends;
    PostsAdd(net0, a);
    var net1 := Post(Post(net, {user as int}, Packet.MatchJoinSuccess(m)), {user as int},
      Packet.ChannelJoinSuccess(MULTIPLAYER));
    EnrolAdds(net0, net1, user, MULTIPLAYER, a);
  }

  lemma CreateAdds(v: View, user: i32, asked: Match)
    ensures Adds(v.net, DoCreate(v, user, asked).net, From(user, CreateRoom(asked)))
  {
    hide Adds; hide Post; hide Leave; hide Welcome; hide NewRoom; hide OpenRoom;
    var a := From(user, CreateRoom(asked));
    NothingAdded(v.net, a);
    LeaveAdds(v.net, v, user, a);
    var v1 := Leave(v, user);
    WelcomeAdds(v.net, v1.net, user, NewRoom(v1.rooms.nextId, user, asked), a);
    PostsAdd(v.net, a);
  }

  lemma JoinAdds(v: View, user: i32, wanted: i32, password: bytes)
    ensures Adds(v.net, DoJoin(v, user, wanted, password).net, From(user, JoinRoom(wanted, password)))
  {
    hide Adds; hide Post; hide Leave; hide Welcome; hide CanJoin; hide SitDown;
    var a := From(user, JoinRoom(wanted, password));
    var id: u16 := wanted % 0x1_0000;
    NothingAdded(v.net, a);
    LeaveAdds(v.net, v, user, a);
    PostsAdd(v.net, a);
    var v1 := Leave(v, user);
    if id in v1.rooms.matches {
      WelcomeAdds(v.net, v1.net, user, Enter(v1.rooms, user, id).matches[id], a);
    }
  }

  // ---------- rounds ----------

  ghost predicate SendsResults(a: Action) {
    SendsUpdates(a) && Sends(a, Packet.MatchComplete) && forall o: Outcome :: Sends(a, Packet.RoundConcluded(o))
  }

  lemma FinishAdds(net0: Net, v: View, id: u16, a: Action)
    requires Adds(net0, v.net, a) && SendsResults(a)
    ensures Adds(net0, DoFinish(v, id).net, a)
  {
    hide Adds; hide Post; hide Close; hide Closed; hide NamesOf; hide Members; hide ShouldFinish; hide Sends;
    PostsAdd(net0, a);
  }

  lemma PartAdds(v: View, user: i32)
    ensures Adds(v.net, DoPart(v, user).net, From(user, PartRoom))
  {
    hide Adds; hide Leave; hide DoFinish; hide RemoveUser;
    var a := From(user, PartRoom);
    NothingAdded(v.net, a);
    LeaveAdds(v.net, v, user, a);
    match RemoveUser(v.rooms, user).1
    case None =>
    case Some(g) => FinishAdds(v.net, Leave(v, user), g.id, a);
  }

  lemma ShowAdds(net0: Net, v: View, id: u16, m: Match, lobbyToo: bool, a: Action)
    requires Adds(net0, v.net, a) && SendsUpdates(a)
    ensures Adds(net0, Show(v, id, m, lobbyToo).net, a)
  {
    hide Adds; hide Post; hide Sends;
    PostsAdd(net0, a);
  }

  lemma ClosingAdds(v: View, user: i32, id: u16, arm: Arm)
    requires id in v.rooms.matches && (arm.ChangeTeam? || arm.CompleteRound?)
    ensures Adds(v.net, InRoom(v, user, id, arm).net, From(user, arm))
  {
    hide Adds; hide Show; hide DoFinish; hide WithTeam; hide WithOwnStatus;
    var a := From(user, arm);
    var m := v.rooms.matches[id];
    NothingAdded(v.net, a);
    assert SendsResults(a);
    if arm.ChangeTeam? {
      if WithTeam(m, user).Some? {
        ShowAdds(v.net, v, id, WithTeam(m, user).value, false, a);
        FinishAdds(v.net, Show(v, id, WithTeam(m, user).value, false), id, a);
      }
    } else {
      FinishAdds(v.net, v.(rooms := WithRoom(v.rooms, id, WithOwnStatus(m, user, SLOT_COMPLETE).GetOr(m))), id, a);
    }
  }

  // Arms that only show a changed room.
  lemma ShowingAdds(v: View, user: i32, id: u16, arm: Arm)
    requires id in v.rooms.matches
    requires arm.ChangeSlot? || arm.SetReady? || arm.SetNotReady? || arm.NoBeatmap? || arm.HasBeatmap? ||
      arm.Lock? || arm.ChangeSettings? || arm.ChangeMods?
    ensures Adds(v.net, InRoom(v, user, id, arm).net, From(user, arm))
  {
    hide Adds; hide Show; hide MovedTo; hide WithOwnStatus; hide WithLock; hide WithSettings; hide WithMods;
    var a := From(user, arm);
    NothingAdded(v.net, a);
    assert SendsUpdates(a);
    forall m, lobbyToo ensures Adds(v.net, Show(v, id, m, lobbyToo).net, a) { ShowAdds(v.net, v, id, m, lobbyToo, a); }
  }

  // Arms that send a signal of their own kind.
  lemma SignalAdds(v: View, user: i32, id: u16, arm: Arm)
    requires id in v.rooms.matches
    requires arm.ChangeHost? || arm.StartRound? || arm.LoadComplete? || arm.ScoreUpdate? || arm.Failed? ||
      arm.SkipRequest?
    ensures Adds(v.net, InRoom(v, user, id, arm).net, From(user, arm))
  {
    hide Adds; hide Post; hide WithHost; hide Started; hide Occupants; hide PlayingUsers;
    NothingAdded(v.net, From(user, arm));
    PostsAdd(v.net, From(user, arm));
  }

  lemma InRoomAdds(v: View, user: i32, id: u16, arm: Arm)
    requires id in v.rooms.matches && InsideArm(arm)
    ensures Adds(v.net, InRoom(v, user, id, arm).net, From(user, arm))
  {
    hide InRoom;
    if arm.ChangeTeam? || arm.CompleteRound? { ClosingAdds(v, user, id, arm); }
    else if arm.ChangeHost? || arm.StartRound? || arm.LoadComplete? || arm.ScoreUpdate? || arm.Failed? ||
      arm.SkipRequest? {
      SignalAdds(v, user, id, arm);
    } else { ShowingAdds(v, user, id, arm); }
  }

  predicate InsideArm(arm: Arm) {
    && !IsChatter(arm) && !arm.LobbyJoin? && !arm.CreateRoom? && !arm.JoinRoom? && !arm.PartRoom?
    && !arm.StartSpectating? && !arm.StopSpectating?
  }

  // ---------- spectators, lobby, channels ----------

  lemma StopAdds(net0: Net, v: View, user: i32, a: Action)
    requires Adds(net0, v.net, a) && Sends(a, Packet.SpectatorLeft(user)) && Sends(a, Packet.FellowSpectatorLeft(user))
    ensures Adds(net0, DoStopSpectating(v, user).net, a)
  {
    hide Adds; hide Post; hide Stop; hide Sends;
    PostsAdd(net0, a);
  }

  lemma WatchAdds(v: View, user: i32, host: i32)
    ensures Adds(v.net, DoStartSpectating(v, user, host).net, From(user, Arm.StartSpectating(host)))
  {
    hide Adds; hide Post; hide PostEach; hide Enrol; hide DoStopSpectating; hide Start;
    var a := From(user, Arm.StartSpectating(host));
    NothingAdded(v.net, a);
    StopAdds(v.net, v, user, a);
    PostsAdd(v.net, a);
    var v1 := DoStopSpectating(v, user);
    var list := WatchersOf(v1.watch, host);
    var net1 := Post(v1.net, Watchers(v1.watch, host), Packet.FellowSpectatorJoined(user));
    PostEachAdds(v.net, net1, user, FellowsOf(list), a);
    var net4 := Post(Post(PostEach(net1, user, FellowsOf(list)), {host as int}, Packet.SpectatorJoined(user)),
                     {user as int}, Packet.ChannelJoinSuccess(SPECTATOR));
    EnrolAdds(v.net, net4, user, SPECTATOR, a);
  }

  lemma ChatterAdds(v: View, user: i32, arm: Arm)
    requires IsChatter(arm)
    ensures Adds(v.net, Chatter(v, user, arm).net, From(user, arm))
  {
    hide Adds; hide Post; hide Enrol; hide Withdraw;
    var a := From(user, arm);
    NothingAdded(v.net, a);
    PostsAdd(v.net, a);
    if arm.JoinChannel? { EnrolAdds(v.net, v.net, user, arm.channel, a); }
    else if arm.PartChannel? { EnrolAdds(v.net, v.net, user, arm.channel, a); }
    else if arm.LobbyPart? { SameSessionsAdd(v.net, v.net, Chatter(v, user, arm).net, a); }
  }

  lemma ListingAdds(v: View, user: i32, order: seq<u16>)
    requires forall id :: id in order ==> id in v.rooms.matches
    ensures Adds(v.net, DoLobbyJoin(v, user, order).net, From(user, Arm.LobbyJoin))
  {
    hide Adds; hide PostEach;
    var a := From(user, Arm.LobbyJoin);
    NothingAdded(v.net, a);
    SameSessionsAdd(v.net, v.net, v.net.(lobby := v.net.lobby + {user}), a);
    PostEachAdds(v.net, v.net.(lobby := v.net.lobby + {user}), user, Listing(v.rooms.matches, order), a);
  }

  lemma ArmAdds(v: View, user: i32, arm: Arm, order: seq<u16>)
    requires forall id :: id in order ==> id in v.rooms.matches
    ensures Adds(v.net, DoArm(v, user, arm, order).net, From(user, arm))
  {
    hide Adds; hide DoCreate; hide DoJoin; hide DoPart; hide DoStartSpectating; hide DoStopSpectating;
    hide DoLobbyJoin; hide Chatter; hide InRoom;
    NothingAdded(v.net, From(user, arm));
    if arm.LobbyJoin? { ListingAdds(v, user, order); }
    else if arm.CreateRoom? { CreateAdds(v, user, arm.asked); }
    else if arm.JoinRoom? { JoinAdds(v, user, arm.id, arm.password); }
    else if arm.PartRoom? { PartAdds(v, user); }
    else if arm.StartSpectating? { WatchAdds(v, user, arm.host); }
    else if arm.StopSpectating? { StopAdds(v.net, v, user, From(user, arm)); }
    else if IsChatter(arm) { ChatterAdds(v, user, arm); }
    else if RoomOf(v.rooms, user).Some? { InRoomAdds(v, user, RoomOf(v.rooms, user).value, arm); }
  }

  // ---------- sessions ----------

  lemma DropUserAdds(v: View, user: i32, a: Action)
    requires forall p :: FarewellPacket(p) ==> Sends(a, p)
    ensures Adds(v.net, DropUser(v, user).net, a)
  {
    hide Adds; hide Post; hide DropSession; hide LeaveChannels; hide Leave; hide DoStopSpectating;
    hide DropHost; hide Sends;
    NothingAdded(v.net, a);
    DropAdds(v.net, v.net, user, a);
    PostsAdd(v.net, a);
    var v0 := v.(net := DropSession(v.net, user));
    assert SendsUpdates(a) && SendsDisbands(a);
    LeaveAdds(v.net, v0, user, a);
    StopAdds(v.net, Leave(v0, user), user, a);
    var v2 := DoStopSpectating(Leave(v0, user), user);
    DropAdds(v.net, Post(v2.net, Watchers(v2.watch, user), Packet.SpectatorLeft(user)), user, a);
  }

  // The queue of a session that is there before and after a step only grows, and only by packets the
  // step sends, unless its owner polls.
  ghost predicate QueuesGrow(v: View, a: Action, v': View) {
    forall t :: t in v.net.sessions && t in v'.net.sessions && !(a.Poll? && v.net.sessions[t].user == a.user) ==>
      Extends(v.net.sessions[t].queue, v'.net.sessions[t].queue, a)
  }

  lemma AddsGrows(v: View, a: Action, v': View)
    requires Adds(v.net, v'.net, a)
    ensures QueuesGrow(v, a, v')
  {
    hide Extends;
  }

  lemma LoginGrows(v: View, user: i32, token: Token, name: bytes, presence: Packet, stats: Packet)
    requires token !in v.net.sessions
    ensures var a := Login(user, token, name, presence, stats);
      QueuesGrow(v, a, DoLogin(v, user, token, name, presence, stats))
  {
    hide DropUser; hide PostAll; hide Extends; hide JoinStartChannel;
    var a := Login(user, token, name, presence, stats);
    DropUserAdds(v, user, a);
    var v1 := DropUser(v, user);
    var net1 := JoinStartChannel(JoinStartChannel(v1.net, user, OSU), user, ANNOUNCE);
    assert net1.sessions == v1.net.sessions by { JoinsKeep(v1.net, user); }
    SameSessionsAdd(v.net, v1.net, net1, a);
    PostAllAdds(v.net, net1, presence, a);
    PostAllAdds(v.net, PostAll(net1, presence), stats, a);
  }

  lemma JoinsKeep(net: Net, user: i32)
    ensures JoinStartChannel(JoinStartChannel(net, user, OSU), user, ANNOUNCE).sessions == net.sessions
  {
  }

  // A step that is neither a login nor a poll adds no session and empties no queue.
  lemma StepAdds(v: View, a: Action, v': View)
    requires Step(v, a, v') && !a.Login? && !a.Poll?
    ensures Adds(v.net, v'.net, a)
  {
    hide DoArm; hide DropUser; hide Post; hide PostAll; hide Members; hide Adds;
    NothingAdded(v.net, a);
    PostsAdd(v.net, a);
    match a
    case From(user, arm) =>
      var order :| GoodOrder(v.rooms, order) && v' == DoArm(v, user, arm, order);
      ArmAdds(v, user, arm, order);
    case Disconnect(user, how) =>
      DropUserAdds(v, user, a);
      PostAllAdds(v.net, DropUser(v, user).net, Packet.UserQuit(user, how), a);
    case Tell(user, p) =>
    case TellAll(p) => PostAllAdds(v.net, v.net, p, a);
    case TellChannel(c, p, except) =>
  }

  // Every step sends packets of its own kinds only, and loses or reorders nothing.
  lemma StepsOnlyAdd(v: View, a: Action, v': View)
    requires Step(v, a, v')
    ensures QueuesGrow(v, a, v')
  {
    hide DoArm; hide DoLogin; hide DoDisconnect; hide Post; hide PostAll; hide QueuesGrow; hide Adds;
    match a
    case Login(user, token, name, presence, stats) => LoginGrows(v, user, token, name, presence, stats);
    case Poll(user) => PollLeavesOthers(v, user);
    case _ => StepAdds(v, a, v'); AddsGrows(v, a, v');
  }

  lemma PollLeavesOthers(v: View, user: i32)
    ensures QueuesGrow(v, Poll(user), DoPoll(v, user))
  {
  }

  // What was queued under a token before a step.
  function QueueOf(net: Net, t: Token): seq<Packet> {
    if t in net.sessions then net.sessions[t].queue else []
  }

  // What the arms outside this model, for which Tell and the packets of a login stand, never send: no code
  // but that of LOAD_COMPLETE builds the all-players-loaded packet.
  predicate Builds(a: Action) {
    match a
    case Tell(_, p) => p != Packet.MatchAllPlayersLoaded
    case TellAll(p) => p != Packet.MatchAllPlayersLoaded
    case TellChannel(_, p, _) => p != Packet.MatchAllPlayersLoaded
    case Login(_, _, _, presence, stats) =>
      presence != Packet.MatchAllPlayersLoaded && stats != Packet.MatchAllPlayersLoaded
    case _ => true
  }

  // Every all-players-loaded packet that a step puts behind what was queued, whatever was queued and
  // also for a session the step adds, comes from a LOAD_COMPLETE.
  lemma OnlyLoadsAnnounce(v: View, a: Action, v': View, t: Token, i: nat)
    requires Step(v, a, v') && t in v'.net.sessions
    requires |QueueOf(v.net, t)| <= i < |v'.net.sessions[t].queue|
    requires v'.net.sessions[t].queue[i] == Packet.MatchAllPlayersLoaded
    requires Builds(a)
    ensures a.From? && a.arm.LoadComplete?
  {
    hide Step;
    StepsOnlyAdd(v, a, v');
    if t !in v.net.sessions {
      NewcomersWait(v, a, v', t);
    } else if a.Poll? && v.net.sessions[t].user == a.user {
      PollEmpties(v, a.user, v', t);
    } else {
      assert Extends(v.net.sessions[t].queue, v'.net.sessions[t].queue, a);
      assert Sends(a, v'.net.sessions[t].queue[i]);
    }
  }

  // A session that a step adds starts with an empty queue.
  lemma NewcomersWait(v: View, a: Action, v': View, t: Token)
    requires Step(v, a, v') && t !in v.net.sessions && t in v'.net.sessions
    ensures a.Login? && a.token == t && v'.net.sessions[t].queue == []
  {
    hide DropUser; hide PostAll; hide JoinStartChannel; hide Extends;
    match a
    case Login(user, token, name, presence, stats) =>
      var net1 := JoinStartChannel(JoinStartChannel(DropUser(v, user).net, user, OSU), user, ANNOUNCE);
      DropUserAdds(v, user, a);
      JoinsKeep(DropUser(v, user).net, user);
      NothingAdded(net1, a);
      PostAllAdds(net1, net1, presence, a);
      PostAllAdds(net1, PostAll(net1, presence), stats, a);
    case Poll(user) =>
    case _ => StepAdds(v, a, v');
  }

  lemma PollEmpties(v: View, user: i32, v': View, t: Token)
    requires Step(v, Poll(user), v') && t in v.net.sessions && v.net.sessions[t].user == user
    ensures t in v'.net.sessions && v'.net.sessions[t].queue == []
  {
  }
}
