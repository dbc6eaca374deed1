/** Who is sent what when people come and go: rooms, hosts being watched, the lobby, channels and the server
    itself. */
module Arrivals {
  import opened Wrappers
  import opened BanchoTypes
  import opened Rooms
  import opened Rounds
  import opened RoomSafety
  import opened Spectating
  import opened Network
  import opened Server
  import opened ServerSafety
  import opened RoomMoves
  import opened Inboxes

  // ---------- rooms ----------

  // What u is sent when the user leaves a room, r becoming r': those left in it and the lobby its new state,
  // or the lobby that it is gone.
  function ToldOfLeaving(r: Rooms, r': Rooms, user: int, lobby: set<i32>, u: i32): seq<Packet> {
    if user !in r.userToMatch then [] else
    var id := r.userToMatch[user];
    if id !in r.matches || !In(r.matches[id], user) then []
    else if id in r'.matches then Shown(r'.matches[id], lobby, true, u)
    else When(u in lobby, Packet.MatchDisband(id))
  }

  lemma LeavingReport(r: Rooms, user: int)
    requires SeatInv(r)
    ensures var (r', gone) := RemoveUser(r, user);
      && (gone.Some? <==>
            user in r.userToMatch && r.userToMatch[user] in r.matches && In(r.matches[r.userToMatch[user]], user))
      && (gone.Some? ==> gone.value.id == r.userToMatch[user])
      && (gone.Some? ==> if gone.value.disbanded then gone.value.id !in r'.matches
                         else gone.value.id in r'.matches && r'.matches[gone.value.id] == gone.value.room)
  {
    hide SeatInv; hide RoomOk; hide Vacate; hide FirstOccupied; hide FirstUser; hide In;
    if user in r.userToMatch && r.userToMatch[user] in r.matches {
      var m := r.matches[r.userToMatch[user]];
      RoomIsOk(r, r.userToMatch[user]);
      InSeat(m, user, r);
    }
  }

  lemma InSeat(m: Match, user: int, r: Rooms)
    requires RoomOk(m) && SeatInv(r) && user in r.userToMatch
    ensures In(m, user) <==> FirstUser(m.slots, user).Some?
  {
    InIsOccupant(m, user);
    SeatFound(m, user);
  }

  lemma FarewellGets(v: View, user: i32, t: Token)
    requires SeatInv(v.rooms) && t in v.net.sessions
    ensures Gets(v.net, Leave(v, user).net, t,
                 ToldOfLeaving(v.rooms, Leave(v, user).rooms, user, v.net.lobby, v.net.sessions[t].user))
    ensures Leave(v, user).net.lobby == v.net.lobby && Leave(v, user).net.channels == v.net.channels
    ensures Leave(v, user).net.tokens == v.net.tokens && Leave(v, user).watch == v.watch
  {
    hide SeatInv; hide Post; hide Occupants; hide Gets; hide In; hide RemoveUser;
    LeavingReport(v.rooms, user);
    NothingGot(v.net, t);
    var (r', gone) := RemoveUser(v.rooms, user);
    if gone.Some? && gone.value.disbanded {
      PostGets(v.net, v.net, v.net.lobby, Packet.MatchDisband(gone.value.id), t, []);
      assert [] + When(v.net.sessions[t].user in v.net.lobby, Packet.MatchDisband(gone.value.id)) ==
             When(v.net.sessions[t].user in v.net.lobby, Packet.MatchDisband(gone.value.id));
    } else if gone.Some? {
      ShowGets(v, gone.value.id, gone.value.room, true, t);
      ShowIsFarewell(v, gone.value);
    }
  }

  lemma ShowIsFarewell(v: View, g: Removal)
    requires !g.disbanded
    ensures Show(v, g.id, g.room, true).net == Farewell(v.net, Some(g))
    ensures Farewell(v.net, Some(g)).lobby == v.net.lobby && Farewell(v.net, Some(g)).channels == v.net.channels
    ensures Farewell(v.net, Some(g)).tokens == v.net.tokens
  {
  }

  // The newcomer is sent the room, with its password, and put into its channel.
  function Welcomed(m: Match, user: i32, u: i32): seq<Packet> {
    When(u == user, Packet.MatchJoinSuccess(m)) + When(u == user, Packet.ChannelJoinSuccess(MULTIPLAYER))
  }

  lemma WelcomeGets(net: Net, user: i32, m: Match, t: Token)
    requires t in net.sessions
    ensures Gets(net, Welcome(net, user, m), t, Welcomed(m, user, net.sessions[t].user))
    ensures Welcome(net, user, m).lobby == net.lobby
  {
    hide Post; hide Enrol; hide Gets;
    var u := net.sessions[t].user;
    NothingGot(net, t);
    PostGets(net, net, {user as int}, Packet.MatchJoinSuccess(m), t, []);
    assert [] + When(u == user, Packet.MatchJoinSuccess(m)) == When(u == user, Packet.MatchJoinSuccess(m));
    var net1 := Post(net, {user as int}, Packet.MatchJoinSuccess(m));
    PostGets(net, net1, {user as int}, Packet.ChannelJoinSuccess(MULTIPLAYER), t,
      When(u == user, Packet.MatchJoinSuccess(m)));
    var net2 := Post(net1, {user as int}, Packet.ChannelJoinSuccess(MULTIPLAYER));
    EnrolGets(net, net2, user, MULTIPLAYER, t, Welcomed(m, user, u));
  }

  // MATCH_CREATE: farewell to the old room, the new one to its creator, and to the lobby as new.
  lemma CreateInbox(v: View, user: i32, asked: Match, v': View, t: Token)
    requires Inv(v) && Step(v, From(user, CreateRoom(asked)), v') && t in v.net.sessions
    ensures v.rooms.nextId in v'.rooms.matches
    ensures var (u, m, lobby) := (v.net.sessions[t].user, v'.rooms.matches[v.rooms.nextId], v.net.lobby);
      Gets(v.net, v'.net, t, ToldOfLeaving(v.rooms, RemoveUser(v.rooms, user).0, user, lobby, u) +
                             Welcomed(m, user, u) + When(u in lobby, Packet.MatchNew(m)))
  {
    hide NetInv; hide RoundInv; hide HistoryInv; hide NumberInv; hide SeatInv; hide RemoveUser; hide Post; hide Gets;
    hide Farewell; hide Welcome; hide ToldOfLeaving; hide Welcomed; hide NewRoom;
    var w := Leave(v, user);
    var (u, m, lobby) := (v.net.sessions[t].user, NewRoom(v.rooms.nextId, user, asked), v.net.lobby);
    LeaveRooms(v, user);
    FarewellGets(v, user, t);
    var p1 := ToldOfLeaving(v.rooms, RemoveUser(v.rooms, user).0, user, lobby, u);
    StillThere(v.net, w.net, t, p1);
    WelcomeGets(w.net, user, m, t);
    GetsTrans(v.net, w.net, Welcome(w.net, user, m), t, p1, Welcomed(m, user, u));
    PostGets(v.net, Welcome(w.net, user, m), lobby, Packet.MatchNew(m), t, p1 + Welcomed(m, user, u));
  }

  // MATCH_JOIN into a room that lets the user in: farewell to the old room, then the room to the newcomer, to
  // the others in it and to the lobby. When the room went as they left it, only the farewell.
  lemma JoinInbox(v: View, user: i32, wanted: i32, password: bytes, v': View, t: Token)
    requires Inv(v) && Step(v, From(user, JoinRoom(wanted, password)), v') && t in v.net.sessions
    requires Admits(v.rooms, wanted % 65536, password)
    ensures var (k, u, lobby) := (wanted % 65536, v.net.sessions[t].user, v.net.lobby);
      var r := RemoveUser(v.rooms, user).0;
      var told := ToldOfLeaving(v.rooms, r, user, lobby, u);
      if k in r.matches then
        k in v'.rooms.matches && var m := v'.rooms.matches[k];
        Gets(v.net, v'.net, t, told + Welcomed(m, user, u) + When(In(m, u) && u != user, Packet.MatchUpdate(m)) +
                               When(u in lobby, Packet.MatchUpdate(m)))
      else Gets(v.net, v'.net, t, told)
  {
    hide NetInv; hide RoundInv; hide HistoryInv; hide NumberInv; hide SeatInv; hide RemoveUser; hide Post; hide Gets;
    hide Farewell; hide Welcome; hide ToldOfLeaving; hide Welcomed; hide SitDown; hide In; hide Admits; hide CanJoin;
    hide Occupants;
    var (k, u, lobby) := (wanted % 65536, v.net.sessions[t].user, v.net.lobby);
    AdmitsIffCanJoin(v.rooms, k, password);
    var w := Leave(v, user);
    LeaveRooms(v, user);
    FarewellGets(v, user, t);
    var told := ToldOfLeaving(v.rooms, RemoveUser(v.rooms, user).0, user, lobby, u);
    StillThere(v.net, w.net, t, told);
    if k in w.rooms.matches {
      var m := Enter(w.rooms, user, k).matches[k];
      WelcomeGets(w.net, user, m, t);
      var net := Welcome(w.net, user, m);
      GetsTrans(v.net, w.net, net, t, told, Welcomed(m, user, u));
      InIsOccupant(m, u);
      PostGets(v.net, net, Occupants(m.slots) - {user as int}, Packet.MatchUpdate(m), t, told + Welcomed(m, user, u));
      PostGets(v.net, Post(net, Occupants(m.slots) - {user as int}, Packet.MatchUpdate(m)), lobby,
        Packet.MatchUpdate(m), t,
               told + Welcomed(m, user, u) + When(In(m, u) && u != user, Packet.MatchUpdate(m)));
    }
  }

  // A refused MATCH_JOIN is told to its sender alone.
  lemma RefusedInbox(v: View, user: i32, wanted: i32, password: bytes, v': View, t: Token)
    requires Inv(v) && Step(v, From(user, JoinRoom(wanted, password)), v') && t in v.net.sessions
    requires !Admits(v.rooms, wanted % 65536, password)
    ensures Gets(v.net, v'.net, t, When(v.net.sessions[t].user == user, Packet.MatchJoinFail))
    ensures v'.rooms == v.rooms && v'.watch == v.watch && v'.trace == v.trace
  {
    hide Inv; hide Admits; hide Gets; hide Post; hide Step;
    JoinEffect(v, user, wanted, password, v');
    NothingGot(v.net, t);
    PostGets(v.net, v.net, {user as int}, Packet.MatchJoinFail, t, []);
    assert [] + When(v.net.sessions[t].user == user, Packet.MatchJoinFail) ==
           When(v.net.sessions[t].user == user, Packet.MatchJoinFail);
  }

  // MATCH_PART: farewell, and the news of the round if it closes.
  lemma PartInbox(v: View, user: i32, v': View, t: Token)
    requires Inv(v) && Step(v, From(user, PartRoom), v') && t in v.net.sessions
    ensures var r := RemoveUser(v.rooms, user).0;
      var told := ToldOfLeaving(v.rooms, r, user, v.net.lobby, v.net.sessions[t].user);
      || Gets(v.net, v'.net, t, told)
      || exists id: u16, o :: id in r.matches && Over(r.matches[id]) && ClosedAs(v, v', r.matches[id], o, t, told)
  {
    hide NetInv; hide RoundInv; hide HistoryInv; hide NumberInv; hide SeatInv; hide RemoveUser; hide Post; hide Gets;
    hide Farewell; hide ToldOfLeaving; hide DoFinish; hide Concluded; hide Over; hide RoomOk;
    var (w, u) := (Leave(v, user), v.net.sessions[t].user);
    LeaveRooms(v, user);
    LeaveKeepsInv(v, user);
    FarewellGets(v, user, t);
    var told := ToldOfLeaving(v.rooms, w.rooms, user, v.net.lobby, u);
    StillThere(v.net, w.net, t, told);
    match RemoveUser(v.rooms, user).1
    case None =>
    case Some(g) =>
      if !g.disbanded {
        FinishGets(w, g.id, t);
        if g.id in w.rooms.matches && Over(w.rooms.matches[g.id]) {
          var m := w.rooms.matches[g.id];
          RoomIsOk(w.rooms, g.id);
          var o :| v'.trace == w.trace + [Ended(g.id, o)] && Gets(w.net, v'.net, t, Concluded(m, o, w.net, u));
          SameHearers(m, o, v.net, w.net, u);
          GetsTrans(v.net, w.net, v'.net, t, told, Concluded(m, o, w.net, u));
          assert ClosedAs(v, v', m, o, t, told);
        }
      }
  }

  lemma SameHearers(m: Match, o: Outcome, net: Net, net': Net, u: i32)
    requires net'.lobby == net.lobby && net'.channels == net.channels
    ensures Concluded(m, o, net', u) == Concluded(m, o, net, u)
  {
    hide In; hide Closed;
  }

  // ---------- spectators ----------

  // u watches host.
  predicate Watches(w: Watch, u: int, host: int) {
    u in w.target && w.target[u] == host
  }

  lemma WatchersWatch(w: Watch, online: set<int>, u: int, host: int)
    requires WatchInv(w, online)
    ensures u in Watchers(w, host) <==> Watches(w, u, host)
  {
    WatchIsInverse(w, online, u, host);
  }

  // What u is sent when the user stops: the host that they left, the host's other watchers that a fellow did.
  function ToldOfStopping(w: Watch, user: i32, u: i32): seq<Packet> {
    if user !in w.target then [] else
    When(u == w.target[user], Packet.SpectatorLeft(user)) +
    When(u != user && Watches(w, u, w.target[user]), Packet.FellowSpectatorLeft(user))
  }

  lemma StoppingGets(v: View, user: i32, t: Token)
    requires WatchInv(v.watch, Online(v.net)) && t in v.net.sessions
    ensures var w := DoStopSpectating(v, user);
      && Gets(v.net, w.net, t, ToldOfStopping(v.watch, user, v.net.sessions[t].user))
      && w.rooms == v.rooms && w.trace == v.trace && w.net.lobby == v.net.lobby && w.net.channels == v.net.channels
      && WatchInv(w.watch, Online(v.net)) && w.net.tokens == v.net.tokens
      && forall x, h :: Watches(w.watch, x, h) <==> Watches(v.watch, x, h) && x != user
  {
    hide Post; hide Gets; hide WatchInv; hide Watchers;
    StopKeeps(v.watch, Online(v.net), user);
    StopUnmaps(v.watch, user);
    NothingGot(v.net, t);
    if user in v.watch.target {
      var (h, u) := (v.watch.target[user], v.net.sessions[t].user);
      var watch := Stop(v.watch, user).0;
      WatchersWatch(watch, Online(v.net), u, h);
      PostGets(v.net, v.net, {h}, Packet.SpectatorLeft(user), t, []);
      assert [] + When(u == h, Packet.SpectatorLeft(user)) == When(u == h, Packet.SpectatorLeft(user));
      PostGets(v.net, Post(v.net, {h}, Packet.SpectatorLeft(user)), Watchers(watch, h),
        Packet.FellowSpectatorLeft(user), t,
               When(u == h, Packet.SpectatorLeft(user)));
    }
  }

  lemma StopUnmaps(w: Watch, user: int)
    ensures Stop(w, user).0.target == w.target - {user}
    ensures Stop(w, user).1 == if user in w.target then Some(w.target[user]) else None
  {
    if user !in w.target { assert w.target - {user} == w.target; }
  }

  // STOP_SPECTATING tells the host and the fellows, and nobody else; the user watches nobody and everyone
  // else whom they did.
  lemma StopInbox(v: View, user: i32, v': View, t: Token)
    requires Inv(v) && Step(v, From(user, Arm.StopSpectating), v') && t in v.net.sessions
    ensures Gets(v.net, v'.net, t, ToldOfStopping(v.watch, user, v.net.sessions[t].user))
    ensures forall x, h :: Watches(v'.watch, x, h) <==> Watches(v.watch, x, h) && x != user
    ensures v'.rooms == v.rooms
  {
    hide NetInv; hide RoomsInv; hide WatchInv; hide Gets; hide DoStopSpectating; hide ToldOfStopping; hide Watches;
    StoppingGets(v, user, t);
  }

  // What u is sent when the user starts watching: the watchers there are that a fellow joined, the user of
  // each of them in the order in which they came, the host that they joined, and the user the channel.
  function ToldOfStarting(w: Watch, user: i32, host: i32, u: i32): seq<Packet> {
    When(Watches(w, u, host), Packet.FellowSpectatorJoined(user)) +
    (if u == user then FellowsOf(WatchersOf(w, host)) else []) +
    When(u == host, Packet.SpectatorJoined(user)) + When(u == user, Packet.ChannelJoinSuccess(SPECTATOR))
  }

  lemma BeginningGets(v: View, user: i32, host: i32, t: Token)
    requires WatchInv(v.watch, Online(v.net)) && t in v.net.sessions && user !in v.watch.target
    ensures var w := BeginWatching(v, user, host);
      && Gets(v.net, w.net, t, ToldOfStarting(v.watch, user, host, v.net.sessions[t].user))
      && forall x, h :: Watches(w.watch, x, h) <==> if x == user as int then h == host else Watches(v.watch, x, h)
  {
    hide Post; hide Gets; hide WatchInv; hide Watchers; hide PostEach; hide Enrol; hide WatchersOf; hide FellowsOf;
    var u := v.net.sessions[t].user;
    WatchersWatch(v.watch, Online(v.net), u, host);
    NothingGot(v.net, t);
    var fellows := FellowsOf(WatchersOf(v.watch, host));
    var p1 := When(Watches(v.watch, u, host), Packet.FellowSpectatorJoined(user));
    var p2 := if u == user then fellows else [];
    var p3 := When(u == host, Packet.SpectatorJoined(user));
    PostGets(v.net, v.net, Watchers(v.watch, host), Packet.FellowSpectatorJoined(user), t, []);
    assert [] + p1 == p1;
    var net1 := Post(v.net, Watchers(v.watch, host), Packet.FellowSpectatorJoined(user));
    PostEachGets(v.net, net1, user, fellows, t, p1);
    var net2 := PostEach(net1, user, fellows);
    PostGets(v.net, net2, {host as int}, Packet.SpectatorJoined(user), t, p1 + p2);
    var net3 := Post(net2, {host as int}, Packet.SpectatorJoined(user));
    PostGets(v.net, net3, {user as int}, Packet.ChannelJoinSuccess(SPECTATOR), t, p1 + p2 + p3);
    var net4 := Post(net3, {user as int}, Packet.ChannelJoinSuccess(SPECTATOR));
    EnrolGets(v.net, net4, user, SPECTATOR, t, ToldOfStarting(v.watch, user, host, u));
  }

  // START_SPECTATING: first a stop, then, when the host is online and somebody else, all this; the user then
  // watches the host, and everyone else whom they did.
  lemma WatchInbox(v: View, user: i32, host: i32, v': View, t: Token)
    requires Inv(v) && Step(v, From(user, Arm.StartSpectating(host)), v') && t in v.net.sessions
    ensures var u := v.net.sessions[t].user;
      var stopped := ToldOfStopping(v.watch, user, u);
      if host in v.net.tokens && host != user then
        Gets(v.net, v'.net, t, stopped + ToldOfStarting(DoStopSpectating(v, user).watch, user, host, u))
      else Gets(v.net, v'.net, t, stopped)
    ensures forall x, h :: Watches(v'.watch, x, h) <==>
      if x == user as int then h == host && host in v.net.tokens && host != user else Watches(v.watch, x, h)
  {
    hide NetInv; hide RoomsInv; hide WatchInv; hide Gets; hide DoStopSpectating; hide ToldOfStopping; hide Watches;
    hide BeginWatching; hide ToldOfStarting;
    StoppingGets(v, user, t);
    var w := DoStopSpectating(v, user);
    StillThere(v.net, w.net, t, ToldOfStopping(v.watch, user, v.net.sessions[t].user));
    NowhereAfterStop(v, user);
    if host in v.net.tokens && host != user {
      BeginningGets(w, user, host, t);
      GetsTrans(v.net, w.net, v'.net, t, ToldOfStopping(v.watch, user, v.net.sessions[t].user),
                ToldOfStarting(w.watch, user, host, v.net.sessions[t].user));
    }
  }

  lemma NowhereAfterStop(v: View, user: i32)
    ensures user !in DoStopSpectating(v, user).watch.target
  {
    StopUnmaps(v.watch, user);
  }

  // The watchers of a host are listed in the order in which they came: a newcomer is the last, and whoever
  // goes leaves the others in their order.
  lemma WatchersInOrder(v: View, user: i32, host: i32, v': View)
    requires Inv(v) && Step(v, From(user, Arm.StartSpectating(host)), v') && host in v.net.tokens && host != user
    ensures exists rest: seq<int> ::
      TakenOut(WatchersOf(v.watch, host), user, rest) && WatchersOf(v'.watch, host) == rest + [user as int]
    ensures forall h :: h != host as int ==> TakenOut(WatchersOf(v.watch, h), user, WatchersOf(v'.watch, h))
  {
    hide NetInv; hide RoomsInv; hide Post; hide PostEach; hide Enrol; hide TakenOut; hide WatchInv;
    forall h ensures TakenOut(WatchersOf(v.watch, h), user, WatchersOf(Stop(v.watch, user).0, h)) {
      StopInOrder(v.watch, Online(v.net), user, h);
    }
    var rest := WatchersOf(Stop(v.watch, user).0, host);
    StoppedWatch(v, user);
    assert TakenOut(WatchersOf(v.watch, host), user, rest) && WatchersOf(v'.watch, host) == rest + [user as int];
  }

  lemma StoppedWatch(v: View, user: i32)
    ensures DoStopSpectating(v, user).watch == Stop(v.watch, user).0
    ensures DoStopSpectating(v, user).net.tokens == v.net.tokens
  {
    hide Watchers;
  }

  // rest is the list with x out of it, where it stood at most once.
  ghost predicate TakenOut(list: seq<int>, x: int, rest: seq<int>) {
    if x !in list then rest == list
    else exists a, b :: list == a + [x] + b && rest == a + b && x !in rest
  }

  lemma WithoutTakesOut(list: seq<int>, x: int)
    requires NoRepeats(list)
    ensures TakenOut(list, x, Without(list, x))
  {
    hide Without;
    if x in list {
      var i :| 0 <= i < |list| && list[i] == x;
      var (a, b) := (list[..i], list[i + 1..]);
      assert list == a + [x] + b;
      forall j | 0 <= j < |b| ensures b[j] != x { assert list[i + 1 + j] == b[j]; }
      WithoutSplits(a, x, b);
    } else {
      NothingTaken(list, x);
    }
  }

  lemma ListHasNoRepeats(w: Watch, online: set<int>, h: int)
    requires WatchInv(w, online)
    ensures NoRepeats(WatchersOf(w, h))
  {
    if h in w.spectators { assert GoodList(w, online, h, w.spectators[h]); }
  }

  lemma StopInOrder(w: Watch, online: set<int>, user: int, h: int)
    requires WatchInv(w, online)
    ensures TakenOut(WatchersOf(w, h), user, WatchersOf(Stop(w, user).0, h))
  {
    hide Without; hide TakenOut; hide NoRepeats; hide WatchInv;
    WatchIsInverse(w, online, user, h);
    ListHasNoRepeats(w, online, h);
    WithoutTakesOut(WatchersOf(w, h), user);
    NotTakenOut(WatchersOf(w, h), user);
  }

  lemma NotTakenOut(list: seq<int>, x: int)
    ensures x !in list ==> TakenOut(list, x, list)
  {
  }

  // SPECTATE_FRAMES goes to whoever watches the sender; CANT_SPECTATE to the host watched and to everyone who
  // watches them, the sender included.
  lemma FramesInbox(v: View, user: i32, raw: bytes, v': View, t: Token)
    requires Inv(v) && Step(v, From(user, Arm.SpectateFrames(raw)), v') && t in v.net.sessions
    ensures Gets(v.net, v'.net, t, When(Watches(v.watch, v.net.sessions[t].user, user), Packet.SpectateFrames(raw)))
    ensures v'.rooms == v.rooms && v'.watch == v.watch
  {
    hide NetInv; hide RoomsInv; hide WatchInv; hide Gets; hide Post; hide Watchers; hide Watches;
    var u := v.net.sessions[t].user;
    WatchersWatch(v.watch, Online(v.net), u, user);
    NothingGot(v.net, t);
    PostGets(v.net, v.net, Watchers(v.watch, user), Packet.SpectateFrames(raw), t, []);
    assert [] + When(Watches(v.watch, u, user), Packet.SpectateFrames(raw)) ==
           When(Watches(v.watch, u, user), Packet.SpectateFrames(raw));
  }

  lemma CantInbox(v: View, user: i32, v': View, t: Token)
    requires Inv(v) && Step(v, From(user, Arm.CantSpectate), v') && t in v.net.sessions
    ensures var u := v.net.sessions[t].user;
      if user in v.watch.target then
        var h := v.watch.target[user];
        Gets(v.net, v'.net, t, When(u == h, Packet.SpectatorCantSpectate(user)) +
                               When(Watches(v.watch, u, h), Packet.SpectatorCantSpectate(user)))
      else v' == v
    ensures v'.rooms == v.rooms && v'.watch == v.watch
  {
    hide NetInv; hide RoomsInv; hide WatchInv; hide Gets; hide Post; hide Watchers;
    var u := v.net.sessions[t].user;
    NothingGot(v.net, t);
    if user in v.watch.target {
      var h := v.watch.target[user];
      var p := Packet.SpectatorCantSpectate(user);
      WatchersWatch(v.watch, Online(v.net), u, h);
      PostGets(v.net, v.net, {h}, p, t, []);
      assert [] + When(u == h, p) == When(u == h, p);
      PostGets(v.net, Post(v.net, {h}, p), Watchers(v.watch, h), p, t, When(u == h, p));
    }
  }

  // ---------- the lobby and channels ----------

  // One MATCH_NEW for each of these rooms.
  predicate Lists(ps: seq<Packet>, ids: seq<u16>, matches: map<u16, Match>) {
    |ps| == |ids| && forall i :: 0 <= i < |ids| ==> ids[i] in matches && ps[i] == Packet.MatchNew(matches[ids[i]])
  }

  // LOBBY_JOIN: the sender subscribes and is sent each open room, once, in some order.
  lemma LobbyInbox(v: View, user: i32, v': View, t: Token)
    requires Inv(v) && Step(v, From(user, Arm.LobbyJoin), v') && t in v.net.sessions
    ensures exists ids, ps: seq<Packet> ::
      GoodOrder(v.rooms, ids) && Lists(ps, ids, v.rooms.matches) &&
      Gets(v.net, v'.net, t, if v.net.sessions[t].user == user then ps else [])
    ensures v'.net.lobby == v.net.lobby + {user} && v'.rooms == v.rooms
  {
    hide Inv; hide Gets; hide PostEach;
    var order :| GoodOrder(v.rooms, order) && v' == DoArm(v, user, Arm.LobbyJoin, order);
    var net := v.net.(lobby := v.net.lobby + {user});
    NothingGot(v.net, t);
    SubscribedGets(v.net, net, t);
    PostEachGets(v.net, net, user, Listing(v.rooms.matches, order), t, []);
    PostEachLobby(net, user, Listing(v.rooms.matches, order));
    var ps := if v.net.sessions[t].user == user then Listing(v.rooms.matches, order) else [];
    assert [] + ps == ps;
    assert Lists(Listing(v.rooms.matches, order), order, v.rooms.matches);
  }

  lemma SubscribedGets(net: Net, net': Net, t: Token)
    requires t in net.sessions && net'.sessions == net.sessions
    ensures Gets(net, net', t, [])
  {
    assert net.sessions[t].queue + [] == net.sessions[t].queue;
  }

  lemma {:induction false} PostEachLobby(net: Net, user: int, list: seq<Packet>)
    ensures PostEach(net, user, list).lobby == net.lobby
  {
    if list != [] { PostEachLobby(net, user, list[..|list| - 1]); }
  }

  // LOBBY_PART sends nothing.
  lemma LobbyPartInbox(v: View, user: i32, v': View)
    requires Step(v, From(user, Arm.LobbyPart), v')
    ensures v' == v.(net := v.net.(lobby := v.net.lobby - {user}))
  {
  }

  // CHANNEL_JOIN and CHANNEL_PART: the sender is told, the channel is on their session or off it, and they are
  // among its members or not, if it exists.
  lemma ChannelInbox(v: View, user: i32, c: bytes, joins: bool, v': View, t: Token)
    requires Step(v, From(user, if joins then Arm.JoinChannel(c) else Arm.PartChannel(c)), v') && t in v.net.sessions
    ensures var (s, p) := (v.net.sessions[t], if joins then Packet.ChannelJoinSuccess(c) else Packet.ChannelPart(c));
      t in v'.net.sessions && v'.net.sessions[t] ==
        if s.user == user
        then Session(user, s.name, s.queue + [p], if joins then s.channels + {c} else s.channels - {c}) else s
    ensures v'.net.channels.Keys == v.net.channels.Keys
    ensures forall k, u :: k in v.net.channels ==>
      (u in v'.net.channels[k] <==> if k == c && u == user then joins else u in v.net.channels[k])
  {
  }

  // ---------- the server ----------

  // A poll empties its user's queue and touches no other session.
  lemma PollInbox(v: View, user: i32, v': View, t: Token)
    requires Step(v, Poll(user), v') && t in v.net.sessions
    ensures t in v'.net.sessions && v'.net.sessions[t] ==
      if v.net.sessions[t].user == user then v.net.sessions[t].(queue := []) else v.net.sessions[t]
  {
  }

  // What u is sent when the user departs: their room and its round aside, their host and fellows, and their
  // own watchers.
  function ToldOfDeparting(v: View, user: i32, u: i32): seq<Packet> {
    ToldOfLeaving(v.rooms, RemoveUser(v.rooms, user).0, user, v.net.lobby - {user}, u) +
    ToldOfStopping(v.watch, user, u) + When(Watches(v.watch, u, user), Packet.SpectatorLeft(user))
  }

  lemma DropGets(v: View, user: i32, t: Token)
    requires Inv(v) && t in v.net.sessions && v.net.sessions[t].user != user && user in v.net.tokens
    ensures Gets(v.net, DropUser(v, user).net, t, ToldOfDeparting(v, user, v.net.sessions[t].user))
  {
    hide RoundInv; hide HistoryInv; hide NumberInv; hide SeatInv; hide RemoveUser; hide Post; hide Gets; hide NetInv;
    hide Farewell; hide ToldOfLeaving; hide ToldOfStopping; hide DoStopSpectating; hide WatchInv; hide Watchers;
    hide Leave; hide LeaveChannels; hide DropSession;
    var u := v.net.sessions[t].user;
    var v0 := v.(net := DropSession(v.net, user));
    DroppedGets(v.net, user, t);
    StillThere(v.net, v0.net, t, []);
    FarewellGets(v0, user, t);
    var v1 := Leave(v0, user);
    LeaveRooms(v0, user);
    var p1 := ToldOfLeaving(v.rooms, RemoveUser(v.rooms, user).0, user, v.net.lobby - {user}, u);
    assert v0.net.lobby == v.net.lobby - {user} by { DroppedLobby(v.net, user); }
    GetsTrans(v.net, v0.net, v1.net, t, [], p1);
    assert [] + p1 == p1;
    StillThere(v.net, v1.net, t, p1);
    WatchersStay(v, v1, user, t);
    GetsTrans(v.net, v1.net, DoStopSpectating(v1, user).net, t, p1, ToldOfStopping(v.watch, user, u));
    LastGets(v, DoStopSpectating(v1, user), user, t, p1 + ToldOfStopping(v.watch, user, u));
  }

  lemma DroppedLobby(net: Net, user: i32)
    requires user in net.tokens
    ensures DropSession(net, user).lobby == net.lobby - {user}
  {
  }

  lemma DroppedGets(net: Net, user: i32, t: Token)
    requires NetInv(net) && t in net.sessions && net.sessions[t].user != user && user in net.tokens
    ensures Gets(net, DropSession(net, user), t, [])
  {
    hide ChannelInv;
    assert net.sessions[t].queue + [] == net.sessions[t].queue;
  }

  // Although the user is offline by then, stopping goes as if they were not.
  lemma WatchersStay(v: View, v1: View, user: i32, t: Token)
    requires WatchInv(v.watch, Online(v.net)) && v1.watch == v.watch && t in v1.net.sessions
    ensures var w := DoStopSpectating(v1, user);
      && Gets(v1.net, w.net, t, ToldOfStopping(v.watch, user, v1.net.sessions[t].user))
      && forall x :: Watches(w.watch, x, user) <==> Watches(v.watch, x, user)
    ensures WatchInv(DoStopSpectating(v1, user).watch, Online(v.net))
  {
    hide Post; hide Gets; hide WatchInv; hide Watchers;
    StopKeeps(v.watch, Online(v.net), user);
    StopUnmaps(v.watch, user);
    NothingGot(v1.net, t);
    if user in v.watch.target {
      var (h, u) := (v.watch.target[user], v1.net.sessions[t].user);
      var watch := Stop(v.watch, user).0;
      WatchersWatch(watch, Online(v.net), u, h);
      NotOneself(v.watch, Online(v.net), user);
      PostGets(v1.net, v1.net, {h}, Packet.SpectatorLeft(user), t, []);
      assert [] + When(u == h, Packet.SpectatorLeft(user)) == When(u == h, Packet.SpectatorLeft(user));
      PostGets(v1.net, Post(v1.net, {h}, Packet.SpectatorLeft(user)), Watchers(watch, h),
        Packet.FellowSpectatorLeft(user), t,
               When(u == h, Packet.SpectatorLeft(user)));
    }
  }

  lemma NotOneself(w: Watch, online: set<int>, user: int)
    requires WatchInv(w, online)
    ensures !Watches(w, user, user)
  {
    WatchIsInverse(w, online, user, user);
  }

  lemma LastGets(v: View, v2: View, user: i32, t: Token, ps: seq<Packet>)
    requires Gets(v.net, v2.net, t, ps) && WatchInv(v2.watch, Online(v.net))
    requires forall x :: Watches(v2.watch, x, user) <==> Watches(v.watch, x, user)
    ensures var net := Post(v2.net, Watchers(v2.watch, user), Packet.SpectatorLeft(user));
      Gets(v.net, LeaveChannels(net, user), t,
           ps + When(Watches(v.watch, v.net.sessions[t].user, user), Packet.SpectatorLeft(user)))
  {
    hide Post; hide WatchInv; hide Watchers;
    WatchersWatch(v2.watch, Online(v.net), v.net.sessions[t].user, user);
    PostGets(v.net, v2.net, Watchers(v2.watch, user), Packet.SpectatorLeft(user), t, ps);
  }

  // A logout or timeout: all that, and USER_QUIT to everyone left.
  lemma DisconnectInbox(v: View, user: i32, how: u8, v': View, t: Token)
    requires Inv(v) && Step(v, Action.Disconnect(user, how), v') && user in v.net.tokens
    requires t in v.net.sessions && v.net.sessions[t].user != user
    ensures Gets(v.net, v'.net, t, ToldOfDeparting(v, user, v.net.sessions[t].user) + [Packet.UserQuit(user, how)])
  {
    hide Inv; hide DropUser; hide ToldOfDeparting;
    DropGets(v, user, t);
    AllGet(v.net, DropUser(v, user).net, Packet.UserQuit(user, how), t,
      ToldOfDeparting(v, user, v.net.sessions[t].user));
  }

  lemma AllGet(net0: Net, net: Net, p: Packet, t: Token, ps: seq<Packet>)
    requires Gets(net0, net, t, ps)
    ensures Gets(net0, PostAll(net, p), t, ps + [p])
  {
  }

  // A login: everyone else is sent the farewells of the session it evicts, if there is one, then presence and
  // statistics; the new session starts with an empty queue in the two default channels.
  lemma LoginInbox(v: View, user: i32, token: Token, name: bytes, presence: Packet, stats: Packet, v': View, t: Token)
    requires Inv(v) && Step(v, Login(user, token, name, presence, stats), v')
    ensures token in v'.net.sessions && v'.net.sessions[token] == Session(user, name, [], {OSU, ANNOUNCE})
    ensures t in v.net.sessions && v.net.sessions[t].user != user ==>
      var evicted := if user in v.net.tokens then ToldOfDeparting(v, user, v.net.sessions[t].user) else [];
      Gets(v.net, v'.net, t, evicted + [presence] + [stats])
  {
    hide Inv; hide DropUser; hide ToldOfDeparting; hide PostAll; hide Gets;
    if t in v.net.sessions && v.net.sessions[t].user != user {
      var evicted := if user in v.net.tokens then ToldOfDeparting(v, user, v.net.sessions[t].user) else [];
      NothingGot(v.net, t);
      if user in v.net.tokens { DropGets(v, user, t); } else { NobodyDropped(v, user); }
      var net1 := JoinStartChannel(JoinStartChannel(DropUser(v, user).net, user, OSU), user, ANNOUNCE);
      SameSessionsGet(v.net, DropUser(v, user).net, net1, t, evicted);
      AllGet(v.net, net1, presence, t, evicted);
      AllGet(v.net, PostAll(net1, presence), stats, t, evicted + [presence]);
      AddedGets(v.net, PostAll(PostAll(net1, presence), stats), token, Session(user, name, [], {OSU, ANNOUNCE}), t,
                evicted + [presence] + [stats]);
    }
  }

  lemma NobodyDropped(v: View, user: i32)
    requires user !in v.net.tokens
    ensures DropUser(v, user) == v
  {
  }

  lemma SameSessionsGet(net0: Net, net: Net, net': Net, t: Token, ps: seq<Packet>)
    requires Gets(net0, net, t, ps) && net'.sessions == net.sessions
    ensures Gets(net0, net', t, ps)
  {
  }

  lemma AddedGets(net0: Net, net: Net, token: Token, s: Session, t: Token, ps: seq<Packet>)
    requires Gets(net0, net, t, ps) && t != token
    ensures Gets(net0, AddSession(net, token, s), t, ps)
  {
  }
}
