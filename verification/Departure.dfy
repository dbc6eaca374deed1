/** Logins and disconnects: what remove_session takes away, and what it leaves alone. */
module Departure {
  import opened Wrappers
  import opened BanchoTypes
  import opened Rooms
  import opened Rounds
  import opened RoomSafety
  import opened Spectating
  import opened Network
  import opened Server
  import opened ServerSafety

  lemma LeavingPosts(user: i32)
    ensures forall net, who, p {:trigger Post(net, who, p)} ::
      && (LeavingInv(net, user) ==> LeavingInv(Post(net, who, p), user))
      && Post(net, who, p).tokens == net.tokens && Post(net, who, p).lobby == net.lobby
  {
    forall net, who, p | LeavingInv(net, user) ensures LeavingInv(Post(net, who, p), user) {
      LeavingPost(net, user, who, p);
    }
  }

  lemma FarewellLeaving(net: Net, gone: Option<Removal>, user: i32)
    requires LeavingInv(net, user)
    ensures LeavingInv(Farewell(net, gone), user) && Farewell(net, gone).tokens == net.tokens
  {
    hide LeavingInv; hide Post;
    LeavingPosts(user);
  }

  lemma StopSpectatingLeaving(v: View, user: i32)
    requires LeavingInv(v.net, user)
    ensures var v' := DoStopSpectating(v, user);
      && LeavingInv(v'.net, user) && v'.net.tokens == v.net.tokens
      && v'.rooms == v.rooms && v'.trace == v.trace && v'.watch == Stop(v.watch, user).0
  {
    hide LeavingInv; hide Post; hide Stop;
    LeavingPosts(user);
    StopNothing(v.watch, user);
  }

  lemma StopNothing(w: Watch, user: int)
    ensures Stop(w, user).1.None? ==> Stop(w, user).0 == w
  {
  }

  // The pieces of a departure.
  lemma DropUserParts(v: View, user: i32)
    requires Inv(v) && user in v.net.tokens
    ensures var v' := DropUser(v, user);
      && v'.rooms == RemoveUser(v.rooms, user).0 && v'.trace == v.trace
      && v'.watch == DropHost(Stop(v.watch, user).0, user)
      && NetInv(v'.net) && v'.net.tokens == v.net.tokens - {user}
  {
    hide NetInv; hide LeavingInv; hide RoomsInv; hide WatchInv; hide DropSession; hide Farewell; hide RemoveUser;
    hide DoStopSpectating; hide Post; hide LeaveChannels; hide DropHost; hide Stop;
    DropSessionKeeps(v.net, user);
    DropSessionTokens(v.net, user);
    var v0 := v.(net := DropSession(v.net, user));
    FarewellLeaving(v0.net, RemoveUser(v.rooms, user).1, user);
    var v1 := Leave(v0, user);
    StopSpectatingLeaving(v1, user);
    var v2 := DoStopSpectating(v1, user);
    LeavingPosts(user);
    LeaveChannelsKeeps(Post(v2.net, Watchers(v2.watch, user), Packet.SpectatorLeft(user)), user);
    LeaveChannelsTokens(Post(v2.net, Watchers(v2.watch, user), Packet.SpectatorLeft(user)), user);
  }

  lemma DropSessionTokens(net: Net, user: i32)
    requires user in net.tokens
    ensures DropSession(net, user).tokens == net.tokens - {user}
  {
  }

  lemma LeaveChannelsTokens(net: Net, user: i32)
    ensures LeaveChannels(net, user).tokens == net.tokens
  {
  }

  lemma DropUserKeeps(v: View, user: i32)
    requires Inv(v)
    ensures Inv(DropUser(v, user)) && user !in DropUser(v, user).net.tokens
  {
    if user in v.net.tokens {
      hide NetInv; hide RoomsInv; hide WatchInv; hide DropUser; hide RemoveUser; hide Stop; hide DropHost;
      DropUserParts(v, user);
      LeaveSafe(v.rooms, v.trace, user);
      StopKeeps(v.watch, Online(v.net), user);
      LeaveKeeps(Stop(v.watch, user).0, Online(v.net), user);
      assert Online(v.net) - {user} == Online(DropUser(v, user).net);
    }
  }

  lemma DisconnectKeeps(v: View, user: i32, how: u8)
    requires Inv(v)
    ensures Inv(DoDisconnect(v, user, how))
  {
    hide NetInv; hide RoomsInv; hide WatchInv; hide DropUser; hide PostAll;
    DropUserKeeps(v, user);
    PostAllKeeps(DropUser(v, user).net, Packet.UserQuit(user, how));
  }

  // Joining the two automatic channels is completed by adding the session that lists them.
  lemma LoginNet(net: Net, net2: Net, user: i32, token: Token, name: bytes)
    requires NetInv(net) && user > 0 && user !in net.tokens && token !in net.sessions
    requires SameButQueues(JoinStartChannel(JoinStartChannel(net, user, OSU), user, ANNOUNCE), net2)
    ensures NetInv(AddSession(net2, token, Session(user, name, [], {OSU, ANNOUNCE})))
    ensures Online(AddSession(net2, token, Session(user, name, [], {OSU, ANNOUNCE}))) == Online(net) + {user}
  {
    hide ChannelInv;
    LoginChannels(net, net2, user, token, name);
    assert forall t :: t in net2.sessions ==> Identity(net2.sessions[t]) == Identity(net.sessions[t]);
  }

  lemma LoginChannels(net: Net, net2: Net, user: i32, token: Token, name: bytes)
    requires NetInv(net) && user !in net.tokens && token !in net.sessions
    requires SameButQueues(JoinStartChannel(JoinStartChannel(net, user, OSU), user, ANNOUNCE), net2)
    ensures ChannelInv(AddSession(net2, token, Session(user, name, [], {OSU, ANNOUNCE})))
  {
    var s := Session(user, name, [], {OSU, ANNOUNCE});
    var net' := AddSession(net2, token, s);
    forall c, u | c in net'.channels
      ensures u in net'.channels[c] <==>
        u in net'.tokens && net'.tokens[u] in net'.sessions && c in net'.sessions[net'.tokens[u]].channels
    {
      assert net2.channels[c] == if c in {OSU, ANNOUNCE} then net.channels[c] + {user} else net.channels[c];
      if u != user && u in net.tokens {
        assert Identity(net2.sessions[net.tokens[u]]) == Identity(net.sessions[net.tokens[u]]);
      }
    }
  }

  lemma PostAllSame(net0: Net, net: Net, p: Packet)
    requires SameButQueues(net0, net)
    ensures SameButQueues(net0, PostAll(net, p))
  {
  }

  lemma DropUserTokens(v: View, user: i32)
    ensures DropUser(v, user).net.sessions.Keys <= v.net.sessions.Keys
  {
    hide RemoveUser; hide Stop; hide Farewell; hide DoStopSpectating;
    if user in v.net.tokens {
      var v0 := v.(net := DropSession(v.net, user));
      FarewellTokens(v0.net, RemoveUser(v.rooms, user).1);
      var v1 := Leave(v0, user);
      StopTokens(v1, user);
    }
  }

  lemma FarewellTokens(net: Net, gone: Option<Removal>)
    ensures Farewell(net, gone).sessions.Keys == net.sessions.Keys
  {
  }

  lemma StopTokens(v: View, user: i32)
    ensures DoStopSpectating(v, user).net.sessions.Keys == v.net.sessions.Keys
  {
  }

  lemma LoginKeeps(v: View, user: i32, token: Token, name: bytes, presence: Packet, stats: Packet)
    requires Inv(v) && user > 0 && token !in v.net.sessions
    ensures Inv(DoLogin(v, user, token, name, presence, stats))
  {
    hide NetInv; hide RoomsInv; hide WatchInv; hide DropUser; hide PostAll; hide JoinStartChannel;
    hide AddSession; hide SameButQueues;
    var v1 := DropUser(v, user);
    DropUserKeeps(v, user);
    DropUserTokens(v, user);
    var net1 := JoinStartChannel(JoinStartChannel(v1.net, user, OSU), user, ANNOUNCE);
    SameNet(net1);
    PostAllSame(net1, net1, presence);
    PostAllSame(net1, PostAll(net1, presence), stats);
    LoginNet(v1.net, PostAll(PostAll(net1, presence), stats), user, token, name);
    MoreOnline(v1.watch, Online(v1.net), Online(v1.net) + {user});
  }

  lemma MoreOnline(w: Watch, online: set<int>, more: set<int>)
    requires WatchInv(w, online) && online <= more
    ensures WatchInv(w, more)
  {
    forall h | h in w.spectators ensures GoodList(w, more, h, w.spectators[h]) {
      assert GoodList(w, online, h, w.spectators[h]);
    }
  }

  lemma PollKeeps(v: View, user: i32)
    requires Inv(v)
    ensures Inv(DoPoll(v, user))
  {
    hide RoomsInv; hide WatchInv;
  }

  // ---------- remove_session is complete and touches no one else ----------

  // Rooms: the user is in none, and everyone else's slot is where it was. Only the room left behind
  // may differ: it is gone when nobody is left in it, and its host changes only if the host left.
  lemma RoomsAfterDeparture(r: Rooms, user: int, id: u16)
    requires SeatInv(r) && user > 0
    ensures var r' := RemoveUser(r, user).0;
      && r'.userToMatch == r.userToMatch - {user}
      && (id in r'.matches ==> user !in Occupants(r'.matches[id].slots))
      && (id in r'.matches ==> id in r.matches && OnlyDeparted(r.matches[id], r'.matches[id], user))
      && (id in r.matches && id !in r'.matches ==> Occupants(r.matches[id].slots) == {user})
  {
    hide RoomOk; hide Vacate; hide RemoveUser;
    RemoveUserKeepsSeats(r, user);
    RemovalShrinks(r, user);
    if id in RemoveUser(r, user).0.matches {
      assert user !in People(RemoveUser(r, user).0)[id];
    }
    assert id in r.matches && user in People(r)[id] ==> user in r.userToMatch && r.userToMatch[user] == id;
    if user in r.userToMatch {
      RemoveUserEffect(r, user);
      var k := r.userToMatch[user];
      if id == k && id in r.matches && user in Occupants(r.matches[id].slots) {
        if id in RemoveUser(r, user).0.matches {
          VacatedSlots(r.matches[k], FirstUser(r.matches[k].slots, user).value, user);
        }
      } else if id in r.matches {
        Untouched(r, id, user);
      }
    } else {
      NoRoomToLeave(r, user);
      if id in r.matches { Untouched(r, id, user); }
    }
  }

  lemma Untouched(r: Rooms, id: u16, user: int)
    requires SeatInv(r) && id in r.matches && user > 0 && user !in Occupants(r.matches[id].slots)
    ensures OnlyDeparted(r.matches[id], r.matches[id], user)
  {
    var m := r.matches[id];
    assert GoodRoom(id, m);
    SeatFound(m, user);
    assert m.host in Occupants(m.slots);
  }

  ghost predicate OnlyDeparted(m: Match, m': Match, user: int) {
    && (forall i :: 0 <= i < 16 ==> m'.slots[i] == if m.slots[i].user == user then EMPTY_SLOT else m.slots[i])
    && (m.host != user ==> m'.host == m.host)
    && (m.host == user ==> m'.host in Occupants(m'.slots) && m'.host in Occupants(m.slots))
    && m'.(slots := m.slots, host := m.host) == m
  }

  lemma VacatedSlots(m: Match, i: nat, user: int)
    requires RoomOk(m) && user > 0 && FirstUser(m.slots, user) == Some(i)
    requires Occupants(Vacate(m, i, user).slots) != {}
    ensures OnlyDeparted(m, Vacate(m, i, user), user)
  {
    var m' := Vacate(m, i, user);
    var someone :| someone in Occupants(m'.slots);
    var j := FirstOccupied(m'.slots).value;
    SeatFound(m, user);
    assert m'.slots[j] == m.slots[j];
    assert m.slots[j].user in Occupants(m.slots) && m'.slots[j].user in Occupants(m'.slots);
  }

  // Spectators: the user watches nobody and is watched by nobody; everyone else's target is kept
  // unless it was the user, and every other list loses the user only.
  lemma WatchAfterDeparture(w: Watch, online: set<int>, user: int)
    requires WatchInv(w, online)
    ensures var w' := DropHost(Stop(w, user).0, user);
      && user !in w'.target && user !in w'.spectators
      && (forall s :: s in w'.target <==> s in w.target && s != user && w.target[s] != user)
      && (forall s :: s in w'.target ==> w'.target[s] == w.target[s])
      && (forall h :: h != user ==> WatchersOf(w', h) == Without(WatchersOf(w, h), user))
  {
    StopKeeps(w, online, user);
    var w1 := Stop(w, user).0;
    LeaveKeeps(w1, online, user);
    forall h | h != user ensures WatchersOf(DropHost(w1, user), h) == Without(WatchersOf(w, h), user) {
      if h in w.spectators {
        assert GoodList(w, online, h, w.spectators[h]);
        WithoutKeepsOrder(w.spectators[h], user);
        WatchIsInverse(w, online, user, h);
      }
    }
  }

  // A session apart from the packets waiting in its queue.
  function Identity(s: Session): (i32, bytes, set<bytes>) {
    (s.user, s.name, s.channels)
  }

  ghost predicate SameButQueues(net: Net, net': Net) {
    && net'.sessions.Keys == net.sessions.Keys && net'.tokens == net.tokens
    && net'.channels == net.channels && net'.lobby == net.lobby
    && forall t :: t in net.sessions ==> Identity(net'.sessions[t]) == Identity(net.sessions[t])
  }

  lemma PostSame(net0: Net, net: Net, who: set<int>, p: Packet)
    requires SameButQueues(net0, net)
    ensures SameButQueues(net0, Post(net, who, p))
  {
  }

  lemma PostsSame(net0: Net)
    ensures forall net, who, p {:trigger Post(net, who, p)} ::
      SameButQueues(net0, net) ==> SameButQueues(net0, Post(net, who, p))
  {
    forall net, who, p | SameButQueues(net0, net) ensures SameButQueues(net0, Post(net, who, p)) {
      PostSame(net0, net, who, p);
    }
  }

  // Sessions, index, lobby and channels: the user is taken out of each, and nothing else changes
  // but the queues of those who are told.
  lemma NetAfterDeparture(v: View, user: i32)
    requires Inv(v) && user in v.net.tokens
    ensures SameButQueues(LeaveChannels(DropSession(v.net, user), user), DropUser(v, user).net)
  {
    hide Post; hide RemoveUser; hide Stop; hide SameButQueues; hide Farewell; hide DoStopSpectating;
    hide LeaveChannels; hide DropSession;
    var net0 := DropSession(v.net, user);
    PostsSame(net0);
    SameNet(net0);
    FarewellSame(net0, net0, RemoveUser(v.rooms, user).1);
    var v1 := Leave(v.(net := net0), user);
    StopSame(net0, v1, user);
    var v2 := DoStopSpectating(v1, user);
    ChannelsSame(net0, Post(v2.net, Watchers(v2.watch, user), Packet.SpectatorLeft(user)), user);
  }

  lemma FarewellSame(net0: Net, net: Net, gone: Option<Removal>)
    requires SameButQueues(net0, net)
    ensures SameButQueues(net0, Farewell(net, gone))
  {
    hide Post; hide SameButQueues;
    PostsSame(net0);
  }

  lemma StopSame(net0: Net, v: View, user: i32)
    requires SameButQueues(net0, v.net)
    ensures SameButQueues(net0, DoStopSpectating(v, user).net)
  {
    hide Post; hide SameButQueues; hide Stop;
    PostsSame(net0);
  }

  lemma SameNet(net: Net)
    ensures SameButQueues(net, net)
  {
  }

  lemma ChannelsSame(net0: Net, net: Net, user: i32)
    requires SameButQueues(net0, net)
    ensures SameButQueues(LeaveChannels(net0, user), LeaveChannels(net, user))
  {
  }

  ghost predicate SameSession(net: Net, net': Net, t: Token) {
    t in net.sessions && t in net'.sessions && Identity(net'.sessions[t]) == Identity(net.sessions[t])
  }

  // The whole of remove_session: the user is in no session, index, lobby, channel, slot, room
  // mapping or spectator list, and everybody else keeps theirs.
  lemma DepartureIsClean(v: View, user: i32)
    requires Inv(v) && user in v.net.tokens
    ensures var v' := DropUser(v, user);
      && user !in v'.net.tokens && v.net.tokens[user] !in v'.net.sessions && user !in v'.net.lobby
      && (forall c :: c in v'.net.channels ==> user !in v'.net.channels[c])
      && user !in v'.rooms.userToMatch
      && (forall id :: id in v'.rooms.matches ==> user as int !in Occupants(v'.rooms.matches[id].slots))
      && user !in v'.watch.target && user !in v'.watch.spectators
      && (forall h :: user !in WatchersOf(v'.watch, h))
    ensures var v' := DropUser(v, user);
      && v'.net.tokens == v.net.tokens - {user} && v'.net.lobby == v.net.lobby - {user}
      && (forall u :: u in v'.net.tokens ==> SameSession(v.net, v'.net, v.net.tokens[u]))
      && v'.net.channels.Keys == v.net.channels.Keys
      && (forall c :: c in v.net.channels ==> v'.net.channels[c] == v.net.channels[c] - {user})
      && v'.rooms.userToMatch == v.rooms.userToMatch - {user as int}
      && (forall id :: id in v'.rooms.matches ==>
        id in v.rooms.matches && OnlyDeparted(v.rooms.matches[id], v'.rooms.matches[id], user))
      && (forall id :: id in v.rooms.matches && id !in v'.rooms.matches ==>
        Occupants(v.rooms.matches[id].slots) == {user as int})
      && (forall s :: s in v'.watch.target <==> s in v.watch.target && s != user && v.watch.target[s] != user)
      && (forall s :: s in v'.watch.target ==> v'.watch.target[s] == v.watch.target[s])
      && (forall h :: h != user ==> WatchersOf(v'.watch, h) == Without(WatchersOf(v.watch, h), user))
  {
    hide RoomsInv; hide WatchInv; hide DropUser; hide RemoveUser; hide Stop; hide DropHost;
    hide OnlyDeparted; hide Occupants;
    DropUserParts(v, user);
    DropUserKeeps(v, user);
    NetAfterDeparture(v, user);
    UserIsPositive(v.net, user);
    SeatsOf(v.rooms, v.trace);
    RemovalShrinks(v.rooms, user);
    forall id { RoomsAfterDeparture(v.rooms, user, id); }
    WatchAfterDeparture(v.watch, Online(v.net), user);
  }

  lemma SeatsOf(r: Rooms, tr: seq<Event>)
    requires RoomsInv(r, tr)
    ensures SeatInv(r)
  {
  }
}
