/** The server's shared state and the packet handlers that update it in place. Each method is
    proved to have exactly the effect of the corresponding function of module Server. */
module BanchoState {
  import opened Wrappers
  import opened BanchoTypes
  import opened Rooms
  import opened Rounds
  import opened Spectating
  import opened Network
  import opened Server
  import opened ServerSafety
  import opened Departure
  import opened SlotLoops
  import opened HandlerFacts

  class BanchoState {
    var sessions: map<Token, Session>
    var tokens: map<i32, Token>
    var channels: map<bytes, set<i32>>
    var matches: map<u16, Match>
    var nextMatchId: u16
    var userToMatch: map<int, u16>
    var lobby: set<i32>
    var startTimes: map<u16, int>
    var lastScores: map<u16, map<int, Frame>>
    var loaded: map<u16, set<int>>
    var spectators: map<int, seq<int>>
    var target: map<int, int>
    ghost var trace: seq<Event>

    ghost function NetOf(): Net
      reads this
    {
      Net(sessions, tokens, channels, lobby)
    }

    ghost function RoomsOf(): Rooms
      reads this
    {
      Tables(matches, nextMatchId, userToMatch, startTimes, lastScores, loaded)
    }

    ghost function WatchOf(): Watch
      reads this
    {
      Watch(spectators, target)
    }

    ghost function State(): View
      reads this
    {
      View(NetOf(), RoomsOf(), WatchOf(), trace)
    }

    ghost predicate Valid()
      reads this
    {
      Inv(State())
    }

    constructor ()
      ensures State() == START && Valid()
    {
      sessions, tokens, lobby := map[], map[], {};
      channels := map[OSU := {}, ANNOUNCE := {}, LOBBY := {}, MULTIPLAYER := {}, SPECTATOR := {}];
      matches, nextMatchId, userToMatch, startTimes, lastScores, loaded := map[], 1, map[], map[], map[], map[];
      spectators, target := map[], map[];
      trace := [];
      new;
      StartIsSafe();
    }

    // ---------- delivery ----------

    method SendToUser(user: int, p: Packet)
      requires IndexInv(NetOf())
      modifies this`sessions
      ensures NetOf() == Post(old(NetOf()), {user}, p) && IndexInv(NetOf())
    {
      PostIndex(NetOf(), {user}, p);
      if -0x8000_0000 <= user < 0x8000_0000 && user in tokens {
        PostOnline(NetOf(), user, p);
        var t := tokens[user];
        if t in sessions {
          sessions := sessions[t := sessions[t].(queue := sessions[t].queue + [p])];
        }
      } else {
        PostOffline(NetOf(), user, p);
      }
    }

    // Exactly one copy to each online occupant other than the excepted one.
    method BroadcastToMatch(id: u16, p: Packet, except: Option<int>)
      requires IndexInv(NetOf()) && (id in matches ==> RoomOk(matches[id]))
      modifies this`sessions
      ensures IndexInv(NetOf())
      ensures NetOf() ==
        if id !in matches then old(NetOf()) else
        Post(old(NetOf()),
             if except.Some? then Occupants(matches[id].slots) - {except.value} else Occupants(matches[id].slots), p)
    {
      hide Post; hide IndexInv;
      if id in matches {
        var slots := matches[id].slots;
        ghost var net := NetOf();
        PostNobody(net, p);
        assert Reached(slots, 0, except) == {};
        var i := 0;
        while i < 16
          modifies this`sessions
          invariant i <= 16 && IndexInv(NetOf())
          invariant NetOf() == Post(net, Reached(slots, i, except), p)
        {
          ReachedOneMore(slots, i, except);
          if HasPlayer(slots[i].status) && slots[i].user > 0 && except != Some(slots[i].user as int) {
            PostUnion(net, Reached(slots, i, except), slots[i].user, p);
            SendToUser(slots[i].user, p);
          }
          i := i + 1;
        }
        ReachedAll(slots, except);
      }
    }

    method BroadcastToLobby(p: Packet)
      requires IndexInv(NetOf())
      modifies this`sessions
      ensures NetOf() == Post(old(NetOf()), lobby, p) && IndexInv(NetOf())
    {
      hide Post; hide IndexInv;
      ghost var net := NetOf();
      PostNobody(net, p);
      var rest := lobby;
      assert lobby - rest == {};
      while rest != {}
        modifies this`sessions
        invariant rest <= lobby && IndexInv(NetOf())
        invariant NetOf() == Post(net, lobby - rest, p)
        decreases rest
      {
        var u :| u in rest;
        PostUnion(net, lobby - rest, u, p);
        assert lobby - (rest - {u}) == lobby - rest + {u};
        SendToUser(u, p);
        rest := rest - {u};
      }
      assert lobby - {} == lobby;
    }

    method BroadcastToSpectators(host: int, p: Packet)
      requires IndexInv(NetOf()) && (host in spectators ==> NoRepeats(spectators[host]))
      modifies this`sessions
      ensures NetOf() == Post(old(NetOf()), Watchers(WatchOf(), host), p) && IndexInv(NetOf())
    {
      hide Post; hide IndexInv;
      ghost var net := NetOf();
      PostNobody(net, p);
      if host in spectators {
        var list := spectators[host];
        assert Elements(list[..0]) == {};
        var i := 0;
        while i < |list|
          modifies this`sessions
          invariant i <= |list| && IndexInv(NetOf())
          invariant NetOf() == Post(net, Elements(list[..i]), p)
        {
          assert list[i] !in list[..i];
          assert Elements(list[..i + 1]) == Elements(list[..i]) + {list[i]};
          PostUnion(net, Elements(list[..i]), list[i], p);
          SendToUser(list[i], p);
          i := i + 1;
        }
        assert list[..|list|] == list;
      } else {
        assert Watchers(WatchOf(), host) == {};
      }
    }

    method Broadcast(p: Packet)
      modifies this`sessions
      ensures NetOf() == PostAll(old(NetOf()), p)
    {
      var before := sessions;
      var rest := sessions.Keys;
      while rest != {}
        modifies this`sessions
        invariant rest <= before.Keys == sessions.Keys
        invariant forall t :: t in before ==> sessions[t] == if t in rest then before[t] else Push(before[t], p)
        decreases rest
      {
        var t :| t in rest;
        sessions := sessions[t := sessions[t].(queue := sessions[t].queue + [p])];
        rest := rest - {t};
      }
      assert sessions == PostAll(old(NetOf()), p).sessions;
    }

    method BroadcastToChannel(channel: bytes, p: Packet, except: Option<int>)
      requires IndexInv(NetOf())
      modifies this`sessions
      ensures IndexInv(NetOf())
      ensures NetOf() == Post(old(NetOf()),
        if except.Some? then Members(old(NetOf()), channel) - {except.value} else Members(old(NetOf()), channel), p)
    {
      hide Post; hide IndexInv;
      ghost var net := NetOf();
      PostNobody(net, p);
      ghost var all := Members(net, channel);
      ghost var skip: set<int> := if except.Some? then {except.value} else {};
      ghost var goal := if except.Some? then all - {except.value} else all;
      if channel in channels {
        var rest := channels[channel];
        assert all - rest - skip == {};
        while rest != {}
          modifies this`sessions
          invariant rest <= channels[channel] && IndexInv(NetOf())
          invariant NetOf() == Post(net, all - rest - skip, p)
          decreases rest
        {
          var u :| u in rest;
          if except != Some(u as int) {
            PostUnion(net, all - rest - skip, u, p);
            assert all - (rest - {u}) - skip == all - rest - skip + {u as int};
            SendToUser(u, p);
          } else {
            assert all - (rest - {u}) - skip == all - rest - skip;
          }
          rest := rest - {u};
        }
        assert all - rest - skip == goal;
      } else {
        assert goal == {};
      }
    }

    // ---------- rooms ----------

    method RemoveUserFromMatch(user: int) returns (gone: Option<Removal>)
      modifies this`userToMatch, this`matches, this`startTimes, this`lastScores, this`loaded
      ensures (RoomsOf(), gone) == RemoveUser(old(RoomsOf()), user)
    {
      if user !in userToMatch { return None; }
      var id := userToMatch[user];
      userToMatch := userToMatch - {user};
      if id !in matches { return None; }
      var m := matches[id];
      var seat := FindUser(m.slots, user);
      if seat.None? { return None; }
      m := m.(slots := m.slots[seat.value := EMPTY_SLOT]);
      var remaining := RemainingPlayers(m.slots);
      if remaining == [] {
        matches := matches - {id};
        startTimes, lastScores, loaded := startTimes - {id}, lastScores - {id}, loaded - {id};
        return Some(Removal(id, m, true));
      }
      if m.host == user { m := m.(host := remaining[0]); }
      matches := matches[id := m];
      return Some(Removal(id, m, false));
    }

    // Leaves the room, if any, and tells those who remain and the lobby.
    method LeaveRoom(user: i32) returns (gone: Option<Removal>)
      requires IndexInv(NetOf()) && SeatInv(RoomsOf())
      modifies this`sessions, this`userToMatch, this`matches, this`startTimes, this`lastScores, this`loaded
      ensures State() == Leave(old(State()), user) && gone == RemoveUser(old(RoomsOf()), user).1
      ensures IndexInv(NetOf()) && SeatInv(RoomsOf())
    {
      hide IndexInv; hide Post; hide SeatInv; hide RemoveUser; hide Occupants;
      RemoveUserKeepsSeats(RoomsOf(), user);
      RemovalRoom(RoomsOf(), user);
      gone := RemoveUserFromMatch(user);
      match gone
      case None =>
      case Some(g) =>
        if g.disbanded {
          BroadcastToLobby(Packet.MatchDisband(g.id));
        } else {
          GoodRoomHere(RoomsOf(), g.id);
          BroadcastToMatch(g.id, Packet.MatchUpdate(g.room), None);
          BroadcastToLobby(Packet.MatchUpdate(g.room));
        }
    }

    // session.channels.insert and, when the channel exists, add_member.
    method AddToChannel(user: i32, channel: bytes)
      requires IndexInv(NetOf()) && user in tokens
      modifies this`sessions, this`channels
      ensures NetOf() == Enrol(old(NetOf()), user, channel) && IndexInv(NetOf())
    {
      EnrolOnline(NetOf(), user, channel);
      var t := tokens[user];
      sessions := sessions[t := sessions[t].(channels := sessions[t].channels + {channel})];
      if channel in channels { channels := channels[channel := channels[channel] + {user}]; }
    }

    method RemoveFromChannel(user: i32, channel: bytes)
      requires IndexInv(NetOf()) && user in tokens
      modifies this`sessions, this`channels
      ensures NetOf() == Withdraw(old(NetOf()), user, channel) && IndexInv(NetOf())
    {
      WithdrawOnline(NetOf(), user, channel);
      var t := tokens[user];
      sessions := sessions[t := sessions[t].(channels := sessions[t].channels - {channel})];
      if channel in channels { channels := channels[channel := channels[channel] - {user}]; }
    }

    // Takes the next room number and seats the creator, alone, in slot 0.
    method OpenNewRoom(user: i32, asked: Match) returns (m: Match)
      modifies this`matches, this`nextMatchId, this`userToMatch
      ensures RoomsOf() == OpenRoom(old(RoomsOf()), user, asked) && m == NewRoom(old(nextMatchId), user, asked)
    {
      var id := nextMatchId;
      nextMatchId := (nextMatchId + 1) % 0x1_0000;
      if nextMatchId == 0 { nextMatchId := 1; }
      var slots := NoSlots();
      slots := slots[0 := slots[0].(status := SLOT_NOT_READY)];
      slots := slots[0 := slots[0].(user := user)];
      assert slots == CreatorAlone(user);
      m := asked.(id := id, host := user, inProgress := false, slots := slots);
      matches := matches[id := m];
      userToMatch := userToMatch[user := id];
    }

    // The packets and the chat channel that come with a seat in a room.
    method WelcomeUser(user: i32, m: Match)
      requires IndexInv(NetOf()) && user in tokens
      modifies this`sessions, this`channels
      ensures NetOf() == Welcome(old(NetOf()), user, m) && IndexInv(NetOf())
    {
      hide Post; hide Enrol; hide IndexInv;
      SendToUser(user, Packet.MatchJoinSuccess(m));
      SendToUser(user, Packet.ChannelJoinSuccess(MULTIPLAYER));
      AddToChannel(user, MULTIPLAYER);
    }

    method FoundRoom(user: i32, asked: Match)
      requires IndexInv(NetOf()) && user in tokens
      modifies this`sessions, this`userToMatch, this`matches, this`nextMatchId, this`channels, this`trace
      ensures State() == Found(old(State()), user, asked)
    {
      hide Welcome; hide Post; hide IndexInv; hide OpenRoom; hide NewRoom;
      trace := trace + [Opened(nextMatchId)];
      var m := OpenNewRoom(user, asked);
      WelcomeUser(user, m);
      BroadcastToLobby(Packet.MatchNew(m));
    }

    method CreateMatch(user: i32, asked: Match)
      requires Valid() && user in tokens
      modifies this`sessions, this`userToMatch, this`matches, this`startTimes, this`lastScores, this`loaded,
        this`nextMatchId, this`channels, this`trace
      ensures State() == DoCreate(old(State()), user, asked) && Valid()
    {
      hide Inv; hide SeatInv; hide IndexInv; hide Leave; hide RemoveUser; hide Found;
      ValidParts(State());
      CreateKeeps(State(), user, asked);
      ghost var v := State();
      var gone := LeaveRoom(user);
      LeaveKeepsTokens(v, user);
      FoundRoom(user, asked);
    }

    method MayJoin(id: u16, password: bytes) returns (yes: bool)
      ensures yes == CanJoin(RoomsOf(), id, password)
    {
      if id !in matches { return false; }
      var m := matches[id];
      if m.password.Some? {
        if m.password.value != [] && m.password.value != password { return false; }
      }
      var free := FindStatus(m.slots, SLOT_OPEN);
      return free.Some?;
    }

    // Seats the user in the first open slot of a room that still exists.
    method TakeSeat(user: i32, id: u16) returns (m: Match)
      requires id in matches
      modifies this`matches, this`userToMatch
      ensures RoomsOf() == Enter(old(RoomsOf()), user, id) && id in matches && m == matches[id]
    {
      m := matches[id];
      var free := FindStatus(m.slots, SLOT_OPEN);
      if free.Some? { m := m.(slots := m.slots[free.value := Slot(SLOT_NOT_READY, TEAM_NEUTRAL, user, 0)]); }
      matches := matches[id := m];
      userToMatch := userToMatch[user := id];
    }

    method JoinMatch(user: i32, wanted: i32, password: bytes)
      requires Valid() && user in tokens
      modifies this`sessions, this`userToMatch, this`matches, this`startTimes, this`lastScores, this`loaded,
        this`channels
      ensures State() == DoJoin(old(State()), user, wanted, password) && Valid()
    {
      hide Inv; hide Welcome; hide Post; hide SeatInv; hide IndexInv; hide Enter; hide CanJoin;
      hide Occupants; hide Farewell; hide RemoveUser;
      ValidParts(State());
      var id: u16 := wanted % 0x1_0000;
      JoinKeeps(State(), user, wanted, password);
      var canJoin := MayJoin(id, password);
      if !canJoin {
        SendToUser(user, Packet.MatchJoinFail);
        return;
      }
      JoinSeats(RoomsOf(), user, id, password);
      var gone := LeaveRoom(user);
      if id in matches {
        var m := TakeSeat(user, id);
        WelcomeUser(user, m);
        GoodRoomHere(RoomsOf(), id);
        BroadcastToMatch(id, Packet.MatchUpdate(m), Some(user));
        BroadcastToLobby(Packet.MatchUpdate(m));
      }
    }

    // ---------- inside a room ----------

    method UserNames() returns (names: map<i32, bytes>)
      requires IndexInv(NetOf())
      ensures names == NamesOf(NetOf())
    {
      var found: map<i32, bytes> := map[];
      var rest := sessions.Keys;
      while rest != {}
        invariant rest <= sessions.Keys
        invariant forall u :: u in found <==> u in NamesOf(NetOf()) && tokens[u] !in rest
        invariant forall u :: u in found ==> found[u] == NamesOf(NetOf())[u]
        decreases rest
      {
        var t :| t in rest;
        found := found[sessions[t].user := sessions[t].name];
        rest := rest - {t};
      }
      assert found.Keys == NamesOf(NetOf()).Keys;
      names := found;
    }

    // Ends the round in the tables: the scores are handed over, the rest is forgotten.
    method TakeRound(id: u16) returns (scores: map<int, Frame>)
      modifies this`startTimes, this`lastScores, this`loaded
      ensures scores == ScoresOf(old(RoomsOf()), id)
      ensures startTimes == old(startTimes) - {id} && lastScores == old(lastScores) - {id} &&
        loaded == old(loaded) - {id}
    {
      loaded := loaded - {id};
      startTimes := startTimes - {id};
      scores := map[];
      if id in lastScores { scores := lastScores[id]; }
      lastScores := lastScores - {id};
    }

    // Shows the closed room and its result.
    method ShowResult(id: u16, m: Match, outcome: Outcome)
      requires IndexInv(NetOf()) && RoomOk(m)
      modifies this`sessions, this`matches, this`trace
      ensures matches == old(matches)[id := m] && trace == old(trace) + [Ended(id, outcome)]
      ensures NetOf() == ResultNet(old(NetOf()), m, outcome) && IndexInv(NetOf())
    {
      hide IndexInv; hide RoomOk; hide Occupants; hide Post; hide Members;
      matches := matches[id := m];
      trace := trace + [Ended(id, outcome)];
      BroadcastToMatch(id, Packet.MatchUpdate(m), None);
      BroadcastToLobby(Packet.MatchUpdate(m));
      if outcome.teamVs || outcome.best.name != Known([]) {
        BroadcastToChannel(MULTIPLAYER, Packet.RoundConcluded(outcome), None);
      }
    }

    // try_finish_match
    method TryFinish(id: u16)
      requires IndexInv(NetOf()) && SeatInv(RoomsOf())
      modifies this`sessions, this`matches, this`startTimes, this`lastScores, this`loaded, this`trace
      ensures State() == DoFinish(old(State()), id) && IndexInv(NetOf())
    {
      hide IndexInv; hide SeatInv; hide EndRound; hide Closed; hide ShouldFinish; hide RoomOk;
      if id !in matches || !matches[id].inProgress { return; }
      var m := matches[id];
      GoodRoomHere(RoomsOf(), id);
      ClosedOk(m);
      var finish := CanFinish(m.slots);
      if finish { FinishRound(id); }
    }

    method FinishRound(id: u16)
      requires IndexInv(NetOf()) && id in matches && RoomOk(matches[id]) && RoomOk(Closed(matches[id]))
      modifies this`sessions, this`matches, this`startTimes, this`lastScores, this`loaded, this`trace
      ensures State() == EndRound(old(State()), id) && IndexInv(NetOf())
    {
      hide IndexInv; hide Post; hide Close; hide Closed; hide NamesOf; hide Occupants; hide RoomOk;
      hide ResultNet; hide ScoresOf;
      var m := matches[id];
      NamesAreStable(NetOf(), Occupants(m.slots), Packet.MatchComplete);
      var scores := TakeRound(id);
      BroadcastToMatch(id, Packet.MatchComplete, None);
      var outcome := Judge(m, scores);
      m := CloseRoom(m);
      ShowResult(id, m, outcome);
    }

    method Judge(m: Match, scores: map<int, Frame>) returns (outcome: Outcome)
      requires IndexInv(NetOf())
      ensures outcome == Close(m, scores, NamesOf(NetOf()))
    {
      hide IndexInv; hide Close; hide NamesOf;
      var names := UserNames();
      outcome := Score(m, scores, names);
    }

    method CloseRoom(m: Match) returns (m': Match)
      ensures m' == Closed(m)
    {
      var slots := ResetAll(m.slots);
      m' := m.(inProgress := false, slots := slots);
    }

    method PartMatch(user: i32)
      requires Valid()
      modifies this`sessions, this`userToMatch, this`matches, this`startTimes, this`lastScores, this`loaded, this`trace
      ensures State() == DoPart(old(State()), user) && Valid()
    {
      hide Inv; hide Leave; hide SeatInv; hide IndexInv; hide DoFinish; hide RemoveUser;
      ValidParts(State());
      PartKeeps(State(), user);
      var gone := LeaveRoom(user);
      if gone.Some? && !gone.value.disbanded { TryFinish(gone.value.id); }
    }

    // The room becomes m; its people, and sometimes the lobby, are told.
    method ShowRoom(id: u16, m: Match, lobbyToo: bool)
      requires IndexInv(NetOf()) && RoomOk(m)
      modifies this`sessions, this`matches
      ensures State() == Show(old(State()), id, m, lobbyToo) && IndexInv(NetOf())
    {
      hide IndexInv; hide Post; hide RoomOk; hide Occupants;
      matches := matches[id := m];
      BroadcastToMatch(id, Packet.MatchUpdate(m), None);
      if lobbyToo { BroadcastToLobby(Packet.MatchUpdate(m)); }
    }

    method ChangeSlot(user: i32, target: i32)
      requires Valid() && user in tokens
      modifies this`sessions, this`matches
      ensures State() == DoArm(old(State()), user, Arm.ChangeSlot(target), []) && Valid()
    {
      hide Inv; hide DoArm; hide IndexInv; hide SeatInv; hide Show; hide RoomOk;
      RoomArmFacts(State(), user, Arm.ChangeSlot(target));
      if user !in userToMatch || userToMatch[user] !in matches { return; }
      var id := userToMatch[user];
      var m := matches[id];
      if 0 <= target < 16 && m.slots[target].status == SLOT_OPEN {
        var seat := FindUser(m.slots, user);
        if seat.Some? {
          var own := m.slots[seat.value];
          MovedKeepsRoom(m, user, target);
          m := m.(slots := m.slots[seat.value := EMPTY_SLOT]);
          m := m.(slots := m.slots[target := Slot(own.status, own.team, own.user, own.mods)]);
          ShowRoom(id, m, true);
        }
      }
    }

    // READY, NOT_READY, NO_BEATMAP and HAS_BEATMAP; only the first two are shown in the lobby.
    method SetStatus(user: i32, status: u8, lobbyToo: bool)
      requires Valid() && user in tokens && status in {SLOT_NOT_READY, SLOT_READY, SLOT_NO_MAP}
      modifies this`sessions, this`matches
      ensures State() == match RoomOf(old(RoomsOf()), user)
        case None => old(State())
        case Some(id) => ShowIf(old(State()), id, WithOwnStatus(old(matches)[id], user, status), lobbyToo)
      ensures Valid()
    {
      hide Inv; hide IndexInv; hide SeatInv; hide Show; hide RoomOk;
      StatusFacts(State(), user, status, lobbyToo);
      if user !in userToMatch || userToMatch[user] !in matches { return; }
      var id := userToMatch[user];
      var m := matches[id];
      var seat := FindUser(m.slots, user);
      if seat.Some? {
        m := m.(slots := m.slots[seat.value := m.slots[seat.value].(status := status)]);
        ShowRoom(id, m, lobbyToo);
      }
    }

    method LockSlot(user: i32, target: i32)
      requires Valid() && user in tokens
      modifies this`sessions, this`matches
      ensures State() == DoArm(old(State()), user, Lock(target), []) && Valid()
    {
      hide Inv; hide DoArm; hide IndexInv; hide SeatInv; hide Show; hide RoomOk;
      RoomArmFacts(State(), user, Lock(target));
      if user !in userToMatch || userToMatch[user] !in matches { return; }
      var id := userToMatch[user];
      var m := matches[id];
      if m.host == user && 0 <= target < 16 {
        LockKeepsRoom(m, user, target);
        if m.slots[target].status == SLOT_OPEN {
          m := m.(slots := m.slots[target := m.slots[target].(status := SLOT_LOCKED)]);
        } else if m.slots[target].status == SLOT_LOCKED {
          m := m.(slots := m.slots[target := m.slots[target].(status := SLOT_OPEN)]);
        }
        ShowRoom(id, m, true);
      }
    }

    method ChangeSettings(user: i32, asked: Match)
      requires Valid() && user in tokens
      modifies this`sessions, this`matches
      ensures State() == DoArm(old(State()), user, Arm.ChangeSettings(asked), []) && Valid()
    {
      hide Inv; hide DoArm; hide IndexInv; hide SeatInv; hide Show; hide RoomOk; hide UnreadyAll;
      RoomArmFacts(State(), user, Arm.ChangeSettings(asked));
      if user !in userToMatch || userToMatch[user] !in matches { return; }
      var id := userToMatch[user];
      var m := matches[id];
      if m.host == user {
        SettingsKeepRoom(m, user, asked);
        m := m.(name := asked.name, beatmapName := asked.beatmapName, beatmapId := asked.beatmapId,
          beatmapMd5 := asked.beatmapMd5);
        m := m.(activeMods := asked.activeMods, playMode := asked.playMode, scoringType := asked.scoringType);
        m := m.(teamType := asked.teamType, freemod := asked.freemod);
        var slots := UnreadyOthers(m.slots, user);
        m := m.(slots := slots);
        ShowRoom(id, m, true);
      }
    }

    method ChangeMods(user: i32, mods: u32)
      requires Valid() && user in tokens
      modifies this`sessions, this`matches
      ensures State() == DoArm(old(State()), user, Arm.ChangeMods(mods), []) && Valid()
    {
      hide Inv; hide DoArm; hide IndexInv; hide SeatInv; hide Show; hide RoomOk;
      RoomArmFacts(State(), user, Arm.ChangeMods(mods));
      if user !in userToMatch || userToMatch[user] !in matches { return; }
      var id := userToMatch[user];
      var m := matches[id];
      ModsKeepRoom(m, user, mods);
      if m.freemod {
        var seat := FindUser(m.slots, user);
        if seat.Some? {
          m := m.(slots := m.slots[seat.value := m.slots[seat.value].(mods := mods)]);
          ShowRoom(id, m, false);
        }
      } else if m.host == user {
        m := m.(activeMods := mods);
        ShowRoom(id, m, false);
      }
    }

    method ChangeTeam(user: i32)
      requires Valid() && user in tokens
      modifies this`sessions, this`matches, this`startTimes, this`lastScores, this`loaded, this`trace
      ensures State() == DoArm(old(State()), user, Arm.ChangeTeam, []) && Valid()
    {
      hide Inv; hide DoArm; hide IndexInv; hide SeatInv; hide Show; hide RoomOk; hide DoFinish;
      RoomArmFacts(State(), user, Arm.ChangeTeam);
      if user !in userToMatch || userToMatch[user] !in matches { return; }
      var id := userToMatch[user];
      var m := matches[id];
      var seat := FindUser(m.slots, user);
      if seat.Some? {
        TeamKeepsRoom(RoomsOf(), id, user);
        var team := if m.slots[seat.value].team == TEAM_BLUE then TEAM_RED else TEAM_BLUE;
        m := m.(slots := m.slots[seat.value := m.slots[seat.value].(team := team)]);
        ghost var v := State();
        ShowRoom(id, m, false);
        ShownRooms(v, id, m, false);
        TryFinish(id);
      }
    }

    method ChangeHost(user: i32, target: i32)
      requires Valid() && user in tokens
      modifies this`sessions, this`matches
      ensures State() == DoArm(old(State()), user, Arm.ChangeHost(target), []) && Valid()
    {
      hide Inv; hide DoArm; hide IndexInv; hide SeatInv; hide Show; hide RoomOk; hide Post;
      RoomArmFacts(State(), user, Arm.ChangeHost(target));
      if user !in userToMatch || userToMatch[user] !in matches { return; }
      var id := userToMatch[user];
      var m := matches[id];
      if m.host == user && 0 <= target < 16 && HasPlayer(m.slots[target].status) {
        HostKeepsRoom(m, user, target);
        m := m.(host := m.slots[target].user);
        SendToUser(m.host, Packet.MatchTransferHost);
        ShowRoom(id, m, true);
      }
    }

    method BeginTables(id: u16, m: Match, now: int)
      modifies this`matches, this`startTimes, this`lastScores, this`loaded, this`trace
      ensures matches == old(matches)[id := m] && startTimes == old(startTimes)[id := now]
      ensures lastScores == old(lastScores)[id := map[]] && loaded == old(loaded)[id := {}]
      ensures trace == old(trace) + [Began(id)]
    {
      matches := matches[id := m];
      startTimes := startTimes[id := now];
      lastScores := lastScores[id := map[]];
      loaded := loaded[id := {}];
      trace := trace + [Began(id)];
    }

    // Opens a round in the tables, shows it to the players and then to the lobby.
    method OpenRound(id: u16, m: Match, now: int)
      requires IndexInv(NetOf()) && RoomOk(m)
      modifies this`sessions, this`matches, this`startTimes, this`lastScores, this`loaded, this`trace
      ensures State() == BeginRound(old(State()), id, m, now)
    {
      hide IndexInv; hide RoomOk; hide Post; hide Occupants;
      BeginTables(id, m, now);
      BroadcastToMatch(id, Packet.MatchStart(m), None);
      BroadcastToLobby(Packet.MatchUpdate(m));
    }

    method StartMatch(user: i32, now: int)
      requires Valid() && user in tokens
      modifies this`sessions, this`matches, this`startTimes, this`lastScores, this`loaded, this`trace
      ensures State() == DoArm(old(State()), user, StartRound(now), []) && Valid()
    {
      hide Inv; hide DoArm; hide IndexInv; hide SeatInv; hide RoomOk; hide BeginRound; hide StartAll;
      RoomArmFacts(State(), user, StartRound(now));
      if user !in userToMatch || userToMatch[user] !in matches { return; }
      var id := userToMatch[user];
      var m := matches[id];
      if m.host == user {
        StartKeepsRoom(m, user);
        var slots := BeginAll(m.slots);
        m := m.(inProgress := true, slots := slots);
        OpenRound(id, m, now);
      }
    }

    method AddLoaded(id: u16, user: i32)
      modifies this`loaded, this`trace
      ensures loaded == old(loaded)[id := LoadedOf(old(RoomsOf()), id) + {user as int}] &&
        trace == old(trace) + [Loaded(id, user)]
    {
      var before: set<int> := {};
      if id in loaded { before := loaded[id]; }
      loaded := loaded[id := before + {user as int}];
      trace := trace + [Loaded(id, user)];
    }

    method LoadComplete(user: i32)
      requires Valid() && user in tokens
      modifies this`sessions, this`loaded, this`trace
      ensures State() == DoArm(old(State()), user, Arm.LoadComplete, []) && Valid()
    {
      hide Inv; hide DoArm; hide IndexInv; hide SeatInv; hide RoomOk; hide Post; hide Occupants; hide PlayingUsers;
      LoadFacts(State(), user);
      if user !in userToMatch { return; }
      var id := userToMatch[user];
      AddLoaded(id, user);
      if id !in matches { return; }
      var m := matches[id];
      var everyone := EveryoneLoaded(m.slots, loaded[id]);
      if everyone {
        BroadcastToMatch(id, Packet.MatchAllPlayersLoaded, None);
        trace := trace + [AllLoaded(id, PlayingUsers(m.slots))];
      }
    }

    method KeepScore(id: u16, user: i32, kept: Frame)
      modifies this`lastScores, this`trace
      ensures lastScores == old(lastScores)[id := ScoresOf(old(RoomsOf()), id)[user as int := kept]]
      ensures trace == old(trace) + [Scored(id, user, kept)]
    {
      var scores: map<int, Frame> := map[];
      if id in lastScores { scores := lastScores[id]; }
      lastScores := lastScores[id := scores[user as int := kept]];
      trace := trace + [Scored(id, user, kept)];
    }

    method RelayFrame(id: u16, user: i32, payload: bytes, kept: Frame)
      requires IndexInv(NetOf()) && id in matches && RoomOk(matches[id])
      modifies this`sessions, this`lastScores, this`trace
      ensures NetOf() == Post(old(NetOf()), Occupants(matches[id].slots), Packet.MatchScoreUpdate(payload))
      ensures lastScores == old(lastScores)[id := ScoresOf(old(RoomsOf()), id)[user as int := kept]]
      ensures trace == old(trace) + [Scored(id, user, kept)]
    {
      hide IndexInv; hide RoomOk; hide Occupants; hide Post;
      KeepScore(id, user, kept);
      BroadcastToMatch(id, Packet.MatchScoreUpdate(payload), None);
    }

    // relay_match_score_frame
    method RelayScore(user: i32, payload: bytes, frame: Frame)
      requires Valid() && user in tokens
      modifies this`sessions, this`lastScores, this`trace
      ensures State() == DoArm(old(State()), user, ScoreUpdate(payload, frame), []) && Valid()
    {
      hide Inv; hide DoArm; hide IndexInv; hide SeatInv; hide RoomOk; hide Post; hide Occupants;
      ScoreFacts(State(), user, payload, frame);
      if user !in userToMatch || userToMatch[user] !in matches { return; }
      var id := userToMatch[user];
      var m := matches[id];
      var seat := FindUser(m.slots, user);
      if seat.None? || |payload| <= 4 { return; }
      var kept := frame.(slotId := seat.value);
      RelayFrame(id, user, payload[4 := seat.value], kept);
    }

    // FAILED and SKIP_REQUEST
    method Notice(user: i32, failed: bool)
      requires Valid() && user in tokens
      modifies this`sessions
      ensures State() == DoArm(old(State()), user, if failed then Failed else SkipRequest, []) && Valid()
    {
      hide Inv; hide DoArm; hide IndexInv; hide SeatInv; hide RoomOk; hide Post; hide Occupants;
      NoticeFacts(State(), user, failed);
      if user !in userToMatch || userToMatch[user] !in matches { return; }
      var id := userToMatch[user];
      var seat := FindUser(matches[id].slots, user);
      if seat.Some? {
        var p := if failed then Packet.MatchPlayerFailed(seat.value) else Packet.MatchPlayerSkipped(seat.value);
        BroadcastToMatch(id, p, None);
      }
    }

    method CompleteMatch(user: i32)
      requires Valid() && user in tokens
      modifies this`sessions, this`matches, this`startTimes, this`lastScores, this`loaded, this`trace
      ensures State() == DoArm(old(State()), user, CompleteRound, []) && Valid()
    {
      hide Inv; hide DoArm; hide IndexInv; hide SeatInv; hide DoFinish;
      CompleteFacts(State(), user);
      if user !in userToMatch || userToMatch[user] !in matches { return; }
      var id := userToMatch[user];
      var m := matches[id];
      var seat := FindUser(m.slots, user);
      if seat.Some? {
        m := m.(slots := m.slots[seat.value := m.slots[seat.value].(status := SLOT_COMPLETE)]);
        matches := matches[id := m];
      } else {
        assert matches[id := m] == matches;
      }
      TryFinish(id);
    }

    // ---------- spectators ----------

    method Unwatch(user: int) returns (host: Option<int>)
      modifies this`spectators, this`target
      ensures (WatchOf(), host) == Stop(old(WatchOf()), user)
    {
      if user !in target { return None; }
      var h := target[user];
      target := target - {user};
      if h in spectators {
        var rest := Retain(spectators[h], user);
        spectators := if rest == [] then spectators - {h} else spectators[h := rest];
      }
      return Some(h);
    }

    // Leaves the watched host, if any, and tells both the host and the other spectators.
    method LeaveHost(user: i32)
      requires IndexInv(NetOf()) && ListsOk(WatchOf())
      modifies this`sessions, this`spectators, this`target
      ensures State() == DoStopSpectating(old(State()), user) && IndexInv(NetOf()) && ListsOk(WatchOf())
    {
      hide IndexInv; hide Post; hide Stop; hide ListsOk;
      StopLists(WatchOf(), user);
      StopNothing(WatchOf(), user);
      var host := Unwatch(user);
      if host.Some? {
        ListOk(WatchOf(), host.value);
        SendToUser(host.value, Packet.SpectatorLeft(user));
        BroadcastToSpectators(host.value, Packet.FellowSpectatorLeft(user));
      }
    }

    method StopSpectating(user: i32)
      requires Valid() && user in tokens
      modifies this`sessions, this`spectators, this`target
      ensures State() == DoArm(old(State()), user, Arm.StopSpectating, []) && Valid()
    {
      hide Inv; hide IndexInv; hide DoStopSpectating; hide ListsOk; hide DoArm;
      StopFacts(State(), user);
      LeaveHost(user);
    }

    // The new spectator hears of each one already there.
    method Introduce(user: i32, fellows: seq<int>)
      requires IndexInv(NetOf())
      modifies this`sessions
      ensures NetOf() == PostEach(old(NetOf()), user, FellowsOf(fellows)) && IndexInv(NetOf())
    {
      hide IndexInv; hide Post;
      ghost var net := NetOf();
      ghost var all := FellowsOf(fellows);
      var i := 0;
      while i < |fellows|
        invariant i <= |fellows| && IndexInv(NetOf())
        invariant NetOf() == PostEach(net, user, all[..i])
      {
        PostEachMore(net, user, all, i);
        SendToUser(user, Packet.FellowSpectatorJoined(fellows[i]));
        i := i + 1;
      }
      assert all[..|all|] == all;
    }

    method AddWatcher(user: int, host: int)
      modifies this`spectators, this`target
      ensures WatchOf() == Start(old(WatchOf()), user, host)
    {
      var list: seq<int> := [];
      if host in spectators { list := spectators[host]; }
      spectators := spectators[host := list + [user]];
      target := target[user := host];
    }

    // The host's spectators hear of the new one, who hears of each of them.
    method MeetFellows(user: i32, host: i32)
      requires IndexInv(NetOf()) && ListsOk(WatchOf())
      modifies this`sessions
      ensures IndexInv(NetOf())
      ensures NetOf() == PostEach(Post(old(NetOf()), Watchers(WatchOf(), host), Packet.FellowSpectatorJoined(user)),
                                  user, FellowsOf(WatchersOf(WatchOf(), host)))
    {
      hide IndexInv; hide Post; hide PostEach; hide ListsOk;
      ListOk(WatchOf(), host);
      BroadcastToSpectators(host, Packet.FellowSpectatorJoined(user));
      if host in spectators {
        Introduce(user, spectators[host]);
      } else {
        NoFellows(NetOf(), user);
      }
    }

    method BeginWatch(user: i32, host: i32)
      requires IndexInv(NetOf()) && ListsOk(WatchOf()) && user in tokens
      modifies this`sessions, this`channels, this`spectators, this`target
      ensures State() == BeginWatching(old(State()), user, host)
    {
      hide IndexInv; hide Post; hide PostEach; hide Enrol; hide Start; hide ListsOk; hide FellowsOf; hide Watchers;
      MeetFellows(user, host);
      AddWatcher(user, host);
      GreetWatcher(user, host);
    }

    method GreetWatcher(user: i32, host: i32)
      requires IndexInv(NetOf()) && user in tokens
      modifies this`sessions, this`channels
      ensures NetOf() == Enrol(Post(Post(old(NetOf()), {host as int}, Packet.SpectatorJoined(user)),
                                    {user as int}, Packet.ChannelJoinSuccess(SPECTATOR)), user, SPECTATOR)
    {
      hide IndexInv; hide Post; hide Enrol;
      SendToUser(host, Packet.SpectatorJoined(user));
      SendToUser(user, Packet.ChannelJoinSuccess(SPECTATOR));
      AddToChannel(user, SPECTATOR);
    }

    method StartSpectating(user: i32, host: i32)
      requires Valid() && user in tokens
      modifies this`sessions, this`channels, this`spectators, this`target
      ensures State() == DoArm(old(State()), user, Arm.StartSpectating(host), []) && Valid()
    {
      hide Inv; hide IndexInv; hide DoStopSpectating; hide BeginWatching; hide ListsOk; hide DoArm;
      StartFacts(State(), user, host);
      LeaveHost(user);
      if host in tokens && host != user { BeginWatch(user, host); }
    }

    method SpectateFrames(user: i32, raw: bytes)
      requires Valid() && user in tokens
      modifies this`sessions
      ensures State() == DoArm(old(State()), user, Arm.SpectateFrames(raw), []) && Valid()
    {
      hide Inv; hide DoArm; hide IndexInv; hide Post; hide ListsOk;
      SocialFacts(State(), user, Arm.SpectateFrames(raw));
      ListOk(WatchOf(), user);
      BroadcastToSpectators(user, Packet.SpectateFrames(raw));
    }

    method CantSpectate(user: i32)
      requires Valid() && user in tokens
      modifies this`sessions
      ensures State() == DoArm(old(State()), user, Arm.CantSpectate, []) && Valid()
    {
      hide Inv; hide DoArm; hide IndexInv; hide Post; hide ListsOk;
      SocialFacts(State(), user, Arm.CantSpectate);
      if user in target {
        var host := target[user];
        ListOk(WatchOf(), host);
        SendToUser(host, Packet.SpectatorCantSpectate(user));
        BroadcastToSpectators(host, Packet.SpectatorCantSpectate(user));
      }
    }

    // ---------- lobby and channels ----------

    // One MATCH_NEW packet for each open room.
    method ListRooms(user: i32) returns (ghost order: seq<u16>)
      requires IndexInv(NetOf())
      modifies this`sessions
      ensures GoodOrder(RoomsOf(), order)
      ensures NetOf() == PostEach(old(NetOf()), user, Listing(matches, order)) && IndexInv(NetOf())
    {
      hide IndexInv; hide Post; hide PostEach;
      order := [];
      ghost var net := NetOf();
      NoListing(net, user, matches);
      var rest := matches.Keys;
      while rest != {}
        invariant IndexInv(NetOf()) && Listed(order, matches.Keys - rest) && rest <= matches.Keys
        invariant NetOf() == PostEach(net, user, Listing(matches, order))
        decreases rest
      {
        var id :| id in rest;
        ListOneMore(net, user, matches, order, id);
        SendToUser(user, Packet.MatchNew(matches[id]));
        ListedOneMore(order, matches.Keys - rest, id);
        order := order + [id];
        assert matches.Keys - (rest - {id}) == matches.Keys - rest + {id};
        rest := rest - {id};
      }
    }

    method LobbyJoin(user: i32) returns (ghost order: seq<u16>)
      requires Valid() && user in tokens
      modifies this`sessions, this`lobby
      ensures GoodOrder(old(RoomsOf()), order)
      ensures State() == DoArm(old(State()), user, Arm.LobbyJoin, order) && Valid()
    {
      hide Inv; hide IndexInv; hide PostEach; hide GoodOrder;
      ghost var v := State();
      ValidParts(v);
      lobby := lobby + {user};
      IndexKeptByLobby(v.net, NetOf());
      order := ListRooms(user);
      ListsOpenRooms(v.rooms, order);
      LobbyJoinKeeps(v, user, order);
    }

    method LobbyPart(user: i32)
      requires Valid() && user in tokens
      modifies this`lobby
      ensures State() == DoArm(old(State()), user, Arm.LobbyPart, []) && Valid()
    {
      hide Inv;
      SocialArmKeeps(State(), user, Arm.LobbyPart, []);
      lobby := lobby - {user};
    }

    method JoinChannel(user: i32, channel: bytes)
      requires Valid() && user in tokens
      modifies this`sessions, this`channels
      ensures State() == DoArm(old(State()), user, Arm.JoinChannel(channel), []) && Valid()
    {
      hide Inv; hide DoArm; hide IndexInv; hide Post; hide Enrol;
      SocialFacts(State(), user, Arm.JoinChannel(channel));
      AddToChannel(user, channel);
      SendToUser(user, Packet.ChannelJoinSuccess(channel));
    }

    method PartChannel(user: i32, channel: bytes)
      requires Valid() && user in tokens
      modifies this`sessions, this`channels
      ensures State() == DoArm(old(State()), user, Arm.PartChannel(channel), []) && Valid()
    {
      hide Inv; hide DoArm; hide IndexInv; hide Post; hide Withdraw;
      SocialFacts(State(), user, Arm.PartChannel(channel));
      RemoveFromChannel(user, channel);
      SendToUser(user, Packet.ChannelPart(channel));
    }

    // ---------- sessions ----------

    method RemoveToken(token: Token, user: i32)
      requires NetInv(NetOf()) && token in sessions && sessions[token].user == user
      modifies this`sessions, this`tokens, this`lobby
      ensures NetOf() == DropSession(old(NetOf()), user) && IndexInv(NetOf())
    {
      DropSessionKeeps(NetOf(), user);
      sessions := sessions - {token};
      tokens := tokens - {user};
      lobby := lobby - {user};
    }

    // Those who watched the departed user stop watching and are told.
    method ReleaseWatchers(user: i32)
      requires IndexInv(NetOf()) && ListsOk(WatchOf())
      modifies this`sessions, this`spectators, this`target
      ensures WatchOf() == DropHost(old(WatchOf()), user)
      ensures NetOf() == Post(old(NetOf()), Watchers(old(WatchOf()), user), Packet.SpectatorLeft(user))
    {
      hide Post; hide IndexInv; hide ListsOk;
      ghost var net, targets, w := NetOf(), target, WatchOf();
      ListOk(WatchOf(), user);
      PostNobody(net, Packet.SpectatorLeft(user));
      if user as int in spectators {
        var list := spectators[user as int];
        spectators := spectators - {user as int};
        assert Elements(list[..0]) == {};
        var i := 0;
        while i < |list|
          invariant i <= |list| && IndexInv(NetOf())
          invariant target == targets - Elements(list[..i]) && spectators == w.spectators - {user as int}
          invariant NetOf() == Post(net, Elements(list[..i]), Packet.SpectatorLeft(user))
        {
          assert list[i] !in list[..i];
          assert Elements(list[..i + 1]) == Elements(list[..i]) + {list[i]};
          PostUnion(net, Elements(list[..i]), list[i], Packet.SpectatorLeft(user));
          target := target - {list[i]};
          SendToUser(list[i], Packet.SpectatorLeft(user));
          i := i + 1;
        }
        assert list[..|list|] == list;
      } else {
        assert spectators - {user as int} == spectators;
        assert targets - Elements([]) == targets;
        assert Watchers(WatchOf(), user) == {};
      }
    }

    method LeaveAllChannels(user: i32)
      modifies this`channels
      ensures NetOf() == LeaveChannels(old(NetOf()), user)
    {
      var before := channels;
      var rest := channels.Keys;
      while rest != {}
        invariant rest <= before.Keys == channels.Keys
        invariant forall c :: c in before ==> channels[c] == if c in rest then before[c] else before[c] - {user}
        decreases rest
      {
        var c :| c in rest;
        channels := channels[c := channels[c] - {user}];
        rest := rest - {c};
      }
      assert channels == LeaveChannels(old(NetOf()), user).channels;
    }

    // remove_session
    method RemoveSession(token: Token) returns (gone: Option<Session>)
      requires Valid()
      modifies this`sessions, this`tokens, this`lobby, this`channels, this`userToMatch, this`matches, this`startTimes,
        this`lastScores, this`loaded, this`spectators, this`target
      ensures gone == if token in old(sessions) then Some(old(sessions)[token]) else None
      ensures State() == if token in old(sessions) then DropUser(old(State()), old(sessions)[token].user)
        else old(State())
      ensures Valid()
    {
      hide Inv; hide IndexInv; hide NetInv; hide SeatInv; hide ListsOk; hide DropSession; hide Leave;
      hide DoStopSpectating; hide Post;
      hide LeaveChannels; hide DropHost; hide RemoveUser;
      if token !in sessions { return None; }
      var session := sessions[token];
      var user := session.user;
      DropUserKeeps(State(), user);
      SessionFacts(State(), token);
      ghost var v := State();
      RemoveToken(token, user);
      var left := LeaveRoom(user);
      LeaveKeepsWatch(v.(net := DropSession(v.net, user)), user);
      EndWatching(user);
      return Some(session);
    }

    method EndWatching(user: i32)
      requires IndexInv(NetOf()) && ListsOk(WatchOf())
      modifies this`sessions, this`channels, this`spectators, this`target
      ensures var v2 := DoStopSpectating(old(State()), user);
        State() == v2.(watch := DropHost(v2.watch, user),
                       net := LeaveChannels(Post(v2.net, Watchers(v2.watch, user), Packet.SpectatorLeft(user)), user))
    {
      hide IndexInv; hide ListsOk; hide DoStopSpectating; hide Post; hide LeaveChannels; hide DropHost;
      LeaveHost(user);
      ReleaseWatchers(user);
      LeaveAllChannels(user);
    }

    // OSU_LOGOUT, and the timeout of a session found idle: remove_session, then everyone is told.
    method Disconnect(token: Token, how: u8)
      requires Valid()
      modifies this`sessions, this`tokens, this`lobby, this`channels, this`userToMatch, this`matches, this`startTimes,
        this`lastScores, this`loaded, this`spectators, this`target
      ensures State() == if token in old(sessions) then DoDisconnect(old(State()), old(sessions)[token].user, how)
        else old(State())
      ensures Valid()
    {
      hide Inv; hide DropUser; hide PostAll;
      ghost var v := State();
      if token in sessions { DisconnectKeeps(v, sessions[token].user, how); SessionIndexed(v, token); }
      var gone := RemoveSession(token);
      if gone.Some? { Broadcast(Packet.UserQuit(gone.value.user, how)); }
    }

    method Login(user: i32, token: Token, name: bytes, presence: Packet, stats: Packet)
      requires Valid() && user > 0 && token !in sessions
      modifies this`sessions, this`tokens, this`lobby, this`channels, this`userToMatch, this`matches, this`startTimes,
        this`lastScores, this`loaded, this`spectators, this`target
      ensures State() == DoLogin(old(State()), user, token, name, presence, stats) && Valid()
    {
      hide Inv; hide DropUser; hide PostAll;
      LoginKeeps(State(), user, token, name, presence, stats);
      EvictFacts(State(), user);
      if user in tokens { var gone := RemoveSession(tokens[user]); }
      if OSU in channels { channels := channels[OSU := channels[OSU] + {user}]; }
      if ANNOUNCE in channels { channels := channels[ANNOUNCE := channels[ANNOUNCE] + {user}]; }
      Announce(presence, stats);
      tokens := tokens[user := token];
      sessions := sessions[token := Session(user, name, [], {OSU, ANNOUNCE})];
    }

    method Announce(presence: Packet, stats: Packet)
      modifies this`sessions
      ensures NetOf() == PostAll(PostAll(old(NetOf()), presence), stats)
    {
      hide PostAll;
      Broadcast(presence);
      Broadcast(stats);
    }

    // dequeue_all_packets at the end of a request.
    method Poll(token: Token) returns (queue: seq<Packet>)
      requires Valid() && token in sessions
      modifies this`sessions
      ensures queue == old(sessions)[token].queue
      ensures State() == DoPoll(old(State()), old(sessions)[token].user) && Valid()
    {
      hide Inv;
      PollKeeps(State(), sessions[token].user);
      PollOne(State(), token);
      queue := sessions[token].queue;
      sessions := sessions[token := sessions[token].(queue := [])];
    }

    // ---------- dispatch ----------

    // The arms that need the sender to be in a room, other than those that only change a slot's status.
    method RoomPacket(user: i32, arm: Arm)
      requires Valid() && user in tokens && IsRoomArm(arm)
      modifies this`sessions, this`matches, this`startTimes, this`lastScores, this`loaded, this`trace
      ensures State() == DoArm(old(State()), user, arm, []) && Valid()
    {
      hide Inv; hide DoArm;
      match arm
      case ChangeSlot(target) => ChangeSlot(user, target);
      case SetReady => StatusPacket(user, arm);
      case SetNotReady => StatusPacket(user, arm);
      case NoBeatmap => StatusPacket(user, arm);
      case HasBeatmap => StatusPacket(user, arm);
      case Lock(target) => LockSlot(user, target);
      case ChangeSettings(asked) => ChangeSettings(user, asked);
      case ChangeMods(mods) => ChangeMods(user, mods);
      case ChangeTeam => ChangeTeam(user);
      case ChangeHost(target) => ChangeHost(user, target);
      case StartRound(now) => StartMatch(user, now);
      case LoadComplete => LoadComplete(user);
      case ScoreUpdate(payload, frame) => RelayScore(user, payload, frame);
      case Failed => Notice(user, true);
      case SkipRequest => Notice(user, false);
      case CompleteRound => CompleteMatch(user);
    }

    method StatusPacket(user: i32, arm: Arm)
      requires Valid() && user in tokens && (arm.SetReady? || arm.SetNotReady? || arm.NoBeatmap? || arm.HasBeatmap?)
      modifies this`sessions, this`matches
      ensures State() == DoArm(old(State()), user, arm, []) && Valid()
    {
      hide Inv; hide DoArm; hide ShowIf; hide WithOwnStatus;
      ArmInRoom(State(), user, arm);
      var status := if arm.SetReady? then SLOT_READY else if arm.NoBeatmap? then SLOT_NO_MAP else SLOT_NOT_READY;
      SetStatus(user, status, arm.SetReady? || arm.SetNotReady?);
    }

    // The arms about spectators and channels.
    method SocialPacket(user: i32, arm: Arm)
      requires Valid() && user in tokens && IsSocialArm(arm)
      modifies this`sessions, this`channels, this`spectators, this`target, this`lobby
      ensures State() == DoArm(old(State()), user, arm, []) && Valid()
    {
      hide Inv; hide DoArm;
      match arm
      case LobbyPart => LobbyPart(user);
      case StartSpectating(host) => StartSpectating(user, host);
      case StopSpectating => StopSpectating(user);
      case SpectateFrames(raw) => SpectateFrames(user, raw);
      case CantSpectate => CantSpectate(user);
      case JoinChannel(channel) => JoinChannel(user, channel);
      case PartChannel(channel) => PartChannel(user, channel);
    }

    // One packet of a request. It is ignored when its token is no longer live.
    method HandlePacket(token: Token, arm: Arm)
      requires Valid()
      modifies this
      ensures token !in old(sessions) ==> State() == old(State())
      ensures token in old(sessions) ==> Step(old(State()), From(old(sessions)[token].user, arm), State())
      ensures Valid()
    {
      hide Inv; hide DoArm; hide GoodOrder; hide DoCreate; hide DoJoin; hide DoPart;
      if token !in sessions { return; }
      var user := sessions[token].user;
      SessionIndexed(State(), token);
      ghost var v := State();
      ghost var order := AnyOrder(v.rooms);
      if IsRoomArm(arm) { RoomPacket(user, arm); }
      else if IsSocialArm(arm) { SocialPacket(user, arm); }
      else if arm.LobbyJoin? { order := LobbyJoin(user); }
      else if arm.CreateRoom? { CreateMatch(user, arm.asked); MovingArms(v, user, arm); }
      else if arm.JoinRoom? { JoinMatch(user, arm.id, arm.password); MovingArms(v, user, arm); }
      else { PartMatch(user); MovingArms(v, user, arm); }
      ListsOpenRooms(v.rooms, order);
      if !arm.LobbyJoin? { OrderIsForListings(v, user, arm, order); }
      assert State() == DoArm(v, user, arm, order);
    }
  }
}
