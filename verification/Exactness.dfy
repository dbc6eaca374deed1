/** What a room number that comes round can spoil, and nothing else can: users mapped to rooms they do not
    sit in, loads kept for rooms that are gone, and start times of rooms that are not in progress. Each
    step is followed exactly, so that over a run each of the three is where some step put it and no later
    one took it away. */
module Exactness {
  import opened Wrappers
  import opened BanchoTypes
  import opened Rooms
  import opened Rounds
  import opened RoomSafety
  import opened Network
  import opened Server
  import opened ServerSafety
  import opened Runs

  // ---------- what can be spoiled ----------

  // u is mapped to a room that does not hold them.
  ghost predicate IsStranded(r: Rooms, u: int) {
    u in r.userToMatch && !SitsIn(r, u, r.userToMatch[u])
  }

  // Loads are kept for room id although it is gone.
  predicate IsStray(r: Rooms, id: u16) {
    id in r.loaded && id !in r.matches
  }

  predicate InProgress(r: Rooms, id: u16) {
    id in r.matches && r.matches[id].inProgress
  }

  // Room id has a start time although it is not in progress.
  predicate IsStale(r: Rooms, id: u16) {
    id in r.startTimes && !InProgress(r, id)
  }

  // Loads are kept for open rooms only.
  ghost predicate LoadsExact(r: Rooms) {
    r.loaded.Keys <= r.matches.Keys
  }

  lemma WhatExactMeans(r: Rooms)
    requires SeatInv(r) && RoundInv(r)
    ensures SeatsExact(r) <==> forall u :: !IsStranded(r, u)
    ensures LoadsExact(r) <==> forall id :: !IsStray(r, id)
    ensures ClockExact(r) <==> forall id :: !IsStale(r, id)
  {
    hide RoomOk; hide AnyPlaying; hide Occupants;
    if forall u :: !IsStranded(r, u) {
      forall u | u in r.userToMatch ensures r.userToMatch[u] in People(r) && u in People(r)[r.userToMatch[u]] {
        assert !IsStranded(r, u);
      }
    }
    if SeatsExact(r) {
      forall u ensures !IsStranded(r, u) {
        if u in r.userToMatch { assert u in People(r)[r.userToMatch[u]]; }
      }
    }
    if forall id :: !IsStray(r, id) {
      forall id | id in r.loaded ensures id in r.matches { assert !IsStray(r, id); }
    }
    if forall id :: !IsStale(r, id) {
      forall id | id in r.startTimes ensures InProgress(r, id) { assert !IsStale(r, id); }
    }
    if ClockExact(r) {
      forall id ensures !IsStale(r, id) { }
    }
  }

  ghost predicate Alike(r: Rooms, r': Rooms) {
    && (forall u :: IsStranded(r', u) <==> IsStranded(r, u))
    && (forall id :: IsStray(r', id) <==> IsStray(r, id))
    && (forall id :: IsStale(r', id) <==> IsStale(r, id))
  }

  lemma AlikeItself(r: Rooms)
    ensures Alike(r, r)
  {
  }

  lemma AlikeTrans(r: Rooms, r1: Rooms, r2: Rooms)
    requires Alike(r, r1) && Alike(r1, r2)
    ensures Alike(r, r2)
  {
    hide IsStranded; hide IsStray; hide IsStale;
  }

  // ---------- moving between rooms ----------

  // Leaving: the user is mapped nowhere, and a room they were alone in takes its tables along.
  lemma LeavingTables(r: Rooms, user: int)
    requires SeatInv(r) && RoundInv(r)
    ensures var r' := RemoveUser(r, user).0;
      && (forall u :: IsStranded(r', u) <==> IsStranded(r, u) && u != user)
      && (forall id :: IsStray(r', id) <==> IsStray(r, id))
      && (forall id :: IsStale(r', id) <==> IsStale(r, id) && !AloneIn(r, user, id))
  {
    hide SeatInv; hide RemoveUser; hide SitsIn; hide AloneIn; hide RoundInv;
    var r' := RemoveUser(r, user).0;
    RemovalShrinks(r, user);
    forall u ensures IsStranded(r', u) <==> IsStranded(r, u) && u != user {
      if u in r'.userToMatch { AfterLeaving(r, user, u, r.userToMatch[u]); }
    }
    forall id
      ensures IsStray(r', id) <==> IsStray(r, id)
      ensures IsStale(r', id) <==> IsStale(r, id) && !AloneIn(r, user, id)
    {
      TablesLeft(r, user, id);
    }
  }

  lemma TablesLeft(r: Rooms, user: int, id: u16)
    requires SeatInv(r) && RoundInv(r)
    ensures var r' := RemoveUser(r, user).0;
      && (id in r'.matches <==> id in r.matches && !AloneIn(r, user, id))
      && (InProgress(r', id) <==> InProgress(r, id) && !AloneIn(r, user, id))
      && (id in r'.loaded <==> id in r.loaded && !AloneIn(r, user, id))
      && (id in r'.startTimes <==> id in r.startTimes && !AloneIn(r, user, id))
    ensures AloneIn(r, user, id) ==> id in r.matches
  {
    hide SeatInv; hide RoomOk; hide AnyPlaying; hide Vacate; hide Occupants; hide FirstOccupied; hide FirstUser;
    if id in r.matches { AloneIsMapped(r, user, id); }
    RemovalRounds(r, user, id);
    if user in r.userToMatch {
      RemoveUserEffect(r, user);
      RoomsLeft(r, user);
    } else {
      NoRoomToLeave(r, user);
    }
  }

  // The tables of rooms other than the one left behind stay as they are.
  lemma RoomsLeft(r: Rooms, user: int)
    requires user in r.userToMatch
    ensures var (id, r') := (r.userToMatch[user], RemoveUser(r, user).0);
      && (id in r'.matches || id !in r.matches ==> r'.loaded == r.loaded && r'.startTimes == r.startTimes)
      && r'.loaded - {id} == r.loaded - {id} && r'.startTimes - {id} == r.startTimes - {id}
      && r'.matches - {id} == r.matches - {id}
  {
    hide Vacate; hide FirstOccupied; hide FirstUser;
  }

  lemma AloneIsMapped(r: Rooms, user: int, id: u16)
    requires SeatInv(r) && id in r.matches
    ensures AloneIn(r, user, id) ==> user in r.userToMatch && r.userToMatch[user] == id
    ensures Occupants(r.matches[id].slots) != {}
  {
    hide RoomOk;
    HostIsIn(r, id);
    if AloneIn(r, user, id) { assert user in People(r)[id]; }
  }

  // Opening a room strands everyone still mapped to its number, claims the loads kept under it and makes
  // the start time of a room in progress stale.
  lemma OpeningTables(r: Rooms, user: i32, asked: Match)
    requires SeatInv(r) && RoundInv(r) && user > 0 && user !in r.userToMatch
    ensures var r' := OpenRoom(r, user, asked);
      && (forall u :: IsStranded(r', u) <==> IsStranded(r, u) || SitsIn(r, u, r.nextId))
      && (forall id :: IsStray(r', id) <==> IsStray(r, id) && id != r.nextId)
      && (forall id :: IsStale(r', id) <==> IsStale(r, id) || (id == r.nextId && InProgress(r, id)))
  {
    hide CreatorAlone; hide AnyPlaying; hide RoomOk; hide Occupants; hide SeatInv;
    CreatorSits(r, user, asked);
    forall u ensures IsStranded(OpenRoom(r, user, asked), u) <==> IsStranded(r, u) || SitsIn(r, u, r.nextId) {
      if u in r.userToMatch || SitsIn(r, u, r.nextId) { SittersAreMapped(r, u, r.nextId); }
    }
  }

  lemma CreatorSits(r: Rooms, user: i32, asked: Match)
    requires SeatInv(r) && user > 0
    ensures forall u :: u in Occupants(NewRoom(r.nextId, user, asked).slots) <==> u == user as int
  {
    CreatorOccupies(r.nextId, user, asked);
  }

  lemma SittersAreMapped(r: Rooms, u: int, id: u16)
    requires SeatInv(r)
    ensures SitsIn(r, u, id) ==> u in r.userToMatch && r.userToMatch[u] == id
  {
    hide RoomOk; hide Occupants;
    if SitsIn(r, u, id) { assert u in People(r)[id]; }
  }

  lemma EnteringTables(r: Rooms, user: i32, id: u16)
    requires SeatInv(r) && user > 0 && user !in r.userToMatch
    requires id in r.matches ==> FirstStatus(r.matches[id].slots, SLOT_OPEN).Some?
    ensures Alike(r, Enter(r, user, id))
  {
    hide SeatInv; hide SitDown; hide Occupants; hide RoomOk;
    if id in r.matches {
      RoomIsOk(r, id);
      NotSeated(r, user, id);
      SitDownOk(r.matches[id], user);
      SitDownQuiet(r.matches[id], user);
    }
  }

  lemma NotSeated(r: Rooms, user: i32, id: u16)
    requires SeatInv(r) && user !in r.userToMatch && id in r.matches
    ensures user !in Occupants(r.matches[id].slots)
  {
    hide RoomOk; hide Occupants;
    SittersAreMapped(r, user, id);
  }

  // ---------- inside a room ----------

  lemma WithRoomAlike(r: Rooms, id: u16, m: Match)
    requires id in r.matches && QuietChange(r.matches[id], m)
    ensures Alike(r, WithRoom(r, id, m))
  {
    hide AnyPlaying; hide RoomOk; hide Occupants;
  }

  lemma ShowingAlike(v: View, id: u16, m: Match, lobbyToo: bool)
    requires id in v.rooms.matches && QuietChange(v.rooms.matches[id], m)
    ensures Alike(v.rooms, Show(v, id, m, lobbyToo).rooms)
  {
    hide QuietChange; hide Alike;
    ShownTables(v, id, m, lobbyToo);
    WithRoomAlike(v.rooms, id, m);
  }

  lemma ShownTables(v: View, id: u16, m: Match, lobbyToo: bool)
    ensures Show(v, id, m, lobbyToo).rooms == WithRoom(v.rooms, id, m)
  {
  }

  lemma FinishingAlike(v: View, id: u16)
    requires SeatInv(v.rooms)
    ensures Alike(v.rooms, DoFinish(v, id).rooms)
  {
    hide SeatInv; hide Post; hide Close; hide Closed; hide ShouldFinish; hide NamesOf; hide RoomOk; hide Alike;
    AlikeItself(v.rooms);
    if id in v.rooms.matches && v.rooms.matches[id].inProgress && ShouldFinish(v.rooms.matches[id]) {
      RoomIsOk(v.rooms, id);
      assert DoFinish(v, id).rooms == AfterFinish(v.rooms, id);
      ClosingAlike(v.rooms, id);
    }
  }

  lemma ClosingAlike(r: Rooms, id: u16)
    requires id in r.matches && r.matches[id].inProgress && RoomOk(r.matches[id])
    ensures Alike(r, AfterFinish(r, id))
  {
    hide Closed; hide RoomOk; hide Occupants;
    ClosedOk(r.matches[id]);
  }

  // A START in room id makes its start time fresh.
  lemma BeginningTables(r: Rooms, user: i32, id: u16, now: int)
    requires SeatInv(r) && id in r.matches && Started(r.matches[id], user).Some?
    ensures var r' := AfterStart(r, id, Started(r.matches[id], user).value, now);
      && (forall u :: IsStranded(r', u) <==> IsStranded(r, u))
      && (forall k :: IsStray(r', k) <==> IsStray(r, k))
      && (forall k :: IsStale(r', k) <==> IsStale(r, k) && k != id)
  {
    hide SeatInv; hide Started; hide RoomOk; hide Occupants;
    RoomIsOk(r, id);
    StartedOk(r.matches[id], user);
    StartedRuns(r.matches[id], user);
  }

  // Noting a load or a score frame for an open room.
  lemma NotingAlike(r: Rooms, r': Rooms, id: u16)
    requires id in r.matches && r.loaded.Keys <= r'.loaded.Keys <= r.loaded.Keys + {id}
    requires r' == r.(loaded := r'.loaded, lastScores := r'.lastScores)
    ensures Alike(r, r')
  {
    hide Occupants;
  }

  lemma QuietTables(r: Rooms, id: u16, m: Match)
    requires SeatInv(r) && id in r.matches && QuietChange(r.matches[id], m)
    ensures SeatInv(WithRoom(r, id, m))
  {
    hide SeatInv; hide SamePeople; hide AnyPlaying;
    StepKeepsSeats(r, id, m);
  }

  lemma CompletingAlike(v: View, user: i32, id: u16)
    requires SeatInv(v.rooms) && id in v.rooms.matches && user > 0
    ensures Alike(v.rooms, DoComplete(v, user, id, v.rooms.matches[id]).rooms)
  {
    hide SeatInv; hide Alike; hide DoFinish; hide QuietChange; hide RoomOk; hide WithOwnStatus;
    var m := v.rooms.matches[id];
    var m' := WithOwnStatus(m, user, SLOT_COMPLETE).GetOr(m);
    var v1 := v.(rooms := WithRoom(v.rooms, id, m'));
    RoomIsOk(v.rooms, id);
    if WithOwnStatus(m, user, SLOT_COMPLETE).Some? {
      OwnStatusQuiet(m, user, SLOT_COMPLETE);
      WithRoomAlike(v.rooms, id, m');
      QuietTables(v.rooms, id, m');
    } else {
      assert WithRoom(v.rooms, id, m) == v.rooms;
      AlikeItself(v.rooms);
    }
    FinishingAlike(v1, id);
    AlikeTrans(v.rooms, v1.rooms, DoFinish(v1, id).rooms);
  }

  lemma TeamAlike(v: View, user: i32, id: u16)
    requires SeatInv(v.rooms) && id in v.rooms.matches
    ensures Alike(v.rooms, DoTeam(v, user, id, v.rooms.matches[id]).rooms)
  {
    hide SeatInv; hide Alike; hide DoFinish; hide QuietChange; hide RoomOk; hide WithTeam; hide Show;
    var m := v.rooms.matches[id];
    RoomIsOk(v.rooms, id);
    if WithTeam(m, user).Some? {
      var m' := WithTeam(m, user).value;
      TeamQuiet(m, user);
      ShowingAlike(v, id, m', false);
      ShownTables(v, id, m', false);
      QuietTables(v.rooms, id, m');
      var v1 := Show(v, id, m', false);
      FinishingAlike(v1, id);
      AlikeTrans(v.rooms, v1.rooms, DoFinish(v1, id).rooms);
    } else {
      AlikeItself(v.rooms);
    }
  }

  lemma ShowIfAlike(v: View, id: u16, m': Option<Match>, lobbyToo: bool)
    requires id in v.rooms.matches && (m'.Some? ==> QuietChange(v.rooms.matches[id], m'.value))
    ensures Alike(v.rooms, ShowIf(v, id, m', lobbyToo).rooms)
  {
    hide Alike; hide QuietChange; hide Show;
    if m'.Some? { ShowingAlike(v, id, m'.value, lobbyToo); } else { AlikeItself(v.rooms); }
  }

  lemma HostAlike(v: View, user: i32, id: u16, target: int)
    requires SeatInv(v.rooms) && id in v.rooms.matches
    ensures Alike(v.rooms, DoHost(v, user, id, v.rooms.matches[id], target).rooms)
  {
    hide SeatInv; hide Alike; hide QuietChange; hide Show; hide WithHost; hide RoomOk; hide Post;
    var m := v.rooms.matches[id];
    RoomIsOk(v.rooms, id);
    match WithHost(m, user, target)
    case None => AlikeItself(v.rooms);
    case Some(m') =>
      HostQuiet(m, user, target);
      ShowingAlike(v.(net := Post(v.net, {m'.host as int}, Packet.MatchTransferHost)), id, m', true);
  }

  lemma SignalAlike(v: View, user: i32, id: u16, arm: Arm)
    requires id in v.rooms.matches
    requires arm.LoadComplete? || arm.ScoreUpdate? || arm.Failed? || arm.SkipRequest?
    ensures Alike(v.rooms, InRoom(v, user, id, arm).rooms)
  {
    hide Alike; hide Post; hide Occupants; hide PlayingUsers;
    AlikeItself(v.rooms);
    NotingAlike(v.rooms, InRoom(v, user, id, arm).rooms, id);
  }

  lemma InRoomAlike(v: View, user: i32, id: u16, arm: Arm)
    requires SeatInv(v.rooms) && id in v.rooms.matches && user > 0 && !arm.StartRound?
    ensures Alike(v.rooms, InRoom(v, user, id, arm).rooms)
  {
    hide SeatInv; hide Alike; hide QuietChange; hide RoomOk; hide ShowIf;
    hide DoTeam; hide DoHost; hide DoStart; hide DoLoad; hide DoScore; hide DoComplete; hide DoNotice;
    hide MovedTo; hide WithOwnStatus; hide WithLock; hide WithSettings; hide WithMods;
    var m := v.rooms.matches[id];
    RoomIsOk(v.rooms, id);
    AlikeItself(v.rooms);
    if arm.ChangeTeam? { TeamAlike(v, user, id); }
    else if arm.ChangeHost? { HostAlike(v, user, id, arm.target); }
    else if arm.CompleteRound? { CompletingAlike(v, user, id); }
    else if arm.LoadComplete? || arm.ScoreUpdate? || arm.Failed? || arm.SkipRequest? {
      SignalAlike(v, user, id, arm);
    } else if arm.ChangeSlot? {
      if MovedTo(m, user, arm.target).Some? { MovedQuiet(m, user, arm.target); }
      ShowIfAlike(v, id, MovedTo(m, user, arm.target), true);
    } else if arm.Lock? {
      if WithLock(m, user, arm.target).Some? { LockQuiet(m, user, arm.target); }
      ShowIfAlike(v, id, WithLock(m, user, arm.target), true);
    } else if arm.ChangeSettings? {
      if WithSettings(m, user, arm.asked).Some? { SettingsQuiet(m, user, arm.asked); }
      ShowIfAlike(v, id, WithSettings(m, user, arm.asked), true);
    } else if arm.ChangeMods? {
      if WithMods(m, user, arm.mods).Some? { ModsQuiet(m, user, arm.mods); }
      ShowIfAlike(v, id, WithMods(m, user, arm.mods), false);
    } else if arm.SetReady? || arm.SetNotReady? || arm.NoBeatmap? || arm.HasBeatmap? {
      var status := if arm.SetReady? then SLOT_READY else if arm.NoBeatmap? then SLOT_NO_MAP else SLOT_NOT_READY;
      if WithOwnStatus(m, user, status).Some? { OwnStatusQuiet(m, user, status); }
      ShowIfAlike(v, id, WithOwnStatus(m, user, status), arm.SetReady? || arm.SetNotReady?);
    }
  }

  // ---------- which steps spoil and which repair ----------

  // u's mapping is taken away.
  predicate Unmaps(v: View, a: Action, u: int) {
    match a
    case From(user, arm) =>
      user == u && (arm.PartRoom? || arm.CreateRoom? ||
                    (arm.JoinRoom? && CanJoin(v.rooms, arm.id % 0x1_0000, arm.password)))
    case Login(user, _, _, _, _) => user == u
    case Disconnect(user, _) => user == u
    case _ => false
  }

  // A create takes the number of the room that u, not the creator, sits in.
  ghost predicate Strands(v: View, a: Action, u: int) {
    a.From? && a.arm.CreateRoom? && u != a.user && SitsIn(v.rooms, u, v.rooms.nextId)
  }

  // A LOAD_COMPLETE from a user mapped to room id, which is gone.
  predicate Strays(v: View, a: Action, id: u16) {
    && a.From? && a.arm.LoadComplete?
    && a.user in v.rooms.userToMatch && v.rooms.userToMatch[a.user] == id && id !in v.rooms.matches
  }

  // A create takes the number id.
  predicate Claims(v: View, a: Action, id: u16) {
    a.From? && a.arm.CreateRoom? && id == v.rooms.nextId
  }

  // A create takes the number of a room in progress that its creator does not disband by leaving.
  predicate Overwrites(v: View, a: Action, id: u16) {
    Claims(v, a, id) && InProgress(v.rooms, id) && !AloneIn(v.rooms, a.user, id)
  }

  // Someone leaves room id, in which they were alone.
  ghost predicate Disbands(v: View, a: Action, id: u16) {
    exists u :: Unmaps(v, a, u) && AloneIn(v.rooms, u, id)
  }

  // The host of room id starts a round.
  predicate Restarts(v: View, a: Action, id: u16) {
    && a.From? && a.arm.StartRound? && id in v.rooms.matches
    && RoomOf(v.rooms, a.user) == Some(id) && Started(v.rooms.matches[id], a.user).Some?
  }

  ghost predicate StrandedAfter(v: View, a: Action, v': View) {
    forall u :: IsStranded(v'.rooms, u) <==> Strands(v, a, u) || (IsStranded(v.rooms, u) && !Unmaps(v, a, u))
  }

  ghost predicate StrayAfter(v: View, a: Action, v': View) {
    forall id :: IsStray(v'.rooms, id) <==> Strays(v, a, id) || (IsStray(v.rooms, id) && !Claims(v, a, id))
  }

  ghost predicate StaleAfter(v: View, a: Action, v': View) {
    forall id :: IsStale(v'.rooms, id) <==>
      Overwrites(v, a, id) || (IsStale(v.rooms, id) && !Disbands(v, a, id) && !Restarts(v, a, id))
  }

  // The tables of rooms a step leaves behind, when it is not one inside a room.
  lemma MovingRooms(v: View, user: i32, arm: Arm, order: seq<u16>)
    requires forall id :: id in order ==> id in v.rooms.matches
    ensures arm.LobbyJoin? || arm.StartSpectating? || arm.StopSpectating? || IsChatter(arm) ==>
      DoArm(v, user, arm, order).rooms == v.rooms
    ensures arm.CreateRoom? ==>
      DoArm(v, user, arm, order).rooms == OpenRoom(RemoveUser(v.rooms, user).0, user, arm.asked)
    ensures arm.JoinRoom? ==> DoArm(v, user, arm, order).rooms == Join(v.rooms, user, arm.id % 0x1_0000, arm.password)
  {
    hide Post; hide PostEach; hide RemoveUser; hide Farewell; hide Welcome; hide OpenRoom; hide NewRoom;
    hide CanJoin; hide SitDown;
    hide InRoom; hide DoFinish;
  }

  // A step that is none of those above.
  ghost predicate Harmless(v: View, a: Action) {
    && (forall u :: !Unmaps(v, a, u) && !Strands(v, a, u))
    && (forall id :: !Strays(v, a, id) && !Claims(v, a, id) && !Restarts(v, a, id))
  }

  lemma HarmlessSteps(v: View, a: Action, v': View)
    requires Harmless(v, a) && Alike(v.rooms, v'.rooms)
    ensures StrandedAfter(v, a, v') && StrayAfter(v, a, v') && StaleAfter(v, a, v')
  {
    hide IsStranded; hide IsStray; hide IsStale; hide Unmaps; hide Strands; hide Strays; hide Claims; hide Restarts;
    hide AloneIn;
  }

  // Only leaving.
  lemma LeavingSteps(v: View, a: Action, v': View, user: int)
    requires SeatInv(v.rooms) && RoundInv(v.rooms) && Alike(RemoveUser(v.rooms, user).0, v'.rooms)
    requires forall u :: (Unmaps(v, a, u) <==> u == user) && !Strands(v, a, u)
    requires forall id :: !Strays(v, a, id) && !Claims(v, a, id) && !Restarts(v, a, id)
    ensures StrandedAfter(v, a, v') && StrayAfter(v, a, v') && StaleAfter(v, a, v')
  {
    hide IsStranded; hide IsStray; hide IsStale; hide Unmaps; hide Strands; hide Strays; hide Claims; hide Restarts;
    hide AloneIn; hide SeatInv; hide RoundInv; hide RemoveUser;
    LeavingTables(v.rooms, user);
    forall id ensures Disbands(v, a, id) <==> AloneIn(v.rooms, user, id) {
      assert Unmaps(v, a, user);
    }
  }

  lemma JoiningSteps(v: View, user: i32, id: u16, password: bytes)
    requires SeatInv(v.rooms) && RoundInv(v.rooms) && user > 0 && CanJoin(v.rooms, id, password)
    ensures Alike(RemoveUser(v.rooms, user).0, Join(v.rooms, user, id, password))
  {
    hide SeatInv; hide RemoveUser; hide Enter; hide FirstStatus; hide Alike;
    var r1 := RemoveUser(v.rooms, user).0;
    RemoveUserKeepsSeats(v.rooms, user);
    if id in r1.matches { StillOpen(v.rooms, user, id, password); }
    EnteringTables(r1, user, id);
  }

  lemma PartingSteps(v: View, user: i32)
    requires Inv(v)
    ensures Alike(RemoveUser(v.rooms, user).0, DoPart(v, user).rooms)
  {
    hide NetInv; hide SeatInv; hide RoundInv; hide HistoryInv; hide NumberInv; hide Alike; hide Leave;
    hide DoFinish; hide RemoveUser;
    LeaveKeepsInv(v, user);
    LeaveRooms(v, user);
    AlikeItself(Leave(v, user).rooms);
    match RemoveUser(v.rooms, user).1
    case None =>
    case Some(g) => FinishingAlike(Leave(v, user), g.id);
  }

  lemma CreatingSteps(v: View, user: i32, asked: Match, v': View)
    requires SeatInv(v.rooms) && RoundInv(v.rooms) && user > 0
    requires v'.rooms == Create(v.rooms, user, asked)
    ensures var a := From(user, CreateRoom(asked));
      StrandedAfter(v, a, v') && StrayAfter(v, a, v') && StaleAfter(v, a, v')
  {
    hide IsStranded; hide IsStray; hide IsStale; hide SitsIn; hide AloneIn; hide SeatInv; hide RoundInv;
    hide RemoveUser; hide OpenRoom; hide InProgress;
    var a := From(user, CreateRoom(asked));
    var r1 := RemoveUser(v.rooms, user).0;
    RemoveUserKeepsSeats(v.rooms, user);
    RoundsAfterRemoval(v.rooms, user);
    LeavingTables(v.rooms, user);
    OpeningTables(r1, user, asked);
    forall u { AfterLeaving(v.rooms, user, u, r1.nextId); }
    forall id { TablesLeft(v.rooms, user, id); }
    forall id ensures Disbands(v, a, id) <==> AloneIn(v.rooms, user, id) {
      assert Unmaps(v, a, user);
    }
    forall id ensures IsStale(v'.rooms, id) <==>
      Overwrites(v, a, id) || (IsStale(v.rooms, id) && !Disbands(v, a, id) && !Restarts(v, a, id)) { }
  }

  lemma StartingSteps(v: View, user: i32, id: u16, now: int, v': View)
    requires SeatInv(v.rooms) && RoomOf(v.rooms, user) == Some(id)
    requires v'.rooms == InRoom(v, user, id, StartRound(now)).rooms
    ensures var a := From(user, StartRound(now));
      StrandedAfter(v, a, v') && StrayAfter(v, a, v') && StaleAfter(v, a, v')
  {
    hide IsStranded; hide IsStray; hide IsStale; hide SeatInv; hide Started; hide Post; hide Occupants; hide AloneIn;
    if Started(v.rooms.matches[id], user).Some? { BeginningTables(v.rooms, user, id, now); }
  }

  lemma StrayingSteps(v: View, user: i32, v': View)
    requires RoomOf(v.rooms, user).None? && v'.rooms == StrayLoad(v, user).rooms
    ensures var a := From(user, Arm.LoadComplete);
      StrandedAfter(v, a, v') && StrayAfter(v, a, v') && StaleAfter(v, a, v')
  {
    hide Occupants; hide AloneIn;
  }

  lemma ArmSteps(v: View, user: i32, arm: Arm, order: seq<u16>)
    requires Inv(v) && user in v.net.tokens && forall id :: id in order ==> id in v.rooms.matches
    ensures var (a, v') := (From(user, arm), DoArm(v, user, arm, order));
      StrandedAfter(v, a, v') && StrayAfter(v, a, v') && StaleAfter(v, a, v')
  {
    hide NetInv; hide SeatInv; hide RoundInv; hide HistoryInv; hide NumberInv; hide Alike; hide DoPart; hide InRoom;
    hide StrayLoad; hide DoLobbyJoin; hide DoJoin; hide DoStartSpectating; hide DoStopSpectating; hide Chatter;
    hide Join; hide StrandedAfter; hide StrayAfter; hide StaleAfter; hide CanJoin; hide DoCreate; hide OpenRoom;
    hide RemoveUser;
    var (a, v') := (From(user, arm), DoArm(v, user, arm, order));
    MovingRooms(v, user, arm, order);
    UserIsPositive(v.net, user);
    AlikeItself(v.rooms);
    if arm.CreateRoom? { CreatingSteps(v, user, arm.asked, v'); }
    else if arm.PartRoom? {
      PartingSteps(v, user);
      LeavingSteps(v, a, v', user);
    } else if arm.JoinRoom? {
      var id: u16 := arm.id % 0x1_0000;
      if CanJoin(v.rooms, id, arm.password) {
        JoiningSteps(v, user, id, arm.password);
        LeavingSteps(v, a, v', user);
      } else {
        RefusedJoin(v.rooms, user, id, arm.password);
        HarmlessSteps(v, a, v');
      }
    } else if arm.LobbyJoin? || arm.StartSpectating? || arm.StopSpectating? || IsChatter(arm) {
      HarmlessSteps(v, a, v');
    } else if RoomOf(v.rooms, user).Some? {
      var id := RoomOf(v.rooms, user).value;
      if arm.StartRound? { StartingSteps(v, user, id, arm.now, v'); }
      else {
        InRoomAlike(v, user, id, arm);
        HarmlessSteps(v, a, v');
      }
    } else if arm.LoadComplete? { StrayingSteps(v, user, v'); }
    else { HarmlessSteps(v, a, v'); }
  }

  lemma RefusedJoin(r: Rooms, user: i32, id: u16, password: bytes)
    requires !CanJoin(r, id, password)
    ensures Join(r, user, id, password) == r
  {
  }

  // After a step exactly those are stranded whom it strands, or who were and are not unmapped; exactly
  // those rooms have stray loads or stale start times that get them, or had them and are not claimed, or
  // not disbanded or started.
  lemma StepTables(v: View, a: Action, v': View)
    requires Inv(v) && Step(v, a, v')
    ensures StrandedAfter(v, a, v') && StrayAfter(v, a, v') && StaleAfter(v, a, v')
  {
    hide NetInv; hide SeatInv; hide RoundInv; hide HistoryInv; hide NumberInv; hide DoArm; hide RemoveUser;
    hide DropUser; hide PostAll; hide Post; hide Members; hide Alike; hide StrandedAfter; hide StrayAfter;
    hide StaleAfter; hide CanJoin;
    AlikeItself(v.rooms);
    if a.From? {
      var order :| GoodOrder(v.rooms, order) && v' == DoArm(v, a.user, a.arm, order);
      ArmSteps(v, a.user, a.arm, order);
    } else if a.Login? || a.Disconnect? {
      DropTrace(v, a.user);
      if a.user !in v.net.tokens { NoRoomToLeave(v.rooms, a.user); }
      AlikeItself(v'.rooms);
      LeavingSteps(v, a, v', a.user);
    } else {
      HarmlessSteps(v, a, v');
    }
  }

  // ---------- one step ----------

  // Mapping and seats stay inverse over a step exactly when it is not a create that takes an open room's
  // number; loads stay with open rooms exactly when it is not a LOAD_COMPLETE from a user whose room is
  // gone; start times stay those of the rooms in progress exactly when it is not a create that takes the
  // number of one.
  lemma StepKeepsExact(v: View, a: Action, v': View)
    requires Inv(v) && Step(v, a, v')
    ensures SeatsExact(v.rooms) ==> (SeatsExact(v'.rooms) <==> CreateIsFree(v, a))
    ensures LoadsExact(v.rooms) ==> (LoadsExact(v'.rooms) <==> forall id :: !Strays(v, a, id))
    ensures ClockExact(v.rooms) ==> (ClockExact(v'.rooms) <==> forall id :: !Overwrites(v, a, id))
  {
    hide NetInv; hide SeatInv; hide RoundInv; hide HistoryInv; hide NumberInv; hide SeatsExact; hide LoadsExact;
    hide ClockExact; hide Step; hide IsStranded; hide IsStray; hide IsStale; hide Strays; hide Overwrites;
    StepTables(v, a, v');
    StepKeepsInv(v, a, v');
    WhatExactMeans(v.rooms);
    WhatExactMeans(v'.rooms);
    FreeStrandsNobody(v, a);
  }

  lemma FreeStrandsNobody(v: View, a: Action)
    requires Inv(v)
    ensures CreateIsFree(v, a) <==> forall u :: !Strands(v, a, u)
  {
    hide NetInv; hide RoundInv; hide HistoryInv; hide NumberInv; hide RemoveUser; hide RoomOk; hide Occupants;
    hide SeatInv;
    var id := v.rooms.nextId;
    if a.From? && a.arm.CreateRoom? {
      TablesLeft(v.rooms, a.user, id);
      if id in v.rooms.matches {
        AloneIsMapped(v.rooms, a.user, id);
        if !AloneIn(v.rooms, a.user, id) {
          SomebodyElse(Occupants(v.rooms.matches[id].slots), a.user);
          var u :| u in Occupants(v.rooms.matches[id].slots) && u != a.user as int;
          assert Strands(v, a, u);
        }
      }
    }
  }

  lemma SomebodyElse(people: set<int>, user: int)
    requires people != {}
    ensures people == {user} || exists u :: u in people && u != user
  {
    if forall u :: u in people ==> u == user { assert people == {user}; }
  }

  // ---------- over whole runs ----------

  // Some step of the run strands u, and none after it unmaps them.
  ghost predicate LeftStranded(views: seq<View>, acts: seq<Action>, n: nat, u: int)
    requires n <= |acts| && |views| == |acts| + 1
  {
    exists i :: 0 <= i < n && Strands(views[i], acts[i], u) && StaysMapped(views, acts, i + 1, n, u)
  }

  ghost predicate StaysMapped(views: seq<View>, acts: seq<Action>, i: nat, n: nat, u: int)
    requires n <= |acts| && |views| == |acts| + 1
  {
    forall j :: i <= j < n ==> !Unmaps(views[j], acts[j], u)
  }

  // Some step leaves loads for a room that is gone, and no create after it takes the number.
  ghost predicate LeftStray(views: seq<View>, acts: seq<Action>, n: nat, id: u16)
    requires n <= |acts| && |views| == |acts| + 1
  {
    exists i :: 0 <= i < n && Strays(views[i], acts[i], id) && StaysUnclaimed(views, acts, i + 1, n, id)
  }

  ghost predicate StaysUnclaimed(views: seq<View>, acts: seq<Action>, i: nat, n: nat, id: u16)
    requires n <= |acts| && |views| == |acts| + 1
  {
    forall j :: i <= j < n ==> !Claims(views[j], acts[j], id)
  }

  // Some create takes the number of a room in progress, and no step after it disbands or starts the room.
  ghost predicate LeftStale(views: seq<View>, acts: seq<Action>, n: nat, id: u16)
    requires n <= |acts| && |views| == |acts| + 1
  {
    exists i :: 0 <= i < n && Overwrites(views[i], acts[i], id) && StaysIdle(views, acts, i + 1, n, id)
  }

  ghost predicate StaysIdle(views: seq<View>, acts: seq<Action>, i: nat, n: nat, id: u16)
    requires n <= |acts| && |views| == |acts| + 1
  {
    forall j :: i <= j < n ==> !Disbands(views[j], acts[j], id) && !Restarts(views[j], acts[j], id)
  }

  lemma StrandedOneMore(views: seq<View>, acts: seq<Action>, n: nat, u: int)
    requires n < |acts| && |views| == |acts| + 1
    ensures LeftStranded(views, acts, n + 1, u) <==>
      Strands(views[n], acts[n], u) || (LeftStranded(views, acts, n, u) && !Unmaps(views[n], acts[n], u))
  {
    hide Strands; hide Unmaps;
    if i :| 0 <= i < n && Strands(views[i], acts[i], u) && StaysMapped(views, acts, i + 1, n, u) {
      if !Unmaps(views[n], acts[n], u) { assert StaysMapped(views, acts, i + 1, n + 1, u); }
    }
    if Strands(views[n], acts[n], u) { assert StaysMapped(views, acts, n + 1, n + 1, u); }
    if i :| 0 <= i < n + 1 && Strands(views[i], acts[i], u) && StaysMapped(views, acts, i + 1, n + 1, u) {
      if i < n { assert StaysMapped(views, acts, i + 1, n, u); }
    }
  }

  lemma StrayOneMore(views: seq<View>, acts: seq<Action>, n: nat, id: u16)
    requires n < |acts| && |views| == |acts| + 1
    ensures LeftStray(views, acts, n + 1, id) <==>
      Strays(views[n], acts[n], id) || (LeftStray(views, acts, n, id) && !Claims(views[n], acts[n], id))
  {
    hide Strays; hide Claims;
    if i :| 0 <= i < n && Strays(views[i], acts[i], id) && StaysUnclaimed(views, acts, i + 1, n, id) {
      if !Claims(views[n], acts[n], id) { assert StaysUnclaimed(views, acts, i + 1, n + 1, id); }
    }
    if Strays(views[n], acts[n], id) { assert StaysUnclaimed(views, acts, n + 1, n + 1, id); }
    if i :| 0 <= i < n + 1 && Strays(views[i], acts[i], id) && StaysUnclaimed(views, acts, i + 1, n + 1, id) {
      if i < n { assert StaysUnclaimed(views, acts, i + 1, n, id); }
    }
  }

  lemma StaleOneMore(views: seq<View>, acts: seq<Action>, n: nat, id: u16)
    requires n < |acts| && |views| == |acts| + 1
    ensures var (v, a) := (views[n], acts[n]);
      LeftStale(views, acts, n + 1, id) <==>
        Overwrites(v, a, id) || (LeftStale(views, acts, n, id) && !Disbands(v, a, id) && !Restarts(v, a, id))
  {
    hide Overwrites; hide Disbands; hide Restarts;
    if i :| 0 <= i < n && Overwrites(views[i], acts[i], id) && StaysIdle(views, acts, i + 1, n, id) {
      if !Disbands(views[n], acts[n], id) && !Restarts(views[n], acts[n], id) {
        assert StaysIdle(views, acts, i + 1, n + 1, id);
      }
    }
    if Overwrites(views[n], acts[n], id) { assert StaysIdle(views, acts, n + 1, n + 1, id); }
    if i :| 0 <= i < n + 1 && Overwrites(views[i], acts[i], id) && StaysIdle(views, acts, i + 1, n + 1, id) {
      if i < n { assert StaysIdle(views, acts, i + 1, n, id); }
    }
  }

  lemma OneMore(views: seq<View>, acts: seq<Action>, n: nat)
    requires 0 < n <= |acts| && |views| == |acts| + 1
    ensures var (v, a) := (views[n - 1], acts[n - 1]);
      && (forall u :: LeftStranded(views, acts, n, u) <==>
            Strands(v, a, u) || (LeftStranded(views, acts, n - 1, u) && !Unmaps(v, a, u)))
      && (forall id :: LeftStray(views, acts, n, id) <==>
            Strays(v, a, id) || (LeftStray(views, acts, n - 1, id) && !Claims(v, a, id)))
      && (forall id :: LeftStale(views, acts, n, id) <==>
            Overwrites(v, a, id) || (LeftStale(views, acts, n - 1, id) && !Disbands(v, a, id) && !Restarts(v, a, id)))
  {
    hide Strands; hide Unmaps; hide Strays; hide Claims; hide Overwrites; hide Disbands; hide Restarts;
    hide LeftStranded; hide LeftStray; hide LeftStale;
    var (v, a) := (views[n - 1], acts[n - 1]);
    forall u ensures LeftStranded(views, acts, n, u) <==>
      Strands(v, a, u) || (LeftStranded(views, acts, n - 1, u) && !Unmaps(v, a, u))
    { StrandedOneMore(views, acts, n - 1, u); }
    forall id
      ensures LeftStray(views, acts, n, id) <==>
        Strays(v, a, id) || (LeftStray(views, acts, n - 1, id) && !Claims(v, a, id))
      ensures LeftStale(views, acts, n, id) <==>
        Overwrites(v, a, id) || (LeftStale(views, acts, n - 1, id) && !Disbands(v, a, id) && !Restarts(v, a, id))
    {
      StrayOneMore(views, acts, n - 1, id);
      StaleOneMore(views, acts, n - 1, id);
    }
  }

  // In every run exactly those are stranded whom a create stranded and who have not been unmapped since;
  // and likewise for loads and start times.
  lemma {:induction false} RunTables(views: seq<View>, acts: seq<Action>, n: nat)
    requires Run(views, acts) && n < |views|
    ensures forall u :: IsStranded(views[n].rooms, u) <==> LeftStranded(views, acts, n, u)
    ensures forall id :: IsStray(views[n].rooms, id) <==> LeftStray(views, acts, n, id)
    ensures forall id :: IsStale(views[n].rooms, id) <==> LeftStale(views, acts, n, id)
  {
    hide Inv; hide Step; hide IsStranded; hide IsStray; hide IsStale; hide LeftStranded; hide LeftStray;
    hide LeftStale; hide Strands; hide Unmaps; hide Strays; hide Claims; hide Overwrites; hide Disbands; hide Restarts;
    if n == 0 {
      NothingLeftYet(views, acts);
    } else {
      RunTables(views, acts, n - 1);
      RunIsSafe(views, acts, n - 1);
      StepTables(views[n - 1], acts[n - 1], views[n]);
      OneMore(views, acts, n);
    }
  }

  lemma NothingLeftYet(views: seq<View>, acts: seq<Action>)
    requires Run(views, acts)
    ensures forall u :: !IsStranded(views[0].rooms, u) && !LeftStranded(views, acts, 0, u)
    ensures forall id :: !IsStray(views[0].rooms, id) && !LeftStray(views, acts, 0, id)
    ensures forall id :: !IsStale(views[0].rooms, id) && !LeftStale(views, acts, 0, id)
  {
    hide Step;
  }

  // In every state of every run: mapping and seats are inverse if and only if everyone a create stranded
  // has been unmapped since; loads are kept for open rooms only if and only if every number under which
  // one strayed has been claimed since; and start times are those of the rooms in progress if and only if
  // every room that lost its round to a create has been disbanded or started since.
  lemma RunIsExactIff(views: seq<View>, acts: seq<Action>, n: nat)
    requires Run(views, acts) && n < |views|
    ensures SeatsExact(views[n].rooms) <==> forall u :: !LeftStranded(views, acts, n, u)
    ensures LoadsExact(views[n].rooms) <==> forall id :: !LeftStray(views, acts, n, id)
    ensures ClockExact(views[n].rooms) <==> forall id :: !LeftStale(views, acts, n, id)
  {
    hide NetInv; hide SeatInv; hide RoundInv; hide HistoryInv; hide NumberInv; hide Step;
    hide IsStranded; hide IsStray; hide IsStale; hide LeftStranded; hide LeftStray; hide LeftStale;
    hide SeatsExact; hide LoadsExact; hide ClockExact;
    RunIsSafe(views, acts, n);
    RunTables(views, acts, n);
    WhatExactMeans(views[n].rooms);
  }

  // Steps from any sound state keep mapping and seats inverse as long as no create takes the number of an
  // open room, and then loads and start times exact too.
  ghost predicate TablesExact(r: Rooms) {
    SeatsExact(r) && LoadsExact(r) && ClockExact(r)
  }

  lemma FreeStepKeepsTables(v: View, a: Action, v': View)
    requires Inv(v) && Step(v, a, v') && CreateIsFree(v, a) && TablesExact(v.rooms)
    ensures TablesExact(v'.rooms)
  {
    hide NetInv; hide RoundInv; hide HistoryInv; hide NumberInv; hide Step; hide RoomOk; hide Occupants;
    hide RemoveUser; hide LoadsExact; hide ClockExact;
    StepKeepsExact(v, a, v');
    forall id ensures !Strays(v, a, id) { }
    if a.From? { TablesLeft(v.rooms, a.user, v.rooms.nextId); }
  }

  lemma {:induction false} FreeRunIsExact(views: seq<View>, acts: seq<Action>, n: nat)
    requires Run(views, acts) && n < |views|
    requires forall i :: 0 <= i < n ==> CreateIsFree(views[i], acts[i])
    ensures TablesExact(views[n].rooms)
  {
    hide Inv; hide Step; hide CreateIsFree; hide TablesExact;
    if n == 0 {
      StartIsExact();
    } else {
      FreeRunIsExact(views, acts, n - 1);
      RunIsSafe(views, acts, n - 1);
      FreeStepKeepsTables(views[n - 1], acts[n - 1], views[n]);
    }
  }

  lemma StartIsExact()
    ensures TablesExact(START.rooms)
  {
  }

  // A run with at most 65535 creates is exact throughout, with no further condition.
  lemma ShortRunIsExact(views: seq<View>, acts: seq<Action>, n: nat)
    requires Run(views, acts) && n < |views| && Creates(acts[..n]) <= 65535
    ensures TablesExact(views[n].rooms)
  {
    hide Inv; hide Step; hide TablesExact; hide NumberFree;
    forall i | 0 <= i < n ensures CreateIsFree(views[i], acts[i]) { FewCreatesAreFree(views, acts, i, n); }
    FreeRunIsExact(views, acts, n);
  }

  lemma FewCreatesAreFree(views: seq<View>, acts: seq<Action>, i: nat, n: nat)
    requires Run(views, acts) && i < n < |views| && Creates(acts[..n]) <= 65535
    ensures CreateIsFree(views[i], acts[i])
  {
    hide Inv; hide Step; hide Opens; hide RemoveUser;
    var a := acts[i];
    if a.From? && a.arm.CreateRoom? {
      RunIsSafe(views, acts, i);
      RunCountsCreates(views, acts, i);
      CreatesMonotone(acts, i + 1, n);
      assert acts[..i + 1][..i] == acts[..i];
      if !NumberFree(views[i], a.user) { CollisionNeedsManyCreates(views[i], a.user); }
    }
  }
}
