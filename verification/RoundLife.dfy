/** The life of a round over whole runs: nobody starts playing between two STARTs, and a round
    whose last player finishes or leaves is closed. */
module RoundLife {
  import opened Wrappers
  import opened BanchoTypes
  import opened Rooms
  import opened Rounds
  import opened RoomSafety
  import opened Spectating
  import opened Network
  import opened Server
  import opened ServerSafety
  import opened Runs

  // Who is playing in a room, nobody if there is no such room.
  function PlayersIn(r: Rooms, id: u16): set<int> {
    if id in r.matches then PlayingUsers(r.matches[id].slots) else {}
  }

  // Slots that play after a change were playing before it, under the same user.
  lemma PlayersFrom(a: Slots, b: Slots)
    requires forall i :: 0 <= i < 16 && b[i].status == SLOT_PLAYING ==>
      a[i].status == SLOT_PLAYING && a[i].user == b[i].user
    ensures PlayingUsers(b) <= PlayingUsers(a)
  {
  }

  lemma ShownPlayers(v: View, id: u16, m: Option<Match>, lobbyToo: bool, k: u16)
    requires id in v.rooms.matches
    requires m.Some? ==> PlayingUsers(m.value.slots) <= PlayingUsers(v.rooms.matches[id].slots)
    ensures PlayersIn(ShowIf(v, id, m, lobbyToo).rooms, k) <= PlayersIn(v.rooms, k)
  {
    hide Post; hide PlayingUsers;
  }

  lemma OwnStatusPlayers(m: Match, user: i32, status: u8)
    requires status != SLOT_PLAYING && WithOwnStatus(m, user, status).Some?
    ensures PlayingUsers(WithOwnStatus(m, user, status).value.slots) <= PlayingUsers(m.slots)
  {
    PlayersFrom(m.slots, WithOwnStatus(m, user, status).value.slots);
  }

  lemma MovedPlayers(m: Match, user: i32, target: int)
    requires MovedTo(m, user, target).Some?
    ensures PlayingUsers(MovedTo(m, user, target).value.slots) <= PlayingUsers(m.slots)
  {
    var m' := MovedTo(m, user, target).value;
    var i := FirstUser(m.slots, user).value;
    forall u | u in PlayingUsers(m'.slots) ensures u in PlayingUsers(m.slots) {
      var k :| 0 <= k < 16 && m'.slots[k].status == SLOT_PLAYING && m'.slots[k].user > 0 && m'.slots[k].user == u;
      assert m.slots[if k == target then i else k].user == u;
    }
  }

  lemma FinishPlayers(v: View, id: u16, k: u16)
    ensures PlayersIn(DoFinish(v, id).rooms, k) <= PlayersIn(v.rooms, k)
  {
    hide Post; hide Close; hide NamesOf; hide ShouldFinish; hide PlayingUsers;
    if id in v.rooms.matches { ClosedPlayers(v.rooms.matches[id]); }
  }

  lemma ClosedPlayers(m: Match)
    ensures PlayingUsers(Closed(m).slots) <= PlayingUsers(m.slots)
  {
    PlayersFrom(m.slots, Closed(m).slots);
  }

  lemma StyledPlayers(m: Match, user: i32, arm: Arm)
    requires arm.Lock? || arm.ChangeSettings? || arm.ChangeMods? || arm.ChangeTeam? || arm.ChangeHost?
    ensures var m' := match arm
      case Lock(target) => WithLock(m, user, target)
      case ChangeSettings(asked) => WithSettings(m, user, asked)
      case ChangeMods(mods) => WithMods(m, user, mods)
      case ChangeHost(target) => WithHost(m, user, target)
      case _ => WithTeam(m, user);
      m'.Some? ==> PlayingUsers(m'.value.slots) <= PlayingUsers(m.slots)
  {
    if arm.Lock? && WithLock(m, user, arm.target).Some? {
      PlayersFrom(m.slots, WithLock(m, user, arm.target).value.slots);
    }
    if arm.ChangeSettings? && WithSettings(m, user, arm.asked).Some? {
      PlayersFrom(m.slots, WithSettings(m, user, arm.asked).value.slots);
    }
    if arm.ChangeMods? && WithMods(m, user, arm.mods).Some? {
      PlayersFrom(m.slots, WithMods(m, user, arm.mods).value.slots);
    }
    if arm.ChangeTeam? && WithTeam(m, user).Some? { PlayersFrom(m.slots, WithTeam(m, user).value.slots); }
  }

  lemma InRoomPlayers(v: View, user: i32, id: u16, arm: Arm, k: u16)
    requires id in v.rooms.matches
    requires !arm.StartRound? || Started(v.rooms.matches[id], user).None? || k != id
    ensures PlayersIn(InRoom(v, user, id, arm).rooms, k) <= PlayersIn(v.rooms, k)
  {
    hide Post; hide PlayingUsers; hide WithOwnStatus; hide MovedTo; hide WithLock; hide WithSettings; hide WithMods;
    hide WithTeam; hide WithHost; hide Started; hide DoFinish; hide ShowIf; hide Occupants;
    var m := v.rooms.matches[id];
    if arm.ChangeSlot? {
      if MovedTo(m, user, arm.target).Some? { MovedPlayers(m, user, arm.target); }
      ShownPlayers(v, id, MovedTo(m, user, arm.target), true, k);
    } else if arm.SetReady? || arm.SetNotReady? || arm.NoBeatmap? || arm.HasBeatmap? {
      var status := if arm.SetReady? then SLOT_READY else if arm.NoBeatmap? then SLOT_NO_MAP else SLOT_NOT_READY;
      if WithOwnStatus(m, user, status).Some? { OwnStatusPlayers(m, user, status); }
      ShownPlayers(v, id, WithOwnStatus(m, user, status), arm.SetReady? || arm.SetNotReady?, k);
    } else if arm.CompleteRound? {
      var m' := WithOwnStatus(m, user, SLOT_COMPLETE);
      if m'.Some? { OwnStatusPlayers(m, user, SLOT_COMPLETE); }
      FinishPlayers(v.(rooms := WithRoom(v.rooms, id, m'.GetOr(m))), id, k);
    } else if arm.ChangeTeam? {
      StyledPlayers(m, user, arm);
      if WithTeam(m, user).Some? { FinishPlayers(Show(v, id, WithTeam(m, user).value, false), id, k); }
    } else if arm.Lock? {
      StyledPlayers(m, user, arm);
      ShownPlayers(v, id, WithLock(m, user, arm.target), true, k);
    } else if arm.ChangeSettings? {
      StyledPlayers(m, user, arm);
      ShownPlayers(v, id, WithSettings(m, user, arm.asked), true, k);
    } else if arm.ChangeMods? {
      StyledPlayers(m, user, arm);
      ShownPlayers(v, id, WithMods(m, user, arm.mods), false, k);
    } else if arm.ChangeHost? {
      StyledPlayers(m, user, arm);
    }
  }

  lemma RemovalPlayers(r: Rooms, user: int, k: u16)
    ensures PlayersIn(RemoveUser(r, user).0, k) <= PlayersIn(r, k)
  {
    hide RemoveUser; hide PlayingUsers;
    if k in RemoveUser(r, user).0.matches {
      SlotsAfterRemoval(r, user, k, 0);
      forall i: nat | i < 16 { SlotsAfterRemoval(r, user, k, i); }
      PlayersFrom(r.matches[k].slots, RemoveUser(r, user).0.matches[k].slots);
    }
  }

  lemma OpenPlayers(r: Rooms, user: i32, asked: Match, k: u16)
    ensures PlayersIn(OpenRoom(r, user, asked), k) <= PlayersIn(r, k)
  {
    hide PlayingUsers;
    NewPlayers(r.nextId, user, asked);
  }

  lemma NewPlayers(id: u16, user: i32, asked: Match)
    ensures PlayingUsers(NewRoom(id, user, asked).slots) == {}
  {
    var slots := NewRoom(id, user, asked).slots;
    assert forall i :: 0 < i < 16 ==> slots[i] == EMPTY_SLOT;
  }

  lemma EnterPlayers(r: Rooms, user: i32, id: u16, k: u16)
    ensures PlayersIn(Enter(r, user, id), k) <= PlayersIn(r, k)
  {
    hide PlayingUsers;
    if id in r.matches { PlayersFrom(r.matches[id].slots, SitDown(r.matches[id], user).slots); }
  }

  // One step: unless it begins a round of room k, nobody in k plays who was not already playing.
  lemma StepPlayers(v: View, a: Action, v': View, k: u16)
    requires Step(v, a, v') && Begins(v'.trace, k) == Begins(v.trace, k)
    ensures PlayersIn(v'.rooms, k) <= PlayersIn(v.rooms, k)
  {
    hide Post; hide PostEach; hide PostAll; hide DoFinish; hide InRoom; hide RemoveUser; hide Farewell;
    hide DoStopSpectating;
    hide CanJoin; hide OpenRoom; hide Enter; hide Welcome; hide DropUser; hide NewRoom; hide PlayersIn;
    hide Started; hide Begins;
    if a.From? {
      var (user, arm) := (a.user, a.arm);
      var order :| GoodOrder(v.rooms, order) && v' == DoArm(v, user, arm, order);
      RemovalPlayers(v.rooms, user, k);
      LeaveRooms(v, user);
      var r1 := RemoveUser(v.rooms, user).0;
      if arm.CreateRoom? {
        OpenPlayers(r1, user, arm.asked, k);
      } else if arm.JoinRoom? {
        EnterPlayers(r1, user, arm.id % 0x1_0000, k);
      } else if arm.PartRoom? {
        match RemoveUser(v.rooms, user).1
        case None =>
        case Some(g) => FinishPlayers(Leave(v, user), g.id, k);
      } else if arm.StartSpectating? || arm.StopSpectating? {
        StopTrace(v, user);
      } else if RoomOf(v.rooms, user).Some? {
        var id := RoomOf(v.rooms, user).value;
        InRoomTally(v, user, id, arm);
        TallyOf(v.trace, Began(id));
        if !(arm.LobbyJoin? || IsChatter(arm)) {
          InRoomPlayers(v, user, id, arm, k);
        }
      } else {
        StrayPlayers(v, user, k);
      }
    } else if a.Login? || a.Disconnect? {
      DropTrace(v, a.user);
      RemovalPlayers(v.rooms, a.user, k);
    }
  }

  // A load from someone whose room is gone moves no room and begins no round.
  lemma StrayPlayers(v: View, user: i32, k: u16)
    requires RoomOf(v.rooms, user).None?
    ensures StrayLoad(v, user).rooms.matches == v.rooms.matches &&
      PlayersIn(StrayLoad(v, user).rooms, k) == PlayersIn(v.rooms, k)
    ensures Begins(StrayLoad(v, user).trace, k) == Begins(v.trace, k)
  {
    hide Begins;
    if user in v.rooms.userToMatch { TallyOf(v.trace, Loaded(v.rooms.userToMatch[user], user)); }
  }

  lemma StepBegins(v: View, a: Action, v': View, k: u16)
    requires Step(v, a, v')
    ensures Begins(v'.trace, k) >= Begins(v.trace, k)
  {
    hide Post; hide PostEach; hide PostAll; hide DoFinish; hide InRoom; hide RemoveUser; hide Farewell;
    hide DoStopSpectating;
    hide CanJoin; hide OpenRoom; hide Enter; hide Welcome; hide DropUser; hide NewRoom; hide Started;
    hide Begins; hide Opens;
    if a.From? {
      var (user, arm) := (a.user, a.arm);
      var order :| GoodOrder(v.rooms, order) && v' == DoArm(v, user, arm, order);
      LeaveRooms(v, user);
      if arm.CreateRoom? {
        TallyOf(v.trace, Opened(v.rooms.nextId));
      } else if arm.PartRoom? {
        match RemoveUser(v.rooms, user).1
        case None =>
        case Some(g) => FinishTally(Leave(v, user), g.id);
      } else if arm.StartSpectating? || arm.StopSpectating? {
        StopTrace(v, user);
      } else if RoomOf(v.rooms, user).Some? {
        var id := RoomOf(v.rooms, user).value;
        InRoomTally(v, user, id, arm);
        TallyOf(v.trace, Began(id));
      } else {
        StrayPlayers(v, user, k);
      }
    } else if a.Login? || a.Disconnect? {
      DropTrace(v, a.user);
    }
  }

  // Over a run: from state i to state j, unless a round of room k began in between, the players
  // of room k at j were all playing there at i.
  lemma {:induction false} NobodyStartsBetweenStarts(views: seq<View>, acts: seq<Action>, i: nat, j: nat, k: u16)
    requires Run(views, acts) && i <= j < |views|
    requires Begins(views[j].trace, k) == Begins(views[i].trace, k)
    ensures PlayersIn(views[j].rooms, k) <= PlayersIn(views[i].rooms, k)
    decreases j
  {
    hide Step; hide Begins; hide PlayersIn;
    if i < j {
      BeginsGrow(views, acts, i, j - 1, k);
      StepBegins(views[j - 1], acts[j - 1], views[j], k);
      NobodyStartsBetweenStarts(views, acts, i, j - 1, k);
      StepPlayers(views[j - 1], acts[j - 1], views[j], k);
    }
  }

  lemma {:induction false} BeginsGrow(views: seq<View>, acts: seq<Action>, i: nat, j: nat, k: u16)
    requires Run(views, acts) && i <= j < |views|
    ensures Begins(views[i].trace, k) <= Begins(views[j].trace, k)
    decreases j
  {
    hide Step; hide Begins;
    if i < j {
      BeginsGrow(views, acts, i, j - 1, k);
      StepBegins(views[j - 1], acts[j - 1], views[j], k);
    }
  }

  // The users playing in the first k slots.
  function PlayersTo(slots: Slots, k: nat): set<int>
    requires k <= 16
  {
    set i | 0 <= i < k && slots[i].status == SLOT_PLAYING :: slots[i].user as int
  }

  lemma PlayersOneMore(slots: Slots, k: nat)
    requires SlotsOk(slots) && Distinct(slots) && k < 16
    ensures slots[k].status == SLOT_PLAYING ==>
      slots[k].user as int !in PlayersTo(slots, k) &&
        PlayersTo(slots, k + 1) == PlayersTo(slots, k) + {slots[k].user as int}
    ensures slots[k].status != SLOT_PLAYING ==> PlayersTo(slots, k + 1) == PlayersTo(slots, k)
  {
    hide SlotsOk;
    if slots[k].status == SLOT_PLAYING { SlotIsOk(slots, k); }
  }

  // In a well-formed room the playing users are as many as the playing slots.
  lemma {:induction false} PlayersAreSlots(slots: Slots, k: nat)
    requires SlotsOk(slots) && Distinct(slots) && k <= 16
    ensures PlayingCount(slots, k) == |PlayersTo(slots, k)|
  {
    hide PlayersTo; hide SlotsOk; hide Distinct;
    if k == 0 {
      assert PlayersTo(slots, 0) == {} by { NoPlayersYet(slots); }
    } else {
      PlayersAreSlots(slots, k - 1);
      PlayersOneMore(slots, k - 1);
    }
  }

  lemma NoPlayersYet(slots: Slots)
    ensures PlayersTo(slots, 0) == {}
  {
  }

  // The number of playing slots of a room never rises between two STARTs.
  lemma PlayingSlotsNeverRise(views: seq<View>, acts: seq<Action>, i: nat, j: nat, k: u16)
    requires Run(views, acts) && i <= j < |views| && k in views[i].rooms.matches && k in views[j].rooms.matches
    requires Begins(views[j].trace, k) == Begins(views[i].trace, k)
    ensures PlayingCount(views[j].rooms.matches[k].slots, 16) <= PlayingCount(views[i].rooms.matches[k].slots, 16)
  {
    hide Run; hide Inv; hide Begins; hide PlayingUsers; hide PlayersTo; hide RoomOk;
    NobodyStartsBetweenStarts(views, acts, i, j, k);
    RunIsSafe(views, acts, i);
    RunIsSafe(views, acts, j);
    RoomInGoodOrder(views[i], k);
    RoomInGoodOrder(views[j], k);
    PlayersCounted(views[i].rooms.matches[k]);
    PlayersCounted(views[j].rooms.matches[k]);
    SubsetSize(PlayingUsers(views[j].rooms.matches[k].slots), PlayingUsers(views[i].rooms.matches[k].slots));
  }

  lemma PlayersCounted(m: Match)
    requires RoomOk(m)
    ensures PlayingCount(m.slots, 16) == |PlayingUsers(m.slots)|
  {
    PlayersAreSlots(m.slots, 16);
    assert PlayersTo(m.slots, 16) == PlayingUsers(m.slots);
  }

  lemma {:induction false} SubsetSize(a: set<int>, b: set<int>)
    requires a <= b
    ensures |a| <= |b|
  {
    assert b == a + (b - a);
  }

  // ---------- rounds that must close ----------

  // A room in progress in which nobody plays and somebody is done.
  predicate Stuck(m: Match) {
    m.inProgress && !AnyPlaying(m.slots) && AnyComplete(m.slots)
  }

  lemma FinishUnsticks(v: View, id: u16)
    ensures var v' := DoFinish(v, id); id in v'.rooms.matches ==> !Stuck(v'.rooms.matches[id])
  {
    hide Post; hide Close; hide NamesOf;
  }

  lemma CompleteCloses(v: View, user: i32, id: u16)
    requires id in v.rooms.matches
    ensures var v' := DoComplete(v, user, id, v.rooms.matches[id]);
      id in v'.rooms.matches ==> !Stuck(v'.rooms.matches[id])
  {
    hide DoFinish; hide Stuck; hide WithOwnStatus;
    var m := v.rooms.matches[id];
    FinishUnsticks(v.(rooms := WithRoom(v.rooms, id, WithOwnStatus(m, user, SLOT_COMPLETE).GetOr(m))), id);
  }

  lemma TeamCloses(v: View, user: i32, id: u16)
    requires id in v.rooms.matches && FirstUser(v.rooms.matches[id].slots, user).Some?
    ensures var v' := DoTeam(v, user, id, v.rooms.matches[id]);
      id in v'.rooms.matches ==> !Stuck(v'.rooms.matches[id])
  {
    hide DoFinish; hide Stuck; hide Show;
    FinishUnsticks(Show(v, id, WithTeam(v.rooms.matches[id], user).value, false), id);
  }

  lemma PartCloses(v: View, user: i32)
    requires user in v.rooms.userToMatch && v.rooms.userToMatch[user] in v.rooms.matches
    requires FirstUser(v.rooms.matches[v.rooms.userToMatch[user]].slots, user).Some?
    ensures var (id, v') := (v.rooms.userToMatch[user], DoPart(v, user));
      id in v'.rooms.matches ==> !Stuck(v'.rooms.matches[id])
  {
    hide DoFinish; hide Stuck; hide RemoveUser; hide Farewell;
    RemovalOutcome(v.rooms, user);
    FinishUnsticks(Leave(v, user), v.rooms.userToMatch[user]);
  }

  // COMPLETE, PART and CHANGE_TEAM never leave the room the sender sits in in that state.
  lemma ClosingPackets(v: View, user: i32, id: u16, arm: Arm, order: seq<u16>)
    requires Inv(v) && user in v.net.tokens && GoodOrder(v.rooms, order)
    requires arm.CompleteRound? || arm.PartRoom? || arm.ChangeTeam?
    requires SitsIn(v.rooms, user, id)
    ensures var v' := DoArm(v, user, arm, order);
      id in v'.rooms.matches ==> !Stuck(v'.rooms.matches[id])
  {
    hide DoComplete; hide DoTeam; hide DoPart; hide Stuck; hide NetInv; hide WatchInv; hide RoomsInv;
    UserIsPositive(v.net, user);
    SeatHere(v.rooms, v.trace, user, id);
    if arm.CompleteRound? { CompleteCloses(v, user, id); }
    else if arm.ChangeTeam? { TeamCloses(v, user, id); }
    else { PartCloses(v, user); }
  }

  lemma SeatHere(r: Rooms, tr: seq<Event>, user: i32, id: u16)
    requires RoomsInv(r, tr) && user > 0 && SitsIn(r, user, id)
    ensures user in r.userToMatch && r.userToMatch[user] == id && FirstUser(r.matches[id].slots, user).Some?
  {
    hide HistoryInv; hide RoundInv; hide NumberInv; hide RoomOk;
    assert user as int in People(r)[id];
    RoomIsOk(r, id);
    SeatFound(r.matches[id], user);
  }

  lemma RemovalOutcome(r: Rooms, user: int)
    requires user in r.userToMatch && r.userToMatch[user] in r.matches
    requires FirstUser(r.matches[r.userToMatch[user]].slots, user).Some?
    ensures RemoveUser(r, user).1.Some? && RemoveUser(r, user).1.value.id == r.userToMatch[user]
    ensures RemoveUser(r, user).1.value.disbanded ==> r.userToMatch[user] !in RemoveUser(r, user).0.matches
  {
  }

  // ---------- when the all-players-loaded packet goes out ----------

  // The user has sent LOAD_COMPLETE in the room since the latest START there.
  ghost predicate LoadedSinceStart(tr: seq<Event>, room: u16, user: int) {
    exists s, i :: LatestStart(tr, room, s) && s < i < |tr| && tr[i] == Loaded(room, user)
  }

  lemma {:induction false} LoadCounts(tr: seq<Event>, room: u16, user: int, s: int, i: int)
    requires LatestStart(tr, room, s) && s < i < |tr| && tr[i] == Loaded(room, user)
    ensures user in LoadedInRound(tr, room)
  {
    var n := |tr| - 1;
    if i < n {
      assert tr[..n][i] == tr[i] && tr[..n][s] == tr[s];
      assert forall j :: s < j < n ==> tr[..n][j] == tr[j];
      LoadCounts(tr[..n], room, user, s, i);
      assert tr[n] != Began(room) && tr[n] != Opened(room);
    }
  }

  lemma LoadedIff(tr: seq<Event>, room: u16, user: int)
    requires RoundOpen(tr, room)
    ensures user in LoadedInRound(tr, room) <==> LoadedSinceStart(tr, room, user)
  {
    OpenRoundBegan(tr, room);
    var s :| LatestStart(tr, room, s);
    if user in LoadedInRound(tr, room) { LoadedAfterStart(tr, room, user, s); }
    if LoadedSinceStart(tr, room, user) {
      var s', i :| LatestStart(tr, room, s') && s' < i < |tr| && tr[i] == Loaded(room, user);
      LoadCounts(tr, room, user, s', i);
    }
  }

  // A LOAD_COMPLETE makes the packet go out, once to each occupant, exactly when every playing user
  // has now sent one in that room since its latest START; and no other packet goes out.
  lemma LoadAnnounced(v: View, user: i32, id: u16)
    requires Inv(v) && id in v.rooms.matches
    ensures var m := v.rooms.matches[id];
      var tr := v.trace + [Loaded(id, user)];
      var ready := forall u :: u in PlayingUsers(m.slots) ==> LoadedSinceStart(tr, id, u);
      DoLoad(v, user, id, m).net == if ready then Post(v.net, Occupants(m.slots), Packet.MatchAllPlayersLoaded)
        else v.net
  {
    hide NetInv; hide SeatInv; hide NumberInv; hide SafeHistory; hide LatestStart; hide LoadedSinceStart;
    hide Post; hide Occupants;
    var slots := v.rooms.matches[id].slots;
    var tr := v.trace + [Loaded(id, user)];
    if u0 :| u0 in PlayingUsers(slots) {
      assert AnyPlaying(slots);
      assert InStep(v.rooms, v.trace, id);
      assert tr[..|tr| - 1] == v.trace;
      forall u { LoadedIff(tr, id, u); }
      assert LoadedInRound(tr, id) == LoadedOf(v.rooms, id) + {user as int};
    }
  }

  // ---------- what the invariant says about rounds and hosts ----------

  lemma RoundsInStep(v: View, id: u16)
    requires Inv(v)
    ensures id in v.rooms.matches ==>
      var m := v.rooms.matches[id];
      && (AnyPlaying(m.slots) ==> m.inProgress) && (m.inProgress ==> id in v.rooms.startTimes)
      && m.host in Occupants(m.slots) && Distinct(m.slots)
      && (forall i :: 0 <= i < 16 && !HasPlayer(m.slots[i].status) ==> m.slots[i].user == -1)
    ensures id in v.rooms.startTimes || id in v.rooms.lastScores ==> id in v.rooms.matches
  {
    hide NetInv; hide NumberInv; hide HistoryInv;
    if id in v.rooms.matches {
      RoomIsOk(v.rooms, id);
      forall i | 0 <= i < 16 && !HasPlayer(v.rooms.matches[id].slots[i].status)
        ensures v.rooms.matches[id].slots[i].user == -1
      {
        SlotIsOk(v.rooms.matches[id].slots, i);
        assert SlotOk(v.rooms.matches[id].slots[i]);
      }
    }
  }

  // ---------- over whole runs ----------

  // Whenever the packet has gone out in a run, each user then playing had sent LOAD_COMPLETE in that
  // room after its latest START.
  lemma RunLoadsAreEarned(views: seq<View>, acts: seq<Action>, n: nat, k: nat, user: int)
    requires Run(views, acts) && n < |views|
    requires k < |views[n].trace| && views[n].trace[k].AllLoaded? && user in views[n].trace[k].playing
    ensures var tr := views[n].trace;
      exists s, i :: LatestStart(tr[..k], tr[k].room, s) && s < i < k && tr[i] == Loaded(tr[k].room, user)
  {
    hide Run; hide LatestStart; hide SafeHistory;
    RunIsSafe(views, acts, n);
    HistoryIsSafe(views[n]);
    AllLoadedIsEarned(views[n].trace, k, user);
  }

  // Every scored row of every result of a run comes from the last frame its user sent in that room
  // after its latest START.
  lemma RunResultsAreEarned(views: seq<View>, acts: seq<Action>, n: nat, k: nat, a: nat)
    requires Run(views, acts) && n < |views|
    requires k < |views[n].trace| && views[n].trace[k].Ended?
    requires a < |views[n].trace[k].outcome.rows| && views[n].trace[k].outcome.rows[a].passed
    ensures var tr := views[n].trace;
      exists s, i, f :: Backing(tr[..k], tr[k].room, tr[k].outcome.rows[a], s, i, f)
  {
    hide Run; hide Backing; hide SafeHistory;
    RunIsSafe(views, acts, n);
    HistoryIsSafe(views[n]);
    ResultIsEarned(views[n].trace, k, a);
  }

  lemma HistoryIsSafe(v: View)
    requires Inv(v)
    ensures SafeHistory(v.trace)
  {
    hide SafeHistory;
  }
}
