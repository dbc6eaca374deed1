/** What the packets about rooms do, field by field and slot by slot, told of whole steps: from the state
    before, the packet and the state after alone. */
module RoomEffects {
  import opened Wrappers
  import opened BanchoTypes
  import opened Rooms
  import opened Rounds
  import opened RoomSafety
  import opened Network
  import opened Server
  import opened ServerSafety

  // ---------- who sits where ----------

  // The user sits in slot i of room id.
  predicate SeatAt(r: Rooms, user: int, id: u16, i: nat) {
    id in r.matches && i < 16 && r.matches[id].slots[i].user == user && user > 0
  }

  ghost predicate SitsNowhere(r: Rooms, user: int) {
    forall id, i: nat :: !SeatAt(r, user, id, i)
  }

  // Nothing but room id changes, and that one room becomes m.
  predicate OnlyRoom(r: Rooms, r': Rooms, id: u16, m: Match) {
    r' == r.(matches := r.matches[id := m])
  }

  // The packets that do something in the sender's room.
  predicate InsideArm(arm: Arm) {
    || arm.ChangeSlot? || arm.SetReady? || arm.SetNotReady? || arm.NoBeatmap? || arm.HasBeatmap? || arm.Lock?
    || arm.ChangeSettings? || arm.ChangeMods? || arm.ChangeTeam? || arm.ChangeHost? || arm.StartRound?
    || arm.LoadComplete? || arm.ScoreUpdate? || arm.Failed? || arm.SkipRequest? || arm.CompleteRound?
  }

  lemma SeatFacts(v: View, user: i32, id: u16, i: nat)
    requires Inv(v) && SeatAt(v.rooms, user, id, i)
    ensures var m := v.rooms.matches[id];
      && RoomOf(v.rooms, user) == Some(id) && FirstUser(m.slots, user) == Some(i) && RoomOk(m)
      && Occupied(m.slots[i]) && (forall j :: 0 <= j < 16 && m.slots[j].user == user ==> j == i)
  {
    hide NetInv; hide RoundInv; hide HistoryInv; hide NumberInv; hide RoomOk;
    var m := v.rooms.matches[id];
    RoomIsOk(v.rooms, id);
    PlayerSits(m, user, i);
    assert user as int in People(v.rooms)[id];
  }

  lemma PlayerSits(m: Match, user: int, i: nat)
    requires RoomOk(m) && i < 16 && m.slots[i].user == user && user > 0
    ensures user in Occupants(m.slots) && Occupied(m.slots[i]) && FirstUser(m.slots, user) == Some(i)
    ensures forall j :: 0 <= j < 16 && m.slots[j].user == user ==> j == i
  {
    SlotIsOk(m.slots, i);
    SeatFound(m, user);
  }

  lemma InsideStep(v: View, user: i32, arm: Arm, v': View)
    requires Step(v, From(user, arm), v') && InsideArm(arm)
    ensures v' == match RoomOf(v.rooms, user)
      case Some(id) => InRoom(v, user, id, arm)
      case None => if arm.LoadComplete? then StrayLoad(v, user) else v
  {
    hide InRoom; hide StrayLoad;
    var order :| GoodOrder(v.rooms, order) && v' == DoArm(v, user, arm, order);
  }

  // ---------- a sender without a seat ----------

  // The host sits in the room.
  lemma HostsSit(v: View, user: i32, id: u16)
    requires Inv(v) && id in v.rooms.matches && v.rooms.matches[id].host == user
    ensures exists i: nat :: SeatAt(v.rooms, user, id, i)
  {
    hide NetInv; hide RoundInv; hide HistoryInv; hide NumberInv; hide SlotsOk; hide Distinct;
    RoomIsOk(v.rooms, id);
    var slots := v.rooms.matches[id].slots;
    var i :| 0 <= i < 16 && Occupied(slots[i]) && slots[i].user == user;
    assert SeatAt(v.rooms, user, id, i);
  }

  lemma UnseatedFacts(v: View, user: i32, id: u16)
    requires Inv(v) && user > 0 && SitsNowhere(v.rooms, user) && id in v.rooms.matches
    ensures FirstUser(v.rooms.matches[id].slots, user).None? && v.rooms.matches[id].host != user
  {
    hide Inv; hide FirstUser;
    if v.rooms.matches[id].host == user { HostsSit(v, user, id); }
    forall k: nat | k < 16 ensures v.rooms.matches[id].slots[k].user != user {
      assert !SeatAt(v.rooms, user, id, k);
    }
  }

  // Nothing that somebody without a seat sends changes a room, but that a load is noted and COMPLETE may
  // find the round over.
  lemma UnseatedChangesNothing(v: View, user: i32, arm: Arm, v': View)
    requires Inv(v) && Step(v, From(user, arm), v') && InsideArm(arm) && SitsNowhere(v.rooms, user)
    requires !arm.LoadComplete? && !arm.CompleteRound?
    ensures v' == v
  {
    hide Inv; hide Step; hide Post; hide StrayLoad; hide FirstUser; hide DoFinish; hide Occupants;
    Sender(v, user, arm, v');
    InsideStep(v, user, arm, v');
    if RoomOf(v.rooms, user).Some? { UnseatedFacts(v, user, RoomOf(v.rooms, user).value); }
  }

  lemma Sender(v: View, user: i32, arm: Arm, v': View)
    requires Inv(v) && Step(v, From(user, arm), v')
    ensures user in v.net.tokens && user > 0
  {
    hide DoArm; hide RoomsInv;
    UserIsPositive(v.net, user);
  }

  // ---------- one slot, or the fields of the room ----------

  // MATCH_CHANGE_SLOT: into an open slot, everything of the old one comes along and it is left open.
  lemma MoveEffect(v: View, user: i32, id: u16, i: nat, target: i32, v': View)
    requires Inv(v) && Step(v, From(user, Arm.ChangeSlot(target)), v') && SeatAt(v.rooms, user, id, i)
    ensures var slots := v.rooms.matches[id].slots;
      if 0 <= target < 16 && slots[target].status == 1 then
        exists m :: OnlyRoom(v.rooms, v'.rooms, id, m) && m == v.rooms.matches[id].(slots := m.slots) &&
          m.slots[target] == slots[i] && m.slots[i] == Slot(1, 0, -1, 0) &&
          forall k :: 0 <= k < 16 && k != i && k != target ==> m.slots[k] == slots[k]
      else v' == v
  {
    hide Inv; hide Step; hide Post; hide FirstUser; hide Occupants; hide Occupied; hide RoomOk;
    SeatFacts(v, user, id, i);
    InsideStep(v, user, Arm.ChangeSlot(target), v');
    SeatedSlot(v.rooms.matches[id].slots[i]);
    if MovedTo(v.rooms.matches[id], user, target).Some? {
      assert OnlyRoom(v.rooms, v'.rooms, id, MovedTo(v.rooms.matches[id], user, target).value);
    }
  }

  lemma SeatedSlot(s: Slot)
    ensures Occupied(s) ==> s.status % 128 >= 4
  {
  }

  // READY, NOT_READY, NO_BEATMAP and HAS_BEATMAP: the sender's own status and nothing else.
  lemma StatusEffect(v: View, user: i32, id: u16, i: nat, arm: Arm, v': View)
    requires Inv(v) && Step(v, From(user, arm), v') && SeatAt(v.rooms, user, id, i)
    requires arm.SetReady? || arm.SetNotReady? || arm.NoBeatmap? || arm.HasBeatmap?
    ensures var m := v.rooms.matches[id];
      var status := if arm.SetReady? then 8 else if arm.NoBeatmap? then 16 else 4;
      exists m' :: OnlyRoom(v.rooms, v'.rooms, id, m') && m' == m.(slots := m'.slots) &&
        m'.slots[i] == m.slots[i].(status := status) &&
        forall k :: 0 <= k < 16 && k != i ==> m'.slots[k] == m.slots[k]
  {
    hide Inv; hide Step; hide Post; hide FirstUser; hide Occupants; hide Occupied; hide RoomOk;
    SeatFacts(v, user, id, i);
    InsideStep(v, user, arm, v');
    var status := if arm.SetReady? then SLOT_READY else if arm.NoBeatmap? then SLOT_NO_MAP else SLOT_NOT_READY;
    assert OnlyRoom(v.rooms, v'.rooms, id, WithOwnStatus(v.rooms.matches[id], user, status).value);
  }

  // MATCH_LOCK by the host turns an open slot into a locked one and back, and leaves a taken one alone.
  lemma LockEffect(v: View, user: i32, id: u16, i: nat, target: i32, v': View)
    requires Inv(v) && Step(v, From(user, Lock(target)), v') && SeatAt(v.rooms, user, id, i)
    ensures var m := v.rooms.matches[id];
      if m.host == user && 0 <= target < 16 then
        exists m' :: OnlyRoom(v.rooms, v'.rooms, id, m') && m' == m.(slots := m'.slots) &&
          (forall k :: 0 <= k < 16 && k != target ==> m'.slots[k] == m.slots[k]) &&
          m'.slots[target] == m.slots[target].(status := m'.slots[target].status) &&
          var (before, after) := (m.slots[target].status, m'.slots[target].status);
          (before == 1 ==> after == 2) && (before == 2 ==> after == 1) &&
            (before != 1 && before != 2 ==> after == before)
      else v' == v
  {
    hide Inv; hide Step; hide Post; hide FirstUser; hide Occupants; hide Occupied; hide RoomOk;
    SeatFacts(v, user, id, i);
    InsideStep(v, user, Lock(target), v');
    if WithLock(v.rooms.matches[id], user, target).Some? {
      assert OnlyRoom(v.rooms, v'.rooms, id, WithLock(v.rooms.matches[id], user, target).value);
    }
  }

  // What stays of a room whose settings the host changes.
  predicate SettingsOf(m: Match, asked: Match, m': Match) {
    && m'.name == asked.name && m'.beatmapName == asked.beatmapName && m'.beatmapId == asked.beatmapId
    && m'.beatmapMd5 == asked.beatmapMd5 && m'.activeMods == asked.activeMods && m'.playMode == asked.playMode
    && m'.scoringType == asked.scoringType && m'.teamType == asked.teamType && m'.freemod == asked.freemod
    && m'.id == m.id && m'.inProgress == m.inProgress && m'.matchType == m.matchType
    && m'.password == m.password && m'.host == m.host && m'.seed == m.seed
  }

  // MATCH_CHANGE_SETTINGS by the host: the nine settings asked for, and whoever was READY, the host apart,
  // is NOT_READY again.
  lemma SettingsEffect(v: View, user: i32, id: u16, i: nat, asked: Match, v': View)
    requires Inv(v) && Step(v, From(user, Arm.ChangeSettings(asked)), v') && SeatAt(v.rooms, user, id, i)
    ensures var m := v.rooms.matches[id];
      if m.host == user then
        exists m' :: OnlyRoom(v.rooms, v'.rooms, id, m') && SettingsOf(m, asked, m') &&
          forall k :: 0 <= k < 16 ==>
            m'.slots[k] == if m.slots[k].status == 8 && k != i then m.slots[k].(status := 4) else m.slots[k]
      else v' == v
  {
    hide Inv; hide Step; hide Post; hide FirstUser; hide Occupants; hide Occupied; hide RoomOk;
    SeatFacts(v, user, id, i);
    InsideStep(v, user, Arm.ChangeSettings(asked), v');
    var m := v.rooms.matches[id];
    if m.host == user {
      var m' := WithSettings(m, user, asked).value;
      assert OnlyRoom(v.rooms, v'.rooms, id, m');
      forall k | 0 <= k < 16
        ensures m'.slots[k] == if m.slots[k].status == 8 && k != i then m.slots[k].(status := 4) else m.slots[k]
      {
        ReadyMeansTaken(m, k);
      }
    }
  }

  lemma ReadyMeansTaken(m: Match, k: int)
    requires RoomOk(m) && 0 <= k < 16
    ensures m.slots[k].status == 8 ==> m.slots[k].user > 0
  {
    assert SlotOk(m.slots[k]);
  }

  // MATCH_CHANGE_MODS: with freemod the sender's own mods, without it the room's, from the host.
  lemma ModsEffect(v: View, user: i32, id: u16, i: nat, mods: u32, v': View)
    requires Inv(v) && Step(v, From(user, Arm.ChangeMods(mods)), v') && SeatAt(v.rooms, user, id, i)
    ensures var m := v.rooms.matches[id];
      if m.freemod then
        exists m' :: OnlyRoom(v.rooms, v'.rooms, id, m') && m' == m.(slots := m'.slots) &&
          m'.slots[i] == m.slots[i].(mods := mods) && forall k :: 0 <= k < 16 && k != i ==> m'.slots[k] == m.slots[k]
      else if m.host == user then OnlyRoom(v.rooms, v'.rooms, id, m.(activeMods := mods))
      else v' == v
  {
    hide Inv; hide Step; hide Post; hide FirstUser; hide Occupants; hide Occupied; hide RoomOk;
    SeatFacts(v, user, id, i);
    InsideStep(v, user, Arm.ChangeMods(mods), v');
    var m := v.rooms.matches[id];
    if m.freemod { assert OnlyRoom(v.rooms, v'.rooms, id, WithMods(m, user, mods).value); }
  }

  // MATCH_CHANGE_HOST by the host, to a slot with a player: that player is the host.
  lemma HostEffect(v: View, user: i32, id: u16, i: nat, target: i32, v': View)
    requires Inv(v) && Step(v, From(user, Arm.ChangeHost(target)), v') && SeatAt(v.rooms, user, id, i)
    ensures var m := v.rooms.matches[id];
      if m.host == user && 0 <= target < 16 && m.slots[target].user > 0
      then OnlyRoom(v.rooms, v'.rooms, id, m.(host := m.slots[target].user))
      else v' == v
  {
    hide Inv; hide Step; hide Post; hide FirstUser; hide Occupants; hide Occupied; hide RoomOk;
    SeatFacts(v, user, id, i);
    InsideStep(v, user, Arm.ChangeHost(target), v');
    if 0 <= target < 16 { PlayerIffUser(v.rooms.matches[id], target); }
  }

  lemma PlayerIffUser(m: Match, k: int)
    requires RoomOk(m) && 0 <= k < 16
    ensures HasPlayer(m.slots[k].status) <==> m.slots[k].user > 0
  {
    assert SlotOk(m.slots[k]);
  }

  // ---------- rounds ----------

  // MATCH_START by the host: exactly the slots that were READY, NOT_READY or PLAYING are PLAYING, nothing
  // else of any slot changes, and the room is in progress with the scores and loads of a fresh round. From
  // anyone else it changes nothing.
  lemma StartEffect(v: View, user: i32, id: u16, i: nat, now: int, v': View)
    requires Inv(v) && Step(v, From(user, StartRound(now)), v') && SeatAt(v.rooms, user, id, i)
    ensures var m := v.rooms.matches[id];
      if m.host == user then
        && id in v'.rooms.matches && StartedFrom(m, v'.rooms.matches[id])
        && v'.rooms.matches == v.rooms.matches[id := v'.rooms.matches[id]]
        && v'.rooms.nextId == v.rooms.nextId && v'.rooms.userToMatch == v.rooms.userToMatch
        && v'.rooms.startTimes == v.rooms.startTimes[id := now]
        && v'.rooms.lastScores == v.rooms.lastScores[id := map[]] && v'.rooms.loaded == v.rooms.loaded[id := {}]
      else v' == v
  {
    hide Inv; hide Step; hide Post; hide FirstUser; hide Occupants; hide Occupied; hide RoomOk; hide StartedFrom;
    SeatFacts(v, user, id, i);
    InsideStep(v, user, StartRound(now), v');
    var m := v.rooms.matches[id];
    if m.host == user { StartedIs(m, user); }
  }

  predicate StartedFrom(m: Match, m': Match) {
    && m' == m.(inProgress := true, slots := m'.slots)
    && (forall k :: 0 <= k < 16 ==> m'.slots[k] == m.slots[k].(status := m'.slots[k].status))
    && (forall k :: 0 <= k < 16 ==> (m'.slots[k].status == 32 <==> m.slots[k].status in {4, 8, 32}))
    && (forall k :: 0 <= k < 16 && m.slots[k].status !in {4, 8, 32} ==> m'.slots[k].status == m.slots[k].status)
  }

  lemma StartedIs(m: Match, user: i32)
    requires RoomOk(m) && m.host == user
    ensures Started(m, user).Some? && StartedFrom(m, Started(m, user).value)
  {
    forall k | 0 <= k < 16 ensures SlotOk(m.slots[k]) { SlotIsOk(m.slots, k); }
  }

  // In the room a START leaves behind, the players are everyone there who had the beatmap and was not done.
  lemma PlayersAfterStart(m: Match, m': Match)
    requires RoomOk(m) && StartedFrom(m, m')
    ensures forall u :: u in PlayingUsers(m'.slots) <==>
      exists k :: 0 <= k < 16 && m.slots[k].user == u && u > 0 && m.slots[k].status != 16 && m.slots[k].status != 64
  {
    forall k | 0 <= k < 16 ensures SlotOk(m.slots[k]) { SlotIsOk(m.slots, k); }
    forall u
      ensures u in PlayingUsers(m'.slots) <==>
        exists k :: 0 <= k < 16 && m.slots[k].user == u && u > 0 && m.slots[k].status != 16 && m.slots[k].status != 64
    {
      if k :| 0 <= k < 16 && m.slots[k].user == u && u > 0 && m.slots[k].status != 16 && m.slots[k].status != 64 {
        assert SlotOk(m.slots[k]);
        assert m'.slots[k].user == u && m'.slots[k].status == SLOT_PLAYING;
      }
      if u in PlayingUsers(m'.slots) {
        var k :| 0 <= k < 16 && m'.slots[k].status == SLOT_PLAYING && m'.slots[k].user > 0 && m'.slots[k].user == u;
        assert m.slots[k].user == u;
      }
    }
  }
}
