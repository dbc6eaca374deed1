/** Leaving, creating and joining rooms and the end of a round, field by field and slot by slot, told of
    whole steps. */
module RoomMoves {
  import opened Wrappers
  import opened BanchoTypes
  import opened Rooms
  import opened Rounds
  import opened RoomSafety
  import opened Network
  import opened Server
  import opened ServerSafety
  import opened Runs
  import opened RoomEffects

  // ---------- leaving ----------

  // Slot k is the lowest one taken, slot i apart.
  predicate LowestOther(slots: Slots, i: nat, k: nat) {
    k < 16 && k != i && slots[k].user > 0 && forall j :: 0 <= j < k && j != i ==> slots[j].user <= 0
  }

  predicate NobodyElse(slots: Slots, i: nat) {
    forall k :: 0 <= k < 16 && k != i ==> slots[k].user <= 0
  }

  // m' is m once the user has left slot i: the slot is open and empty, and a host who leaves hands over to
  // the lowest slot that is taken.
  ghost predicate VacatedFrom(m: Match, i: nat, user: int, m': Match) {
    && i < 16 && m' == m.(slots := m'.slots, host := m'.host)
    && m'.slots[i] == Slot(1, 0, -1, 0) && (forall k :: 0 <= k < 16 && k != i ==> m'.slots[k] == m.slots[k])
    && (m.host != user ==> m'.host == m.host)
    && (m.host == user ==> forall k: nat :: LowestOther(m.slots, i, k) ==> m'.host == m.slots[k].user)
  }

  // r' is r once the user is out of it: unmapped, out of their slot, and the room gone with its tables when
  // nobody else is in it. Nothing else changes.
  ghost predicate LeftFrom(r: Rooms, user: int, r': Rooms) {
    && r'.userToMatch == r.userToMatch - {user} && r'.nextId == r.nextId
    && (SitsNowhere(r, user) ==> r' == r.(userToMatch := r'.userToMatch))
    && (forall id, i: nat :: SeatAt(r, user, id, i) ==>
          if NobodyElse(r.matches[id].slots, i) then
            r' == r.(userToMatch := r'.userToMatch, matches := r.matches - {id}, startTimes := r.startTimes - {id},
                     lastScores := r.lastScores - {id}, loaded := r.loaded - {id})
          else
            && id in r'.matches && VacatedFrom(r.matches[id], i, user, r'.matches[id])
            && r' == r.(userToMatch := r'.userToMatch, matches := r.matches[id := r'.matches[id]]))
  }

  lemma TakenIffUser(m: Match, k: nat)
    requires RoomOk(m) && k < 16
    ensures Occupied(m.slots[k]) <==> m.slots[k].user > 0
  {
    assert SlotOk(m.slots[k]);
  }

  lemma VacateIs(m: Match, user: int, i: nat)
    requires RoomOk(m) && i < 16 && m.slots[i].user == user && user > 0
    ensures var m' := Vacate(m, i, user);
      && (FirstOccupied(m'.slots).None? <==> NobodyElse(m.slots, i))
      && (!NobodyElse(m.slots, i) ==> VacatedFrom(m, i, user, m'))
  {
    hide RoomOk; hide Occupied;
    var m' := Vacate(m, i, user);
    forall k: nat | k < 16 ensures Occupied(m.slots[k]) <==> m.slots[k].user > 0 { TakenIffUser(m, k); }
    EmptyIsFree();
    forall k: nat | k < 16 ensures Occupied(m'.slots[k]) <==> k != i && m.slots[k].user > 0 { }
    var first := FirstOccupied(m'.slots);
    if first.Some? {
      assert LowestOther(m.slots, i, first.value);
      forall k: nat | LowestOther(m.slots, i, k) ensures k == first.value { }
    }
  }

  lemma EmptyIsFree()
    ensures !Occupied(EMPTY_SLOT)
  {
  }

  lemma RemovalIs(r: Rooms, user: int)
    requires SeatInv(r)
    ensures LeftFrom(r, user, RemoveUser(r, user).0)
  {
    hide SeatInv; hide RoomOk; hide Vacate; hide NobodyElse; hide VacatedFrom; hide FirstUser; hide FirstOccupied;
    RemovalShrinks(r, user);
    forall id, i: nat | SeatAt(r, user, id, i)
      ensures user in r.userToMatch && r.userToMatch[user] == id && FirstUser(r.matches[id].slots, user) == Some(i)
      ensures var m' := Vacate(r.matches[id], i, user);
        && (FirstOccupied(m'.slots).None? <==> NobodyElse(r.matches[id].slots, i))
        && (!NobodyElse(r.matches[id].slots, i) ==> VacatedFrom(r.matches[id], i, user, m'))
    {
      SeatMaps(r, user, id, i);
      VacateIs(r.matches[id], user, i);
    }
    if SitsNowhere(r, user) { NoSeatToLeave(r, user); }
  }

  lemma SeatMaps(r: Rooms, user: int, id: u16, i: nat)
    requires SeatInv(r) && SeatAt(r, user, id, i)
    ensures user in r.userToMatch && r.userToMatch[user] == id && RoomOk(r.matches[id])
    ensures FirstUser(r.matches[id].slots, user) == Some(i)
  {
    hide RoomOk;
    RoomIsOk(r, id);
    PlayerSits(r.matches[id], user, i);
    assert user in People(r)[id];
  }

  lemma NoSeatToLeave(r: Rooms, user: int)
    requires SeatInv(r) && SitsNowhere(r, user)
    ensures RemoveUser(r, user).0 == r.(userToMatch := r.userToMatch - {user})
  {
    hide RoomOk; hide Vacate; hide FirstOccupied; hide FirstUser;
    if user in r.userToMatch && r.userToMatch[user] in r.matches {
      forall k: nat | k < 16 ensures r.matches[r.userToMatch[user]].slots[k].user != user {
        assert !SeatAt(r, user, r.userToMatch[user], k);
      }
    } else if user !in r.userToMatch {
      assert r.userToMatch - {user} == r.userToMatch;
    }
  }

  // A logout, a timeout or a new login takes its user out of their room, and does nothing else to rooms.
  lemma DepartureEffect(v: View, a: Action, v': View)
    requires Inv(v) && Step(v, a, v') && (a.Login? || a.Disconnect?) && a.user in v.net.tokens
    ensures LeftFrom(v.rooms, a.user, v'.rooms)
  {
    hide NetInv; hide RoundInv; hide HistoryInv; hide NumberInv; hide SeatInv; hide DropUser; hide RemoveUser;
    hide LeftFrom; hide PostAll;
    DropTrace(v, a.user);
    RemovalIs(v.rooms, a.user);
  }

  // ---------- creating ----------

  // The room a create opens: what was asked for, under the number n, with its creator alone in slot 0,
  // NOT_READY and host.
  predicate FoundedBy(m: Match, n: u16, user: i32, asked: Match) {
    && m == asked.(id := n, host := user, inProgress := false, slots := m.slots)
    && m.slots[0] == Slot(4, 0, user, 0) && forall k :: 0 < k < 16 ==> m.slots[k] == Slot(1, 0, -1, 0)
  }

  // MATCH_CREATE: out of the old room, and into a new one under the next number.
  lemma CreateEffect(v: View, user: i32, asked: Match, v': View)
    requires Inv(v) && Step(v, From(user, CreateRoom(asked)), v')
    ensures var n := v.rooms.nextId;
      exists r: Rooms, m :: LeftFrom(v.rooms, user, r) && FoundedBy(m, n, user, asked) &&
        v'.rooms == r.(nextId := if n == 65535 then 1 else n + 1, matches := r.matches[n := m],
                       userToMatch := r.userToMatch[user as int := n])
  {
    hide NetInv; hide RoundInv; hide HistoryInv; hide NumberInv; hide SeatInv; hide RemoveUser; hide LeftFrom;
    hide Post; hide Farewell; hide Welcome; hide GoodOrder; hide FoundedBy;
    LeaveRooms(v, user);
    RemovalIs(v.rooms, user);
    CreatedIs(v.rooms.nextId, user, asked);
    var r := RemoveUser(v.rooms, user).0;
    assert FoundedBy(NewRoom(v.rooms.nextId, user, asked), v.rooms.nextId, user, asked);
  }

  lemma CreatedIs(n: u16, user: i32, asked: Match)
    ensures FoundedBy(NewRoom(n, user, asked), n, user, asked)
  {
  }

  // ---------- joining ----------

  // Room k lets the user in with this password: it is open, has an open slot, and its password is none,
  // empty or the one given.
  predicate Admits(r: Rooms, k: u16, password: bytes) {
    && k in r.matches && (exists i :: 0 <= i < 16 && r.matches[k].slots[i].status == 1)
    && (r.matches[k].password == None || r.matches[k].password == Some([]) || r.matches[k].password == Some(password))
  }

  // m' is m with the user in its lowest open slot.
  predicate SeatedIn(m: Match, user: i32, m': Match) {
    && m' == m.(slots := m'.slots)
    && exists i :: 0 <= i < 16 && m.slots[i].status == 1 && m'.slots[i] == Slot(4, 0, user, 0) &&
         (forall j :: 0 <= j < i ==> m.slots[j].status != 1) &&
         forall j :: 0 <= j < 16 && j != i ==> m'.slots[j] == m.slots[j]
  }

  lemma AdmitsIffCanJoin(r: Rooms, k: u16, password: bytes)
    ensures Admits(r, k, password) <==> CanJoin(r, k, password)
  {
  }

  // MATCH_JOIN: a room that lets its user in has them in its lowest open slot once they have left their old
  // room, unless that was the same room and they were alone in it, so that it is gone. A room that does not
  // changes nothing, and the user is told.
  lemma JoinEffect(v: View, user: i32, wanted: i32, password: bytes, v': View)
    requires Inv(v) && Step(v, From(user, JoinRoom(wanted, password)), v')
    ensures var k: u16 := wanted % 65536;
      if Admits(v.rooms, k, password) then
        exists r: Rooms :: LeftFrom(v.rooms, user, r) &&
          if k in r.matches then
            exists m' :: SeatedIn(r.matches[k], user, m') &&
              v'.rooms == r.(matches := r.matches[k := m'], userToMatch := r.userToMatch[user as int := k])
          else v'.rooms == r
      else v' == v.(net := Post(v.net, {user as int}, Packet.MatchJoinFail))
  {
    hide NetInv; hide RoundInv; hide HistoryInv; hide NumberInv; hide SeatInv; hide RemoveUser; hide LeftFrom;
    hide Post; hide Farewell; hide Welcome; hide GoodOrder; hide SeatedIn; hide SitDown; hide CanJoin; hide Admits;
    var k: u16 := wanted % 65536;
    LeaveRooms(v, user);
    RemovalIs(v.rooms, user);
    AdmitsIffCanJoin(v.rooms, k, password);
    var r := RemoveUser(v.rooms, user).0;
    if Admits(v.rooms, k, password) && k in r.matches {
      StillOpen(v.rooms, user, k, password);
      SitDownIs(r.matches[k], user);
    }
  }

  lemma SitDownIs(m: Match, user: i32)
    requires FirstStatus(m.slots, SLOT_OPEN).Some?
    ensures SeatedIn(m, user, SitDown(m, user))
  {
  }

  // Who ends up where: the sender sits in a room they did not sit in before only when it lets them in, and
  // then they do.
  lemma JoinSeats(v: View, user: i32, wanted: i32, password: bytes, v': View, k: u16)
    requires Inv(v) && Step(v, From(user, JoinRoom(wanted, password)), v') && !SitsIn(v.rooms, user, k)
    ensures SitsIn(v'.rooms, user, k) <==> k == wanted % 65536 && Admits(v.rooms, k, password)
  {
    hide NetInv; hide RoundInv; hide HistoryInv; hide NumberInv; hide SeatInv; hide RemoveUser; hide Admits;
    hide Post; hide Farewell; hide Welcome; hide GoodOrder; hide SitDown; hide CanJoin; hide SitsIn; hide Enter;
    Sender(v, user, JoinRoom(wanted, password), v');
    AdmitsIffCanJoin(v.rooms, wanted % 65536, password);
    JoinMovesOnlyTheUser(v.rooms, user, wanted % 65536, password, user, k);
    JoinRooms(v, user, wanted, password);
    AloneSits(v.rooms, user, k);
  }

  lemma AloneSits(r: Rooms, user: int, k: u16)
    ensures AloneIn(r, user, k) ==> SitsIn(r, user, k)
  {
  }

  lemma JoinRooms(v: View, user: i32, wanted: i32, password: bytes)
    ensures DoJoin(v, user, wanted, password).rooms == Join(v.rooms, user, wanted % 65536, password)
  {
    hide Post; hide Farewell; hide Welcome; hide CanJoin; hide RemoveUser; hide SitDown;
    LeaveRooms(v, user);
  }

  // ---------- the end of a round ----------

  predicate SomeStatus(slots: Slots, status: u8) {
    exists k :: 0 <= k < 16 && slots[k].status == status
  }

  // A round is over when nobody plays any more and somebody is done, or nobody is left.
  predicate Over(m: Match) {
    m.inProgress && !SomeStatus(m.slots, 32) &&
      (SomeStatus(m.slots, 64) || forall k :: 0 <= k < 16 ==> m.slots[k].user <= 0)
  }

  // m' is m with everybody NOT_READY and the round over.
  predicate RestedFrom(m: Match, m': Match) {
    && m' == m.(inProgress := false, slots := m'.slots)
    && forall k :: 0 <= k < 16 ==> m'.slots[k] == if m.slots[k].user > 0 then m.slots[k].(status := 4) else m.slots[k]
  }

  // What a look at whether the round in room id is over does to the rooms.
  predicate Looked(r: Rooms, id: u16, r': Rooms) {
    if id in r.matches && Over(r.matches[id]) then
      && id in r'.matches && RestedFrom(r.matches[id], r'.matches[id])
      && r' == r.(matches := r.matches[id := r'.matches[id]], startTimes := r.startTimes - {id},
                  lastScores := r.lastScores - {id}, loaded := r.loaded - {id})
    else r' == r
  }

  lemma FinishIs(v: View, id: u16)
    requires SeatInv(v.rooms)
    ensures Looked(v.rooms, id, DoFinish(v, id).rooms)
  {
    hide SeatInv; hide Close; hide Post; hide NamesOf; hide ScoresOf; hide RoomOk; hide Occupants; hide ShouldFinish;
    hide Closed; hide Over; hide RestedFrom; hide ResultNet;
    if id in v.rooms.matches {
      RoomIsOk(v.rooms, id);
      OverIs(v.rooms.matches[id]);
      RestIs(v.rooms.matches[id]);
      NotOver(v.rooms.matches[id]);
    }
  }

  lemma NotOver(m: Match)
    ensures !m.inProgress ==> !Over(m)
  {
  }

  lemma OverIs(m: Match)
    requires RoomOk(m)
    ensures Over(m) <==> m.inProgress && ShouldFinish(m)
  {
    forall k | 0 <= k < 16 ensures HasPlayer(m.slots[k].status) <==> m.slots[k].user > 0 { PlayerIffUser(m, k); }
  }

  lemma RestIs(m: Match)
    requires RoomOk(m)
    ensures RestedFrom(m, Closed(m))
  {
    forall k | 0 <= k < 16 ensures HasPlayer(m.slots[k].status) <==> m.slots[k].user > 0 { PlayerIffUser(m, k); }
  }

  // MATCH_COMPLETE: the sender's own slot is COMPLETE, and the round closes if it is now over.
  lemma CompleteEffect(v: View, user: i32, id: u16, i: nat, v': View)
    requires Inv(v) && Step(v, From(user, CompleteRound), v') && SeatAt(v.rooms, user, id, i)
    ensures var m := v.rooms.matches[id];
      exists m', r: Rooms :: OnlyRoom(v.rooms, r, id, m') && Looked(r, id, v'.rooms) && m' == m.(slots := m'.slots) &&
        m'.slots[i] == m.slots[i].(status := 64) && forall k :: 0 <= k < 16 && k != i ==> m'.slots[k] == m.slots[k]
  {
    hide Inv; hide Step; hide Post; hide FirstUser; hide Occupants; hide Occupied; hide RoomOk; hide Looked;
    hide DoFinish; hide SeatInv;
    Sender(v, user, CompleteRound, v');
    SeatFacts(v, user, id, i);
    InsideStep(v, user, CompleteRound, v');
    var m' := WithOwnStatus(v.rooms.matches[id], user, SLOT_COMPLETE).value;
    var w := v.(rooms := WithRoom(v.rooms, id, m'));
    InvSeats(v);
    OwnStatusQuiet(v.rooms.matches[id], user, SLOT_COMPLETE);
    QuietSeats(v.rooms, id, m');
    FinishIs(w, id);
    assert OnlyRoom(v.rooms, w.rooms, id, m');
  }

  // COMPLETE from somebody who is mapped to a room without sitting in it still has the round looked at.
  lemma UnseatedComplete(v: View, user: i32, v': View)
    requires Inv(v) && Step(v, From(user, CompleteRound), v') && SitsNowhere(v.rooms, user)
    ensures match RoomOf(v.rooms, user)
      case None => v' == v
      case Some(id) => Looked(v.rooms, id, v'.rooms)
  {
    hide Inv; hide Step; hide Looked; hide DoFinish; hide SeatInv; hide FirstUser;
    Sender(v, user, CompleteRound, v');
    InsideStep(v, user, CompleteRound, v');
    InvSeats(v);
    if RoomOf(v.rooms, user).Some? {
      var id := RoomOf(v.rooms, user).value;
      UnseatedFacts(v, user, id);
      assert WithRoom(v.rooms, id, v.rooms.matches[id]) == v.rooms;
      FinishIs(v, id);
    }
  }

  lemma InvSeats(v: View)
    requires Inv(v)
    ensures SeatInv(v.rooms)
  {
  }

  lemma QuietSeats(r: Rooms, id: u16, m: Match)
    requires SeatInv(r) && id in r.matches && QuietChange(r.matches[id], m)
    ensures SeatInv(WithRoom(r, id, m))
  {
    hide SeatInv; hide SamePeople; hide AnyPlaying;
    StepKeepsSeats(r, id, m);
  }

  // MATCH_CHANGE_TEAM: the sender goes from blue to red or else to blue, and the round closes if it is over.
  lemma TeamEffect(v: View, user: i32, id: u16, i: nat, v': View)
    requires Inv(v) && Step(v, From(user, Arm.ChangeTeam), v') && SeatAt(v.rooms, user, id, i)
    ensures var m := v.rooms.matches[id];
      exists m', r: Rooms :: OnlyRoom(v.rooms, r, id, m') && Looked(r, id, v'.rooms) && m' == m.(slots := m'.slots) &&
        m'.slots[i] == m.slots[i].(team := if m.slots[i].team == 1 then 2 else 1) &&
        forall k :: 0 <= k < 16 && k != i ==> m'.slots[k] == m.slots[k]
  {
    hide Inv; hide Step; hide Post; hide FirstUser; hide Occupants; hide Occupied; hide RoomOk; hide Looked;
    hide DoFinish; hide SeatInv;
    SeatFacts(v, user, id, i);
    InsideStep(v, user, Arm.ChangeTeam, v');
    var m' := WithTeam(v.rooms.matches[id], user).value;
    var w := Show(v, id, m', false);
    InvSeats(v);
    TeamQuiet(v.rooms.matches[id], user);
    QuietSeats(v.rooms, id, m');
    FinishIs(w, id);
    assert OnlyRoom(v.rooms, w.rooms, id, m');
  }

  // The room the user sat in, if any, is looked at.
  ghost predicate LookedAfterLeaving(r0: Rooms, user: int, r: Rooms, r': Rooms) {
    && (SitsNowhere(r0, user) ==> r' == r)
    && forall id, i: nat :: SeatAt(r0, user, id, i) ==> Looked(r, id, r')
  }

  // MATCH_PART: out of the room, whose round closes if it is over.
  lemma PartEffect(v: View, user: i32, v': View)
    requires Inv(v) && Step(v, From(user, PartRoom), v')
    ensures exists r: Rooms :: LeftFrom(v.rooms, user, r) && LookedAfterLeaving(v.rooms, user, r, v'.rooms)
  {
    hide NetInv; hide RoundInv; hide HistoryInv; hide NumberInv; hide SeatInv; hide RemoveUser; hide LeftFrom;
    hide Post; hide Farewell; hide DoFinish; hide Looked; hide SeatAt;
    Sender(v, user, PartRoom, v');
    LeaveRooms(v, user);
    LeaveKeepsInv(v, user);
    RemovalIs(v.rooms, user);
    var r := RemoveUser(v.rooms, user).0;
    forall id, i: nat | SeatAt(v.rooms, user, id, i)
      ensures RemoveUser(v.rooms, user).1.Some? && RemoveUser(v.rooms, user).1.value.id == id
      ensures RemoveUser(v.rooms, user).1.value.disbanded ==> id !in r.matches
    {
      ReportedRoom(v.rooms, user, id, i);
    }
    var gone := RemoveUser(v.rooms, user).1;
    if gone.Some? {
      FinishIs(Leave(v, user), gone.value.id);
      NoLook(r, gone.value.id);
      LeftSeat(v.rooms, user);
    }
    assert LeftFrom(v.rooms, user, r);
  }

  lemma NoLook(r: Rooms, id: u16)
    ensures id !in r.matches ==> Looked(r, id, r)
  {
  }

  lemma ReportedRoom(r: Rooms, user: int, id: u16, i: nat)
    requires SeatInv(r) && SeatAt(r, user, id, i)
    ensures RemoveUser(r, user).1.Some? && RemoveUser(r, user).1.value.id == id
    ensures RemoveUser(r, user).1.value.disbanded ==> id !in RemoveUser(r, user).0.matches
  {
    hide Vacate; hide FirstOccupied; hide FirstUser; hide SeatInv;
    SeatMaps(r, user, id, i);
  }

  lemma LeftSeat(r: Rooms, user: int)
    requires RemoveUser(r, user).1.Some? && user > 0
    ensures exists id, i: nat :: SeatAt(r, user, id, i)
  {
    hide Vacate; hide FirstOccupied;
    var id := r.userToMatch[user];
    assert SeatAt(r, user, id, FirstUser(r.matches[id].slots, user).value);
  }
}
