/** Multiplayer rooms as values: who sits where, and what each packet does to the seating.
    Every function here is total; the methods of BanchoState are proved against them. */
module Rooms {
  import opened Wrappers
  import opened BanchoTypes

  datatype Rooms = Tables(
    matches: map<u16, Match>,
    nextId: u16,
    userToMatch: map<int, u16>,
    startTimes: map<u16, int>,
    lastScores: map<u16, map<int, Frame>>,
    loaded: map<u16, set<int>>)

  const NO_ROOMS := Tables(map[], 1, map[], map[], map[], map[])

  // ---------- searching the sixteen slots ----------

  function FirstUser(slots: Slots, user: int, from: nat := 0): (r: Option<nat>)
    requires from <= 16
    ensures r.Some? ==> from <= r.value < 16 && slots[r.value].user == user
    ensures r.Some? ==> forall i :: from <= i < r.value ==> slots[i].user != user
    ensures r.None? ==> forall i :: from <= i < 16 ==> slots[i].user != user
    decreases 16 - from
  {
    if from == 16 then None
    else if slots[from].user == user then Some(from)
    else FirstUser(slots, user, from + 1)
  }

  function FirstStatus(slots: Slots, status: u8, from: nat := 0): (r: Option<nat>)
    requires from <= 16
    ensures r.Some? ==> from <= r.value < 16 && slots[r.value].status == status
    ensures r.Some? ==> forall i :: from <= i < r.value ==> slots[i].status != status
    ensures r.None? ==> forall i :: from <= i < 16 ==> slots[i].status != status
    decreases 16 - from
  {
    if from == 16 then None
    else if slots[from].status == status then Some(from)
    else FirstStatus(slots, status, from + 1)
  }

  predicate Occupied(s: Slot) {
    HasPlayer(s.status) && s.user > 0
  }

  function FirstOccupied(slots: Slots, from: nat := 0): (r: Option<nat>)
    requires from <= 16
    ensures r.Some? ==> from <= r.value < 16 && Occupied(slots[r.value])
    ensures r.Some? ==> forall i :: from <= i < r.value ==> !Occupied(slots[i])
    ensures r.None? ==> forall i :: from <= i < 16 ==> !Occupied(slots[i])
    decreases 16 - from
  {
    if from == 16 then None
    else if Occupied(slots[from]) then Some(from)
    else FirstOccupied(slots, from + 1)
  }

  function Occupants(slots: Slots): set<int> {
    set i | 0 <= i < 16 && Occupied(slots[i]) :: slots[i].user
  }

  // ---------- leaving ----------

  datatype Removal = Removal(id: u16, room: Match, disbanded: bool)

  function DropRoom(r: Rooms, id: u16): Rooms {
    r.(matches := r.matches - {id},
       startTimes := r.startTimes - {id},
       lastScores := r.lastScores - {id},
       loaded := r.loaded - {id})
  }

  // The room once slot i has been vacated by user, the host handed to the first occupant left.
  function Vacate(m: Match, i: nat, user: int): (m': Match)
    requires i < 16
  {
    var slots: Slots := m.slots[i := EMPTY_SLOT];
    match FirstOccupied(slots)
    case None => m.(slots := slots)
    case Some(j) => m.(slots := slots, host := if m.host == user then slots[j].user else m.host)
  }

  function RemoveUser(r: Rooms, user: int): (Rooms, Option<Removal>) {
    if user !in r.userToMatch then (r, None) else
    var id := r.userToMatch[user];
    var r1 := r.(userToMatch := r.userToMatch - {user});
    if id !in r.matches then (r1, None) else
    match FirstUser(r.matches[id].slots, user)
    case None => (r1, None)
    case Some(i) =>
      var m := Vacate(r.matches[id], i, user);
      if FirstOccupied(m.slots).None?
      then (DropRoom(r1, id), Some(Removal(id, m, true)))
      else (r1.(matches := r1.matches[id := m]), Some(Removal(id, m, false)))
  }

  // ---------- creating and joining ----------

  function NextId(id: u16): u16 {
    var n := (id + 1) % 0x1_0000;
    if n == 0 then 1 else n
  }

  function CreatorAlone(user: i32): Slots {
    NoSlots()[0 := Slot(SLOT_NOT_READY, TEAM_NEUTRAL, user, 0)]
  }

  function NewRoom(id: u16, user: i32, asked: Match): Match {
    asked.(id := id, host := user, inProgress := false, slots := CreatorAlone(user))
  }

  // The creator has already left any other room.
  function OpenRoom(r: Rooms, user: i32, asked: Match): Rooms {
    r.(nextId := NextId(r.nextId),
       matches := r.matches[r.nextId := NewRoom(r.nextId, user, asked)],
       userToMatch := r.userToMatch[user := r.nextId])
  }

  function Create(r: Rooms, user: i32, asked: Match): Rooms {
    OpenRoom(RemoveUser(r, user).0, user, asked)
  }

  predicate CanJoin(r: Rooms, id: u16, password: bytes) {
    id in r.matches &&
    var m := r.matches[id];
    !(m.password.Some? && m.password.value != [] && m.password.value != password) &&
    FirstStatus(m.slots, SLOT_OPEN).Some?
  }

  function SitDown(m: Match, user: i32): Match {
    match FirstStatus(m.slots, SLOT_OPEN)
    case None => m
    case Some(i) => m.(slots := m.slots[i := Slot(SLOT_NOT_READY, TEAM_NEUTRAL, user, 0)])
  }

  // The second half of a join: the old seat is gone, and the room may have gone with it.
  function Enter(r: Rooms, user: i32, id: u16): Rooms {
    if id !in r.matches then r
    else r.(matches := r.matches[id := SitDown(r.matches[id], user)],
            userToMatch := r.userToMatch[user := id])
  }

  function Join(r: Rooms, user: i32, id: u16, password: bytes): Rooms {
    if CanJoin(r, id, password) then Enter(RemoveUser(r, user).0, user, id) else r
  }

  // ---------- inside a room ----------

  function RoomOf(r: Rooms, user: int): Option<u16> {
    if user in r.userToMatch && r.userToMatch[user] in r.matches
    then Some(r.userToMatch[user]) else None
  }

  function WithRoom(r: Rooms, id: u16, m: Match): Rooms {
    r.(matches := r.matches[id := m])
  }

  // The room after a packet from one of its users, or None when the packet is ignored.
  function MovedTo(m: Match, user: i32, target: int): Option<Match> {
    if 0 <= target < 16 && m.slots[target].status == SLOT_OPEN then
      match FirstUser(m.slots, user)
      case None => None
      case Some(i) =>
        var own := m.slots[i];
        var slots := m.slots[i := EMPTY_SLOT];
        Some(m.(slots := slots[target := Slot(own.status, own.team, own.user, own.mods)]))
    else None
  }

  function WithOwnStatus(m: Match, user: i32, status: u8): Option<Match> {
    match FirstUser(m.slots, user)
    case None => None
    case Some(i) => Some(m.(slots := m.slots[i := m.slots[i].(status := status)]))
  }

  function WithLock(m: Match, user: i32, target: int): Option<Match> {
    if m.host == user && 0 <= target < 16 then
      var cur := m.slots[target];
      Some(if cur.status == SLOT_OPEN then m.(slots := m.slots[target := cur.(status := SLOT_LOCKED)])
           else if cur.status == SLOT_LOCKED then m.(slots := m.slots[target := cur.(status := SLOT_OPEN)])
           else m)
    else None
  }

  function Unready(s: Slot, host: i32): Slot {
    if s.user > 0 && s.user != host && s.status == SLOT_READY then s.(status := SLOT_NOT_READY) else s
  }

  function UnreadyAll(slots: Slots, host: i32): Slots {
    seq(16, i requires 0 <= i < 16 => Unready(slots[i], host))
  }

  function WithSettings(m: Match, user: i32, asked: Match): Option<Match> {
    if m.host == user then
      Some(m.(name := asked.name, beatmapName := asked.beatmapName, beatmapId := asked.beatmapId,
              beatmapMd5 := asked.beatmapMd5, activeMods := asked.activeMods, playMode := asked.playMode,
              scoringType := asked.scoringType, teamType := asked.teamType, freemod := asked.freemod,
              slots := UnreadyAll(m.slots, user)))
    else None
  }

  function WithMods(m: Match, user: i32, mods: u32): Option<Match> {
    if m.freemod then
      match FirstUser(m.slots, user)
      case None => None
      case Some(i) => Some(m.(slots := m.slots[i := m.slots[i].(mods := mods)]))
    else if m.host == user then Some(m.(activeMods := mods))
    else None
  }

  function WithTeam(m: Match, user: i32): Option<Match> {
    match FirstUser(m.slots, user)
    case None => None
    case Some(i) =>
      var team := if m.slots[i].team == TEAM_BLUE then TEAM_RED else TEAM_BLUE;
      Some(m.(slots := m.slots[i := m.slots[i].(team := team)]))
  }

  function WithHost(m: Match, user: i32, target: int): Option<Match> {
    if m.host == user && 0 <= target < 16 && HasPlayer(m.slots[target].status)
    then Some(m.(host := m.slots[target].user)) else None
  }

  function BeginSlot(s: Slot): Slot {
    if Waiting(s.status) then s.(status := SLOT_PLAYING) else s
  }

  function StartAll(slots: Slots): Slots {
    seq(16, i requires 0 <= i < 16 => BeginSlot(slots[i]))
  }

  function Started(m: Match, user: i32): Option<Match> {
    if m.host == user
    then Some(m.(inProgress := true, slots := StartAll(m.slots)))
    else None
  }

  // ---------- the seating invariant ----------

  // Statuses the server ever stores; a seat carries a positive user exactly when it is taken.
  predicate SlotOk(s: Slot) {
    && s.status in {SLOT_OPEN, SLOT_LOCKED, SLOT_NOT_READY, SLOT_READY, SLOT_NO_MAP, SLOT_PLAYING, SLOT_COMPLETE}
    && (if HasPlayer(s.status) then s.user > 0 else s.user == -1)
  }

  predicate SlotsOk(slots: Slots) {
    forall i :: 0 <= i < 16 ==> SlotOk(slots[i])
  }

  // No user sits twice.
  predicate Distinct(slots: Slots) {
    forall i, j :: 0 <= i < j < 16 && slots[i].user == slots[j].user ==> slots[i].user == -1
  }

  predicate RoomOk(m: Match) {
    SlotsOk(m.slots) && Distinct(m.slots) && m.host in Occupants(m.slots)
  }

  predicate GoodRoom(id: u16, m: Match) {
    id >= 1 && m.id == id && RoomOk(m)
  }

  // Who is in which room.
  ghost function People(r: Rooms): map<u16, set<int>> {
    map id | id in r.matches :: Occupants(r.matches[id].slots)
  }

  // Nobody sits in a room they are not mapped to.
  ghost predicate Seated(people: map<u16, set<int>>, where: map<int, u16>) {
    forall id, u :: id in people && u in people[id] ==> u in where && where[u] == id
  }

  // Nobody is mapped to a room they do not sit in.
  ghost predicate Mapped(people: map<u16, set<int>>, where: map<int, u16>) {
    forall u :: u in where ==> where[u] in people && u in people[where[u]]
  }

  // What every run keeps of the seating, whatever numbers the rooms are given.
  ghost predicate SeatInv(r: Rooms) {
    && r.nextId >= 1
    && (forall id :: id in r.matches ==> GoodRoom(id, r.matches[id]))
    && (forall u :: u in r.userToMatch ==> u > 0)
    && Seated(People(r), r.userToMatch)
  }

  // What holds besides as long as no create takes the number of an open room: the mapping and the
  // seats are inverse.
  ghost predicate SeatsExact(r: Rooms) {
    SeatInv(r) && Mapped(People(r), r.userToMatch)
  }

  // ---------- what the invariant says ----------

  ghost predicate OnlySeat(slots: Slots, i: int, user: int) {
    && 0 <= i < 16 && slots[i].user == user && HasPlayer(slots[i].status)
    && forall j :: 0 <= j < 16 && slots[j].user == user ==> j == i
  }

  // user_to_match and the slots are inverse: u is mapped to room id exactly when one, and only
  // one, slot of that room holds u with a player status.
  lemma SeatsAreInverse(r: Rooms, u: int, id: u16)
    requires SeatsExact(r) && u > 0
    ensures (u in r.userToMatch && r.userToMatch[u] == id) <==>
            (id in r.matches && exists i :: OnlySeat(r.matches[id].slots, i, u))
  {
    if id in r.matches {
      assert GoodRoom(id, r.matches[id]);
      var slots := r.matches[id].slots;
      if u in r.userToMatch && r.userToMatch[u] == id {
        assert u in People(r)[id];
        var i :| 0 <= i < 16 && Occupied(slots[i]) && slots[i].user == u;
        assert OnlySeat(slots, i, u);
      }
      if exists i :: OnlySeat(slots, i, u) {
        assert u in People(r)[id];
      }
    }
  }

  // A slot without a player carries user -1, so a search by user id finds the seat.
  lemma SeatFound(m: Match, u: int)
    requires RoomOk(m) && u > 0
    ensures FirstUser(m.slots, u).Some? <==> u in Occupants(m.slots)
    ensures FirstUser(m.slots, u).Some? ==> OnlySeat(m.slots, FirstUser(m.slots, u).value, u)
  {
    if i :| 0 <= i < 16 && m.slots[i].user == u {
      assert SlotOk(m.slots[i]) && Occupied(m.slots[i]);
    }
  }

  // ---------- preservation ----------

  lemma SlotIsOk(slots: Slots, i: nat)
    requires SlotsOk(slots) && i < 16
    ensures SlotOk(slots[i])
    ensures Occupied(slots[i]) ==> slots[i].user as int in Occupants(slots)
  {
  }

  // Emptying a slot sends one person away.
  lemma ClearSlot(slots: Slots, i: nat)
    requires SlotsOk(slots) && Distinct(slots) && i < 16
    ensures var slots' := slots[i := EMPTY_SLOT];
      SlotsOk(slots') && Distinct(slots') && Occupants(slots') == Occupants(slots) - {slots[i].user as int}
  {
    var slots' := slots[i := EMPTY_SLOT];
    forall u | u in Occupants(slots) - {slots[i].user as int} ensures u in Occupants(slots') {
      var k :| 0 <= k < 16 && Occupied(slots[k]) && slots[k].user == u;
      assert slots'[k] == slots[k];
    }
    forall u | u in Occupants(slots') ensures u in Occupants(slots) - {slots[i].user as int} {
      var k :| 0 <= k < 16 && Occupied(slots'[k]) && slots'[k].user == u;
      assert slots'[k] == slots[k];
      assert if k < i then slots[k].user != slots[i].user else slots[i].user != slots[k].user;
    }
  }

  // Filling a free slot brings one person in.
  lemma FillSlot(slots: Slots, i: nat, s: Slot)
    requires SlotsOk(slots) && Distinct(slots) && i < 16 && slots[i].user == -1
    requires SlotOk(s) && Occupied(s) && s.user as int !in Occupants(slots)
    ensures var slots' := slots[i := s];
      SlotsOk(slots') && Distinct(slots') && Occupants(slots') == Occupants(slots) + {s.user as int}
  {
    var slots' := slots[i := s];
    forall u | u in Occupants(slots) ensures u in Occupants(slots') {
      var k :| 0 <= k < 16 && Occupied(slots[k]) && slots[k].user == u;
      assert slots'[k] == slots[k];
    }
    assert slots'[i] == s;
    assert forall k :: 0 <= k < 16 && slots[k].user == s.user ==> SlotOk(slots[k]) && Occupied(slots[k]);
  }

  lemma VacateOk(m: Match, user: int)
    requires RoomOk(m) && user > 0 && FirstUser(m.slots, user).Some?
    ensures var m' := Vacate(m, FirstUser(m.slots, user).value, user);
      && m'.id == m.id
      && Occupants(m'.slots) == Occupants(m.slots) - {user}
      && (if FirstOccupied(m'.slots).Some? then RoomOk(m') else Occupants(m'.slots) == {})
  {
    hide SlotsOk; hide Distinct;
    ClearSlot(m.slots, FirstUser(m.slots, user).value);
  }

  // The people once u has left the room they are mapped to; an emptied room goes.
  function PeopleWithout(people: map<u16, set<int>>, where: map<int, u16>, u: int): map<u16, set<int>>
    requires u in where
  {
    var id := where[u];
    if id !in people || u !in people[id] then people
    else if people[id] - {u} == {} then people - {id}
    else people[id := people[id] - {u}]
  }

  lemma WithoutKeeps(people: map<u16, set<int>>, where: map<int, u16>, u: int)
    requires Seated(people, where) && u in where
    ensures Seated(PeopleWithout(people, where, u), where - {u})
    ensures Mapped(people, where) ==> Mapped(PeopleWithout(people, where, u), where - {u})
  {
  }

  // u enters room id, or takes it over alone.
  lemma WithKeeps(people: map<u16, set<int>>, where: map<int, u16>, u: int, id: u16, now: set<int>)
    requires Seated(people, where) && u !in where && u in now
    requires now <= (if id in people then people[id] else {}) + {u}
    ensures Seated(people[id := now], where[u := id])
    ensures Mapped(people, where) ==>
      (Mapped(people[id := now], where[u := id]) <==> now == (if id in people then people[id] else {}) + {u})
  {
    if Mapped(people, where) && id in people && Mapped(people[id := now], where[u := id]) {
      forall x | x in people[id] ensures x in now {
        assert where[u := id][x] == id;
      }
    }
  }

  // What leaving does to the matches map.
  lemma RemoveUserEffect(r: Rooms, user: int)
    requires SeatInv(r) && user in r.userToMatch
    ensures var (id, r') := (r.userToMatch[user], RemoveUser(r, user).0);
      && r'.userToMatch == r.userToMatch - {user} && r'.nextId == r.nextId
      && (id !in r.matches || user !in Occupants(r.matches[id].slots) ==> r'.matches == r.matches)
    ensures var (id, r') := (r.userToMatch[user], RemoveUser(r, user).0);
      id in r.matches && user in Occupants(r.matches[id].slots) ==>
        && RoomOk(r.matches[id]) && FirstUser(r.matches[id].slots, user).Some?
        && var m' := Vacate(r.matches[id], FirstUser(r.matches[id].slots, user).value, user);
           var left := Occupants(r.matches[id].slots) - {user};
           && Occupants(m'.slots) == left
           && (left == {} ==> r'.matches == r.matches - {id})
           && (left != {} ==> GoodRoom(id, m') && r'.matches == r.matches[id := m'])
  {
    hide SlotsOk; hide Distinct; hide Vacate;
    var id := r.userToMatch[user];
    if id in r.matches {
      assert GoodRoom(id, r.matches[id]);
      SeatFound(r.matches[id], user);
      if user in Occupants(r.matches[id].slots) { VacateOk(r.matches[id], user); }
    }
  }

  lemma RemovalPeople(r: Rooms, user: int)
    requires SeatInv(r) && user in r.userToMatch
    ensures People(RemoveUser(r, user).0) == PeopleWithout(People(r), r.userToMatch, user)
  {
    hide RoomOk; hide Vacate; hide RemoveUser;
    RemoveUserEffect(r, user);
    var r' := RemoveUser(r, user).0;
    assert People(r').Keys == PeopleWithout(People(r), r.userToMatch, user).Keys;
  }

  lemma RemoveUserKeepsSeats(r: Rooms, user: int)
    requires SeatInv(r)
    ensures SeatInv(RemoveUser(r, user).0) && (SeatsExact(r) ==> SeatsExact(RemoveUser(r, user).0))
    ensures user !in RemoveUser(r, user).0.userToMatch && RemoveUser(r, user).0.nextId == r.nextId
  {
    hide RoomOk; hide Vacate; hide RemoveUser; hide PeopleWithout; hide Occupants;
    if user in r.userToMatch {
      RemoveUserEffect(r, user);
      RemovalPeople(r, user);
      WithoutKeeps(People(r), r.userToMatch, user);
    } else {
      NoRoomToLeave(r, user);
    }
  }

  lemma NoRoomToLeave(r: Rooms, user: int)
    requires user !in r.userToMatch
    ensures RemoveUser(r, user) == (r, None)
  {
  }

  lemma CreatorOccupies(id: u16, user: i32, asked: Match)
    requires user > 0 && id >= 1
    ensures GoodRoom(id, NewRoom(id, user, asked))
    ensures Occupants(NewRoom(id, user, asked).slots) == {user as int}
  {
    var slots := CreatorAlone(user);
    assert Occupied(slots[0]) && slots[0].user == user;
    assert forall i :: 0 < i < 16 ==> slots[i] == EMPTY_SLOT;
  }

  lemma OpenKeepsSeats(r: Rooms, user: i32, asked: Match)
    requires SeatInv(r) && user > 0 && user !in r.userToMatch
    ensures SeatInv(OpenRoom(r, user, asked))
    ensures SeatsExact(r) ==> (SeatsExact(OpenRoom(r, user, asked)) <==> r.nextId !in r.matches)
  {
    hide RoomOk; hide NewRoom;
    CreatorOccupies(r.nextId, user, asked);
    assert People(OpenRoom(r, user, asked)) == People(r)[r.nextId := {user as int}];
    if r.nextId in r.matches { HostIsIn(r, r.nextId); }
    WithKeeps(People(r), r.userToMatch, user, r.nextId, {user as int});
  }

  lemma HostIsIn(r: Rooms, id: u16)
    requires SeatInv(r) && id in r.matches
    ensures id in People(r) && r.matches[id].host as int in People(r)[id]
    ensures r.matches[id].host as int in r.userToMatch && r.userToMatch[r.matches[id].host] == id
  {
    assert GoodRoom(id, r.matches[id]);
  }

  // A create always leaves well-formed rooms in which everyone is mapped to where they sit. It keeps
  // mapping and seats inverse exactly when the counter has not come round to the number of a room
  // that is still open.
  lemma CreateKeepsSeats(r: Rooms, user: i32, asked: Match)
    requires SeatInv(r) && user > 0
    ensures SeatInv(Create(r, user, asked))
    ensures SeatsExact(r) ==> (SeatsExact(Create(r, user, asked)) <==> r.nextId !in RemoveUser(r, user).0.matches)
  {
    hide SeatInv; hide SeatsExact; hide RemoveUser; hide OpenRoom;
    RemoveUserKeepsSeats(r, user);
    OpenKeepsSeats(RemoveUser(r, user).0, user, asked);
  }

  lemma SitDownOk(m: Match, user: i32)
    requires RoomOk(m) && user > 0 && user !in Occupants(m.slots) && FirstStatus(m.slots, SLOT_OPEN).Some?
    ensures RoomOk(SitDown(m, user)) && SitDown(m, user).id == m.id
    ensures Occupants(SitDown(m, user).slots) == Occupants(m.slots) + {user}
  {
    hide Distinct; hide SlotsOk;
    var i := FirstStatus(m.slots, SLOT_OPEN).value;
    SlotIsOk(m.slots, i);
    FillSlot(m.slots, i, Slot(SLOT_NOT_READY, TEAM_NEUTRAL, user, 0));
  }

  // A departure changes the slots of the room left behind only by emptying one of them.
  lemma SlotsAfterRemoval(r: Rooms, user: int, id: u16, i: nat)
    requires id in RemoveUser(r, user).0.matches && i < 16
    ensures id in r.matches
    ensures RemoveUser(r, user).0.matches[id].slots[i] in {r.matches[id].slots[i], EMPTY_SLOT}
  {
  }

  // Leaving one's own room frees a slot, and leaving another room takes none from this one.
  lemma StillOpen(r: Rooms, user: int, id: u16, password: bytes)
    requires CanJoin(r, id, password)
    requires id in RemoveUser(r, user).0.matches
    ensures FirstStatus(RemoveUser(r, user).0.matches[id].slots, SLOT_OPEN).Some?
  {
    hide RemoveUser;
    var before := FirstStatus(r.matches[id].slots, SLOT_OPEN).value;
    SlotsAfterRemoval(r, user, id, before);
    assert RemoveUser(r, user).0.matches[id].slots[before].status == SLOT_OPEN;
  }

  lemma EnterKeepsSeats(r: Rooms, user: i32, id: u16)
    requires SeatInv(r) && user > 0 && user !in r.userToMatch
    requires id in r.matches ==> FirstStatus(r.matches[id].slots, SLOT_OPEN).Some?
    ensures SeatInv(Enter(r, user, id)) && (SeatsExact(r) ==> SeatsExact(Enter(r, user, id)))
  {
    hide RoomOk; hide SitDown;
    if id in r.matches {
      var m := r.matches[id];
      assert GoodRoom(id, m);
      assert People(r)[id] == Occupants(m.slots);
      SitDownOk(m, user);
      var now := Occupants(m.slots) + {user as int};
      WithKeeps(People(r), r.userToMatch, user, id, now);
      assert People(Enter(r, user, id)) == People(r)[id := now];
    }
  }

  lemma JoinKeepsSeats(r: Rooms, user: i32, id: u16, password: bytes)
    requires SeatInv(r) && user > 0
    ensures SeatInv(Join(r, user, id, password)) && (SeatsExact(r) ==> SeatsExact(Join(r, user, id, password)))
  {
    hide SeatInv; hide SeatsExact; hide RemoveUser; hide Enter; hide FirstStatus;
    if CanJoin(r, id, password) {
      RemoveUserKeepsSeats(r, user);
      var r1 := RemoveUser(r, user).0;
      if id in r1.matches { StillOpen(r, user, id, password); }
      EnterKeepsSeats(r1, user, id);
    }
  }

  // The user is the only one in their room id.
  predicate AloneIn(r: Rooms, user: int, id: u16) {
    id in r.matches && Occupants(r.matches[id].slots) == {user}
  }

  // A join that is allowed moves its user, and nobody else: the user sits in the room asked for and
  // nowhere else, and everyone else stays in the room they were in. The exception is a user who joins
  // the room they are already alone in: it disbands as they leave it, and they end up in none.
  lemma JoinMovesOnlyTheUser(r: Rooms, user: i32, id: u16, password: bytes, u: int, k: u16)
    requires SeatInv(r) && user > 0
    ensures !CanJoin(r, id, password) ==> Join(r, user, id, password) == r
    ensures var r' := Join(r, user, id, password);
      CanJoin(r, id, password) ==>
        (SitsIn(r', u, k) <==> if u == user as int then k == id && !AloneIn(r, user, id) else SitsIn(r, u, k))
  {
    hide RemoveUser; hide CanJoin; hide SitDown; hide Occupants; hide RoomOk;
    if CanJoin(r, id, password) {
      RemoveUserKeepsSeats(r, user);
      var r1 := RemoveUser(r, user).0;
      AfterLeaving(r, user, u, k);
      AfterLeaving(r, user, user, id);
      AfterLeaving(r, user, user, k);
      WhoIsAlone(r, user, id, password);
      if id in r1.matches {
        StillOpen(r, user, id, password);
        assert GoodRoom(id, r1.matches[id]);
        assert user as int !in People(r1)[id];
        SitDownOk(r1.matches[id], user);
      }
    }
  }

  ghost predicate SitsIn(r: Rooms, u: int, k: u16) {
    k in r.matches && u in Occupants(r.matches[k].slots)
  }

  // Leaving takes the user out of every room and nobody else out of any.
  lemma AfterLeaving(r: Rooms, user: int, u: int, k: u16)
    requires SeatInv(r)
    ensures SitsIn(RemoveUser(r, user).0, u, k) <==> u != user && SitsIn(r, u, k)
  {
    hide Vacate; hide RemoveUser; hide RoomOk; hide Occupants;
    if user in r.userToMatch {
      RemoveUserEffect(r, user);
      assert k in r.matches && user in People(r)[k] ==> k == r.userToMatch[user];
      assert k in r.matches && u != user && u in Occupants(r.matches[k].slots) ==>
        u in Occupants(r.matches[k].slots) - {user};
    } else {
      NoRoomToLeave(r, user);
      assert k in r.matches ==> user !in People(r)[k];
    }
  }

  lemma WhoIsAlone(r: Rooms, user: int, id: u16, password: bytes)
    requires SeatInv(r) && CanJoin(r, id, password)
    ensures id in RemoveUser(r, user).0.matches <==> !AloneIn(r, user, id)
  {
    hide Vacate; hide RemoveUser; hide RoomOk; hide Occupants;
    if user in r.userToMatch {
      RemoveUserEffect(r, user);
      var k := r.userToMatch[user];
      if k in r.matches && user in People(r)[k] {
        assert Occupants(r.matches[k].slots) - {user} == {} <==> Occupants(r.matches[k].slots) == {user};
      }
      assert user in People(r)[id] ==> k == id;
    } else {
      NoRoomToLeave(r, user);
      assert user !in People(r)[id];
    }
  }

  // Every other packet maps the sender's room m to m' without moving anyone in or out of it.
  ghost predicate SamePeople(m: Match, m': Match) {
    m'.id == m.id && RoomOk(m') && Occupants(m'.slots) == Occupants(m.slots)
  }

  lemma StepKeepsSeats(r: Rooms, id: u16, m: Match)
    requires SeatInv(r) && id in r.matches && SamePeople(r.matches[id], m)
    ensures SeatInv(WithRoom(r, id, m)) && (SeatsExact(r) ==> SeatsExact(WithRoom(r, id, m)))
  {
    assert GoodRoom(id, r.matches[id]);
    assert People(WithRoom(r, id, m)) == People(r);
  }

  lemma MovedOk(m: Match, user: i32, target: int)
    requires RoomOk(m) && user > 0 && MovedTo(m, user, target).Some?
    ensures SamePeople(m, MovedTo(m, user, target).value)
  {
    hide Distinct; hide SlotsOk;
    var i := FirstUser(m.slots, user).value;
    SlotIsOk(m.slots, i);
    SlotIsOk(m.slots, target);
    ClearSlot(m.slots, i);
    FillSlot(m.slots[i := EMPTY_SLOT], target, m.slots[i]);
  }

  // A change that leaves every slot's user alone and stores only good slots.
  lemma Restyled(m: Match, m': Match)
    requires RoomOk(m) && m'.id == m.id && m'.host == m.host
    requires forall i :: 0 <= i < 16 ==> m'.slots[i].user == m.slots[i].user && SlotOk(m'.slots[i])
    ensures SamePeople(m, m')
  {
    assert forall i :: 0 <= i < 16 ==> (Occupied(m'.slots[i]) <==> Occupied(m.slots[i])) by {
      forall i | 0 <= i < 16 ensures Occupied(m'.slots[i]) <==> Occupied(m.slots[i]) {
        assert SlotOk(m.slots[i]) && SlotOk(m'.slots[i]);
      }
    }
  }

  lemma OwnStatusOk(m: Match, user: i32, status: u8)
    requires RoomOk(m) && user > 0 && WithOwnStatus(m, user, status).Some?
    requires status in {SLOT_NOT_READY, SLOT_READY, SLOT_NO_MAP, SLOT_COMPLETE}
    ensures SamePeople(m, WithOwnStatus(m, user, status).value)
  {
    Restyled(m, WithOwnStatus(m, user, status).value);
  }

  lemma LockOk(m: Match, user: i32, target: int)
    requires RoomOk(m) && WithLock(m, user, target).Some?
    ensures SamePeople(m, WithLock(m, user, target).value)
  {
    assert SlotOk(m.slots[target]);
    Restyled(m, WithLock(m, user, target).value);
  }

  lemma SettingsOk(m: Match, user: i32, asked: Match)
    requires RoomOk(m) && WithSettings(m, user, asked).Some?
    ensures SamePeople(m, WithSettings(m, user, asked).value)
  {
    assert forall i :: 0 <= i < 16 ==> SlotOk(m.slots[i]);
    Restyled(m, WithSettings(m, user, asked).value);
  }

  lemma ModsOk(m: Match, user: i32, mods: u32)
    requires RoomOk(m) && WithMods(m, user, mods).Some?
    ensures SamePeople(m, WithMods(m, user, mods).value)
  {
    Restyled(m, WithMods(m, user, mods).value);
  }

  lemma TeamOk(m: Match, user: i32)
    requires RoomOk(m) && WithTeam(m, user).Some?
    ensures SamePeople(m, WithTeam(m, user).value)
  {
    Restyled(m, WithTeam(m, user).value);
  }

  lemma HostOk(m: Match, user: i32, target: int)
    requires RoomOk(m) && WithHost(m, user, target).Some?
    ensures SamePeople(m, WithHost(m, user, target).value)
  {
    assert SlotOk(m.slots[target]);
    assert m.slots[target].user in Occupants(m.slots);
  }

  lemma StartedOk(m: Match, user: i32)
    requires RoomOk(m) && Started(m, user).Some?
    ensures SamePeople(m, Started(m, user).value)
  {
    assert forall i :: 0 <= i < 16 ==> SlotOk(m.slots[i]);
    Restyled(m, Started(m, user).value);
  }

  // ---------- room numbers ----------

  // The number handed out by the k-th create, counted from 0.
  function RoomNumber(k: nat): u16 {
    k % 65535 + 1
  }

  lemma NumbersCycle(k: nat)
    ensures RoomNumber(0) == NO_ROOMS.nextId
    ensures NextId(RoomNumber(k)) == RoomNumber(k + 1)
  {
  }

  // Any 65535 consecutive creates receive different numbers.
  lemma NumbersDistinct(j: nat, k: nat)
    requires j < k < j + 65535
    ensures RoomNumber(j) != RoomNumber(k)
  {
  }
}
