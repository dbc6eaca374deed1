/** What every packet keeps true of the rooms, their rounds and their history. */
module RoomSafety {
  import opened BanchoTypes
  import opened Rooms
  import opened Rounds

  // The room numbers handed out so far, in order.
  function Opens(tr: seq<Event>): seq<u16> {
    if tr == [] then [] else
    var before := Opens(tr[..|tr| - 1]);
    if tr[|tr| - 1].Opened? then before + [tr[|tr| - 1].room] else before
  }

  // Room numbers have been handed out in the cycle 1..65535, and every open room got one of them.
  ghost predicate NumberInv(r: Rooms, tr: seq<Event>) {
    && r.nextId == RoomNumber(|Opens(tr)|)
    && (forall k :: 0 <= k < |Opens(tr)| ==> Opens(tr)[k] == RoomNumber(k))
    && (forall id :: id in r.matches ==> id in Opens(tr))
  }

  ghost predicate RoomsInv(r: Rooms, tr: seq<Event>) {
    SeatInv(r) && RoundInv(r) && HistoryInv(r, tr) && NumberInv(r, tr)
  }

  // ---------- histories that grow by one event ----------

  lemma GrowByOne(tr: seq<Event>, e: Event)
    ensures (tr + [e])[..|tr|] == tr && (tr + [e])[|tr|] == e
  {
  }

  // An event changes what the history says about its own room only.
  lemma OtherRoom(tr: seq<Event>, e: Event, id: u16)
    requires e.room != id
    ensures RoundOpen(tr + [e], id) == RoundOpen(tr, id)
    ensures LoadedInRound(tr + [e], id) == LoadedInRound(tr, id)
    ensures ScoresInRound(tr + [e], id) == ScoresInRound(tr, id)
  {
    GrowByOne(tr, e);
  }

  lemma OwnRoom(tr: seq<Event>, e: Event)
    ensures RoundOpen(tr + [e], e.room) == (e.Began? || (!e.Opened? && !e.Ended? && RoundOpen(tr, e.room)))
    ensures LoadedInRound(tr + [e], e.room) ==
      if e.Began? || e.Opened? then {} else LoadedInRound(tr, e.room) + if e.Loaded? then {e.user} else {}
    ensures ScoresInRound(tr + [e], e.room) ==
      if e.Began? || e.Opened? then map[]
      else if e.Scored? then ScoresInRound(tr, e.room)[e.user := e.frame] else ScoresInRound(tr, e.room)
  {
    GrowByOne(tr, e);
  }

  lemma SameNumbers(r: Rooms, r': Rooms, tr: seq<Event>, e: Event)
    requires NumberInv(r, tr) && !e.Opened?
    requires r'.nextId == r.nextId && r'.matches.Keys <= r.matches.Keys
    ensures NumberInv(r', tr + [e])
  {
    GrowByOne(tr, e);
    assert forall id :: id in r'.matches ==> id in r.matches;
  }

  // The history keeps matching the rooms when only the event's own room moves.
  lemma HistoryGrows(r: Rooms, r': Rooms, tr: seq<Event>, e: Event)
    requires HistoryInv(r, tr) && Justified(tr, e)
    requires forall k :: k in r'.matches && k != e.room && r'.matches[k].inProgress ==> SameRound(r, r', k)
    requires e.room in r'.matches && r'.matches[e.room].inProgress ==> InStep(r', tr + [e], e.room)
    ensures HistoryInv(r', tr + [e])
  {
    SafeExtension(tr, e);
    forall k | k in r'.matches && r'.matches[k].inProgress ensures InStep(r', tr + [e], k) {
      if k != e.room { OtherRoom(tr, e, k); }
    }
  }

  lemma HistoryStays(r: Rooms, r': Rooms, tr: seq<Event>)
    requires HistoryInv(r, tr)
    requires forall k :: k in r'.matches && r'.matches[k].inProgress ==> SameRound(r, r', k)
    ensures HistoryInv(r', tr)
  {
    hide SafeHistory;
    forall k | k in r'.matches && r'.matches[k].inProgress ensures InStep(r', tr, k) {
      assert SameRound(r, r', k) && InStep(r, tr, k);
    }
  }

  ghost predicate SameRound(r: Rooms, r': Rooms, k: u16) {
    k in r.matches && r.matches[k].inProgress && LoadedOf(r', k) == LoadedOf(r, k) && ScoresOf(r', k) == ScoresOf(r, k)
  }

  // ---------- leaving, opening, entering ----------

  // A removal drops one room, or thins it out without touching its round.
  ghost predicate RoundKept(r: Rooms, r': Rooms, id: u16) {
    && id in r.matches && id in r'.matches && r'.matches[id].inProgress == r.matches[id].inProgress
    && (AnyPlaying(r'.matches[id].slots) ==> AnyPlaying(r.matches[id].slots))
    && (id in r'.startTimes <==> id in r.startTimes)
    && ScoresOf(r', id) == ScoresOf(r, id) && LoadedOf(r', id) == LoadedOf(r, id)
  }

  lemma RemovalRounds(r: Rooms, user: int, id: u16)
    ensures var r' := RemoveUser(r, user).0;
      && (id in r'.matches ==> RoundKept(r, r', id))
      && (id in r.matches && id !in r'.matches ==> id !in r'.startTimes && id !in r'.lastScores && id !in r'.loaded)
  {
    hide AnyPlaying; hide Vacate; hide FirstUser; hide FirstOccupied;
    if id in RemoveUser(r, user).0.matches { RemovalStartsNothing(r, user, id); }
    if user in r.userToMatch && r.userToMatch[user] in r.matches {
      var k := r.userToMatch[user];
      var seat := FirstUser(r.matches[k].slots, user);
      if seat.Some? { VacateKeepsRound(r.matches[k], seat.value, user); }
    }
  }

  lemma VacateKeepsRound(m: Match, i: nat, user: int)
    requires i < 16
    ensures Vacate(m, i, user).inProgress == m.inProgress
  {
  }

  lemma RemovalStartsNothing(r: Rooms, user: int, id: u16)
    requires id in RemoveUser(r, user).0.matches
    ensures id in r.matches && (AnyPlaying(RemoveUser(r, user).0.matches[id].slots) ==> AnyPlaying(r.matches[id].slots))
  {
    hide RemoveUser;
    SlotsAfterRemoval(r, user, id, 0);
    forall i: nat | i < 16 { SlotsAfterRemoval(r, user, id, i); }
    PlayingFrom(r.matches[id].slots, RemoveUser(r, user).0.matches[id].slots);
  }

  lemma RemovalShrinks(r: Rooms, user: int)
    ensures var r' := RemoveUser(r, user).0;
      && r'.nextId == r.nextId && r'.userToMatch == r.userToMatch - {user}
      && r'.matches.Keys <= r.matches.Keys && r'.startTimes.Keys <= r.startTimes.Keys
      && r'.lastScores.Keys <= r.lastScores.Keys && r'.loaded.Keys <= r.loaded.Keys
  {
    if user !in r.userToMatch { assert r.userToMatch - {user} == r.userToMatch; }
  }

  lemma LeaveSafe(r: Rooms, tr: seq<Event>, user: int)
    requires RoomsInv(r, tr)
    ensures RoomsInv(RemoveUser(r, user).0, tr)
    ensures RemoveUser(r, user).0.userToMatch == r.userToMatch - {user}
  {
    hide SeatInv; hide RemoveUser; hide LoadedOf; hide ScoresOf; hide HistoryInv; hide RoomNumber;
    hide RoundInv; hide AnyPlaying;
    RemoveUserKeepsSeats(r, user);
    RemovalShrinks(r, user);
    RoundsAfterRemoval(r, user);
    forall id { RemovalRounds(r, user, id); }
    var r' := RemoveUser(r, user).0;
    assert forall id :: id in r'.matches ==> id in r.matches;
    HistoryStays(r, r', tr);
  }

  lemma RoundsAfterRemoval(r: Rooms, user: int)
    requires RoundInv(r)
    ensures RoundInv(RemoveUser(r, user).0)
  {
    hide RemoveUser; hide AnyPlaying; hide LoadedOf; hide ScoresOf;
    RemovalShrinks(r, user);
    forall id { RemovalRounds(r, user, id); }
  }

  lemma OpenSafe(r: Rooms, tr: seq<Event>, user: i32, asked: Match)
    requires RoomsInv(r, tr) && user > 0 && user !in r.userToMatch
    ensures RoomsInv(OpenRoom(r, user, asked), tr + [Opened(r.nextId)])
  {
    hide SeatInv; hide RoomNumber; hide HistoryInv; hide NumberInv; hide AnyPlaying; hide CreatorAlone;
    OpenKeepsSeats(r, user, asked);
    NobodyPlaysYet(user);
    KnownRounds(r, tr);
    HistoryGrows(r, OpenRoom(r, user, asked), tr, Opened(r.nextId));
    NumberTaken(r, tr, user, asked);
  }

  lemma NobodyPlaysYet(user: i32)
    ensures !AnyPlaying(CreatorAlone(user))
  {
  }

  lemma NumberTaken(r: Rooms, tr: seq<Event>, user: i32, asked: Match)
    requires NumberInv(r, tr)
    ensures NumberInv(OpenRoom(r, user, asked), tr + [Opened(r.nextId)])
  {
    hide NewRoom; hide RoomNumber;
    GrowByOne(tr, Opened(r.nextId));
    NumbersCycle(|Opens(tr)|);
  }

  lemma KnownRounds(r: Rooms, tr: seq<Event>)
    requires HistoryInv(r, tr)
    ensures forall k :: k in r.matches && r.matches[k].inProgress ==> InStep(r, tr, k)
  {
  }

  lemma EnterSafe(r: Rooms, tr: seq<Event>, user: i32, id: u16)
    requires RoomsInv(r, tr) && user > 0 && user !in r.userToMatch
    requires id in r.matches ==> FirstStatus(r.matches[id].slots, SLOT_OPEN).Some?
    ensures RoomsInv(Enter(r, user, id), tr)
  {
    hide SeatInv; hide HistoryInv; hide SitDown; hide AnyPlaying; hide RoomNumber; hide InStep;
    EnterKeepsSeats(r, user, id);
    if id in r.matches {
      SitDownQuiet(r.matches[id], user);
      EnterRounds(r, tr, user, id);
    }
  }

  lemma EnterRounds(r: Rooms, tr: seq<Event>, user: i32, id: u16)
    requires HistoryInv(r, tr) && id in r.matches && SitDown(r.matches[id], user).inProgress == r.matches[id].inProgress
    ensures HistoryInv(Enter(r, user, id), tr)
  {
    hide HistoryInv; hide SitDown;
    HistoryStays(r, Enter(r, user, id), tr);
  }

  lemma SitDownQuiet(m: Match, user: i32)
    requires FirstStatus(m.slots, SLOT_OPEN).Some?
    ensures SitDown(m, user).inProgress == m.inProgress
    ensures AnyPlaying(SitDown(m, user).slots) ==> AnyPlaying(m.slots)
  {
    PlayingFrom(m.slots, SitDown(m, user).slots);
  }

  // ---------- inside a room ----------

  // A change that moves nobody and starts nothing.
  ghost predicate QuietChange(m: Match, m': Match) {
    SamePeople(m, m') && m'.inProgress == m.inProgress && (AnyPlaying(m'.slots) ==> AnyPlaying(m.slots))
  }

  lemma QuietSafe(r: Rooms, tr: seq<Event>, id: u16, m: Match)
    requires RoomsInv(r, tr) && id in r.matches && QuietChange(r.matches[id], m)
    ensures RoomsInv(WithRoom(r, id, m), tr)
  {
    hide SeatInv; hide HistoryInv; hide SamePeople; hide AnyPlaying; hide RoomNumber;
    StepKeepsSeats(r, id, m);
    HistoryStays(r, WithRoom(r, id, m), tr);
  }

  function AfterStart(r: Rooms, id: u16, m': Match, now: int): Rooms {
    r.(matches := r.matches[id := m'], startTimes := r.startTimes[id := now],
       lastScores := r.lastScores[id := map[]], loaded := r.loaded[id := {}])
  }

  lemma StartSafe(r: Rooms, tr: seq<Event>, id: u16, user: i32, now: int)
    requires RoomsInv(r, tr) && id in r.matches && Started(r.matches[id], user).Some?
    ensures RoomsInv(AfterStart(r, id, Started(r.matches[id], user).value, now), tr + [Began(id)])
  {
    hide SeatInv; hide HistoryInv; hide NumberInv; hide RoundInv; hide Started;
    var m' := Started(r.matches[id], user).value;
    var r' := AfterStart(r, id, m', now);
    StartedRuns(r.matches[id], user);
    SeatsAfterStart(r, id, user, now);
    RoundsAfterStart(r, id, m', now);
    KnownRounds(r, tr);
    OwnRoom(tr, Began(id));
    HistoryGrows(r, r', tr, Began(id));
    SameNumbers(r, r', tr, Began(id));
  }

  lemma SeatsAfterStart(r: Rooms, id: u16, user: i32, now: int)
    requires SeatInv(r) && id in r.matches && Started(r.matches[id], user).Some?
    ensures var r' := AfterStart(r, id, Started(r.matches[id], user).value, now);
      SeatInv(r') && (SeatsExact(r) ==> SeatsExact(r'))
  {
    hide SeatInv; hide SeatsExact; hide SamePeople; hide Started; hide RoomOk;
    var m' := Started(r.matches[id], user).value;
    RoomIsOk(r, id);
    StartedOk(r.matches[id], user);
    StepKeepsSeats(r, id, m');
    SeatsIgnoreRounds(WithRoom(r, id, m'), AfterStart(r, id, m', now));
  }

  lemma RoundsAfterStart(r: Rooms, id: u16, m': Match, now: int)
    requires RoundInv(r) && id in r.matches && m'.inProgress
    ensures RoundInv(AfterStart(r, id, m', now)) && (ClockExact(r) ==> ClockExact(AfterStart(r, id, m', now)))
  {
    hide AnyPlaying;
  }

  lemma StartedRuns(m: Match, user: i32)
    requires Started(m, user).Some?
    ensures Started(m, user).value.inProgress
  {
  }

  lemma RoomIsOk(r: Rooms, id: u16)
    requires SeatInv(r) && id in r.matches
    ensures RoomOk(r.matches[id]) && r.matches[id].id == id
  {
    assert GoodRoom(id, r.matches[id]);
  }

  lemma SeatsIgnoreRounds(r: Rooms, r': Rooms)
    requires SeatInv(r) && r'.matches == r.matches && r'.nextId == r.nextId && r'.userToMatch == r.userToMatch
    ensures SeatInv(r') && (SeatsExact(r) ==> SeatsExact(r'))
  {
    assert People(r') == People(r);
  }

  // A load or a score frame from someone in room id, recorded both in the room and in the history.
  lemma RecordSafe(r: Rooms, r': Rooms, tr: seq<Event>, e: Event)
    requires RoomsInv(r, tr) && (e.room in r.matches || e.Loaded?) && (e.Loaded? || e.Scored? || e.AllLoaded?) &&
      Justified(tr, e)
    requires r'.matches == r.matches && r'.nextId == r.nextId && r'.userToMatch == r.userToMatch &&
      r'.startTimes == r.startTimes
    requires r'.loaded == if e.Loaded? then r.loaded[e.room := LoadedOf(r, e.room) + {e.user}] else r.loaded
    requires r'.lastScores == if e.Scored? then r.lastScores[e.room := ScoresOf(r, e.room)[e.user := e.frame]]
      else r.lastScores
    ensures RoomsInv(r', tr + [e])
  {
    hide SeatInv; hide HistoryInv; hide NumberInv; hide AnyPlaying; hide Justified;
    SeatsIgnoreRounds(r, r');
    KnownRounds(r, tr);
    OwnRoom(tr, e);
    HistoryGrows(r, r', tr, e);
    SameNumbers(r, r', tr, e);
  }

  function AfterFinish(r: Rooms, id: u16): Rooms
    requires id in r.matches
  {
    r.(matches := r.matches[id := Closed(r.matches[id])], startTimes := r.startTimes - {id},
       lastScores := r.lastScores - {id}, loaded := r.loaded - {id})
  }

  lemma FinishSafe(r: Rooms, tr: seq<Event>, id: u16, names: map<i32, bytes>)
    requires RoomsInv(r, tr) && id in r.matches && r.matches[id].inProgress
    ensures RoomsInv(AfterFinish(r, id), tr + [Ended(id, Close(r.matches[id], ScoresOf(r, id), names))])
  {
    hide SeatInv; hide HistoryInv; hide NumberInv; hide RoundInv; hide Close; hide RoomOk; hide Closed;
    var m := r.matches[id];
    var r' := AfterFinish(r, id);
    var e := Ended(id, Close(m, ScoresOf(r, id), names));
    RoomIsOk(r, id);
    SeatsAfterFinish(r, id);
    RoundsAfterFinish(r, id);
    CloseUsesScores(m, ScoresOf(r, id), names);
    KnownRounds(r, tr);
    assert !Closed(m).inProgress by { ClosedIsOver(m); }
    HistoryGrows(r, r', tr, e);
    SameNumbers(r, r', tr, e);
  }

  lemma ClosedIsOver(m: Match)
    ensures !Closed(m).inProgress
  {
  }

  lemma SeatsAfterFinish(r: Rooms, id: u16)
    requires SeatInv(r) && id in r.matches
    ensures SeatInv(AfterFinish(r, id)) && (SeatsExact(r) ==> SeatsExact(AfterFinish(r, id)))
  {
    hide SeatInv; hide SeatsExact; hide Closed; hide SamePeople; hide RoomOk;
    RoomIsOk(r, id);
    ClosedOk(r.matches[id]);
    StepKeepsSeats(r, id, Closed(r.matches[id]));
    SeatsIgnoreRounds(WithRoom(r, id, Closed(r.matches[id])), AfterFinish(r, id));
  }

  lemma RoundsAfterFinish(r: Rooms, id: u16)
    requires RoundInv(r) && id in r.matches && RoomOk(r.matches[id])
    ensures RoundInv(AfterFinish(r, id)) && (ClockExact(r) ==> ClockExact(AfterFinish(r, id)))
  {
    hide AnyPlaying; hide RestAll; hide RoomOk;
    NothingPlays(r.matches[id]);
  }

  lemma NothingPlays(m: Match)
    requires RoomOk(m)
    ensures !AnyPlaying(Closed(m).slots)
  {
    forall i | 0 <= i < 16 ensures Closed(m).slots[i].status != SLOT_PLAYING {
      SlotIsOk(m.slots, i);
    }
  }

  // ---------- which change each packet makes ----------

  lemma OwnStatusQuiet(m: Match, user: i32, status: u8)
    requires RoomOk(m) && user > 0 && status in {SLOT_NOT_READY, SLOT_READY, SLOT_NO_MAP, SLOT_COMPLETE}
    requires WithOwnStatus(m, user, status).Some?
    ensures QuietChange(m, WithOwnStatus(m, user, status).value)
  {
    OwnStatusOk(m, user, status);
    PlayingFrom(m.slots, WithOwnStatus(m, user, status).value.slots);
  }

  // No slot starts playing that was not.
  lemma PlayingFrom(a: Slots, b: Slots)
    requires forall i :: 0 <= i < 16 && b[i].status == SLOT_PLAYING ==> a[i].status == SLOT_PLAYING
    ensures AnyPlaying(b) ==> AnyPlaying(a)
  {
  }

  lemma MovedQuiet(m: Match, user: i32, target: int)
    requires RoomOk(m) && user > 0 && MovedTo(m, user, target).Some?
    ensures QuietChange(m, MovedTo(m, user, target).value)
  {
    hide SamePeople;
    MovedOk(m, user, target);
    var m' := MovedTo(m, user, target).value;
    var i := FirstUser(m.slots, user).value;
    if AnyPlaying(m'.slots) {
      var k :| 0 <= k < 16 && m'.slots[k].status == SLOT_PLAYING;
      assert m.slots[if k == target then i else k].status == SLOT_PLAYING;
    }
  }

  lemma LockQuiet(m: Match, user: i32, target: int)
    requires RoomOk(m) && WithLock(m, user, target).Some?
    ensures QuietChange(m, WithLock(m, user, target).value)
  {
    hide SamePeople;
    LockOk(m, user, target);
    PlayingFrom(m.slots, WithLock(m, user, target).value.slots);
  }

  lemma SettingsQuiet(m: Match, user: i32, asked: Match)
    requires RoomOk(m) && WithSettings(m, user, asked).Some?
    ensures QuietChange(m, WithSettings(m, user, asked).value)
  {
    hide SamePeople;
    SettingsOk(m, user, asked);
    PlayingFrom(m.slots, WithSettings(m, user, asked).value.slots);
  }

  lemma ModsQuiet(m: Match, user: i32, mods: u32)
    requires RoomOk(m) && WithMods(m, user, mods).Some?
    ensures QuietChange(m, WithMods(m, user, mods).value)
  {
    hide SamePeople;
    ModsOk(m, user, mods);
    PlayingFrom(m.slots, WithMods(m, user, mods).value.slots);
  }

  lemma TeamQuiet(m: Match, user: i32)
    requires RoomOk(m) && WithTeam(m, user).Some?
    ensures QuietChange(m, WithTeam(m, user).value)
  {
    hide SamePeople;
    TeamOk(m, user);
    PlayingFrom(m.slots, WithTeam(m, user).value.slots);
  }

  lemma HostQuiet(m: Match, user: i32, target: int)
    requires RoomOk(m) && WithHost(m, user, target).Some?
    ensures QuietChange(m, WithHost(m, user, target).value)
  {
    hide SamePeople;
    HostOk(m, user, target);
  }
}
