/** What happens when the room counter comes round: a run in which a create takes the number of a room
    that is still open and in progress. */
module CounterWrap {
  import opened Wrappers
  import opened BanchoTypes
  import opened Rooms
  import opened Rounds
  import opened Network
  import opened Server
  import opened ServerSafety
  import opened Departure
  import opened Runs
  import opened HandlerFacts
  import opened RoomSafety
  import opened Exactness

  // ---------- when the counter does come round ----------

  // Room 1, in which user 1 has started a round.
  function FirstRoom(asked: Match): Rooms {
    var r := Create(NO_ROOMS, 1, asked);
    if 1 in r.matches && Started(r.matches[1], 1).Some? then AfterStart(r, 1, Started(r.matches[1], 1).value, 0) else r
  }

  // Room 1 is kept open by user 1 while user 2 creates room after room.
  function AfterCreates(k: nat, asked: Match): Rooms {
    if k == 0 then FirstRoom(asked) else Create(AfterCreates(k - 1, asked), 2, asked)
  }

  lemma EmptySeats()
    ensures SeatsExact(NO_ROOMS)
  {
    assert People(NO_ROOMS) == map[];
  }

  // Until the counter wraps, room 1 and the latest room of user 2 are the only rooms.
  lemma {:induction false} BeforeTheWrap(k: nat, asked: Match)
    requires k <= 65534
    ensures var r := AfterCreates(k, asked);
      && SeatsExact(r) && r.nextId == RoomNumber(k + 1)
      && r.matches.Keys == {1, RoomNumber(k)}
      && r.userToMatch == if k == 0 then map[1 := 1] else map[1 := 1, 2 := RoomNumber(k)]
  {
    hide SeatsExact; hide Create; hide FirstRoom;
    if k == 0 {
      FirstRound(asked);
    } else {
      BeforeTheWrap(k - 1, asked);
      AnotherCreate(AfterCreates(k - 1, asked), k - 1, asked);
    }
  }

  lemma FirstCreate(asked: Match)
    ensures var r := Create(NO_ROOMS, 1, asked);
      SeatsExact(r) && r.nextId == RoomNumber(1) && r.matches.Keys == {1} && r.userToMatch == map[1 := 1]
  {
    hide SeatsExact; hide OpenRoom; hide RemoveUser;
    EmptySeats();
    NoRoomToLeave(NO_ROOMS, 1);
    OpenKeepsSeats(NO_ROOMS, 1, asked);
    OpenEffect(NO_ROOMS, 1, asked);
  }

  lemma FirstRound(asked: Match)
    ensures var r := FirstRoom(asked);
      && SeatsExact(r) && r.nextId == RoomNumber(1) && r.matches.Keys == {1} && r.userToMatch == map[1 := 1]
      && InProgress(r, 1)
  {
    hide SeatsExact; hide Create; hide StartAll;
    FirstCreate(asked);
    FirstHost(asked);
    var r := Create(NO_ROOMS, 1, asked);
    ExactIsSeated(r);
    SeatsAfterStart(r, 1, 1, 0);
    StartedRuns(r.matches[1], 1);
  }

  lemma FirstHost(asked: Match)
    ensures 1 in Create(NO_ROOMS, 1, asked).matches && Create(NO_ROOMS, 1, asked).matches[1].host == 1
  {
  }

  lemma AnotherCreate(r: Rooms, k: nat, asked: Match)
    requires k < 65534 && SeatsExact(r) && r.nextId == RoomNumber(k + 1) && r.matches.Keys == {1, RoomNumber(k)}
    requires r.userToMatch == if k == 0 then map[1 := 1] else map[1 := 1, 2 := RoomNumber(k)]
    ensures var r' := Create(r, 2, asked);
      && SeatsExact(r') && r'.nextId == RoomNumber(k + 2) && r'.matches.Keys == {1, RoomNumber(k + 1)}
      && r'.userToMatch == map[1 := 1, 2 := RoomNumber(k + 1)]
  {
    hide SeatsExact; hide OpenRoom; hide RemoveUser; hide SeatInv; hide RoomNumber; hide NextId;
    LeavingAlone(r, k);
    var r1 := RemoveUser(r, 2).0;
    ExactIsSeated(r);
    RemoveUserKeepsSeats(r, 2);
    SmallNumbers(k);
    OpenKeepsSeats(r1, 2, asked);
    OpenEffect(r1, 2, asked);
    NumbersCycle(k + 1);
  }

  lemma SmallNumbers(k: nat)
    requires k < 65534
    ensures RoomNumber(k + 1) == k + 2
  {
  }

  lemma OpenEffect(r: Rooms, user: i32, asked: Match)
    ensures var r' := OpenRoom(r, user, asked);
      && r'.nextId == NextId(r.nextId) && r'.matches.Keys == r.matches.Keys + {r.nextId}
      && r'.userToMatch == r.userToMatch[user as int := r.nextId]
  {
  }

  lemma NobodyElse(r: Rooms, id: u16, user: int)
    requires SeatsExact(r) && id in r.matches
    requires forall u :: u in r.userToMatch && r.userToMatch[u] == id ==> u == user
    ensures Occupants(r.matches[id].slots) - {user} == {}
  {
    hide RoomOk;
    forall u | u in Occupants(r.matches[id].slots) ensures u == user {
      assert u in People(r)[id];
      assert r.userToMatch[u] == id;
    }
  }

  // User 2 is alone in room k, so the room goes with them.
  lemma LeavingAlone(r: Rooms, k: nat)
    requires k <= 65534 && SeatsExact(r) && r.matches.Keys == {1, RoomNumber(k)}
    requires r.userToMatch == if k == 0 then map[1 := 1] else map[1 := 1, 2 := RoomNumber(k)]
    ensures var r1 := RemoveUser(r, 2).0;
      r1.matches.Keys == {1} && r1.userToMatch == map[1 := 1] && r1.nextId == r.nextId && 2 !in r1.userToMatch
  {
    hide RoomOk; hide RemoveUser; hide Vacate; hide SeatsExact; hide Occupants;
    RemovalShrinks(r, 2);
    if k == 0 {
      NoRoomToLeave(r, 2);
    } else {
      LoneRoomGoes(r, k + 1);
    }
  }

  lemma LoneRoomGoes(r: Rooms, id: u16)
    requires SeatsExact(r) && r.matches.Keys == {1, id} && id > 1
    requires r.userToMatch == map[1 := 1, 2 := id]
    ensures var r1 := RemoveUser(r, 2).0;
      r1.matches.Keys == {1} && r1.userToMatch == map[1 := 1]
  {
    hide RoomOk; hide RemoveUser; hide Vacate; hide SeatsExact; hide Occupants;
    ExactIsSeated(r);
    ExactSeat(r, 2);
    RemoveUserEffect(r, 2);
    NobodyElse(r, id, 2);
  }

  lemma NextCreate(k: nat, asked: Match)
    ensures AfterCreates(k + 1, asked) == OpenRoom(RemoveUser(AfterCreates(k, asked), 2).0, 2, asked)
  {
  }

  // The 65536th create takes number 1 again although room 1 is still open.
  lemma TablesAfterTheWrap(asked: Match)
    ensures var r := AfterCreates(65535, asked);
      && !SeatsExact(r) && 1 in r.userToMatch && r.userToMatch[1] == 1
      && 1 in r.matches && Occupants(r.matches[1].slots) == {2}
  {
    hide SeatsExact; hide SeatInv; hide RemoveUser; hide OpenRoom; hide Occupants; hide AfterCreates;
    var k := 65534;
    BeforeTheWrap(k, asked);
    var r := AfterCreates(k, asked);
    LeavingAlone(r, k);
    var r1 := RemoveUser(r, 2).0;
    ExactIsSeated(r);
    RemoveUserKeepsSeats(r, 2);
    OpenKeepsSeats(r1, 2, asked);
    OpenedRoom(r1, asked);
    NextCreate(k, asked);
  }

  lemma OpenedRoom(r: Rooms, asked: Match)
    requires r.nextId == 1 && r.userToMatch == map[1 := 1]
    ensures var r' := OpenRoom(r, 2, asked);
      1 in r'.userToMatch && r'.userToMatch[1] == 1 && 1 in r'.matches && Occupants(r'.matches[1].slots) == {2}
  {
    hide NewRoom; hide Occupants;
    CreatorOccupies(1, 2, asked);
  }

  lemma ExactSeat(r: Rooms, user: int)
    requires SeatsExact(r) && user in r.userToMatch
    ensures r.userToMatch[user] in r.matches && user in Occupants(r.matches[r.userToMatch[user]].slots)
  {
  }

  lemma ExactIsSeated(r: Rooms)
    requires SeatsExact(r)
    ensures SeatInv(r)
  {
  }

  // ---------- the run that gets there ----------

  const NOTHING := Packet.Other(0, [])

  // Users 1 and 2 have logged in; then user 1 creates a room, and user 2 k rooms.
  function LoggedIn(): View {
    DoLogin(DoLogin(START, 1, [1], [], NOTHING, NOTHING), 2, [2], [], NOTHING, NOTHING)
  }

  // User 1 creates a room and starts a round in it.
  function FirstView(asked: Match): View {
    DoArm(DoCreate(LoggedIn(), 1, asked), 1, StartRound(0), [])
  }

  function WrapView(k: nat, asked: Match): View {
    if k == 0 then FirstView(asked) else DoCreate(WrapView(k - 1, asked), 2, asked)
  }

  lemma LoginEffect(v: View, user: i32, token: Token)
    requires user !in v.net.tokens
    ensures var v' := DoLogin(v, user, token, [], NOTHING, NOTHING);
      v'.net.tokens == v.net.tokens[user := token] && v'.net.sessions.Keys == v.net.sessions.Keys + {token} &&
        v'.rooms == v.rooms
  {
  }

  lemma BothLoggedIn()
    ensures var v := DoLogin(START, 1, [1], [], NOTHING, NOTHING);
      && Step(START, Login(1, [1], [], NOTHING, NOTHING), v)
      && Step(v, Login(2, [2], [], NOTHING, NOTHING), LoggedIn())
    ensures Inv(LoggedIn()) && 1 in LoggedIn().net.tokens && 2 in LoggedIn().net.tokens && LoggedIn().rooms == NO_ROOMS
  {
    hide DoLogin; hide Inv;
    StartIsSafe();
    LoginEffect(START, 1, [1]);
    LoginKeeps(START, 1, [1], [], NOTHING, NOTHING);
    var v := DoLogin(START, 1, [1], [], NOTHING, NOTHING);
    LoginEffect(v, 2, [2]);
    LoginKeeps(v, 2, [2], [], NOTHING, NOTHING);
  }

  lemma CreateIsStep(v: View, user: i32, asked: Match)
    requires Inv(v) && user in v.net.tokens
    ensures Step(v, From(user, CreateRoom(asked)), DoCreate(v, user, asked))
    ensures Inv(DoCreate(v, user, asked)) && DoCreate(v, user, asked).net.tokens == v.net.tokens
    ensures DoCreate(v, user, asked).rooms == Create(v.rooms, user, asked)
  {
    hide Inv; hide DoCreate; hide GoodOrder;
    CreateKeeps(v, user, asked);
    CreateTables(v, user, asked);
    var order := AnyOrder(v.rooms);
    ListsOpenRooms(v.rooms, order);
    assert DoArm(v, user, CreateRoom(asked), order) == DoCreate(v, user, asked);
  }

  lemma CreateTables(v: View, user: i32, asked: Match)
    ensures DoCreate(v, user, asked).rooms == Create(v.rooms, user, asked)
  {
    hide RemoveUser; hide OpenRoom;
    LeaveRooms(v, user);
  }

  ghost predicate Reaches(views: seq<View>, acts: seq<Action>, v: View, creates: nat) {
    Run(views, acts) && views[|acts|] == v && Creates(acts) == creates
  }

  // Some run with this many creates ends in v.
  ghost predicate Reachable(v: View, creates: nat) {
    exists views, acts :: Reaches(views, acts, v, creates)
  }

  lemma RunGrows(views: seq<View>, acts: seq<Action>, v: View, creates: nat, a: Action, v': View)
    requires Reaches(views, acts, v, creates) && Step(v, a, v')
    ensures Reaches(views + [v'], acts + [a], v', creates + if a.From? && a.arm.CreateRoom? then 1 else 0)
    ensures Reachable(v', creates + if a.From? && a.arm.CreateRoom? then 1 else 0)
  {
    hide Step;
    assert (acts + [a])[..|acts|] == acts;
    forall i | 0 <= i < |acts| + 1 ensures Step((views + [v'])[i], (acts + [a])[i], (views + [v'])[i + 1]) {
      if i < |acts| { assert Step(views[i], acts[i], views[i + 1]); }
    }
  }

  // Arms that list no rooms are steps whatever the order of the rooms.
  lemma ArmIsStep(v: View, user: i32, arm: Arm)
    requires Inv(v) && user in v.net.tokens && !arm.LobbyJoin?
    ensures Step(v, From(user, arm), DoArm(v, user, arm, []))
    ensures Inv(DoArm(v, user, arm, [])) && DoArm(v, user, arm, []).net.tokens == v.net.tokens
  {
    hide Inv; hide GoodOrder; hide DoArm;
    ArmKeeps(v, user, arm, []);
    var order := AnyOrder(v.rooms);
    ListsOpenRooms(v.rooms, order);
    OrderIsIdle(v, user, arm, order);
  }

  lemma OrderIsIdle(v: View, user: i32, arm: Arm, order: seq<u16>)
    requires !arm.LobbyJoin? && forall id :: id in order ==> id in v.rooms.matches
    ensures DoArm(v, user, arm, order) == DoArm(v, user, arm, [])
  {
    hide DoCreate; hide DoJoin; hide DoPart; hide DoStartSpectating; hide DoStopSpectating; hide Chatter;
    hide InRoom;
  }

  lemma FirstViewTables(v: View, asked: Match)
    requires v.rooms == Create(NO_ROOMS, 1, asked)
    ensures DoArm(v, 1, StartRound(0), []).rooms == FirstRoom(asked)
  {
    hide Create; hide SeatsExact; hide Post; hide Started; hide Occupants; hide PlayingUsers;
    FirstCreate(asked);
    FirstHost(asked);
    HostStarts(v.rooms.matches[1]);
    assert RoomOf(v.rooms, 1) == Some(1);
  }

  lemma HostStarts(m: Match)
    requires m.host == 1
    ensures Started(m, 1).Some?
  {
  }

  lemma {:induction false} WrapRun(k: nat, asked: Match)
    ensures Inv(WrapView(k, asked)) && 1 in WrapView(k, asked).net.tokens && 2 in WrapView(k, asked).net.tokens
    ensures WrapView(k, asked).rooms == AfterCreates(k, asked)
    ensures Reachable(WrapView(k, asked), k + 1)
  {
    hide Inv; hide Step; hide DoCreate; hide Create; hide Reaches; hide LoggedIn; hide DoArm; hide FirstRoom;
    if k == 0 {
      var views, acts := LoginRun();
      BothLoggedIn();
      var v := DoCreate(LoggedIn(), 1, asked);
      CreateIsStep(LoggedIn(), 1, asked);
      RunGrows(views, acts, LoggedIn(), 0, From(1, CreateRoom(asked)), v);
      views, acts := views + [v], acts + [From(1, CreateRoom(asked))];
      ArmIsStep(v, 1, StartRound(0));
      RunGrows(views, acts, v, 1, From(1, StartRound(0)), WrapView(0, asked));
      FirstViewTables(v, asked);
    } else {
      WrapRun(k - 1, asked);
      var views, acts :| Reaches(views, acts, WrapView(k - 1, asked), k);
      CreateIsStep(WrapView(k - 1, asked), 2, asked);
      RunGrows(views, acts, WrapView(k - 1, asked), k, From(2, CreateRoom(asked)), WrapView(k, asked));
    }
  }

  // The round in room 1 goes on while user 2 creates other rooms.
  lemma {:induction false} RoundGoesOn(k: nat, asked: Match)
    requires k <= 65534
    ensures InProgress(WrapView(k, asked).rooms, 1)
  {
    hide Inv; hide AfterCreates; hide SeatsExact; hide DoCreate; hide Create; hide FirstRoom; hide FirstView;
    hide WrapView; hide Reachable; hide InProgress; hide RemoveUser; hide OpenRoom;
    WrapRun(k, asked);
    if k == 0 {
      FirstRound(asked);
      assert AfterCreates(0, asked) == FirstRoom(asked) by { AfterNone(asked); }
    } else {
      RoundGoesOn(k - 1, asked);
      WrapRun(k - 1, asked);
      BeforeTheWrap(k - 1, asked);
      NextCreate(k - 1, asked);
      SmallNumbers(k - 1);
      OthersKeepRound(WrapView(k - 1, asked), asked);
    }
  }

  lemma AfterNone(asked: Match)
    ensures AfterCreates(0, asked) == FirstRoom(asked)
  {
  }

  lemma OthersKeepRound(v: View, asked: Match)
    requires Inv(v) && SeatsExact(v.rooms) && InProgress(v.rooms, 1) && v.rooms.nextId != 1
    requires 2 in v.rooms.userToMatch ==> v.rooms.userToMatch[2] != 1
    ensures InProgress(OpenRoom(RemoveUser(v.rooms, 2).0, 2, asked), 1)
  {
    hide NetInv; hide SeatInv; hide RoundInv; hide HistoryInv; hide NumberInv; hide RemoveUser; hide AloneIn;
    TablesLeft(v.rooms, 2, 1);
    AloneIsMapped(v.rooms, 2, 1);
    RemovalShrinks(v.rooms, 2);
  }

  lemma LoginRun() returns (views: seq<View>, acts: seq<Action>)
    ensures Reaches(views, acts, LoggedIn(), 0)
  {
    hide Step; hide Inv; hide LoggedIn; hide DoLogin; hide Reaches;
    BothLoggedIn();
    var v := DoLogin(START, 1, [1], [], NOTHING, NOTHING);
    assert Reaches([START], [], START, 0) by { JustStarted(); }
    RunGrows([START], [], START, 0, Login(1, [1], [], NOTHING, NOTHING), v);
    views, acts := [START] + [v], [] + [Login(1, [1], [], NOTHING, NOTHING)];
    RunGrows(views, acts, v, 0, Login(2, [2], [], NOTHING, NOTHING), LoggedIn());
    views, acts := views + [LoggedIn()], acts + [Login(2, [2], [], NOTHING, NOTHING)];
  }

  lemma JustStarted()
    ensures Reaches([START], [], START, 0)
  {
  }

  // There is a run whose 65536th create takes the number of a room still open and in progress: its player
  // is left mapped to a room that does not hold them, and its start time stays with a room that has not
  // started.
  lemma CounterWrapStrandsAPlayer(asked: Match)
    ensures Reachable(WrapView(65535, asked), 65536)
    ensures var r := WrapView(65535, asked).rooms;
      && !SeatsExact(r) && 1 in r.userToMatch && r.userToMatch[1] == 1
      && 1 in r.matches && Occupants(r.matches[1].slots) == {2}
    ensures !ClockExact(WrapView(65535, asked).rooms)
  {
    hide Reachable; hide SeatsExact; hide Inv; hide Occupants; hide WrapView; hide AfterCreates; hide ClockExact;
    WrapRun(65535, asked);
    TablesAfterTheWrap(asked);
    StaleAfterTheWrap(asked);
  }

  lemma StaleAfterTheWrap(asked: Match)
    ensures !ClockExact(WrapView(65535, asked).rooms)
  {
    hide Inv; hide SeatsExact; hide ClockExact; hide Step; hide DoCreate; hide AfterCreates; hide IsStale;
    hide FirstView; hide LoadsExact;
    var (v, v') := (WrapView(65534, asked), WrapView(65535, asked));
    WrapRun(65534, asked);
    BeforeTheWrap(65534, asked);
    RoundGoesOn(65534, asked);
    CreateIsStep(v, 2, asked);
    assert v' == DoCreate(v, 2, asked);
    var a := From(2, CreateRoom(asked));
    SitsElsewhere(v.rooms);
    StepTables(v, a, v');
    assert IsStale(v'.rooms, 1);
    InvParts(v');
    WhatExactMeans(v'.rooms);
  }

  lemma SitsElsewhere(r: Rooms)
    requires SeatsExact(r) && 1 in r.userToMatch && r.userToMatch[1] == 1
    ensures !AloneIn(r, 2, 1)
  {
    hide RoomOk; hide Occupants;
    ExactSeat(r, 1);
  }

  lemma InvParts(v: View)
    requires Inv(v)
    ensures SeatInv(v.rooms) && RoundInv(v.rooms)
  {
  }

  // After the wrap user 2 leaves room 1, which goes, and user 1 reports a load: it is noted for a room that
  // is gone.
  function StrayView(asked: Match): View {
    DoArm(DoArm(WrapView(65535, asked), 2, PartRoom, []), 1, Arm.LoadComplete, [])
  }

  lemma CounterWrapStraysALoad(asked: Match)
    ensures Reachable(StrayView(asked), 65536) && !LoadsExact(StrayView(asked).rooms)
  {
    hide SeatsExact; hide Inv; hide Occupants; hide WrapView; hide ClockExact; hide DoArm; hide Step; hide Reaches;
    hide LoadsExact; hide IsStray;
    var v := WrapView(65535, asked);
    var v1 := DoArm(v, 2, PartRoom, []);
    WrapRun(65535, asked);
    CounterWrapStrandsAPlayer(asked);
    var views, acts :| Reaches(views, acts, v, 65536);
    ArmIsStep(v, 2, PartRoom);
    RunGrows(views, acts, v, 65536, From(2, PartRoom), v1);
    ArmIsStep(v1, 1, Arm.LoadComplete);
    RunGrows(views + [v1], acts + [From(2, PartRoom)], v1, 65536, From(1, Arm.LoadComplete), StrayView(asked));
    RoomOneGoes(v);
    StepTables(v1, From(1, Arm.LoadComplete), StrayView(asked));
    assert IsStray(StrayView(asked).rooms, 1);
    InvParts(StrayView(asked));
    WhatExactMeans(StrayView(asked).rooms);
  }

  lemma RoomOneGoes(v: View)
    requires Inv(v) && 1 in v.rooms.userToMatch && v.rooms.userToMatch[1] == 1
    requires 1 in v.rooms.matches && Occupants(v.rooms.matches[1].slots) == {2}
    ensures Strays(DoArm(v, 2, PartRoom, []), From(1, Arm.LoadComplete), 1)
  {
    hide NetInv; hide SeatInv; hide RoundInv; hide HistoryInv; hide NumberInv; hide RemoveUser; hide Farewell;
    hide Occupants; hide Post;
    TablesLeft(v.rooms, 2, 1);
    AloneIsMapped(v.rooms, 2, 1);
    RemovalShrinks(v.rooms, 2);
    LeftRoom(v.rooms, 2);
  }

  // A departure reports the room of the user's own number.
  lemma LeftRoom(r: Rooms, user: int)
    ensures RemoveUser(r, user).1.Some? ==>
      user in r.userToMatch && RemoveUser(r, user).1.value.id == r.userToMatch[user]
  {
    hide Vacate; hide FirstUser; hide FirstOccupied;
  }

  // ---------- joining the room one is alone in ----------

  // User 1 creates a room without a password and then joins it.
  function RejoinView(asked: Match): View {
    DoArm(DoCreate(LoggedIn(), 1, asked), 1, JoinRoom(1, []), [])
  }

  // A run in which a user who sits alone in a room joins it: they leave it first, which disbands it, and
  // end up in no room.
  lemma RejoiningLosesTheRoom(asked: Match)
    requires asked.password == None
    ensures Reachable(RejoinView(asked), 1)
    ensures var (r, r') := (DoCreate(LoggedIn(), 1, asked).rooms, RejoinView(asked).rooms);
      && AloneIn(r, 1, 1) && CanJoin(r, 1, []) && r'.matches.Keys == {} && r'.userToMatch.Keys == {}
  {
    hide DoCreate; hide Create; hide DoArm; hide Reaches; hide LoggedIn; hide Inv; hide Step; hide AloneIn;
    hide CanJoin; hide Join;
    var views, acts := LoginRun();
    BothLoggedIn();
    var v := DoCreate(LoggedIn(), 1, asked);
    CreateIsStep(LoggedIn(), 1, asked);
    RunGrows(views, acts, LoggedIn(), 0, From(1, CreateRoom(asked)), v);
    ArmIsStep(v, 1, JoinRoom(1, []));
    RunGrows(views + [v], acts + [From(1, CreateRoom(asked))], v, 1, From(1, JoinRoom(1, [])), RejoinView(asked));
    MovingRooms(v, 1, JoinRoom(1, []), []);
    JoinOfOwnRoom(asked);
  }

  lemma JoinOfOwnRoom(asked: Match)
    requires asked.password == None
    ensures var r := Create(NO_ROOMS, 1, asked);
      && AloneIn(r, 1, 1) && CanJoin(r, 1, [])
      && Join(r, 1, 1, []).matches.Keys == {} && Join(r, 1, 1, []).userToMatch.Keys == {}
  {
    hide SeatsExact; hide RemoveUser; hide OpenRoom; hide RoomOk; hide Occupants; hide Create; hide FirstStatus;
    FirstCreate(asked);
    var r := Create(NO_ROOMS, 1, asked);
    CreatorsRoom(asked);
    ExactIsSeated(r);
    RemoveUserEffect(r, 1);
  }

  lemma CreatorsRoom(asked: Match)
    requires asked.password == None
    ensures var r := Create(NO_ROOMS, 1, asked);
      1 in r.matches && Occupants(r.matches[1].slots) == {1} && CanJoin(r, 1, [])
  {
    hide Occupants;
    CreatorOccupies(1, 1, asked);
    assert NewRoom(1, 1, asked).slots[1] == EMPTY_SLOT;
  }
}
