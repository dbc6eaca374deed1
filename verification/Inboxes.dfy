/** Who is sent what: for each packet a client sends, the packets that every single session finds added to
    its queue, in their order. */
module Inboxes {
  import opened Wrappers
  import opened BanchoTypes
  import opened Rooms
  import opened Rounds
  import opened RoomSafety
  import opened Network
  import opened Server
  import opened ServerSafety
  import opened RoundLife
  import opened RoomEffects
  import opened RoomMoves

  // The session with token t is still there, and its queue has grown by these packets.
  predicate Gets(net: Net, net': Net, t: Token, ps: seq<Packet>) {
    && t in net.sessions && t in net'.sessions && net'.sessions[t].user == net.sessions[t].user
    && net'.sessions[t].queue == net.sessions[t].queue + ps
  }

  function When(yes: bool, p: Packet): seq<Packet> {
    if yes then [p] else []
  }

  lemma PostGets(net0: Net, net: Net, who: set<int>, p: Packet, t: Token, ps: seq<Packet>)
    requires Gets(net0, net, t, ps)
    ensures Gets(net0, Post(net, who, p), t, ps + When(net0.sessions[t].user in who, p))
    ensures Post(net, who, p).lobby == net.lobby && Post(net, who, p).channels == net.channels
    ensures Post(net, who, p).tokens == net.tokens
  {
  }

  lemma NothingGot(net: Net, t: Token)
    requires t in net.sessions
    ensures Gets(net, net, t, [])
  {
    assert net.sessions[t].queue + [] == net.sessions[t].queue;
  }

  lemma EnrolGets(net0: Net, net: Net, user: i32, c: bytes, t: Token, ps: seq<Packet>)
    requires Gets(net0, net, t, ps)
    ensures Gets(net0, Enrol(net, user, c), t, ps) && Gets(net0, Withdraw(net, user, c), t, ps)
    ensures Enrol(net, user, c).lobby == net.lobby
  {
  }

  lemma {:induction false} PostEachGets(net0: Net, net: Net, user: int, list: seq<Packet>, t: Token, ps: seq<Packet>)
    requires Gets(net0, net, t, ps)
    ensures Gets(net0, PostEach(net, user, list), t, ps + if net0.sessions[t].user == user then list else [])
  {
    hide Gets; hide Post;
    StillThere(net0, net, t, ps);
    if list != [] {
      var front := list[..|list| - 1];
      PostEachGets(net0, net, user, front, t, ps);
      PostGets(net0, PostEach(net, user, front), {user}, list[|list| - 1], t,
               ps + if net0.sessions[t].user == user then front else []);
      assert list == front + [list[|list| - 1]];
      Joined3(ps, front, [list[|list| - 1]]);
    }
    assert ps + [] == ps;
  }

  lemma Joined3(a: seq<Packet>, b: seq<Packet>, c: seq<Packet>)
    ensures a + b + c == a + (b + c)
  {
  }

  // u is a user of the room, by name of a slot.
  predicate In(m: Match, u: int) {
    exists i :: 0 <= i < 16 && HasPlayer(m.slots[i].status) && m.slots[i].user > 0 && m.slots[i].user == u
  }

  lemma InIsOccupant(m: Match, u: int)
    ensures In(m, u) <==> u in Occupants(m.slots)
  {
  }

  // ---------- inside a room ----------

  // The room is shown to its people, and perhaps to the lobby.
  function Shown(m: Match, lobby: set<i32>, lobbyToo: bool, u: i32): seq<Packet> {
    When(In(m, u), Packet.MatchUpdate(m)) + When(lobbyToo && u in lobby, Packet.MatchUpdate(m))
  }

  lemma ShowGets(v: View, id: u16, m: Match, lobbyToo: bool, t: Token)
    requires t in v.net.sessions
    ensures Gets(v.net, Show(v, id, m, lobbyToo).net, t, Shown(m, v.net.lobby, lobbyToo, v.net.sessions[t].user))
  {
    hide Post; hide Occupants; hide In; hide Gets;
    InIsOccupant(m, v.net.sessions[t].user);
    NothingGot(v.net, t);
    PostGets(v.net, v.net, Occupants(m.slots), Packet.MatchUpdate(m), t, []);
    var net := Post(v.net, Occupants(m.slots), Packet.MatchUpdate(m));
    PostGets(v.net, net, net.lobby, Packet.MatchUpdate(m), t,
      [] + When(In(m, v.net.sessions[t].user), Packet.MatchUpdate(m)));
    assert [] + When(In(m, v.net.sessions[t].user), Packet.MatchUpdate(m)) ==
           When(In(m, v.net.sessions[t].user), Packet.MatchUpdate(m));
    assert When(In(m, v.net.sessions[t].user), Packet.MatchUpdate(m)) + [] ==
           When(In(m, v.net.sessions[t].user), Packet.MatchUpdate(m));
  }

  // Whom a change inside a room is shown to: its people, and the lobby for what the lobby lists.
  predicate LobbyToo(arm: Arm) {
    arm.ChangeSlot? || arm.SetReady? || arm.SetNotReady? || arm.Lock? || arm.ChangeSettings?
  }

  predicate ShowingArm(arm: Arm) {
    LobbyToo(arm) || arm.NoBeatmap? || arm.HasBeatmap? || arm.ChangeMods?
  }

  // Room id becomes m and is shown.
  ghost predicate ShownAs(v: View, v': View, id: u16, m: Match, lobbyToo: bool, t: Token) {
    && OnlyRoom(v.rooms, v'.rooms, id, m) && t in v.net.sessions
    && Gets(v.net, v'.net, t, Shown(m, v.net.lobby, lobbyToo, v.net.sessions[t].user))
  }

  // What a showing packet makes of the room, or None.
  function ChangedBy(m: Match, user: i32, arm: Arm): Option<Match>
    requires ShowingArm(arm)
  {
    match arm
    case ChangeSlot(target) => MovedTo(m, user, target)
    case SetReady => WithOwnStatus(m, user, SLOT_READY)
    case NoBeatmap => WithOwnStatus(m, user, SLOT_NO_MAP)
    case Lock(target) => WithLock(m, user, target)
    case ChangeSettings(asked) => WithSettings(m, user, asked)
    case ChangeMods(mods) => WithMods(m, user, mods)
    case _ => WithOwnStatus(m, user, SLOT_NOT_READY)
  }

  lemma InRoomShows(v: View, user: i32, id: u16, arm: Arm)
    requires id in v.rooms.matches && ShowingArm(arm)
    ensures InRoom(v, user, id, arm) == ShowIf(v, id, ChangedBy(v.rooms.matches[id], user, arm), LobbyToo(arm))
  {
    hide ShowIf; hide MovedTo; hide WithOwnStatus; hide WithLock; hide WithSettings; hide WithMods;
  }

  // Every packet that changes a room this way sends its new state to each of its people and, as the case
  // may be, to each lobby subscriber, once, and nothing to anyone else; or it changes nothing at all.
  lemma ShowingInbox(v: View, user: i32, arm: Arm, v': View, t: Token)
    requires Inv(v) && Step(v, From(user, arm), v') && ShowingArm(arm) && t in v.net.sessions
    ensures v' == v || exists id, m :: RoomOf(v.rooms, user) == Some(id) && ShownAs(v, v', id, m, LobbyToo(arm), t)
  {
    hide Inv; hide Step; hide Show; hide ChangedBy; hide InRoom; hide Gets; hide Shown; hide RoomOf;
    InsideStep(v, user, arm, v');
    if RoomOf(v.rooms, user).Some? {
      var id := RoomOf(v.rooms, user).value;
      RoomOfIsOpen(v.rooms, user);
      InRoomShows(v, user, id, arm);
      var m' := ChangedBy(v.rooms.matches[id], user, arm);
      if m'.Some? {
        ShowGets(v, id, m'.value, LobbyToo(arm), t);
        ShownRoom(v, id, m'.value, LobbyToo(arm));
        assert ShownAs(v, v', id, m'.value, LobbyToo(arm), t);
      }
    }
  }

  lemma RoomOfIsOpen(r: Rooms, user: int)
    ensures RoomOf(r, user).Some? ==> RoomOf(r, user).value in r.matches
  {
  }

  lemma ShownRoom(v: View, id: u16, m: Match, lobbyToo: bool)
    ensures OnlyRoom(v.rooms, Show(v, id, m, lobbyToo).rooms, id, m)
  {
  }

  // MATCH_CHANGE_HOST: the new host is told, then the room is shown to its people and the lobby.
  lemma HostInbox(v: View, user: i32, id: u16, i: nat, target: i32, v': View, t: Token)
    requires Inv(v) && Step(v, From(user, Arm.ChangeHost(target)), v') && SeatAt(v.rooms, user, id, i)
    requires t in v.net.sessions && v' != v
    ensures id in v'.rooms.matches
    ensures var (u, m) := (v.net.sessions[t].user, v'.rooms.matches[id]);
      Gets(v.net, v'.net, t, When(u == m.host, Packet.MatchTransferHost) + Shown(m, v.net.lobby, true, u))
  {
    hide Inv; hide Step; hide Post; hide Occupants; hide Occupied; hide RoomOk; hide FirstUser; hide Gets; hide In;
    hide Shown;
    SeatFacts(v, user, id, i);
    InsideStep(v, user, Arm.ChangeHost(target), v');
    var m' := WithHost(v.rooms.matches[id], user, target).value;
    var u := v.net.sessions[t].user;
    NothingGot(v.net, t);
    PostGets(v.net, v.net, {m'.host as int}, Packet.MatchTransferHost, t, []);
    var w := v.(net := Post(v.net, {m'.host as int}, Packet.MatchTransferHost));
    StillThere(v.net, w.net, t, [] + When(u == m'.host, Packet.MatchTransferHost));
    ShowGets(w, id, m', true, t);
    GetsTrans(v.net, w.net, v'.net, t, [] + When(u == m'.host, Packet.MatchTransferHost),
              Shown(m', v.net.lobby, true, u));
    assert [] + When(u == m'.host, Packet.MatchTransferHost) == When(u == m'.host, Packet.MatchTransferHost);
  }

  lemma StillThere(net: Net, net': Net, t: Token, ps: seq<Packet>)
    requires Gets(net, net', t, ps)
    ensures t in net.sessions && t in net'.sessions && net'.sessions[t].user == net.sessions[t].user
  {
  }

  lemma GetsTrans(net: Net, net1: Net, net2: Net, t: Token, ps: seq<Packet>, qs: seq<Packet>)
    requires Gets(net, net1, t, ps) && Gets(net1, net2, t, qs)
    ensures Gets(net, net2, t, ps + qs)
  {
  }

  // MATCH_START by the host: the people of the room are sent it as started, the lobby as changed.
  lemma StartInbox(v: View, user: i32, id: u16, i: nat, now: int, v': View, t: Token)
    requires Inv(v) && Step(v, From(user, StartRound(now)), v') && SeatAt(v.rooms, user, id, i)
    requires t in v.net.sessions && v.rooms.matches[id].host == user
    ensures id in v'.rooms.matches
    ensures var (u, m) := (v.net.sessions[t].user, v'.rooms.matches[id]);
      Gets(v.net, v'.net, t, When(In(m, u), Packet.MatchStart(m)) + When(u in v.net.lobby, Packet.MatchUpdate(m)))
  {
    hide Inv; hide Step; hide Post; hide Occupants; hide Occupied; hide RoomOk; hide FirstUser; hide Gets; hide In;
    hide StartAll;
    SeatFacts(v, user, id, i);
    InsideStep(v, user, StartRound(now), v');
    var (m, u) := (Started(v.rooms.matches[id], user).value, v.net.sessions[t].user);
    InIsOccupant(m, u);
    NothingGot(v.net, t);
    PostGets(v.net, v.net, Occupants(m.slots), Packet.MatchStart(m), t, []);
    var net := Post(v.net, Occupants(m.slots), Packet.MatchStart(m));
    assert [] + When(In(m, u), Packet.MatchStart(m)) == When(In(m, u), Packet.MatchStart(m));
    PostGets(v.net, net, net.lobby, Packet.MatchUpdate(m), t, When(In(m, u), Packet.MatchStart(m)));
  }

  // LOAD_COMPLETE: the people of the room are told when the sender was the last one missing; the load is
  // noted and nothing else changes.
  lemma LoadInbox(v: View, user: i32, id: u16, v': View, t: Token)
    requires Inv(v) && Step(v, From(user, Arm.LoadComplete), v') && RoomOf(v.rooms, user) == Some(id)
    requires t in v.net.sessions
    ensures var (u, m) := (v.net.sessions[t].user, v.rooms.matches[id]);
      var tr := v.trace + [Loaded(id, user)];
      var ready := forall x :: x in PlayingUsers(m.slots) ==> LoadedSinceStart(tr, id, x);
      Gets(v.net, v'.net, t, When(ready && In(m, u), Packet.MatchAllPlayersLoaded))
    ensures v'.rooms == v.rooms.(loaded := v.rooms.loaded[id := LoadedOf(v.rooms, id) + {user as int}])
  {
    hide Inv; hide Step; hide Post; hide Occupants; hide Occupied; hide RoomOk; hide FirstUser; hide Gets; hide In;
    hide PlayingUsers; hide LoadedSinceStart;
    RoomOfIsOpen(v.rooms, user);
    InsideStep(v, user, Arm.LoadComplete, v');
    LoadAnnounced(v, user, id);
    var (m, u) := (v.rooms.matches[id], v.net.sessions[t].user);
    InIsOccupant(m, u);
    NothingGot(v.net, t);
    PostGets(v.net, v.net, Occupants(m.slots), Packet.MatchAllPlayersLoaded, t, []);
    assert [] + When(In(m, u), Packet.MatchAllPlayersLoaded) == When(In(m, u), Packet.MatchAllPlayersLoaded);
  }

  // A LOAD_COMPLETE from somebody mapped to a room that is gone is noted and told to nobody; from somebody
  // mapped nowhere it does nothing.
  lemma StrayLoadInbox(v: View, user: i32, v': View)
    requires Step(v, From(user, Arm.LoadComplete), v') && RoomOf(v.rooms, user) == None
    ensures v'.net == v.net && v'.watch == v.watch
    ensures v'.rooms ==
      if user !in v.rooms.userToMatch then v.rooms else
      var id := v.rooms.userToMatch[user];
      var before: set<int> := if id in v.rooms.loaded then v.rooms.loaded[id] else {};
      v.rooms.(loaded := v.rooms.loaded[id := before + {user as int}])
  {
    hide Step;
    InsideStep(v, user, Arm.LoadComplete, v');
  }

  // SCORE_UPDATE: the people of the room are sent the payload with byte 4 replaced by the sender's slot, and
  // the frame with that slot is kept as the sender's last.
  lemma ScoreInbox(v: View, user: i32, id: u16, i: nat, payload: bytes, frame: Frame, v': View, t: Token)
    requires Inv(v) && Step(v, From(user, ScoreUpdate(payload, frame)), v') && SeatAt(v.rooms, user, id, i)
    requires t in v.net.sessions && |payload| > 4
    ensures var (u, m) := (v.net.sessions[t].user, v.rooms.matches[id]);
      Gets(v.net, v'.net, t, When(In(m, u), Packet.MatchScoreUpdate(payload[4 := i])))
    ensures var kept := ScoresOf(v.rooms, id)[user := frame.(slotId := i)];
      v'.rooms == v.rooms.(lastScores := v.rooms.lastScores[id := kept])
  {
    hide Inv; hide Step; hide Post; hide Occupants; hide Occupied; hide RoomOk; hide FirstUser; hide Gets; hide In;
    SeatFacts(v, user, id, i);
    InsideStep(v, user, ScoreUpdate(payload, frame), v');
    var (m, u) := (v.rooms.matches[id], v.net.sessions[t].user);
    InIsOccupant(m, u);
    NothingGot(v.net, t);
    PostGets(v.net, v.net, Occupants(m.slots), Packet.MatchScoreUpdate(payload[4 := i]), t, []);
    assert [] + When(In(m, u), Packet.MatchScoreUpdate(payload[4 := i])) ==
           When(In(m, u), Packet.MatchScoreUpdate(payload[4 := i]));
  }

  // FAILED and SKIP_REQUEST: the people of the room are told the sender's slot.
  lemma NoticeInbox(v: View, user: i32, id: u16, i: nat, arm: Arm, v': View, t: Token)
    requires Inv(v) && Step(v, From(user, arm), v') && SeatAt(v.rooms, user, id, i)
    requires t in v.net.sessions && (arm.Failed? || arm.SkipRequest?)
    ensures var (u, m) := (v.net.sessions[t].user, v.rooms.matches[id]);
      var p := if arm.Failed? then Packet.MatchPlayerFailed(i) else Packet.MatchPlayerSkipped(i);
      Gets(v.net, v'.net, t, When(In(m, u), p)) && v'.rooms == v.rooms
  {
    hide Inv; hide Step; hide Post; hide Occupants; hide Occupied; hide RoomOk; hide FirstUser; hide Gets; hide In;
    SeatFacts(v, user, id, i);
    InsideStep(v, user, arm, v');
    var (m, u) := (v.rooms.matches[id], v.net.sessions[t].user);
    var p := if arm.Failed? then Packet.MatchPlayerFailed(i) else Packet.MatchPlayerSkipped(i);
    InIsOccupant(m, u);
    NothingGot(v.net, t);
    PostGets(v.net, v.net, Occupants(m.slots), p, t, []);
    assert [] + When(In(m, u), p) == When(In(m, u), p);
  }

  // ---------- the end of a round ----------

  // What u is sent when a round closes: the people of the room MATCH_COMPLETE and the room at rest, the lobby
  // the room at rest, and the members of #multiplayer the result, unless nobody has won.
  function Concluded(m: Match, o: Outcome, net: Net, u: i32): seq<Packet> {
    When(In(m, u), Packet.MatchComplete) + When(In(m, u), Packet.MatchUpdate(Closed(m))) +
    When(u in net.lobby, Packet.MatchUpdate(Closed(m))) +
    When((o.teamVs || o.best.name != Known([])) && MULTIPLAYER in net.channels && u in net.channels[MULTIPLAYER],
         Packet.RoundConcluded(o))
  }

  lemma RestedPeople(m: Match)
    requires RoomOk(m)
    ensures Occupants(Closed(m).slots) == Occupants(m.slots)
  {
    hide RoomOk; hide Occupants; hide Closed;
    ClosedOk(m);
  }

  lemma ConcludedGets(v: View, id: u16, t: Token)
    requires id in v.rooms.matches && RoomOk(v.rooms.matches[id]) && t in v.net.sessions
    ensures var m := v.rooms.matches[id];
      var o := Close(m, ScoresOf(v.rooms, id), NamesOf(v.net));
      Gets(v.net, EndRound(v, id).net, t, Concluded(m, o, v.net, v.net.sessions[t].user))
  {
    hide Post; hide Occupants; hide Closed; hide Close; hide In; hide Gets; hide RoomOk; hide NamesOf; hide ScoresOf;
    var (m, u) := (v.rooms.matches[id], v.net.sessions[t].user);
    var o := Close(m, ScoresOf(v.rooms, id), NamesOf(v.net));
    var m' := Closed(m);
    InIsOccupant(m, u);
    RestedPeople(m);
    NothingGot(v.net, t);
    var p1 := When(In(m, u), Packet.MatchComplete);
    var p2 := When(In(m, u), Packet.MatchUpdate(m'));
    var p3 := When(u in v.net.lobby, Packet.MatchUpdate(m'));
    PostGets(v.net, v.net, Occupants(m.slots), Packet.MatchComplete, t, []);
    assert [] + p1 == p1;
    var net1 := Post(v.net, Occupants(m.slots), Packet.MatchComplete);
    PostGets(v.net, net1, Occupants(m'.slots), Packet.MatchUpdate(m'), t, p1);
    var net2 := Post(net1, Occupants(m'.slots), Packet.MatchUpdate(m'));
    PostGets(v.net, net2, net2.lobby, Packet.MatchUpdate(m'), t, p1 + p2);
    var net3 := Post(net2, net2.lobby, Packet.MatchUpdate(m'));
    PostGets(v.net, net3, Members(net3, MULTIPLAYER), Packet.RoundConcluded(o), t, p1 + p2 + p3);
    assert p1 + p2 + p3 + [] == p1 + p2 + p3;
  }

  // A look at the round in room id either finds it over and sends all this, or sends nothing.
  lemma FinishGets(v: View, id: u16, t: Token)
    requires SeatInv(v.rooms) && t in v.net.sessions
    ensures var w := DoFinish(v, id);
      if id in v.rooms.matches && Over(v.rooms.matches[id]) then
        exists o :: w.trace == v.trace + [Ended(id, o)] &&
          Gets(v.net, w.net, t, Concluded(v.rooms.matches[id], o, v.net, v.net.sessions[t].user))
      else w == v
  {
    hide SeatInv; hide Post; hide Close; hide Closed; hide NamesOf; hide ScoresOf; hide Gets; hide Concluded;
    hide ShouldFinish; hide Over; hide RoomOk; hide ResultNet; hide EndRound;
    if id in v.rooms.matches {
      RoomIsOk(v.rooms, id);
      OverIs(v.rooms.matches[id]);
      ConcludedGets(v, id, t);
      EndedTrace(v, id);
    }
  }

  lemma EndedTrace(v: View, id: u16)
    requires id in v.rooms.matches
    ensures EndRound(v, id).trace ==
      v.trace + [Ended(id, Close(v.rooms.matches[id], ScoresOf(v.rooms, id), NamesOf(v.net)))]
  {
    hide Post; hide Close; hide Closed; hide NamesOf; hide ScoresOf; hide ResultNet;
  }

  // With m the room as the sender's packet leaves it: if its round is over it closes, and t finds ps and the
  // news of that added; otherwise ps alone.
  ghost predicate ClosesWith(v: View, v': View, m: Match, t: Token, ps: seq<Packet>) {
    t in v.net.sessions &&
    if Over(m) then exists o :: ClosedAs(v, v', m, o, t, ps)
    else Gets(v.net, v'.net, t, ps)
  }

  ghost predicate ClosedAs(v: View, v': View, m: Match, o: Outcome, t: Token, ps: seq<Packet>) {
    && t in v.net.sessions && v'.trace == v.trace + [Ended(m.id, o)]
    && Gets(v.net, v'.net, t, ps + Concluded(m, o, v.net, v.net.sessions[t].user))
  }

  // COMPLETE is told to nobody but by the close of the round.
  lemma CompleteInbox(v: View, user: i32, id: u16, i: nat, v': View, t: Token)
    requires Inv(v) && Step(v, From(user, CompleteRound), v') && SeatAt(v.rooms, user, id, i) && t in v.net.sessions
    ensures exists m :: ChangedOwn(v.rooms.matches[id], i, CompleteRound, m) && ClosesWith(v, v', m, t, [])
  {
    hide Inv; hide Step; hide Post; hide FirstUser; hide Occupants; hide Occupied; hide RoomOk; hide DoFinish;
    hide SeatInv; hide Gets; hide Concluded; hide Over; hide In;
    Sender(v, user, CompleteRound, v');
    SeatFacts(v, user, id, i);
    InsideStep(v, user, CompleteRound, v');
    InvSeats(v);
    RoomIsOk(v.rooms, id);
    var (m0, u) := (v.rooms.matches[id], v.net.sessions[t].user);
    NothingGot(v.net, t);
    var m := WithOwnStatus(m0, user, SLOT_COMPLETE).value;
    var w := v.(rooms := WithRoom(v.rooms, id, m));
    OwnStatusQuiet(m0, user, SLOT_COMPLETE);
    QuietSeats(v.rooms, id, m);
    FinishGets(w, id, t);
    if Over(m) {
      var o :| v'.trace == v.trace + [Ended(id, o)] && Gets(v.net, v'.net, t, Concluded(m, o, v.net, u));
      assert [] + Concluded(m, o, v.net, u) == Concluded(m, o, v.net, u);
      assert ClosedAs(v, v', m, o, t, []);
    }
    assert ChangedOwn(m0, i, CompleteRound, m) && ClosesWith(v, v', m, t, []);
  }

  // CHANGE_TEAM shows the room to its people, and then the round may close.
  lemma TeamInbox(v: View, user: i32, id: u16, i: nat, v': View, t: Token)
    requires Inv(v) && Step(v, From(user, Arm.ChangeTeam), v') && SeatAt(v.rooms, user, id, i) && t in v.net.sessions
    ensures exists m ::
      ChangedOwn(v.rooms.matches[id], i, Arm.ChangeTeam, m) &&
      ClosesWith(v, v', m, t, When(In(m, v.net.sessions[t].user), Packet.MatchUpdate(m)))
  {
    hide Inv; hide Step; hide Post; hide FirstUser; hide Occupants; hide Occupied; hide RoomOk; hide DoFinish;
    hide SeatInv; hide Gets; hide Concluded; hide Over; hide In;
    SeatFacts(v, user, id, i);
    InsideStep(v, user, Arm.ChangeTeam, v');
    InvSeats(v);
    RoomIsOk(v.rooms, id);
    var (m0, u) := (v.rooms.matches[id], v.net.sessions[t].user);
    var m := WithTeam(m0, user).value;
    var w := Show(v, id, m, false);
    TeamQuiet(m0, user);
    QuietSeats(v.rooms, id, m);
    ShowGets(v, id, m, false, t);
    var ps := When(In(m, u), Packet.MatchUpdate(m));
    assert Shown(m, v.net.lobby, false, u) == ps;
    StillThere(v.net, w.net, t, ps);
    FinishGets(w, id, t);
    if Over(m) {
      var o :| v'.trace == v.trace + [Ended(id, o)] && Gets(w.net, v'.net, t, Concluded(m, o, w.net, u));
      SameAudience(v, id, m, o, u);
      GetsTrans(v.net, w.net, v'.net, t, ps, Concluded(m, o, w.net, u));
      assert ClosedAs(v, v', m, o, t, ps);
    }
    assert ChangedOwn(m0, i, Arm.ChangeTeam, m) && ClosesWith(v, v', m, t, ps);
  }

  lemma SameAudience(v: View, id: u16, m: Match, o: Outcome, u: i32)
    ensures Concluded(m, o, Show(v, id, m, false).net, u) == Concluded(m, o, v.net, u)
  {
    hide In; hide Closed;
  }

  // The sender's slot COMPLETE, or on the other side.
  predicate ChangedOwn(m: Match, i: nat, arm: Arm, m': Match) {
    && i < 16 && m' == m.(slots := m'.slots) && (forall k :: 0 <= k < 16 && k != i ==> m'.slots[k] == m.slots[k])
    && m'.slots[i] == if arm.CompleteRound? then m.slots[i].(status := 64)
                      else m.slots[i].(team := if m.slots[i].team == 1 then 2 else 1)
  }
}
