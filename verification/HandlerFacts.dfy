/** What the packet handlers may rely on about delivery and about the state they start from. */
module HandlerFacts {
  import opened Wrappers
  import opened BanchoTypes
  import opened Rooms
  import opened RoomSafety
  import opened Spectating
  import opened Network
  import opened Server
  import opened ServerSafety

  // ---------- lemmas about delivery ----------

  lemma PostUnion(net: Net, a: set<int>, u: int, p: Packet)
    requires u !in a
    ensures Post(Post(net, a, p), {u}, p) == Post(net, a + {u}, p)
  {
  }

  lemma PostNobody(net: Net, p: Packet)
    ensures Post(net, {}, p) == net
  {
    assert Post(net, {}, p).sessions == net.sessions;
  }

  // Sending to someone offline changes nothing.
  lemma PostOffline(net: Net, u: int, p: Packet)
    requires IndexInv(net) && u !in net.tokens
    ensures Post(net, {u}, p) == net
  {
    assert Post(net, {u}, p).sessions == net.sessions;
  }

  lemma PostOnline(net: Net, u: i32, p: Packet)
    requires IndexInv(net) && u in net.tokens
    ensures var t := net.tokens[u];
      Post(net, {u as int}, p).sessions == net.sessions[t := Push(net.sessions[t], p)]
  {
  }

  lemma PostEachMore(net: Net, user: int, ps: seq<Packet>, n: nat)
    requires n < |ps|
    ensures PostEach(net, user, ps[..n + 1]) == Post(PostEach(net, user, ps[..n]), {user}, ps[n])
  {
    assert ps[..n + 1][..n] == ps[..n];
  }

  lemma EnrolOnline(net: Net, user: i32, channel: bytes)
    requires IndexInv(net) && user in net.tokens
    ensures var t := net.tokens[user];
      Enrol(net, user, channel).sessions ==
        net.sessions[t := net.sessions[t].(channels := net.sessions[t].channels + {channel})]
  {
  }

  lemma WithdrawOnline(net: Net, user: i32, channel: bytes)
    requires IndexInv(net) && user in net.tokens
    ensures var t := net.tokens[user];
      Withdraw(net, user, channel).sessions ==
        net.sessions[t := net.sessions[t].(channels := net.sessions[t].channels - {channel})]
  {
  }

  // The users of the first k occupied slots, without the excepted one.
  function Reached(slots: Slots, k: nat, except: Option<int>): set<int>
    requires k <= 16
  {
    set i | 0 <= i < k && Occupied(slots[i]) && except != Some(slots[i].user as int) :: slots[i].user as int
  }

  lemma ReachedAll(slots: Slots, except: Option<int>)
    ensures Reached(slots, 16, except) == if except.Some? then Occupants(slots) - {except.value} else Occupants(slots)
  {
  }

  lemma ReachedOneMore(slots: Slots, k: nat, except: Option<int>)
    requires k < 16 && Distinct(slots)
    ensures Occupied(slots[k]) && except != Some(slots[k].user as int) ==>
      && slots[k].user as int !in Reached(slots, k, except)
      && Reached(slots, k + 1, except) == Reached(slots, k, except) + {slots[k].user as int}
    ensures !(Occupied(slots[k]) && except != Some(slots[k].user as int)) ==>
      Reached(slots, k + 1, except) == Reached(slots, k, except)
  {
  }

  // ---------- facts the handlers use ----------

  lemma LeaveKeepsTokens(v: View, user: int)
    requires -0x8000_0000 <= user < 0x8000_0000
    ensures Leave(v, user).net.tokens == v.net.tokens
  {
  }

  lemma RemovalRoom(r: Rooms, user: int)
    ensures var (r', gone) := RemoveUser(r, user);
      gone.Some? && !gone.value.disbanded ==>
        gone.value.id in r'.matches && r'.matches[gone.value.id] == gone.value.room
  {
  }

  lemma GoodRoomHere(r: Rooms, id: u16)
    requires SeatInv(r) && id in r.matches
    ensures RoomOk(r.matches[id])
  {
    RoomIsOk(r, id);
  }

  lemma ValidParts(v: View)
    requires Inv(v)
    ensures IndexInv(v.net) && SeatInv(v.rooms)
    ensures forall u :: u in v.net.tokens ==> u > 0
  {
  }

  lemma JoinSeats(r: Rooms, user: i32, id: u16, password: bytes)
    requires SeatInv(r) && CanJoin(r, id, password)
    ensures user > 0 ==> SeatInv(Enter(RemoveUser(r, user).0, user, id))
  {
    if user > 0 { JoinKeepsSeats(r, user, id, password); }
  }

  lemma ArmInRoom(v: View, user: i32, arm: Arm)
    requires !arm.CreateRoom? && !arm.JoinRoom? && !arm.PartRoom? && !arm.StartSpectating? &&
      !arm.StopSpectating? && !arm.LobbyJoin?
    requires !IsChatter(arm)
    ensures DoArm(v, user, arm, []) ==
      if RoomOf(v.rooms, user).Some? then InRoom(v, user, RoomOf(v.rooms, user).value, arm)
      else if arm.LoadComplete? then StrayLoad(v, user) else v
  {
    hide InRoom; hide StrayLoad;
  }

  // What the handlers of a packet sent inside a room may rely on.
  lemma RoomArmFacts(v: View, user: i32, arm: Arm)
    requires Inv(v) && user in v.net.tokens
    requires !arm.CreateRoom? && !arm.JoinRoom? && !arm.PartRoom? && !arm.StartSpectating? &&
      !arm.StopSpectating? && !arm.LobbyJoin?
    requires !IsChatter(arm)
    ensures Inv(DoArm(v, user, arm, []))
    ensures IndexInv(v.net) && SeatInv(v.rooms) && user > 0
    ensures RoomOf(v.rooms, user).Some? ==> RoomOk(v.rooms.matches[RoomOf(v.rooms, user).value])
    ensures DoArm(v, user, arm, []) ==
      if RoomOf(v.rooms, user).Some? then InRoom(v, user, RoomOf(v.rooms, user).value, arm)
      else if arm.LoadComplete? then StrayLoad(v, user) else v
  {
    hide Inv; hide DoArm; hide SeatInv; hide RoomOk; hide InRoom; hide StrayLoad;
    ArmKeeps(v, user, arm, []);
    ValidParts(v);
    ArmInRoom(v, user, arm);
    if RoomOf(v.rooms, user).Some? { GoodRoomHere(v.rooms, RoomOf(v.rooms, user).value); }
  }

  lemma StatusFacts(v: View, user: i32, status: u8, lobbyToo: bool)
    requires Inv(v) && user in v.net.tokens && status in {SLOT_NOT_READY, SLOT_READY, SLOT_NO_MAP}
    ensures IndexInv(v.net) && SeatInv(v.rooms)
    ensures RoomOf(v.rooms, user).Some? ==>
      var id := RoomOf(v.rooms, user).value;
      var m' := WithOwnStatus(v.rooms.matches[id], user, status);
      Inv(ShowIf(v, id, m', lobbyToo)) && (m'.Some? ==> RoomOk(m'.value))
  {
    hide Inv; hide SeatInv; hide RoomOk; hide ShowIf; hide QuietChange; hide WithOwnStatus; hide SamePeople;
    ValidParts(v);
    if RoomOf(v.rooms, user).Some? {
      var id := RoomOf(v.rooms, user).value;
      GoodRoomHere(v.rooms, id);
      StatusKeepsRoom(v.rooms.matches[id], user, status);
      ShowIfSafe(v, id, WithOwnStatus(v.rooms.matches[id], user, status), lobbyToo);
      StayingKeeps(v, ShowIf(v, id, WithOwnStatus(v.rooms.matches[id], user, status), lobbyToo));
    }
  }

  lemma StatusKeepsRoom(m: Match, user: i32, status: u8)
    requires RoomOk(m) && user > 0 && status in {SLOT_NOT_READY, SLOT_READY, SLOT_NO_MAP, SLOT_COMPLETE}
    ensures var m' := WithOwnStatus(m, user, status); m'.Some? ==> QuietChange(m, m'.value) && RoomOk(m'.value)
  {
    if WithOwnStatus(m, user, status).Some? { OwnStatusQuiet(m, user, status); }
  }

  lemma MovedKeepsRoom(m: Match, user: i32, target: int)
    requires RoomOk(m) && user > 0
    ensures MovedTo(m, user, target).Some? ==> RoomOk(MovedTo(m, user, target).value)
  {
    if MovedTo(m, user, target).Some? { MovedOk(m, user, target); }
  }

  lemma LockKeepsRoom(m: Match, user: i32, target: int)
    requires RoomOk(m)
    ensures WithLock(m, user, target).Some? ==> RoomOk(WithLock(m, user, target).value)
  {
    if WithLock(m, user, target).Some? { LockOk(m, user, target); }
  }

  lemma SettingsKeepRoom(m: Match, user: i32, asked: Match)
    requires RoomOk(m)
    ensures WithSettings(m, user, asked).Some? ==> RoomOk(WithSettings(m, user, asked).value)
  {
    if WithSettings(m, user, asked).Some? { SettingsOk(m, user, asked); }
  }

  lemma ModsKeepRoom(m: Match, user: i32, mods: u32)
    requires RoomOk(m)
    ensures WithMods(m, user, mods).Some? ==> RoomOk(WithMods(m, user, mods).value)
  {
    if WithMods(m, user, mods).Some? { ModsOk(m, user, mods); }
  }

  lemma TeamKeepsRoom(r: Rooms, id: u16, user: i32)
    requires SeatInv(r) && id in r.matches
    ensures var m' := WithTeam(r.matches[id], user);
      m'.Some? ==> RoomOk(m'.value) && SeatInv(WithRoom(r, id, m'.value))
  {
    hide SeatInv; hide RoomOk; hide WithTeam; hide SamePeople;
    GoodRoomHere(r, id);
    if WithTeam(r.matches[id], user).Some? {
      TeamOk(r.matches[id], user);
      SameRoomOk(r.matches[id], WithTeam(r.matches[id], user).value);
      StepKeepsSeats(r, id, WithTeam(r.matches[id], user).value);
    }
  }

  lemma SameRoomOk(m: Match, m': Match)
    requires SamePeople(m, m')
    ensures RoomOk(m')
  {
  }

  lemma ShownRooms(v: View, id: u16, m: Match, lobbyToo: bool)
    ensures Show(v, id, m, lobbyToo).rooms == WithRoom(v.rooms, id, m)
  {
  }

  lemma HostKeepsRoom(m: Match, user: i32, target: int)
    requires RoomOk(m)
    ensures WithHost(m, user, target).Some? ==> RoomOk(WithHost(m, user, target).value)
  {
    if WithHost(m, user, target).Some? { HostOk(m, user, target); }
  }

  lemma StartKeepsRoom(m: Match, user: i32)
    requires RoomOk(m)
    ensures Started(m, user).Some? ==> RoomOk(Started(m, user).value)
  {
    if Started(m, user).Some? { StartedOk(m, user); }
  }

  lemma CompleteKeepsSeats(r: Rooms, id: u16, user: i32)
    requires SeatInv(r) && id in r.matches && user > 0
    ensures SeatInv(WithRoom(r, id, WithOwnStatus(r.matches[id], user, SLOT_COMPLETE).GetOr(r.matches[id])))
  {
    hide SeatInv; hide RoomOk; hide WithOwnStatus;
    GoodRoomHere(r, id);
    var m := r.matches[id];
    if WithOwnStatus(m, user, SLOT_COMPLETE).Some? {
      OwnStatusOk(m, user, SLOT_COMPLETE);
      StepKeepsSeats(r, id, WithOwnStatus(m, user, SLOT_COMPLETE).value);
    } else {
      assert WithRoom(r, id, m) == r;
    }
  }

  lemma ScoreFacts(v: View, user: i32, payload: bytes, frame: Frame)
    requires Inv(v) && user in v.net.tokens
    ensures var arm := ScoreUpdate(payload, frame);
      && Inv(DoArm(v, user, arm, [])) && IndexInv(v.net)
      && match RoomOf(v.rooms, user)
         case None => DoArm(v, user, arm, []) == v
         case Some(id) =>
           RoomOk(v.rooms.matches[id]) &&
           DoArm(v, user, arm, []) == DoScore(v, user, id, v.rooms.matches[id], payload, frame)
  {
    hide Inv; hide DoArm; hide IndexInv; hide SeatInv; hide RoomOk; hide DoScore;
    RoomArmFacts(v, user, ScoreUpdate(payload, frame));
  }

  lemma NoticeFacts(v: View, user: i32, failed: bool)
    requires Inv(v) && user in v.net.tokens
    ensures var arm := if failed then Failed else SkipRequest;
      && Inv(DoArm(v, user, arm, [])) && IndexInv(v.net)
      && match RoomOf(v.rooms, user)
         case None => DoArm(v, user, arm, []) == v
         case Some(id) =>
           RoomOk(v.rooms.matches[id]) && DoArm(v, user, arm, []) == DoNotice(v, user, v.rooms.matches[id], failed)
  {
    hide Inv; hide DoArm; hide IndexInv; hide SeatInv; hide RoomOk; hide DoNotice;
    RoomArmFacts(v, user, if failed then Failed else SkipRequest);
  }

  lemma LoadFacts(v: View, user: i32)
    requires Inv(v) && user in v.net.tokens
    ensures var arm := Arm.LoadComplete;
      && Inv(DoArm(v, user, arm, [])) && IndexInv(v.net)
      && match RoomOf(v.rooms, user)
         case None => DoArm(v, user, arm, []) == StrayLoad(v, user)
         case Some(id) =>
           RoomOk(v.rooms.matches[id]) &&
           DoArm(v, user, arm, []) == DoLoad(v, user, id, v.rooms.matches[id])
  {
    hide Inv; hide DoArm; hide IndexInv; hide SeatInv; hide RoomOk; hide DoLoad;
    RoomArmFacts(v, user, Arm.LoadComplete);
  }

  lemma CompleteFacts(v: View, user: i32)
    requires Inv(v) && user in v.net.tokens
    ensures Inv(DoArm(v, user, CompleteRound, [])) && IndexInv(v.net) && SeatInv(v.rooms)
    ensures RoomOf(v.rooms, user).None? ==> DoArm(v, user, CompleteRound, []) == v
    ensures RoomOf(v.rooms, user).Some? ==>
      var id := RoomOf(v.rooms, user).value;
      var m := v.rooms.matches[id];
      && DoArm(v, user, CompleteRound, []) == DoComplete(v, user, id, m)
      && SeatInv(WithRoom(v.rooms, id, WithOwnStatus(m, user, SLOT_COMPLETE).GetOr(m)))
  {
    hide Inv; hide DoArm; hide IndexInv; hide SeatInv; hide RoomOk; hide DoComplete;
    RoomArmFacts(v, user, CompleteRound);
    if RoomOf(v.rooms, user).Some? { CompleteKeepsSeats(v.rooms, RoomOf(v.rooms, user).value, user); }
  }

  // Packets change no names.
  lemma NamesAreStable(net: Net, who: set<int>, p: Packet)
    ensures NamesOf(Post(net, who, p)) == NamesOf(net)
  {
  }

  // ---------- spectator lists ----------

  ghost predicate ListsOk(w: Watch) {
    forall h :: h in w.spectators ==> NoRepeats(w.spectators[h])
  }

  lemma ListOk(w: Watch, host: int)
    requires ListsOk(w)
    ensures host in w.spectators ==> NoRepeats(w.spectators[host])
  {
  }

  lemma ValidLists(v: View)
    requires Inv(v)
    ensures ListsOk(v.watch)
  {
    forall h | h in v.watch.spectators ensures NoRepeats(v.watch.spectators[h]) {
      assert GoodList(v.watch, Online(v.net), h, v.watch.spectators[h]);
    }
  }

  lemma StopLists(w: Watch, user: int)
    requires ListsOk(w)
    ensures ListsOk(Stop(w, user).0)
  {
    if user in w.target && w.target[user] in w.spectators {
      ListOk(w, w.target[user]);
      WithoutKeepsOrder(w.spectators[w.target[user]], user);
    }
  }

  lemma NoFellows(net: Net, user: int)
    ensures PostEach(net, user, FellowsOf([])) == net
  {
  }

  // What the handlers of lobby, channel and spectator packets may rely on.
  lemma SocialFacts(v: View, user: i32, arm: Arm)
    requires Inv(v) && user in v.net.tokens
    requires IsChatter(arm)
    ensures Inv(DoArm(v, user, arm, [])) && IndexInv(v.net) && ListsOk(v.watch)
    ensures DoArm(v, user, arm, []) == Chatter(v, user, arm)
  {
    hide Inv; hide DoArm; hide ListsOk; hide IndexInv; hide Chatter;
    SocialArmKeeps(v, user, arm, []);
    SocialDone(v, user, arm);
    ValidParts(v);
    ValidLists(v);
  }

  lemma StopFacts(v: View, user: i32)
    requires Inv(v)
    ensures DoArm(v, user, Arm.StopSpectating, []) == DoStopSpectating(v, user)
    ensures Inv(DoStopSpectating(v, user)) && DoStopSpectating(v, user).net.tokens == v.net.tokens
    ensures IndexInv(v.net) && ListsOk(v.watch)
  {
    hide Inv; hide DoStopSpectating; hide ListsOk; hide IndexInv;
    StopSpectatingKeeps(v, user);
    ValidParts(v);
    ValidLists(v);
  }

  lemma StartFacts(v: View, user: i32, host: i32)
    requires Inv(v) && user in v.net.tokens
    ensures DoArm(v, user, Arm.StartSpectating(host), []) == DoStartSpectating(v, user, host)
    ensures Inv(DoStartSpectating(v, user, host))
    ensures IndexInv(v.net) && ListsOk(v.watch) && DoStopSpectating(v, user).net.tokens == v.net.tokens
  {
    hide Inv; hide DoStopSpectating; hide DoStartSpectating; hide ListsOk; hide IndexInv;
    StopFacts(v, user);
    StartSpectatingKeeps(v, user, host);
  }

  lemma SocialDone(v: View, user: i32, arm: Arm)
    requires IsChatter(arm)
    ensures DoArm(v, user, arm, []) == Chatter(v, user, arm)
  {
    hide Post; hide Enrol; hide Withdraw;
  }

  // ---------- the lobby listing ----------

  // Each of these room numbers once.
  ghost predicate Listed(order: seq<u16>, ids: set<u16>) {
    && (forall id :: id in order <==> id in ids)
    && (forall i, j :: 0 <= i < j < |order| ==> order[i] != order[j])
  }

  lemma ListedOneMore(order: seq<u16>, ids: set<u16>, id: u16)
    requires Listed(order, ids) && id !in ids
    ensures Listed(order + [id], ids + {id})
  {
  }

  lemma NoListing(net: Net, user: int, matches: map<u16, Match>)
    ensures PostEach(net, user, Listing(matches, [])) == net
  {
  }

  lemma ListOneMore(net: Net, user: int, matches: map<u16, Match>, order: seq<u16>, id: u16)
    requires id in matches && forall i :: i in order ==> i in matches
    ensures forall i :: i in order + [id] ==> i in matches
    ensures PostEach(net, user, Listing(matches, order + [id])) ==
      Post(PostEach(net, user, Listing(matches, order)), {user}, Packet.MatchNew(matches[id]))
  {
    hide Post;
    var list := Listing(matches, order + [id]);
    assert list[..|list| - 1] == Listing(matches, order);
  }

  lemma ListsOpenRooms(r: Rooms, order: seq<u16>)
    requires GoodOrder(r, order)
    ensures forall id :: id in order ==> id in r.matches
  {
  }

  lemma IndexKeptByLobby(net: Net, net': Net)
    requires IndexInv(net) && net' == net.(lobby := net'.lobby)
    ensures IndexInv(net')
  {
  }

  // ---------- sessions ----------

  lemma SessionFacts(v: View, token: Token)
    requires Inv(v) && token in v.net.sessions
    ensures v.net.sessions[token].user in v.net.tokens
    ensures NetInv(v.net) && SeatInv(v.rooms) && ListsOk(v.watch)
  {
    ValidLists(v);
  }

  lemma SessionIndexed(v: View, token: Token)
    requires Inv(v) && token in v.net.sessions
    ensures v.net.sessions[token].user in v.net.tokens
  {
  }

  lemma LeaveKeepsWatch(v: View, user: i32)
    ensures Leave(v, user).watch == v.watch
  {
  }

  lemma EvictFacts(v: View, user: i32)
    requires Inv(v)
    ensures user in v.net.tokens ==>
      v.net.tokens[user] in v.net.sessions && v.net.sessions[v.net.tokens[user]].user == user
    ensures user !in v.net.tokens ==> DropUser(v, user) == v
  {
  }

  lemma PollOne(v: View, token: Token)
    requires Inv(v) && token in v.net.sessions
    ensures DoPoll(v, v.net.sessions[token].user).net.sessions ==
      v.net.sessions[token := v.net.sessions[token].(queue := [])]
  {
  }

  // ---------- dispatch ----------

  predicate IsSocialArm(arm: Arm) {
    IsChatter(arm) || arm.StartSpectating? || arm.StopSpectating?
  }

  predicate IsRoomArm(arm: Arm) {
    !IsSocialArm(arm) && !arm.LobbyJoin? && !arm.CreateRoom? && !arm.JoinRoom? && !arm.PartRoom?
  }

  lemma MovingArms(v: View, user: i32, arm: Arm)
    ensures arm.CreateRoom? ==> DoArm(v, user, arm, []) == DoCreate(v, user, arm.asked)
    ensures arm.JoinRoom? ==> DoArm(v, user, arm, []) == DoJoin(v, user, arm.id, arm.password)
    ensures arm.PartRoom? ==> DoArm(v, user, arm, []) == DoPart(v, user)
  {
  }

  lemma OrderIsForListings(v: View, user: i32, arm: Arm, order: seq<u16>)
    requires !arm.LobbyJoin? && forall id :: id in order ==> id in v.rooms.matches
    ensures DoArm(v, user, arm, order) == DoArm(v, user, arm, [])
  {
  }

  // Some order of the open rooms.
  lemma AnyOrder(r: Rooms) returns (order: seq<u16>)
    ensures GoodOrder(r, order)
  {
    order := Enumerated(r.matches.Keys);
  }

  lemma {:induction false} Enumerated(ids: set<u16>) returns (order: seq<u16>)
    ensures Listed(order, ids)
  {
    order := [];
    if ids != {} {
      var id :| id in ids;
      var rest := Enumerated(ids - {id});
      ListedOneMore(rest, ids - {id}, id);
      assert ids - {id} + {id} == ids;
      order := rest + [id];
    }
  }
}
