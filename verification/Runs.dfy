/** Whole runs: every state a server can reach from its start, whatever its clients send. */
module Runs {
  import opened BanchoTypes
  import opened Rooms
  import opened Rounds
  import opened RoomSafety
  import opened Network
  import opened Server
  import opened ServerSafety
  import opened Departure

  // A create in this state would not take the number of an open room.
  predicate CreateIsFree(v: View, a: Action) {
    a.From? && a.arm.CreateRoom? ==> NumberFree(v, a.user)
  }

  // Every step keeps the whole of Inv, whatever numbers the rooms are given.
  lemma StepKeepsInv(v: View, a: Action, v': View)
    requires Inv(v) && Step(v, a, v')
    ensures Inv(v')
  {
    hide Inv; hide DoArm; hide DoLogin; hide DoDisconnect; hide DoPoll; hide Post; hide PostAll; hide Members;
    match a
    case From(user, arm) =>
      var order :| GoodOrder(v.rooms, order) && v' == DoArm(v, user, arm, order);
      ArmKeeps(v, user, arm, order);
    case Login(user, token, name, presence, stats) => LoginKeeps(v, user, token, name, presence, stats);
    case Disconnect(user, how) => DisconnectKeeps(v, user, how);
    case Poll(user) => PollKeeps(v, user);
    case Tell(user, p) => TellKeeps(v, {user as int}, p);
    case TellAll(p) => TellAllKeeps(v, p);
    case TellChannel(c, p, except) => TellKeeps(v, Members(v.net, c) - {except as int}, p);
  }

  lemma TellKeeps(v: View, who: set<int>, p: Packet)
    requires Inv(v)
    ensures Inv(v.(net := Post(v.net, who, p)))
  {
    hide NetInv; hide RoomsInv; hide Post;
    PostsKeep();
  }

  lemma TellAllKeeps(v: View, p: Packet)
    requires Inv(v)
    ensures Inv(v.(net := PostAll(v.net, p)))
  {
    hide NetInv; hide RoomsInv; hide PostAll;
    PostAllKeeps(v.net, p);
  }

  ghost predicate Run(views: seq<View>, acts: seq<Action>) {
    && |views| == |acts| + 1 && views[0] == START
    && forall i :: 0 <= i < |acts| ==> Step(views[i], acts[i], views[i + 1])
  }

  // Every state of every run is sound.
  lemma {:induction false} RunIsSafe(views: seq<View>, acts: seq<Action>, n: nat)
    requires Run(views, acts) && n < |views|
    ensures Inv(views[n])
  {
    hide Inv; hide Step;
    if n == 0 {
      StartIsSafe();
    } else {
      RunIsSafe(views, acts, n - 1);
      StepKeepsInv(views[n - 1], acts[n - 1], views[n]);
    }
  }

  // ---------- what a step adds to the history ----------

  // How many rounds of the room have begun.
  function Begins(tr: seq<Event>, id: u16): nat {
    if tr == [] then 0
    else Begins(tr[..|tr| - 1], id) + if tr[|tr| - 1] == Began(id) then 1 else 0
  }

  // Neither a create nor a START has been added.
  ghost predicate SameTally(tr: seq<Event>, tr': seq<Event>) {
    Opens(tr') == Opens(tr) && forall id: u16 :: Begins(tr', id) == Begins(tr, id)
  }

  lemma TallyOf(tr: seq<Event>, e: Event)
    ensures Opens(tr + [e]) == if e.Opened? then Opens(tr) + [e.room] else Opens(tr)
    ensures forall id: u16 :: Begins(tr + [e], id) == Begins(tr, id) + if e == Began(id) then 1 else 0
  {
    GrowByOne(tr, e);
  }

  lemma FinishTally(v: View, id: u16)
    ensures SameTally(v.trace, DoFinish(v, id).trace)
  {
    hide Close; hide Closed; hide ShouldFinish; hide NamesOf; hide Post;
    if id in v.rooms.matches {
      TallyOf(v.trace, Ended(id, Close(v.rooms.matches[id], ScoresOf(v.rooms, id), NamesOf(v.net))));
    }
  }

  lemma LoadTally(v: View, user: i32, id: u16, m: Match)
    ensures SameTally(v.trace, DoLoad(v, user, id, m).trace)
  {
    hide Post; hide PlayingUsers;
    TallyOf(v.trace, Loaded(id, user));
    TallyOf(v.trace + [Loaded(id, user)], AllLoaded(id, PlayingUsers(m.slots)));
  }

  lemma InRoomTally(v: View, user: i32, id: u16, arm: Arm)
    requires id in v.rooms.matches
    ensures !arm.StartRound? ==> SameTally(v.trace, InRoom(v, user, id, arm).trace)
    ensures Opens(InRoom(v, user, id, arm).trace) == Opens(v.trace)
    ensures arm.StartRound? ==>
      InRoom(v, user, id, arm).trace == if Started(v.rooms.matches[id], user).Some? then v.trace + [Began(id)]
        else v.trace
  {
    hide Post; hide DoFinish; hide DoLoad; hide WithOwnStatus; hide MovedTo; hide WithLock;
    hide WithSettings; hide WithMods;
    hide WithTeam; hide WithHost; hide Started; hide SameTally; hide Occupants;
    var m := v.rooms.matches[id];
    SameTallyRefl(v.trace);
    if arm.StartRound? { TallyOf(v.trace, Began(id)); }
    else if arm.LoadComplete? { LoadTally(v, user, id, m); SameOpens(v.trace, DoLoad(v, user, id, m).trace); }
    else if arm.ScoreUpdate? {
      var seat := FirstUser(m.slots, user);
      if seat.Some? {
        QuietEvent(v.trace, Scored(id, user, arm.frame.(slotId := seat.value)));
      }
    } else if arm.CompleteRound? {
      var v1 := v.(rooms := WithRoom(v.rooms, id, WithOwnStatus(m, user, SLOT_COMPLETE).GetOr(m)));
      FinishTally(v1, id);
      SameOpens(v.trace, DoFinish(v1, id).trace);
    } else if arm.ChangeTeam? {
      var m' := WithTeam(m, user);
      if m'.Some? {
        FinishTally(Show(v, id, m'.value, false), id);
        SameOpens(v.trace, DoFinish(Show(v, id, m'.value, false), id).trace);
      }
    }
  }

  lemma SameTallyRefl(tr: seq<Event>)
    ensures SameTally(tr, tr)
  {
  }

  lemma SameOpens(tr: seq<Event>, tr': seq<Event>)
    requires SameTally(tr, tr')
    ensures Opens(tr') == Opens(tr)
  {
  }

  lemma QuietEvent(tr: seq<Event>, e: Event)
    requires !e.Opened? && !e.Began?
    ensures SameTally(tr, tr + [e]) && Opens(tr + [e]) == Opens(tr)
  {
    TallyOf(tr, e);
  }

  // Only a create hands out a number, and it hands out the next one.
  lemma StepOpens(v: View, a: Action, v': View)
    requires Step(v, a, v')
    ensures Opens(v'.trace) == if a.From? && a.arm.CreateRoom? then Opens(v.trace) + [v.rooms.nextId]
      else Opens(v.trace)
  {
    hide Post; hide PostEach; hide DoFinish; hide InRoom; hide RemoveUser; hide Farewell;
    hide DoStopSpectating; hide CanJoin; hide PostAll;
    hide Opens; hide OpenRoom; hide Enter; hide Welcome; hide DropUser; hide NewRoom;
    if a.From? {
      var (user, arm) := (a.user, a.arm);
      var order :| GoodOrder(v.rooms, order) && v' == DoArm(v, user, arm, order);
      if arm.CreateRoom? {
        LeaveRooms(v, user);
        TallyOf(v.trace, Opened(v.rooms.nextId));
      } else if arm.PartRoom? {
        match RemoveUser(v.rooms, user).1
        case None =>
        case Some(g) => FinishTally(Leave(v, user), g.id); SameOpens(v.trace, DoFinish(Leave(v, user), g.id).trace);
      } else if arm.StartSpectating? || arm.StopSpectating? {
        StopTrace(v, user);
      } else if RoomOf(v.rooms, user).Some? {
        InRoomTally(v, user, RoomOf(v.rooms, user).value, arm);
      } else if user in v.rooms.userToMatch {
        TallyOf(v.trace, Loaded(v.rooms.userToMatch[user], user));
      }
    } else if a.Login? || a.Disconnect? {
      DropTrace(v, a.user);
    }
  }

  lemma StopTrace(v: View, user: i32)
    ensures DoStopSpectating(v, user).trace == v.trace && DoStopSpectating(v, user).rooms == v.rooms
  {
  }

  lemma DropTrace(v: View, user: i32)
    ensures DropUser(v, user).trace == v.trace
    ensures user in v.net.tokens ==> DropUser(v, user).rooms == RemoveUser(v.rooms, user).0
    ensures user !in v.net.tokens ==> DropUser(v, user) == v
  {
    hide DoStopSpectating; hide RemoveUser; hide Farewell;
    if user in v.net.tokens {
      StopTrace(Leave(v.(net := DropSession(v.net, user)), user), user);
    }
  }

  // ---------- room numbers over a run ----------

  function Creates(acts: seq<Action>): nat {
    if acts == [] then 0
    else Creates(acts[..|acts| - 1]) + if acts[|acts| - 1].From? && acts[|acts| - 1].arm.CreateRoom? then 1 else 0
  }

  lemma {:induction false} RunCountsCreates(views: seq<View>, acts: seq<Action>, n: nat)
    requires Run(views, acts) && n < |views|
    ensures |Opens(views[n].trace)| == Creates(acts[..n])
  {
    hide Step;
    if n > 0 {
      RunCountsCreates(views, acts, n - 1);
      StepOpens(views[n - 1], acts[n - 1], views[n]);
      assert acts[..n][..n - 1] == acts[..n - 1];
    }
  }

  // A create can only meet a room that was made at least 65535 creates earlier: whichever of the
  // earlier creates made the open room with that number, it is that long ago.
  lemma CollisionIsOld(v: View, user: int, k: nat)
    requires Inv(v) && !NumberFree(v, user)
    requires k < |Opens(v.trace)| && Opens(v.trace)[k] == v.rooms.nextId
    ensures |Opens(v.trace)| - k >= 65535
  {
    var n := |Opens(v.trace)|;
    if n - k < 65535 { NumbersDistinct(k, n); }
  }

  lemma CollisionNeedsManyCreates(v: View, user: int)
    requires Inv(v) && !NumberFree(v, user)
    ensures |Opens(v.trace)| >= 65535
  {
    hide SeatInv; hide RoundInv; hide HistoryInv; hide RoomNumber; hide Opens; hide RemoveUser;
    RemovalShrinks(v.rooms, user);
    assert v.rooms.nextId in Opens(v.trace);
    var k :| 0 <= k < |Opens(v.trace)| && Opens(v.trace)[k] == v.rooms.nextId;
    CollisionIsOld(v, user, k);
  }

  lemma {:induction false} CreatesMonotone(acts: seq<Action>, i: nat, j: nat)
    requires i <= j <= |acts|
    ensures Creates(acts[..i]) <= Creates(acts[..j])
    decreases j
  {
    if i < j {
      CreatesMonotone(acts, i, j - 1);
      assert acts[..j][..j - 1] == acts[..j - 1];
    }
  }
}
