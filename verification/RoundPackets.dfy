/** The all-players-loaded packet as its receivers see it: whichever queue it is found in, at any time of
    any run, a LOAD_COMPLETE put it there when everyone playing had sent one since the latest START. */
module RoundPackets {
  import opened Wrappers
  import opened BanchoTypes
  import opened Rooms
  import opened Rounds
  import opened Network
  import opened Server
  import opened ServerSafety
  import opened Runs
  import opened RoundLife
  import opened Outgoing

  // This LOAD_COMPLETE comes from someone in room id, reaches the session as its user sits there too, and is
  // the last one missing: every user playing there has now sent one since the latest START.
  ghost predicate EarnedAt(v: View, a: Action, id: u16, t: Token) {
    && a.From? && a.arm.LoadComplete? && RoomOf(v.rooms, a.user) == Some(id) && id in v.rooms.matches
    && t in v.net.sessions && v.net.sessions[t].user as int in Occupants(v.rooms.matches[id].slots)
    && AllLoadedBy(v.trace + [Loaded(id, a.user)], id, PlayingUsers(v.rooms.matches[id].slots))
  }

  ghost predicate AllLoadedBy(tr: seq<Event>, id: u16, playing: set<int>) {
    forall u :: u in playing ==> LoadedSinceStart(tr, id, u)
  }

  lemma StepEarns(v: View, a: Action, v': View, t: Token, i: nat)
    requires Inv(v) && Step(v, a, v') && Builds(a) && t in v'.net.sessions
    requires |QueueOf(v.net, t)| <= i < |v'.net.sessions[t].queue|
    requires v'.net.sessions[t].queue[i] == Packet.MatchAllPlayersLoaded
    ensures exists id :: EarnedAt(v, a, id, t)
  {
    hide Inv; hide DoArm; hide Post; hide Occupants; hide DoLoad; hide LoadedSinceStart;
    hide PlayingUsers;
    OnlyLoadsAnnounce(v, a, v', t, i);
    var order :| GoodOrder(v.rooms, order) && v' == DoArm(v, a.user, a.arm, order);
    LoadTables(v, a.user, order);
    if RoomOf(v.rooms, a.user).Some? {
      var id := RoomOf(v.rooms, a.user).value;
      var m := v.rooms.matches[id];
      LoadAnnounced(v, a.user, id);
      OnlyAddressed(v.net, Occupants(m.slots), Packet.MatchAllPlayersLoaded, t);
      assert EarnedAt(v, a, id, t);
    }
  }

  lemma LoadTables(v: View, user: i32, order: seq<u16>)
    requires forall id :: id in order ==> id in v.rooms.matches
    ensures var v' := DoArm(v, user, Arm.LoadComplete, order);
      match RoomOf(v.rooms, user)
      case None => v'.net == v.net
      case Some(id) => v' == DoLoad(v, user, id, v.rooms.matches[id])
  {
    hide DoLoad;
  }

  lemma OnlyAddressed(net: Net, who: set<int>, p: Packet, t: Token)
    ensures t in Post(net, who, p).sessions <==> t in net.sessions
    ensures t in net.sessions && net.sessions[t].user as int !in who ==>
      Post(net, who, p).sessions[t].queue == net.sessions[t].queue
  {
  }

  // In every state of every run, a MatchAllPlayersLoaded in the queue of any session was put there by such
  // a LOAD_COMPLETE.
  lemma {:induction false} QueuedLoadsAreEarned(views: seq<View>, acts: seq<Action>, n: nat, t: Token, i: nat)
    requires Run(views, acts) && n < |views| && (forall j :: 0 <= j < |acts| ==> Builds(acts[j]))
    requires t in views[n].net.sessions && i < |views[n].net.sessions[t].queue|
    requires views[n].net.sessions[t].queue[i] == Packet.MatchAllPlayersLoaded
    ensures exists j, id :: 0 <= j < n && EarnedAt(views[j], acts[j], id, t)
  {
    hide Inv; hide Step; hide EarnedAt; hide Builds; hide Sends;
    if n > 0 {
      var (v, a, v') := (views[n - 1], acts[n - 1], views[n]);
      assert Step(v, a, v');
      if i >= |QueueOf(v.net, t)| {
        RunIsSafe(views, acts, n - 1);
        StepEarns(v, a, v', t, i);
      } else {
        StaysQueued(v, a, v', t, i);
        QueuedLoadsAreEarned(views, acts, n - 1, t, i);
      }
    }
  }

  // What was queued before a step and still is stands where it stood.
  lemma StaysQueued(v: View, a: Action, v': View, t: Token, i: nat)
    requires Step(v, a, v') && t in v'.net.sessions && i < |v'.net.sessions[t].queue| && i < |QueueOf(v.net, t)|
    ensures t in v.net.sessions && v.net.sessions[t].queue[i] == v'.net.sessions[t].queue[i]
  {
    hide Step; hide Sends;
    StepsOnlyAdd(v, a, v');
    if a.Poll? && v.net.sessions[t].user == a.user { PollEmpties(v, a.user, v', t); }
    else { assert Extends(v.net.sessions[t].queue, v'.net.sessions[t].queue, a); }
  }
}
