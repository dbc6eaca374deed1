/** A score frame from the bytes of a request to the queues of its room: byte 4 is the sender's true slot,
    every other byte is the sender's, and that frame is the one kept. */
module ScoreRelay {
  import opened BanchoTypes
  import opened Packets
  import opened Rounds
  import opened Network
  import opened Framing
  import opened Server
  import opened ServerSafety
  import opened Runs
  import opened Orders
  import opened Requests
  import opened RoomEffects
  import opened Inboxes
  import opened ClientSide

  // q is the payload with slot i in place of whatever slot the sender wrote, and is read as the frame with it.
  predicate RelayOf(payload: bytes, frame: Frame, i: u8, q: bytes) {
    && |q| == |payload| && (forall k :: 0 <= k < |q| && k != 4 ==> q[k] == payload[k])
    && GetFrame(q).Read? && GetFrame(q).value == frame.(slotId := i)
  }

  // A score from the user in slot i adds exactly one packet to the queue of each of the room's people and
  // none to any other: the frame with slot i. The same frame is kept as the sender's last.
  lemma RelayReaches(v: View, user: i32, id: u16, i: nat, payload: bytes, frame: Frame, v': View, t: Token)
    requires Inv(v) && Step(v, From(user, ScoreUpdate(payload, frame)), v') && SeatAt(v.rooms, user, id, i)
    requires t in v.net.sessions && GetFrame(payload).Read? && GetFrame(payload).value == frame
    ensures if In(v.rooms.matches[id], v.net.sessions[t].user)
      then exists q :: RelayOf(payload, frame, i, q) && Gets(v.net, v'.net, t, [Packet.MatchScoreUpdate(q)])
      else Gets(v.net, v'.net, t, [])
    ensures id in v'.rooms.lastScores && user as int in v'.rooms.lastScores[id]
    ensures v'.rooms.lastScores[id][user] == frame.(slotId := i)
  {
    hide Inv; hide Step; hide GetFrame; hide In; hide Gets; hide ScoresOf;
    RelayedFrame(payload, i);
    ScoreInbox(v, user, id, i, payload, frame, v', t);
    assert RelayOf(payload, frame, i, payload[4 := i]);
  }

  // Every score among the actions of a body comes with the frame its payload is.
  lemma {:induction false} ScoresCarryFrames(s: bytes, memory: nat, user: i32, now: int)
    ensures forall a :: a in CourseOf(s, memory, user, now).acts && a.From? && a.arm.ScoreUpdate? ==>
      GetFrame(a.arm.payload).Read? && GetFrame(a.arm.payload).value == a.arm.frame
    decreases |s|
  {
    hide Receive; hide OrderOf; hide GetFrame;
    ReceiveIsShorter(s, memory);
    if Receive(s, memory).Read? {
      ScoresAreFrames(Receive(s, memory).value, memory, now);
      ScoresCarryFrames(Receive(s, memory).rest, memory, user, now);
    }
  }

  lemma {:induction false} StepsAreSafe(views: seq<View>, acts: seq<Action>, n: nat)
    requires Steps(views, acts) && n <= |acts| && Inv(views[0])
    ensures Inv(views[n])
  {
    hide Inv; hide Step;
    if n > 0 {
      StepsAreSafe(views, acts, n - 1);
      StepKeepsInv(views[n - 1], acts[n - 1], views[n]);
    }
  }

  // With the steps of a request (those of Requests.HandleRequest): each score in it that its sender sends from
  // slot i of room id reaches the people of that room so.
  lemma RequestRelays(data: bytes, memory: nat, user: i32, now: int, views: seq<View>, acts: seq<Action>,
                      n: nat, id: u16, i: nat, t: Token)
    requires Steps(views, acts) && Inv(views[0]) && acts == CourseOf(data, memory, user, now).acts && n < |acts|
    requires acts[n].From? && acts[n].arm.ScoreUpdate? && SeatAt(views[n].rooms, acts[n].user, id, i)
    requires t in views[n].net.sessions
    ensures var (v, v', payload) := (views[n], views[n + 1], acts[n].arm.payload);
      GetFrame(payload).Read? &&
      if In(v.rooms.matches[id], v.net.sessions[t].user)
      then exists q :: RelayOf(payload, GetFrame(payload).value, i, q) &&
             Gets(v.net, v'.net, t, [Packet.MatchScoreUpdate(q)])
      else Gets(v.net, v'.net, t, [])
  {
    hide Inv; hide Step; hide GetFrame; hide CourseOf; hide In; hide Gets; hide RelayOf;
    StepsAreSafe(views, acts, n);
    ScoresCarryFrames(data, memory, user, now);
    assert acts[n] in acts;
    assert Step(views[n], acts[n], views[n + 1]);
    RelayReaches(views[n], acts[n].user, id, i, acts[n].arm.payload, acts[n].arm.frame, views[n + 1], t);
  }
}
