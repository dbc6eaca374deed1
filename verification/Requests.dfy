/** One request of a logged-in client: its body is cut into packets, and each packet is carried out
    in turn (handle_client_packets of src/bancho/handler.rs). */
module Requests {
  import opened BanchoTypes
  import opened Uleb128
  import opened Wire
  import opened Packets
  import opened Rooms
  import opened RoomSafety
  import opened Spectating
  import opened Network
  import opened Framing
  import opened Orders
  import opened Server
  import opened ServerSafety
  import opened Runs
  import opened BanchoState
  import opened Delivery
  import opened Exactness

  // A run of steps from any state.
  ghost predicate Steps(views: seq<View>, acts: seq<Action>) {
    && |views| == |acts| + 1
    && forall i :: 0 <= i < |acts| ==> Step(views[i], acts[i], views[i + 1])
  }

  lemma StepsJoin(views: seq<View>, acts: seq<Action>, a: Action, v: View)
    requires Steps(views, acts) && Step(views[|acts|], a, v)
    ensures Steps(views + [v], acts + [a])
  {
    hide Step;
    forall i | 0 <= i < |acts| + 1 ensures Step((views + [v])[i], (acts + [a])[i], (views + [v])[i + 1]) {
      if i < |acts| { assert Step(views[i], acts[i], views[i + 1]); }
    }
  }

  lemma ArmKeepsSession(v: View, user: i32, arm: Arm, v': View, token: Token)
    requires Inv(v) && Step(v, From(user, arm), v')
    requires token in v.net.sessions && v.net.sessions[token].user == user
    ensures token in v'.net.sessions && v'.net.sessions[token].user == user
  {
    hide Inv; hide DoArm;
    var order :| GoodOrder(v.rooms, order) && v' == DoArm(v, user, arm, order);
    ArmKeeps(v, user, arm, order);
    SessionStays(v, v', token);
  }

  lemma SessionStays(v: View, v': View, token: Token)
    requires Inv(v) && Inv(v') && v'.net.tokens == v.net.tokens && token in v.net.sessions
    ensures token in v'.net.sessions && v'.net.sessions[token].user == v.net.sessions[token].user
  {
    hide RoomsInv; hide WatchInv; hide ChannelInv;
  }

  lemma LogoutIsAStep(v: View, user: i32)
    ensures Step(v, Action.Disconnect(user, 0), DoDisconnect(v, user, 0))
  {
    hide DoDisconnect;
  }

  // Steps that keep mapping and seats inverse.
  lemma {:induction false} StepsAreExact(views: seq<View>, acts: seq<Action>, n: nat)
    requires Steps(views, acts) && n <= |acts| && Inv(views[0]) && SeatsExact(views[0].rooms)
    requires forall i :: 0 <= i < n ==> CreateIsFree(views[i], acts[i])
    ensures Inv(views[n]) && SeatsExact(views[n].rooms)
  {
    hide Inv; hide Step; hide CreateIsFree; hide SeatsExact;
    if n > 0 {
      StepsAreExact(views, acts, n - 1);
      StepKeepsInv(views[n - 1], acts[n - 1], views[n]);
      StepKeepsExact(views[n - 1], acts[n - 1], views[n]);
    }
  }

  // One packet of a live session: a step, a logout, nothing, or the end of it all.
  method CarryOutOne(st: BanchoState, token: Token, order: Order, ghost user: i32)
    returns (ghost acts: seq<Action>)
    requires st.Valid() && token in st.sessions && st.sessions[token].user == user
    modifies st
    ensures st.Valid() && acts == AskedBy(order, user)
    ensures acts == [] ==> st.State() == old(st.State())
    ensures acts != [] ==> Step(old(st.State()), acts[0], st.State())
    ensures !order.Logout? ==> token in st.sessions && st.sessions[token].user == user
  {
    hide Inv; hide Step;
    acts := [];
    if order.Logout? {
      LogoutIsAStep(st.State(), user);
      st.Disconnect(token, 0);
      acts := [Action.Disconnect(user, 0)];
    } else if order.Play? {
      ghost var v := st.State();
      st.HandlePacket(token, order.arm);
      ArmKeepsSession(v, user, order.arm, st.State(), token);
      acts := [From(user, order.arm)];
    }
  }

  lemma NoStepYet(v: View)
    ensures Steps([v], [])
  {
  }

  lemma OneActionAtMost(order: Order, user: i32)
    ensures AskedBy(order, user) != [] ==> AskedBy(order, user) == [AskedBy(order, user)[0]]
  {
  }

  // The loop over the packets of a body.
  method CarryOut(st: BanchoState, token: Token, data: bytes, memory: nat, now: int)
    returns (ended: bool, ghost views: seq<View>, ghost acts: seq<Action>)
    requires st.Valid() && token in st.sessions
    modifies st
    ensures st.Valid() && Course(acts, ended) == CourseOf(data, memory, old(st.sessions)[token].user, now)
    ensures Steps(views, acts) && views[0] == old(st.State()) && views[|acts|] == st.State()
  {
    hide Inv; hide Step; hide Receive; hide OrderOf; hide CourseOf; hide Steps; hide Before; hide AskedBy;
    ghost var user := st.sessions[token].user;
    var reader := new PacketReader(data, memory);
    views, acts := [st.State()], [];
    NoStepYet(st.State());
    NoneBefore(CourseOf(data, memory, user, now));
    var more := true;
    ended := true;
    while more
      invariant st.Valid() && reader.Valid() && reader.memory == memory
      invariant more ==> token in st.sessions && st.sessions[token].user == user
      invariant CourseOf(data, memory, user, now) ==
        if more then Before(acts, CourseOf(reader.Left(), memory, user, now)) else Course(acts, ended)
      invariant |views| == |acts| + 1 && Steps(views, acts)
      invariant views[0] == old(st.State()) && views[|acts|] == st.State()
      decreases more, |reader.Left()|
    {
      CourseTurn(reader.Left(), acts, memory, user, now);
      var p := ReadOne(reader);
      if p.Err? {
        more, ended := false, p.error != Halted;
      } else {
        var order := OrderOf(p.value, memory, now);
        ghost var step := CarryOutOne(st, token, order, user);
        if step != [] {
          OneActionAtMost(order, user);
          StepsJoin(views, acts, step[0], st.State());
          views := views + [st.State()];
        } else {
          assert acts + step == acts;
        }
        acts := acts + step;
        more, ended := !order.Logout? && !order.Halt?, !order.Halt?;
      }
    }
  }

  // handle_client_packets: whatever bytes a client sends, the server takes exactly the steps that the
  // packets it gets to ask for, up to a logout, and its state stays sound; it gets to the end exactly when
  // there is room for every payload and text read on the way. Mapping and seats stay inverse besides when
  // no create among the steps takes the number of an open room. The code gives up its lock between two
  // packets; the steps of others that may then come in between are those of Runs.Run.
  method HandleRequest(st: BanchoState, token: Token, data: bytes, memory: nat, now: int)
    returns (ended: bool, ghost views: seq<View>, ghost acts: seq<Action>)
    requires st.Valid()
    modifies st
    ensures st.Valid()
    ensures token !in old(st.sessions) ==>
      st.State() == old(st.State()) && (ended <==> AllAtMost(HeaderLength(data), memory))
    ensures token in old(st.sessions) ==>
      Course(acts, ended) == CourseOf(data, memory, old(st.sessions)[token].user, now)
    ensures token in old(st.sessions) ==>
      (ended <==> AllAtMost(Announced(data), memory)) &&
        acts <= ActsOf(Decoded(data), old(st.sessions)[token].user, now)
    ensures Steps(views, acts) && views[0] == old(st.State()) && views[|acts|] == st.State()
    ensures SeatsExact(old(st.RoomsOf())) && (forall i :: 0 <= i < |acts| ==> CreateIsFree(views[i], acts[i])) ==>
      SeatsExact(st.RoomsOf())
  {
    hide Inv; hide Step; hide Receive; hide CourseOf; hide SeatsExact; hide CreateIsFree; hide HeaderLength;
    hide Announced; hide ActsOf; hide Decoded;
    if token !in st.sessions {
      ReceiveHaltsIff(data, memory);
      var reader := new PacketReader(data, memory);
      var unread := ReadOne(reader);
      return unread.Ok? || unread.error != Halted, [st.State()], [];
    }
    BodyEndsIff(data, memory, st.sessions[token].user, now);
    ended, views, acts := CarryOut(st, token, data, memory, now);
    if SeatsExact(views[0].rooms) && forall i :: 0 <= i < |acts| ==> CreateIsFree(views[i], acts[i]) {
      StepsAreExact(views, acts, |acts|);
    }
  }

  // ---------- requests are small ----------

  lemma StringFits(s: bytes)
    ensures GetString(s, UNLIMITED).Read? ==>
      |GetString(s, UNLIMITED).value| <= |s| && |GetString(s, UNLIMITED).rest| <= |s|
  {
    if s != [] && Decode(s[1..]).Read? { ReadsAtMostTen(s[1..]); }
  }

  lemma HeadFits(s: bytes)
    ensures GetHead(s, UNLIMITED).Read? ==>
      var (m, rest) := (GetHead(s, UNLIMITED).value, GetHead(s, UNLIMITED).rest);
      |m.name| <= |s| && |m.password.GetOr([])| <= |s| && |rest| <= |s|
  {
    hide GetString; hide NewMatch;
    if GetHead(s, UNLIMITED).Read? {
      var s4 := GetU32(GetU8(GetBool(GetU16(s).rest).rest).rest).rest;
      StringFits(s4);
      StringFits(GetString(s4, UNLIMITED).rest);
    }
  }

  lemma MapFits(m: Match, s: bytes)
    ensures GetMap(m, s, UNLIMITED).Read? ==>
      var m' := GetMap(m, s, UNLIMITED).value;
      |m'.beatmapName| <= |s| && |m'.beatmapMd5| <= |s| && m'.name == m.name && m'.password == m.password
  {
    hide GetString;
    if GetMap(m, s, UNLIMITED).Read? {
      StringFits(s);
      StringFits(GetI32(GetString(s, UNLIMITED).rest).rest);
    }
  }

  lemma MatchFits(s: bytes)
    requires |s| <= LIMIT && GetMatch(s, UNLIMITED).Read?
    ensures SmallMatch(GetMatch(s, UNLIMITED).value)
  {
    hide GetHead; hide GetMap; hide GetSlots; hide GetMods; hide GetU32;
    HeadFits(s);
    MapFits(GetHead(s, UNLIMITED).value, GetHead(s, UNLIMITED).rest);
  }

  lemma OrderIsSmall(p: RawPacket, now: int)
    requires |p.payload| <= LIMIT
    ensures OrderOf(p, UNLIMITED, now).Play? ==> SmallArm(OrderOf(p, UNLIMITED, now).arm)
  {
    hide GetMatch; hide GetString; hide GetFrame; hide GetI32; hide GetU32; hide SmallMatch;
    if GetMatch(p.payload, UNLIMITED).Read? { MatchFits(p.payload); }
    StringFits(p.payload);
  }

  lemma {:induction false} PayloadsFit(s: bytes)
    ensures forall p :: p in Decoded(s) ==> |p.payload| <= |s|
    decreases |s|
  {
    NextIsShorter(s);
    if NextPacket(s).Some? { PayloadsFit(NextPacket(s).value.1); }
  }

  lemma {:induction false} ActsAreSmall(ps: seq<RawPacket>, user: i32, now: int)
    requires forall p :: p in ps ==> |p.payload| <= LIMIT
    ensures forall a :: a in ActsOf(ps, user, now) ==> SmallAction(a)
  {
    hide OrderOf; hide SmallArm;
    if ps != [] {
      ActsAreSmall(ps[1..], user, now);
      OrderIsSmall(ps[0], now);
    }
  }

  // Every action of a request body within the limit meets the size condition of EveryQueueDecodes.
  lemma RequestIsSmall(data: bytes, memory: nat, user: i32, now: int)
    requires |data| <= LIMIT
    ensures forall a :: a in CourseOf(data, memory, user, now).acts ==> SmallAction(a)
  {
    hide ActsOf; hide Decoded; hide SmallAction; hide CourseOf; hide Announced;
    BodyEndsIff(data, memory, user, now);
    PayloadsFit(data);
    ActsAreSmall(Decoded(data), user, now);
  }
}
