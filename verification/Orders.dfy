/** What the packets of a request ask for (handle_client_packets of src/bancho/handler.rs), and how far into
    a body the server gets: a text or payload whose declared length the allocator refuses ends it all. */
module Orders {
  import opened Wrappers
  import opened BanchoTypes
  import opened Uleb128
  import opened Wire
  import opened Packets
  import opened Framing
  import opened Server

  // What a packet asks for. Ignored covers the arms outside this model and malformed payloads; Halt is a
  // text for which there is no room.
  datatype Order = Play(arm: Arm) | Logout | Ignored | Halt

  function Otherwise(e: WireError): Order {
    if e == Halted then Halt else Ignored
  }

  function WithI32(payload: bytes, f: i32 -> Arm): Order {
    match GetI32(payload)
    case Read(x, _) => Play(f(x))
    case Fail(_) => Ignored
  }

  function WithText(payload: bytes, memory: nat, f: bytes -> Arm): Order {
    match GetString(payload, memory)
    case Read(x, _) => Play(f(x))
    case Fail(e) => Otherwise(e)
  }

  function WithMatch(payload: bytes, memory: nat, f: Match -> Arm): Order {
    match GetMatch(payload, memory)
    case Read(x, _) => Play(f(x))
    case Fail(e) => Otherwise(e)
  }

  function JoinOrder(payload: bytes, memory: nat): Order {
    match GetI32(payload)
    case Fail(_) => Ignored
    case Read(id, rest) =>
      match GetString(rest, memory)
      case Read(password, _) => Play(JoinRoom(id, password))
      case Fail(e) => Otherwise(e)
  }

  // Arms outside this model that read texts one after another, whether or not the one before was read.
  function TextsOrder(s: bytes, count: nat, memory: nat): Order
    decreases count
  {
    if count == 0 then Ignored
    else if GetString(s, memory) == Fail(Halted) then Halt
    else TextsOrder(AfterText(s), count - 1, memory)
  }

  // What is left after one byte, if there is one.
  function AfterByte(s: bytes): bytes {
    if s == [] then [] else s[1..]
  }

  function ModsOrder(payload: bytes): Order {
    match GetU32(payload)
    case Read(x, _) => Play(ChangeMods(x))
    case Fail(_) => Ignored
  }

  function ScoreOrder(payload: bytes): Order {
    match GetFrame(payload)
    case Read(f, _) => Play(ScoreUpdate(payload, f))
    case Fail(_) => Ignored
  }

  // The packet numbers of src/protocol/constants.rs; now is the time at which a START is carried out.
  function OrderOf(p: RawPacket, memory: nat, now: int): Order {
    var raw := p.payload;
    match p.id
    case 0 => TextsOrder(AfterByte(raw), 2, memory)
    case 1 => TextsOrder(raw, 3, memory)
    case 2 => Logout
    case 16 => WithI32(raw, (x: i32) => Arm.StartSpectating(x))
    case 17 => Play(Arm.StopSpectating)
    case 18 => Play(Arm.SpectateFrames(raw))
    case 21 => Play(Arm.CantSpectate)
    case 25 => TextsOrder(raw, 3, memory)
    case 29 => Play(Arm.LobbyPart)
    case 30 => Play(Arm.LobbyJoin)
    case 31 => WithMatch(raw, memory, x => CreateRoom(x))
    case 32 => JoinOrder(raw, memory)
    case 33 => Play(PartRoom)
    case 38 => WithI32(raw, (x: i32) => Arm.ChangeSlot(x))
    case 39 => Play(SetReady)
    case 40 => WithI32(raw, (x: i32) => Lock(x))
    case 41 => WithMatch(raw, memory, x => Arm.ChangeSettings(x))
    case 44 => Play(StartRound(now))
    case 47 => ScoreOrder(raw)
    case 49 => Play(CompleteRound)
    case 51 => ModsOrder(raw)
    case 52 => Play(Arm.LoadComplete)
    case 54 => Play(NoBeatmap)
    case 55 => Play(SetNotReady)
    case 56 => Play(Failed)
    case 59 => Play(HasBeatmap)
    case 60 => Play(SkipRequest)
    case 63 => WithText(raw, memory, x => Arm.JoinChannel(x))
    case 70 => WithI32(raw, (x: i32) => Arm.ChangeHost(x))
    case 77 => Play(Arm.ChangeTeam)
    case 78 => WithText(raw, memory, x => Arm.PartChannel(x))
    case _ => Ignored
  }

  // The actions packets ask for when there is room for all they declare: those of each packet in order,
  // up to and including a logout.
  function ActsOf(ps: seq<RawPacket>, user: i32, now: int): seq<Action> {
    if ps == [] then [] else
    match OrderOf(ps[0], UNLIMITED, now)
    case Play(arm) => [From(user, arm)] + ActsOf(ps[1..], user, now)
    case Logout => [Action.Disconnect(user, 0)]
    case _ => ActsOf(ps[1..], user, now)
  }

  // What becomes of a body: the actions carried out, and whether it came to its end or to a logout.
  datatype Course = Course(acts: seq<Action>, ended: bool)

  function CourseOf(s: bytes, memory: nat, user: i32, now: int): Course
    decreases |s|
  {
    ReceiveIsShorter(s, memory);
    match Receive(s, memory)
    case Fail(e) => Course([], e != Halted)
    case Read(p, rest) =>
      match OrderOf(p, memory, now)
      case Play(arm) =>
        var c := CourseOf(rest, memory, user, now);
        Course([From(user, arm)] + c.acts, c.ended)
      case Logout => Course([Action.Disconnect(user, 0)], true)
      case Ignored => CourseOf(rest, memory, user, now)
      case Halt => Course([], false)
  }

  function Before(acts: seq<Action>, c: Course): Course {
    Course(acts + c.acts, c.ended)
  }

  lemma NoneBefore(c: Course)
    ensures Before([], c) == c
  {
    assert [] + c.acts == c.acts;
  }

  // The action an order is, if any.
  function AskedBy(order: Order, user: i32): seq<Action> {
    match order
    case Play(arm) => [From(user, arm)]
    case Logout => [Action.Disconnect(user, 0)]
    case _ => []
  }

  // One turn of the loop, after some actions.
  lemma CourseTurn(s: bytes, acts: seq<Action>, memory: nat, user: i32, now: int)
    ensures Receive(s, memory).Read? ==> |Receive(s, memory).rest| < |s|
    ensures Before(acts, CourseOf(s, memory, user, now)) ==
      match Receive(s, memory)
      case Fail(e) => Course(acts, e != Halted)
      case Read(p, rest) =>
        var order := OrderOf(p, memory, now);
        var acts' := acts + AskedBy(order, user);
        if order.Logout? || order.Halt? then Course(acts', !order.Halt?)
        else Before(acts', CourseOf(rest, memory, user, now))
  {
    hide Receive; hide OrderOf;
    ReceiveIsShorter(s, memory);
  }

  // ---------- the lengths a body declares ----------

  function TextsLengths(s: bytes, count: nat): set<nat>
    decreases count
  {
    if count == 0 then {} else Declared(s) + TextsLengths(AfterText(s), count - 1)
  }

  // The lengths of the texts of a packet that are read.
  function LengthsIn(p: RawPacket): set<nat> {
    var raw := p.payload;
    match p.id
    case 0 => TextsLengths(AfterByte(raw), 2)
    case 1 => TextsLengths(raw, 3)
    case 25 => TextsLengths(raw, 3)
    case 31 => MatchLengths(raw)
    case 32 => if |raw| < 4 then {} else Declared(raw[4..])
    case 41 => MatchLengths(raw)
    case 63 => Declared(raw)
    case 78 => Declared(raw)
    case _ => {}
  }

  // The lengths of the payloads and texts of a body that are read before its end or a logout.
  function Announced(s: bytes): set<nat>
    decreases |s|
  {
    NextIsShorter(s);
    HeaderLength(s) +
      match NextPacket(s)
      case None => {}
      case Some((p, rest)) => LengthsIn(p) + if p.id == 2 then {} else Announced(rest)
  }

  lemma {:induction false} TextsHaltIff(s: bytes, count: nat, memory: nat)
    ensures TextsOrder(s, count, memory) == if AllAtMost(TextsLengths(s, count), memory) then Ignored else Halt
    decreases count
  {
    hide GetString; hide Declared; hide AfterText;
    StringHaltsIff(s, memory);
    if count > 0 { TextsHaltIff(AfterText(s), count - 1, memory); }
  }

  // A packet halts the server exactly when it declares a text for which there is no room, and otherwise
  // asks for the same whatever room there is.
  lemma OrderHaltsIff(p: RawPacket, memory: nat, now: int)
    ensures OrderOf(p, memory, now).Halt? <==> !AllAtMost(LengthsIn(p), memory)
    ensures AllAtMost(LengthsIn(p), memory) ==> OrderOf(p, memory, now) == OrderOf(p, UNLIMITED, now)
    ensures !OrderOf(p, UNLIMITED, now).Halt?
  {
    hide GetString; hide GetMatch; hide GetFrame; hide GetU32; hide Declared; hide MatchLengths;
    hide TextsOrder; hide TextsLengths;
    var raw := p.payload;
    StringHaltsIff(raw, memory);
    MatchHaltsIff(raw, memory);
    if |raw| >= 4 { StringHaltsIff(raw[4..], memory); }
    TextsHaltIff(AfterByte(raw), 2, memory);
    TextsHaltIff(raw, 3, memory);
    TextsHaltIff(AfterByte(raw), 2, UNLIMITED);
    TextsHaltIff(raw, 3, UNLIMITED);
    TextsUnlimited(AfterByte(raw), 2);
    TextsUnlimited(raw, 3);
    if p.id == 32 { JoinReads(raw); }
  }

  lemma JoinReads(raw: bytes)
    ensures GetI32(raw).Read? <==> |raw| >= 4
    ensures |raw| >= 4 ==> GetI32(raw).rest == raw[4..]
  {
  }

  lemma {:induction false} TextsUnlimited(s: bytes, count: nat)
    ensures AllAtMost(TextsLengths(s, count), UNLIMITED)
    decreases count
  {
    hide Declared; hide AfterText; hide GetString;
    if count > 0 {
      StringHaltsIff(s, UNLIMITED);
      TextsUnlimited(AfterText(s), count - 1);
    }
  }

  // A body is carried out to its end or its logout exactly when no payload or text read before that
  // declares more than there is room for; otherwise only the first of its actions are carried out.
  lemma {:induction false} BodyEndsIff(s: bytes, memory: nat, user: i32, now: int)
    ensures CourseOf(s, memory, user, now).ended <==> AllAtMost(Announced(s), memory)
    ensures CourseOf(s, memory, user, now).ended ==>
      CourseOf(s, memory, user, now).acts == ActsOf(Decoded(s), user, now)
    ensures CourseOf(s, memory, user, now).acts <= ActsOf(Decoded(s), user, now)
    decreases |s|
  {
    hide Receive; hide NextPacket; hide OrderOf; hide LengthsIn; hide HeaderLength;
    ReceiveIsShorter(s, memory);
    ReceiveHaltsIff(s, memory);
    if Receive(s, memory).Read? {
      var (p, rest) := (Receive(s, memory).value, Receive(s, memory).rest);
      assert Decoded(s) == [p] + Decoded(rest);
      OrderHaltsIff(p, memory, now);
      LogoutIs(p, memory, now);
      BodyEndsIff(rest, memory, user, now);
    }
  }

  lemma LogoutIs(p: RawPacket, memory: nat, now: int)
    ensures OrderOf(p, memory, now).Logout? <==> p.id == 2
  {
    hide GetString; hide GetMatch; hide GetFrame; hide GetU32; hide GetI32; hide TextsOrder; hide TextsLengths;
    TextsHaltIff(AfterByte(p.payload), 2, memory);
    TextsHaltIff(p.payload, 3, memory);
  }

  // A CHANNEL_JOIN of eighteen bytes whose text declares 2^63: the allocation panics whatever memory there
  // is, and none of the packets behind it is carried out.
  const HUGE: nat := 0x8000_0000_0000_0000
  const HUGE_TEXT: RawPacket := RawPacket(63, [SOME_TEXT] + Encode(HUGE))

  lemma HugeTextHalts(memory: nat, user: i32, now: int)
    requires memory < HUGE
    ensures var body := FramedPacket(HUGE_TEXT) + FramedPacket(RawPacket(33, []));
      && CourseOf(body, memory, user, now) == Course([], false)
      && ActsOf(Decoded(body), user, now) == [From(user, PartRoom)]
  {
    hide Receive; hide NextPacket; hide Encode; hide FramedPacket;
    var (tail, last) := (FramedPacket(RawPacket(33, [])), RawPacket(33, []));
    var body := FramedPacket(HUGE_TEXT) + tail;
    EncodeAtMostTen(HUGE);
    OnePacket(HUGE_TEXT, tail);
    OnePacket(last, []);
    assert tail + [] == tail;
    NothingDecodes();
    HugeText(memory);
    assert Decoded(tail) == [last] + Decoded([]);
    assert Decoded(body) == [HUGE_TEXT, last];
    assert Announced(body) >= LengthsIn(HUGE_TEXT);
    BodyEndsIff(body, memory, user, now);
    HugeFirst(body, tail, memory, user, now);
    assert ActsOf([last], user, now) == [From(user, PartRoom)] + ActsOf([], user, now);
  }

  lemma HugeText(memory: nat)
    requires memory < HUGE
    ensures HUGE in LengthsIn(HUGE_TEXT) && OrderOf(HUGE_TEXT, UNLIMITED, 0) == Ignored
    ensures forall now :: OrderOf(HUGE_TEXT, memory, now) == Halt && OrderOf(HUGE_TEXT, UNLIMITED, now) == Ignored
  {
    hide Encode; hide Decode;
    var s := [SOME_TEXT] + Encode(HUGE);
    assert s[1..] == Encode(HUGE) + [] == Encode(HUGE);
    RoundTrip(HUGE, []);
  }

  lemma HugeFirst(body: bytes, tail: bytes, memory: nat, user: i32, now: int)
    requires memory < HUGE && NextPacket(body) == Some((HUGE_TEXT, tail))
    ensures CourseOf(body, memory, user, now) == Course([], false)
  {
    hide Receive; hide NextPacket; hide OrderOf; hide LengthsIn;
    ReceiveHaltsIff(body, memory);
    HugeText(memory);
  }
}
