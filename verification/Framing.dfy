/** Packet framing: a stream of built packets, cut off anywhere, decodes to exactly the packets it
    holds whole; and the byte queue of every session is such a stream with nothing cut off. */
module Framing {
  import opened Wrappers
  import opened BanchoTypes
  import opened Uleb128
  import opened Wire
  import opened Packets
  import opened Rounds
  import opened Network

  datatype RawPacket = RawPacket(id: u16, payload: bytes)

  // ---------- decoding ----------

  // The packet at the front of the stream, or None when the stream ends inside it.
  function NextPacket(s: bytes): Option<(RawPacket, bytes)> {
    match GetHeader(s)
    case None => None
    case Some((id, len, rest)) => if |rest| < len then None else Some((RawPacket(id, rest[..len]), rest[len..]))
  }

  lemma NextIsShorter(s: bytes)
    ensures NextPacket(s).Some? ==> |NextPacket(s).value.1| < |s|
  {
  }

  function Decoded(s: bytes): seq<RawPacket>
    decreases |s|
  {
    NextIsShorter(s);
    match NextPacket(s)
    case None => []
    case Some((p, rest)) => [p] + Decoded(rest)
  }

  // What is left after the last whole packet.
  function Tail(s: bytes): bytes
    decreases |s|
  {
    NextIsShorter(s);
    match NextPacket(s)
    case None => s
    case Some((_, rest)) => Tail(rest)
  }

  // ---------- encoding ----------

  function FramedPacket(p: RawPacket): bytes {
    Framed(p.id, p.payload)
  }

  function Stream(ps: seq<RawPacket>): bytes {
    if ps == [] then [] else FramedPacket(ps[0]) + Stream(ps[1..])
  }

  // The 32-bit length field holds the length of the payload.
  predicate Sized(p: RawPacket) {
    |p.payload| < 0x1_0000_0000
  }

  // One packet survives framing exactly when its length fits the header.
  lemma OnePacket(p: RawPacket, r: bytes)
    ensures NextPacket(FramedPacket(p) + r) == Some((p, r)) <==> Sized(p)
  {
    HeaderRoundTrip(p.id, p.payload, r);
    var len := |p.payload| % 0x1_0000_0000;
    assert (p.payload + r)[..len] == p.payload[..len];
    if Sized(p) { assert (p.payload + r)[len..] == r; }
  }

  lemma {:induction false} StreamDecodes(ps: seq<RawPacket>, tail: bytes)
    requires forall p :: p in ps ==> Sized(p)
    requires NextPacket(tail).None?
    ensures Decoded(Stream(ps) + tail) == ps && Tail(Stream(ps) + tail) == tail
  {
    hide NextPacket; hide FramedPacket;
    if ps == [] {
      assert [] + tail == tail;
    } else {
      var r := Stream(ps[1..]) + tail;
      assert Stream(ps) + tail == FramedPacket(ps[0]) + r;
      OnePacket(ps[0], r);
      StreamDecodes(ps[1..], tail);
    }
  }

  lemma {:induction false} TailIsIncomplete(s: bytes)
    ensures NextPacket(Tail(s)).None?
    decreases |s|
  {
    NextIsShorter(s);
    if NextPacket(s).Some? { TailIsIncomplete(NextPacket(s).value.1); }
  }

  lemma {:induction false} StreamJoins(a: seq<RawPacket>, b: seq<RawPacket>)
    ensures Stream(a + b) == Stream(a) + Stream(b)
  {
    hide FramedPacket;
    if a == [] {
      assert [] + b == b;
    } else {
      assert (a + b)[1..] == a[1..] + b;
      StreamJoins(a[1..], b);
      Regroup2(FramedPacket(a[0]), Stream(a[1..]), Stream(b));
    }
  }

  // A stream cut anywhere: what comes out of the front part is a prefix of what was sent.
  lemma {:induction false} CutStream(ps: seq<RawPacket>, n: nat)
    requires forall p :: p in ps ==> Sized(p)
    requires n <= |Stream(ps)|
    ensures Decoded(Stream(ps)[..n]) <= ps
  {
    hide FramedPacket; hide NextPacket;
    if ps != [] {
      var (first, rest) := (FramedPacket(ps[0]), Stream(ps[1..]));
      if n >= |first| {
        assert Stream(ps)[..n] == first + rest[..n - |first|];
        OnePacket(ps[0], rest[..n - |first|]);
        CutStream(ps[1..], n - |first|);
      } else {
        assert Stream(ps)[..n] == first[..n];
        CutPacket(ps[0], n);
      }
    } else {
      NothingDecodes();
    }
  }

  lemma NothingDecodes()
    ensures NextPacket([]).None?
  {
  }

  lemma CutPacket(p: RawPacket, n: nat)
    requires Sized(p) && n < |FramedPacket(p)|
    ensures NextPacket(FramedPacket(p)[..n]).None?
  {
    hide GetU16; hide GetU32;
    var s := FramedPacket(p);
    assert s + [] == s;
    HeaderRoundTrip(p.id, p.payload, []);
    FramedLength(p.id, p.payload);
    if n >= 7 { LengthField(s, n); }
  }

  lemma FramedLength(id: u16, payload: bytes)
    ensures |Framed(id, payload)| == 7 + |payload|
  {
  }

  lemma LengthField(s: bytes, n: nat)
    requires 7 <= n <= |s|
    ensures GetU32(s[..n][3..]).value == GetU32(s[3..]).value && GetU16(s[..n]).value == GetU16(s).value
  {
    assert s[..n][3..][..4] == s[3..][..4];
    assert s[..n][..2] == s[..2];
  }

  // ---------- receiving ----------

  // One turn of the loop of handle_client_packets: a packet and what follows it, the end of the loop, or
  // a payload length for which there is no room.
  function Receive(s: bytes, memory: nat): Parse<RawPacket> {
    match GetHeader(s)
    case None => Fail(UnexpectedEof)
    case Some((id, len, rest)) =>
      match GetRoom(rest, len, memory)
      case Fail(e) => Fail(e)
      case Read(payload, rest') => Read(RawPacket(id, payload), rest')
  }

  // The length the header at the front declares.
  function HeaderLength(s: bytes): set<nat> {
    match GetHeader(s)
    case None => {}
    case Some((_, len, _)) => {len}
  }

  // The lengths of all headers of a stream, the incomplete packet at its end included.
  function HeaderLengths(s: bytes): set<nat>
    decreases |s|
  {
    NextIsShorter(s);
    HeaderLength(s) +
      match NextPacket(s)
      case None => {}
      case Some((_, rest)) => HeaderLengths(rest)
  }

  // Receiving halts exactly when the length declared is refused, and otherwise finds the next packet.
  lemma ReceiveHaltsIff(s: bytes, memory: nat)
    ensures Receive(s, memory) == Fail(Halted) <==> !AllAtMost(HeaderLength(s), memory)
    ensures AllAtMost(HeaderLength(s), memory) ==>
      Receive(s, memory) == if NextPacket(s).Some? then Read(NextPacket(s).value.0, NextPacket(s).value.1)
                            else Fail(UnexpectedEof)
  {
    hide GetU16; hide GetU32;
  }

  // The packets received before the stream ends or a length is refused.
  function Received(s: bytes, memory: nat): seq<RawPacket>
    decreases |s|
  {
    ReceiveIsShorter(s, memory);
    match Receive(s, memory)
    case Fail(_) => []
    case Read(p, rest) => [p] + Received(rest, memory)
  }

  lemma ReceiveIsShorter(s: bytes, memory: nat)
    ensures Receive(s, memory).Read? ==> |Receive(s, memory).rest| < |s|
  {
  }

  // They are a prefix of the whole packets of the stream, and all of them when no length is refused.
  lemma {:induction false} ReceivedIsDecoded(s: bytes, memory: nat)
    ensures Received(s, memory) <= Decoded(s)
    ensures AllAtMost(HeaderLengths(s), memory) ==> Received(s, memory) == Decoded(s)
    decreases |s|
  {
    hide Receive; hide NextPacket; hide HeaderLength;
    ReceiveIsShorter(s, memory);
    ReceiveHaltsIff(s, memory);
    if Receive(s, memory).Read? { ReceivedIsDecoded(Receive(s, memory).rest, memory); }
  }

  // One turn of the loop, after some packets.
  lemma ReceiveTurn(s: bytes, packets: seq<RawPacket>, memory: nat)
    ensures var r := Receive(s, memory);
      r.Fail? ==>
        packets + Received(s, memory) == packets && (AllAtMost(HeaderLengths(s), memory) <==> r.error != Halted)
    ensures var r := Receive(s, memory);
      r.Read? ==>
        && |r.rest| < |s| && packets + Received(s, memory) == packets + [r.value] + Received(r.rest, memory)
        && (AllAtMost(HeaderLengths(s), memory) <==> AllAtMost(HeaderLengths(r.rest), memory))
  {
    hide Receive; hide NextPacket; hide HeaderLength;
    ReceiveIsShorter(s, memory);
    ReceiveHaltsIff(s, memory);
    NextIsShorter(s);
  }

  // The loop of handle_client_packets, up to what each packet does.
  method ReadPackets(data: bytes, memory: nat) returns (packets: seq<RawPacket>, ended: bool)
    ensures packets == Received(data, memory)
    ensures ended <==> AllAtMost(HeaderLengths(data), memory)
    ensures packets <= Decoded(data) && (ended ==> packets == Decoded(data))
  {
    hide NextPacket; hide Receive; hide HeaderLength; hide Decoded; hide AllAtMost; hide Received; hide HeaderLengths;
    ReceivedIsDecoded(data, memory);
    var reader := new PacketReader(data, memory);
    packets := [];
    while true
      invariant reader.Valid() && reader.memory == memory
      invariant packets + Received(reader.Left(), memory) == Received(data, memory)
      invariant AllAtMost(HeaderLengths(reader.Left()), memory) <==> AllAtMost(HeaderLengths(data), memory)
      decreases |reader.Left()|
    {
      ReceiveTurn(reader.Left(), packets, memory);
      var p := ReadOne(reader);
      if p.Err? { return packets, p.error != Halted; }
      packets := packets + [p.value];
    }
  }

  // One turn of the loop: a header and its payload, or the end of the loop.
  method ReadOne(reader: PacketReader) returns (p: Result<RawPacket, WireError>)
    requires reader.Valid()
    modifies reader
    ensures reader.Valid() && Agrees(p, Receive(old(reader.Left()), reader.memory), reader.Left())
  {
    var header := reader.ReadPacketHeader();
    if header.None? { return Err(UnexpectedEof); }
    var (id, len) := header.value;
    var payload :- reader.ReadBytes(len);
    return Ok(RawPacket(id, payload));
  }

  // ---------- the packets of the server ----------

  // The name and id the server's own chat messages carry.
  datatype Bot = Bot(name: bytes, id: i32)

  function Ascii(s: string): bytes {
    seq(|s|, i requires 0 <= i < |s| => if s[i] < 128 as char then s[i] as int else 63)
  }

  function Digits(n: nat): string {
    if n < 10 then [('0' as int + n) as char] else Digits(n / 10) + [('0' as int + n % 10) as char]
  }

  function Decimal(n: int): bytes {
    Ascii(if n < 0 then "-" + Digits(-n) else Digits(n))
  }

  function NameText(name: Name): bytes {
    match name
    case Known(text) => text
    case Numbered(user) => Ascii("Player ") + Decimal(user)
  }

  function Announcement(o: Outcome): bytes {
    if o.teamVs then
      Ascii("Team Vs match concluded! Winner: "
            + if o.team == TEAM_BLUE then "Blue Team" else if o.team == TEAM_RED then "Red Team" else "Draw")
    else
      Ascii("Match concluded! Winner: ") + NameText(o.best.name) +
        Ascii(" (") + Decimal(o.best.score) + Ascii(" points)")
  }

  function ChatMessage(bot: Bot, content: bytes, target: bytes): bytes {
    PutString(bot.name) + PutString(content) + PutString(target) + PutI32(bot.id)
  }

  // The bytes each packet stands for, with the numbers of src/protocol/constants.rs.
  function Raw(p: Packet, bot: Bot): RawPacket {
    match p
    case MatchUpdate(m) => RawPacket(26, MatchBytes(m, false))
    case MatchNew(m) => RawPacket(27, MatchBytes(m, false))
    case MatchJoinSuccess(m) => RawPacket(36, MatchBytes(m, true))
    case MatchJoinFail => RawPacket(37, [])
    case MatchDisband(id) => RawPacket(28, PutI32(id))
    case MatchStart(m) => RawPacket(46, MatchBytes(m, false))
    case MatchScoreUpdate(payload) => RawPacket(CHO_MATCH_SCORE_UPDATE, payload)
    case MatchTransferHost => RawPacket(50, [])
    case MatchAllPlayersLoaded => RawPacket(53, [])
    case MatchPlayerFailed(slot) => RawPacket(57, PutI32(slot))
    case MatchPlayerSkipped(slot) => RawPacket(81, PutI32(slot))
    case MatchComplete => RawPacket(58, [])
    case RoundConcluded(outcome) => RawPacket(7, ChatMessage(bot, Announcement(outcome), MULTIPLAYER))
    case SpectatorJoined(user) => RawPacket(13, PutI32(user))
    case SpectatorLeft(user) => RawPacket(14, PutI32(user))
    case FellowSpectatorJoined(user) => RawPacket(42, PutI32(user))
    case FellowSpectatorLeft(user) => RawPacket(43, PutI32(user))
    case SpectatorCantSpectate(user) => RawPacket(22, PutI32(user))
    case SpectateFrames(raw) => RawPacket(15, raw)
    case ChannelJoinSuccess(channel) => RawPacket(64, PutString(channel))
    case ChannelPart(channel) => RawPacket(90, PutString(channel))
    case UserQuit(user, how) => RawPacket(12, PutI32(user) + [how])
    case Other(id, payload) => RawPacket(id, payload)
  }

  // The byte queue of a session: enqueue_packet appends the packet's bytes.
  function QueueBytes(queue: seq<Packet>, bot: Bot): bytes {
    if queue == [] then []
    else QueueBytes(queue[..|queue| - 1], bot) + FramedPacket(Raw(queue[|queue| - 1], bot))
  }

  function RawQueue(queue: seq<Packet>, bot: Bot): seq<RawPacket> {
    seq(|queue|, i requires 0 <= i < |queue| => Raw(queue[i], bot))
  }

  lemma {:induction false} QueueIsStream(queue: seq<Packet>, bot: Bot)
    ensures QueueBytes(queue, bot) == Stream(RawQueue(queue, bot))
  {
    hide Raw; hide FramedPacket;
    if queue != [] {
      var n := |queue| - 1;
      QueueIsStream(queue[..n], bot);
      assert RawQueue(queue, bot) == RawQueue(queue[..n], bot) + [Raw(queue[n], bot)];
      StreamJoins(RawQueue(queue[..n], bot), [Raw(queue[n], bot)]);
      assert Stream([Raw(queue[n], bot)]) == FramedPacket(Raw(queue[n], bot)) + Stream([]);
    }
  }

  // A client polling reads back exactly the packets queued for it, in order, and nothing is left over.
  lemma QueueDelivers(queue: seq<Packet>, bot: Bot)
    requires forall i :: 0 <= i < |queue| ==> Sized(Raw(queue[i], bot))
    ensures Decoded(QueueBytes(queue, bot)) == RawQueue(queue, bot) && Tail(QueueBytes(queue, bot)) == []
  {
    hide Raw; hide NextPacket; hide Decoded; hide Tail; hide Stream;
    QueueIsStream(queue, bot);
    NothingDecodes();
    StreamDecodes(RawQueue(queue, bot), []);
    assert Stream(RawQueue(queue, bot)) + [] == Stream(RawQueue(queue, bot));
  }

  // ---------- delivery ----------

  // Posting appends one framed copy to the byte queue of each session in who, and leaves every
  // other session's bytes alone.
  lemma PostDelivers(net: Net, who: set<int>, p: Packet, bot: Bot, t: Token)
    requires t in net.sessions
    ensures var q := net.sessions[t].queue;
      QueueBytes(Post(net, who, p).sessions[t].queue, bot) ==
        if net.sessions[t].user in who then QueueBytes(q, bot) + FramedPacket(Raw(p, bot)) else QueueBytes(q, bot)
  {
    hide Raw; hide FramedPacket;
    var q := net.sessions[t].queue;
    assert (q + [p])[..|q|] == q;
  }
}
