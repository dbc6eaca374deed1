/** Every packet the modelled handlers send, built with a PacketWriter as src/protocol/packets.rs does,
    and the byte queue of a session that collects them. */
module Builders {
  import opened BanchoTypes
  import opened Wire
  import opened Packets
  import opened PacketCode
  import opened Network
  import opened Framing

  // The builders that write one number.
  method BuildNumber(id: u16, x: int) returns (packet: bytes)
    ensures packet == Framed(id, PutI32(x))
  {
    var w := new PacketWriter();
    w.WriteU32(x % 0x1_0000_0000);
    packet := BuildPacket(id, w.buffer);
  }

  // The builders that write one text.
  method BuildText(id: u16, text: bytes) returns (packet: bytes)
    ensures packet == Framed(id, PutString(text))
  {
    hide PutString;
    var w := new PacketWriter();
    w.WriteOsuString(text);
    packet := BuildPacket(id, w.buffer);
  }

  // build_user_quit
  method BuildUserQuit(user: int, how: u8) returns (packet: bytes)
    ensures packet == Framed(12, PutI32(user) + [how])
  {
    var w := new PacketWriter();
    w.WriteU32(user % 0x1_0000_0000);
    w.WriteU8(how);
    packet := BuildPacket(12, w.buffer);
  }

  // build_send_message, for a message of the server's own.
  method BuildSendMessage(bot: Bot, content: bytes, target: bytes) returns (packet: bytes)
    ensures packet == Framed(7, ChatMessage(bot, content, target))
  {
    hide PutString; hide PutI32;
    var w := new PacketWriter();
    w.WriteOsuString(bot.name);
    w.WriteOsuString(content);
    w.WriteOsuString(target);
    w.WriteI32(bot.id);
    packet := BuildPacket(7, w.buffer);
  }

  // The bytes of a packet about a room.
  method BuildRoomPacket(p: Packet) returns (packet: bytes)
    requires p.MatchUpdate? || p.MatchNew? || p.MatchJoinSuccess? || p.MatchStart?
    ensures forall bot: Bot :: packet == FramedPacket(Raw(p, bot))
  {
    hide MatchBytes; hide Framed;
    if p.MatchUpdate? { packet := BuildMatchPacket(26, p.room, false); }
    else if p.MatchNew? { packet := BuildMatchPacket(27, p.room, false); }
    else if p.MatchJoinSuccess? { packet := BuildMatchPacket(36, p.room, true); }
    else { packet := BuildMatchPacket(46, p.room, false); }
  }

  // The bytes of any packet, builder by builder.
  method Build(p: Packet, bot: Bot) returns (packet: bytes)
    ensures packet == FramedPacket(Raw(p, bot))
  {
    hide MatchBytes; hide Framed; hide PutI32; hide PutString; hide ChatMessage; hide Announcement;
    match p
    case MatchUpdate(_) => packet := BuildRoomPacket(p);
    case MatchNew(_) => packet := BuildRoomPacket(p);
    case MatchJoinSuccess(_) => packet := BuildRoomPacket(p);
    case MatchStart(_) => packet := BuildRoomPacket(p);
    case MatchJoinFail => packet := BuildPacket(37, []);
    case MatchDisband(id) => packet := BuildNumber(28, id);
    case MatchScoreUpdate(payload) => packet := BuildPacket(CHO_MATCH_SCORE_UPDATE, payload);
    case MatchTransferHost => packet := BuildPacket(50, []);
    case MatchAllPlayersLoaded => packet := BuildPacket(53, []);
    case MatchPlayerFailed(slot) => packet := BuildNumber(57, slot);
    case MatchPlayerSkipped(slot) => packet := BuildNumber(81, slot);
    case MatchComplete => packet := BuildPacket(58, []);
    case RoundConcluded(outcome) => packet := BuildSendMessage(bot, Announcement(outcome), MULTIPLAYER);
    case SpectatorJoined(user) => packet := BuildNumber(13, user);
    case SpectatorLeft(user) => packet := BuildNumber(14, user);
    case FellowSpectatorJoined(user) => packet := BuildNumber(42, user);
    case FellowSpectatorLeft(user) => packet := BuildNumber(43, user);
    case SpectatorCantSpectate(user) => packet := BuildNumber(22, user);
    case SpectateFrames(raw) => packet := BuildPacket(15, raw);
    case ChannelJoinSuccess(channel) => packet := BuildText(64, channel);
    case ChannelPart(channel) => packet := BuildText(90, channel);
    case UserQuit(user, how) => packet := BuildUserQuit(user, how);
    case Other(id, payload) => packet := BuildPacket(id, payload);
  }

  // The packet_queue of a session: bytes, appended to and taken all at once.
  class ByteQueue {
    var packetQueue: bytes
    ghost var packets: seq<Packet>
    const bot: Bot

    // The bytes are those of the packets of Session.queue.
    ghost predicate Valid()
      reads this
    {
      packetQueue == QueueBytes(packets, bot)
    }

    constructor (bot: Bot)
      ensures Valid() && packets == [] && this.bot == bot
    {
      this.bot := bot;
      packetQueue := [];
      packets := [];
    }

    // enqueue_packet of a packet just built.
    method Enqueue(p: Packet)
      requires Valid()
      modifies this
      ensures Valid() && packets == old(packets) + [p]
    {
      hide Raw; hide FramedPacket;
      var packet := Build(p, bot);
      packetQueue := packetQueue + packet;
      packets := packets + [p];
      assert packets[..|packets| - 1] == old(packets);
    }

    // dequeue_all_packets: what is handed out decodes to the packets queued, when each fits its header.
    method DequeueAll() returns (data: bytes)
      requires Valid()
      modifies this
      ensures Valid() && packets == [] && data == QueueBytes(old(packets), bot)
      ensures (forall i :: 0 <= i < |old(packets)| ==> Sized(Raw(old(packets)[i], bot))) ==>
        Decoded(data) == RawQueue(old(packets), bot) && Tail(data) == []
    {
      hide Raw;
      if forall i :: 0 <= i < |packets| ==> Sized(Raw(packets[i], bot)) { QueueDelivers(packets, bot); }
      data := packetQueue;
      packetQueue := [];
      packets := [];
    }
  }
}
