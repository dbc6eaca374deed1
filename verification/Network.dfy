/** Sessions, their token index, chat channels and the lobby, and the delivery of packets to
    session queues. */
module Network {
  import opened BanchoTypes
  import opened Rounds

  // The packets the modelled arms send, one constructor per builder of src/protocol/packets.rs.
  datatype Packet =
    | MatchUpdate(room: Match)
    | MatchNew(room: Match)
    | MatchJoinSuccess(room: Match)
    | MatchJoinFail
    | MatchDisband(id: u16)
    | MatchStart(room: Match)
    | MatchScoreUpdate(payload: bytes)
    | MatchTransferHost
    | MatchAllPlayersLoaded
    | MatchPlayerFailed(slot: nat)
    | MatchPlayerSkipped(slot: nat)
    | MatchComplete
    | RoundConcluded(outcome: Outcome)
    | SpectatorJoined(user: int)
    | SpectatorLeft(user: int)
    | FellowSpectatorJoined(user: int)
    | FellowSpectatorLeft(user: int)
    | SpectatorCantSpectate(user: int)
    | SpectateFrames(raw: bytes)
    | ChannelJoinSuccess(channel: bytes)
    | ChannelPart(channel: bytes)
    | UserQuit(user: int, how: u8)
    | Other(packetId: u16, payload: bytes)             // presence, stats, chat: contents not modelled

  type Token = bytes

  datatype Session = Session(user: i32, name: bytes, queue: seq<Packet>, channels: set<bytes>)

  datatype Net = Net(
    sessions: map<Token, Session>,
    tokens: map<i32, Token>,
    channels: map<bytes, set<i32>>,
    lobby: set<i32>)

  const OSU: bytes := [35, 111, 115, 117]
  const ANNOUNCE: bytes := [35, 97, 110, 110, 111, 117, 110, 99, 101]
  const LOBBY: bytes := [35, 108, 111, 98, 98, 121]
  const MULTIPLAYER: bytes := [35, 109, 117, 108, 116, 105, 112, 108, 97, 121, 101, 114]
  const SPECTATOR: bytes := [35, 115, 112, 101, 99, 116, 97, 116, 111, 114]

  // The five default channels, all empty.
  const START_NET := Net(map[], map[],
    map[OSU := {}, ANNOUNCE := {}, LOBBY := {}, MULTIPLAYER := {}, SPECTATOR := {}], {})

  function Online(net: Net): set<i32> {
    net.tokens.Keys
  }

  function Push(s: Session, p: Packet): Session {
    s.(queue := s.queue + [p])
  }

  // One copy of p appended to the queue of every online user in who, and nothing else.
  function Post(net: Net, who: set<int>, p: Packet): Net {
    net.(sessions := map t | t in net.sessions ::
      if net.sessions[t].user in who then Push(net.sessions[t], p) else net.sessions[t])
  }

  function PostAll(net: Net, p: Packet): Net {
    net.(sessions := map t | t in net.sessions :: Push(net.sessions[t], p))
  }

  // A list of packets to one user, in order.
  function PostEach(net: Net, user: int, ps: seq<Packet>): Net {
    if ps == [] then net
    else Post(PostEach(net, user, ps[..|ps| - 1]), {user}, ps[|ps| - 1])
  }

  function Members(net: Net, channel: bytes): set<int> {
    if channel in net.channels then set u | u in net.channels[channel] else {}
  }

  // The channel goes on the session whether or not it exists; the member goes on the channel if it does.
  function Enrol(net: Net, user: i32, channel: bytes): Net {
    net.(sessions := map t | t in net.sessions ::
                       if net.sessions[t].user == user
                       then net.sessions[t].(channels := net.sessions[t].channels + {channel}) else net.sessions[t],
         channels := if channel in net.channels then net.channels[channel := net.channels[channel] + {user}]
           else net.channels)
  }

  function Withdraw(net: Net, user: i32, channel: bytes): Net {
    net.(sessions := map t | t in net.sessions ::
                       if net.sessions[t].user == user
                       then net.sessions[t].(channels := net.sessions[t].channels - {channel}) else net.sessions[t],
         channels := if channel in net.channels then net.channels[channel := net.channels[channel] - {user}]
           else net.channels)
  }

  // The session, its index entry and its lobby subscription, but not yet its channels.
  function DropSession(net: Net, user: i32): Net {
    if user !in net.tokens then net else
    net.(sessions := net.sessions - {net.tokens[user]}, tokens := net.tokens - {user}, lobby := net.lobby - {user})
  }

  function LeaveChannels(net: Net, user: i32): Net {
    net.(channels := map c | c in net.channels :: net.channels[c] - {user})
  }

  function AddSession(net: Net, t: Token, s: Session): Net {
    net.(tokens := net.tokens[s.user := t], sessions := net.sessions[t := s])
  }

  function NamesOf(net: Net): map<i32, bytes> {
    map u | u in net.tokens && net.tokens[u] in net.sessions :: net.sessions[net.tokens[u]].name
  }

  // ---------- invariant ----------

  // sessions and user_id_to_token are inverse.
  ghost predicate IndexInv(net: Net) {
    && (forall u :: u in net.tokens ==> u > 0 && net.tokens[u] in net.sessions && net.sessions[net.tokens[u]].user == u)
    && (forall t :: t in net.sessions ==> net.sessions[t].user in net.tokens && net.tokens[net.sessions[t].user] == t)
  }

  // For each existing channel, its members are the users whose session lists it.
  ghost predicate ChannelInv(net: Net) {
    forall c, u :: c in net.channels ==>
      (u in net.channels[c] <==>
        u in net.tokens && net.tokens[u] in net.sessions && c in net.sessions[net.tokens[u]].channels)
  }

  ghost predicate NetInv(net: Net) {
    IndexInv(net) && ChannelInv(net) && net.lobby <= Online(net)
  }

  lemma PostIndex(net: Net, who: set<int>, p: Packet)
    requires IndexInv(net)
    ensures IndexInv(Post(net, who, p))
  {
  }

  lemma PostChannels(net: Net, who: set<int>, p: Packet)
    requires ChannelInv(net)
    ensures ChannelInv(Post(net, who, p))
  {
  }

  lemma PostKeeps(net: Net, who: set<int>, p: Packet)
    requires NetInv(net)
    ensures NetInv(Post(net, who, p)) && Online(Post(net, who, p)) == Online(net)
  {
    hide IndexInv; hide ChannelInv;
    PostIndex(net, who, p);
    PostChannels(net, who, p);
  }

  lemma PostTokens(net: Net, who: set<int>, p: Packet)
    ensures Post(net, who, p).tokens == net.tokens
  {
  }

  lemma PostAllKeeps(net: Net, p: Packet)
    requires NetInv(net)
    ensures NetInv(PostAll(net, p)) && Online(PostAll(net, p)) == Online(net)
  {
  }

  lemma {:induction false} PostEachKeeps(net: Net, user: int, ps: seq<Packet>)
    requires NetInv(net)
    ensures NetInv(PostEach(net, user, ps)) && PostEach(net, user, ps).tokens == net.tokens
  {
    hide NetInv; hide Post;
    if ps != [] {
      PostEachKeeps(net, user, ps[..|ps| - 1]);
      PostKeeps(PostEach(net, user, ps[..|ps| - 1]), {user}, ps[|ps| - 1]);
      PostTokens(PostEach(net, user, ps[..|ps| - 1]), {user}, ps[|ps| - 1]);
    }
  }

  lemma EnrolKeeps(net: Net, user: i32, channel: bytes)
    requires NetInv(net) && user in Online(net)
    ensures NetInv(Enrol(net, user, channel)) && Enrol(net, user, channel).tokens == net.tokens
  {
  }

  lemma WithdrawKeeps(net: Net, user: i32, channel: bytes)
    requires NetInv(net) && user in Online(net)
    ensures NetInv(Withdraw(net, user, channel)) && Withdraw(net, user, channel).tokens == net.tokens
  {
  }

  // Channels still list the user after DropSession; LeaveChannels completes the departure.
  ghost predicate LeavingInv(net: Net, user: i32) {
    && IndexInv(net) && net.lobby <= Online(net) && user !in Online(net)
    && ChannelInv(LeaveChannels(net, user))
  }

  lemma DropSessionKeeps(net: Net, user: i32)
    requires NetInv(net)
    ensures LeavingInv(DropSession(net, user), user) && Online(DropSession(net, user)) == Online(net) - {user}
  {
  }

  lemma LeavingPost(net: Net, user: i32, who: set<int>, p: Packet)
    requires LeavingInv(net, user)
    ensures LeavingInv(Post(net, who, p), user) && Online(Post(net, who, p)) == Online(net)
  {
    hide IndexInv;
    PostIndex(net, who, p);
  }

  lemma LeaveChannelsKeeps(net: Net, user: i32)
    requires LeavingInv(net, user)
    ensures NetInv(LeaveChannels(net, user)) && Online(LeaveChannels(net, user)) == Online(net)
  {
  }
}
