# Verified model of the Bancho server core

This project models the parts of the server where state, bytes and arithmetic meet, and proves what
they promise:

* **The Bancho state machine** (`src/bancho/state.rs`, `src/bancho/handler.rs`): rooms, slots, rounds,
  spectators, sessions, channels and the lobby. Module `Server` says as functions on one value (`View`)
  what each packet, login, poll and disconnect does; class `BanchoState` updates the same maps in place
  and every method is proved to have exactly that effect; `ServerSafety`, `Departure`, `Runs`,
  `RoundLife` and `Outgoing` prove what holds in every state of every run, and `Exactness` what holds
  besides, and exactly when, once the room counter comes round. A ghost trace of events carries the claims about whole
  runs.
* **The wire codec** (`src/protocol`): ULEB128, osu! strings, framing, rooms and score frames. A reader
  and a writer class with a position and a buffer are proved against parsing and layout functions, and
  the two directions undo each other. `Orders` and `Requests` join the codec to the state machine: a request
  body is bytes in, a sequence of steps out. `Builders` writes every packet the handlers send, and `Delivery`
  proves that what a poll returns decodes to exactly what was queued, in every reachable state.
* **The image strippers** (`src/server/avatars.rs`): PNG, JPEG and WebP walkers against "parse, filter,
  write back".
* **The rate limiter** (`src/utils/ratelimit.rs`), **the chat filter** (`src/bancho/filter.rs`),
  **profile performance points** (`src/utils/score_calc.rs`, `src/db/scores.rs`) and **the multipart
  parser** (`src/server/web.rs`).

Some promises turned out not to hold everywhere; each has its exact condition and a concrete input:

* Room numbers are 16 bits wide and are handed out without looking. A create that takes the number of an
  open room strands whoever sits there, and one that takes the number of a room in progress leaves its
  start time behind; a LOAD_COMPLETE from somebody so stranded, once the room is gone, is kept for no room.
  `Exactness.StepKeepsExact` says of each step, and `Exactness.RunIsExactIff` of each state of a run, if and
  only if when mapping and seats are inverse, start times those of the rooms in progress and loads those
  of open rooms. A collision takes at least 65535 earlier creates (`Runs.CollisionNeedsManyCreates`);
  `CounterWrap.CounterWrapStrandsAPlayer` and `CounterWrap.CounterWrapStraysALoad` are runs of the server
  with one. Everything else holds in every state of every run, collision or not (`Runs.RunIsSafe`).
* A user who joins the room they are already alone in ends up in no room: leaving disbands it first
  (`Rooms.JoinMovesOnlyTheUser`, with a run in `CounterWrap.RejoiningLosesTheRoom`).
* A text or payload is given room before it is looked at, and the length comes from the client: where the
  allocator refuses it, the request, or the server, ends. A body is carried out to its end or its logout if
  and only if no length read before that is refused (`Orders.BodyEndsIff`); `Orders.HugeTextHalts` is a
  packet of eighteen bytes with which none is, whatever memory there is.
* Pruning the rate limiter after m idle seconds shows unless every tier refills and m is at least 60
  (`Pruning.InvisibleIff`). For one tier the bound on accepted requests holds over all runs if and only
  if that tier refills and m is at least 60 (`Throughput.BoundHoldsIff`); the server uses ten minutes,
  but the configuration may set a rate to zero, and `Throughput.ProbeBreaksBound` is then a run that
  gets twice the capacity. The announced wait is enough if and only if the tier refills
  (`Throughput.WaitSufficesIff`).
* The name of a multipart field is looked for anywhere in its headers, read as text. Behind a prefix in which
  no other `name="` begins it is read back if and only if it holds no quote and is UTF-8
  (`Multipart.NameOfBlock`), and all such names are if and only if there is none in the prefix
  (`Multipart.NamesReadBackIff`). In `filename="a"; name="b"` the name is taken to be a
  (`Multipart.FilenameFirst`), and any lone byte from 0x80 on is stored under the same replacement character
  (`Multipart.NameNotUtf8`).
* The stats row of mania is shared by plays with and without relax, so saving a relax mania score can
  lower it; in every other mode saving never lowers a row (`ProfilePp.NeverFallsIff`).

## Reading guide

`Wrappers`, `BanchoTypes` and `Sequences` hold shared vocabulary.

* State machine: `Rooms`, `Rounds`, `Spectating` and `Network` each hold one group of tables and its
  invariant; `Server` puts them together. `RoomSafety`, `ServerSafety`, `Departure`, `Runs`, `Exactness`,
  `CounterWrap`, `RoundLife`, `Outgoing` and `RoundPackets` prove what holds over steps and runs.
  `RoomEffects`, `RoomMoves`, `Results`, `Inboxes`, `Arrivals` and `ScoreRelay` tell each step once more from
  outside, field by field and receiver by receiver. `SlotLoops`, `HandlerFacts` and `BanchoState` are the
  imperative form.
* Codec: `Uleb128`, `Wire`, `Packets`, `PacketCode`, `Framing`, `Builders`, `Orders`, `Requests` and
  `Delivery`; `ClientSide` is the other end of the wire, and `Literals` fixes numbers, names and offsets.
* On their own: `Containers`, `Png`, `Jpeg`, `WebP`, `Images`; `TokenBuckets`, `BucketLevels`, `Pruning`,
  `Throughput`, `RateLimiter`; `ChatFilter`; `ProfilePp`; `Search`, `LossyText`,
  `Unicode`, `Multipart`.

`dafny verify dfyconfig.toml` checks the project.

## Assumptions

* One packet is one atomic step, enabled while its token is live. The eviction and the insertion of a
  login are one step. The code releases the lock between them, and between the two halves of
  CHANNEL_JOIN.
* `HandleRequest` carries a body out without interruption. The code gives up the lock between two packets
  of a body; each packet is a step of its own, and runs (`Runs.Run`) mix the steps of all clients in any
  order, so what is proved over runs covers other clients' steps in between.
* An allocation is granted exactly up to a length `memory`, which is a parameter wherever bytes are
  received and lies below 2^63, since a longer one always panics. After a failed read the reader stands
  where `std::io::Cursor` leaves it in Rust 1.85, the version of the Dockerfile: at the end.
* User ids are positive, and the token of a login is new (it is a random UUID).
* Rust owns sessions, rooms and buckets inside its maps by value, so entries of `sessions` and
  `matches` are values that the methods of `BanchoState` replace; nothing can alias them.
* The order of a hash map's values is arbitrary: the order of a lobby listing is a parameter.
* Time is a parameter, one value for each call. `usize` has 64 bits.
* Packets queued by arms outside the model enter through the actions `Tell`, `TellAll` and
  `TellChannel`.

## Model

| member | source | states |
|---|---|---|
| Rooms.SeatsAreInverse | src/bancho/state.rs:135-173 | with an exact seating, user_to_match maps u to room id exactly when one and only one slot of that room holds u with a player status |
| Rooms.SeatFound | src/bancho/handler.rs:1057-1096 | looking for a user id among the slots finds the user's one seat, because slots without a player carry -1 |
| Literals.PlayerBits | src/protocol/constants.rs:149-157 | a slot has a player exactly when one of bits 2 to 6 of its status is set |
| Literals.ChannelNames | src/bancho/state.rs:39-63 | the five default channels by name |
| Rooms.RemoveUserKeepsSeats | src/bancho/state.rs:135-173 | leaving a room keeps rooms well formed, hosts seated and everyone seated mapped to their room, the inverse too when it held, and the user is mapped nowhere |
| Rooms.CreateKeepsSeats | src/bancho/handler.rs:920-964 | a create always leaves rooms well formed and everyone seated mapped to their room; it keeps the inverse if and only if the next number is not that of a room left open after the creator leaves |
| Rooms.JoinKeepsSeats | src/bancho/handler.rs:966-1038 | a join, also of one's own room, keeps the seating and its inverse |
| Rooms.JoinMovesOnlyTheUser | src/bancho/handler.rs:966-1038 | after an allowed join the user sits in the room asked for, unless they were alone in it, and nowhere else; everyone else sits where they sat; a refused join changes nothing |
| Rooms.NumbersCycle | src/bancho/handler.rs:933-935 | the numbers handed out follow the cycle 1 to 65535 |
| Rooms.NumbersDistinct | src/bancho/handler.rs:933-935 | any 65535 consecutive numbers are different |
| Rooms.MovedOk | src/bancho/handler.rs:1057-1096 | a slot move leaves the room well formed with the same occupants |
| Rooms.LockOk | src/bancho/handler.rs:1146-1176 | locking and unlocking touches no occupant |
| Rooms.HostOk | src/bancho/handler.rs:1275-1302 | the new host is an occupant |
| RoomEffects.MoveEffect | src/bancho/handler.rs:1057-1096 | a slot move carries the whole of the old slot into an open one and leaves the old one open and empty; into any other it changes nothing |
| RoomEffects.StatusEffect | src/bancho/handler.rs:1098-1144 | READY, NOT_READY and the beatmap packets set the sender's own status and nothing else |
| RoomEffects.LockEffect | src/bancho/handler.rs:1146-1176 | the host turns an open slot into a locked one and back, a taken one stays, and nobody else changes anything |
| RoomEffects.SettingsEffect | src/bancho/handler.rs:1178-1217 | the host's nine settings are taken over, everything else of the room is kept, and every READY slot but the host's is NOT_READY |
| RoomEffects.ModsEffect | src/bancho/handler.rs:1219-1249 | with freemod exactly the sender's mods change, without it the room's, and only by the host |
| RoomEffects.HostEffect | src/bancho/handler.rs:1275-1302 | the host hands over to the user of a taken slot; nobody else can |
| RoomEffects.StartEffect | src/bancho/handler.rs:1350-1381 | after a START by the host exactly the slots that were READY, NOT_READY or PLAYING are PLAYING, no slot changes otherwise, the room is in progress and its scores and loads are those of a fresh round; from anyone else it changes nothing |
| RoomEffects.PlayersAfterStart | src/bancho/handler.rs:1355-1361 | the players are then the occupants who had the beatmap and were not done |
| RoomEffects.UnseatedChangesNothing | src/bancho/handler.rs:1057-1443 | from somebody without a seat nothing but a load or a COMPLETE does anything |
| RoomMoves.DepartureEffect | src/bancho/state.rs:135-173 | logout, timeout and eviction take the user out of their slot, hand a host's room to the lowest taken slot, drop a room left empty with its tables, and do nothing else to rooms |
| RoomMoves.CreateEffect | src/bancho/handler.rs:920-964 | the creator leaves their room so and is alone in slot 0 of a new one, which is as asked for, under the next number |
| RoomMoves.JoinEffect | src/bancho/handler.rs:966-1038 | a room that is open, has an open slot and whose password is none, empty or the one given takes its user, once out of their old room, into its lowest open slot; any other changes nothing and the user alone is told |
| RoomMoves.JoinSeats | src/bancho/handler.rs:966-1038 | a join puts its sender into a room they did not sit in if and only if it is the one asked for and lets them in |
| RoomMoves.PartEffect | src/bancho/handler.rs:1040-1055 | a part takes its sender out and closes the round of a room left over |
| RoomMoves.CompleteEffect | src/bancho/handler.rs:1445-1455 | COMPLETE sets the sender's own slot, and the round closes, everybody NOT_READY and its tables gone, if and only if nobody plays any more |
| RoomMoves.UnseatedComplete | src/bancho/handler.rs:1445-1455 | COMPLETE from somebody mapped to a room without a seat in it still closes its round if it is over |
| RoomMoves.TeamEffect | src/bancho/handler.rs:1251-1273 | the sender changes sides, and the round closes if it is over |
| Rounds.OneRowPerOccupant | src/bancho/handler.rs:186-246 | closing a round makes exactly one row per occupant, in slot order, with their team and display name; a row has passed exactly when its occupant has a frame, carries the numbers of the last one, and otherwise only zeros |
| Rounds.SoloWinner | src/bancho/handler.rs:182-290 | outside team-vs the winner is the lowest slot with the greatest non-negative score and exactly that row is marked won |
| Rounds.TeamWinner | src/bancho/handler.rs:254-275 | in team-vs the result names the side whose occupants have strictly more points in all, counted over the slots, and exactly their rows are marked won, none on a draw |
| Rounds.ClosedOk | src/bancho/handler.rs:292-296 | after a round every occupant is NOT_READY and seating and host are unchanged |
| Rounds.AllLoadedIsEarned | src/bancho/handler.rs:1383-1408 | in a safe history the all-players-loaded packet is backed, for each playing user, by a LOAD_COMPLETE in that room after its latest START |
| Rounds.ResultIsEarned | src/bancho/handler.rs:168-217 | in a safe history every scored row comes from the last frame its user sent in that room after its latest START |
| Rounds.ResultIsComplete | src/bancho/handler.rs:193-217 | and the other way round: a row has passed exactly when its user sent a frame in that room since its latest START, and then carries the last of them |
| RoundLife.RunLoadsAreEarned | src/bancho/handler.rs:1383-1408 | in every run, whenever the all-players-loaded packet has gone out, each user then playing had sent LOAD_COMPLETE in that room after its latest START |
| RoundLife.RunResultsAreEarned | src/bancho/handler.rs:168-217 | in every run, every scored row of every result comes from the last frame its user sent in that room after its latest START |
| Results.StepTells | src/bancho/handler.rs:139-324 | whenever a step closes a round, by COMPLETE, CHANGE_TEAM or PART alone, the result is told from slots, sessions and history as they are: every occupant has exactly one row, under the name of their session, passed and scored by the last frame since the latest START, and the winners are marked |
| Results.RunTells | src/bancho/handler.rs:139-324 | the same of every close in every run |
| Outgoing.StepsOnlyAdd | src/bancho/session.rs:57-59 | every step extends the queues of the sessions that stay, only by packets of its own kinds, and loses or reorders nothing; only the owner's poll empties one |
| Outgoing.OnlyLoadsAnnounce | src/bancho/handler.rs:1403-1406 | every all-players-loaded packet a step adds to a queue, whatever is already in it and also for a session the step adds, comes from a LOAD_COMPLETE |
| Inboxes.ShowingInbox | src/bancho/state.rs:190-216 | a change inside a room adds its new state once to the queue of each of its people and, for what the lobby lists, of each subscriber, and nothing to any other |
| Inboxes.HostInbox | src/bancho/handler.rs:1275-1302 | the new host, then the people and the lobby |
| Inboxes.StartInbox | src/bancho/handler.rs:1350-1381 | the people are sent the room as started, the lobby as changed |
| Inboxes.LoadInbox | src/bancho/handler.rs:1383-1408 | the people are told when the sender was the last one missing, and nobody is told anything else |
| Inboxes.StrayLoadInbox | src/bancho/handler.rs:1383-1390 | a load for a room that is gone is noted and told to nobody |
| Inboxes.ScoreInbox | src/bancho/handler.rs:104-137 | the people are sent the payload with the sender's slot at byte 4, and that frame is kept |
| Inboxes.NoticeInbox | src/bancho/handler.rs:1417-1443 | the people are told the sender's slot |
| Inboxes.CompleteInbox | src/bancho/handler.rs:1445-1455 | COMPLETE is told only by the close of the round: the people that it is over and the room at rest, the lobby the room, #multiplayer the result |
| Inboxes.TeamInbox | src/bancho/handler.rs:1251-1273 | the people are shown the room, then the close as above |
| Arrivals.CreateInbox | src/bancho/handler.rs:920-964 | farewell to the old room, the new one and its channel to the creator, the room as new to the lobby |
| Arrivals.JoinInbox | src/bancho/handler.rs:966-1038 | farewell to the old room, the room and its channel to the newcomer, the room to the others in it and to the lobby |
| Arrivals.RefusedInbox | src/bancho/handler.rs:984-992 | a refused join is told to its sender alone |
| Arrivals.PartInbox | src/bancho/handler.rs:1040-1055 | those left and the lobby see the room, or the lobby that it is gone; then the close |
| Arrivals.StopInbox | src/bancho/state.rs:179-188 | the host and the fellow watchers are told, and exactly the user stops watching |
| Arrivals.WatchInbox | src/bancho/handler.rs:840-876 | a stop first; then watchers, newcomer and host are introduced, and the user watches that host, if online and somebody else |
| Arrivals.WatchersInOrder | src/bancho/handler.rs:854-861 | the watchers of a host are listed in the order in which they came |
| Arrivals.FramesInbox | src/bancho/handler.rs:888-892 | frames go once to exactly those who watch the sender |
| Arrivals.CantInbox | src/bancho/handler.rs:894-901 | the host and everyone who watches them are told |
| Arrivals.LobbyInbox | src/bancho/handler.rs:904-913 | the sender subscribes and is sent each open room once |
| Arrivals.LobbyPartInbox | src/bancho/handler.rs:915-918 | the sender unsubscribes and nobody is told |
| Arrivals.ChannelInbox | src/bancho/handler.rs:668-730 | the sender is told, and joins or leaves exactly that channel on both sides |
| Arrivals.PollInbox | src/bancho/session.rs:61-63 | a poll empties its own queue and touches no other session |
| Arrivals.DisconnectInbox | src/main.rs:82-87 | room, lobby, host, fellows and watchers are told, and then everyone |
| Arrivals.LoginInbox | src/server/bancho.rs:388-423 | everyone else is sent the farewells of an evicted session, presence and statistics; the new session has an empty queue and the two channels |
| RoundLife.LoadAnnounced | src/bancho/handler.rs:1383-1408 | a LOAD_COMPLETE sends the packet to each occupant exactly when every playing user has sent one since the latest START, and sends nothing else |
| RoundPackets.QueuedLoadsAreEarned | src/bancho/handler.rs:1383-1408 | in every state of every run, whichever queue holds an all-players-loaded packet, a LOAD_COMPLETE put it there at a time when its receiver sat in that room and everyone playing in it had sent one since its latest START |
| RoundLife.NobodyStartsBetweenStarts | src/bancho/handler.rs:1350-1381 | over any stretch of a run without a START in a room, whoever plays there at the end played there at its beginning |
| RoundLife.PlayingSlotsNeverRise | src/bancho/handler.rs:1350-1381 | between any two states of a run without a START of the room in between, the number of its PLAYING slots does not rise |
| RoundLife.ClosingPackets | src/bancho/handler.rs:1445-1455 | no COMPLETE, PART or CHANGE_TEAM leaves the room the sender sits in in progress with nobody playing and somebody done |
| RoundLife.RoundsInStep | src/bancho/state.rs:135-173 | in every sound state a PLAYING slot means its room is in progress, a room in progress has a start time, start times and scores belong to open rooms, nobody sits twice, empty slots carry -1 and the host is an occupant |
| Spectating.WatchIsInverse | src/bancho/state.rs:179-188 | spectating_target maps s to h exactly when s is in the list of h, where it occurs once; nobody watches themselves and both are online |
| Spectating.StopKeeps | src/bancho/state.rs:179-188 | stopping keeps the spectator tables inverse with no empty list |
| Spectating.StartKeeps | src/bancho/handler.rs:840-876 | starting keeps the spectator tables inverse |
| Spectating.LeaveKeeps | src/bancho/state.rs:109-123 | a departing host takes the list and all its targets along |
| Spectating.LengthsCountSpectators | src/bancho/state.rs:109-123 | the lengths of the lists add up to the number of spectators |
| Network.PostKeeps | src/bancho/state.rs:270-278 | delivery keeps sessions and the token index inverse, channel members and session channels in agreement, and the lobby online |
| Network.DropSessionKeeps | src/bancho/state.rs:88-95 | dropping a session keeps the token index inverse and leaves only the channels to clear |
| ServerSafety.StartIsSafe | src/bancho/state.rs:39-63 | the start state is sound |
| ServerSafety.ArmKeeps | src/bancho/handler.rs:840-1455 | every modelled packet, creates included, keeps the whole invariant and every session |
| ServerSafety.JoinKeeps | src/bancho/handler.rs:966-1038 | a join keeps the whole invariant |
| ServerSafety.PartKeeps | src/bancho/handler.rs:1040-1055 | a part, with the round it may close, keeps the whole invariant |
| Departure.DepartureIsClean | src/bancho/state.rs:88-133 | remove_session takes the user out of every table on both sides and changes nothing of anyone else but the host handover, a disband and the targets of the user's spectators |
| Departure.DisconnectKeeps | src/bancho/handler.rs:1457-1466 | a logout or timeout keeps the whole invariant |
| Departure.LoginKeeps | src/server/bancho.rs:388-423 | evicting the old session and adding the new one keeps the whole invariant |
| Runs.StepKeepsInv | src/bancho/handler.rs:443-1466 | every step keeps the whole invariant, whatever numbers the rooms are given |
| Runs.RunIsSafe | src/bancho/handler.rs:443-1466 | every state of every run is sound: sessions and tokens inverse, channel members and session channels in agreement, lobby online, spectator tables inverse, rooms well formed, everyone seated in one room and mapped to it, the history safe |
| Exactness.StepTables | src/bancho/handler.rs:920-1455 | after any step exactly those users are mapped to a room they do not sit in whom a create stranded, or who were and are not unmapped by it; and likewise loads kept for rooms that are gone, and start times of rooms not in progress |
| Exactness.StepKeepsExact | src/bancho/handler.rs:920-964 | mapping and seats stay inverse if and only if the step is not a create taking an open room's number, loads stay with open rooms if and only if it is not a LOAD_COMPLETE from a user whose room is gone, and start times with rooms in progress if and only if it is not a create taking the number of one |
| Exactness.RunIsExactIff | src/bancho/state.rs:135-173 | in every state of every run the three hold if and only if everyone stranded has been unmapped since, every number under which a load strayed has been claimed since, and every room that lost its round to a create has been disbanded or started since |
| Exactness.FreeRunIsExact | src/bancho/handler.rs:933-935 | in a run in which no create takes an open room's number all three hold throughout |
| Exactness.ShortRunIsExact | src/bancho/handler.rs:933-935 | all three hold in every state of a run with at most 65535 creates |
| Runs.CollisionIsOld | src/bancho/handler.rs:933-935 | a create can only meet a room made at least 65535 creates before |
| Runs.CollisionNeedsManyCreates | src/bancho/handler.rs:933-935 | no create meets an open room before 65535 others have been made |
| CounterWrap.CounterWrapStrandsAPlayer | src/bancho/handler.rs:933-952 | there is a run, two logins, a START and 65536 creates, that ends with a player mapped to a room that holds only somebody else, and with the start time of a round for a room that has not started |
| CounterWrap.CounterWrapStraysALoad | src/bancho/handler.rs:1383-1390 | two steps later in that run a load is kept for a room that is gone |
| CounterWrap.RejoiningLosesTheRoom | src/bancho/handler.rs:966-1038 | a run in which a user alone in a room joins it and ends up in none |
| SlotLoops.CanFinish | src/bancho/handler.rs:151-153 | the three scans over the slots decide whether the round is over |
| SlotLoops.EveryoneLoaded | src/bancho/handler.rs:1390-1398 | the scan says whether every playing user is among the loaded |
| SlotLoops.Score | src/bancho/handler.rs:181-290 | the loops over slots and rows, with running winner and team totals, produce the recorded result |
| SlotLoops.MarkWinners | src/bancho/handler.rs:271-289 | the marking loop marks exactly the winners |
| SlotLoops.Retain | src/bancho/state.rs:182 | retain drops the spectator and keeps the order of the others |
| BanchoState.BanchoState.constructor | src/bancho/state.rs:39-63 | a new server is the start state |
| BanchoState.BanchoState.BroadcastToMatch | src/bancho/state.rs:200-216 | exactly one copy goes to each online occupant other than the excepted one and to nobody else |
| BanchoState.BanchoState.BroadcastToLobby | src/bancho/state.rs:190-198 | exactly one copy goes to each lobby subscriber |
| BanchoState.BanchoState.BroadcastToSpectators | src/bancho/state.rs:218-228 | exactly one copy goes to each spectator of the host |
| BanchoState.BanchoState.BroadcastToChannel | src/bancho/state.rs:244-268 | exactly one copy goes to each member of the channel other than the excepted one |
| BanchoState.BanchoState.Broadcast | src/bancho/state.rs:230-234 | one copy goes to every session |
| BanchoState.BanchoState.RemoveUserFromMatch | src/bancho/state.rs:135-173 | the tables and the reported room are those of the specified removal |
| BanchoState.BanchoState.CreateMatch | src/bancho/handler.rs:920-964 | in place, the specified create, whatever the number; sound afterwards |
| BanchoState.BanchoState.JoinMatch | src/bancho/handler.rs:966-1038 | in place, the specified join; sound afterwards |
| BanchoState.BanchoState.PartMatch | src/bancho/handler.rs:1040-1055 | in place, the specified part; sound afterwards |
| BanchoState.BanchoState.ChangeSlot | src/bancho/handler.rs:1057-1096 | in place, the specified move; sound afterwards |
| BanchoState.BanchoState.SetStatus | src/bancho/handler.rs:1098-1144 | READY and NOT_READY, and the beatmap packets of lines 1304-1348, set the sender's own status |
| BanchoState.BanchoState.LockSlot | src/bancho/handler.rs:1146-1176 | in place, the specified lock toggle by the host; sound afterwards |
| BanchoState.BanchoState.ChangeSettings | src/bancho/handler.rs:1178-1217 | in place, the specified settings change by the host; sound afterwards |
| BanchoState.BanchoState.ChangeMods | src/bancho/handler.rs:1219-1249 | in place, slot mods with freemod and room mods from the host without; sound afterwards |
| BanchoState.BanchoState.ChangeTeam | src/bancho/handler.rs:1251-1273 | in place, the specified team change and the round it may close; sound afterwards |
| BanchoState.BanchoState.ChangeHost | src/bancho/handler.rs:1275-1302 | in place, the specified host transfer; sound afterwards |
| BanchoState.BanchoState.StartMatch | src/bancho/handler.rs:1350-1381 | in place, the specified START of a round by the host; sound afterwards |
| BanchoState.BanchoState.LoadComplete | src/bancho/handler.rs:1383-1408 | in place, the specified LOAD_COMPLETE; sound afterwards |
| BanchoState.BanchoState.RelayScore | src/bancho/handler.rs:104-137 | in place, the frame is kept under the sender with the true slot and relayed to every occupant; sound afterwards |
| BanchoState.BanchoState.Notice | src/bancho/handler.rs:1417-1443 | in place, FAILED and SKIP_REQUEST tell every occupant the sender's slot |
| BanchoState.BanchoState.CompleteMatch | src/bancho/handler.rs:1445-1455 | in place, the specified COMPLETE and the round it may close; sound afterwards |
| BanchoState.BanchoState.TryFinish | src/bancho/handler.rs:139-324 | in place, the round closes with the specified result or nothing happens |
| Literals.ResultTexts | src/bancho/handler.rs:299-327 | the result in words, with numbers in decimal |
| BanchoState.BanchoState.StartSpectating | src/bancho/handler.rs:840-876 | in place, the specified change of host; sound afterwards |
| BanchoState.BanchoState.StopSpectating | src/bancho/handler.rs:878-886 | in place, the specified stop; sound afterwards |
| BanchoState.BanchoState.SpectateFrames | src/bancho/handler.rs:888-892 | the frames go once to each spectator of the sender |
| BanchoState.BanchoState.CantSpectate | src/bancho/handler.rs:894-901 | host and fellow spectators are told |
| BanchoState.BanchoState.LobbyJoin | src/bancho/handler.rs:904-913 | the sender subscribes and is sent each open room once |
| BanchoState.BanchoState.LobbyPart | src/bancho/handler.rs:915-918 | the sender unsubscribes |
| BanchoState.BanchoState.JoinChannel | src/bancho/handler.rs:668-688 | session channels and channel members change together |
| BanchoState.BanchoState.PartChannel | src/bancho/handler.rs:715-730 | session channels and channel members change together |
| BanchoState.BanchoState.RemoveSession | src/bancho/state.rs:88-133 | in place, the specified departure, returning the session; sound afterwards |
| BanchoState.BanchoState.Disconnect | src/main.rs:82-87 | a timeout or logout removes the session and tells everyone |
| BanchoState.BanchoState.Login | src/server/bancho.rs:388-423 | in place, the specified login; sound afterwards |
| BanchoState.BanchoState.Poll | src/bancho/session.rs:61-63 | returns the whole queue and leaves it empty |
| BanchoState.BanchoState.HandlePacket | src/bancho/handler.rs:434-1455 | any packet of a live token is one step of the state machine; of a dead token, nothing |
| Requests.HandleRequest | src/bancho/handler.rs:409-440 | whatever bytes arrive and whatever the allocator grants, the server takes exactly the steps of the packets it gets to, up to a logout, and stays sound; it gets to the end if and only if no length read on the way is refused; mapping and seats stay inverse when no create among the steps takes an open room's number |
| Orders.BodyEndsIff | src/bancho/handler.rs:419-435 | a body is carried out to its end or its logout if and only if no payload or text read before that declares more than the allocator grants; otherwise a prefix of its actions is |
| Orders.OrderHaltsIff | src/protocol/reader.rs:82-115 | a packet ends it all if and only if a text it reads is refused, texts of the arms outside the model included, and otherwise asks for the same whatever the allocator grants |
| Orders.HugeTextHalts | src/protocol/reader.rs:110 | a text that declares 2^63 bytes ends the request although a whole packet follows |
| ClientSide.AskedIsUnderstood | src/protocol/constants.rs:78-114 | the packet a client sends for each of the twenty-seven things it can want is understood as that one |
| ClientSide.RequestIsUnderstood | src/bancho/handler.rs:409-440 | a request that asks for several things is carried out in that order, and nothing behind a logout |
| ClientSide.ScoresAreFrames | src/bancho/handler.rs:1410-1415 | only a SCORE_UPDATE that parses is a score, and with the frame it parses to |
| Requests.StepsAreExact | src/bancho/handler.rs:409-440 | any chain of steps from a sound state keeps mapping and seats inverse as long as no create takes an open room's number |
| Requests.RequestIsSmall | src/server/mod.rs:22-31 | every action of a request body the framework accepts meets the size condition of Delivery.EveryQueueDecodes |
| Uleb128.RoundTrip | src/protocol/uleb128.rs:4-41 | reading the encoding of any u64 followed by anything gives the number and leaves the rest |
| Uleb128.EncodeIsLeast | src/protocol/uleb128.rs:4-16 | no other groups with the same value are fewer |
| Uleb128.EncodeAtMostTen | src/protocol/uleb128.rs:4-16 | an encoding has one to ten groups |
| Uleb128.ReadsAtMostTen | src/protocol/uleb128.rs:19-41 | a successful read takes at most ten bytes and is the sum of its groups modulo 2^64 |
| Uleb128.WriteUleb128 | src/protocol/uleb128.rs:4-16 | the shifting loop appends exactly the encoding |
| Uleb128.ReadUleb128 | src/protocol/uleb128.rs:19-41 | the shift-and-or loop computes the specified value, remainder or error |
| Uleb128.OrAdds | src/protocol/uleb128.rs:30 | or-ing in a group that shares no bit adds it |
| Wire.StringRoundTrip | src/protocol/reader.rs:88-115 | a written osu! string is read back and what follows is left |
| Wire.StringHaltsIff | src/protocol/reader.rs:88-115 | reading a string ends it all if and only if the length it declares is refused, and is otherwise the same for every memory |
| Unicode.Utf8Iff | src/protocol/reader.rs:113 | a text is accepted as UTF-8 if and only if it encodes some sequence of Unicode scalar values |
| Wire.HeaderRoundTrip | src/protocol/writer.rs:80-87 | a built packet's header gives back its id and its length modulo 2^32 |
| Literals.HeaderLayout | src/protocol/writer.rs:80-87 | id, zero, length and payload stand at their offsets |
| Literals.TextLayout | src/protocol/writer.rs:64-72 | 0 for an empty text, otherwise 11, the length, the bytes |
| Literals.ByteOrders | src/protocol/reader.rs:50-72 | packets and RIFF have the lowest byte first, PNG and JPEG the highest |
| Wire.PacketReader.ReadNum | src/protocol/reader.rs:50-72 | the fixed-width little-endian reads |
| Wire.PacketReader.ReadBytes | src/protocol/reader.rs:82-86 | exactly the next bytes, an error and nothing left when they are not there, or no return at all when there is no room for as many |
| Wire.PacketReader.ReadOsuString | src/protocol/reader.rs:88-115 | the string at the position, its length by ULEB128, checked to be UTF-8, or the specified error, or no return when there is no room for the length; and where the reader then stands |
| Wire.PacketReader.ReadPacketHeader | src/protocol/reader.rs:26-36 | the header, or none when fewer than seven bytes are left |
| Wire.PacketWriter.WriteNum | src/protocol/writer.rs:32-50 | the fixed-width little-endian writes |
| Wire.PacketWriter.WriteOsuString | src/protocol/writer.rs:64-72 | indicator, length and bytes are appended |
| Wire.BuildPacket | src/protocol/writer.rs:80-87 | id, zero byte, length and payload |
| Packets.SentMatchParses | src/protocol/packets.rs:437-500 | a room built with its password parses to its normal form and consumes exactly its own bytes |
| Literals.RoomLayout | src/protocol/packets.rs:293-336 | the fields of a room in the order in which they are written |
| Literals.StatusLayout | src/protocol/packets.rs:309-312 | one status byte for each slot in order |
| Literals.ModsLayout | src/protocol/packets.rs:328-332 | four bytes of mods for each slot in order |
| Packets.HiddenMatchParses | src/protocol/packets.rs:293-306 | a room built without its password still tells whether it has one |
| Packets.NormalIsIdempotent | src/protocol/packets.rs:437-500 | the normal form is its own normal form |
| Packets.ParsedIffNormal | src/protocol/packets.rs:437-500 | parsing can return exactly the rooms in normal form with well-formed texts for which there is room |
| Packets.MatchHaltsIff | src/protocol/packets.rs:437-500 | reading a room ends it all if and only if one of the lengths of its texts, read as far as the first that is not there, is refused |
| Packets.FrameRoundTrip | src/protocol/packets.rs:364-387 | a built score frame parses back to itself if and only if it is ScoreV2 or its portions are zero |
| Literals.FrameLayout | src/protocol/packets.rs:364-387 | every field of a frame stands at its offset |
| Packets.RelayedFrame | src/protocol/packets.rs:394-411 | replacing byte 4 of an accepted payload replaces the slot id of the frame and nothing else |
| ScoreRelay.RelayReaches | src/bancho/handler.rs:104-137 | a score from slot i adds exactly one packet to the queue of each of the room's people and none to others: as long as the sender's, different at most at byte 4, and read as the frame with slot i, which is also the one kept |
| ScoreRelay.RequestRelays | src/bancho/handler.rs:1410-1415 | so does every score among the steps of a request, with the frame its bytes are |
| PacketCode.BuildMatchPacket | src/protocol/packets.rs:293-336 | the writer calls and loops lay a room out as specified |
| PacketCode.ParseMatch | src/protocol/packets.rs:437-500 | the reader calls and loops parse as specified, with the same errors, and stop where a text has no room |
| PacketCode.BuildScoreUpdate | src/protocol/packets.rs:364-387 | the writer calls lay a frame out as specified |
| PacketCode.ParseScoreFrame | src/protocol/packets.rs:502-543 | the reader calls parse a frame as specified, portions only from a ScoreV2 frame with room for both |
| PacketCode.BuildRelayedScoreUpdate | src/protocol/packets.rs:394-411 | byte 4 is replaced and all else kept, or an error on fewer than five bytes |
| Framing.OnePacket | src/protocol/writer.rs:80-87 | a packet survives framing if and only if its payload is shorter than 2^32 bytes |
| Framing.StreamDecodes | src/bancho/handler.rs:421-430 | built packets followed by any incomplete tail decode to exactly those packets in order and leave the tail |
| Framing.CutStream | src/bancho/handler.rs:421-430 | a stream cut anywhere decodes to a prefix of what was sent |
| Framing.ReadPackets | src/bancho/handler.rs:421-430 | the loop reads exactly the whole packets, and stops before the first payload length that is refused |
| Framing.QueueDelivers | src/bancho/session.rs:57-63 | a byte queue decodes to exactly the packets queued, with no tail |
| Framing.PostDelivers | src/bancho/session.rs:57-59 | enqueueing appends one framed copy to the addressed sessions and leaves the bytes of the others alone |
| Builders.Build | src/protocol/packets.rs:191-435 | the writer calls of the builder of every packet the modelled handlers send produce the framed bytes of that packet |
| ClientSide.SentIsUnderstood | src/protocol/constants.rs:7-53 | a client reads every packet the modelled arms send back as what it means |
| Builders.ByteQueue.Enqueue | src/bancho/session.rs:57-59 | in place, the bytes of the queue become those of one more packet |
| Builders.ByteQueue.DequeueAll | src/bancho/session.rs:61-63 | hands out all bytes, which decode to exactly the packets queued when each fits its header, and leaves none |
| Delivery.SmallFits | src/protocol/writer.rs:80-87 | packets made of texts within the body limit fit the 32-bit length |
| Delivery.StepIsSmall | src/bancho/handler.rs:443-1466 | every step keeps rooms and queues within the limit |
| Delivery.EveryQueueDecodes | src/bancho/session.rs:57-63 | in every state of every run the queue of every session decodes to exactly its packets with nothing left over |
| Png.StripMeaning | src/server/avatars.rs:13-32 | a well-formed file comes out as its chunks without the metadata ones, in order |
| Png.StripAccepts | src/server/avatars.rs:13-32 | accepted are exactly the signature followed by a well-formed chunk list that ends with its only IEND |
| Png.StripIsShorter | src/server/avatars.rs:13-32 | the output is never longer |
| Png.StripTwice | src/server/avatars.rs:13-32 | stripping again changes nothing |
| Png.StripPng | src/server/avatars.rs:13-32 | the offset loop computes the specified result |
| Jpeg.StripMeaning | src/server/avatars.rs:34-57 | a well-formed file comes out as its segments without APP1, APP13 and COM before the first scan, and everything from the scan on |
| Jpeg.StripAccepts | src/server/avatars.rs:34-57 | accepted are exactly the well-formed segment lists |
| Jpeg.StripIsShorter | src/server/avatars.rs:34-57 | the output is never longer |
| Jpeg.StripTwice | src/server/avatars.rs:34-57 | stripping again changes nothing |
| Jpeg.StripJpeg | src/server/avatars.rs:34-57 | the nested loops compute the specified result |
| WebP.StripMeaning | src/server/avatars.rs:59-81 | a well-formed file comes out as its chunks without EXIF and XMP, VP8X flags cleared, under the right size |
| WebP.StripAccepts | src/server/avatars.rs:59-81 | accepted are exactly the well-formed files |
| WebP.StripResult | src/server/avatars.rs:59-81 | the output is no longer than the input, its size field is its length less 8, and no chunk of it carries or announces metadata |
| WebP.StripTwice | src/server/avatars.rs:59-81 | stripping again changes nothing |
| WebP.StripWebP | src/server/avatars.rs:59-81 | the loop with its patched flags and rewritten size computes the specified result |
| Images.OneFormat | src/server/avatars.rs:83-85 | at most one of the three strippers accepts any input |
| Literals.MetadataNames | src/server/avatars.rs:23-53 | the chunks and segments dropped, by name |
| Literals.PieceByPiece | src/server/avatars.rs:13-81 | each chunk or segment is dropped, kept, or kept with the flags of VP8X cleared |
| Literals.ChunkLayouts | src/server/avatars.rs:13-81 | length, kind and data stand at their offsets in the three formats |
| Literals.RiffFile | src/server/avatars.rs:59-64 | a RIFF file gives its own length less 8 |
| Literals.FlagBits | src/server/avatars.rs:74 | clearing the two flags touches no other bit |
| Images.SanitizeTwice | src/server/avatars.rs:83-85 | sanitizing its own output returns it, and nothing grows |
| Images.SanitizeUploadedImage | src/server/avatars.rs:83-85 | the or_else chain of the three walkers |
| TokenBuckets.RunOk | src/utils/ratelimit.rs:35-47 | tokens stay between nothing and the capacity over every run |
| BucketLevels.NeverLimitedIff | src/utils/ratelimit.rs:124-131 | a request is never limited if and only if the limiter is off, or its address is private and those are exempt |
| BucketLevels.FreshLevels | src/utils/ratelimit.rs:73-86 | an unknown client has a minute's worth on each of the four tiers, and one request at least |
| Pruning.InvisibleIff | src/utils/ratelimit.rs:149-155 | pruning after m idle seconds changes no answer of any run if and only if every tier refills and m is at least 60 |
| Pruning.PruningIsInvisible | src/utils/ratelimit.rs:149-155 | two limiters with the same levels, one pruning and one not, answer every request of a run alike |
| Pruning.AlikeAfterRequest | src/utils/ratelimit.rs:118-146 | limiters with the same levels give the same answer and keep the same levels at every later time on all four tiers |
| Throughput.ThroughputBound | src/utils/ratelimit.rs:118-146 | in any window of a run whose prunes wait at least a minute, or that has none, a client is granted on a tier at most its capacity and what flows in, whatever the rates of other tiers; no prunes at all are covered for a tier of rate 0 |
| Throughput.BoundHoldsIff | src/utils/ratelimit.rs:118-155 | the bound holds in every window of every run that prunes after m idle seconds if and only if the tier refills and m is at least 60 |
| Throughput.ProbeBreaksBound | src/utils/ratelimit.rs:149-155 | otherwise a burst, a prune and a burst within m seconds get past it |
| Throughput.WaitServes | src/utils/ratelimit.rs:49-60 | on a tier that refills a request is accepted once the announced seconds have passed, however clients are pruned in between |
| Throughput.WaitIsNotTooLong | src/utils/ratelimit.rs:49-60 | a second earlier it is refused, unless the wait is one second or a prune comes after so few idle seconds |
| Throughput.WaitSufficesIff | src/utils/ratelimit.rs:49-60 | waiting as announced is enough, over all runs and prunes, if and only if the tier refills |
| Throughput.WaitIsLeastIff | src/utils/ratelimit.rs:49-60 | a second less is refused, over all runs pruning after m idle seconds, if and only if the longest wait of the tier is one second or less than m + 1 |
| RateLimiter.TokenBucket.TryAcquire | src/utils/ratelimit.rs:35-47 | in place, refill and take one token if there is one |
| RateLimiter.TokenBucket.RetryAfterSeconds | src/utils/ratelimit.rs:49-60 | the seconds until a token is there, 60 when none will come |
| RateLimiter.RateLimiter.Check | src/utils/ratelimit.rs:118-146 | in place, the specified answer and table |
| RateLimiter.RateLimiter.PruneStale | src/utils/ratelimit.rs:149-155 | in place, exactly the clients idle for that long go, and their number is returned |
| ChatFilter.FilterMasks | src/bancho/filter.rs:57-110 | a filter of masks keeps every character or turns it into a star |
| ChatFilter.FilterCompletes | src/bancho/filter.rs:57-110 | with masks whose patterns hold no star, no stretch of the filtered text reads in lower case as a pattern |
| ChatFilter.PassByHits | src/bancho/filter.rs:63-107 | a pass copies the text up to the first stretch that reads in lower case as its pattern, puts the replacement there and goes on behind it; without one it copies the text |
| ChatFilter.FilterStarsHits | src/bancho/filter.rs:57-110 | a filter of masks stars nothing but what lies in such a stretch of the text as it came |
| ChatFilter.EveryHitIsMasked | src/bancho/filter.rs:57-110 | and every such stretch loses a character |
| ChatFilter.FilterTwice | src/bancho/filter.rs:57-110 | filtering again changes nothing |
| ChatFilter.WhyMasks | src/bancho/filter.rs:38-42 | neither condition can be dropped |
| ChatFilter.ApplyRule | src/bancho/filter.rs:63-107 | the loop over byte and character indices is the leftmost non-overlapping replacement |
| ChatFilter.FilterText | src/bancho/filter.rs:57-110 | the passes in order |
| ProfilePp.BestsAreBest | src/db/scores.rs:152-170 | the selection has one entry for each map with a score, and it is the map's best |
| ProfilePp.SortSorts | src/db/scores.rs:152-170 | the ranking is in descending order and a permutation of the bests |
| ProfilePp.HundredBest | src/db/scores.rs:152-170 | what counts is the first hundred of the ranked bests |
| ProfilePp.ProfileFormula | src/utils/score_calc.rs:244-257 | the total is the sum of pp_i * 0.95^i and 416.6667 * (1 - 0.9994^n) |
| ProfilePp.StoredIsNearest | src/db/scores.rs:183 | the row stores the nearest whole number within 0 and 32767 |
| ProfilePp.RowsApart | src/db/scores.rs:119-125 | relax has rows of its own in every mode but mania |
| ProfilePp.SavingNeverLowers | src/utils/score_calc.rs:246-257 | one more non-negative score never lowers the profile of its mode, exactly or rounded and clamped |
| ProfilePp.RowNeverFalls | src/db/scores.rs:187-235 | saving never lowers a stats row that belongs to one kind of score |
| ProfilePp.NeverFallsIff | src/db/scores.rs:119-125 | over all histories of submittable scores, saving never lowers the row if and only if the mode is not mania |
| ProfilePp.CalculateWeightedPp | src/utils/score_calc.rs:246-257 | the loop over a running weight computes the weighted sum and bonus |
| ProfilePp.CalculateWeightedAccuracy | src/utils/score_calc.rs:261-278 | the weighted mean, between the least and the greatest accuracy and within 0 and 100 |
| ProfilePp.Profile.SaveScore | src/db/scores.rs:143-235 | the row as it was and as it is, never lower when the row belongs to one kind of score |
| Search.FindBytes | src/server/web.rs:443-446 | the first position of the needle |
| LossyText.LossyIsSameIff | src/server/web.rs:405 | a lossy conversion returns its input exactly when that is UTF-8 |
| Unicode.BadLengthIsLongest | src/server/web.rs:405 | a replacement character stands for the longest stretch that begins a character, or for one byte |
| LossyText.FindLossy | src/server/web.rs:405-406 | an ASCII text is found in the converted bytes exactly where the conversion of what stands before its first place ends |
| Multipart.NameOfBlock | src/server/web.rs:400-420 | behind a prefix without `name="` a name is read back if and only if it holds no quote and is UTF-8, and without a quote comes out converted; behind any other prefix what is read does not depend on it |
| Multipart.NamesReadBackIff | src/server/web.rs:400-420 | every UTF-8 name without a quote is read back from behind a prefix if and only if no `name="` begins earlier |
| Multipart.FilenameFirst | src/server/web.rs:400-420 | a file name before the name is taken for the name |
| Literals.FormNames | src/server/web.rs:395-420 | the texts the parser looks for |
| Multipart.NameNotUtf8 | src/server/web.rs:405-409 | every name of one byte from 0x80 on is stored under the replacement character |
| Multipart.ParseBody | src/server/web.rs:378-430 | the loop ends on every body and collects the fields of its parts under their names as text, later ones of the same key winning |
| Multipart.LayoutReadBack | src/server/web.rs:378-430 | a body laid out by the standard, each field under its declared name behind a prefix without another `name="`, is read back as exactly its fields, a name outside UTF-8 as the text it is converted to |
| Multipart.DistinctFieldsReadBack | src/server/web.rs:378-430 | with names that differ as texts, none of them score, each leads to its own raw content and there is nothing else; a UTF-8 name is its own text |
| Multipart.ReplayApart | src/server/web.rs:410-424 | a field named score is stored under score_replay if and only if its headers hold filename= or its content begins with the LZMA header of a replay; any other under its name |

## Left out

- HandleRequest: covers the packets of the modelled arms; chat, status and statistics packets read nothing of the modelled tables and are skipped as Ignored, but for the texts they read.
- BroadcastToMatch: delivery order between different users is not modelled; each user's own queue is in order.
- ReadOsuString: that the allocator grants the same lengths throughout is assumed; whether a refused length panics and ends the request or aborts the process is not told apart.
- TryFinish: the f32 accuracy of a row, whose hit total is summed in 16 bits, is dropped, and so are the round's duration and everything handed to the database tasks.
- Announcement: chat storage is left out.
- ParseBody: takes the boundary as given; cutting it out of the content type is not modelled. The form-urlencoded branch is left out.
- ChatFilter: reading the rule file, trimming and the sort by length are left out; the results hold for any order of rules. A final sigma is lower-cased by word in the rule file and by letter in the text, which only matters for which patterns a file yields.
- ProfilePp: rounding errors of f64 are not modelled, and the pp of a single score is a given non-negative number.
- TokenBuckets: one value of time stands for the several clock reads of a call.
- The claim that a round always closes: logout, timeout and leaving by create or join do not try to finish the round, so closure is stated for COMPLETE, PART and CHANGE_TEAM only.
- Lock interleavings inside one packet, and the gap between a login's eviction and insertion.
- Persistence of rooms, results and chat (`sync_match_to_multi_db`, `cleanup_disbanded_matches` and the list that feeds it).
- User presence, statistics, friends, bot replies, mirrors, HTTP handlers other than the ones named, cryptography and SQL itself.
- Classification of request paths into tiers and of addresses as private: branch reading, represented by the tier and a flag of a request.
