/** When a round closes and what its result says, told of whole steps: from the rooms, sessions and history
    a step leaves behind, whichever packet brought the close about. */
module Results {
  import opened Wrappers
  import opened BanchoTypes
  import opened Rooms
  import opened Rounds
  import opened RoomSafety
  import opened Network
  import opened Server
  import opened ServerSafety
  import opened Runs

  predicate Taken(s: Slot) {
    HasPlayer(s.status) && s.user > 0
  }

  // A row for the occupant of slot i: who, on which side, under which name, and with which numbers: those
  // of the last frame sent in the room since its latest START, if there is one.
  ghost predicate RowTells(row: Row, s: Slot, tr: seq<Event>, id: u16, net: Net) {
    && row.user == s.user && row.team == s.team
    && (if s.user in net.tokens && net.tokens[s.user] in net.sessions
        then row.name == Known(net.sessions[net.tokens[s.user]].name) else row.name == Numbered(s.user))
    && (row.passed <==> exists f :: SentLast(tr, id, s.user, f))
    && (forall f :: SentLast(tr, id, s.user, f) ==> RowFrom(row, f))
    && (!row.passed ==> Blank(row))
  }

  // Exactly one row for each occupant, in slot order.
  ghost predicate ResultTells(rows: seq<Row>, slots: Slots, tr: seq<Event>, id: u16, net: Net) {
    && (forall a :: 0 <= a < |rows| ==>
          rows[a].slot < 16 && Taken(slots[rows[a].slot]) && RowTells(rows[a], slots[rows[a].slot], tr, id, net))
    && (forall a, b :: 0 <= a < b < |rows| ==> rows[a].slot < rows[b].slot)
    && (forall i :: 0 <= i < 16 && Taken(slots[i]) ==> HasRow(rows, i))
  }

  // Who has won: in team-vs the rows of the side with strictly more points, otherwise the one row that is
  // the first with the greatest score, unless all are negative.
  ghost predicate WinnersTold(o: Outcome, m: Match, scores: map<int, Frame>) {
    var (blue, red) := (Points(m.slots, scores, TEAM_BLUE), Points(m.slots, scores, TEAM_RED));
    && (o.teamVs <==> m.teamType == 2)
    && (o.teamVs ==> forall a :: 0 <= a < |o.rows| ==>
          (o.rows[a].won <==> (o.rows[a].team == 1 && blue > red) || (o.rows[a].team == 2 && red > blue)))
    && (!o.teamVs ==> forall a :: 0 <= a < |o.rows| ==> (o.rows[a].won <==> FirstBest(o.rows, a)))
  }

  // The round in room id closes between v and v'.
  predicate Ends(v: View, v': View, id: u16, o: Outcome) {
    v'.trace == v.trace + [Ended(id, o)]
  }

  // ---------- the close itself ----------

  lemma SentIffKept(r: Rooms, tr: seq<Event>, id: u16, user: int)
    requires HistoryInv(r, tr) && id in r.matches && r.matches[id].inProgress
    ensures user in ScoresOf(r, id) <==> exists f :: SentLast(tr, id, user, f)
    ensures forall f :: SentLast(tr, id, user, f) ==> user in ScoresOf(r, id) && ScoresOf(r, id)[user] == f
  {
    hide SafeHistory; hide LatestStart; hide LastFrame;
    assert InStep(r, tr, id);
    forall f | SentLast(tr, id, user, f) ensures user in ScoresOf(r, id) && ScoresOf(r, id)[user] == f {
      var s, i :| LatestStart(tr, id, s) && s < i && LastFrame(tr, id, user, f, i);
      FrameCounts(tr, id, user, s, i, f);
    }
    if user in ScoresOf(r, id) {
      OpenRoundBegan(tr, id);
      var s :| LatestStart(tr, id, s);
      ScoredAfterStart(tr, id, user, s);
      assert SentLast(tr, id, user, ScoresInRound(tr, id)[user]);
    }
  }

  lemma FitsTells(row: Row, m: Match, r: Rooms, tr: seq<Event>, id: u16, net: Net)
    requires HistoryInv(r, tr) && id in r.matches && m == r.matches[id] && m.inProgress
    requires Fits(row, m.slots, ScoresOf(r, id), NamesOf(net))
    ensures Taken(m.slots[row.slot]) && RowTells(row, m.slots[row.slot], tr, id, net)
  {
    hide HistoryInv; hide SentLast; hide ScoresOf;
    SentIffKept(r, tr, id, row.user);
  }

  lemma CloseTells(v: View, id: u16)
    requires RoomsInv(v.rooms, v.trace) && id in v.rooms.matches && v.rooms.matches[id].inProgress
    ensures var m := v.rooms.matches[id];
      ResultTells(Close(m, ScoresOf(v.rooms, id), NamesOf(v.net)).rows, m.slots, v.trace, id, v.net)
  {
    hide SeatInv; hide RoundInv; hide HistoryInv; hide NumberInv; hide RoomOk; hide Fits; hide RowTells;
    hide ScoresOf; hide NamesOf; hide Occupied; hide Taken; hide BestOf; hide TeamTotal; hide RowOf;
    var m := v.rooms.matches[id];
    var (scores, names) := (ScoresOf(v.rooms, id), NamesOf(v.net));
    RoomIsOk(v.rooms, id);
    ResultRows(m, scores, names);
    RowsCoverOccupants(m.slots, scores, names, 16);
    var (raw, rows) := (Rows(m.slots, scores, names, 16), Close(m, scores, names).rows);
    forall a | 0 <= a < |rows|
      ensures rows[a].slot < 16 && Taken(m.slots[rows[a].slot])
      ensures RowTells(rows[a], m.slots[rows[a].slot], v.trace, id, v.net)
    {
      FitsSlot(rows[a], m.slots, scores, names);
      FitsTells(rows[a], m, v.rooms, v.trace, id, v.net);
    }
    forall i | 0 <= i < 16 && Taken(m.slots[i]) ensures HasRow(rows, i) {
      TakenIsOccupied(m.slots[i]);
      assert HasRow(raw, i);
      var a :| 0 <= a < |raw| && raw[a].slot == i;
      assert rows[a].slot == i;
    }
  }

  lemma TakenIsOccupied(s: Slot)
    ensures Taken(s) <==> Occupied(s)
  {
  }

  lemma FitsSlot(row: Row, slots: Slots, scores: map<int, Frame>, names: map<i32, bytes>)
    requires Fits(row, slots, scores, names)
    ensures row.slot < 16
  {
  }

  // What closing leaves of a slot: its occupant rests, and nothing else changes.
  lemma ClosedSlot(m: Match, i: nat)
    requires i < 16
    ensures var (s, s') := (m.slots[i], Closed(m).slots[i]);
      && s'.user == s.user && s'.team == s.team && s'.mods == s.mods
      && s'.status == if s.status % 128 >= 4 then 4 else s.status
    ensures Taken(Closed(m).slots[i]) <==> Taken(m.slots[i])
  {
  }

  lemma CloseWinners(m: Match, scores: map<int, Frame>, names: map<i32, bytes>)
    requires RoomOk(m)
    ensures WinnersTold(Close(m, scores, names), m, scores)
  {
    hide RoomOk; hide Rows; hide BestOf; hide TeamTotal; hide Mark; hide Points;
    var o := Close(m, scores, names);
    if m.teamType == TEAM_TYPE_TEAM_VS {
      forall a: nat | a < |o.rows|
        ensures o.rows[a].won <==>
          (o.rows[a].team == 1 && Points(m.slots, scores, TEAM_BLUE) > Points(m.slots, scores, TEAM_RED)) ||
          (o.rows[a].team == 2 && Points(m.slots, scores, TEAM_RED) > Points(m.slots, scores, TEAM_BLUE))
      {
        TeamWinner(m, scores, names, a);
      }
    } else {
      SoloWinner(m, scores, names);
      forall a | 0 <= a < |o.rows| ensures o.rows[a].won <==> FirstBest(o.rows, a) { OneBest(o.rows, o.best, a); }
    }
  }

  lemma OneBest(rows: seq<Row>, best: Best, a: int)
    requires BestFits(rows, best) && 0 <= a < |rows|
    requires if best == NOBODY then !rows[a].won
      else exists w :: FirstBest(rows, w) && best.user == rows[w].user && (rows[a].won <==> a == w)
    ensures rows[a].won <==> FirstBest(rows, a)
  {
  }

  lemma {:induction false} PointsAfterRest(m: Match, scores: map<int, Frame>, team: u8, k: nat)
    requires k <= 16
    ensures Points(Closed(m).slots, scores, team, k) == Points(m.slots, scores, team, k)
  {
    hide Closed;
    if k > 0 {
      ClosedSlot(m, k - 1);
      PointsAfterRest(m, scores, team, k - 1);
    }
  }

  lemma WinnersAfterRest(o: Outcome, m: Match, scores: map<int, Frame>)
    requires WinnersTold(o, m, scores)
    ensures WinnersTold(o, Closed(m), scores)
  {
    hide Points; hide FirstBest;
    PointsAfterRest(m, scores, TEAM_BLUE, 16);
    PointsAfterRest(m, scores, TEAM_RED, 16);
  }

  lemma TellsAfterRest(rows: seq<Row>, m: Match, tr: seq<Event>, id: u16, net: Net, net': Net)
    requires ResultTells(rows, m.slots, tr, id, net)
    requires NamesOf(net') == NamesOf(net)
    ensures ResultTells(rows, Closed(m).slots, tr, id, net')
  {
    hide SentLast; hide RowFrom; hide Blank; hide Closed; hide NamesOf; hide Taken;
    forall i | 0 <= i < 16
      ensures Closed(m).slots[i].user == m.slots[i].user && Closed(m).slots[i].team == m.slots[i].team
      ensures Taken(Closed(m).slots[i]) <==> Taken(m.slots[i])
    {
      ClosedSlot(m, i);
    }
    forall row: Row, s: Slot, s': Slot
      | RowTells(row, s, tr, id, net) && s'.user == s.user && s'.team == s.team
      ensures RowTells(row, s', tr, id, net')
    {
      SameNames(net, net', s.user);
    }
  }

  lemma SameNames(net: Net, net': Net, user: i32)
    requires NamesOf(net') == NamesOf(net)
    ensures var here := user in net.tokens && net.tokens[user] in net.sessions;
      var here' := user in net'.tokens && net'.tokens[user] in net'.sessions;
      && here == here'
      && (here ==> net'.sessions[net'.tokens[user]].name == net.sessions[net.tokens[user]].name)
  {
    assert user in NamesOf(net) <==> user in NamesOf(net');
    if user in NamesOf(net) { assert NamesOf(net)[user] == NamesOf(net')[user]; }
  }

  lemma PostNames(net: Net, who: set<int>, p: Packet)
    ensures NamesOf(Post(net, who, p)) == NamesOf(net)
  {
  }

  lemma EndRoundTells(w: View, id: u16)
    requires RoomsInv(w.rooms, w.trace) && id in w.rooms.matches && w.rooms.matches[id].inProgress
    ensures var (m, w') := (w.rooms.matches[id], EndRound(w, id));
      var o := Close(m, ScoresOf(w.rooms, id), NamesOf(w.net));
      && Ends(w, w', id, o) && id in w'.rooms.matches && w'.rooms.matches[id] == Closed(m)
      && ResultTells(o.rows, w'.rooms.matches[id].slots, w.trace, id, w'.net)
      && WinnersTold(o, w'.rooms.matches[id], ScoresOf(w.rooms, id))
  {
    hide RoomsInv; hide Post; hide Close; hide Closed; hide NamesOf; hide ScoresOf; hide ResultTells; hide WinnersTold;
    CloseTells(w, id);
    RoomHere(w.rooms, w.trace, id);
    CloseWinners(w.rooms.matches[id], ScoresOf(w.rooms, id), NamesOf(w.net));
    WinnersAfterRest(Close(w.rooms.matches[id], ScoresOf(w.rooms, id), NamesOf(w.net)), w.rooms.matches[id],
                     ScoresOf(w.rooms, id));
    var m := w.rooms.matches[id];
    var o := Close(m, ScoresOf(w.rooms, id), NamesOf(w.net));
    ResultNetNames(Post(w.net, Occupants(m.slots), Packet.MatchComplete), Closed(m), o);
    PostNames(w.net, Occupants(m.slots), Packet.MatchComplete);
    TellsAfterRest(o.rows, m, w.trace, id, w.net, EndRound(w, id).net);
  }

  lemma RoomHere(r: Rooms, tr: seq<Event>, id: u16)
    requires RoomsInv(r, tr) && id in r.matches
    ensures RoomOk(r.matches[id])
  {
    hide RoundInv; hide HistoryInv; hide NumberInv; hide RoomOk;
    RoomIsOk(r, id);
  }

  lemma ResultNetNames(net: Net, m: Match, o: Outcome)
    ensures NamesOf(ResultNet(net, m, o)) == NamesOf(net)
  {
    hide Post; hide NamesOf; hide Occupants; hide Members;
    var net1 := Post(net, Occupants(m.slots), Packet.MatchUpdate(m));
    var net2 := Post(net1, net1.lobby, Packet.MatchUpdate(m));
    PostNames(net, Occupants(m.slots), Packet.MatchUpdate(m));
    PostNames(net1, net1.lobby, Packet.MatchUpdate(m));
    PostNames(net2, Members(net2, MULTIPLAYER), Packet.RoundConcluded(o));
  }

  // ---------- which steps close a round ----------

  lemma CompleteState(v: View, user: i32, id: u16)
    requires RoomsInv(v.rooms, v.trace) && id in v.rooms.matches && user > 0
    ensures var m := v.rooms.matches[id];
      RoomsInv(WithRoom(v.rooms, id, WithOwnStatus(m, user, SLOT_COMPLETE).GetOr(m)), v.trace)
  {
    hide RoomOk; hide QuietChange; hide WithOwnStatus; hide RoundInv; hide HistoryInv; hide NumberInv; hide SeatInv;
    var m := v.rooms.matches[id];
    RoomIsOk(v.rooms, id);
    if WithOwnStatus(m, user, SLOT_COMPLETE).Some? {
      OwnStatusQuiet(m, user, SLOT_COMPLETE);
      QuietSafe(v.rooms, v.trace, id, WithOwnStatus(m, user, SLOT_COMPLETE).value);
    } else {
      assert WithRoom(v.rooms, id, m) == v.rooms;
    }
  }

  lemma TeamState(v: View, user: i32, id: u16)
    requires RoomsInv(v.rooms, v.trace) && id in v.rooms.matches && WithTeam(v.rooms.matches[id], user).Some?
    ensures var m' := WithTeam(v.rooms.matches[id], user).value;
      RoomsInv(Show(v, id, m', false).rooms, v.trace)
  {
    hide RoomOk; hide QuietChange; hide WithTeam; hide RoundInv; hide HistoryInv; hide NumberInv; hide SeatInv;
    hide Post;
    var m := v.rooms.matches[id];
    RoomIsOk(v.rooms, id);
    TeamQuiet(m, user);
    QuietSafe(v.rooms, v.trace, id, WithTeam(m, user).value);
  }

  // A finish either does nothing or closes a round in progress in which nobody plays any more.
  lemma FinishTells(w: View, id: u16)
    requires RoomsInv(w.rooms, w.trace)
    ensures var w' := DoFinish(w, id);
      || w' == w
      || (id in w.rooms.matches && w.rooms.matches[id].inProgress && w' == EndRound(w, id)
          && exists o :: CloseTold(w, w', id, o))
  {
    hide RoomsInv; hide Post; hide Close; hide Closed; hide NamesOf; hide ScoresOf; hide ResultTells;
    hide WinnersTold; hide EndRound;
    hide ShouldFinish;
    if DoFinish(w, id) != w {
      EndRoundTells(w, id);
      var m := w.rooms.matches[id];
      assert CloseTold(w, EndRound(w, id), id, Close(m, ScoresOf(w.rooms, id), NamesOf(w.net)));
    }
  }

  ghost predicate CloseTold(w: View, w': View, id: u16, o: Outcome) {
    && Ends(w, w', id, o) && id in w'.rooms.matches
    && ResultTells(o.rows, w'.rooms.matches[id].slots, w.trace, id, w'.net)
    && WinnersTold(o, w'.rooms.matches[id], ScoresOf(w.rooms, id))
  }

  lemma NoEndBefore(tr: seq<Event>, e: Event, id: u16, o: Outcome)
    ensures !e.Ended? ==> tr + [e] != tr + [Ended(id, o)]
    ensures tr != tr + [Ended(id, o)]
  {
    assert (tr + [e])[|tr|] == e;
    assert (tr + [Ended(id, o)])[|tr|] == Ended(id, o);
  }

  lemma InRoomEnds(v: View, user: i32, id: u16, arm: Arm, k: u16, o: Outcome)
    requires RoomsInv(v.rooms, v.trace) && RoomOf(v.rooms, user) == Some(id) && user > 0
    requires Ends(v, InRoom(v, user, id, arm), k, o)
    ensures k == id && (arm.CompleteRound? || arm.ChangeTeam?)
    ensures CloseTold(v, InRoom(v, user, id, arm), id, o)
  {
    hide RoomsInv; hide Post; hide DoFinish; hide WithOwnStatus; hide MovedTo; hide WithLock; hide WithSettings;
    hide WithMods; hide WithTeam; hide WithHost; hide Started; hide Occupants; hide ResultTells;
    hide WinnersTold; hide PlayingUsers;
    hide ScoresOf;
    var m := v.rooms.matches[id];
    NoEndBefore(v.trace, Began(id), k, o);
    NoEndBefore(v.trace, Loaded(id, user), k, o);
    NoEndBefore(v.trace + [Loaded(id, user)], AllLoaded(id, PlayingUsers(m.slots)), k, o);
    TwoAreNotOne(v.trace, Loaded(id, user), AllLoaded(id, PlayingUsers(m.slots)), Ended(k, o));
    if arm.CompleteRound? {
      CompleteState(v, user, id);
      ClosedIn(v.(rooms := WithRoom(v.rooms, id, WithOwnStatus(m, user, SLOT_COMPLETE).GetOr(m))), id, k, o);
      SameScoresOf(v.rooms, WithRoom(v.rooms, id, WithOwnStatus(m, user, SLOT_COMPLETE).GetOr(m)), id);
    } else if arm.ChangeTeam? && WithTeam(m, user).Some? {
      SameScoresOf(v.rooms, Show(v, id, WithTeam(m, user).value, false).rooms, id);
      TeamState(v, user, id);
      ClosedIn(Show(v, id, WithTeam(m, user).value, false), id, k, o);
    }
  }

  lemma SameScoresOf(r: Rooms, r': Rooms, id: u16)
    requires r'.lastScores == r.lastScores
    ensures ScoresOf(r', id) == ScoresOf(r, id)
  {
  }

  lemma ScoresAfterLeaving(r: Rooms, user: int, id: u16)
    ensures id in RemoveUser(r, user).0.matches ==> ScoresOf(RemoveUser(r, user).0, id) == ScoresOf(r, id)
  {
    hide RemoveUser;
    RemovalRounds(r, user, id);
  }

  lemma ToldFrom(v: View, w: View, w': View, id: u16, o: Outcome)
    requires CloseTold(w, w', id, o) && w.trace == v.trace && ScoresOf(w.rooms, id) == ScoresOf(v.rooms, id)
    ensures CloseTold(v, w', id, o)
  {
    hide ResultTells; hide WinnersTold;
  }

  lemma TwoAreNotOne(tr: seq<Event>, e1: Event, e2: Event, e: Event)
    ensures tr + [e1] + [e2] != tr + [e]
  {
    assert |tr + [e1] + [e2]| != |tr + [e]|;
  }

  lemma ClosedIn(w: View, id: u16, k: u16, o: Outcome)
    requires RoomsInv(w.rooms, w.trace) && Ends(w, DoFinish(w, id), k, o)
    ensures k == id && CloseTold(w, DoFinish(w, id), id, o) && id in w.rooms.matches
  {
    hide RoomsInv; hide DoFinish; hide ResultTells; hide WinnersTold; hide EndRound;
    NoEndBefore(w.trace, Began(id), k, o);
    FinishTells(w, id);
    var o' :| CloseTold(w, DoFinish(w, id), id, o');
    assert (w.trace + [Ended(id, o')])[|w.trace|] == (w.trace + [Ended(k, o)])[|w.trace|];
  }

  // Whenever a step closes a round, the result is told from the slots, sessions and frames as they are: one
  // row for each occupant of the room, scored by the last frame since the latest START.
  lemma StepTells(v: View, a: Action, v': View, id: u16, o: Outcome)
    requires Inv(v) && Step(v, a, v') && Ends(v, v', id, o)
    ensures CloseTold(v, v', id, o)
    ensures a.From? && (a.arm.CompleteRound? || a.arm.ChangeTeam? || a.arm.PartRoom?)
  {
    hide NetInv; hide RoomsInv; hide Post; hide PostEach; hide PostAll; hide DoFinish; hide InRoom; hide RemoveUser;
    hide Farewell; hide DoStopSpectating; hide CanJoin; hide OpenRoom; hide Enter; hide Welcome; hide DropUser;
    hide NewRoom; hide ResultTells; hide WinnersTold; hide ScoresOf;
    NoEndBefore(v.trace, Began(id), id, o);
    if a.From? {
      var (user, arm) := (a.user, a.arm);
      var order :| GoodOrder(v.rooms, order) && v' == DoArm(v, user, arm, order);
      UserIsPositive(v.net, user);
      NoEndBefore(v.trace, Opened(v.rooms.nextId), id, o);
      if arm.PartRoom? {
        LeaveKeepsInv(v, user);
        LeaveRooms(v, user);
        match RemoveUser(v.rooms, user).1
        case None =>
        case Some(g) =>
          if !g.disbanded {
            ClosedIn(Leave(v, user), g.id, id, o);
            ScoresAfterLeaving(v.rooms, user, g.id);
            ToldFrom(v, Leave(v, user), v', id, o);
          }
      } else if arm.CreateRoom? {
        LeaveRooms(v, user);
      } else if arm.JoinRoom? {
        LeaveRooms(v, user);
      } else if arm.StartSpectating? || arm.StopSpectating? {
        StopTrace(v, user);
      } else if RoomOf(v.rooms, user).Some? {
        if !IsChatter(arm) && !arm.LobbyJoin? {
          InRoomEnds(v, user, RoomOf(v.rooms, user).value, arm, id, o);
        }
      } else if user in v.rooms.userToMatch {
        NoEndBefore(v.trace, Loaded(v.rooms.userToMatch[user], user), id, o);
      }
    } else if a.Login? || a.Disconnect? {
      DropTrace(v, a.user);
    }
  }

  // Over whole runs: whenever a round closes, every occupant has exactly one row, which has passed exactly
  // when they sent a frame in that room since its latest START and then carries the last of them.
  lemma RunTells(views: seq<View>, acts: seq<Action>, n: nat, id: u16, o: Outcome)
    requires Run(views, acts) && n < |acts| && Ends(views[n], views[n + 1], id, o)
    ensures id in views[n + 1].rooms.matches
    ensures ResultTells(o.rows, views[n + 1].rooms.matches[id].slots, views[n].trace, id, views[n + 1].net)
    ensures WinnersTold(o, views[n + 1].rooms.matches[id], ScoresOf(views[n].rooms, id))
  {
    hide Inv; hide Step; hide ResultTells; hide Ends; hide WinnersTold; hide ScoresOf;
    RunIsSafe(views, acts, n);
    assert Step(views[n], acts[n], views[n + 1]);
    StepTells(views[n], acts[n], views[n + 1], id, o);
  }
}
