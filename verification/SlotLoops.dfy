/** The loops over a room's slots and over the rows of a round, each proved to compute the
    corresponding function of Rooms, Rounds or Spectating. */
module SlotLoops {
  import opened Wrappers
  import opened BanchoTypes
  import opened Rooms
  import opened Rounds
  import opened Spectating

  // ---------- loops over the slots ----------

  // slots.iter().position(|s| s.user_id == user)
  method FindUser(slots: Slots, user: int) returns (r: Option<nat>)
    ensures r == FirstUser(slots, user)
  {
    var i := 0;
    while i < 16
      invariant i <= 16
      invariant FirstUser(slots, user) == FirstUser(slots, user, i)
    {
      if slots[i].user == user { return Some(i); }
      i := i + 1;
    }
    return None;
  }

  // slots.iter().position(|s| s.status == status)
  method FindStatus(slots: Slots, status: u8) returns (r: Option<nat>)
    ensures r == FirstStatus(slots, status)
  {
    var i := 0;
    while i < 16
      invariant i <= 16
      invariant FirstStatus(slots, status) == FirstStatus(slots, status, i)
    {
      if slots[i].status == status { return Some(i); }
      i := i + 1;
    }
    return None;
  }

  // The users of the occupied slots, in slot order.
  method RemainingPlayers(slots: Slots) returns (players: seq<i32>)
    ensures players == [] <==> FirstOccupied(slots).None?
    ensures players != [] ==> players[0] == slots[FirstOccupied(slots).value].user
  {
    players := [];
    var i := 0;
    while i < 16
      invariant i <= 16
      invariant players == [] ==> FirstOccupied(slots) == FirstOccupied(slots, i)
      invariant players != [] ==> FirstOccupied(slots).Some? && players[0] == slots[FirstOccupied(slots).value].user
    {
      if HasPlayer(slots[i].status) && slots[i].user > 0 { players := players + [slots[i].user]; }
      i := i + 1;
    }
  }

  method UnreadyOthers(slots: Slots, host: i32) returns (after: Slots)
    ensures after == UnreadyAll(slots, host)
  {
    after := slots;
    var i := 0;
    while i < 16
      invariant i <= 16
      invariant forall j :: 0 <= j < 16 ==> after[j] == if j < i then Unready(slots[j], host) else slots[j]
    {
      if after[i].user > 0 && after[i].user != host && after[i].status == SLOT_READY {
        after := after[i := after[i].(status := SLOT_NOT_READY)];
      }
      i := i + 1;
    }
  }

  method BeginAll(slots: Slots) returns (after: Slots)
    ensures after == StartAll(slots)
  {
    after := slots;
    var i := 0;
    while i < 16
      invariant i <= 16
      invariant forall j :: 0 <= j < 16 ==> after[j] == if j < i then BeginSlot(slots[j]) else slots[j]
    {
      if Waiting(after[i].status) { after := after[i := after[i].(status := SLOT_PLAYING)]; }
      i := i + 1;
    }
  }

  method ResetAll(slots: Slots) returns (after: Slots)
    ensures after == RestAll(slots)
  {
    after := slots;
    var i := 0;
    while i < 16
      invariant i <= 16
      invariant forall j :: 0 <= j < 16 ==> after[j] == if j < i then Rest(slots[j]) else slots[j]
    {
      if HasPlayer(after[i].status) { after := after[i := after[i].(status := SLOT_NOT_READY)]; }
      i := i + 1;
    }
  }

  method CanFinish(slots: Slots) returns (yes: bool)
    ensures forall m: Match :: m.slots == slots ==> yes == ShouldFinish(m)
  {
    var stillPlaying, anyCompleted, anyPlayer := false, false, false;
    var i := 0;
    while i < 16
      invariant i <= 16
      invariant stillPlaying <==> exists j :: 0 <= j < i && slots[j].status == SLOT_PLAYING
      invariant anyCompleted <==> exists j :: 0 <= j < i && slots[j].status == SLOT_COMPLETE
      invariant anyPlayer <==> exists j :: 0 <= j < i && HasPlayer(slots[j].status)
    {
      if slots[i].status == SLOT_PLAYING { stillPlaying := true; }
      if slots[i].status == SLOT_COMPLETE { anyCompleted := true; }
      if HasPlayer(slots[i].status) { anyPlayer := true; }
      i := i + 1;
    }
    yes := !stillPlaying && (anyCompleted || !anyPlayer);
  }

  // Whether every playing user is in the set of loaded users.
  method EveryoneLoaded(slots: Slots, loaded: set<int>) returns (yes: bool)
    ensures yes <==> PlayingUsers(slots) <= loaded
  {
    yes := true;
    var i := 0;
    while i < 16
      invariant i <= 16
      invariant yes <==> forall j ::
        0 <= j < i && slots[j].status == SLOT_PLAYING && slots[j].user > 0 ==> slots[j].user in loaded
    {
      if slots[i].status == SLOT_PLAYING && slots[i].user > 0 && slots[i].user !in loaded { yes := false; }
      i := i + 1;
    }
  }

  // ---------- the result of a round ----------

  // One pass over the slots keeps the rows and the running winner.
  method TakeRows(slots: Slots, scores: map<int, Frame>, names: map<i32, bytes>) returns (rows: seq<Row>, best: Best)
    ensures rows == Rows(slots, scores, names, 16) && best == BestOf(rows)
    ensures forall a :: 0 <= a < |rows| ==> !rows[a].won
  {
    hide RowOf;
    rows, best := [], NOBODY;
    var i := 0;
    while i < 16
      invariant i <= 16
      invariant rows == Rows(slots, scores, names, i) && best == BestOf(rows)
      invariant forall a :: 0 <= a < |rows| ==> !rows[a].won
    {
      var s := slots[i];
      if HasPlayer(s.status) && s.user > 0 {
        var row := RowOf(s, i, scores, names);
        FreshRow(s, i, scores, names);
        if row.score > best.score { best := Best(row.user, row.name, row.score); }
        ghost var before := rows;
        rows := rows + [row];
        assert rows[..|rows| - 1] == before;
      }
      i := i + 1;
    }
  }

  lemma FreshRow(s: Slot, i: nat, scores: map<int, Frame>, names: map<i32, bytes>)
    ensures !RowOf(s, i, scores, names).won
  {
  }

  // The winning side of a team-vs round.
  method AddUpTeams(rows: seq<Row>) returns (team: u8)
    ensures team == WinningTeam(TeamTotal(rows, TEAM_BLUE), TeamTotal(rows, TEAM_RED))
  {
    var blue, red, k := 0, 0, 0;
    while k < |rows|
      invariant k <= |rows|
      invariant blue == TeamTotal(rows[..k], TEAM_BLUE) && red == TeamTotal(rows[..k], TEAM_RED)
    {
      if rows[k].team == TEAM_BLUE { blue := blue + rows[k].score; }
      else if rows[k].team == TEAM_RED { red := red + rows[k].score; }
      assert rows[..k + 1][..k] == rows[..k];
      k := k + 1;
    }
    assert rows[..|rows|] == rows;
    team := if blue > red then TEAM_BLUE else if red > blue then TEAM_RED else TEAM_NEUTRAL;
  }

  // Marks the winners in place.
  method MarkWinners(rows: seq<Row>, teamVs: bool, team: u8, winner: int) returns (marked: seq<Row>)
    requires forall a :: 0 <= a < |rows| ==> !rows[a].won
    ensures marked == Mark(rows, teamVs, team, winner)
  {
    marked := rows;
    var k := 0;
    while k < |marked|
      invariant k <= |marked| == |rows|
      invariant forall a :: 0 <= a < |rows| ==>
        marked[a] == if a < k then rows[a].(won := Won(rows[a], teamVs, team, winner)) else rows[a]
    {
      if teamVs {
        if marked[k].team == team && team != TEAM_NEUTRAL { marked := marked[k := marked[k].(won := true)]; }
      } else if marked[k].user == winner {
        marked := marked[k := marked[k].(won := true)];
      }
      k := k + 1;
    }
  }

  method Score(m: Match, scores: map<int, Frame>, names: map<i32, bytes>) returns (outcome: Outcome)
    ensures outcome == Close(m, scores, names)
  {
    hide Rows; hide BestOf; hide TeamTotal; hide Mark;
    var rows, best := TakeRows(m.slots, scores, names);
    var teamVs := m.teamType == TEAM_TYPE_TEAM_VS;
    var team := TEAM_NEUTRAL;
    if teamVs { team := AddUpTeams(rows); }
    rows := MarkWinners(rows, teamVs, team, best.user);
    outcome := Outcome(rows, best, teamVs, team);
  }

  // specs.retain(|&x| x != user)
  method Retain(list: seq<int>, user: int) returns (rest: seq<int>)
    ensures rest == Without(list, user)
  {
    rest := [];
    var i := 0;
    while i < |list|
      invariant i <= |list| && rest == Without(list[..i], user)
    {
      assert list[..i + 1][..i] == list[..i];
      if list[i] != user { rest := rest + [list[i]]; }
      i := i + 1;
    }
    assert list[..|list|] == list;
  }
}
