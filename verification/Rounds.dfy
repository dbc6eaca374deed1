/** The life of a round: who may still finish it, the result that is recorded when it closes,
    and what the history of a run says about loads and score frames. */
module Rounds {
  import opened BanchoTypes
  import opened Rooms

  // A display name, or the fallback text made from a user id.
  datatype Name = Known(text: bytes) | Numbered(user: int)

  datatype Row = Row(user: int, name: Name, slot: nat, team: u8, score: i32, maxCombo: u16,
                     c300: u16, c100: u16, c50: u16, cMiss: u16, cGeki: u16, cKatu: u16,
                     passed: bool, won: bool)

  datatype Best = Best(user: int, name: Name, score: int)

  const NOBODY := Best(-1, Known([]), -1)

  // team is the winning side of a team-vs round, TEAM_NEUTRAL on a draw and in every other mode.
  datatype Outcome = Outcome(rows: seq<Row>, best: Best, teamVs: bool, team: u8)

  // ---------- closing a round ----------

  predicate ShouldFinish(m: Match) {
    var stillPlaying := exists i :: 0 <= i < 16 && m.slots[i].status == SLOT_PLAYING;
    var anyCompleted := exists i :: 0 <= i < 16 && m.slots[i].status == SLOT_COMPLETE;
    !stillPlaying && (anyCompleted || forall i :: 0 <= i < 16 ==> !HasPlayer(m.slots[i].status))
  }

  function NameOf(names: map<i32, bytes>, user: i32): Name {
    if user in names then Known(names[user]) else Numbered(user)
  }

  function RowOf(s: Slot, i: nat, scores: map<int, Frame>, names: map<i32, bytes>): Row {
    var name := NameOf(names, s.user);
    if s.user in scores then
      var f := scores[s.user];
      Row(s.user, name, i, s.team, f.totalScore, f.maxCombo, f.total300, f.total100, f.total50,
          f.totalMiss, f.totalGeki, f.totalKatu, true, false)
    else
      Row(s.user, name, i, s.team, 0, 0, 0, 0, 0, 0, 0, 0, false, false)
  }

  // The rows of the first k slots.
  function Rows(slots: Slots, scores: map<int, Frame>, names: map<i32, bytes>, k: nat): seq<Row>
    requires k <= 16
  {
    if k == 0 then []
    else if Occupied(slots[k - 1]) then Rows(slots, scores, names, k - 1) + [RowOf(slots[k - 1], k - 1, scores, names)]
    else Rows(slots, scores, names, k - 1)
  }

  // The running winner over a prefix of the rows.
  function BestOf(rows: seq<Row>): Best {
    if rows == [] then NOBODY else
    var b := BestOf(rows[..|rows| - 1]);
    var last := rows[|rows| - 1];
    if last.score > b.score then Best(last.user, last.name, last.score) else b
  }

  function TeamTotal(rows: seq<Row>, team: u8): int {
    if rows == [] then 0 else
    var last := rows[|rows| - 1];
    TeamTotal(rows[..|rows| - 1], team) + if last.team == team then last.score else 0
  }

  function WinningTeam(blue: int, red: int): u8 {
    if blue > red then TEAM_BLUE else if red > blue then TEAM_RED else TEAM_NEUTRAL
  }

  predicate Won(row: Row, teamVs: bool, team: u8, winner: int) {
    if teamVs then row.team == team && team != TEAM_NEUTRAL else row.user == winner
  }

  function Mark(rows: seq<Row>, teamVs: bool, team: u8, winner: int): (marked: seq<Row>)
    ensures |marked| == |rows|
    ensures forall i :: 0 <= i < |rows| ==> marked[i] == rows[i].(won := Won(rows[i], teamVs, team, winner))
  {
    seq(|rows|, i requires 0 <= i < |rows| => rows[i].(won := Won(rows[i], teamVs, team, winner)))
  }

  function Close(m: Match, scores: map<int, Frame>, names: map<i32, bytes>): Outcome {
    var rows := Rows(m.slots, scores, names, 16);
    var best := BestOf(rows);
    var teamVs := m.teamType == TEAM_TYPE_TEAM_VS;
    var team := if teamVs then WinningTeam(TeamTotal(rows, TEAM_BLUE), TeamTotal(rows, TEAM_RED)) else TEAM_NEUTRAL;
    Outcome(Mark(rows, teamVs, team, best.user), best, teamVs, team)
  }

  function Rest(s: Slot): Slot {
    if HasPlayer(s.status) then s.(status := SLOT_NOT_READY) else s
  }

  function RestAll(slots: Slots): Slots {
    seq(16, i requires 0 <= i < 16 => Rest(slots[i]))
  }

  function Closed(m: Match): Match {
    m.(inProgress := false, slots := RestAll(m.slots))
  }

  // ---------- the result of a round ----------

  // A result row's numbers, taken from a frame.
  predicate RowFrom(row: Row, f: Frame) {
    && row.score == f.totalScore && row.maxCombo == f.maxCombo && row.c300 == f.total300
    && row.c100 == f.total100 && row.c50 == f.total50 && row.cMiss == f.totalMiss
    && row.cGeki == f.totalGeki && row.cKatu == f.totalKatu
  }

  predicate Blank(row: Row) {
    && row.score == 0 && row.maxCombo == 0 && row.c300 == 0 && row.c100 == 0 && row.c50 == 0
    && row.cMiss == 0 && row.cGeki == 0 && row.cKatu == 0
  }

  // A row has passed exactly when its user has a frame, and then carries its numbers, else none.
  predicate RowScored(row: Row, scores: map<int, Frame>) {
    && (row.passed <==> row.user in scores)
    && (if row.user in scores then RowFrom(row, scores[row.user]) else Blank(row))
  }

  // A row stands for an occupied slot, with its occupant and team, and carries that occupant's frame.
  predicate Fits(row: Row, slots: Slots, scores: map<int, Frame>, names: map<i32, bytes>) {
    && row.slot < 16 && Occupied(slots[row.slot])
    && row.user == slots[row.slot].user && row.team == slots[row.slot].team
    && row.name == (if slots[row.slot].user in names then Known(names[slots[row.slot].user]) else Numbered(row.user))
    && RowScored(row, scores)
  }

  ghost predicate HasRow(rows: seq<Row>, slot: int) {
    exists a :: 0 <= a < |rows| && rows[a].slot == slot
  }

  // Rows come in slot order, each describing an occupied slot, and no occupied slot is missed.
  ghost predicate Covers(rows: seq<Row>, slots: Slots, scores: map<int, Frame>, names: map<i32, bytes>, k: nat)
    requires k <= 16
  {
    && (forall a :: 0 <= a < |rows| ==> rows[a].slot < k && Fits(rows[a], slots, scores, names))
    && (forall a, b :: 0 <= a < b < |rows| ==> rows[a].slot < rows[b].slot)
    && (forall i :: 0 <= i < k && Occupied(slots[i]) ==> HasRow(rows, i))
  }

  lemma CoversOneMore(rows: seq<Row>, slots: Slots, scores: map<int, Frame>, names: map<i32, bytes>, k: nat)
    requires k < 16 && Covers(rows, slots, scores, names, k) && Occupied(slots[k])
    ensures Covers(rows + [RowOf(slots[k], k, scores, names)], slots, scores, names, k + 1)
  {
    hide Occupied; hide Fits; hide RowOf;
    var rows' := rows + [RowOf(slots[k], k, scores, names)];
    RowFits(slots, k, scores, names);
    forall i | 0 <= i < k + 1 && Occupied(slots[i]) ensures HasRow(rows', i) {
      if i == k {
        assert rows'[|rows|].slot == i;
      } else {
        var a :| 0 <= a < |rows| && rows[a].slot == i;
        assert rows'[a].slot == i;
      }
    }
  }

  lemma {:induction false} RowsCoverOccupants(slots: Slots, scores: map<int, Frame>, names: map<i32, bytes>, k: nat)
    requires k <= 16
    ensures Covers(Rows(slots, scores, names, k), slots, scores, names, k)
  {
    hide Occupied; hide Fits; hide RowOf;
    if k > 0 {
      RowsCoverOccupants(slots, scores, names, k - 1);
      var before := Rows(slots, scores, names, k - 1);
      if Occupied(slots[k - 1]) {
        CoversOneMore(before, slots, scores, names, k - 1);
      } else {
        assert Rows(slots, scores, names, k) == before;
      }
    }
  }

  lemma RowFits(slots: Slots, i: nat, scores: map<int, Frame>, names: map<i32, bytes>)
    requires i < 16 && Occupied(slots[i])
    ensures RowOf(slots[i], i, scores, names).slot == i
    ensures Fits(RowOf(slots[i], i, scores, names), slots, scores, names)
  {
  }

  // The running winner is the first row with the highest score, as long as that is not negative.
  ghost predicate FirstBest(rows: seq<Row>, w: int) {
    && 0 <= w < |rows| && rows[w].score >= 0
    && (forall a :: 0 <= a < |rows| ==> rows[a].score <= rows[w].score)
    && (forall a :: 0 <= a < w ==> rows[a].score < rows[w].score)
  }

  // The running best is nobody while every score is negative, and otherwise a first maximum.
  ghost predicate BestFits(rows: seq<Row>, b: Best) {
    if b == NOBODY then forall a :: 0 <= a < |rows| ==> rows[a].score < 0
    else exists w :: FirstBest(rows, w) && b == Best(rows[w].user, rows[w].name, rows[w].score)
  }

  lemma BestGrows(rows: seq<Row>, b: Best)
    requires rows != [] && BestFits(rows[..|rows| - 1], b)
    ensures var last := rows[|rows| - 1];
      BestFits(rows, if last.score > b.score then Best(last.user, last.name, last.score) else b)
  {
    var n := |rows| - 1;
    var before := rows[..n];
    if b == NOBODY {
      assert forall a :: 0 <= a < n ==> rows[a] == before[a];
      if rows[n].score > -1 { assert FirstBest(rows, n); }
    } else {
      var w :| FirstBest(before, w) && b == Best(before[w].user, before[w].name, before[w].score);
      assert forall a :: 0 <= a < n ==> rows[a] == before[a];
      assert FirstBest(rows, if rows[n].score > b.score then n else w);
    }
  }

  lemma {:induction false} BestIsFirstMaximum(rows: seq<Row>)
    ensures BestFits(rows, BestOf(rows))
  {
    if rows != [] {
      BestIsFirstMaximum(rows[..|rows| - 1]);
      BestGrows(rows, BestOf(rows[..|rows| - 1]));
    }
  }

  // The rows before marking, as seen in the final result.
  lemma ResultRows(m: Match, scores: map<int, Frame>, names: map<i32, bytes>)
    requires RoomOk(m)
    ensures var rows := Close(m, scores, names).rows;
      && (forall a :: 0 <= a < |rows| ==> Fits(rows[a], m.slots, scores, names))
      && (forall a, b :: 0 <= a < b < |rows| ==> rows[a].slot < rows[b].slot && rows[a].user != rows[b].user)
  {
    hide Occupied; hide BestOf; hide TeamTotal;
    RowsCoverOccupants(m.slots, scores, names, 16);
    var raw := Rows(m.slots, scores, names, 16);
    var rows := Close(m, scores, names).rows;
    forall a, b | 0 <= a < b < |rows| ensures rows[a].slot < rows[b].slot && rows[a].user != rows[b].user {
      assert Fits(raw[a], m.slots, scores, names) && Fits(raw[b], m.slots, scores, names);
      if rows[a].user == rows[b].user { OneSeat(m.slots, raw[a].slot, raw[b].slot); }
    }
  }

  lemma OneSeat(slots: Slots, i: nat, j: nat)
    requires Distinct(slots) && i < 16 && j < 16 && Occupied(slots[i]) && Occupied(slots[j])
    requires slots[i].user == slots[j].user
    ensures i == j
  {
  }

  // Outside team-vs exactly one row is marked won, that of the lowest-numbered slot holding the
  // highest score, unless every score is negative, when none is.
  lemma SoloWinner(m: Match, scores: map<int, Frame>, names: map<i32, bytes>)
    requires RoomOk(m) && m.teamType != TEAM_TYPE_TEAM_VS
    ensures var o := Close(m, scores, names);
      && BestFits(o.rows, o.best)
      && if o.best == NOBODY then forall a :: 0 <= a < |o.rows| ==> !o.rows[a].won
         else exists w :: FirstBest(o.rows, w) && o.best.user == o.rows[w].user
                && forall a :: 0 <= a < |o.rows| ==> (o.rows[a].won <==> a == w)
  {
    hide Occupied; hide RoomOk; hide TeamTotal; hide RowOf;
    var raw := Rows(m.slots, scores, names, 16);
    var o := Close(m, scores, names);
    ResultRows(m, scores, names);
    BestIsFirstMaximum(raw);
    SameScores(raw, o.rows, o.best);
    if o.best == NOBODY {
      forall a | 0 <= a < |o.rows| ensures !o.rows[a].won { FitsUser(o.rows[a], m.slots, scores, names); }
    } else {
      var w :| FirstBest(o.rows, w) && o.best == Best(o.rows[w].user, o.rows[w].name, o.rows[w].score);
      assert forall a :: 0 <= a < |o.rows| ==> (o.rows[a].won <==> a == w);
    }
  }

  lemma SameScores(raw: seq<Row>, rows: seq<Row>, b: Best)
    requires |raw| == |rows| && BestFits(raw, b)
    requires forall a :: 0 <= a < |rows| ==> rows[a].(won := false) == raw[a].(won := false)
    ensures BestFits(rows, b)
  {
    if b != NOBODY {
      var w :| FirstBest(raw, w) && b == Best(raw[w].user, raw[w].name, raw[w].score);
      assert FirstBest(rows, w);
    }
  }

  lemma FitsUser(row: Row, slots: Slots, scores: map<int, Frame>, names: map<i32, bytes>)
    requires Fits(row, slots, scores, names)
    ensures row.user > 0 && row.user == slots[row.slot].user
  {
  }

  // The points of one side: the last frames of its occupants, added up over the first k slots.
  function Points(slots: Slots, scores: map<int, Frame>, team: u8, k: nat := 16): int
    requires k <= 16
  {
    if k == 0 then 0 else
    var s := slots[k - 1];
    Points(slots, scores, team, k - 1) +
      if HasPlayer(s.status) && s.user > 0 && s.team == team && s.user in scores then scores[s.user].totalScore else 0
  }

  lemma {:induction false} TotalsArePoints(slots: Slots, scores: map<int, Frame>, names: map<i32, bytes>, team: u8,
    k: nat)
    requires k <= 16
    ensures TeamTotal(Rows(slots, scores, names, k), team) == Points(slots, scores, team, k)
  {
    if k > 0 {
      TotalsArePoints(slots, scores, names, team, k - 1);
      var before := Rows(slots, scores, names, k - 1);
      if Occupied(slots[k - 1]) {
        var row := RowOf(slots[k - 1], k - 1, scores, names);
        assert (before + [row])[..|before|] == before;
      }
    }
  }

  // In team-vs the won rows are those of the side whose occupants have strictly more points in all, none
  // on a draw; and the result names that side.
  lemma TeamWinner(m: Match, scores: map<int, Frame>, names: map<i32, bytes>, a: nat)
    requires m.teamType == TEAM_TYPE_TEAM_VS && a < |Close(m, scores, names).rows|
    ensures var o := Close(m, scores, names);
      var (blue, red) := (Points(m.slots, scores, TEAM_BLUE), Points(m.slots, scores, TEAM_RED));
      && (o.rows[a].won <==> (o.rows[a].team == TEAM_BLUE && blue > red) || (o.rows[a].team == TEAM_RED && red > blue))
      && (o.team == TEAM_BLUE <==> blue > red) && (o.team == TEAM_RED <==> red > blue)
      && o.teamVs
  {
    hide RowOf; hide BestOf; hide TeamTotal; hide Rows;
    TotalsArePoints(m.slots, scores, names, TEAM_BLUE, 16);
    TotalsArePoints(m.slots, scores, names, TEAM_RED, 16);
  }

  // Exactly one row per occupant, in slot order, with the occupant's last frame if one was sent.
  lemma OneRowPerOccupant(m: Match, scores: map<int, Frame>, names: map<i32, bytes>)
    requires RoomOk(m)
    ensures var rows := Close(m, scores, names).rows;
      && (forall a :: 0 <= a < |rows| ==> Fits(rows[a], m.slots, scores, names))
      && (forall a, b :: 0 <= a < b < |rows| ==> rows[a].slot < rows[b].slot && rows[a].user != rows[b].user)
      && (forall u :: u in Occupants(m.slots) <==> exists a :: 0 <= a < |rows| && rows[a].user == u)
  {
    hide RoomOk; hide BestOf; hide TeamTotal; hide RowOf;
    var raw := Rows(m.slots, scores, names, 16);
    var rows := Close(m, scores, names).rows;
    ResultRows(m, scores, names);
    RowsCoverOccupants(m.slots, scores, names, 16);
    forall u ensures u in Occupants(m.slots) <==> exists a :: 0 <= a < |rows| && rows[a].user == u {
      if u in Occupants(m.slots) {
        var i :| 0 <= i < 16 && Occupied(m.slots[i]) && m.slots[i].user == u;
        assert HasRow(raw, i);
        var a :| 0 <= a < |raw| && raw[a].slot == i;
        FitsUser(raw[a], m.slots, scores, names);
        assert rows[a].user == u;
      }
      if a :| 0 <= a < |rows| && rows[a].user == u {
        FitsUser(rows[a], m.slots, scores, names);
      }
    }
  }

  // Afterwards every occupant is NOT_READY and seating and host are unchanged.
  lemma ClosedOk(m: Match)
    requires RoomOk(m)
    ensures SamePeople(m, Closed(m)) && Closed(m).host == m.host
    ensures forall i :: 0 <= i < 16 ==> Closed(m).slots[i].user == m.slots[i].user
    ensures forall i :: 0 <= i < 16 && Occupied(Closed(m).slots[i]) ==> Closed(m).slots[i].status == SLOT_NOT_READY
  {
    forall i | 0 <= i < 16 ensures SlotOk(Closed(m).slots[i]) { SlotIsOk(m.slots, i); }
    Restyled(m, Closed(m));
  }

  // ---------- playing slots ----------

  predicate AnyPlaying(slots: Slots) {
    exists i :: 0 <= i < 16 && slots[i].status == SLOT_PLAYING
  }

  predicate AnyComplete(slots: Slots) {
    exists i :: 0 <= i < 16 && slots[i].status == SLOT_COMPLETE
  }

  function PlayingUsers(slots: Slots): set<int> {
    set i | 0 <= i < 16 && slots[i].status == SLOT_PLAYING && slots[i].user > 0 :: slots[i].user
  }

  // The number of PLAYING slots among the first k.
  function PlayingCount(slots: Slots, k: nat := 16): nat
    requires k <= 16
  {
    if k == 0 then 0 else PlayingCount(slots, k - 1) + if slots[k - 1].status == SLOT_PLAYING then 1 else 0
  }

  // ---------- history ----------

  datatype Event =
    | Opened(room: u16)                                // a create succeeded
    | Began(room: u16)                                 // the host's START
    | Loaded(room: u16, user: int)                     // LOAD_COMPLETE from a user in the room
    | Scored(room: u16, user: int, frame: Frame)       // a relayed score frame
    | AllLoaded(room: u16, playing: set<int>)          // the all-players-loaded packet goes out
    | Ended(room: u16, outcome: Outcome)               // the round closes with this result

  // Whether a round of the room is under way.
  function RoundOpen(tr: seq<Event>, room: u16): bool {
    if tr == [] then false else
    var (before, e) := (tr[..|tr| - 1], tr[|tr| - 1]);
    if e.room != room then RoundOpen(before, room) else
    match e
    case Opened(_) => false
    case Began(_) => true
    case Ended(_, _) => false
    case _ => RoundOpen(before, room)
  }

  // Who has sent LOAD_COMPLETE in the room since the latest START there.
  function LoadedInRound(tr: seq<Event>, room: u16): set<int> {
    if tr == [] then {} else
    var (before, e) := (tr[..|tr| - 1], tr[|tr| - 1]);
    if e.room != room then LoadedInRound(before, room) else
    match e
    case Opened(_) => {}
    case Began(_) => {}
    case Loaded(_, u) => LoadedInRound(before, room) + {u}
    case _ => LoadedInRound(before, room)
  }

  // The last frame each user has sent in the room since the latest START there.
  function ScoresInRound(tr: seq<Event>, room: u16): map<int, Frame> {
    if tr == [] then map[] else
    var (before, e) := (tr[..|tr| - 1], tr[|tr| - 1]);
    if e.room != room then ScoresInRound(before, room) else
    match e
    case Opened(_) => map[]
    case Began(_) => map[]
    case Scored(_, u, f) => ScoresInRound(before, room)[u := f]
    case _ => ScoresInRound(before, room)
  }

  // Position s holds the latest START of the room, with no create of that room after it.
  ghost predicate LatestStart(tr: seq<Event>, room: u16, s: int) {
    && 0 <= s < |tr| && tr[s] == Began(room)
    && forall j :: s < j < |tr| ==> tr[j] != Began(room) && tr[j] != Opened(room)
  }

  lemma {:induction false} OpenRoundBegan(tr: seq<Event>, room: u16)
    requires RoundOpen(tr, room)
    ensures exists s :: LatestStart(tr, room, s)
  {
    var n := |tr| - 1;
    if tr[n] == Began(room) {
      assert LatestStart(tr, room, n);
    } else {
      OpenRoundBegan(tr[..n], room);
      var s :| LatestStart(tr[..n], room, s);
      assert tr[s] == Began(room);
      assert LatestStart(tr, room, s) by {
        forall j | s < j < |tr| ensures tr[j] != Began(room) && tr[j] != Opened(room) {
          if j < n { assert tr[..n][j] == tr[j]; }
        }
      }
    }
  }

  lemma {:induction false} LoadedAfterStart(tr: seq<Event>, room: u16, user: int, s: int)
    requires LatestStart(tr, room, s) && user in LoadedInRound(tr, room)
    ensures exists i :: s < i < |tr| && tr[i] == Loaded(room, user)
  {
    var n := |tr| - 1;
    if tr[n] != Loaded(room, user) {
      assert s < n;
      assert LatestStart(tr[..n], room, s);
      LoadedAfterStart(tr[..n], room, user, s);
      var i :| s < i < n && tr[..n][i] == Loaded(room, user);
      assert tr[i] == Loaded(room, user);
    }
  }

  // Position i holds the user's last score frame in the room.
  ghost predicate LastFrame(tr: seq<Event>, room: u16, user: int, frame: Frame, i: int) {
    && 0 <= i < |tr| && tr[i] == Scored(room, user, frame)
    && forall j :: i < j < |tr| ==> !(tr[j].Scored? && tr[j].room == room && tr[j].user == user)
  }

  lemma {:induction false} ScoredAfterStart(tr: seq<Event>, room: u16, user: int, s: int)
    requires LatestStart(tr, room, s) && user in ScoresInRound(tr, room)
    ensures exists i :: s < i && LastFrame(tr, room, user, ScoresInRound(tr, room)[user], i)
  {
    var n := |tr| - 1;
    var f := ScoresInRound(tr, room)[user];
    if tr[n] == Scored(room, user, f) {
      assert LastFrame(tr, room, user, f, n);
    } else {
      assert s < n;
      assert LatestStart(tr[..n], room, s);
      ScoredAfterStart(tr[..n], room, user, s);
      var i :| s < i && LastFrame(tr[..n], room, user, f, i);
      assert LastFrame(tr, room, user, f, i) by {
        forall j | i < j < |tr| ensures !(tr[j].Scored? && tr[j].room == room && tr[j].user == user) {
          if j < n { assert tr[..n][j] == tr[j]; }
        }
      }
    }
  }

  predicate RowsFrom(rows: seq<Row>, scores: map<int, Frame>) {
    forall a :: 0 <= a < |rows| ==> RowScored(rows[a], scores)
  }

  lemma CloseUsesScores(m: Match, scores: map<int, Frame>, names: map<i32, bytes>)
    requires RoomOk(m)
    ensures RowsFrom(Close(m, scores, names).rows, scores)
  {
    hide Close; hide RoomOk;
    ResultRows(m, scores, names);
  }

  // What must hold when event e is added to history tr.
  predicate Justified(tr: seq<Event>, e: Event) {
    match e
    case AllLoaded(room, playing) => playing <= LoadedInRound(tr, room) && (playing != {} ==> RoundOpen(tr, room))
    case Ended(room, outcome) => RoundOpen(tr, room) && RowsFrom(outcome.rows, ScoresInRound(tr, room))
    case _ => true
  }

  ghost predicate SafeHistory(tr: seq<Event>) {
    forall k :: 0 <= k < |tr| ==> Justified(tr[..k], tr[k])
  }

  lemma SafeExtension(tr: seq<Event>, e: Event)
    requires SafeHistory(tr) && Justified(tr, e)
    ensures SafeHistory(tr + [e])
  {
    forall k | 0 <= k < |tr| + 1 ensures Justified((tr + [e])[..k], (tr + [e])[k]) {
      assert (tr + [e])[..k] == tr[..k];
      if k == |tr| { assert tr[..k] == tr; }
    }
  }

  // The packet is backed, for every playing user, by a LOAD_COMPLETE sent in that room after the
  // latest START.
  lemma AllLoadedIsEarned(tr: seq<Event>, k: nat, user: int)
    requires SafeHistory(tr) && k < |tr| && tr[k].AllLoaded? && user in tr[k].playing
    ensures exists s, i :: LatestStart(tr[..k], tr[k].room, s) && s < i < k && tr[i] == Loaded(tr[k].room, user)
  {
    var room := tr[k].room;
    assert Justified(tr[..k], tr[k]);
    OpenRoundBegan(tr[..k], room);
    var s :| LatestStart(tr[..k], room, s);
    LoadedAfterStart(tr[..k], room, user, s);
    var i :| s < i < k && tr[..k][i] == Loaded(room, user);
    assert tr[i] == Loaded(room, user);
  }

  ghost predicate Backing(tr: seq<Event>, room: u16, row: Row, s: int, i: int, f: Frame) {
    LatestStart(tr, room, s) && s < i && LastFrame(tr, room, row.user, f, i) && RowFrom(row, f)
  }

  // A frame sent since the latest START, and no later one, is the one kept.
  lemma {:induction false} FrameCounts(tr: seq<Event>, room: u16, user: int, s: int, i: int, f: Frame)
    requires LatestStart(tr, room, s) && s < i && LastFrame(tr, room, user, f, i)
    ensures user in ScoresInRound(tr, room) && ScoresInRound(tr, room)[user] == f
  {
    var n := |tr| - 1;
    if i < n {
      var before := tr[..n];
      assert forall j :: 0 <= j < n ==> before[j] == tr[j];
      FrameCounts(before, room, user, s, i, f);
      assert tr[n] != Began(room) && tr[n] != Opened(room);
    }
  }

  // The user has sent a frame in the room since its latest START, the last of them f.
  ghost predicate SentLast(tr: seq<Event>, room: u16, user: int, f: Frame) {
    exists s, i :: LatestStart(tr, room, s) && s < i && LastFrame(tr, room, user, f, i)
  }

  // A row of a result has passed exactly when its user has sent a frame in that room since the latest
  // START; it then carries the last of them, and otherwise only zeros.
  lemma ResultIsComplete(tr: seq<Event>, k: nat, a: nat)
    requires SafeHistory(tr) && k < |tr| && tr[k].Ended? && a < |tr[k].outcome.rows|
    ensures var row := tr[k].outcome.rows[a];
      && (row.passed <==> exists f :: SentLast(tr[..k], tr[k].room, row.user, f))
      && (forall f :: SentLast(tr[..k], tr[k].room, row.user, f) ==> RowFrom(row, f))
      && (!row.passed ==> Blank(row))
  {
    var (room, row, before) := (tr[k].room, tr[k].outcome.rows[a], tr[..k]);
    assert Justified(before, tr[k]);
    assert RowScored(row, ScoresInRound(before, room));
    if row.passed {
      ResultIsEarned(tr, k, a);
      var s, i, f :| Backing(before, room, row, s, i, f);
      assert SentLast(before, room, row.user, f);
    }
    forall f | SentLast(before, room, row.user, f) ensures RowFrom(row, f) && row.passed {
      var s, i :| LatestStart(before, room, s) && s < i && LastFrame(before, room, row.user, f, i);
      FrameCounts(before, room, row.user, s, i, f);
    }
  }

  // Every scored row of a result comes from the last frame its user sent in that room after the
  // latest START.
  lemma ResultIsEarned(tr: seq<Event>, k: nat, a: nat)
    requires SafeHistory(tr) && k < |tr| && tr[k].Ended?
    requires a < |tr[k].outcome.rows| && tr[k].outcome.rows[a].passed
    ensures exists s, i, f :: Backing(tr[..k], tr[k].room, tr[k].outcome.rows[a], s, i, f)
  {
    var (room, row) := (tr[k].room, tr[k].outcome.rows[a]);
    assert Justified(tr[..k], tr[k]);
    OpenRoundBegan(tr[..k], room);
    var s :| LatestStart(tr[..k], room, s);
    ScoredAfterStart(tr[..k], room, row.user, s);
    var f := ScoresInRound(tr[..k], room)[row.user];
    var i :| s < i && LastFrame(tr[..k], room, row.user, f, i);
    assert Backing(tr[..k], room, row, s, i, f);
  }

  // ---------- the round invariant ----------

  // What every run keeps of the rounds, whatever numbers the rooms are given.
  ghost predicate RoundInv(r: Rooms) {
    && (forall id :: id in r.matches && r.matches[id].inProgress ==> id in r.startTimes)
    && r.startTimes.Keys <= r.matches.Keys
    && r.lastScores.Keys <= r.matches.Keys
    && forall id :: id in r.matches && AnyPlaying(r.matches[id].slots) ==> r.matches[id].inProgress
  }

  // Start times belong to exactly the rooms in progress, as long as no create takes the number of one.
  ghost predicate ClockExact(r: Rooms) {
    forall id :: id in r.startTimes <==> id in r.matches && r.matches[id].inProgress
  }

  function LoadedOf(r: Rooms, id: u16): set<int> {
    if id in r.loaded then r.loaded[id] else {}
  }

  function ScoresOf(r: Rooms, id: u16): map<int, Frame> {
    if id in r.lastScores then r.lastScores[id] else map[]
  }

  // The loads and scores kept for the room are those of its running round.
  predicate InStep(r: Rooms, tr: seq<Event>, id: u16) {
    RoundOpen(tr, id) && LoadedOf(r, id) == LoadedInRound(tr, id) && ScoresOf(r, id) == ScoresInRound(tr, id)
  }

  ghost predicate HistoryInv(r: Rooms, tr: seq<Event>) {
    && SafeHistory(tr)
    && forall id :: id in r.matches && r.matches[id].inProgress ==> InStep(r, tr, id)
  }
}
