/** Rooms and score frames on the wire (src/protocol/packets.rs): what is built, what is parsed
    back, and the normal form in between. */
module Packets {
  import opened Wrappers
  import opened BanchoTypes
  import opened Uleb128
  import opened Wire

  const CHO_MATCH_SCORE_UPDATE: u16 := 48

  // ---------- the layout of a room ----------

  function PutHead(m: Match, password: bytes): bytes {
    PutU16(m.id) + (PutBool(m.inProgress) +
      ([m.matchType] + (PutU32(m.activeMods) + (PutString(m.name) + PutString(password)))))
  }

  function PutMap(m: Match): bytes {
    PutString(m.beatmapName) + (PutI32(m.beatmapId) + PutString(m.beatmapMd5))
  }

  // One field of the slots from the k-th on.
  function PutStatuses(slots: Slots, k: nat): bytes
    requires k <= 16
    decreases 16 - k
  {
    if k == 16 then [] else [slots[k].status] + PutStatuses(slots, k + 1)
  }

  function PutTeams(slots: Slots, k: nat): bytes
    requires k <= 16
    decreases 16 - k
  {
    if k == 16 then [] else [slots[k].team] + PutTeams(slots, k + 1)
  }

  function PutUsers(slots: Slots, k: nat): bytes
    requires k <= 16
    decreases 16 - k
  {
    if k == 16 then []
    else if HasPlayer(slots[k].status) then PutI32(slots[k].user) + PutUsers(slots, k + 1)
    else PutUsers(slots, k + 1)
  }

  function PutMods(slots: Slots, k: nat): bytes
    requires k <= 16
    decreases 16 - k
  {
    if k == 16 then [] else PutU32(slots[k].mods) + PutMods(slots, k + 1)
  }

  function PutSettings(m: Match): bytes {
    PutI32(m.host) + ([m.playMode] + ([m.scoringType] + ([m.teamType] + PutBool(m.freemod))))
  }

  function PutSlots(slots: Slots): bytes {
    PutStatuses(slots, 0) + (PutTeams(slots, 0) + PutUsers(slots, 0))
  }

  function PutTail(m: Match): bytes {
    PutSettings(m) + ((if m.freemod then PutMods(m.slots, 0) else []) + PutU32(m.seed))
  }

  const SPACE: bytes := [32]

  function ShownPassword(m: Match, send: bool): bytes {
    if send then m.password.GetOr([]) else if m.password.Some? then SPACE else []
  }

  function MatchBytes(m: Match, send: bool): bytes {
    PutHead(m, ShownPassword(m, send)) + (PutMap(m) + (PutSlots(m.slots) + PutTail(m)))
  }

  // ---------- parsing a room ----------

  function NewMatch(): Match {
    Match(0, false, 0, 0, [], None, [], 0, [], NoSlots(), 0, 0, 0, 0, false, 0)
  }

  function GetHead(s: bytes, memory: nat): Parse<Match> {
    var (id, s) :- GetU16(s);
    var (inProgress, s) :- GetBool(s);
    var (matchType, s) :- GetU8(s);
    var (activeMods, s) :- GetU32(s);
    var (name, s) :- GetString(s, memory);
    var (password, s) :- GetString(s, memory);
    Read(NewMatch().(id := id, inProgress := inProgress, matchType := matchType, activeMods := activeMods, name := name,
                     password := if password == [] then None else Some(password)), s)
  }

  function GetMap(m: Match, s: bytes, memory: nat): Parse<Match> {
    var (beatmapName, s) :- GetString(s, memory);
    var (beatmapId, s) :- GetI32(s);
    var (beatmapMd5, s) :- GetString(s, memory);
    Read(m.(beatmapName := beatmapName, beatmapId := beatmapId, beatmapMd5 := beatmapMd5), s)
  }

  function GetStatuses(slots: Slots, k: nat, s: bytes): Parse<Slots>
    requires k <= 16
    decreases 16 - k
  {
    if k == 16 then Read(slots, s) else
    var (x, s) :- GetU8(s);
    GetStatuses(slots[k := slots[k].(status := x)], k + 1, s)
  }

  function GetTeams(slots: Slots, k: nat, s: bytes): Parse<Slots>
    requires k <= 16
    decreases 16 - k
  {
    if k == 16 then Read(slots, s) else
    var (x, s) :- GetU8(s);
    GetTeams(slots[k := slots[k].(team := x)], k + 1, s)
  }

  function GetUsers(slots: Slots, k: nat, s: bytes): Parse<Slots>
    requires k <= 16
    decreases 16 - k
  {
    if k == 16 then Read(slots, s)
    else if HasPlayer(slots[k].status) then
      var (x, s) :- GetI32(s);
      GetUsers(slots[k := slots[k].(user := x)], k + 1, s)
    else GetUsers(slots[k := slots[k].(user := -1)], k + 1, s)
  }

  function GetMods(slots: Slots, k: nat, s: bytes): Parse<Slots>
    requires k <= 16
    decreases 16 - k
  {
    if k == 16 then Read(slots, s) else
    var (x, s) :- GetU32(s);
    GetMods(slots[k := slots[k].(mods := x)], k + 1, s)
  }

  function GetSlots(slots: Slots, s: bytes): Parse<Slots> {
    var (slots, s) :- GetStatuses(slots, 0, s);
    var (slots, s) :- GetTeams(slots, 0, s);
    GetUsers(slots, 0, s)
  }

  function GetSettings(m: Match, s: bytes): Parse<Match> {
    var (host, s) :- GetI32(s);
    var (playMode, s) :- GetU8(s);
    var (scoringType, s) :- GetU8(s);
    var (teamType, s) :- GetU8(s);
    var (freemod, s) :- GetBool(s);
    Read(m.(host := host, playMode := playMode, scoringType := scoringType, teamType := teamType,
      freemod := freemod), s)
  }

  // The seed is optional: fewer than four bytes left make it 0 and stay unread.
  function GetSeed(s: bytes): Parse<u32> {
    if |s| >= 4 then GetU32(s) else Read(0, s)
  }

  function GetTail(m: Match, s: bytes): Parse<Match> {
    var (m, s) :- GetSettings(m, s);
    var (slots, s) :- if m.freemod then GetMods(m.slots, 0, s) else Read(m.slots, s);
    var (seed, s) :- GetSeed(s);
    Read(m.(slots := slots, seed := seed), s)
  }

  function GetMatch(s: bytes, memory: nat): Parse<Match> {
    var (m, s) :- GetHead(s, memory);
    var (m, s) :- GetMap(m, s, memory);
    var (slots, s) :- GetSlots(m.slots, s);
    GetTail(m.(slots := slots), s)
  }

  // ---------- normal form ----------

  function NormalSlot(s: Slot, freemod: bool): Slot {
    s.(user := if HasPlayer(s.status) then s.user else -1, mods := if freemod then s.mods else 0)
  }

  function NormalSlots(slots: Slots, freemod: bool): Slots {
    seq(16, i requires 0 <= i < 16 => NormalSlot(slots[i], freemod))
  }

  function Normal(m: Match): Match {
    m.(slots := NormalSlots(m.slots, m.freemod), password := if m.password == Some([]) then None else m.password)
  }

  // What a room without its password looks like: any password at all is shown as a space.
  function Hidden(m: Match): Match {
    m.(password := if m.password.Some? then Some(SPACE) else None)
  }

  predicate Texts(m: Match, memory: nat) {
    && TextWithin(m.name, memory) && TextWithin(m.password.GetOr([]), memory)
    && TextWithin(m.beatmapName, memory) && TextWithin(m.beatmapMd5, memory)
  }

  // ---------- the fields one at a time ----------

  lemma {:induction false} StatusesRoundTrip(a: Slots, b: Slots, k: nat, r: bytes)
    requires k <= 16
    ensures var p := GetStatuses(a, k, PutStatuses(b, k) + r);
      && p.Read? && p.rest == r
      && forall i :: 0 <= i < 16 ==> p.value[i] == if i < k then a[i] else a[i].(status := b[i].status)
    decreases 16 - k
  {
    if k < 16 {
      var (s, r1) := (PutStatuses(b, k) + r, PutStatuses(b, k + 1) + r);
      assert s == [b[k].status] + r1;
      U8RoundTrip(b[k].status, r1);
      var a1 := a[k := a[k].(status := b[k].status)];
      assert GetStatuses(a, k, s) == GetStatuses(a1, k + 1, r1);
      StatusesRoundTrip(a1, b, k + 1, r);
    }
  }

  lemma {:induction false} TeamsRoundTrip(a: Slots, b: Slots, k: nat, r: bytes)
    requires k <= 16
    ensures var p := GetTeams(a, k, PutTeams(b, k) + r);
      && p.Read? && p.rest == r
      && forall i :: 0 <= i < 16 ==> p.value[i] == if i < k then a[i] else a[i].(team := b[i].team)
    decreases 16 - k
  {
    if k < 16 {
      var (s, r1) := (PutTeams(b, k) + r, PutTeams(b, k + 1) + r);
      assert s == [b[k].team] + r1;
      U8RoundTrip(b[k].team, r1);
      var a1 := a[k := a[k].(team := b[k].team)];
      assert GetTeams(a, k, s) == GetTeams(a1, k + 1, r1);
      TeamsRoundTrip(a1, b, k + 1, r);
    }
  }

  lemma {:induction false} UsersRoundTrip(a: Slots, b: Slots, k: nat, r: bytes)
    requires k <= 16 && forall i :: 0 <= i < 16 ==> a[i].status == b[i].status
    ensures var p := GetUsers(a, k, PutUsers(b, k) + r);
      && p.Read? && p.rest == r
      && forall i :: 0 <= i < 16 ==>
           p.value[i] == if i < k then a[i] else a[i].(user := if HasPlayer(b[i].status) then b[i].user else -1)
    decreases 16 - k
  {
    if k < 16 {
      if HasPlayer(b[k].status) {
        assert PutUsers(b, k) + r == PutI32(b[k].user) + (PutUsers(b, k + 1) + r);
        I32RoundTrip(b[k].user, PutUsers(b, k + 1) + r);
        UsersRoundTrip(a[k := a[k].(user := b[k].user)], b, k + 1, r);
      } else {
        UsersRoundTrip(a[k := a[k].(user := -1)], b, k + 1, r);
      }
    }
  }

  lemma {:induction false} ModsRoundTrip(a: Slots, b: Slots, k: nat, r: bytes)
    requires k <= 16
    ensures var p := GetMods(a, k, PutMods(b, k) + r);
      && p.Read? && p.rest == r
      && forall i :: 0 <= i < 16 ==> p.value[i] == if i < k then a[i] else a[i].(mods := b[i].mods)
    decreases 16 - k
  {
    if k < 16 {
      var (s, r1) := (PutMods(b, k) + r, PutMods(b, k + 1) + r);
      assert s == PutU32(b[k].mods) + r1;
      U32RoundTrip(b[k].mods, r1);
      var a1 := a[k := a[k].(mods := b[k].mods)];
      assert GetMods(a, k, s) == GetMods(a1, k + 1, r1);
      ModsRoundTrip(a1, b, k + 1, r);
    }
  }

  // ---------- the groups of fields ----------

  lemma Regroup2(a: bytes, b: bytes, r: bytes)
    ensures (a + b) + r == a + (b + r)
  {
  }

  lemma HeadRoundTrip(m: Match, password: bytes, r: bytes, memory: nat)
    requires Texts(m, memory) && TextWithin(password, memory)
    ensures GetHead(PutHead(m, password) + r, memory) ==
      Read(NewMatch().(id := m.id, inProgress := m.inProgress, matchType := m.matchType, activeMods := m.activeMods,
                       name := m.name, password := if password == [] then None else Some(password)), r)
  {
    hide PutU16; hide PutBool; hide PutU32; hide PutString; hide GetU16; hide GetBool; hide GetU8;
    hide GetU32; hide GetString; hide TextWithin; hide NewMatch;
    var r5 := PutString(password) + r;
    var r4 := PutString(m.name) + r5;
    var r3 := PutU32(m.activeMods) + r4;
    var r2 := [m.matchType] + r3;
    var r1 := PutBool(m.inProgress) + r2;
    assert PutHead(m, password) + r == PutU16(m.id) + r1;
    U16RoundTrip(m.id, r1);
    BoolRoundTrip(m.inProgress, r2);
    U8RoundTrip(m.matchType, r3);
    U32RoundTrip(m.activeMods, r4);
    StringRoundTrip(m.name, r5, memory);
    StringRoundTrip(password, r, memory);
  }

  lemma MapRoundTrip(m0: Match, m: Match, r: bytes, memory: nat)
    requires Texts(m, memory)
    ensures GetMap(m0, PutMap(m) + r, memory) ==
      Read(m0.(beatmapName := m.beatmapName, beatmapId := m.beatmapId, beatmapMd5 := m.beatmapMd5), r)
  {
    hide PutString; hide PutI32; hide GetString; hide GetI32; hide TextWithin;
    var r2 := PutString(m.beatmapMd5) + r;
    var r1 := PutI32(m.beatmapId) + r2;
    assert PutMap(m) + r == PutString(m.beatmapName) + r1;
    StringRoundTrip(m.beatmapName, r1, memory);
    I32RoundTrip(m.beatmapId, r2);
    StringRoundTrip(m.beatmapMd5, r, memory);
  }

  lemma SlotsRoundTrip(a: Slots, b: Slots, r: bytes)
    ensures var p := GetSlots(a, PutSlots(b) + r);
      && p.Read? && p.rest == r
      && forall i :: 0 <= i < 16 ==>
           p.value[i] == a[i].(status := b[i].status, team := b[i].team,
             user := if HasPlayer(b[i].status) then b[i].user else -1)
  {
    hide PutStatuses; hide PutTeams; hide PutUsers; hide GetStatuses; hide GetTeams; hide GetUsers;
    var r2 := PutUsers(b, 0) + r;
    var r1 := PutTeams(b, 0) + r2;
    assert PutSlots(b) + r == PutStatuses(b, 0) + r1;
    StatusesRoundTrip(a, b, 0, r1);
    var a1 := GetStatuses(a, 0, PutStatuses(b, 0) + r1).value;
    TeamsRoundTrip(a1, b, 0, r2);
    var a2 := GetTeams(a1, 0, r1).value;
    UsersRoundTrip(a2, b, 0, r);
  }

  lemma SettingsRoundTrip(m0: Match, m: Match, r: bytes)
    ensures GetSettings(m0, PutSettings(m) + r) ==
      Read(m0.(host := m.host, playMode := m.playMode, scoringType := m.scoringType, teamType := m.teamType,
        freemod := m.freemod), r)
  {
    hide PutI32; hide PutBool; hide GetI32; hide GetU8; hide GetBool;
    var r4 := PutBool(m.freemod) + r;
    var r3 := [m.teamType] + r4;
    var r2 := [m.scoringType] + r3;
    var r1 := [m.playMode] + r2;
    assert PutSettings(m) + r == PutI32(m.host) + r1;
    I32RoundTrip(m.host, r1);
    U8RoundTrip(m.playMode, r2);
    U8RoundTrip(m.scoringType, r3);
    U8RoundTrip(m.teamType, r4);
    BoolRoundTrip(m.freemod, r);
  }

  lemma TailRoundTrip(m0: Match, m: Match, r: bytes)
    requires forall i :: 0 <= i < 16 ==> m0.slots[i] == NormalSlot(m.slots[i], m.freemod).(mods := 0)
    ensures GetTail(m0, PutTail(m) + r) ==
      Read(m0.(host := m.host, playMode := m.playMode, scoringType := m.scoringType, teamType := m.teamType,
        freemod := m.freemod, slots := NormalSlots(m.slots, m.freemod), seed := m.seed), r)
  {
    hide PutSettings; hide GetSettings; hide PutMods; hide GetMods; hide PutU32; hide GetU32;
    var r2 := PutU32(m.seed) + r;
    var r1 := (if m.freemod then PutMods(m.slots, 0) else []) + r2;
    assert PutTail(m) + r == PutSettings(m) + r1;
    SettingsRoundTrip(m0, m, r1);
    if m.freemod { ModsRoundTrip(m0.slots, m.slots, 0, r2); } else { assert [] + r2 == r2; }
    U32RoundTrip(m.seed, r);
    assert |PutU32(m.seed)| == 4;
    var slots := (if m.freemod then GetMods(m0.slots, 0, r1) else Read(m0.slots, r1)).value;
    assert slots == NormalSlots(m.slots, m.freemod);
  }

  // ---------- main results for rooms ----------

  lemma MatchLayout(m: Match, password: bytes, r: bytes, memory: nat)
    requires Texts(m, memory) && TextWithin(password, memory)
    ensures GetMatch((PutHead(m, password) + (PutMap(m) + (PutSlots(m.slots) + PutTail(m)))) + r, memory) ==
      Read(Normal(m).(password := if password == [] then None else Some(password)), r)
  {
    hide GetHead; hide PutHead; hide GetMap; hide PutMap; hide GetSlots; hide PutSlots; hide GetTail;
    hide PutTail; hide Texts; hide TextWithin;
    var r3 := PutTail(m) + r;
    var r2 := PutSlots(m.slots) + r3;
    var r1 := PutMap(m) + r2;
    assert (PutHead(m, password) + (PutMap(m) + (PutSlots(m.slots) + PutTail(m)))) + r == PutHead(m, password) + r1;
    HeadRoundTrip(m, password, r1, memory);
    var m1 := GetHead(PutHead(m, password) + r1, memory).value;
    MapRoundTrip(m1, m, r2, memory);
    var m2 := GetMap(m1, r1, memory).value;
    SlotsRoundTrip(m2.slots, m.slots, r3);
    var m3 := m2.(slots := GetSlots(m2.slots, r2).value);
    TailRoundTrip(m3, m, r);
  }

  // A room built with its password parses to its normal form, whatever follows.
  lemma SentMatchParses(m: Match, r: bytes, memory: nat)
    requires Texts(m, memory)
    ensures GetMatch(MatchBytes(m, true) + r, memory) == Read(Normal(m), r)
  {
    hide GetMatch; hide PutHead; hide PutMap; hide PutSlots; hide PutTail; hide TextWithin;
    MatchLayout(m, m.password.GetOr([]), r, memory);
  }

  // A room built without its password still tells whether it has one, even an empty one.
  lemma HiddenMatchParses(m: Match, r: bytes, memory: nat)
    requires Texts(m, memory) && memory >= 1
    ensures GetMatch(MatchBytes(m, false) + r, memory) == Read(Normal(Hidden(m)), r)
    ensures GetMatch(MatchBytes(m, false) + r, memory).value.password.Some? <==> m.password.Some?
  {
    hide GetMatch; hide PutHead; hide PutMap; hide PutSlots; hide PutTail;
    assert Utf8([]);
    assert SPACE[1..] == [] && Utf8(SPACE);
    MatchLayout(m, ShownPassword(m, false), r, memory);
  }

  lemma NormalIsIdempotent(m: Match)
    ensures Normal(Normal(m)) == Normal(m)
  {
    var once := NormalSlots(m.slots, m.freemod);
    assert NormalSlots(once, m.freemod) == once;
  }

  // ---------- what parsing can return ----------

  lemma {:induction false} StatusesOnly(a: Slots, k: nat, s: bytes)
    requires k <= 16 && GetStatuses(a, k, s).Read?
    ensures forall i :: 0 <= i < 16 ==> GetStatuses(a, k, s).value[i].mods == a[i].mods
    decreases 16 - k
  {
    if k < 16 { StatusesOnly(a[k := a[k].(status := GetU8(s).value)], k + 1, GetU8(s).rest); }
  }

  lemma {:induction false} TeamsOnly(a: Slots, k: nat, s: bytes)
    requires k <= 16 && GetTeams(a, k, s).Read?
    ensures forall i :: 0 <= i < 16 ==> GetTeams(a, k, s).value[i].mods == a[i].mods
    decreases 16 - k
  {
    if k < 16 { TeamsOnly(a[k := a[k].(team := GetU8(s).value)], k + 1, GetU8(s).rest); }
  }

  lemma {:induction false} UsersOnly(a: Slots, k: nat, s: bytes)
    requires k <= 16 && GetUsers(a, k, s).Read?
    requires forall i :: 0 <= i < k ==> HasPlayer(a[i].status) || a[i].user == -1
    ensures var b := GetUsers(a, k, s).value;
      forall i :: 0 <= i < 16 ==> b[i].mods == a[i].mods && (HasPlayer(b[i].status) || b[i].user == -1)
    decreases 16 - k
  {
    if k < 16 {
      if HasPlayer(a[k].status) {
        UsersOnly(a[k := a[k].(user := GetI32(s).value)], k + 1, GetI32(s).rest);
      } else {
        UsersOnly(a[k := a[k].(user := -1)], k + 1, s);
      }
    }
  }

  lemma {:induction false} ModsOnly(a: Slots, k: nat, s: bytes)
    requires k <= 16 && GetMods(a, k, s).Read?
    ensures forall i :: 0 <= i < 16 ==> GetMods(a, k, s).value[i] == a[i].(mods := GetMods(a, k, s).value[i].mods)
    decreases 16 - k
  {
    if k < 16 { ModsOnly(a[k := a[k].(mods := GetU32(s).value)], k + 1, GetU32(s).rest); }
  }

  lemma HeadParsed(s: bytes, memory: nat)
    requires GetHead(s, memory).Read?
    ensures var m := GetHead(s, memory).value;
      m.slots == NoSlots() && m.password != Some([]) &&
      TextWithin(m.name, memory) && TextWithin(m.password.GetOr([]), memory)
  {
    hide GetU16; hide GetBool; hide GetU8; hide GetU32; hide GetString; hide TextWithin;
    var s1 := GetU16(s).rest;
    var s2 := GetBool(s1).rest;
    var s3 := GetU8(s2).rest;
    var s4 := GetU32(s3).rest;
    StringsReadAreTexts(s4, memory);
    StringsReadAreTexts(GetString(s4, memory).rest, memory);
    EmptyIsText(memory);
  }

  lemma EmptyIsText(memory: nat)
    ensures TextWithin([], memory)
  {
  }

  lemma MapParsed(m: Match, s: bytes, memory: nat)
    requires GetMap(m, s, memory).Read?
    ensures var m' := GetMap(m, s, memory).value;
      && TextWithin(m'.beatmapName, memory) && TextWithin(m'.beatmapMd5, memory)
      && m' == m.(beatmapName := m'.beatmapName, beatmapId := m'.beatmapId, beatmapMd5 := m'.beatmapMd5)
  {
    hide GetString; hide GetI32; hide TextWithin;
    StringsReadAreTexts(s, memory);
    StringsReadAreTexts(GetI32(GetString(s, memory).rest).rest, memory);
  }

  lemma SlotsParsed(a: Slots, s: bytes)
    requires GetSlots(a, s).Read?
    ensures var b := GetSlots(a, s).value;
      forall i :: 0 <= i < 16 ==> b[i].mods == a[i].mods && (HasPlayer(b[i].status) || b[i].user == -1)
  {
    hide GetStatuses; hide GetTeams; hide GetUsers;
    var p := GetStatuses(a, 0, s);
    StatusesOnly(a, 0, s);
    var q := GetTeams(p.value, 0, p.rest);
    TeamsOnly(p.value, 0, p.rest);
    UsersOnly(q.value, 0, q.rest);
  }

  lemma TailParsed(m: Match, s: bytes)
    requires GetTail(m, s).Read?
    requires forall i :: 0 <= i < 16 ==> m.slots[i].mods == 0 && (HasPlayer(m.slots[i].status) || m.slots[i].user == -1)
    ensures var m' := GetTail(m, s).value;
      && m'.name == m.name && m'.password == m.password && m'.beatmapName == m.beatmapName &&
        m'.beatmapMd5 == m.beatmapMd5
      && NormalSlots(m'.slots, m'.freemod) == m'.slots
  {
    hide GetI32; hide GetU8; hide GetBool; hide GetMods; hide GetU32;
    var p := GetSettings(m, s);
    if p.value.freemod { ModsOnly(p.value.slots, 0, p.rest); }
    var m' := GetTail(m, s).value;
    assert NormalSlots(m'.slots, m'.freemod) == m'.slots;
  }

  // Every room parsed is in normal form and holds well-formed texts.
  lemma ParsedIsNormal(s: bytes, memory: nat)
    requires GetMatch(s, memory).Read?
    ensures Normal(GetMatch(s, memory).value) == GetMatch(s, memory).value && Texts(GetMatch(s, memory).value, memory)
  {
    hide GetHead; hide GetMap; hide GetSlots; hide GetTail; hide TextWithin;
    var p := GetHead(s, memory);
    HeadParsed(s, memory);
    var q := GetMap(p.value, p.rest, memory);
    MapParsed(p.value, p.rest, memory);
    var b := GetSlots(q.value.slots, q.rest);
    SlotsParsed(q.value.slots, q.rest);
    TailParsed(q.value.(slots := b.value), b.rest);
  }

  // The rooms parsing can return are exactly those in normal form with well-formed texts: each is
  // what its own packet parses to.
  lemma ParsedIffNormal(m: Match, memory: nat)
    ensures (exists s :: GetMatch(s, memory) == Read(m, [])) <==> Normal(m) == m && Texts(m, memory)
  {
    hide GetMatch; hide Normal; hide Texts; hide MatchBytes;
    if s :| GetMatch(s, memory) == Read(m, []) {
      ParsedIsNormal(s, memory);
    }
    if Normal(m) == m && Texts(m, memory) {
      SentMatchParses(m, [], memory);
      assert GetMatch(MatchBytes(m, true) + [], memory) == Read(m, []);
    }
  }

  // ---------- the lengths a room declares ----------

  // The lengths of the texts of a room in the order in which they are read, up to the first that is not there.
  function HeadLengths(s: bytes): set<nat> {
    if |s| < 8 then {} else
    Declared(s[8..]) + match GetString(s[8..], UNLIMITED) case Fail(_) => {} case Read(_, s1) => Declared(s1)
  }

  function MapLengths(s: bytes): set<nat> {
    Declared(s) + match GetString(s, UNLIMITED)
                  case Fail(_) => {}
                  case Read(_, s1) => match GetI32(s1) case Fail(_) => {} case Read(_, s2) => Declared(s2)
  }

  function MatchLengths(s: bytes): set<nat> {
    HeadLengths(s) + match GetHead(s, UNLIMITED) case Fail(_) => {} case Read(_, s1) => MapLengths(s1)
  }

  lemma HeadHaltsIff(s: bytes, memory: nat)
    ensures GetHead(s, memory) == Fail(Halted) <==> !AllAtMost(HeadLengths(s), memory)
    ensures AllAtMost(HeadLengths(s), memory) ==> GetHead(s, memory) == GetHead(s, UNLIMITED)
    ensures GetHead(s, UNLIMITED) != Fail(Halted)
  {
    hide GetString; hide Declared; hide NewMatch;
    if |s| >= 8 {
      assert s[2..][1..][1..][4..] == s[8..];
      StringHaltsIff(s[8..], memory);
      var p := GetString(s[8..], UNLIMITED);
      if p.Read? { StringHaltsIff(p.rest, memory); }
    }
  }

  lemma MapHaltsIff(m: Match, s: bytes, memory: nat)
    ensures GetMap(m, s, memory) == Fail(Halted) <==> !AllAtMost(MapLengths(s), memory)
    ensures AllAtMost(MapLengths(s), memory) ==> GetMap(m, s, memory) == GetMap(m, s, UNLIMITED)
    ensures GetMap(m, s, UNLIMITED) != Fail(Halted)
  {
    hide GetString; hide Declared;
    StringHaltsIff(s, memory);
    var p := GetString(s, UNLIMITED);
    if p.Read? && GetI32(p.rest).Read? { StringHaltsIff(GetI32(p.rest).rest, memory); }
  }

  lemma {:induction false} LoopsNeverHalt(slots: Slots, k: nat, s: bytes)
    requires k <= 16
    ensures GetStatuses(slots, k, s) != Fail(Halted) && GetTeams(slots, k, s) != Fail(Halted)
    ensures GetMods(slots, k, s) != Fail(Halted)
    decreases 16 - k
  {
    hide GetU32;
    NumbersNeverHalt(s);
    if k < 16 && s != [] {
      LoopsNeverHalt(slots[k := slots[k].(status := s[0])], k + 1, s[1..]);
      LoopsNeverHalt(slots[k := slots[k].(team := s[0])], k + 1, s[1..]);
    }
    if k < 16 && GetU32(s).Read? {
      LoopsNeverHalt(slots[k := slots[k].(mods := GetU32(s).value)], k + 1, GetU32(s).rest);
    }
  }

  lemma {:induction false} UsersNeverHalt(slots: Slots, k: nat, s: bytes)
    requires k <= 16
    ensures GetUsers(slots, k, s) != Fail(Halted)
    decreases 16 - k
  {
    hide GetI32;
    NumbersNeverHalt(s);
    if k < 16 && HasPlayer(slots[k].status) && GetI32(s).Read? {
      UsersNeverHalt(slots[k := slots[k].(user := GetI32(s).value)], k + 1, GetI32(s).rest);
    } else if k < 16 && !HasPlayer(slots[k].status) {
      UsersNeverHalt(slots[k := slots[k].(user := -1)], k + 1, s);
    }
  }

  lemma NumbersNeverHalt(s: bytes)
    ensures GetU32(s) != Fail(Halted) && GetI32(s) != Fail(Halted)
  {
  }

  lemma SlotsNeverHalt(slots: Slots, s: bytes)
    ensures GetSlots(slots, s) != Fail(Halted)
  {
    hide GetStatuses; hide GetTeams; hide GetUsers;
    LoopsNeverHalt(slots, 0, s);
    var p := GetStatuses(slots, 0, s);
    if p.Read? {
      LoopsNeverHalt(p.value, 0, p.rest);
      var q := GetTeams(p.value, 0, p.rest);
      if q.Read? { UsersNeverHalt(q.value, 0, q.rest); }
    }
  }

  lemma TailNeverHalts(m: Match, s: bytes)
    ensures GetTail(m, s) != Fail(Halted)
  {
    hide GetMods; hide GetU32; hide GetI32;
    NumbersNeverHalt(s);
    var p := GetSettings(m, s);
    if p.Read? {
      LoopsNeverHalt(p.value.slots, 0, p.rest);
      NumbersNeverHalt(p.rest);
      var q := GetMods(p.value.slots, 0, p.rest);
      if q.Read? { NumbersNeverHalt(q.rest); }
    }
  }

  // Reading a room halts exactly when one of the lengths it declares is refused, and is otherwise the same
  // for every memory.
  lemma MatchHaltsIff(s: bytes, memory: nat)
    ensures GetMatch(s, memory) == Fail(Halted) <==> !AllAtMost(MatchLengths(s), memory)
    ensures AllAtMost(MatchLengths(s), memory) ==> GetMatch(s, memory) == GetMatch(s, UNLIMITED)
    ensures GetMatch(s, UNLIMITED) != Fail(Halted)
  {
    hide GetHead; hide GetMap; hide HeadLengths; hide MapLengths; hide GetSlots; hide GetTail;
    HeadHaltsIff(s, memory);
    var p := GetHead(s, UNLIMITED);
    if p.Read? {
      MapHaltsIff(p.value, p.rest, memory);
      var q := GetMap(p.value, p.rest, UNLIMITED);
      if q.Read? {
        SlotsNeverHalt(q.value.slots, q.rest);
        var b := GetSlots(q.value.slots, q.rest);
        if b.Read? { TailNeverHalts(q.value.(slots := b.value), b.rest); }
      }
    }
  }

  // ---------- score frames ----------

  function PutHits(f: Frame): bytes {
    PutU16(f.total300) + (PutU16(f.total100) +
      (PutU16(f.total50) + (PutU16(f.totalGeki) + (PutU16(f.totalKatu) + PutU16(f.totalMiss)))))
  }

  function PutState(f: Frame): bytes {
    PutI32(f.totalScore) + (PutU16(f.maxCombo) +
      (PutU16(f.currentCombo) + (PutBool(f.perfect) + ([f.hp] + ([f.tag] + PutBool(f.scoreV2))))))
  }

  function PutPortions(f: Frame): bytes {
    if f.scoreV2 then f.comboPortion + f.bonusPortion else []
  }

  function FrameBytes(f: Frame): bytes {
    PutI32(f.time) + ([f.slotId] + (PutHits(f) + (PutState(f) + PutPortions(f))))
  }

  const NO_FRAME := Frame(0, 0, 0, 0, 0, 0, 0, 0, 0, 0, 0, false, 0, 0, false, ZERO_F64, ZERO_F64)

  function GetHits(f: Frame, s: bytes): Parse<Frame> {
    var (total300, s) :- GetU16(s);
    var (total100, s) :- GetU16(s);
    var (total50, s) :- GetU16(s);
    var (totalGeki, s) :- GetU16(s);
    var (totalKatu, s) :- GetU16(s);
    var (totalMiss, s) :- GetU16(s);
    Read(f.(total300 := total300, total100 := total100, total50 := total50, totalGeki := totalGeki,
            totalKatu := totalKatu, totalMiss := totalMiss), s)
  }

  function GetState(f: Frame, s: bytes): Parse<Frame> {
    var (totalScore, s) :- GetI32(s);
    var (maxCombo, s) :- GetU16(s);
    var (currentCombo, s) :- GetU16(s);
    var (perfect, s) :- GetBool(s);
    var (hp, s) :- GetU8(s);
    var (tag, s) :- GetU8(s);
    var (scoreV2, s) :- GetBool(s);
    Read(f.(totalScore := totalScore, maxCombo := maxCombo, currentCombo := currentCombo, perfect := perfect,
            hp := hp, tag := tag, scoreV2 := scoreV2), s)
  }

  // The portions are read only from a ScoreV2 frame with room for both.
  function GetPortions(f: Frame, s: bytes): Parse<Frame> {
    if f.scoreV2 && |s| >= 16 then
      var (combo, s) :- GetF64(s);
      var (bonus, s) :- GetF64(s);
      Read(f.(comboPortion := combo, bonusPortion := bonus), s)
    else Read(f.(comboPortion := ZERO_F64, bonusPortion := ZERO_F64), s)
  }

  function GetFrame(s: bytes): Parse<Frame> {
    var (time, s) :- GetI32(s);
    var (slotId, s) :- GetU8(s);
    GetFrameRest(NO_FRAME.(time := time, slotId := slotId), s)
  }

  function GetFrameRest(f: Frame, s: bytes): Parse<Frame> {
    var (f, s) :- GetHits(f, s);
    var (f, s) :- GetState(f, s);
    GetPortions(f, s)
  }

  function WithoutUnsentPortions(f: Frame): Frame {
    if f.scoreV2 then f else f.(comboPortion := ZERO_F64, bonusPortion := ZERO_F64)
  }

  lemma HitsRoundTrip(f0: Frame, f: Frame, r: bytes)
    ensures GetHits(f0, PutHits(f) + r) ==
      Read(f0.(total300 := f.total300, total100 := f.total100, total50 := f.total50, totalGeki := f.totalGeki,
               totalKatu := f.totalKatu, totalMiss := f.totalMiss), r)
  {
    hide PutU16; hide GetU16;
    var r5 := PutU16(f.totalMiss) + r;
    var r4 := PutU16(f.totalKatu) + r5;
    var r3 := PutU16(f.totalGeki) + r4;
    var r2 := PutU16(f.total50) + r3;
    var r1 := PutU16(f.total100) + r2;
    assert PutHits(f) + r == PutU16(f.total300) + r1;
    U16RoundTrip(f.total300, r1);
    U16RoundTrip(f.total100, r2);
    U16RoundTrip(f.total50, r3);
    U16RoundTrip(f.totalGeki, r4);
    U16RoundTrip(f.totalKatu, r5);
    U16RoundTrip(f.totalMiss, r);
  }

  lemma StateRoundTrip(f0: Frame, f: Frame, r: bytes)
    ensures GetState(f0, PutState(f) + r) ==
      Read(f0.(totalScore := f.totalScore, maxCombo := f.maxCombo, currentCombo := f.currentCombo, perfect := f.perfect,
               hp := f.hp, tag := f.tag, scoreV2 := f.scoreV2), r)
  {
    hide PutU16; hide GetU16; hide PutI32; hide GetI32; hide PutBool; hide GetBool; hide GetU8;
    var r6 := PutBool(f.scoreV2) + r;
    var r5 := [f.tag] + r6;
    var r4 := [f.hp] + r5;
    var r3 := PutBool(f.perfect) + r4;
    var r2 := PutU16(f.currentCombo) + r3;
    var r1 := PutU16(f.maxCombo) + r2;
    assert PutState(f) + r == PutI32(f.totalScore) + r1;
    I32RoundTrip(f.totalScore, r1);
    U16RoundTrip(f.maxCombo, r2);
    U16RoundTrip(f.currentCombo, r3);
    BoolRoundTrip(f.perfect, r4);
    U8RoundTrip(f.hp, r5);
    U8RoundTrip(f.tag, r6);
    BoolRoundTrip(f.scoreV2, r);
  }

  lemma PortionsRoundTrip(f0: Frame, f: Frame, r: bytes)
    requires f0.scoreV2 == f.scoreV2
    ensures GetPortions(f0, PutPortions(f) + r) ==
      Read(f0.(comboPortion := WithoutUnsentPortions(f).comboPortion,
        bonusPortion := WithoutUnsentPortions(f).bonusPortion), r)
  {
    if f.scoreV2 {
      assert PutPortions(f) + r == f.comboPortion + (f.bonusPortion + r);
      BytesRoundTrip(f.comboPortion, f.bonusPortion + r);
      BytesRoundTrip(f.bonusPortion, r);
    } else {
      assert [] + r == r;
    }
  }

  // A built frame parses back, except that portions outside ScoreV2 are not sent.
  lemma FrameParses(f: Frame, r: bytes)
    ensures GetFrame(FrameBytes(f) + r) == Read(WithoutUnsentPortions(f), r)
  {
    hide PutHits; hide GetHits; hide PutState; hide GetState; hide PutPortions; hide GetPortions;
    hide PutI32; hide GetI32; hide GetU8;
    var r4 := PutPortions(f) + r;
    var r3 := PutState(f) + r4;
    var r2 := PutHits(f) + r3;
    var r1 := [f.slotId] + r2;
    assert FrameBytes(f) + r == PutI32(f.time) + r1;
    I32RoundTrip(f.time, r1);
    U8RoundTrip(f.slotId, r2);
    var f1 := NO_FRAME.(time := f.time, slotId := f.slotId);
    HitsRoundTrip(f1, f, r3);
    var f2 := GetHits(f1, r2).value;
    StateRoundTrip(f2, f, r4);
    PortionsRoundTrip(GetState(f2, r3).value, f, r);
  }

  lemma FrameRoundTrip(f: Frame, r: bytes)
    ensures GetFrame(FrameBytes(f) + r) == Read(f, r) <==>
      (f.scoreV2 || (f.comboPortion == ZERO_F64 && f.bonusPortion == ZERO_F64))
  {
    hide GetFrame; hide FrameBytes;
    FrameParses(f, r);
  }

  lemma RestIgnoresSlotId(f: Frame, s: bytes, slot: u8)
    ensures match GetFrameRest(f, s)
      case Read(g, rest) => GetFrameRest(f.(slotId := slot), s) == Read(g.(slotId := slot), rest) &&
        g.slotId == f.slotId
      case Fail(e) => GetFrameRest(f.(slotId := slot), s) == Fail(e)
  {
    hide GetU16; hide GetI32; hide GetBool; hide GetU8; hide GetF64;
  }

  // Replacing byte 4 replaces the slot id of a frame and nothing else, whatever trails the frame.
  lemma RelayedFrame(payload: bytes, slot: u8)
    requires GetFrame(payload).Read?
    ensures |payload| > 4
    ensures GetFrame(payload[4 := slot]) == Read(GetFrame(payload).value.(slotId := slot), GetFrame(payload).rest)
  {
    hide GetFrameRest;
    var relayed := payload[4 := slot];
    assert payload[..4] == relayed[..4];
    assert payload[4..][1..] == payload[5..] && relayed[4..][1..] == payload[5..];
    RestIgnoresSlotId(NO_FRAME.(time := GetI32(payload).value, slotId := payload[4]), payload[5..], slot);
  }
}
