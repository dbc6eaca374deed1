/** Entities shared by the wire codec and the server state: fixed-width integers,
    text, rooms, slots and score frames. */
module BanchoTypes {
  import opened Wrappers

  type u8 = x: int | 0 <= x < 0x100
  type u16 = x: int | 0 <= x < 0x1_0000
  type u32 = x: int | 0 <= x < 0x1_0000_0000
  type u64 = x: int | 0 <= x < 0x1_0000_0000_0000_0000
  type i32 = x: int | -0x8000_0000 <= x < 0x8000_0000

  type bytes = seq<u8>

  // Slot status bits (src/protocol/constants.rs:149-157).
  const SLOT_OPEN: u8 := 1
  const SLOT_LOCKED: u8 := 2
  const SLOT_NOT_READY: u8 := 4
  const SLOT_READY: u8 := 8
  const SLOT_NO_MAP: u8 := 16
  const SLOT_PLAYING: u8 := 32
  const SLOT_COMPLETE: u8 := 64

  // status & SLOT_HAS_PLAYER > 0, where SLOT_HAS_PLAYER is bits 2 to 6.
  predicate HasPlayer(status: u8) {
    status % 128 >= 4
  }

  // status & (SLOT_READY | SLOT_NOT_READY) > 0, bits 2 and 3.
  predicate Waiting(status: u8) {
    status % 16 >= 4
  }

  const TEAM_NEUTRAL: u8 := 0
  const TEAM_BLUE: u8 := 1
  const TEAM_RED: u8 := 2
  const TEAM_TYPE_TEAM_VS: u8 := 2

  datatype Slot = Slot(status: u8, team: u8, user: i32, mods: u32)

  const EMPTY_SLOT := Slot(SLOT_OPEN, TEAM_NEUTRAL, -1, 0)

  type Slots = s: seq<Slot> | |s| == 16 witness seq(16, _ => Slot(1, 0, -1, 0))

  // Sixteen default slots.
  function NoSlots(): Slots {
    seq(16, _ => EMPTY_SLOT)
  }

  datatype Match = Match(
    id: u16,
    inProgress: bool,
    matchType: u8,
    activeMods: u32,
    name: bytes,
    password: Option<bytes>,
    beatmapName: bytes,
    beatmapId: i32,
    beatmapMd5: bytes,
    slots: Slots,
    host: i32,
    playMode: u8,
    scoringType: u8,
    teamType: u8,
    freemod: bool,
    seed: u32)

  // The eight bytes of an f64, never interpreted.
  type F64 = b: bytes | |b| == 8 witness [0, 0, 0, 0, 0, 0, 0, 0]
  const ZERO_F64: F64 := [0, 0, 0, 0, 0, 0, 0, 0]

  datatype Frame = Frame(
    time: i32,
    slotId: u8,
    total300: u16,
    total100: u16,
    total50: u16,
    totalGeki: u16,
    totalKatu: u16,
    totalMiss: u16,
    totalScore: i32,
    maxCombo: u16,
    currentCombo: u16,
    perfect: bool,
    hp: u8,
    tag: u8,
    scoreV2: bool,
    comboPortion: F64,
    bonusPortion: F64)
}
