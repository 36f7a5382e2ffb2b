/** Where the stacks are, and the frame and canary that spawn() writes. */
module Stacks {
  import opened Machine
  import opened Eco

  const STACK_SIZE := 2048
  const FRAME_SIZE := 128
  const STACK_CANARY: Word := 0xC0FFEE54

  /** Link-time addresses: STACKS, main's stack, task_exited; and whether the
      scheduler was requested at boot. STACKS may start at any address. */
  datatype Config = Config(base: int, mainLo: int, mainHi: int, taskExited: Word, enabled: bool) {
    ghost predicate Valid() {
      && 0 <= base && base + (MAX_TASKS - 1) * STACK_SIZE < 0x1_0000_0000
      && 0 <= mainLo <= mainHi < 0x1_0000_0000
      && (mainHi <= base || base + (MAX_TASKS - 1) * STACK_SIZE <= mainLo)
    }
  }

  function Bottom(cfg: Config, i: nat): int {
    if i == 0 then cfg.mainLo else cfg.base + (i - 1) * STACK_SIZE
  }

  function Top(cfg: Config, i: nat): int {
    if i == 0 then cfg.mainHi else cfg.base + i * STACK_SIZE
  }

  /** Lowest address task i may write: the canary word is not its own. */
  function Floor(cfg: Config, i: nat): int {
    if i == 0 then cfg.mainLo else Bottom(cfg, i) + 4
  }

  /** Address of the frame spawn() seeds: the masked stack top minus the frame. */
  function FrameBase(cfg: Config, i: nat): int {
    Top(cfg, i) - Top(cfg, i) % 16 - FRAME_SIZE
  }

  /** Stacks of different tasks share no byte. */
  lemma StacksApart(cfg: Config, i: nat, j: nat)
    requires cfg.Valid() && i < MAX_TASKS && j < MAX_TASKS && i != j
    ensures Top(cfg, i) <= Bottom(cfg, j) || Top(cfg, j) <= Bottom(cfg, i)
  {
  }

  /** For every base address, aligned or not: a seeded frame is 16-byte aligned,
      above the canary of its own stack, loses at most 15 bytes to the mask, and
      meets no other stack's frame or canary. */
  lemma FrameGeometry(cfg: Config, i: nat, j: nat)
    requires cfg.Valid() && 1 <= i < MAX_TASKS && 1 <= j < MAX_TASKS && i != j
    ensures FrameBase(cfg, i) % 16 == 0
    ensures Bottom(cfg, i) + 4 <= Floor(cfg, i) <= FrameBase(cfg, i)
    ensures Top(cfg, i) - 15 <= FrameBase(cfg, i) + FRAME_SIZE <= Top(cfg, i)
    ensures 0 <= FrameBase(cfg, i) < 0x1_0000_0000
    ensures FrameBase(cfg, i) + FRAME_SIZE <= Bottom(cfg, j) || Bottom(cfg, j) + STACK_SIZE <= Bottom(cfg, i)
  {
    StacksApart(cfg, i, j);
  }

  // ------------------------------------------------------------- seeding

  function ZeroBytes(m: Memory, lo: int, n: nat): Memory {
    if n == 0 then m else ZeroBytes(m, lo, n - 1)[lo + n - 1 := 0]
  }

  /** Zeroed frame at fb, return address ra, pc at the task's entry, canary at lo. */
  function SeedAt(ra: Word, m: Memory, fb: int, lo: int, entry: Word): Memory {
    StoreWord(StoreWord(StoreWord(ZeroBytes(m, fb, FRAME_SIZE), fb, ra), fb + 112, entry), lo, STACK_CANARY)
  }

  /** What spawn() writes for slot id. */
  function Seed(cfg: Config, m: Memory, id: nat, entry: Word): Memory {
    SeedAt(cfg.taskExited, m, FrameBase(cfg, id), Bottom(cfg, id), entry)
  }

  /** Registers a fresh task starts with, apart from sp. */
  function FreshRegs(cfg: Config): Regs {
    seq(32, _ => 0)[RA := cfg.taskExited]
  }

  lemma {:induction false} Zeroed(m: Memory, lo: int, n: nat)
    ensures var m' := ZeroBytes(m, lo, n);
            OnlyWithin(m, m', lo, lo + n) && forall a :: lo <= a < lo + n ==> ByteAt(m', a) == 0
  {
    if n > 0 {
      Zeroed(m, lo, n - 1);
      var m1, m' := ZeroBytes(m, lo, n - 1), ZeroBytes(m, lo, n);
      forall a ensures ByteAt(m', a) == if a == lo + n - 1 then 0 else ByteAt(m1, a) {
      }
    }
  }

  /** What the four writes of Seed leave, from what each of them changed. */
  lemma SeedWords(m: Memory, m0: Memory, m1: Memory, m2: Memory, m3: Memory, fb: int, lo: int,
                  x: Regs, ra: Word, entry: Word)
    requires lo + 4 <= fb
    requires OnlyWithin(m, m0, fb, fb + 128) && forall a :: fb <= a < fb + 128 ==> ByteAt(m0, a) == 0
    requires OnlyWithin(m0, m1, fb, fb + 4) && LoadWord(m1, fb) == ra
    requires OnlyWithin(m1, m2, fb + 112, fb + 116) && LoadWord(m2, fb + 112) == entry
    requires OnlyWithin(m2, m3, lo, lo + 4)
    requires x[RA] == ra && forall r: Reg :: r != RA ==> x[r] == 0
    ensures FrameHolds(m3, fb, x, entry) && OnlyWithin(m, m3, lo, fb + 128)
  {
    LoadOutside(m2, m3, lo, lo + 4, fb + 112);
    forall r: Reg | Private(r) && r != SP
      ensures LoadWord(m3, fb + 4 * SlotOf(r)) == x[r]
    {
      var a := fb + 4 * SlotOf(r);
      LoadOutside(m2, m3, lo, lo + 4, a);
      LoadOutside(m1, m2, fb + 112, fb + 116, a);
      if r != RA {
        assert SlotOf(r) >= 1;
        LoadOutside(m0, m1, fb, fb + 4, a);
      }
    }
  }

  lemma SeedFrameAt(ra: Word, m: Memory, fb: int, lo: int, x: Regs, entry: Word) returns (m': Memory)
    requires lo + 4 <= fb
    requires x[RA] == ra && forall r: Reg :: r != RA ==> x[r] == 0
    ensures m' == SeedAt(ra, m, fb, lo, entry)
    ensures FrameHolds(m', fb, x, entry)
    ensures LoadWord(m', lo) == STACK_CANARY
    ensures OnlyWithin(m, m', lo, fb + FRAME_SIZE)
  {
    var m0 := ZeroBytes(m, fb, FRAME_SIZE);
    var m1 := StoreWord(m0, fb, ra);
    var m2 := StoreWord(m1, fb + 112, entry);
    Zeroed(m, fb, FRAME_SIZE);
    StoreThenLoad(m0, fb, ra);
    StoreThenLoad(m1, fb + 112, entry);
    StoreThenLoad(m2, lo, STACK_CANARY);
    m' := StoreWord(m2, lo, STACK_CANARY);
    SeedWords(m, m0, m1, m2, m', fb, lo, x, ra, entry);
  }

  lemma Widen(m: Memory, m': Memory, lo: int, hi: int, lo': int, hi': int)
    requires OnlyWithin(m, m', lo, hi) && lo' <= lo && hi <= hi'
    ensures OnlyWithin(m, m', lo', hi')
  {
  }

  lemma SeedFrame(cfg: Config, m: Memory, id: nat, entry: Word) returns (m': Memory)
    requires cfg.Valid() && 1 <= id < MAX_TASKS
    ensures m' == Seed(cfg, m, id, entry)
    ensures FrameHolds(m', FrameBase(cfg, id), FreshRegs(cfg), entry)
    ensures LoadWord(m', Bottom(cfg, id)) == STACK_CANARY
    ensures OnlyWithin(m, m', Bottom(cfg, id), Top(cfg, id))
  {
    var fb, lo := FrameBase(cfg, id), Bottom(cfg, id);
    FrameGeometry(cfg, id, if id == 1 then 2 else 1);
    m' := SeedFrameAt(cfg.taskExited, m, fb, lo, FreshRegs(cfg), entry);
    Widen(m, m', lo, fb + FRAME_SIZE, lo, Top(cfg, id));
  }
}
