/** Words, byte-addressed memory, and the part of an RV32 hart that src/boot.s
    uses. Rules for the interrupt-enable bits are those of sections 3.1.6.1 and
    3.3.2 of the RISC-V Privileged Architecture, version 20211203. */
module Machine {
  datatype Option<+T> = None | Some(value: T)

  type Word = w: int | 0 <= w < 0x1_0000_0000
  type Byte = b: int | 0 <= b < 0x100

  /** 32-bit addition, wrapping. */
  function Plus(w: Word, n: int): Word {
    (w + n) % 0x1_0000_0000
  }

  // ---------------------------------------------------------------- memory

  /** Bytes that were never written read as zero. */
  type Memory = map<int, Byte>

  function ByteAt(m: Memory, a: int): Byte {
    if a in m then m[a] else 0
  }

  /** Little-endian word store. */
  function StoreWord(m: Memory, a: int, w: Word): Memory {
    m[a := w % 0x100][a + 1 := w / 0x100 % 0x100][a + 2 := w / 0x1_0000 % 0x100][a + 3 := w / 0x100_0000]
  }

  function LoadWord(m: Memory, a: int): Word {
    ByteAt(m, a) + 0x100 * ByteAt(m, a + 1) + 0x1_0000 * ByteAt(m, a + 2) + 0x100_0000 * ByteAt(m, a + 3)
  }

  /** Every byte outside [lo, hi) reads the same in both memories. */
  ghost predicate OnlyWithin(m: Memory, m': Memory, lo: int, hi: int) {
    forall a {:trigger ByteAt(m', a)} :: a < lo || hi <= a ==> ByteAt(m', a) == ByteAt(m, a)
  }

  lemma Recompose(w: Word)
    ensures w % 0x100 + 0x100 * (w / 0x100 % 0x100) + 0x1_0000 * (w / 0x1_0000 % 0x100) + 0x100_0000 * (w / 0x100_0000) == w
  {
  }

  lemma StoredBytes(m: Memory, a: int, w: Word)
    ensures var m' := StoreWord(m, a, w);
            && ByteAt(m', a) == w % 0x100 && ByteAt(m', a + 1) == w / 0x100 % 0x100
            && ByteAt(m', a + 2) == w / 0x1_0000 % 0x100 && ByteAt(m', a + 3) == w / 0x100_0000
            && OnlyWithin(m, m', a, a + 4)
  {
  }

  lemma StoreThenLoad(m: Memory, a: int, w: Word)
    ensures LoadWord(StoreWord(m, a, w), a) == w
    ensures OnlyWithin(m, StoreWord(m, a, w), a, a + 4)
  {
    StoredBytes(m, a, w);
    Recompose(w);
  }

  lemma LoadOutside(m: Memory, m': Memory, lo: int, hi: int, a: int)
    requires OnlyWithin(m, m', lo, hi)
    requires a + 4 <= lo || hi <= a
    ensures LoadWord(m', a) == LoadWord(m, a)
  {
  }

  // ------------------------------------------------------------- registers

  type Reg = r: int | 0 <= r < 32
  type Regs = x: seq<Word> | |x| == 32 witness seq(32, _ => 0)

  const RA: Reg := 1
  const SP: Reg := 2
  const T0: Reg := 5
  const T1: Reg := 6
  const T2: Reg := 7
  const S0: Reg := 8
  const S1: Reg := 9
  const A0: Reg := 10
  const A1: Reg := 11
  const A2: Reg := 12
  const A3: Reg := 13
  const A4: Reg := 14
  const A5: Reg := 15
  const A6: Reg := 16
  const A7: Reg := 17
  const S2: Reg := 18
  const S3: Reg := 19
  const S4: Reg := 20
  const S5: Reg := 21
  const S6: Reg := 22
  const S7: Reg := 23
  const S8: Reg := 24
  const S9: Reg := 25
  const S10: Reg := 26
  const S11: Reg := 27
  const T3: Reg := 28
  const T4: Reg := 29
  const T5: Reg := 30
  const T6: Reg := 31

  /** x0 is hard-wired, gp and tp are set once at boot and shared by all tasks;
      everything else belongs to the running task. */
  predicate Private(r: int) {
    r == RA || r == SP || 5 <= r < 32
  }

  function SetReg(x: Regs, r: Reg, w: Word): Regs {
    if r == 0 then x else x[r := w]
  }

  datatype Cpu = Cpu(x: Regs, pc: Word, mepc: Word, mie: bool, mpie: bool)
  datatype Core = Core(cpu: Cpu, mem: Memory)

  // ---------------------------------------------------------- instructions

  datatype Instr =
    | Addi(rd: Reg, rs: Reg, imm: int)
    | Mv(rd: Reg, rs: Reg)
    | Sw(src: Reg, off: int, base: Reg)
    | Lw(rd: Reg, off: int, base: Reg)
    | CsrrMepc(rd: Reg)
    | CsrwMepc(rs: Reg)
    | Mret

  function Execute(c: Core, i: Instr): Core {
    var u := c.cpu;
    match i
    case Addi(rd, rs, imm) => c.(cpu := u.(x := SetReg(u.x, rd, Plus(u.x[rs], imm))))
    case Mv(rd, rs) => c.(cpu := u.(x := SetReg(u.x, rd, u.x[rs])))
    case Sw(src, off, base) => c.(mem := StoreWord(c.mem, Plus(u.x[base], off), u.x[src]))
    case Lw(rd, off, base) => c.(cpu := u.(x := SetReg(u.x, rd, LoadWord(c.mem, Plus(u.x[base], off)))))
    case CsrrMepc(rd) => c.(cpu := u.(x := SetReg(u.x, rd, u.mepc)))
    case CsrwMepc(rs) => c.(cpu := u.(mepc := u.x[rs]))
    case Mret => c.(cpu := u.(pc := u.mepc, mie := u.mpie, mpie := true))
  }

  function Exec(c: Core, code: seq<Instr>): Core
    decreases |code|
  {
    if code == [] then c else Exec(Execute(c, code[0]), code[1..])
  }

  lemma {:induction false} ExecAppend(c: Core, a: seq<Instr>, b: seq<Instr>)
    ensures Exec(c, a + b) == Exec(Exec(c, a), b)
    decreases |a|
  {
    if a == [] {
      assert a + b == b;
    } else {
      assert (a + b)[1..] == a[1..] + b;
      ExecAppend(Execute(c, a[0]), a[1..], b);
    }
  }

  /** What the hart does on its own when it takes a trap. */
  function TakeTrap(u: Cpu): Cpu {
    u.(mepc := u.pc, mpie := u.mie, mie := false)
  }

  // -------------------------------------------------- src/boot.s, as listed

  // The store and load blocks are cut where the frame's rows are.
  const SAVE_A: seq<Instr> := [
    Sw(RA, 0, SP), Sw(T0, 4, SP), Sw(T1, 8, SP), Sw(T2, 12, SP),
    Sw(A0, 16, SP), Sw(A1, 20, SP), Sw(A2, 24, SP), Sw(A3, 28, SP)
  ]
  const SAVE_B: seq<Instr> := [
    Sw(A4, 32, SP), Sw(A5, 36, SP), Sw(A6, 40, SP), Sw(A7, 44, SP),
    Sw(T3, 48, SP), Sw(T4, 52, SP), Sw(T5, 56, SP), Sw(T6, 60, SP)
  ]
  const SAVE_S: seq<Instr> := [
    Sw(S0, 64, SP), Sw(S1, 68, SP), Sw(S2, 72, SP), Sw(S3, 76, SP),
    Sw(S4, 80, SP), Sw(S5, 84, SP), Sw(S6, 88, SP), Sw(S7, 92, SP),
    Sw(S8, 96, SP), Sw(S9, 100, SP), Sw(S10, 104, SP), Sw(S11, 108, SP)
  ]
  const LOAD_A: seq<Instr> := [
    Lw(RA, 0, SP), Lw(T0, 4, SP), Lw(T1, 8, SP), Lw(T2, 12, SP),
    Lw(A0, 16, SP), Lw(A1, 20, SP), Lw(A2, 24, SP), Lw(A3, 28, SP)
  ]
  const LOAD_B: seq<Instr> := [
    Lw(A4, 32, SP), Lw(A5, 36, SP), Lw(A6, 40, SP), Lw(A7, 44, SP),
    Lw(T3, 48, SP), Lw(T4, 52, SP), Lw(T5, 56, SP), Lw(T6, 60, SP)
  ]
  const LOAD_S: seq<Instr> := [
    Lw(S0, 64, SP), Lw(S1, 68, SP), Lw(S2, 72, SP), Lw(S3, 76, SP),
    Lw(S4, 80, SP), Lw(S5, 84, SP), Lw(S6, 88, SP), Lw(S7, 92, SP),
    Lw(S8, 96, SP), Lw(S9, 100, SP), Lw(S10, 104, SP), Lw(S11, 108, SP)
  ]

  const ENTRY_HEAD: seq<Instr> := [Addi(SP, SP, -128)]
  const ENTRY_TAIL: seq<Instr> := [CsrrMepc(T0), Sw(T0, 112, SP), Mv(A0, SP)]
  const EXIT_HEAD: seq<Instr> := [Mv(SP, A0), Lw(T0, 112, SP), CsrwMepc(T0)]
  const EXIT_TAIL: seq<Instr> := [Addi(SP, SP, 128), Mret]

  /** From the entry of the trap handler up to the call of the Rust handler. */
  const TRAP_ENTRY: seq<Instr> := ENTRY_HEAD + (SAVE_A + SAVE_B + SAVE_S) + ENTRY_TAIL

  /** From the return of the Rust handler to the end. */
  const TRAP_EXIT: seq<Instr> := EXIT_HEAD + (LOAD_A + LOAD_B + LOAD_S) + EXIT_TAIL

  /** The register held by word k of a frame: the field order of the TrapFrame
      struct of src/arch/sched.rs. */
  function RegAt(k: nat): Reg
    requires k < 28
  {
    if k == 0 then 1
    else if k < 4 then k + 4
    else if k < 12 then k + 6
    else if k < 16 then k + 16
    else if k < 18 then k - 8
    else k
  }

  /** Inverse of RegAt. */
  function SlotOf(r: Reg): (k: nat)
    requires Private(r) && r != SP
    ensures k < 28 && RegAt(k) == r
  {
    if r == 1 then 0
    else if r < 8 then r - 4
    else if r < 10 then r + 8
    else if r < 18 then r - 6
    else if r < 28 then r
    else r - 16
  }

  /** The frame at address b holds the 28 registers and the pc given. */
  ghost predicate FrameHolds(m: Memory, b: int, x: Regs, pc: Word) {
    && (forall r: Reg {:trigger x[r]} :: Private(r) && r != SP ==> LoadWord(m, b + 4 * SlotOf(r)) == x[r])
    && LoadWord(m, b + 112) == pc
  }

  // ------------------------------------------------ correctness of the code

  function Stores(k: nat): (code: seq<Instr>)
    requires k <= 28
    ensures |code| == 28 - k
  {
    seq(28 - k, i requires 0 <= i < 28 - k => Sw(RegAt(k + i), 4 * (k + i), SP))
  }

  function Loads(k: nat): (code: seq<Instr>)
    requires k <= 28
    ensures |code| == 28 - k
  {
    seq(28 - k, i requires 0 <= i < 28 - k => Lw(RegAt(k + i), 4 * (k + i), SP))
  }

  lemma EntryShape()
    ensures TRAP_ENTRY == ENTRY_HEAD + Stores(0) + ENTRY_TAIL
  {
    var code := SAVE_A + SAVE_B + SAVE_S;
    forall k: nat | k < 28 ensures code[k] == Stores(0)[k] {
      assert code[k] == Sw(RegAt(k), 4 * k, SP);
    }
  }

  lemma ExitShape()
    ensures TRAP_EXIT == EXIT_HEAD + Loads(0) + EXIT_TAIL
  {
    var code := LOAD_A + LOAD_B + LOAD_S;
    forall k: nat | k < 28 ensures code[k] == Loads(0)[k] {
      assert code[k] == Lw(RegAt(k), 4 * k, SP);
    }
  }

  /** Words k..27 of the frame at b hold their registers. */
  ghost predicate Saved(m: Memory, b: int, k: nat, x: Regs) {
    forall i: nat {:trigger RegAt(i)} :: k <= i < 28 ==> LoadWord(m, b + 4 * i) == x[RegAt(i)]
  }

  lemma SwEffect(c: Core, r: Reg, off: int, b: int)
    requires c.cpu.x[SP] == b && 0 <= off < 128 && b < 0x1_0000_0000 - 128
    ensures Execute(c, Sw(r, off, SP)) == c.(mem := StoreWord(c.mem, b + off, c.cpu.x[r]))
  {
    assert Plus(b, off) == b + off;
  }

  lemma OneStore(c: Core, b: int, k: nat) returns (c': Core)
    requires k < 28
    requires c.cpu.x[SP] == b < 0x1_0000_0000 - 128
    ensures c' == Execute(c, Stores(k)[0]) && c'.cpu == c.cpu
    ensures LoadWord(c'.mem, b + 4 * k) == c.cpu.x[RegAt(k)]
    ensures OnlyWithin(c.mem, c'.mem, b + 4 * k, b + 4 * (k + 1))
  {
    SwEffect(c, RegAt(k), 4 * k, b);
    StoreThenLoad(c.mem, b + 4 * k, c.cpu.x[RegAt(k)]);
    c' := c.(mem := StoreWord(c.mem, b + 4 * k, c.cpu.x[RegAt(k)]));
  }

  lemma SavedMore(m: Memory, m1: Memory, m2: Memory, b: int, k: nat, x: Regs)
    requires k < 28
    requires LoadWord(m1, b + 4 * k) == x[RegAt(k)]
    requires OnlyWithin(m, m1, b + 4 * k, b + 4 * (k + 1))
    requires Saved(m2, b, k + 1, x) && OnlyWithin(m1, m2, b + 4 * (k + 1), b + 112)
    ensures Saved(m2, b, k, x) && OnlyWithin(m, m2, b + 4 * k, b + 112)
  {
    LoadOutside(m1, m2, b + 4 * (k + 1), b + 112, b + 4 * k);
  }

  lemma {:induction false} ExecStores(c: Core, b: int, k: nat) returns (c': Core)
    requires k <= 28
    requires c.cpu.x[SP] == b < 0x1_0000_0000 - 128
    ensures c' == Exec(c, Stores(k)) && c'.cpu == c.cpu
    ensures Saved(c'.mem, b, k, c.cpu.x)
    ensures OnlyWithin(c.mem, c'.mem, b + 4 * k, b + 112)
    decreases 28 - k
  {
    if k == 28 {
      c' := c;
    } else {
      var c1 := OneStore(c, b, k);
      c' := ExecStores(c1, b, k + 1);
      SavedMore(c.mem, c1.mem, c'.mem, b, k, c.cpu.x);
      assert Stores(k)[1..] == Stores(k + 1);
    }
  }

  /** Registers from word k on come from the frame at b, the rest from x. */
  ghost predicate Loaded(m: Memory, b: int, k: nat, x: Regs, x': Regs) {
    forall r: Reg {:trigger x'[r]} :: Private(r) && r != SP ==>
      x'[r] == if k <= SlotOf(r) then LoadWord(m, b + 4 * SlotOf(r)) else x[r]
  }

  lemma LoadedMore(m: Memory, b: int, k: nat, x: Regs, x1: Regs, x': Regs)
    requires k < 28
    requires x1 == x[RegAt(k) := LoadWord(m, b + 4 * k)]
    requires Loaded(m, b, k + 1, x1, x')
    ensures Loaded(m, b, k, x, x')
  {
    assert SlotOf(RegAt(k)) == k;
  }

  lemma {:induction false} ExecLoads(c: Core, b: int, k: nat) returns (c': Core)
    requires k <= 28
    requires c.cpu.x[SP] == b < 0x1_0000_0000 - 128
    ensures c' == Exec(c, Loads(k)) && c' == c.(cpu := c.cpu.(x := c'.cpu.x))
    ensures c'.cpu.x[SP] == b && Loaded(c.mem, b, k, c.cpu.x, c'.cpu.x)
    decreases 28 - k
  {
    if k == 28 {
      c' := c;
    } else {
      var c1 := Execute(c, Loads(k)[0]);
      assert c1 == c.(cpu := c.cpu.(x := c.cpu.x[RegAt(k) := LoadWord(c.mem, b + 4 * k)]));
      c' := ExecLoads(c1, b, k + 1);
      LoadedMore(c.mem, b, k, c.cpu.x, c1.cpu.x, c'.cpu.x);
      assert Loads(k)[1..] == Loads(k + 1);
    }
  }

  lemma Exec2(c: Core, i: Instr, j: Instr)
    ensures Exec(c, [i, j]) == Execute(Execute(c, i), j)
  {
    assert [i, j][1..] == [j] && [j][1..] == [];
    assert Exec(Execute(c, i), [j]) == Execute(Execute(c, i), j);
  }

  lemma Exec3(c: Core, i: Instr, j: Instr, k: Instr)
    ensures Exec(c, [i, j, k]) == Execute(Execute(Execute(c, i), j), k)
  {
    assert [i, j, k][1..] == [j, k];
    Exec2(Execute(c, i), j, k);
  }

  /** The last store of the entry code completes the frame of the task whose sp
      was b + 128 when it was interrupted. */
  lemma FrameDone(m0: Memory, m: Memory, m': Memory, b: Word, x: Regs, pc: Word)
    requires OnlyWithin(m0, m, b, b as int + 112) && Saved(m, b, 0, x[SP := b])
    requires m' == StoreWord(m, b as int + 112, pc)
    ensures FrameHolds(m', b, x, pc) && OnlyWithin(m0, m', b, b as int + 128)
  {
    StoreThenLoad(m, b as int + 112, pc);
    forall r: Reg | Private(r) && r != SP
      ensures LoadWord(m', b + 4 * SlotOf(r)) == x[r]
    {
      LoadOutside(m, m', b as int + 112, b as int + 116, b as int + 4 * SlotOf(r));
      assert RegAt(SlotOf(r)) == r;
    }
  }

  lemma ExecBlocks(c: Core, a: seq<Instr>, b: seq<Instr>, d: seq<Instr>)
    ensures Exec(c, a + b + d) == Exec(Exec(Exec(c, a), b), d)
  {
    ExecAppend(c, a + b, d);
    ExecAppend(c, a, b);
  }

  lemma EntryHead(c: Core)
    requires 128 <= c.cpu.x[SP]
    ensures Exec(c, ENTRY_HEAD) == c.(cpu := c.cpu.(x := c.cpu.x[SP := c.cpu.x[SP] - 128]))
  {
    assert ENTRY_HEAD[1..] == [];
    assert Exec(c, ENTRY_HEAD) == Execute(c, ENTRY_HEAD[0]);
  }

  lemma EntryTail(c: Core, b: int)
    requires c.cpu.x[SP] == b < 0x1_0000_0000 - 128
    ensures var c' := Exec(c, ENTRY_TAIL);
            && c'.mem == StoreWord(c.mem, b + 112, c.cpu.mepc)
            && c'.cpu.x[A0] == b && c'.cpu.mie == c.cpu.mie && c'.cpu.mpie == c.cpu.mpie
  {
    Exec3(c, ENTRY_TAIL[0], ENTRY_TAIL[1], ENTRY_TAIL[2]);
  }

  lemma ExitHead(c: Core, b: int, pc: Word)
    requires c.cpu.x[A0] == b < 0x1_0000_0000 - 128
    requires LoadWord(c.mem, b + 112) == pc
    ensures Exec(c, EXIT_HEAD) == c.(cpu := c.cpu.(x := c.cpu.x[SP := b][T0 := pc], mepc := pc))
  {
    Exec3(c, EXIT_HEAD[0], EXIT_HEAD[1], EXIT_HEAD[2]);
  }

  lemma ExitTail(c: Core, b: int)
    requires c.cpu.x[SP] == b < 0x1_0000_0000 - 128
    ensures Exec(c, EXIT_TAIL)
         == c.(cpu := c.cpu.(x := c.cpu.x[SP := b + 128], pc := c.cpu.mepc, mie := c.cpu.mpie, mpie := true))
  {
    Exec2(c, EXIT_TAIL[0], EXIT_TAIL[1]);
  }

  lemma EntryRun(u: Cpu, m: Memory, b: Word) returns (c: Core)
    requires u.x[SP] as int == b + 128
    ensures c == Exec(Exec(Exec(Core(u, m), ENTRY_HEAD), Stores(0)), ENTRY_TAIL)
    ensures FrameHolds(c.mem, b, u.x, u.mepc) && OnlyWithin(m, c.mem, b, b as int + 128)
    ensures c.cpu.x[A0] == b && c.cpu.mie == u.mie && c.cpu.mpie == u.mpie
  {
    EntryHead(Core(u, m));
    var c1 := Exec(Core(u, m), ENTRY_HEAD);
    var c2 := ExecStores(c1, b, 0);
    EntryTail(c2, b);
    c := Exec(c2, ENTRY_TAIL);
    FrameDone(m, c2.mem, c.mem, b, u.x, u.mepc);
  }

  /** Trap entry parks the running task: its registers and interrupted pc are in
      the 128 bytes below its sp, and nothing else in memory changed. */
  lemma EntrySaves(u: Cpu, m: Memory, b: Word)
    requires u.x[SP] as int == b + 128
    ensures var c := Exec(Core(TakeTrap(u), m), TRAP_ENTRY);
            && FrameHolds(c.mem, b, u.x, u.pc)
            && OnlyWithin(m, c.mem, b, b as int + 128)
            && c.cpu.x[A0] == b && !c.cpu.mie && c.cpu.mpie == u.mie
  {
    var c := EntryRun(TakeTrap(u), m, b);
    EntryShape();
    ExecBlocks(Core(TakeTrap(u), m), ENTRY_HEAD, Stores(0), ENTRY_TAIL);
  }

  lemma ExitRun(u: Cpu, m: Memory, b: Word, x: Regs, pc: Word) returns (c: Core)
    requires u.x[A0] == b < 0x1_0000_0000 - 128
    requires FrameHolds(m, b, x, pc)
    ensures c == Exec(Exec(Exec(Core(u, m), EXIT_HEAD), Loads(0)), EXIT_TAIL)
    ensures c.mem == m && c.cpu.x[SP] as int == b + 128 && c.cpu.pc == pc
    ensures forall r: Reg :: Private(r) && r != SP ==> c.cpu.x[r] == x[r]
    ensures c.cpu.mie == u.mpie && c.cpu.mpie
  {
    ExitHead(Core(u, m), b, pc);
    var c1 := Exec(Core(u, m), EXIT_HEAD);
    var c2 := ExecLoads(c1, b, 0);
    ExitTail(c2, b);
    c := Exec(c2, EXIT_TAIL);
  }

  /** Trap exit resumes whatever task the frame at a0 belongs to. */
  lemma ExitRestores(u: Cpu, m: Memory, b: Word, x: Regs, pc: Word)
    requires u.x[A0] == b < 0x1_0000_0000 - 128
    requires FrameHolds(m, b, x, pc)
    ensures var c := Exec(Core(u, m), TRAP_EXIT);
            && c.mem == m && c.cpu.x[SP] as int == b + 128 && c.cpu.pc == pc
            && (forall r: Reg :: Private(r) && r != SP ==> c.cpu.x[r] == x[r])
            && c.cpu.mie == u.mpie && c.cpu.mpie
  {
    var c := ExitRun(u, m, b, x, pc);
    ExitShape();
    ExecBlocks(Core(u, m), EXIT_HEAD, Loads(0), EXIT_TAIL);
  }
}
