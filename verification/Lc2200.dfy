/** The LC-2200 simulator of cs_2200/LC-2200/Assembly/lc2200-16sim.py. */
module Lc2200 {
  import opened Basics
  import opened Binary

  /** Registers and memory hold Python integers of any size; a missing address reads as 0. */
  datatype State = State(pc: int, regs: seq<int>, mem: map<int, int>, halted: bool)

  predicate Ok(s: State)
  {
    |s.regs| == 16
  }

  /** Bit k of an integer in two's complement. */
  predicate BitOf(n: int, k: nat)
  {
    (n / Pow2(k)) % 2 == 1
  }

  function Imm5(n: int): int
  {
    if BitOf(n, 4) then n - 32 else n
  }

  function Imm16(n: int): int
  {
    if BitOf(n, 15) then n - 65536 else n
  }

  function Access(mem: map<int, int>, a: int): int
  {
    if a in mem then mem[a] else 0
  }

  /** Bitwise and of integers in two's complement. */
  function And(a: int, b: int): int
    decreases Abs(a)
  {
    if a == 0 || b == 0 then 0
    else if a == -1 then b
    else 2 * And(a / 2, b / 2) + (a % 2) * (b % 2)
  }

  function Wrap(n: int): int
  {
    if n >= 0 then n else 65536 + n
  }

  // ----- what an instruction does to the machine, once its operands are known -----

  /** Register 0 reads as 0 after every instruction. */
  function Put(s: State, pc: int, r: nat, v: int): (s': State)
    requires Ok(s) && r < 16
    ensures Ok(s')
  {
    s.(pc := pc, regs := s.regs[r := v][0 := 0])
  }

  function Goto(s: State, pc: int): (s': State)
    requires Ok(s)
    ensures Ok(s')
  {
    s.(pc := pc, regs := s.regs[0 := 0])
  }

  function DoAdd(s: State, x: nat, y: nat, z: nat): (s': State)
    requires Ok(s) && x < 16 && y < 16 && z < 16
    ensures Ok(s')
  {
    Put(s, s.pc + 1, x, Wrap(Imm16(s.regs[y]) + Imm16(s.regs[z])))
  }

  function DoNand(s: State, x: nat, y: nat, z: nat): (s': State)
    requires Ok(s) && x < 16 && y < 16 && z < 16
    ensures Ok(s')
  {
    Put(s, s.pc + 1, x, Wrap(-And(s.regs[y], s.regs[z]) - 1))
  }

  function DoAddi(s: State, x: nat, y: nat, off: int): (s': State)
    requires Ok(s) && x < 16 && y < 16
    ensures Ok(s')
  {
    Put(s, s.pc + 1, x, Wrap(s.regs[y] + off))
  }

  function DoLw(s: State, x: nat, y: nat, off: int): (s': State)
    requires Ok(s) && x < 16 && y < 16
    ensures Ok(s')
  {
    Put(s, s.pc + 1, x, Access(s.mem, s.regs[y] + off))
  }

  function DoSw(s: State, x: nat, y: nat, off: int): (s': State)
    requires Ok(s) && x < 16 && y < 16
    ensures Ok(s')
  {
    Goto(s, s.pc + 1).(mem := s.mem[s.regs[y] + off := s.regs[x]])
  }

  function DoBeq(s: State, x: nat, y: nat, target: int): (s': State)
    requires Ok(s) && x < 16 && y < 16
    ensures Ok(s')
  {
    Goto(s, if s.regs[x] == s.regs[y] then target else s.pc + 1)
  }

  /** The return address is stored before the target register is read. */
  function DoJalr(s: State, x: nat, y: nat): (s': State)
    requires Ok(s) && x < 16 && y < 16
    ensures Ok(s')
  {
    var regs := s.regs[y := s.pc + 1];
    s.(pc := regs[x], regs := regs[0 := 0])
  }

  function DoHalt(s: State): (s': State)
    requires Ok(s)
    ensures Ok(s')
  {
    Goto(s, s.pc).(halted := true)
  }

  // ----- decoding -----

  /** An instruction's opcode number, its three register fields and its signed offset. */
  datatype Fields = Fields(op: nat, x: nat, y: nat, z: nat, off: int)

  function Field(ireg: Bits, lo: nat): (r: nat)
    requires lo + 4 <= |ireg|
    ensures r < 16
  {
    ReadIsBounded(ireg[lo..lo + 4]);
    assert Pow2(4) == 16;
    Val(ireg[lo..lo + 4])
  }

  function Decode(ireg: Bits): (d: Fields)
    requires |ireg| >= 16
    ensures d.x < 16 && d.y < 16 && d.z < 16
  {
    Fields(Val(ireg[..3]), Field(ireg, 3), Field(ireg, 7), Field(ireg, 11), Imm5(Val(ireg[11..])))
  }

  function Perform(s: State, d: Fields): (s': State)
    requires Ok(s) && d.x < 16 && d.y < 16 && d.z < 16
    ensures Ok(s')
  {
    if d.op == 0 then DoAdd(s, d.x, d.y, d.z)
    else if d.op == 1 then DoNand(s, d.x, d.y, d.z)
    else if d.op == 2 then DoAddi(s, d.x, d.y, d.off)
    else if d.op == 3 then DoLw(s, d.x, d.y, d.off)
    else if d.op == 4 then DoSw(s, d.x, d.y, d.off)
    else if d.op == 5 then DoBeq(s, d.x, d.y, s.pc + 1 + d.off)
    else if d.op == 6 then DoJalr(s, d.x, d.y)
    else DoHalt(s)
  }

  /** step_instruction; a negative word has no opcode, and looking it up raises an error. */
  function Step(s: State): (r: Option<State>)
    requires Ok(s)
    ensures r.Some? ==> Ok(r.value)
  {
    var word := Access(s.mem, s.pc);
    if word < 0 then None else Some(Perform(s, Decode(Format(word, 16))))
  }

  /** One turn of run()'s loop, with no breakpoints set; a halted machine stays as it is. */
  function Turn(s: State): (r: Option<State>)
  {
    if !Ok(s) then None else if s.halted then Some(s) else Step(s)
  }

  function Iterate(f: State -> Option<State>, s: State, k: nat): Option<State>
    decreases k
  {
    if k == 0 then Some(s)
    else
      var s1 := f(s);
      if s1.None? then None else Iterate(f, s1.value, k - 1)
  }

  /** run() for at most k instructions. */
  function RunFor(s: State, k: nat): Option<State>
  {
    Iterate(Turn, s, k)
  }

  lemma {:induction false} IterateJoin(f: State -> Option<State>, s: State, j: nat, k: nat)
    requires Iterate(f, s, j).Some?
    ensures Iterate(f, s, j + k) == Iterate(f, Iterate(f, s, j).value, k)
    decreases j
  {
    if j > 0 {
      IterateJoin(f, f(s).value, j - 1, k);
    }
  }

  lemma IterateOne(f: State -> Option<State>, s: State)
    ensures Iterate(f, s, 1) == f(s)
  {
    if f(s).Some? {
      assert Iterate(f, f(s).value, 0) == f(s);
    }
  }

  lemma IterateThree(f: State -> Option<State>, s: State, s1: State, s2: State)
    requires f(s) == Some(s1) && f(s1) == Some(s2)
    ensures Iterate(f, s, 3) == f(s2)
  {
    IterateOne(f, s2);
    assert Iterate(f, s1, 2) == Iterate(f, s2, 1);
  }
}
