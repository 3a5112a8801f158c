/** Assembled programs do on the simulator what their source lines say. */
module AsmCorrect {
  import opened Basics
  import opened Binary
  import opened Lc2200
  import opened AsmModel

  // ----- the meaning of a source line -----

  function R(name: string): (r: nat)
    ensures r < 16
  {
    var r := Reg(name);
    if r.Some? then r.value else 0
  }

  function N(off: Offset): int
  {
    if off.number.Some? then off.number.value else 0
  }

  /** A branch goes to its label if that is within reach, and else by the number it was given. */
  function BranchTarget(off: Offset, table: Symbols, pc: int): int
  {
    if off.text in table && -16 <= table[off.text] - (pc + 1) < 16 then table[off.text] else pc + 1 + N(off)
  }

  /** What one source instruction does; la is a single step to the address four words on. */
  function SourceStep(op: Op, table: Symbols, s: State): (s': State)
    requires Ok(s)
    ensures Ok(s')
  {
    match op
    case Add(rx, ry, rz) => DoAdd(s, R(rx), R(ry), R(rz))
    case Nand(rx, ry, rz) => DoNand(s, R(rx), R(ry), R(rz))
    case Addi(rx, ry, off) => DoAddi(s, R(rx), R(ry), N(off))
    case Lw(rx, ry, off) => DoLw(s, R(rx), R(ry), N(off))
    case Sw(rx, ry, off) => DoSw(s, R(rx), R(ry), N(off))
    case Beq(rx, ry, off) => DoBeq(s, R(rx), R(ry), BranchTarget(off, table, s.pc))
    case Jalr(rx, ry) => DoJalr(s, R(rx), R(ry))
    case La(rx, target) => Put(s, s.pc + 4, R(rx), if target in table then table[target] else 0)
    case Noop => Goto(s, s.pc + 1)
    case _ => DoHalt(s)
  }

  function Ticks(op: Op): nat
  {
    if op.La? then 3 else 1
  }

  // ----- encoding and decoding -----

  lemma RegRoundTrip(name: string)
    requires RegBits(name).Some?
    ensures |RegBits(name).value| == 4 && Val(RegBits(name).value) == R(name)
  {
    FormatThenRead(R(name), 4);
    FormatWidth(R(name), 4);
    assert Pow2(4) == 16;
  }

  lemma Imm5Signed(n: int)
    requires -16 <= n < 16
    ensures Imm5(if n >= 0 then n else 32 + n) == n
  {
    assert Pow2(4) == 16;
  }

  lemma Imm5RoundTrip(n: int)
    requires EncodeImm5(n).Some?
    ensures |EncodeImm5(n).value| == 5 && Imm5(Val(EncodeImm5(n).value)) == n
  {
    var m := if n >= 0 then n else 32 + n;
    FormatThenRead(m, 5);
    FormatWidth(m, 5);
    Imm5Signed(n);
    assert Pow2(4) == 16 && Pow2(5) == 32;
  }

  lemma Opcodes()
    ensures Val(ADD) == 0 && Val(NAND) == 1 && Val(ADDI) == 2 && Val(LW) == 3
    ensures Val(SW) == 4 && Val(BEQ) == 5 && Val(JALR) == 6 && Val(SPOP) == 7
  {
    Val3(false, false, false);
    Val3(false, false, true);
    Val3(false, true, false);
    Val3(false, true, true);
    Val3(true, false, false);
    Val3(true, false, true);
    Val3(true, true, false);
    Val3(true, true, true);
  }

  lemma Val3(a: bool, b: bool, c: bool)
    ensures Val([a, b, c]) == (if a then 4 else 0) + (if b then 2 else 0) + if c then 1 else 0
  {
    assert [a][..0] == [] && Val([a]) == if a then 1 else 0;
    assert [a, b][..1] == [a] && Val([a, b]) == 2 * Val([a]) + if b then 1 else 0;
    assert [a, b, c][..2] == [a, b] && Val([a, b, c]) == 2 * Val([a, b]) + if c then 1 else 0;
  }

  ghost predicate HoldsOne(mem: map<int, int>, a: int, w: Bits)
  {
    a in mem && mem[a] == Val(w)
  }

  ghost predicate Holds(mem: map<int, int>, a: int, words: seq<Bits>)
  {
    forall i {:trigger words[i]} :: 0 <= i < |words| ==> HoldsOne(mem, a + i, words[i])
  }

  lemma HoldsAt(mem: map<int, int>, a: int, words: seq<Bits>, i: nat)
    requires Holds(mem, a, words) && i < |words|
    ensures HoldsOne(mem, a + i, words[i]) && Holds(mem, a + i, [words[i]])
  {
    var w := words[i];
    assert HoldsOne(mem, a + i, w);
  }

  lemma HoldsFirst(mem: map<int, int>, a: int, w: Bits)
    requires Holds(mem, a, [w])
    ensures a in mem && mem[a] == Val(w)
  {
    assert HoldsOne(mem, a + 0, [w][0]);
  }

  lemma WordSlices(op: Bits, x: Bits, y: Bits, last: Bits)
    requires |op| == 3 && |x| == 4 && |y| == 4 && |last| == 5
    ensures var w := op + x + y + last;
            w[..3] == op && w[3..7] == x && w[7..11] == y && w[11..15] == last[..4] && w[11..] == last
  {
  }

  /** The simulator fetches and decodes exactly the fields the assembler wrote. */
  lemma Decoded(s: State, op: Bits, x: Bits, y: Bits, last: Bits)
    requires |op| == 3 && |x| == 4 && |y| == 4 && |last| == 5
    requires Holds(s.mem, s.pc, [op + x + y + last])
    ensures Access(s.mem, s.pc) >= 0
    ensures Decode(Format(Access(s.mem, s.pc), 16)) == Fields(Val(op), Val(x), Val(y), Val(last[..4]), Imm5(Val(last)))
  {
    var w := op + x + y + last;
    HoldsFirst(s.mem, s.pc, w);
    ReadThenFormat(w, 16);
    WordSlices(op, x, y, last);
  }

  // ----- one instruction -----

  lemma StepRRR(op: Op, table: Symbols, s: State, opcode: Bits, rx: string, ry: string, rz: string)
    requires Ok(s) && RegBits(rx).Some? && RegBits(ry).Some? && RegBits(rz).Some?
    requires (op == Add(rx, ry, rz) && opcode == ADD) || (op == Nand(rx, ry, rz) && opcode == NAND)
    requires Holds(s.mem, s.pc, [opcode + RegBits(rx).value + RegBits(ry).value + (RegBits(rz).value + [false])])
    ensures Step(s) == Some(SourceStep(op, table, s))
  {
    RegRoundTrip(rx);
    RegRoundTrip(ry);
    RegRoundTrip(rz);
    var last := RegBits(rz).value + [false];
    assert last[..4] == RegBits(rz).value;
    Opcodes();
    Decoded(s, opcode, RegBits(rx).value, RegBits(ry).value, last);
  }

  lemma StepImm(op: Op, table: Symbols, s: State, opcode: Bits, rx: string, ry: string, off: Offset)
    requires Ok(s) && RegBits(rx).Some? && RegBits(ry).Some? && OffBits(off).Some?
    requires (op == Addi(rx, ry, off) && opcode == ADDI) || (op == Lw(rx, ry, off) && opcode == LW)
          || (op == Sw(rx, ry, off) && opcode == SW)
    requires Holds(s.mem, s.pc, [opcode + RegBits(rx).value + RegBits(ry).value + OffBits(off).value])
    ensures Step(s) == Some(SourceStep(op, table, s))
  {
    RegRoundTrip(rx);
    RegRoundTrip(ry);
    Imm5RoundTrip(off.number.value);
    Opcodes();
    Decoded(s, opcode, RegBits(rx).value, RegBits(ry).value, OffBits(off).value);
  }

  /** The encoded branch offset leads from the next instruction to the branch's target. */
  lemma BranchOffset(off: Offset, table: Symbols, pc: nat)
    requires BeqBits(off, table, pc).Some?
    ensures |BeqBits(off, table, pc).value| == 5
    ensures pc + 1 + Imm5(Val(BeqBits(off, table, pc).value)) == BranchTarget(off, table, pc)
  {
    if off.text in table && EncodeImm5(table[off.text] - (pc + 1)).Some? {
      Imm5RoundTrip(table[off.text] - (pc + 1));
    } else {
      Imm5RoundTrip(off.number.value);
    }
  }

  lemma StepBeq(s: State, table: Symbols, rx: string, ry: string, off: Offset)
    requires Ok(s) && s.pc >= 0 && RegBits(rx).Some? && RegBits(ry).Some? && BeqBits(off, table, s.pc).Some?
    requires Holds(s.mem, s.pc, [BEQ + RegBits(rx).value + RegBits(ry).value + BeqBits(off, table, s.pc).value])
    ensures Step(s) == Some(SourceStep(Beq(rx, ry, off), table, s))
  {
    RegRoundTrip(rx);
    RegRoundTrip(ry);
    BranchOffset(off, table, s.pc);
    var last := BeqBits(off, table, s.pc).value;
    Opcodes();
    Decoded(s, BEQ, RegBits(rx).value, RegBits(ry).value, last);
  }

  lemma StepJalr(s: State, rx: string, ry: string)
    requires Ok(s) && RegBits(rx).Some? && RegBits(ry).Some?
    requires Holds(s.mem, s.pc, [JALR + RegBits(rx).value + RegBits(ry).value + Zeros(5)])
    ensures Step(s) == Some(DoJalr(s, R(rx), R(ry)))
  {
    RegRoundTrip(rx);
    RegRoundTrip(ry);
    Opcodes();
    Decoded(s, JALR, RegBits(rx).value, RegBits(ry).value, Zeros(5));
  }

  lemma DecodedSpop(s: State, code: Bits)
    requires |code| >= 2 && Holds(s.mem, s.pc, [SPOP + Zeros(11) + code])
    ensures Access(s.mem, s.pc) >= 0 && Decode(Format(Access(s.mem, s.pc), 16)).op == 7
  {
    var w := SPOP + Zeros(11) + code;
    HoldsFirst(s.mem, s.pc, w);
    ReadThenFormat(w, 16);
    assert w[..3] == SPOP;
    Opcodes();
  }

  /** Whatever its control code, spop halts, even when the code makes the word too long. */
  lemma StepSpop(s: State, code: Bits)
    requires Ok(s) && |code| >= 2 && Holds(s.mem, s.pc, [SPOP + Zeros(11) + code])
    ensures Step(s) == Some(DoHalt(s))
  {
    DecodedSpop(s, code);
  }

  lemma {:induction false} ZerosVal(n: nat)
    ensures Val(Zeros(n)) == 0
  {
    if n > 0 {
      ZerosVal(n - 1);
      assert Zeros(n)[..n - 1] == Zeros(n - 1);
    }
  }

  lemma {:induction false} ZerosJoin(i: nat, j: nat)
    ensures Zeros(i) + Zeros(j) == Zeros(i + j)
  {
    if j > 0 {
      ZerosJoin(i, j - 1);
      assert Zeros(i) + Zeros(j) == (Zeros(i) + Zeros(j - 1)) + [false];
    }
  }

  lemma DecodedNoop(s: State)
    requires Holds(s.mem, s.pc, [Zeros(16)])
    ensures Access(s.mem, s.pc) >= 0
    ensures Decode(Format(Access(s.mem, s.pc), 16)) == Fields(0, 0, 0, 0, Imm5(0))
  {
    ZerosJoin(3, 4);
    ZerosJoin(7, 4);
    ZerosJoin(11, 5);
    ZerosJoin(4, 1);
    ZerosVal(3);
    ZerosVal(4);
    ZerosVal(5);
    assert Zeros(5)[..4] == Zeros(4);
    Decoded(s, Zeros(3), Zeros(4), Zeros(4), Zeros(5));
  }

  /** The all-zero word adds register 0 to itself into register 0. */
  lemma StepNoop(s: State)
    requires Ok(s) && Holds(s.mem, s.pc, [Zeros(16)])
    ensures Step(s) == Some(Goto(s, s.pc + 1))
  {
    DecodedNoop(s);
    AddNothing(s);
  }

  lemma AddNothing(s: State)
    requires Ok(s)
    ensures DoAdd(s, 0, 0, 0) == Goto(s, s.pc + 1)
  {
    var v := Wrap(Imm16(s.regs[0]) + Imm16(s.regs[0]));
    assert s.regs[0 := v][0 := 0] == s.regs[0 := 0];
  }

  lemma SelfJump(s: State, r: nat)
    requires Ok(s) && r < 16
    ensures DoJalr(s, r, r) == Put(s, s.pc + 1, r, s.pc + 1)
  {
  }

  /** After jalr rx, rx the register holds the address of the next instruction, which is where the machine goes. */
  lemma StepSelfJump(s: State, rx: string)
    requires Ok(s) && RegBits(rx).Some?
    requires Holds(s.mem, s.pc, [JALR + RegBits(rx).value + RegBits(rx).value + Zeros(5)])
    ensures Step(s) == Some(Put(s, s.pc + 1, R(rx), s.pc + 1))
  {
    StepJalr(s, rx, rx);
    SelfJump(s, R(rx));
  }

  lemma StepLoad2(s: State, rx: string)
    requires Ok(s) && RegBits(rx).Some?
    requires Holds(s.mem, s.pc, [LW + RegBits(rx).value + RegBits(rx).value + [false, false, false, true, false]])
    ensures Step(s) == Some(DoLw(s, R(rx), R(rx), 2))
  {
    RegRoundTrip(rx);
    var last := [false, false, false, true, false];
    Opcodes();
    Val5(true, false);
    Decoded(s, LW, RegBits(rx).value, RegBits(rx).value, last);
  }

  lemma StepSkip(s: State)
    requires Ok(s)
    requires Holds(s.mem, s.pc, [BEQ + Format(0, 4) + Format(0, 4) + [false, false, false, false, true]])
    ensures Step(s) == Some(Goto(s, s.pc + 2))
  {
    FormatThenRead(0, 4);
    assert Pow2(4) == 16;
    FormatWidth(0, 4);
    var last := [false, false, false, false, true];
    Opcodes();
    Val5(false, true);
    Decoded(s, BEQ, Format(0, 4), Format(0, 4), last);
  }

  lemma Val5(b: bool, c: bool)
    ensures Val([false, false, false, b, c]) == (if b then 2 else 0) + if c then 1 else 0
    ensures Imm5(Val([false, false, false, b, c])) == Val([false, false, false, b, c])
  {
    var f := false;
    Val3(f, f, f);
    assert [f, f, f, b][..3] == [f, f, f] && Val([f, f, f, b]) == 2 * Val([f, f, f]) + if b then 1 else 0;
    assert [f, f, f, b, c][..4] == [f, f, f, b] && Val([f, f, f, b, c]) == 2 * Val([f, f, f, b]) + if c then 1 else 0;
    assert Pow2(4) == 16;
  }

  lemma LaJump(s: State, rx: string, target: nat) returns (s1: State)
    requires Ok(s) && !s.halted && RegBits(rx).Some? && Holds(s.mem, s.pc, LaWords(RegBits(rx).value, target))
    ensures Turn(s) == Some(s1) && s1 == Put(s, s.pc + 1, R(rx), s.pc + 1)
  {
    HoldsAt(s.mem, s.pc, LaWords(RegBits(rx).value, target), 0);
    StepSelfJump(s, rx);
    s1 := Put(s, s.pc + 1, R(rx), s.pc + 1);
  }

  lemma LaLoad(s: State, s1: State, rx: string, target: nat) returns (s2: State)
    requires Ok(s) && !s.halted && RegBits(rx).Some? && Holds(s.mem, s.pc, LaWords(RegBits(rx).value, target))
    requires s1 == Put(s, s.pc + 1, R(rx), s.pc + 1)
    ensures Turn(s1) == Some(s2) && s2 == Put(s, s.pc + 2, R(rx), target)
  {
    var words := LaWords(RegBits(rx).value, target);
    HoldsAt(s.mem, s.pc, words, 1);
    HoldsAt(s.mem, s.pc, words, 3);
    StepLoad2(s1, rx);
    FormatThenRead(target, 16);
    HoldsFirst(s.mem, s.pc + 3, words[3]);
    s2 := LaLoaded(s, s1, R(rx), target);
  }

  lemma LaSkip(s: State, s2: State, rx: string, target: nat)
    requires Ok(s) && !s.halted && RegBits(rx).Some? && Holds(s.mem, s.pc, LaWords(RegBits(rx).value, target))
    requires s2 == Put(s, s.pc + 2, R(rx), target)
    ensures Turn(s2) == Some(Put(s, s.pc + 4, R(rx), target))
  {
    HoldsAt(s.mem, s.pc, LaWords(RegBits(rx).value, target), 2);
    StepSkip(s2);
    LaSkipped(s, s2, R(rx), target);
  }

  /** The words of la leave the label's address in its register, or nothing in $zero, and carry on behind them. */
  lemma StepLa(s: State, rx: string, target: nat)
    requires Ok(s) && !s.halted && RegBits(rx).Some? && Holds(s.mem, s.pc, LaWords(RegBits(rx).value, target))
    ensures RunFor(s, 3) == Some(Put(s, s.pc + 4, R(rx), target))
  {
    var s1 := LaJump(s, rx, target);
    var s2 := LaLoad(s, s1, rx, target);
    LaSkip(s, s2, rx, target);
    IterateThree(Turn, s, s1, s2);
  }

  lemma LaLoaded(s: State, s1: State, r: nat, target: nat) returns (s2: State)
    requires Ok(s) && r < 16 && s1 == Put(s, s.pc + 1, r, s.pc + 1)
    requires s.pc + 3 in s.mem && s.mem[s.pc + 3] == target
    requires r == 0 ==> s1.regs[0] == 0
    ensures s2 == DoLw(s1, r, r, 2) == Put(s, s.pc + 2, r, target)
  {
    s2 := Put(s, s.pc + 2, r, target);
    if r == 0 {
      assert s2.regs == s.regs[0 := 0] == DoLw(s1, r, r, 2).regs;
    } else {
      assert s1.regs[r] == s.pc + 1;
      assert s2.regs == DoLw(s1, r, r, 2).regs;
    }
  }

  lemma LaSkipped(s: State, s2: State, r: nat, target: nat)
    requires Ok(s) && r < 16 && s2 == Put(s, s.pc + 2, r, target)
    ensures Goto(s2, s2.pc + 2) == Put(s, s.pc + 4, r, target)
  {
    assert Goto(s2, s2.pc + 2).regs == Put(s, s.pc + 4, r, target).regs;
  }
}
