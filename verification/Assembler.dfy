/** The assembler's two passes over a program, with its global address, symbol table and output file. */
module Assembler {
  import opened Basics
  import opened Binary
  import opened Lc2200
  import opened AsmModel

  /** Writing line i's words first and the rest after them comes to the same. */
  lemma EmitNext(lines: seq<Line>, i: nat, table: Symbols, pc: nat, output: seq<Bits>)
    requires i < |lines|
    ensures var here := Here(lines[i], table, pc);
            Prepend(Some(output), Emit(lines[i..], table, pc))
            == if here.None? then None
               else Prepend(Some(output + here.value), Emit(lines[i + 1..], table, pc + Advance2(lines[i])))
  {
    assert lines[i..][1..] == lines[i + 1..] && lines[i..][0] == lines[i];
    var here, rest := Here(lines[i], table, pc), Emit(lines[i + 1..], table, pc + Advance2(lines[i]));
    if here.Some? && rest.Some? {
      assert output + (here.value + rest.value) == (output + here.value) + rest.value;
    }
  }

  class Asm {
    var pc: nat
    var symbols: Symbols
    var output: seq<Bits>

    constructor ()
      ensures pc == 0 && symbols == map[] && output == []
    {
      pc, symbols, output := 0, map[], [];
    }

    method FirstPass(lines: seq<Line>)
      modifies `pc, `symbols
      ensures (pc, symbols) == Pass1(lines, 0, old(symbols))
    {
      pc := 0;
      var i := 0;
      while i < |lines|
        invariant i <= |lines|
        invariant Pass1(lines[i..], pc, symbols) == Pass1(lines, 0, old(symbols))
      {
        var line := lines[i];
        assert lines[i..][1..] == lines[i + 1..];
        if line.Text? {
          if line.mark.Some? {
            symbols := symbols[line.mark.value := pc];
          }
          if line.op.Some? {
            if Size(line.op.value) == 4 {
              pc := pc + 3;
            }
            pc := pc + 1;
          } else if line.mark.None? {
            pc := pc + 1;
          }
        }
        i := i + 1;
      }
    }

    method WriteWord(op: Bits, x: Option<Bits>, y: Option<Bits>, last: Option<Bits>) returns (ok: bool)
      modifies `output
      ensures ok <==> Join(op, x, y, last).Some?
      ensures ok ==> output == old(output) + Join(op, x, y, last).value
    {
      if x.None? || y.None? || last.None? {
        return false;
      }
      output := output + [op + x.value + y.value + last.value];
      ok := true;
    }

    /** la writes its first three words before it looks its label up. */
    method WriteLa(rx: string, target: string) returns (ok: bool)
      modifies `output
      ensures ok <==> Assemble(La(rx, target), symbols, pc).Some?
      ensures ok ==> output == old(output) + Assemble(La(rx, target), symbols, pc).value
    {
      var x := RegBits(rx);
      if x.None? {
        return false;
      }
      output := output + [JALR + x.value + x.value + Zeros(5)];
      output := output + [LW + x.value + x.value + [false, false, false, true, false]];
      output := output + [BEQ + Format(0, 4) + Format(0, 4) + [false, false, false, false, true]];
      if target !in symbols {
        return false;
      }
      output := output + [Format(symbols[target], 16)];
      ok := true;
    }

    method AssembleLine(op: Op) returns (ok: bool)
      modifies `output
      ensures ok <==> Assemble(op, symbols, pc).Some?
      ensures ok ==> output == old(output) + Assemble(op, symbols, pc).value
    {
      match op {
        case Add(rx, ry, rz) => ok := WriteWord(ADD, RegBits(rx), RegBits(ry), WithZero(RegBits(rz)));
        case Nand(rx, ry, rz) => ok := WriteWord(NAND, RegBits(rx), RegBits(ry), WithZero(RegBits(rz)));
        case Addi(rx, ry, off) => ok := WriteWord(ADDI, RegBits(rx), RegBits(ry), OffBits(off));
        case Lw(rx, ry, off) => ok := WriteWord(LW, RegBits(rx), RegBits(ry), OffBits(off));
        case Sw(rx, ry, off) => ok := WriteWord(SW, RegBits(rx), RegBits(ry), OffBits(off));
        case Beq(rx, ry, off) => ok := WriteWord(BEQ, RegBits(rx), RegBits(ry), BeqBits(off, symbols, pc));
        case Jalr(rx, ry) => ok := WriteWord(JALR, RegBits(rx), RegBits(ry), Some(Zeros(5)));
        case La(rx, target) => ok := WriteLa(rx, target);
        case Spop(code) =>
          ok := code.Some?;
          if ok {
            output := output + [SPOP + Zeros(11) + Format(code.value, 2)];
          }
        case Noop =>
          output := output + [Zeros(16)];
          ok := true;
        case Word(value) =>
          ok := value.Some?;
          if ok {
            output := output + [Format(value.value, 16)];
          }
        case Halt =>
          output := output + [SPOP + Zeros(11) + Zeros(2)];
          ok := true;
        case Unparsed(_) => ok := false;
        case Unknown => ok := false;
      }
    }

    method SecondPassLine(line: Line) returns (ok: bool)
      modifies `pc, `output
      ensures ok <==> Here(line, symbols, old(pc)).Some?
      ensures ok ==> output == old(output) + Here(line, symbols, old(pc)).value && pc == old(pc) + Advance2(line)
    {
      if line.Blank? || line.op.None? {
        return true;
      }
      ok := AssembleLine(line.op.value);
      if ok {
        if Size(line.op.value) == 4 {
          pc := pc + 3;
        }
        pc := pc + 1;
      }
    }

    /** False is an error exit; the output is then cut off. */
    method SecondPass(lines: seq<Line>) returns (ok: bool)
      modifies `pc, `output
      ensures ok <==> Emit(lines, symbols, 0).Some?
      ensures Prepend(Some(old(output)), Emit(lines, symbols, 0)) == if ok then Some(output) else None
    {
      pc := 0;
      var i := 0;
      assert lines[0..] == lines;
      while i < |lines|
        invariant i <= |lines|
        invariant Prepend(Some(output), Emit(lines[i..], symbols, pc))
                  == Prepend(Some(old(output)), Emit(lines, symbols, 0))
      {
        ghost var before, at := output, pc;
        EmitNext(lines, i, symbols, at, before);
        ok := SecondPassLine(lines[i]);
        if !ok {
          return;
        }
        i := i + 1;
      }
      ok := true;
      assert lines[i..] == [] && output + [] == output;
    }

    /** Both passes over a file: the image is the words of pass 2 with the symbols of pass 1. */
    method AssembleFile(lines: seq<Line>) returns (ok: bool)
      requires symbols == map[] && output == []
      modifies this
      ensures symbols == Pass1(lines, 0, map[]).1
      ensures ok <==> Emit(lines, symbols, 0).Some?
      ensures ok ==> Emit(lines, symbols, 0) == Some(output)
    {
      FirstPass(lines);
      ok := SecondPass(lines);
      assert ok ==> Emit(lines, symbols, 0).value == [] + Emit(lines, symbols, 0).value;
    }
  }

  /** The simulator's registers, memory, program counter and halt flag. */
  class Machine {
    var pc: int
    const regs: array<int>
    var mem: map<int, int>
    var halted: bool

    ghost predicate Valid()
    {
      regs.Length == 16
    }

    ghost function Now(): (s: State)
      requires Valid()
      reads this, regs
      ensures Ok(s)
    {
      State(pc, regs[..], mem, halted)
    }

    constructor ()
      ensures Valid() && fresh(regs) && pc == 0 && mem == map[] && !halted
      ensures forall r :: 0 <= r < 16 ==> regs[r] == 0
    {
      pc, mem, halted := 0, map[], false;
      regs := new int[16](_ => 0);
    }

    method LoadProgram(image: seq<Bits>)
      requires mem == map[]
      modifies `mem
      ensures forall a :: a in mem <==> 0 <= a < |image|
      ensures forall a :: 0 <= a < |image| ==> mem[a] == Val(image[a])
    {
      var addr := 0;
      while addr < |image|
        invariant 0 <= addr <= |image|
        invariant forall a :: a in mem <==> 0 <= a < addr
        invariant forall a :: 0 <= a < addr ==> mem[a] == Val(image[a])
      {
        mem := mem[addr := Val(image[addr])];
        addr := addr + 1;
      }
    }

    method SetReg(r: nat, v: int)
      requires Valid() && r < 16
      modifies regs
      ensures regs[..] == old(regs[..])[r := v]
    {
      regs[r] := v;
    }

    /** The decoded instruction, with the program counter already moved on. */
    method Perform(d: Fields)
      requires Valid() && d.x < 16 && d.y < 16 && d.z < 16
      modifies this, regs
      ensures Now() == Lc2200.Perform(old(Now()).(pc := old(pc) - 1), d)
    {
      var op, x, y, z, off := d.op, d.x, d.y, d.z, d.off;
      if op == 0 {
        SetReg(x, Wrap(Imm16(regs[y]) + Imm16(regs[z])));
      } else if op == 1 {
        SetReg(x, Wrap(-And(regs[y], regs[z]) - 1));
      } else if op == 2 {
        SetReg(x, Wrap(regs[y] + off));
      } else if op == 3 {
        SetReg(x, Access(mem, regs[y] + off));
      } else if op == 4 {
        mem := mem[regs[y] + off := regs[x]];
      } else if op == 5 {
        if regs[x] == regs[y] {
          pc := pc + off;
        }
      } else if op == 6 {
        SetReg(y, pc);
        pc := regs[x];
      } else {
        pc := pc - 1;
        halted := true;
      }
      SetReg(0, 0);
    }

    /** step_instruction; false is the lookup error on a negative word, after the program counter has moved on. */
    method StepInstruction() returns (ok: bool)
      requires Valid()
      modifies this, regs
      ensures ok <==> Step(old(Now())).Some?
      ensures ok ==> Step(old(Now())) == Some(Now())
      ensures !ok ==> Now() == old(Now()).(pc := old(pc) + 1)
    {
      var instruction := Access(mem, pc);
      pc := pc + 1;
      if instruction < 0 {
        return false;
      }
      ok := true;
      Perform(Decode(Format(instruction, 16)));
    }
  }
}
