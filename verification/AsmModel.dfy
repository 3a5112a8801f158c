/** The LC-2200 assembler of cs_2200/LC-2200/Assembly/lc2200-16as.py, on lines whose text has been parsed. */
module AsmModel {
  import opened Basics
  import opened Binary

  /** An offset as written, and the number it denotes if it is one. */
  datatype Offset = Offset(text: string, number: Option<int>)

  datatype Op =
    | Add(rx: string, ry: string, rz: string)
    | Nand(rx: string, ry: string, rz: string)
    | Addi(rx: string, ry: string, off: Offset)
    | Lw(rx: string, ry: string, off: Offset)
    | Sw(rx: string, ry: string, off: Offset)
    | Beq(rx: string, ry: string, off: Offset)
    | Jalr(rx: string, ry: string)
    | Spop(code: Option<nat>)
    | La(rx: string, target: string)
    | Noop
    | Word(value: Option<nat>)
    | Halt
    | Unparsed(isLa: bool)   // a known opcode with operands that do not parse
    | Unknown                // not an opcode

  /** A line that is not blank may have a label, an opcode, both or neither. */
  datatype Line = Blank | Text(mark: Option<string>, op: Option<Op>)

  type Symbols = map<string, nat>

  function Size(op: Op): (n: nat)
    ensures n >= 1
  {
    if op.La? || (op.Unparsed? && op.isLa) then 4 else 1
  }

  // ----- pass 1 -----

  /** How far pass 1 advances its address; a line with neither label nor opcode counts as a word. */
  function Advance1(l: Line): nat
  {
    if l.Blank? then 0
    else if l.op.Some? then Size(l.op.value)
    else if l.mark.Some? then 0
    else 1
  }

  function Define(table: Symbols, l: Line, pc: nat): Symbols
  {
    if l.Text? && l.mark.Some? then table[l.mark.value := pc] else table
  }

  function Pass1(lines: seq<Line>, pc: nat, table: Symbols): (nat, Symbols)
    decreases |lines|
  {
    if lines == [] then (pc, table)
    else Pass1(lines[1..], pc + Advance1(lines[0]), Define(table, lines[0], pc))
  }

  // ----- pass 2 -----

  /** How many words pass 2 writes for a line. */
  function Advance2(l: Line): nat
  {
    if l.Text? && l.op.Some? then Size(l.op.value) else 0
  }

  function RegisterNames(): (r: seq<string>)
    ensures |r| == 16 && r[0] == "zero"
  {
    ["zero", "at", "v0", "a0", "a1", "a2", "t0", "t1", "t2", "s0", "s1", "s2", "k0", "sp", "fp", "ra"]
  }

  function Find(names: seq<string>, name: string): (r: Option<nat>)
    ensures r.Some? ==> r.value < |names| && names[r.value] == name
    ensures r.None? ==> name !in names
  {
    if names == [] then None
    else if names[|names| - 1] == name then Some(|names| - 1)
    else Find(names[..|names| - 1], name)
  }

  function Reg(name: string): (r: Option<nat>)
    ensures r.Some? ==> r.value < 16 && RegisterNames()[r.value] == name
  {
    Find(RegisterNames(), name)
  }

  /** BINARY_REGISTERS. */
  function RegBits(name: string): (b: Option<Bits>)
  {
    var r := Reg(name);
    if r.None? then None else Some(Format(r.value, 4))
  }

  function EncodeImm5(n: int): Option<Bits>
  {
    if n < -16 || 16 <= n then None else Some(Format(if n >= 0 then n else 32 + n, 5))
  }

  /** A branch offset is first taken for a label; if that fails, also for being too far away, for a number. */
  function BeqBits(off: Offset, table: Symbols, pc: nat): Option<Bits>
  {
    if off.text in table && EncodeImm5(table[off.text] - (pc + 1)).Some? then EncodeImm5(table[off.text] - (pc + 1))
    else OffBits(off)
  }

  function OffBits(off: Offset): Option<Bits>
  {
    if off.number.None? then None else EncodeImm5(off.number.value)
  }

  /** Opcode, two registers and the last five bits; any missing field is an error. */
  function Join(op: Bits, x: Option<Bits>, y: Option<Bits>, last: Option<Bits>): Option<seq<Bits>>
  {
    if x.None? || y.None? || last.None? then None else Some([op + x.value + y.value + last.value])
  }

  function WithZero(z: Option<Bits>): Option<Bits>
  {
    if z.None? then None else Some(z.value + [false])
  }

  function Zeros(n: nat): (b: Bits)
    ensures |b| == n
  {
    if n == 0 then [] else Zeros(n - 1) + [false]
  }

  const ADD: Bits := [false, false, false]
  const NAND: Bits := [false, false, true]
  const ADDI: Bits := [false, true, false]
  const LW: Bits := [false, true, true]
  const SW: Bits := [true, false, false]
  const BEQ: Bits := [true, false, true]
  const JALR: Bits := [true, true, false]
  const SPOP: Bits := [true, true, true]

  /** The four words of la: find out where we are, load the word two further on, and jump over it. */
  function LaWords(x: Bits, target: nat): seq<Bits>
  {
    [JALR + x + x + Zeros(5),
     LW + x + x + [false, false, false, true, false],
     BEQ + Format(0, 4) + Format(0, 4) + [false, false, false, false, true],
     Format(target, 16)]
  }

  /** assemble_line; None stands for an error exit. */
  function Assemble(op: Op, table: Symbols, pc: nat): Option<seq<Bits>>
  {
    match op
    case Add(rx, ry, rz) => Join(ADD, RegBits(rx), RegBits(ry), WithZero(RegBits(rz)))
    case Nand(rx, ry, rz) => Join(NAND, RegBits(rx), RegBits(ry), WithZero(RegBits(rz)))
    case Addi(rx, ry, off) => Join(ADDI, RegBits(rx), RegBits(ry), OffBits(off))
    case Lw(rx, ry, off) => Join(LW, RegBits(rx), RegBits(ry), OffBits(off))
    case Sw(rx, ry, off) => Join(SW, RegBits(rx), RegBits(ry), OffBits(off))
    case Beq(rx, ry, off) => Join(BEQ, RegBits(rx), RegBits(ry), BeqBits(off, table, pc))
    case Jalr(rx, ry) => Join(JALR, RegBits(rx), RegBits(ry), Some(Zeros(5)))
    case Spop(code) => if code.None? then None else Some([SPOP + Zeros(11) + Format(code.value, 2)])
    case La(rx, target) =>
      if RegBits(rx).None? || target !in table then None else Some(LaWords(RegBits(rx).value, table[target]))
    case Noop => Some([Zeros(16)])
    case Word(value) => if value.None? then None else Some([Format(value.value, 16)])
    case Halt => Some([SPOP + Zeros(11) + Zeros(2)])
    case Unparsed(_) => None
    case Unknown => None
  }

  /** The words of one line; a line without an opcode has none. */
  function Here(l: Line, table: Symbols, pc: nat): Option<seq<Bits>>
  {
    if l.Text? && l.op.Some? then Assemble(l.op.value, table, pc) else Some([])
  }

  function Prepend(here: Option<seq<Bits>>, rest: Option<seq<Bits>>): Option<seq<Bits>>
  {
    if here.None? || rest.None? then None else Some(here.value + rest.value)
  }

  /** Pass 2 from address pc on. */
  function Emit(lines: seq<Line>, table: Symbols, pc: nat): Option<seq<Bits>>
    decreases |lines|
  {
    if lines == [] then Some([])
    else Prepend(Here(lines[0], table, pc), Emit(lines[1..], table, pc + Advance2(lines[0])))
  }

  // ----- what addresses mean -----

  function Words(lines: seq<Line>): nat
  {
    if lines == [] then 0 else Advance2(lines[0]) + Words(lines[1..])
  }

  predicate Bare(l: Line)
  {
    l.Text? && l.mark.None? && l.op.None?
  }

  function Bares(lines: seq<Line>): nat
  {
    if lines == [] then 0 else Bares(lines[1..]) + if Bare(lines[0]) then 1 else 0
  }

  /** The instruction that starts at an address. */
  function OpAt(lines: seq<Line>, pc: nat, a: int): Option<Op>
  {
    if lines == [] then None
    else if Advance2(lines[0]) > 0 && pc == a then lines[0].op
    else OpAt(lines[1..], pc + Advance2(lines[0]), a)
  }

  /** Addresses that hold instructions rather than data. */
  predicate IsCode(lines: seq<Line>, pc: nat, a: int)
  {
    lines != []
    && ((Advance2(lines[0]) > 0 && !lines[0].op.value.Word? && pc <= a < pc + Advance2(lines[0]))
        || IsCode(lines[1..], pc + Advance2(lines[0]), a))
  }

  lemma AssembledSize(op: Op, table: Symbols, pc: nat)
    requires Assemble(op, table, pc).Some?
    ensures |Assemble(op, table, pc).value| == Size(op)
  {
  }

  lemma SliceShift(image: seq<Bits>, rest: seq<Bits>, w: nat, i: nat, n: nat)
    requires w <= |image| && image[w..] == rest && i + n <= |rest|
    ensures rest[i..i + n] == image[w + i..w + i + n]
  {
  }

  lemma EmitSplit(lines: seq<Line>, table: Symbols, pc: nat) returns (rest: seq<Bits>, w: nat)
    requires lines != [] && Emit(lines, table, pc).Some?
    ensures w == Advance2(lines[0]) && Emit(lines[1..], table, pc + w) == Some(rest)
    ensures var image := Emit(lines, table, pc).value;
            w <= |image| && image[w..] == rest && Here(lines[0], table, pc) == Some(image[..w])
  {
    w := Advance2(lines[0]);
    rest := Emit(lines[1..], table, pc + w).value;
    if w > 0 {
      AssembledSize(lines[0].op.value, table, pc);
    }
  }

  /** Each instruction's address is the number of words written before it. */
  lemma {:induction false} EmitAt(lines: seq<Line>, table: Symbols, pc: nat, a: int)
    requires Emit(lines, table, pc).Some? && OpAt(lines, pc, a).Some?
    ensures var op := OpAt(lines, pc, a).value; var image := Emit(lines, table, pc).value;
            && pc <= a && a - pc + Size(op) <= |image|
            && Assemble(op, table, a) == Some(image[a - pc..a - pc + Size(op)])
    decreases |lines|
  {
    var image := Emit(lines, table, pc).value;
    var rest, w := EmitSplit(lines, table, pc);
    if w == 0 || pc != a {
      EmitAt(lines[1..], table, pc + w, a);
      SliceShift(image, rest, w, a - (pc + w), Size(OpAt(lines, pc, a).value));
    }
  }

  lemma {:induction false} EmitSize(lines: seq<Line>, table: Symbols, pc: nat)
    requires Emit(lines, table, pc).Some?
    ensures |Emit(lines, table, pc).value| == Words(lines)
    decreases |lines|
  {
    if lines != [] {
      if Advance2(lines[0]) > 0 {
        AssembledSize(lines[0].op.value, table, pc);
      }
      EmitSize(lines[1..], table, pc + Advance2(lines[0]));
    }
  }

  /** The two passes disagree by the number of lines that are neither blank, labelled nor instructions. */
  lemma {:induction false} PassesAgree(lines: seq<Line>, pc: nat, table: Symbols)
    ensures Pass1(lines, pc, table).0 == pc + Words(lines) + Bares(lines)
    decreases |lines|
  {
    if lines != [] {
      PassesAgree(lines[1..], pc + Advance1(lines[0]), Define(table, lines[0], pc));
    }
  }

  predicate Defines(l: Line, name: string)
  {
    l.Text? && l.mark == Some(name)
  }

  /** A symbol is the address of its last definition, off by the bare lines before that. */
  lemma {:induction false} SymbolValue(lines: seq<Line>, pc: nat, table: Symbols, k: nat, name: string)
    requires k < |lines| && Defines(lines[k], name)
    requires forall j :: k < j < |lines| ==> !Defines(lines[j], name)
    ensures name in Pass1(lines, pc, table).1
    ensures Pass1(lines, pc, table).1[name] == pc + Words(lines[..k]) + Bares(lines[..k])
    decreases |lines|
  {
    var pc', table' := pc + Advance1(lines[0]), Define(table, lines[0], pc);
    if k == 0 {
      forall j | 0 <= j < |lines| - 1
        ensures !Defines(lines[1..][j], name)
      {
        assert lines[1..][j] == lines[j + 1];
      }
      Untouched(lines[1..], pc', table', name);
      assert lines[..0] == [];
    } else {
      assert lines[1..][k - 1] == lines[k];
      forall j | k - 1 < j < |lines| - 1
        ensures !Defines(lines[1..][j], name)
      {
        assert lines[1..][j] == lines[j + 1];
      }
      SymbolValue(lines[1..], pc', table', k - 1, name);
      assert lines[..k][1..] == lines[1..][..k - 1];
    }
  }

  lemma {:induction false} Untouched(lines: seq<Line>, pc: nat, table: Symbols, name: string)
    requires forall j :: 0 <= j < |lines| ==> !Defines(lines[j], name)
    ensures name in Pass1(lines, pc, table).1 <==> name in table
    ensures name in table ==> Pass1(lines, pc, table).1[name] == table[name]
    decreases |lines|
  {
    if lines != [] {
      forall j | 0 <= j < |lines| - 1
        ensures !Defines(lines[1..][j], name)
      {
        assert lines[1..][j] == lines[j + 1];
      }
      Untouched(lines[1..], pc + Advance1(lines[0]), Define(table, lines[0], pc), name);
    }
  }
}
