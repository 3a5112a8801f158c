/** What the assembler lets through: branches that miss their label, and words longer than 16 bits. */
module AsmLimits {
  import opened Basics
  import opened Binary
  import opened Lc2200
  import opened AsmModel
  import opened AsmCorrect

  predicate InReach(address: nat, pc: nat)
  {
    -16 <= address - (pc + 1) < 16
  }

  /** Where the encoded branch goes. */
  function Landing(off: Offset, table: Symbols, pc: nat): int
    requires BeqBits(off, table, pc).Some?
  {
    pc + 1 + Imm5(Val(BeqBits(off, table, pc).value))
  }

  /** A branch to a label out of reach is an error, unless the label's name is itself a number in range. */
  lemma OutOfReachAcceptedIff(off: Offset, table: Symbols, pc: nat)
    requires off.text in table && !InReach(table[off.text], pc)
    ensures BeqBits(off, table, pc).Some? <==> off.number.Some? && -16 <= off.number.value < 16
    ensures BeqBits(off, table, pc).Some? ==> Landing(off, table, pc) == pc + 1 + off.number.value
  {
    if BeqBits(off, table, pc).Some? {
      BranchOffset(off, table, pc);
    }
  }

  /** An accepted branch to a label goes there exactly if the label is in reach. */
  lemma LandsOnLabelIff(off: Offset, table: Symbols, pc: nat)
    requires off.text in table && BeqBits(off, table, pc).Some?
    ensures Landing(off, table, pc) == table[off.text] <==> InReach(table[off.text], pc)
  {
    BranchOffset(off, table, pc);
  }

  /** A label called 5 at address 100: the branch to it is accepted, and goes five words on. */
  lemma NumericLabelIsMissed()
    ensures var off, table := Offset("5", Some(5)), map["5" := 100];
            BeqBits(off, table, 0).Some? && Landing(off, table, 0) == 6
  {
    var off, table := Offset("5", Some(5)), map["5" := 100];
    assert off.text in table && table[off.text] == 100;
    OutOfReachAcceptedIff(off, table, 0);
  }

  // ----- the width of words -----

  ghost predicate AllFull(words: seq<Bits>)
  {
    forall i :: 0 <= i < |words| ==> |words[i]| == 16
  }

  /** The number that is written with no check of its size. */
  predicate Narrow(op: Op, table: Symbols)
  {
    match op
    case Spop(code) => code.Some? ==> code.value < 4
    case Word(value) => value.Some? ==> value.value < 65536
    case La(_, target) => target in table ==> table[target] < 65536
    case _ => true
  }

  lemma RegWidth(name: string)
    requires RegBits(name).Some?
    ensures |RegBits(name).value| == 4
  {
    RegRoundTrip(name);
  }

  lemma OffsetWidth(off: Offset, table: Symbols, pc: nat)
    ensures OffBits(off).Some? ==> |OffBits(off).value| == 5
    ensures BeqBits(off, table, pc).Some? ==> |BeqBits(off, table, pc).value| == 5
  {
    if OffBits(off).Some? {
      Imm5RoundTrip(off.number.value);
    }
    if BeqBits(off, table, pc).Some? {
      BranchOffset(off, table, pc);
    }
  }

  lemma JoinWidth(op: Bits, x: string, y: string, last: Option<Bits>)
    requires |op| == 3 && Join(op, RegBits(x), RegBits(y), last).Some? && |last.value| == 5
    ensures AllFull(Join(op, RegBits(x), RegBits(y), last).value)
  {
    RegWidth(x);
    RegWidth(y);
  }

  lemma SpopWidth(code: nat)
    ensures |SPOP + Zeros(11) + Format(code, 2)| == 16 <==> code < 4
  {
    FormatWidth(code, 2);
    assert Pow2(1) == 2 && Pow2(2) == 4;
  }

  lemma WordWidth(value: nat)
    ensures |Format(value, 16)| == 16 <==> value < 65536
  {
    FormatWidth(value, 16);
    Pow2Of16();
  }

  lemma LaWidth(x: Bits, target: nat)
    requires |x| == 4
    ensures AllFull(LaWords(x, target)) <==> target < 65536
  {
    var words := LaWords(x, target);
    WordWidth(target);
    FormatWidth(0, 4);
    assert Pow2(4) == 16;
    assert |words[0]| == 16 && |words[1]| == 16 && |words[2]| == 16 && words[3] == Format(target, 16);
  }

  /** The words of an instruction have 16 bits exactly if its control code, data or label address fits. */
  lemma SixteenBitsIff(op: Op, table: Symbols, pc: nat)
    requires Assemble(op, table, pc).Some?
    ensures AllFull(Assemble(op, table, pc).value) <==> Narrow(op, table)
  {
    match op
    case Add(rx, ry, rz) =>
      RegWidth(rz);
      JoinWidth(ADD, rx, ry, WithZero(RegBits(rz)));
    case Nand(rx, ry, rz) =>
      RegWidth(rz);
      JoinWidth(NAND, rx, ry, WithZero(RegBits(rz)));
    case Addi(rx, ry, off) =>
      OffsetWidth(off, table, pc);
      JoinWidth(ADDI, rx, ry, OffBits(off));
    case Lw(rx, ry, off) =>
      OffsetWidth(off, table, pc);
      JoinWidth(LW, rx, ry, OffBits(off));
    case Sw(rx, ry, off) =>
      OffsetWidth(off, table, pc);
      JoinWidth(SW, rx, ry, OffBits(off));
    case Beq(rx, ry, off) =>
      OffsetWidth(off, table, pc);
      JoinWidth(BEQ, rx, ry, BeqBits(off, table, pc));
    case Jalr(rx, ry) => JoinWidth(JALR, rx, ry, Some(Zeros(5)));
    case Spop(code) =>
      SpopWidth(code.value);
      assert Assemble(op, table, pc).value[0] == SPOP + Zeros(11) + Format(code.value, 2);
    case La(rx, target) =>
      RegWidth(rx);
      LaWidth(RegBits(rx).value, table[target]);
    case Noop =>
    case Word(value) =>
      WordWidth(value.value);
      assert Assemble(op, table, pc).value[0] == Format(value.value, 16);
    case Halt =>
  }

  /** spop with control code 4 is a word of 17 bits. */
  lemma LongSpop()
    ensures Assemble(Spop(Some(4)), map[], 0).Some? && !AllFull(Assemble(Spop(Some(4)), map[], 0).value)
  {
    SixteenBitsIff(Spop(Some(4)), map[], 0);
  }

  // ----- registers -----

  lemma {:induction false} FindsLast(names: seq<string>, i: nat)
    requires i < |names| && forall j :: i < j < |names| ==> names[j] != names[i]
    ensures Find(names, names[i]) == Some(i)
  {
    if i < |names| - 1 {
      assert names[|names| - 1] != names[i];
      FindsLast(names[..|names| - 1], i);
    }
  }

  lemma NamesDiffer(i: nat, j: nat)
    requires i < j < 16
    ensures RegisterNames()[i] != RegisterNames()[j]
  {
    var a, b := RegisterNames()[i], RegisterNames()[j];
    if |a| == |b| {
      assert a[0] != b[0] || a[1] != b[1];
    }
  }

  lemma NameIs(i: nat, name: string)
    requires i < 16 && RegisterNames()[i] == name
    ensures Reg(name) == Some(i)
  {
    forall j | i < j < 16
      ensures RegisterNames()[j] != RegisterNames()[i]
    {
      NamesDiffer(i, j);
    }
    FindsLast(RegisterNames(), i);
  }

  predicate Numbered(name: string, i: nat)
  {
    Reg(name) == Some(i)
  }

  lemma NamesAre()
    ensures var n := RegisterNames();
            && n[0] == "zero" && n[1] == "at" && n[2] == "v0" && n[3] == "a0" && n[4] == "a1" && n[5] == "a2"
            && n[6] == "t0" && n[7] == "t1" && n[8] == "t2" && n[9] == "s0" && n[10] == "s1" && n[11] == "s2"
            && n[12] == "k0" && n[13] == "sp" && n[14] == "fp" && n[15] == "ra"
  {
  }

  /** The sixteen register names and their numbers. */
  lemma RegisterNumbers()
    ensures Numbered("zero", 0) && Numbered("at", 1) && Numbered("v0", 2) && Numbered("a0", 3)
    ensures Numbered("a1", 4) && Numbered("a2", 5) && Numbered("t0", 6) && Numbered("t1", 7)
    ensures Numbered("t2", 8) && Numbered("s0", 9) && Numbered("s1", 10) && Numbered("s2", 11)
    ensures Numbered("k0", 12) && Numbered("sp", 13) && Numbered("fp", 14) && Numbered("ra", 15)
  {
    NamesAre();
    NameIs(0, "zero");
    NameIs(1, "at");
    NameIs(2, "v0");
    NameIs(3, "a0");
    NameIs(4, "a1");
    NameIs(5, "a2");
    NameIs(6, "t0");
    NameIs(7, "t1");
    NameIs(8, "t2");
    NameIs(9, "s0");
    NameIs(10, "s1");
    NameIs(11, "s2");
    NameIs(12, "k0");
    NameIs(13, "sp");
    NameIs(14, "fp");
    NameIs(15, "ra");
  }

  predicate IsRegister(name: string)
  {
    name in {"zero", "at", "v0", "a0", "a1", "a2", "t0", "t1", "t2", "s0", "s1", "s2", "k0", "sp", "fp", "ra"}
  }

  lemma NameIsListed(i: nat)
    requires i < 16
    ensures IsRegister(RegisterNames()[i])
  {
    NamesAre();
  }

  lemma ListedIsNumbered(name: string)
    requires IsRegister(name)
    ensures Reg(name).Some?
  {
    RegisterNumbers();
  }

  lemma RegisterIff(name: string)
    ensures Reg(name).Some? <==> IsRegister(name)
  {
    if Reg(name).Some? {
      NameIsListed(Reg(name).value);
    } else if IsRegister(name) {
      ListedIsNumbered(name);
    }
  }

  // ----- what is accepted -----

  predicate InRange(off: Offset)
  {
    off.number.Some? && -16 <= off.number.value < 16
  }

  /** Which lines assemble, and which end in an error exit. */
  lemma AssemblesIff(op: Op, table: Symbols, pc: nat)
    ensures Assemble(op, table, pc).Some? <==>
            match op
            case Add(rx, ry, rz) => IsRegister(rx) && IsRegister(ry) && IsRegister(rz)
            case Nand(rx, ry, rz) => IsRegister(rx) && IsRegister(ry) && IsRegister(rz)
            case Addi(rx, ry, off) => IsRegister(rx) && IsRegister(ry) && InRange(off)
            case Lw(rx, ry, off) => IsRegister(rx) && IsRegister(ry) && InRange(off)
            case Sw(rx, ry, off) => IsRegister(rx) && IsRegister(ry) && InRange(off)
            case Beq(rx, ry, off) =>
              IsRegister(rx) && IsRegister(ry) && ((off.text in table && InReach(table[off.text], pc)) || InRange(off))
            case Jalr(rx, ry) => IsRegister(rx) && IsRegister(ry)
            case Spop(code) => code.Some?
            case La(rx, target) => IsRegister(rx) && target in table
            case Noop => true
            case Word(value) => value.Some?
            case Halt => true
            case Unparsed(_) => false
            case Unknown => false
  {
    forall name: string
      ensures RegBits(name).Some? <==> IsRegister(name)
    {
      RegisterIff(name);
    }
  }

  /** A data word is the number it was given. */
  lemma WordIsItsValue(value: nat, table: Symbols, pc: nat)
    ensures var words := Assemble(Word(Some(value)), table, pc); words.Some? && |words.value| == 1
    ensures Val(Assemble(Word(Some(value)), table, pc).value[0]) == value
  {
    FormatThenRead(value, 16);
  }
}
