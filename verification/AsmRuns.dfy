/** Whole runs: the assembled image behaves as the source program, and labels name the instructions they precede. */
module AsmRuns {
  import opened Basics
  import opened Binary
  import opened Lc2200
  import opened AsmModel
  import opened AsmCorrect

  lemma StepThree(op: Op, table: Symbols, s: State, words: seq<Bits>)
    requires Ok(s) && s.pc >= 0 && (op.Add? || op.Nand? || op.Addi? || op.Lw? || op.Sw?)
    requires Assemble(op, table, s.pc) == Some(words) && Holds(s.mem, s.pc, words)
    ensures Step(s) == Some(SourceStep(op, table, s))
  {
    match op
    case Add(rx, ry, rz) => StepRRR(op, table, s, ADD, rx, ry, rz);
    case Nand(rx, ry, rz) => StepRRR(op, table, s, NAND, rx, ry, rz);
    case Addi(rx, ry, off) => StepImm(op, table, s, ADDI, rx, ry, off);
    case Lw(rx, ry, off) => StepImm(op, table, s, LW, rx, ry, off);
    case Sw(rx, ry, off) => StepImm(op, table, s, SW, rx, ry, off);
  }

  lemma StepBranch(op: Op, table: Symbols, s: State, words: seq<Bits>)
    requires Ok(s) && s.pc >= 0 && (op.Beq? || op.Jalr?)
    requires Assemble(op, table, s.pc) == Some(words) && Holds(s.mem, s.pc, words)
    ensures Step(s) == Some(SourceStep(op, table, s))
  {
    match op
    case Beq(rx, ry, off) => StepBeq(s, table, rx, ry, off);
    case Jalr(rx, ry) => StepJalr(s, rx, ry);
  }

  lemma StepControl(op: Op, table: Symbols, s: State, words: seq<Bits>)
    requires Ok(s) && s.pc >= 0 && (op.Spop? || op.Noop? || op.Halt?)
    requires Assemble(op, table, s.pc) == Some(words) && Holds(s.mem, s.pc, words)
    ensures Step(s) == Some(SourceStep(op, table, s))
  {
    match op
    case Spop(code) => StepSpop(s, Format(code.value, 2));
    case Noop => StepNoop(s);
    case Halt => StepSpop(s, Zeros(2));
  }

  lemma OneTick(s: State, r: State)
    requires Ok(s) && !s.halted && Step(s) == Some(r)
    ensures RunFor(s, 1) == Some(r)
  {
    IterateOne(Turn, s);
  }

  lemma SingleTick(op: Op, table: Symbols, s: State, words: seq<Bits>) returns (r: State)
    requires Ok(s) && s.pc >= 0 && !s.halted && !op.Word? && !op.La?
    requires Assemble(op, table, s.pc) == Some(words) && Holds(s.mem, s.pc, words)
    ensures r == SourceStep(op, table, s) && RunFor(s, 1) == Some(r)
  {
    if op.Add? || op.Nand? || op.Addi? || op.Lw? || op.Sw? {
      StepThree(op, table, s, words);
    } else if op.Beq? || op.Jalr? {
      StepBranch(op, table, s, words);
    } else {
      StepControl(op, table, s, words);
    }
    r := SourceStep(op, table, s);
    OneTick(s, r);
  }

  lemma ThreeTicks(rx: string, target: string, table: Symbols, s: State, words: seq<Bits>) returns (r: State)
    requires Ok(s) && s.pc >= 0 && !s.halted && Assemble(La(rx, target), table, s.pc) == Some(words)
             && Holds(s.mem, s.pc, words)
    ensures r == SourceStep(La(rx, target), table, s) && RunFor(s, 3) == Some(r)
  {
    r := SourceStep(La(rx, target), table, s);
    StepLa(s, rx, table[target]);
  }

  /** Every assembled instruction takes the machine where its source line says. */
  lemma StepSource(op: Op, table: Symbols, s: State, words: seq<Bits>) returns (r: State)
    requires Ok(s) && s.pc >= 0 && !s.halted && !op.Word?
    requires Assemble(op, table, s.pc) == Some(words) && Holds(s.mem, s.pc, words)
    ensures r == SourceStep(op, table, s) && RunFor(s, Ticks(op)) == Some(r)
  {
    match op
    case La(rx, target) => r := ThreeTicks(rx, target, table, s, words);
    case _ => r := SingleTick(op, table, s, words);
  }

  // ----- the source machine -----

  /** A step of the source program.  None: the next address holds no instruction, or a store would change one. */
  function SourceTurn(lines: seq<Line>, table: Symbols, s: State): (r: Option<State>)
    ensures r.Some? ==> Ok(r.value)
  {
    if !Ok(s) then None
    else if s.halted then Some(s)
    else
      var op := OpAt(lines, 0, s.pc);
      if op.None? || op.value.Word? || HitsCode(lines, op.value, s) then None
      else Some(SourceStep(op.value, table, s))
  }

  predicate HitsCode(lines: seq<Line>, op: Op, s: State)
    requires Ok(s)
  {
    op.Sw? && IsCode(lines, 0, s.regs[R(op.ry)] + N(op.off))
  }

  function Source(lines: seq<Line>, table: Symbols): State -> Option<State>
  {
    s => SourceTurn(lines, table, s)
  }

  function SourceRun(lines: seq<Line>, table: Symbols, s: State, n: nat): Option<State>
  {
    Iterate(Source(lines, table), s, n)
  }

  /** How many machine instructions a source step takes. */
  function TurnTicks(lines: seq<Line>, s: State): nat
  {
    var op := OpAt(lines, 0, s.pc);
    if s.halted || op.None? then 0 else Ticks(op.value)
  }

  function Cost(lines: seq<Line>): State -> nat
  {
    s => TurnTicks(lines, s)
  }

  /** The cost of n turns. */
  function Total(turn: State -> Option<State>, cost: State -> nat, s: State, n: nat): nat
    decreases n
  {
    if n == 0 then 0
    else
      var s1 := turn(s);
      if s1.None? then 0 else cost(s) + Total(turn, cost, s1.value, n - 1)
  }

  function RunTicks(lines: seq<Line>, table: Symbols, s: State, n: nat): nat
  {
    Total(Source(lines, table), Cost(lines), s, n)
  }

  // ----- the image in memory -----

  /** Memory holds the assembled instructions; data words may have changed. */
  ghost predicate Intact(lines: seq<Line>, image: seq<Bits>, mem: map<int, int>)
  {
    forall a {:trigger IsCode(lines, 0, a)} :: IsCode(lines, 0, a)
        ==> 0 <= a < |image| && a in mem && mem[a] == Val(image[a])
  }

  lemma {:induction false} OpIsCode(lines: seq<Line>, pc: nat, a: int, op: Op, i: nat)
    requires OpAt(lines, pc, a) == Some(op) && !op.Word? && i < Size(op)
    ensures IsCode(lines, pc, a + i)
    decreases |lines|
  {
    if Advance2(lines[0]) > 0 && pc == a {
    } else {
      OpIsCode(lines[1..], pc + Advance2(lines[0]), a, op, i);
    }
  }

  lemma {:induction false} CodeIsEmitted(lines: seq<Line>, pc: nat, a: int)
    requires IsCode(lines, pc, a)
    ensures pc <= a < pc + Words(lines)
    decreases |lines|
  {
    if Advance2(lines[0]) > 0 && !lines[0].op.value.Word? && pc <= a < pc + Advance2(lines[0]) {
    } else {
      CodeIsEmitted(lines[1..], pc + Advance2(lines[0]), a);
    }
  }

  /** load_program: word k of the image at address k. */
  function Load(image: seq<Bits>): map<int, int>
  {
    map a: int | 0 <= a < |image| :: Val(image[a])
  }

  lemma LoadIsIntact(lines: seq<Line>, table: Symbols, image: seq<Bits>)
    requires Emit(lines, table, 0) == Some(image)
    ensures Intact(lines, image, Load(image))
  {
    EmitSize(lines, table, 0);
    forall a | IsCode(lines, 0, a)
      ensures 0 <= a < |image|
    {
      CodeIsEmitted(lines, 0, a);
    }
  }

  lemma CodeHeld(lines: seq<Line>, image: seq<Bits>, mem: map<int, int>, a: nat, op: Op, i: nat)
    requires Intact(lines, image, mem) && OpAt(lines, 0, a) == Some(op) && !op.Word? && i < Size(op)
    ensures a + i < |image| && HoldsOne(mem, a + i, image[a + i])
  {
    OpIsCode(lines, 0, a, op, i);
  }

  lemma WordsHeld(lines: seq<Line>, image: seq<Bits>, mem: map<int, int>, a: nat, op: Op, words: seq<Bits>)
    requires Intact(lines, image, mem) && OpAt(lines, 0, a) == Some(op) && !op.Word?
    requires a + Size(op) <= |image| && words == image[a..a + Size(op)]
    ensures Holds(mem, a, words)
  {
    forall i | 0 <= i < |words|
      ensures HoldsOne(mem, a + i, words[i])
    {
      CodeHeld(lines, image, mem, a, op, i);
    }
  }

  lemma EmittedFromZero(lines: seq<Line>, table: Symbols, image: seq<Bits>, a: int, op: Op)
    requires Emit(lines, table, 0) == Some(image) && OpAt(lines, 0, a) == Some(op)
    ensures 0 <= a && a + Size(op) <= |image| && Assemble(op, table, a) == Some(image[a..a + Size(op)])
  {
    EmitAt(lines, table, 0, a);
  }

  /** The words of the instruction at pc are in memory, as assembled for that address. */
  lemma HeldAt(lines: seq<Line>, table: Symbols, image: seq<Bits>, s: State, op: Op) returns (words: seq<Bits>)
    requires Emit(lines, table, 0) == Some(image) && Intact(lines, image, s.mem)
    requires OpAt(lines, 0, s.pc) == Some(op) && !op.Word?
    ensures s.pc >= 0 && Assemble(op, table, s.pc) == Some(words) && Holds(s.mem, s.pc, words)
  {
    EmittedFromZero(lines, table, image, s.pc, op);
    var a: nat := s.pc;
    words := image[a..a + Size(op)];
    WordsHeld(lines, image, s.mem, a, op, words);
  }

  lemma StoreKeeps(lines: seq<Line>, image: seq<Bits>, op: Op, table: Symbols, s: State)
    requires Ok(s) && Intact(lines, image, s.mem) && !HitsCode(lines, op, s)
    ensures Intact(lines, image, SourceStep(op, table, s).mem)
  {
    var s' := SourceStep(op, table, s);
    if op.Sw? {
      var a := s.regs[R(op.ry)] + N(op.off);
      assert s'.mem == s.mem[a := s.regs[R(op.rx)]];
    } else {
      assert s'.mem == s.mem;
    }
  }

  lemma OneTurn(lines: seq<Line>, table: Symbols, image: seq<Bits>, s: State) returns (s1: State)
    requires Emit(lines, table, 0) == Some(image) && Intact(lines, image, s.mem)
    requires SourceTurn(lines, table, s).Some?
    ensures Some(s1) == SourceTurn(lines, table, s) == RunFor(s, TurnTicks(lines, s)) && Intact(lines, image, s1.mem)
  {
    if s.halted {
      s1 := s;
    } else {
      var op := OpAt(lines, 0, s.pc).value;
      var words := HeldAt(lines, table, image, s, op);
      s1 := StepSource(op, table, s, words);
      StoreKeeps(lines, image, op, table, s);
    }
  }

  // ----- simulation of one machine by another -----

  /** From s a turn of the one machine is `cost` steps of the other, and keeps the invariant. */
  ghost predicate Follows(turn: State -> Option<State>, cost: State -> nat, step: State -> Option<State>, s: State,
      inv: State -> bool)
  {
    inv(s) && turn(s).Some? ==> Iterate(step, s, cost(s)) == turn(s) && inv(turn(s).value)
  }

  lemma {:induction false} Simulation(turn: State -> Option<State>, cost: State -> nat, step: State -> Option<State>,
      s: State, inv: State -> bool, n: nat) returns (e: State)
    requires inv(s) && Iterate(turn, s, n).Some? && forall s :: Follows(turn, cost, step, s, inv)
    ensures Iterate(turn, s, n) == Some(e) && inv(e)
    ensures Iterate(step, s, Total(turn, cost, s, n)) == Some(e)
    decreases n
  {
    if n == 0 {
      e := s;
    } else {
      assert Follows(turn, cost, step, s, inv);
      var s1 := turn(s).value;
      e := Simulation(turn, cost, step, s1, inv, n - 1);
      IterateJoin(step, s, cost(s), Total(turn, cost, s1, n - 1));
    }
  }

  ghost function IntactIn(lines: seq<Line>, image: seq<Bits>): State -> bool
  {
    (s: State) => Intact(lines, image, s.mem)
  }

  lemma MachineFollows(lines: seq<Line>, table: Symbols, image: seq<Bits>, s: State)
    requires Emit(lines, table, 0) == Some(image)
    ensures Follows(Source(lines, table), Cost(lines), Turn, s, IntactIn(lines, image))
  {
    if Intact(lines, image, s.mem) && SourceTurn(lines, table, s).Some? {
      var s1 := OneTurn(lines, table, image, s);
    }
  }

  /** Forward simulation over runs of any length: the machine reaches exactly the source program's state. */
  lemma ForwardSimulation(lines: seq<Line>, table: Symbols, image: seq<Bits>, s: State, n: nat)
      returns (e: State)
    requires Emit(lines, table, 0) == Some(image) && Intact(lines, image, s.mem)
    requires SourceRun(lines, table, s, n).Some?
    ensures SourceRun(lines, table, s, n) == Some(e)
    ensures RunFor(s, RunTicks(lines, table, s, n)) == Some(e)
    ensures Intact(lines, image, e.mem)
  {
    forall t
      ensures Follows(Source(lines, table), Cost(lines), Turn, t, IntactIn(lines, image))
    {
      MachineFollows(lines, table, image, t);
    }
    e := Simulation(Source(lines, table), Cost(lines), Turn, s, IntactIn(lines, image), n);
  }

  /** Assembling a program with both passes, loading it and running it. */
  lemma AssembledProgramRuns(lines: seq<Line>, image: seq<Bits>, regs: seq<int>, n: nat)
    requires |regs| == 16
    requires Emit(lines, Pass1(lines, 0, map[]).1, 0) == Some(image)
    requires SourceRun(lines, Pass1(lines, 0, map[]).1, State(0, regs, Load(image), false), n).Some?
    ensures var table, s := Pass1(lines, 0, map[]).1, State(0, regs, Load(image), false);
            RunFor(s, RunTicks(lines, table, s, n)) == SourceRun(lines, table, s, n)
  {
    var table := Pass1(lines, 0, map[]).1;
    LoadIsIntact(lines, table, image);
    var e := ForwardSimulation(lines, table, image, State(0, regs, Load(image), false), n);
  }

  // ----- labels -----

  lemma {:induction false} OpAfter(lines: seq<Line>, pc: nat, k: nat, j: nat)
    requires k <= j < |lines| && Advance2(lines[j]) > 0
    requires forall i :: k <= i < j ==> Advance2(lines[i]) == 0
    ensures OpAt(lines, pc, pc + Words(lines[..k])) == lines[j].op
    decreases |lines|
  {
    if j == 0 {
      assert lines[..0] == [];
    } else {
      var w := Advance2(lines[0]);
      forall i | k - 1 <= i < j - 1 && 0 <= i
        ensures Advance2(lines[1..][i]) == 0
      {
        assert lines[1..][i] == lines[i + 1];
      }
      assert lines[1..][j - 1] == lines[j];
      if k == 0 {
        OpAfter(lines[1..], pc + w, 0, j - 1);
        assert lines[..0] == [] && lines[1..][..0] == [];
      } else {
        OpAfter(lines[1..], pc + w, k - 1, j - 1);
        assert lines[..k][1..] == lines[1..][..k - 1];
      }
    }
  }

  /** Line k is the last to define `name`, and line j holds the first instruction from there on. */
  ghost predicate Names(lines: seq<Line>, name: string, k: nat, j: nat)
  {
    && k <= j < |lines| && Defines(lines[k], name) && Advance2(lines[j]) > 0
    && (forall i :: k < i < |lines| ==> !Defines(lines[i], name))
    && (forall i :: k <= i < j ==> Advance2(lines[i]) == 0)
  }

  /** A label stands for the address of the instruction after it exactly when no bare line comes before it. */
  lemma LabelIsAddress(lines: seq<Line>, name: string, k: nat, j: nat)
    requires Names(lines, name, k, j)
    ensures var table := Pass1(lines, 0, map[]).1;
            && name in table && OpAt(lines, 0, Words(lines[..k])) == lines[j].op
            && (table[name] == Words(lines[..k]) <==> Bares(lines[..k]) == 0)
  {
    SymbolValue(lines, 0, map[], k, name);
    OpAfter(lines, 0, k, j);
  }

  /** A taken branch to a label in reach goes on with the instruction after the label. */
  lemma BranchLandsOnLabel(lines: seq<Line>, s: State, rx: string, ry: string, off: Offset, k: nat, j: nat)
    requires Ok(s) && Names(lines, off.text, k, j) && Bares(lines[..k]) == 0
    requires s.regs[R(rx)] == s.regs[R(ry)] && -16 <= Words(lines[..k]) - (s.pc + 1) < 16
    ensures var s' := SourceStep(Beq(rx, ry, off), Pass1(lines, 0, map[]).1, s);
            OpAt(lines, 0, s'.pc) == lines[j].op
  {
    LabelIsAddress(lines, off.text, k, j);
  }

  /** With a bare line in front, the same branch goes one word too far. */
  lemma BareLineShiftsLabels()
    ensures var lines := [Text(None, None), Text(Some("start"), None), Text(None, Some(Noop)), Text(None, Some(Halt))];
            && OpAt(lines, 0, 0) == Some(Noop)
            && Pass1(lines, 0, map[]).1 == map["start" := 1] && OpAt(lines, 0, 1) == Some(Halt)
  {
    var lines := [Text(None, None), Text(Some("start"), None), Text(None, Some(Noop)), Text(None, Some(Halt))];
    var l1, l2, l3 := lines[1..], lines[1..][1..], lines[1..][1..][1..];
    assert l1 == [Text(Some("start"), None), Text(None, Some(Noop)), Text(None, Some(Halt))];
    assert l2 == [Text(None, Some(Noop)), Text(None, Some(Halt))] && l3 == [Text(None, Some(Halt))] && l3[1..] == [];
    var table := map["start" := 1];
    assert Pass1(l3, 2, table) == Pass1(l3[1..], 3, table) == (3, table);
    assert Pass1(l2, 1, table) == Pass1(l3, 2, table);
    assert OpAt(l2, 0, 0) == Some(Noop) && OpAt(l3, 1, 1) == Some(Halt);
  }
}
