/** The scheduler and simulator as they run: process table, linked ready queue and CPU tables updated in place. */
module SchedSim {
  import opened Basics
  import opened SchedModel
  import opened SchedInvariant
  import opened SchedTermination

  /** What a handler relies on when it touches the queue: only ready processes are queued, only running ones current. */
  ghost predicate Tidy(s: Sim)
  {
    && (forall k :: 0 <= k < |s.ready| ==> s.ready[k] < |s.procs| && s.procs[s.ready[k]].state == Ready)
    && (forall n :: 0 <= n < |s.current| && s.current[n].Some?
            ==> s.current[n].value < |s.procs| && s.procs[s.current[n].value].state == Running)
  }

  lemma InvIsTidy(s: Sim)
    requires Inv(s)
    ensures Tidy(s)
  {
    forall k | 0 <= k < |s.ready|
      ensures s.ready[k] < |s.procs| && s.procs[s.ready[k]].state == Ready
    {
      assert s.ready[k] in s.ready;
    }
  }

  lemma TidyPcb(s: Sim, p: nat, pcb: Pcb)
    requires Tidy(s) && p < |s.procs| && pcb.state == s.procs[p].state
    ensures Tidy(SetPcb(s, p, pcb))
  {
  }

  lemma RunningIsReady(s: Sim, n: nat)
    requires Inv(s) && n < |s.cpu| && s.cpu[n].Some?
    ensures Tidy(s) && OnCpu(s, n) && Simulates(s, n) && s.cpu[n] == s.current[n] && HasOp(s, s.cpu[n].value, OpCpu)
    ensures s.procs[s.cpu[n].value].pc + 1 < |s.procs[s.cpu[n].value].ops|
  {
    InvIsTidy(s);
    RunningAtCpuOp(s, n);
    NextOpGood(s.procs[s.cpu[n].value]);
  }

  lemma IoIsReady(s: Sim)
    requires Inv(s)
    ensures Tidy(s) && (s.io != [] ==> s.io[0].pid < |s.procs| && s.procs[s.io[0].pid].state == Waiting)
  {
    InvIsTidy(s);
    if s.io != [] {
      QueueWoken(s, s.io[0].pid);
    }
  }

  lemma NewIsReady(s: Sim)
    requires Inv(s)
    ensures Tidy(s) && (s.created < |s.procs| ==> s.procs[s.created].state == New)
  {
    InvIsTidy(s);
  }

  /** The `next` pointer of element k of the queue leads to the element after it, or nowhere from the last. */
  predicate LinkAt(next: seq<Option<nat>>, ready: seq<nat>, k: nat)
    requires k < |ready|
  {
    ready[k] < |next| && next[ready[k]] == if k + 1 < |ready| then Some(ready[k + 1]) else None
  }

  /** The `next` pointers lead through the queue in order and stop at its end. */
  ghost predicate Links(next: seq<Option<nat>>, ready: seq<nat>)
  {
    Distinct(ready) && forall k :: 0 <= k < |ready| ==> LinkAt(next, ready, k)
  }

  lemma DropFirst(next: seq<Option<nat>>, ready: seq<nat>)
    requires Links(next, ready) && ready != []
    ensures LinkAt(next, ready, 0) && Links(next[ready[0] := None], ready[1..])
  {
    assert LinkAt(next, ready, 0);
    var rest, next' := ready[1..], next[ready[0] := None];
    forall k | 0 <= k < |rest|
      ensures LinkAt(next', rest, k)
    {
      assert LinkAt(next, ready, k + 1);
    }
  }

  lemma LinkLast(next: seq<Option<nat>>, ready: seq<nat>, p: nat)
    requires Links(next, ready) && p < |next| && p !in ready
    ensures ready == [] ==> Links(next[p := None], [p])
    ensures ready != [] ==> ready[|ready| - 1] < |next|
                            && Links(next[ready[|ready| - 1] := Some(p)][p := None], ready + [p])
  {
    if ready != [] {
      var last := |ready| - 1;
      assert LinkAt(next, ready, last);
      var next', ready' := next[ready[last] := Some(p)][p := None], ready + [p];
      forall k | 0 <= k < |ready'|
        ensures LinkAt(next', ready', k)
      {
        if k <= last {
          assert LinkAt(next, ready, k) && ready[k] in ready;
        }
      }
    }
  }

  /** The state after k steps. */
  ghost function Nth(step: (Sim, nat) -> Sim, s: Sim, k: nat): Sim
  {
    if k == 0 then s else step(Nth(step, s, k - 1), k - 1)
  }

  ghost function Rounds(gaps: nat -> Gaps): (Sim, nat) -> Sim
  {
    (s: Sim, k: nat) => if Sized(s) then SchedModel.Tick(s, gaps(k)) else s
  }

  /** The state after k rounds, when `gaps` tells what the idle CPUs do in each. */
  ghost function After(s: Sim, gaps: nat -> Gaps, k: nat): Sim
  {
    Nth(Rounds(gaps), s, k)
  }

  lemma AfterNext(s: Sim, gaps: nat -> Gaps, k: nat, now: Sim)
    requires Sized(now) && After(s, gaps, k) == now
    ensures After(s, gaps, k + 1) == SchedModel.Tick(now, gaps(k))
  {
  }

  lemma SomeGapsSettle(s: Sim)
    requires Inv(s)
    ensures exists gaps: Gaps :: Settled(SchedModel.Tick(s, gaps))
  {
    var gaps := SettlingRound(s);
  }

  lemma TickInv(s: Sim, gaps: Gaps)
    requires Inv(s)
    ensures Inv(SchedModel.Tick(s, gaps))
  {
    var s' := TickKeeps(s, gaps);
  }

  ghost function SettlingGaps(s: Sim): (gaps: Gaps)
    requires Inv(s)
    ensures Settled(SchedModel.Tick(s, gaps))
  {
    SomeGapsSettle(s);
    var gaps :| Settled(SchedModel.Tick(s, gaps));
    gaps
  }

  ghost function GapsOr(s: Sim): Gaps
  {
    if Inv(s) then SettlingGaps(s) else []
  }

  /** Rounds in each of which the idle CPUs settle the queue. */
  ghost function SettlingRounds(): (Sim, nat) -> Sim
  {
    (s: Sim, k: nat) => if Inv(s) then SchedModel.Tick(s, GapsOr(s)) else s
  }

  ghost predicate KeptBy(step: (Sim, nat) -> Sim, good: Sim -> bool, s: Sim, k: nat)
  {
    good(s) ==> good(step(s, k))
  }

  lemma {:induction false} NthKeeps(step: (Sim, nat) -> Sim, good: Sim -> bool, s: Sim, k: nat)
    requires good(s) && forall t, j: nat :: KeptBy(step, good, t, j)
    ensures good(Nth(step, s, k))
  {
    if k > 0 {
      NthKeeps(step, good, s, k - 1);
      assert KeptBy(step, good, Nth(step, s, k - 1), k - 1);
    }
  }

  ghost function InOrder(): Sim -> bool
  {
    (s: Sim) => Inv(s) && Settled(s)
  }

  lemma RoundStaysInOrder(s: Sim, k: nat)
    ensures KeptBy(SettlingRounds(), InOrder(), s, k)
  {
    if Inv(s) {
      TickInv(s, SettlingGaps(s));
    }
  }

  lemma StaysSettled(s: Sim, k: nat)
    requires Inv(s) && Settled(s)
    ensures InOrder()(Nth(SettlingRounds(), s, k))
  {
    forall t, j: nat
      ensures KeptBy(SettlingRounds(), InOrder(), t, j)
    {
      RoundStaysInOrder(t, j);
    }
    NthKeeps(SettlingRounds(), InOrder(), s, k);
  }

  /** Two ways to step that agree on the states of one of them go through the same states. */
  lemma {:induction false} SameNth(f: (Sim, nat) -> Sim, g: (Sim, nat) -> Sim, s: Sim, k: nat)
    requires forall j: nat :: f(Nth(f, s, j), j) == g(Nth(f, s, j), j)
    ensures Nth(f, s, k) == Nth(g, s, k)
  {
    if k > 0 {
      SameNth(f, g, s, k - 1);
    }
  }

  /** The supervisor's assumption about the idle CPUs can be met from every settled state, the first one in
      particular. */
  lemma AlwaysSettles(s: Sim) returns (gaps: nat -> Gaps)
    requires Inv(s) && Settled(s)
    ensures forall k: nat :: Settled(After(s, gaps, k))
  {
    var f := SettlingRounds();
    gaps := k => GapsOr(Nth(f, s, k));
    forall j: nat
      ensures f(Nth(f, s, j), j) == Rounds(gaps)(Nth(f, s, j), j)
    {
      StaysSettled(s, j);
    }
    forall k: nat
      ensures Settled(After(s, gaps, k))
    {
      SameNth(f, Rounds(gaps), s, k);
      StaysSettled(s, k);
    }
  }

  class Simulator {
    const mode: Mode
    const slice: int
    /** What the fields below amount to. */
    ghost var sim: Sim
    /** The process table. */
    const procs: array<Pcb>
    /** The ready queue: `next` links processes from `head` to `tail`. */
    const next: array<Option<nat>>
    var head: Option<nat>
    var tail: Option<nat>
    /** The scheduler's table of running processes, and the simulator's with its preemption timers. */
    const current: array<Option<nat>>
    const cpu: array<Option<nat>>
    const timer: array<int>
    var io: seq<IoRequest>
    var time: nat
    var created: nat
    var terminated: nat

    ghost predicate Linked()
      reads this, next
    {
      && Links(next[..], sim.ready)
      && head == (if sim.ready == [] then None else Some(sim.ready[0]))
      && tail == (if sim.ready == [] then None else Some(sim.ready[|sim.ready| - 1]))
    }

    ghost predicate Valid()
      reads this, procs, next, current, cpu, timer
    {
      && next != current && next != cpu && current != cpu
      && next.Length == procs.Length && current.Length == cpu.Length == timer.Length
      && Linked()
      && sim == Sim(mode, slice, procs[..], sim.ready, current[..], cpu[..], timer[..], io, time, created, terminated)
    }

    /** start_simulator, for the given programs and priorities. */
    constructor (mode: Mode, slice: int, programs: seq<seq<Op>>, priorities: seq<nat>, cpuCount: nat)
      requires |priorities| == |programs| && cpuCount >= 1
      requires forall p :: 0 <= p < |programs| ==> GoodOps(programs[p])
      ensures Valid() && Initial(sim) && fresh(procs) && fresh(next) && fresh(current) && fresh(cpu) && fresh(timer)
      ensures |sim.procs| == |programs| && |sim.cpu| == cpuCount && sim.mode == mode && sim.slice == slice
      ensures forall p :: 0 <= p < |programs| ==> sim.procs[p] == Pcb(New, 0, programs[p], priorities[p])
    {
      this.mode, this.slice := mode, slice;
      procs := new Pcb[|programs|](i requires 0 <= i < |programs| && |priorities| == |programs| =>
        Pcb(New, 0, programs[i], priorities[i]));
      next := new Option<nat>[|programs|](_ => None);
      current := new Option<nat>[cpuCount](_ => None);
      cpu := new Option<nat>[cpuCount](_ => None);
      timer := new int[cpuCount](_ => -1);
      head, tail, io, time, created, terminated := None, None, [], 0, 0, 0;
      new;
      sim := Sim(mode, slice, procs[..], [], current[..], cpu[..], timer[..], [], 0, 0, 0);
    }

    // ----- single updates -----

    method GetNextProcess() returns (p: Option<nat>)
      requires Valid()
      modifies this`head, this`tail, this`sim, next
      ensures Valid()
      ensures p == if old(sim).ready == [] then None else Some(old(sim).ready[0])
      ensures p.Some? ==> p.value < procs.Length
      ensures sim == old(sim).(ready := if old(sim).ready == [] then [] else old(sim).ready[1..])
    {
      p := head;
      if p.Some? {
        ghost var ready := sim.ready;
        DropFirst(next[..], ready);
        head := next[p.value];
        if head.None? {
          tail := None;
        }
        next[p.value] := None;
        sim := sim.(ready := ready[1..]);
      }
    }

    method AddProcess(p: nat)
      requires Valid() && p < procs.Length && p !in sim.ready
      modifies this`head, this`tail, this`sim, next
      ensures Valid() && sim == old(sim).(ready := old(sim).ready + [p])
    {
      ghost var links, ready := next[..], sim.ready;
      LinkLast(links, ready, p);
      match tail {
        case None => head := Some(p);
        case Some(last) => next[last] := Some(p);
      }
      tail := Some(p);
      next[p] := None;
      assert next[..] == if ready == [] then links[p := None] else links[ready[|ready| - 1] := Some(p)][p := None];
      sim := sim.(ready := ready + [p]);
    }

    method SetPcb(p: nat, pcb: Pcb)
      requires Valid() && p < procs.Length
      modifies this`sim, procs
      ensures Valid() && sim == SchedModel.SetPcb(old(sim), p, pcb)
    {
      procs[p] := pcb;
      sim := SchedModel.SetPcb(sim, p, pcb);
    }

    method SetState(p: nat, st: ProcState)
      requires Valid() && p < procs.Length
      modifies this`sim, procs
      ensures Valid() && sim == SchedModel.SetState(old(sim), p, st)
    {
      SetPcb(p, procs[p].(state := st));
    }

    method SetCurrent(n: nat, p: Option<nat>)
      requires Valid() && n < current.Length
      modifies this`sim, current
      ensures Valid() && sim == old(sim).(current := old(sim).current[n := p])
    {
      current[n] := p;
      sim := sim.(current := sim.current[n := p]);
    }

    method ContextSwitch(n: nat, p: Option<nat>)
      requires Valid() && n < cpu.Length
      modifies this`sim, cpu, timer
      ensures Valid() && sim == SchedModel.ContextSwitch(old(sim), n, p)
    {
      cpu[n] := p;
      timer[n] := slice;
      sim := SchedModel.ContextSwitch(sim, n, p);
    }

    method CountTimer(n: nat)
      requires Valid() && n < timer.Length
      modifies this`sim, timer
      ensures Valid() && sim == TimerTick(old(sim), n)
    {
      timer[n] := OneLess(timer[n]);
      sim := TimerTick(sim, n);
    }

    method SetIo(requests: seq<IoRequest>)
      requires Valid()
      modifies this`sim, this`io
      ensures Valid() && sim == old(sim).(io := requests)
    {
      io := requests;
      sim := sim.(io := requests);
    }

    method CountTerminated()
      requires Valid()
      modifies this`sim, this`terminated
      ensures Valid() && sim == old(sim).(terminated := old(sim).terminated + 1)
    {
      var n := terminated + 1;
      terminated := n;
      sim := sim.(terminated := n);
    }

    method CountCreated()
      requires Valid()
      modifies this`sim, this`created
      ensures Valid() && sim == old(sim).(created := old(sim).created + 1)
    {
      var n := created + 1;
      created := n;
      sim := sim.(created := n);
    }

    // ----- student.c -----

    method ScheduleWorker(n: nat)
      requires Valid() && n < cpu.Length && (current[n].Some? ==> current[n].value < procs.Length)
      modifies this, next, procs, current, cpu, timer
      ensures Valid() && sim == SchedModel.ScheduleWorker(old(sim), n)
    {
      if current[n].Some? && procs[current[n].value].state == Running {
        return;
      }
      var p := GetNextProcess();
      if p.Some? {
        SetState(p.value, Running);
      }
      SetCurrent(n, p);
      ContextSwitch(n, p);
    }

    method MakeReady(p: nat)
      requires Valid() && p < procs.Length && p !in sim.ready
      modifies this, next, procs, current, cpu, timer
      ensures Valid() && sim == SchedModel.MakeReady(old(sim), p)
    {
      SetState(p, Ready);
      AddProcess(p);
    }

    method Preempt(n: nat)
      requires Valid() && n < cpu.Length && Tidy(sim)
      modifies this, next, procs, current, cpu, timer
      ensures Valid() && sim == SchedModel.Preempt(old(sim), n)
    {
      if current[n].Some? {
        MakeReady(current[n].value);
      }
      ScheduleWorker(n);
    }

    method Yield(n: nat)
      requires Valid() && OnCpu(sim, n)
      modifies this, next, procs, current, cpu, timer
      ensures Valid() && sim == SchedModel.Yield(old(sim), n)
    {
      SetState(current[n].value, Waiting);
      ScheduleWorker(n);
    }

    method Terminate(n: nat)
      requires Valid() && OnCpu(sim, n)
      modifies this, next, procs, current, cpu, timer
      ensures Valid() && sim == SchedModel.Terminate(old(sim), n)
    {
      TerminateIs(sim, n);
      CountTerminated();
      SetState(current[n].value, Terminated);
      ScheduleWorker(n);
    }

    method ForcePreempt(n: Option<nat>)
      requires Valid() && Tidy(sim)
      modifies this, next, procs, current, cpu, timer
      ensures Valid() && sim == SchedModel.ForcePreempt(old(sim), n)
    {
      if n.Some? && n.value < cpu.Length && cpu[n.value].Some? {
        Preempt(n.value);
      }
    }

    method FindVictim(priority: nat) returns (best: Option<nat>)
      requires Valid() && Tidy(sim)
      ensures best == Victim(sim, 0, priority, None)
    {
      best := None;
      var least: nat := priority;
      var i := 0;
      while i < cpu.Length
        invariant 0 <= i <= cpu.Length
        invariant Victim(sim, 0, priority, None) == Victim(sim, i, least, best)
      {
        if current[i].None? || procs[current[i].value].state != Running {
          return Some(i);
        }
        if least > procs[current[i].value].priority {
          least := procs[current[i].value].priority;
          best := Some(i);
        }
        i := i + 1;
      }
    }

    method WakeUp(p: nat)
      requires Valid() && p < procs.Length && Tidy(sim)
      requires procs[p].state != Ready && procs[p].state != Running
      modifies this, next, procs, current, cpu, timer
      ensures Valid() && sim == SchedModel.WakeUp(old(sim), p)
    {
      MakeReady(p);
      if mode == Priority {
        var n := FindVictim(procs[p].priority);
        ForcePreempt(n);
      }
    }
  
    // ----- os-sim.c -----

    method NextOp(n: nat)
      requires Valid() && OnCpu(sim, n) && Simulates(sim, n)
      requires procs[cpu[n].value].pc + 1 < |procs[cpu[n].value].ops|
      modifies this, next, procs, current, cpu, timer
      ensures Valid() && sim == SchedModel.NextOp(old(sim), n)
    {
      var p := cpu[n].value;
      var pcb := procs[p];
      SetPcb(p, Advance(pcb));
      match Upcoming(pcb).kind {
        case OpIo =>
          SetIo(io + [IoRequest(p, Upcoming(pcb).time)]);
          Yield(n);
        case OpTerminate =>
          Terminate(n);
        case OpCpu =>
      }
    }

    method Compute(n: nat, p: nat, pcb: Pcb)
      requires Valid() && p < procs.Length && n < timer.Length && Tidy(sim) && pcb.state == procs[p].state
      modifies this`sim, procs, timer
      ensures Valid() && Tidy(sim)
      ensures sim == TimerTick(SchedModel.SetPcb(old(sim), p, pcb), n)
    {
      TidyPcb(sim, p, pcb);
      SetPcb(p, pcb);
      CountTimer(n);
    }

    method SimulateProcess(n: nat)
      requires Valid() && OnCpu(sim, n) && Simulates(sim, n) && cpu[n] == current[n]
      requires Tidy(sim) && HasOp(sim, cpu[n].value, OpCpu)
      requires procs[cpu[n].value].pc + 1 < |procs[cpu[n].value].ops|
      modifies this, next, procs, current, cpu, timer
      ensures Valid() && sim == SchedModel.SimulateProcess(old(sim), n)
    {
      var p := cpu[n].value;
      var pcb := procs[p];
      if pcb.ops[pcb.pc].time > 0 {
        Compute(n, p, CountDown(pcb));
        if timer[n] == 0 {
          Preempt(n);
        }
      } else {
        NextOp(n);
      }
    }

    method SimulateIo()
      requires Valid() && Tidy(sim)
      requires sim.io != [] ==> sim.io[0].pid < |sim.procs| && sim.procs[sim.io[0].pid].state == Waiting
      modifies this, next, procs, current, cpu, timer
      ensures Valid() && sim == SchedModel.SimulateIo(old(sim))
    {
      if io == [] {
        return;
      }
      if io[0].time == 0 {
        var p := io[0].pid;
        SetIo(io[1..]);
        TidyPcb(sim, p, Advance(procs[p]));
        SetPcb(p, Advance(procs[p]));
        WakeUp(p);
      } else {
        SetIo(io[0 := CountDownIo(io[0])]);
      }
    }

    method SimulateCreat()
      requires Valid() && Tidy(sim)
      requires sim.created < |sim.procs| ==> sim.procs[sim.created].state == New
      modifies this, next, procs, current, cpu, timer
      ensures Valid() && sim == SchedModel.SimulateCreat(old(sim))
    {
      if time % 10 == 0 && created < procs.Length {
        WakeUp(created);
        CountCreated();
      }
    }

    method IdleStep(n: nat)
      requires Valid() && Inv(sim)
      modifies this, next, procs, current, cpu, timer
      ensures Valid() && sim == SchedModel.IdleStep(old(sim), n) && Inv(sim)
    {
      ghost var s' := IdleStepKeeps(sim, n);
      if n < cpu.Length && cpu[n].None? {
        InvIsTidy(sim);
        ScheduleWorker(n);
      }
    }

    /** Idle CPUs get scheduled between the supervisor's steps, in whatever order the threads happen to run. */
    method Dispatch(picks: seq<nat>)
      requires Valid() && Inv(sim)
      modifies this, next, procs, current, cpu, timer
      ensures Valid() && sim == SchedModel.Dispatch(old(sim), picks) && Inv(sim)
    {
      var i := 0;
      while i < |picks|
        invariant 0 <= i <= |picks| && Valid() && Inv(sim)
        invariant SchedModel.Dispatch(sim, picks[i..]) == SchedModel.Dispatch(old(sim), picks)
      {
        assert picks[i..][1..] == picks[i + 1..] && picks[i..][0] == picks[i];
        IdleStep(picks[i]);
        i := i + 1;
      }
    }

    method CpuPhase(n: nat, gaps: Gaps)
      requires Valid() && Inv(sim) && n < cpu.Length
      modifies this, next, procs, current, cpu, timer
      ensures Valid() && sim == SchedModel.CpuPhase(old(sim), n, gaps) && Inv(sim)
    {
      if cpu[n].Some? {
        RunningIsReady(sim, n);
        ghost var s' := ProcessKeeps(sim, n);
        SimulateProcess(n);
      }
      Dispatch(Gap(gaps, n));
    }

    method SimulateCpus(gaps: Gaps)
      requires Valid() && Inv(sim)
      modifies this, next, procs, current, cpu, timer
      ensures Valid() && sim == SchedModel.SimulateCpus(old(sim), 0, gaps) && Inv(sim)
    {
      var n := 0;
      while n < cpu.Length
        invariant 0 <= n <= cpu.Length && Valid() && Inv(sim)
        invariant SchedModel.SimulateCpus(sim, n, gaps) == SchedModel.SimulateCpus(old(sim), 0, gaps)
      {
        CpuPhase(n, gaps);
        n := n + 1;
      }
    }

    method IoPhase(gaps: Gaps)
      requires Valid() && Inv(sim)
      modifies this, next, procs, current, cpu, timer
      ensures Valid() && sim == SchedModel.IoPhase(old(sim), gaps) && Inv(sim)
    {
      ghost var s' := IoTickKeeps(sim);
      IoIsReady(sim);
      SimulateIo();
      Dispatch(Gap(gaps, cpu.Length));
    }

    method CreatPhase(gaps: Gaps)
      requires Valid() && Inv(sim)
      modifies this, next, procs, current, cpu, timer
      ensures Valid() && sim == SchedModel.CreatPhase(old(sim), gaps) && Inv(sim)
    {
      ghost var s' := CreatKeeps(sim);
      NewIsReady(sim);
      SimulateCreat();
      Dispatch(Gap(gaps, cpu.Length + 1));
    }

    method Clock()
      requires Valid() && Inv(sim)
      modifies this`sim, this`time
      ensures Valid() && sim == SchedModel.Clock(old(sim)) && Inv(sim)
    {
      ClockKeeps(sim);
      time := time + 1;
      sim := SchedModel.Clock(sim);
    }

    /** One round of simulator_supervisor_thread. */
    method Tick(gaps: Gaps)
      requires Valid() && Inv(sim)
      modifies this, next, procs, current, cpu, timer
      ensures Valid() && sim == SchedModel.Tick(old(sim), gaps) && Inv(sim)
    {
      SimulateCpus(gaps);
      IoPhase(gaps);
      CreatPhase(gaps);
      Clock();
    }
  
    /** simulator_supervisor_thread: rounds until every process has terminated. */
    method Supervise(gaps: nat -> Gaps) returns (rounds: nat)
      requires Valid() && Inv(sim) && OnTime(sim) && |sim.cpu| >= 1
      requires forall k: nat :: Settled(After(sim, gaps, k))
      modifies this, next, procs, current, cpu, timer
      ensures Valid() && sim == After(old(sim), gaps, rounds) && AllOver(sim) && rounds <= Measure(old(sim))
    {
      rounds := 0;
      while terminated < procs.Length
        invariant Valid() && Inv(sim) && OnTime(sim) && |sim.cpu| == |old(sim).cpu|
        invariant sim == After(old(sim), gaps, rounds)
        invariant rounds + Measure(sim) <= Measure(old(sim))
        decreases Measure(sim)
      {
        AfterNext(old(sim), gaps, rounds, sim);
        RoundShrinks(sim, gaps(rounds));
        TickOnTime(sim, gaps(rounds));
        Tick(gaps(rounds));
        rounds := rounds + 1;
      }
      FinishedIsOver(sim);
    }
  }
}
