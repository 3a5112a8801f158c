/** The CPU scheduler of cs_2200/scheduling/prj6/student.c and the simulator of os-sim.c that drives it, as functions
    on one state.  A handler, its context_switch and the CPU thread's return to its loop are one step. */
module SchedModel {
  import opened Basics

  datatype OpKind = OpCpu | OpIo | OpTerminate
  datatype Op = Op(kind: OpKind, time: nat)

  datatype ProcState = New | Ready | Running | Waiting | Terminated

  /** pcb_t; `pc` indexes the operation list, whose times the simulator counts down in place. */
  datatype Pcb = Pcb(state: ProcState, pc: nat, ops: seq<Op>, priority: nat)

  datatype IoRequest = IoRequest(pid: nat, time: nat)

  datatype Mode = Fifo | Robin | Priority

  /** `current` is the scheduler's table and `cpu` the simulator's; `timer` is the preemption timer of each CPU. */
  datatype Sim = Sim(mode: Mode, slice: int, procs: seq<Pcb>, ready: seq<nat>, current: seq<Option<nat>>,
                     cpu: seq<Option<nat>>, timer: seq<int>, io: seq<IoRequest>, time: nat, created: nat,
                     terminated: nat)

  // ----- student.c -----

  function SetState(s: Sim, p: nat, st: ProcState): Sim
    requires p < |s.procs|
  {
    s.(procs := s.procs[p := s.procs[p].(state := st)])
  }

  predicate Sized(s: Sim)
  {
    |s.current| == |s.cpu| == |s.timer|
  }

  function ContextSwitch(s: Sim, n: nat, p: Option<nat>): Sim
    requires Sized(s) && n < |s.cpu|
  {
    s.(cpu := s.cpu[n := p], timer := s.timer[n := s.slice])
  }

  /** A process number out of range stands for no process at all; the placement invariant rules it out. */
  predicate Runs(s: Sim, p: Option<nat>)
  {
    p.Some? && p.value < |s.procs| && s.procs[p.value].state == Running
  }

  function ScheduleWorker(s: Sim, n: nat): (s': Sim)
    requires Sized(s) && n < |s.cpu|
    ensures Sized(s') && |s'.cpu| == |s.cpu| && |s'.procs| == |s.procs|
    ensures s'.time == s.time && s'.created == s.created && s'.io == s.io
  {
    if Runs(s, s.current[n]) then s
    else if s.ready == [] || s.ready[0] >= |s.procs| then ContextSwitch(s.(current := s.current[n := None]), n, None)
    else
      var p := s.ready[0];
      var s1 := SetState(s.(ready := s.ready[1..]), p, Running);
      ContextSwitch(s1.(current := s1.current[n := Some(p)]), n, Some(p))
  }

  function MakeReady(s: Sim, p: nat): Sim
    requires p < |s.procs|
  {
    var s1 := SetState(s, p, Ready);
    s1.(ready := s1.ready + [p])
  }

  predicate OnCpu(s: Sim, n: nat)
    requires Sized(s)
  {
    n < |s.cpu| && s.current[n].Some? && s.current[n].value < |s.procs|
  }

  predicate Simulates(s: Sim, n: nat)
    requires Sized(s)
  {
    n < |s.cpu| && s.cpu[n].Some? && s.cpu[n].value < |s.procs|
  }

  function Preempt(s: Sim, n: nat): (s': Sim)
    requires Sized(s) && n < |s.cpu|
    ensures Sized(s') && |s'.cpu| == |s.cpu| && |s'.procs| == |s.procs|
    ensures s'.time == s.time && s'.created == s.created && s'.io == s.io
  {
    ScheduleWorker(if OnCpu(s, n) then MakeReady(s, s.current[n].value) else s, n)
  }

  function Yield(s: Sim, n: nat): (s': Sim)
    requires Sized(s) && OnCpu(s, n)
    ensures Sized(s') && |s'.cpu| == |s.cpu| && |s'.procs| == |s.procs|
    ensures s'.time == s.time && s'.created == s.created && s'.io == s.io
  {
    ScheduleWorker(SetState(s, s.current[n].value, Waiting), n)
  }

  function Terminate(s: Sim, n: nat): (s': Sim)
    requires Sized(s) && OnCpu(s, n)
    ensures Sized(s') && |s'.cpu| == |s.cpu| && |s'.procs| == |s.procs|
    ensures s'.time == s.time && s'.created == s.created && s'.io == s.io
  {
    var s1 := s.(terminated := s.terminated + 1);
    ScheduleWorker(SetState(s1, s1.current[n].value, Terminated), n)
  }

  /** The CPU that wake_up preempts in priority mode: the first idle one, or else the one running the lowest
      priority below `least`. */
  function Victim(s: Sim, i: nat, least: nat, best: Option<nat>): Option<nat>
    requires Sized(s)
    decreases |s.cpu| - i
  {
    if i >= |s.cpu| then best
    else if !Runs(s, s.current[i]) then Some(i)
    else
      var q := s.procs[s.current[i].value].priority;
      if q < least then Victim(s, i + 1, q, Some(i)) else Victim(s, i + 1, least, best)
  }

  /** force_preempt only acts on a CPU that is running a process. */
  function ForcePreempt(s: Sim, n: Option<nat>): (s': Sim)
    requires Sized(s)
    ensures Sized(s') && |s'.cpu| == |s.cpu| && |s'.procs| == |s.procs|
    ensures s'.time == s.time && s'.created == s.created
  {
    if n.Some? && n.value < |s.cpu| && s.cpu[n.value].Some? then Preempt(s, n.value) else s
  }

  function WakeUp(s: Sim, p: nat): (s': Sim)
    requires Sized(s) && p < |s.procs|
    ensures Sized(s') && |s'.cpu| == |s.cpu| && |s'.procs| == |s.procs|
    ensures s'.time == s.time && s'.created == s.created
  {
    var s1 := MakeReady(s, p);
    if s.mode == Priority then ForcePreempt(s1, Victim(s1, 0, s1.procs[p].priority, None)) else s1
  }

  // ----- os-sim.c -----

  predicate HasOp(s: Sim, p: nat, k: OpKind)
  {
    p < |s.procs| && s.procs[p].pc < |s.procs[p].ops| && s.procs[p].ops[s.procs[p].pc].kind == k
  }

  function SetPcb(s: Sim, p: nat, pcb: Pcb): Sim
    requires p < |s.procs|
  {
    s.(procs := s.procs[p := pcb])
  }

  function Advance(pcb: Pcb): Pcb
  {
    pcb.(pc := pcb.pc + 1)
  }

  function Upcoming(pcb: Pcb): Op
    requires pcb.pc + 1 < |pcb.ops|
  {
    pcb.ops[pcb.pc + 1]
  }

  function CountDown(pcb: Pcb): Pcb
    requires pcb.pc < |pcb.ops| && pcb.ops[pcb.pc].time > 0
  {
    var op := pcb.ops[pcb.pc];
    pcb.(ops := pcb.ops[pcb.pc := op.(time := op.time - 1)])
  }

  function CountDownIo(r: IoRequest): IoRequest
    requires r.time > 0
  {
    r.(time := r.time - 1)
  }

  function OneLess(t: int): int
  {
    t - 1
  }

  /** One tick off CPU n's preemption timer. */
  function TimerTick(s: Sim, n: nat): Sim
    requires n < |s.timer|
  {
    s.(timer := s.timer[n := OneLess(s.timer[n])])
  }

  function Clock(s: Sim): Sim
  {
    s.(time := s.time + 1)
  }

  /** The end of a CPU burst: on to the next operation. */
  function NextOp(s: Sim, n: nat): (s': Sim)
    requires Sized(s) && OnCpu(s, n) && Simulates(s, n)
    ensures Sized(s') && |s'.cpu| == |s.cpu| && |s'.procs| == |s.procs|
    ensures s'.time == s.time && s'.created == s.created && |s'.io| >= |s.io|
  {
    var p := s.cpu[n].value;
    var pcb := s.procs[p];
    var s1 := SetPcb(s, p, Advance(pcb));
    if pcb.pc + 1 >= |pcb.ops| then s1
    else
      match Upcoming(pcb).kind
      case OpIo => Yield(s1.(io := s1.io + [IoRequest(p, Upcoming(pcb).time)]), n)
      case OpTerminate => Terminate(s1, n)
      case OpCpu => s1
  }

  /** simulate_process; anything but a CPU operation only prints an error. */
  function SimulateProcess(s: Sim, n: nat): (s': Sim)
    requires Sized(s) && OnCpu(s, n) && Simulates(s, n)
    ensures Sized(s') && |s'.cpu| == |s.cpu| && |s'.procs| == |s.procs|
    ensures s'.time == s.time && s'.created == s.created && |s'.io| >= |s.io|
  {
    var p := s.cpu[n].value;
    var pcb := s.procs[p];
    if !HasOp(s, p, OpCpu) then s
    else if pcb.ops[pcb.pc].time > 0 then
      var s1 := SetPcb(s, p, CountDown(pcb));
      var s2 := TimerTick(s1, n);
      if s2.timer[n] == 0 then Preempt(s2, n) else s2
    else NextOp(s, n)
  }

  function SimulateIo(s: Sim): (s': Sim)
    requires Sized(s)
    ensures Sized(s') && |s'.cpu| == |s.cpu| && |s'.procs| == |s.procs|
    ensures s'.time == s.time && s'.created == s.created
  {
    if s.io == [] || s.io[0].pid >= |s.procs| then s
    else
      var head := s.io[0];
      if head.time == 0 then
        var pcb := s.procs[head.pid];
        WakeUp(SetPcb(s.(io := s.io[1..]), head.pid, Advance(pcb)), head.pid)
      else s.(io := s.io[0 := CountDownIo(head)])
  }

  function SimulateCreat(s: Sim): (s': Sim)
    requires Sized(s)
    ensures Sized(s') && |s'.cpu| == |s.cpu| && |s'.procs| == |s.procs|
  {
    if s.time % 10 == 0 && s.created < |s.procs| then
      var s1 := WakeUp(s, s.created);
      s1.(created := s1.created + 1)
    else s
  }

  /** An idle CPU runs schedule(); a busy one is not in it. */
  function IdleStep(s: Sim, n: nat): (s': Sim)
    requires Sized(s)
    ensures Sized(s') && |s'.cpu| == |s.cpu| && |s'.procs| == |s.procs|
    ensures s'.time == s.time && s'.created == s.created && s'.io == s.io
  {
    if n < |s.cpu| && s.cpu[n].None? then ScheduleWorker(s, n) else s
  }

  /** Between steps, idle CPUs may run schedule() in any order and any number of times. */
  function Dispatch(s: Sim, picks: seq<nat>): (s': Sim)
    requires Sized(s)
    ensures Sized(s') && |s'.cpu| == |s.cpu| && |s'.procs| == |s.procs|
    ensures s'.time == s.time && s'.created == s.created && s'.io == s.io
    decreases |picks|
  {
    if picks == [] then s else Dispatch(IdleStep(s, picks[0]), picks[1..])
  }

  /** Which CPUs get scheduled in which gap of a tick. */
  type Gaps = seq<seq<nat>>

  function Gap(gaps: Gaps, k: nat): seq<nat>
  {
    if k < |gaps| then gaps[k] else []
  }

  function CpuStep(s: Sim, n: nat): (s': Sim)
    requires Sized(s)
    ensures Sized(s') && |s'.cpu| == |s.cpu| && |s'.procs| == |s.procs|
    ensures s'.time == s.time && s'.created == s.created && |s'.io| >= |s.io|
  {
    if Simulates(s, n) && OnCpu(s, n) then SimulateProcess(s, n) else s
  }

  function CpuPhase(s: Sim, n: nat, gaps: Gaps): (s': Sim)
    requires Sized(s)
    ensures Sized(s') && |s'.cpu| == |s.cpu| && |s'.procs| == |s.procs|
    ensures s'.time == s.time && s'.created == s.created && |s'.io| >= |s.io|
  {
    Dispatch(CpuStep(s, n), Gap(gaps, n))
  }

  /** simulate_cpus from CPU n on. */
  function SimulateCpus(s: Sim, n: nat, gaps: Gaps): (s': Sim)
    requires Sized(s)
    ensures Sized(s') && |s'.cpu| == |s.cpu| && |s'.procs| == |s.procs|
    ensures s'.time == s.time && s'.created == s.created && |s'.io| >= |s.io|
    decreases |s.cpu| - n
  {
    if n >= |s.cpu| then s else SimulateCpus(CpuPhase(s, n, gaps), n + 1, gaps)
  }

  function IoPhase(s: Sim, gaps: Gaps): (s': Sim)
    requires Sized(s)
    ensures Sized(s') && |s'.cpu| == |s.cpu| && |s'.procs| == |s.procs|
    ensures s'.time == s.time && s'.created == s.created
  {
    Dispatch(SimulateIo(s), Gap(gaps, |s.cpu|))
  }

  function CreatPhase(s: Sim, gaps: Gaps): (s': Sim)
    requires Sized(s)
    ensures Sized(s') && |s'.cpu| == |s.cpu| && |s'.procs| == |s.procs|
    ensures s'.time == s.time
    ensures s'.created == s.created + if s.time % 10 == 0 && s.created < |s.procs| then 1 else 0
  {
    Dispatch(SimulateCreat(s), Gap(gaps, |s.cpu| + 1))
  }

  /** One round of the supervisor thread. */
  function Tick(s: Sim, gaps: Gaps): (s': Sim)
    requires Sized(s)
    ensures Sized(s') && |s'.cpu| == |s.cpu| && |s'.procs| == |s.procs|
  {
    Clock(CreatPhase(IoPhase(SimulateCpus(s, 0, gaps), gaps), gaps))
  }

  /** The supervisor exits. */
  predicate Finished(s: Sim)
  {
    s.terminated >= |s.procs|
  }

  /** Idle CPUs have taken what work there was. */
  predicate Settled(s: Sim)
  {
    s.ready == [] || forall n :: 0 <= n < |s.cpu| ==> s.cpu[n].Some?
  }
}
