/** Every run of the simulator ends: a potential that counts the ticks still to be spent computing or doing I/O. */
module SchedTermination {
  import opened Basics
  import opened SchedModel
  import opened SchedInvariant

  /** Ticks the operations from k on still take: an operation of time t takes t + 1 of them. */
  function Left(ops: seq<Op>, k: nat): (n: nat)
    requires k <= |ops|
    decreases |ops| - k
  {
    if k == |ops| then 0
    else Left(ops, k + 1) + if ops[k].kind == OpTerminate then 0 else ops[k].time + 1
  }

  /** The I/O a process waits for is counted in the I/O queue. */
  function PcbLeft(pcb: Pcb): nat
  {
    var k := if pcb.state == Waiting then pcb.pc + 1 else pcb.pc;
    if k <= |pcb.ops| then Left(pcb.ops, k) else 0
  }

  function SumLeft(procs: seq<Pcb>): nat
  {
    if procs == [] then 0 else PcbLeft(procs[0]) + SumLeft(procs[1..])
  }

  function SumIo(io: seq<IoRequest>): nat
  {
    if io == [] then 0 else io[0].time + 1 + SumIo(io[1..])
  }

  function Work(s: Sim): nat
  {
    SumLeft(s.procs) + SumIo(s.io)
  }

  lemma {:induction false} SumUpdate(procs: seq<Pcb>, p: nat, pcb: Pcb)
    requires p < |procs|
    ensures SumLeft(procs[p := pcb]) + PcbLeft(procs[p]) == SumLeft(procs) + PcbLeft(pcb)
  {
    if p == 0 {
      assert procs[0 := pcb][1..] == procs[1..];
    } else {
      SumUpdate(procs[1..], p - 1, pcb);
      assert procs[p := pcb][1..] == procs[1..][p - 1 := pcb];
    }
  }

  lemma {:induction false} IoAppend(io: seq<IoRequest>, r: IoRequest)
    ensures SumIo(io + [r]) == SumIo(io) + r.time + 1
  {
    if io == [] {
    } else {
      IoAppend(io[1..], r);
      assert (io + [r])[1..] == io[1..] + [r];
    }
  }

  // ----- which steps spend work -----

  ghost predicate HeadReady(s: Sim)
  {
    s.ready != [] ==> s.ready[0] < |s.procs| && s.procs[s.ready[0]].state != Waiting
  }

  lemma ReadyHead(s: Sim)
    requires Inv(s)
    ensures HeadReady(s)
  {
    if s.ready != [] {
      assert s.ready[0] in s.ready;
    }
  }

  lemma ScheduleWork(s: Sim, n: nat)
    requires Sized(s) && n < |s.cpu| && HeadReady(s)
    ensures Work(ScheduleWorker(s, n)) == Work(s)
  {
    if !Runs(s, s.current[n]) && s.ready != [] {
      var p := s.ready[0];
      SumUpdate(s.procs, p, s.procs[p].(state := Running));
    }
  }

  lemma ReadyWork(s: Sim, p: nat)
    requires p < |s.procs| && s.procs[p].state != Waiting && HeadReady(s)
    ensures Work(MakeReady(s, p)) == Work(s) && HeadReady(MakeReady(s, p))
  {
    SumUpdate(s.procs, p, s.procs[p].(state := Ready));
  }

  lemma PreemptWork(s: Sim, n: nat)
    requires Inv(s) && n < |s.cpu| && s.cpu[n].Some?
    ensures Work(Preempt(s, n)) == Work(s)
  {
    ReadyHead(s);
    var p := s.current[n].value;
    ReadyWork(s, p);
    ScheduleWork(MakeReady(s, p), n);
  }

  lemma ForcePreemptWork(s: Sim, n: Option<nat>)
    requires Inv(s)
    ensures Work(ForcePreempt(s, n)) == Work(s)
  {
    if n.Some? && n.value < |s.cpu| && s.cpu[n.value].Some? {
      PreemptWork(s, n.value);
    }
  }

  lemma IdleStepWork(s: Sim, n: nat)
    requires Inv(s)
    ensures Work(IdleStep(s, n)) == Work(s)
  {
    if n < |s.cpu| && s.cpu[n].None? {
      ReadyHead(s);
      ScheduleWork(s, n);
    }
  }

  lemma {:induction false} DispatchWork(s: Sim, picks: seq<nat>)
    requires Inv(s)
    ensures Work(Dispatch(s, picks)) == Work(s)
    decreases |picks|
  {
    if picks != [] {
      IdleStepWork(s, picks[0]);
      var s1 := IdleStepKeeps(s, picks[0]);
      DispatchWork(s1, picks[1..]);
    }
  }

  lemma {:induction false} LeftUpdate(ops: seq<Op>, i: nat, k: nat, op: Op)
    requires k < |ops| && i <= |ops|
    ensures i > k ==> Left(ops[k := op], i) == Left(ops, i)
    decreases |ops| - i
  {
    if i < |ops| && i > k {
      LeftUpdate(ops, i + 1, k, op);
    }
  }

  /** One tick of computing. */
  lemma ComputeWork(pcb: Pcb)
    requires pcb.state == Running && pcb.pc < |pcb.ops| && pcb.ops[pcb.pc].kind == OpCpu && pcb.ops[pcb.pc].time > 0
    ensures PcbLeft(CountDown(pcb)) == PcbLeft(pcb) - 1
  {
    var op := pcb.ops[pcb.pc];
    LeftUpdate(pcb.ops, pcb.pc + 1, pcb.pc, op.(time := op.time - 1));
  }

  /** The tick that ends a burst. */
  lemma NextOpWork(pcb: Pcb)
    requires GoodPcb(pcb) && pcb.state == Running && pcb.ops[pcb.pc].time == 0
    ensures pcb.pc + 1 < |pcb.ops|
    ensures match Upcoming(pcb).kind
            case OpCpu => PcbLeft(Advance(pcb)) == PcbLeft(pcb) - 1
            case OpIo => PcbLeft(Advance(pcb).(state := Waiting)) + Upcoming(pcb).time + 1 == PcbLeft(pcb) - 1
            case OpTerminate => PcbLeft(Advance(pcb).(state := Terminated)) == PcbLeft(pcb) - 1
  {
    NextOpGood(pcb);
    var k := pcb.pc + 1;
    assert Left(pcb.ops, k) == Left(pcb.ops, k + 1) + if pcb.ops[k].kind == OpTerminate then 0 else pcb.ops[k].time + 1;
  }

  lemma StateWork(s: Sim, n: nat, pcb: Pcb, io: seq<IoRequest>)
    requires Inv(s) && OnCpu(s, n) && pcb.state != Running
    ensures var s1 := SetPcb(s, s.current[n].value, pcb).(io := io);
            Work(ScheduleWorker(s1, n))
                == SumLeft(s.procs) - PcbLeft(s.procs[s.current[n].value]) + PcbLeft(pcb) + SumIo(io)
  {
    var p := s.current[n].value;
    var s1 := SetPcb(s, p, pcb).(io := io);
    ReadyHead(s);
    assert s.ready != [] ==> s.ready[0] in s.ready;
    assert HeadReady(s1);
    ScheduleWork(s1, n);
    SumUpdate(s.procs, p, pcb);
  }

  /** The tick that puts the request for `t` ticks of I/O in the queue. */
  lemma YieldWork(s: Sim, n: nat, next: Pcb, t: nat)
    requires Inv(s) && OnCpu(s, n) && next.state == Running
    requires PcbLeft(next.(state := Waiting)) + t + 1 == PcbLeft(s.procs[s.current[n].value]) - 1
    ensures var p := s.current[n].value;
            Work(Yield(SetPcb(s, p, next).(io := s.io + [IoRequest(p, t)]), n)) == Work(s) - 1
  {
    var p := s.current[n].value;
    var done := next.(state := Waiting);
    StateWork(s, n, done, s.io + [IoRequest(p, t)]);
    IoAppend(s.io, IoRequest(p, t));
    assert s.procs[p := next][p := done] == s.procs[p := done];
  }

  lemma TerminateWork(s: Sim, n: nat, next: Pcb)
    requires Inv(s) && OnCpu(s, n) && next.state == Running
    requires PcbLeft(next.(state := Terminated)) == PcbLeft(s.procs[s.current[n].value]) - 1
    ensures Work(Terminate(SetPcb(s, s.current[n].value, next), n)) == Work(s) - 1
  {
    var p := s.current[n].value;
    var done := next.(state := Terminated);
    StateWork(s, n, done, s.io);
    var s1 := SetPcb(s, p, done);
    assert s.procs[p := next][p := done] == s.procs[p := done];
    assert ScheduleWorker(s1.(terminated := s.terminated + 1), n)
        == ScheduleWorker(s1.(io := s.io), n).(terminated := s.terminated + 1);
  }

  lemma BurstOverWork(s: Sim, n: nat)
    requires Inv(s) && OnCpu(s, n) && Simulates(s, n) && HasOp(s, s.current[n].value, OpCpu)
    requires var pcb := s.procs[s.current[n].value]; pcb.ops[pcb.pc].time == 0
    ensures Work(NextOp(s, n)) == Work(s) - 1
  {
    var p := s.current[n].value;
    var pcb := s.procs[p];
    NextOpWork(pcb);
    var next := Advance(pcb);
    match Upcoming(pcb).kind
    case OpIo => YieldWork(s, n, next, Upcoming(pcb).time);
    case OpTerminate => TerminateWork(s, n, next);
    case OpCpu => SumUpdate(s.procs, p, next);
  }

  lemma ProcessWork(s: Sim, n: nat)
    requires Inv(s) && n < |s.cpu| && OnCpu(s, n) && Simulates(s, n)
    ensures Work(SimulateProcess(s, n)) == Work(s) - 1
  {
    RunningAtCpuOp(s, n);
    var p := s.current[n].value;
    var pcb := s.procs[p];
    if pcb.ops[pcb.pc].time > 0 {
      var pcb1 := CountDown(pcb);
      var timer := s.timer[n := OneLess(s.timer[n])];
      ComputeWork(pcb);
      SumUpdate(s.procs, p, pcb1);
      CountDownGood(pcb);
      var s1 := ComputeKeeps(s, n, pcb1, timer);
      if timer[n] == 0 {
        PreemptWork(s1, n);
      }
    } else {
      BurstOverWork(s, n);
    }
  }

  lemma IoDoneWork(s: Sim)
    requires Inv(s) && s.io != [] && s.io[0].time == 0
    ensures Work(SimulateIo(s)) == Work(s) - 1
  {
    var p := s.io[0].pid;
    QueueWoken(s, p);
    var s1 := Woken(s, p);
    var done := Advance(s.procs[p]).(state := Ready);
    SumUpdate(s.procs, p, done);
    assert s1.procs == s.procs[p := done];
    if s.mode == Priority {
      ForcePreemptWork(s1, Victim(s1, 0, s1.procs[p].priority, None));
    }
  }

  lemma IoWork(s: Sim)
    requires Inv(s)
    ensures Work(SimulateIo(s)) == Work(s) - if s.io == [] then 0 else 1
  {
    if s.io != [] {
      var pids := Pids(s.io);
      assert pids[0] == s.io[0].pid && pids[0] in pids;
      if s.io[0].time == 0 {
        IoDoneWork(s);
      } else {
        var io' := s.io[0 := s.io[0].(time := s.io[0].time - 1)];
        assert io'[1..] == s.io[1..];
      }
    }
  }

  lemma CreatWork(s: Sim)
    requires Inv(s)
    ensures Work(SimulateCreat(s)) == Work(s)
  {
    if s.time % 10 == 0 && s.created < |s.procs| {
      ReadyHead(s);
      var p := s.created;
      ReadyWork(s, p);
      if s.mode == Priority {
        var s1 := MakeReady(s, p);
        var n := Victim(s1, 0, s1.procs[p].priority, None);
        var s2 := QueueCreated(s);
        ForcePreemptWork(s2, n);
        CreatedIsIrrelevant(s1, s2, n);
      }
    }
  }

  // ----- ticks -----

  function BusyTick(s: Sim, n: nat): nat
    requires Sized(s)
  {
    if Simulates(s, n) && OnCpu(s, n) then 1 else 0
  }

  /** The number of ticks of work done on CPUs n and up in one round. */
  function Steps(s: Sim, n: nat, gaps: Gaps): (k: nat)
    requires Sized(s)
    decreases |s.cpu| - n
  {
    if n >= |s.cpu| then 0 else BusyTick(s, n) + Steps(CpuPhase(s, n, gaps), n + 1, gaps)
  }

  lemma CpuPhaseWork(s: Sim, n: nat, gaps: Gaps)
    requires Inv(s) && n < |s.cpu|
    ensures Work(CpuPhase(s, n, gaps)) == Work(s) - BusyTick(s, n)
  {
    if Simulates(s, n) && OnCpu(s, n) {
      ProcessWork(s, n);
    }
    var s1 := StepKeeps(s, n);
    DispatchWork(s1, Gap(gaps, n));
  }

  lemma {:induction false} CpusWork(s: Sim, n: nat, gaps: Gaps)
    requires Inv(s)
    ensures Work(SimulateCpus(s, n, gaps)) == Work(s) - Steps(s, n, gaps)
    decreases |s.cpu| - n
  {
    if n < |s.cpu| {
      CpuPhaseWork(s, n, gaps);
      var s1 := CpuPhaseKeeps(s, n, gaps);
      CpusWork(s1, n + 1, gaps);
    }
  }

  /** What one round accomplishes: a tick for each busy CPU, and one for the I/O device if it has a request. */
  function Progress(s: Sim, gaps: Gaps): nat
    requires Sized(s)
  {
    Steps(s, 0, gaps) + if SimulateCpus(s, 0, gaps).io == [] then 0 else 1
  }

  lemma IoPhaseWork(s: Sim, gaps: Gaps)
    requires Inv(s)
    ensures Work(IoPhase(s, gaps)) == Work(s) - if s.io == [] then 0 else 1
  {
    IoWork(s);
    var s1 := IoTickKeeps(s);
    DispatchWork(s1, Gap(gaps, |s.cpu|));
  }

  lemma CreatPhaseWork(s: Sim, gaps: Gaps)
    requires Inv(s)
    ensures Work(CreatPhase(s, gaps)) == Work(s)
  {
    CreatWork(s);
    var s1 := CreatKeeps(s);
    DispatchWork(s1, Gap(gaps, |s.cpu| + 1));
  }

  /** Work is conserved: a round takes off exactly the ticks of computing and I/O it performs. */
  lemma TickWork(s: Sim, gaps: Gaps)
    requires Inv(s)
    ensures Work(Tick(s, gaps)) == Work(s) - Progress(s, gaps)
  {
    CpusWork(s, 0, gaps);
    var s1 := CpusKeep(s, gaps);
    IoPhaseWork(s1, gaps);
    var s2 := IoPhaseKeeps(s1, gaps);
    CreatPhaseWork(s2, gaps);
  }

  // ----- whole runs -----

  lemma {:induction false} SomeoneLeft(procs: seq<Pcb>) returns (p: nat)
    requires CountDone(procs) < |procs|
    ensures p < |procs| && procs[p].state != Terminated
  {
    if procs[0].state != Terminated {
      p := 0;
    } else {
      p := SomeoneLeft(procs[1..]);
      p := p + 1;
    }
  }

  lemma {:induction false} AllDone(procs: seq<Pcb>, p: nat)
    requires CountDone(procs) == |procs| && p < |procs|
    ensures procs[p].state == Terminated
  {
    if p > 0 {
      AllDone(procs[1..], p - 1);
    }
  }

  lemma {:induction false} DispatchBusy(s: Sim, picks: seq<nat>, k: nat)
    requires Sized(s) && k < |s.cpu| && s.cpu[k].Some?
    ensures Dispatch(s, picks).cpu[k] == s.cpu[k]
    decreases |picks|
  {
    if picks == [] {
    } else {
      DispatchBusy(IdleStep(s, picks[0]), picks[1..], k);
    }
  }

  lemma IdlePhase(s: Sim, n: nat, gaps: Gaps, k: nat)
    requires Sized(s) && n < |s.cpu| && s.cpu[n].None? && k < |s.cpu| && s.cpu[k].Some?
    ensures CpuPhase(s, n, gaps).cpu[k].Some?
  {
    DispatchBusy(s, Gap(gaps, n), k);
  }

  lemma {:induction false} BusySteps(s: Sim, n: nat, k: nat, gaps: Gaps)
    requires Inv(s) && n <= k < |s.cpu| && s.cpu[k].Some?
    ensures Steps(s, n, gaps) >= 1
    decreases |s.cpu| - n
  {
    if s.cpu[n].Some? {
      RunningAtCpuOp(s, n);
    } else {
      IdlePhase(s, n, gaps, k);
      var s1 := CpuPhaseKeeps(s, n, gaps);
      var next := n + 1;
      BusySteps(s1, next, k, gaps);
    }
  }

  /** The creation clock: every tenth tick creates a process, from time 0 on, until all exist. */
  ghost predicate OnTime(s: Sim)
  {
    s.created == Min(|s.procs|, (s.time + 9) / 10)
  }

  lemma TickOnTime(s: Sim, gaps: Gaps)
    requires Sized(s) && OnTime(s)
    ensures OnTime(Tick(s, gaps)) && Tick(s, gaps).time == s.time + 1
  {
  }

  /** Once all processes exist, no round is wasted. */
  lemma NoIdleRound(s: Sim, gaps: Gaps)
    requires Inv(s) && |s.cpu| >= 1 && Settled(s) && !Finished(s) && s.created == |s.procs|
    ensures Progress(s, gaps) >= 1
  {
    var p := SomeoneLeft(s.procs);
    match s.procs[p].state
    case New =>
    case Terminated =>
    case Ready =>
      assert p in s.ready;
      BusySteps(s, 0, 0, gaps);
    case Running =>
      var k :| 0 <= k < |s.current| && s.current[k] == Some(p);
      BusySteps(s, 0, k, gaps);
    case Waiting =>
      assert p in Pids(s.io);
      assert s.io != [];
  }

  /** A run of the supervisor: each round starts unfinished, after idle CPUs had their chance. */
  ghost predicate IsRun(s: Sim, rounds: seq<Gaps>)
    requires Sized(s)
    decreases |rounds|
  {
    rounds == [] || (!Finished(s) && Settled(s) && IsRun(Tick(s, rounds[0]), rounds[1..]))
  }

  function Run(s: Sim, rounds: seq<Gaps>): (s': Sim)
    requires Sized(s)
    ensures Sized(s') && |s'.cpu| == |s.cpu| && |s'.procs| == |s.procs|
    decreases |rounds|
  {
    if rounds == [] then s else Run(Tick(s, rounds[0]), rounds[1..])
  }

  /** All the ticks of computing and I/O performed in a run. */
  function TotalProgress(s: Sim, rounds: seq<Gaps>): nat
    requires Sized(s)
    decreases |rounds|
  {
    if rounds == [] then 0 else Progress(s, rounds[0]) + TotalProgress(Tick(s, rounds[0]), rounds[1..])
  }

  /** The state start_simulator sets up for well-formed processes. */
  ghost predicate Initial(s: Sim)
  {
    && Sized(s) && |s.cpu| >= 1
    && (forall n :: 0 <= n < |s.cpu| ==> s.cpu[n] == None && s.current[n] == None)
    && (forall p :: 0 <= p < |s.procs| ==> s.procs[p].state == New && s.procs[p].pc == 0 && GoodOps(s.procs[p].ops))
    && s.ready == [] && s.io == [] && s.time == 0 && s.created == 0 && s.terminated == 0
  }

  lemma {:induction false} NoneDone(procs: seq<Pcb>)
    requires forall p :: 0 <= p < |procs| ==> procs[p].state == New
    ensures CountDone(procs) == 0
  {
    if procs == [] {
    } else {
      NoneDone(procs[1..]);
    }
  }

  lemma InitialInv(s: Sim)
    requires Initial(s)
    ensures Inv(s) && OnTime(s)
  {
    NoneDone(s.procs);
    assert s.cpu == s.current;
  }

  /** Placement holds after any number of rounds, finished or not, whatever the idle CPUs do in between. */
  lemma {:induction false} RunKeeps(s: Sim, rounds: seq<Gaps>)
    requires Inv(s)
    ensures Inv(Run(s, rounds)) && Work(Run(s, rounds)) == Work(s) - TotalProgress(s, rounds)
    decreases |rounds|
  {
    if rounds == [] {
    } else {
      var s1 := TickKeeps(s, rounds[0]);
      TickWork(s, rounds[0]);
      RunKeeps(s1, rounds[1..]);
    }
  }

  function Max(a: int, b: int): int
  {
    if a >= b then a else b
  }

  /** Rounds a run can still take: the work left, and the wait for the last process, created in round 10(P - 1). */
  function Measure(s: Sim): nat
  {
    Work(s) + Max(0, 10 * |s.procs| - 9 - s.time)
  }

  lemma RoundShrinks(s: Sim, gaps: Gaps)
    requires Inv(s) && OnTime(s) && |s.cpu| >= 1 && !Finished(s) && Settled(s)
    ensures Measure(Tick(s, gaps)) < Measure(s)
  {
    if s.created == |s.procs| {
      NoIdleRound(s, gaps);
    }
    TickWork(s, gaps);
    TickOnTime(s, gaps);
  }

  lemma {:induction false} RunIsShort(s: Sim, rounds: seq<Gaps>)
    requires Inv(s) && OnTime(s) && |s.cpu| >= 1 && IsRun(s, rounds)
    ensures |rounds| <= Measure(s)
    decreases |rounds|
  {
    if rounds == [] {
    } else {
      RoundShrinks(s, rounds[0]);
      TickOnTime(s, rounds[0]);
      var s1 := TickKeeps(s, rounds[0]);
      RunIsShort(s1, rounds[1..]);
    }
  }

  /** Every run ends: after the last creation each round does some work. */
  lemma RunsTerminate(s: Sim, rounds: seq<Gaps>)
    requires Initial(s) && IsRun(s, rounds)
    ensures |rounds| <= SumLeft(s.procs) + Max(0, 10 * |s.procs| - 9)
  {
    InitialInv(s);
    RunIsShort(s, rounds);
  }

  ghost predicate AllOver(e: Sim)
  {
    && (forall p :: 0 <= p < |e.procs| ==> e.procs[p].state == Terminated)
    && e.ready == [] && e.io == [] && (forall n :: 0 <= n < |e.cpu| ==> e.cpu[n].None?)
  }

  lemma QueueHead(procs: seq<Pcb>, q: seq<nat>, st: ProcState)
    requires Holds(procs, q, st)
    ensures q != [] ==> q[0] < |procs| && procs[q[0]].state == st
  {
    if q != [] {
      assert q[0] in q;
    }
  }

  lemma FinishedIsOver(e: Sim)
    requires Inv(e) && Finished(e)
    ensures AllOver(e)
  {
    forall p | 0 <= p < |e.procs|
      ensures e.procs[p].state == Terminated
    {
      AllDone(e.procs, p);
    }
    QueueHead(e.procs, e.ready, Ready);
    QueueHead(e.procs, Pids(e.io), Waiting);
  }

  lemma {:induction false} AllDoneWork(procs: seq<Pcb>)
    requires forall p :: 0 <= p < |procs| ==> procs[p].state == Terminated && GoodPcb(procs[p])
    ensures SumLeft(procs) == 0
  {
    if procs == [] {
    } else {
      var ops := procs[0].ops;
      assert procs[0].pc == |ops| - 1;
      assert Left(ops, |ops| - 1) == 0;
      AllDoneWork(procs[1..]);
    }
  }

  /** A finished run did each process's work exactly: every process is done, nothing is queued, every CPU is idle. */
  lemma FinishedRun(s: Sim, rounds: seq<Gaps>)
    requires Initial(s) && Finished(Run(s, rounds))
    ensures AllOver(Run(s, rounds)) && TotalProgress(s, rounds) == SumLeft(s.procs)
  {
    InitialInv(s);
    RunKeeps(s, rounds);
    var e := Run(s, rounds);
    FinishedIsOver(e);
    AllGoodEach(e);
    AllDoneWork(e.procs);
  }

  lemma AllGoodEach(e: Sim)
    requires Inv(e)
    ensures forall p :: 0 <= p < |e.procs| ==> GoodPcb(e.procs[p])
  {
  }

  /** Idle CPUs can always take the queued work: scheduling CPUs n, n + 1, ... once each settles the rest. */
  lemma {:induction false} CanSettle(s: Sim, n: nat) returns (picks: seq<nat>)
    requires Inv(s) && n <= |s.cpu|
    requires s.ready == [] || forall k :: 0 <= k < n ==> s.cpu[k].Some?
    ensures Settled(Dispatch(s, picks))
    decreases |s.cpu| - n
  {
    if s.ready == [] || n == |s.cpu| {
      picks := [];
    } else {
      assert s.ready[0] in s.ready;
      var s1 := IdleStepKeeps(s, n);
      var rest := CanSettle(s1, n + 1);
      picks := [n] + rest;
      assert picks[1..] == rest;
    }
  }

  // ----- runs that meet these conditions -----

  predicate SameGaps(a: Gaps, b: Gaps, n: nat)
  {
    forall k :: 0 <= k < n ==> Gap(a, k) == Gap(b, k)
  }

  lemma {:induction false} SameCpus(s: Sim, n: nat, a: Gaps, b: Gaps)
    requires Sized(s) && SameGaps(a, b, |s.cpu|)
    ensures SimulateCpus(s, n, a) == SimulateCpus(s, n, b)
    decreases |s.cpu| - n
  {
    if n < |s.cpu| {
      assert Gap(a, n) == Gap(b, n);
      SameCpus(CpuPhase(s, n, a), n + 1, a, b);
    }
  }

  /** The idle CPUs can always take the queued work in the last gap of a round. */
  lemma SettlingRound(s: Sim) returns (gaps: Gaps)
    requires Inv(s)
    ensures Settled(Tick(s, gaps))
  {
    var n := |s.cpu|;
    var quiet: Gaps := seq(n + 1, _ => []);
    var s1 := CpusKeep(s, quiet);
    var s2 := IoPhaseKeeps(s1, quiet);
    var s3 := CreatKeeps(s2);
    var picks := CanSettle(s3, 0);
    gaps := quiet + [picks];
    forall k | 0 <= k < n + 1
      ensures Gap(gaps, k) == Gap(quiet, k)
    {
    }
    SameCpus(s, 0, gaps, quiet);
    assert Gap(gaps, n + 1) == picks;
  }

  /** Some run of the supervisor ends with every process terminated. */
  lemma {:induction false} CanFinishFrom(s: Sim) returns (rounds: seq<Gaps>)
    requires Inv(s) && OnTime(s) && |s.cpu| >= 1 && Settled(s)
    ensures IsRun(s, rounds) && Finished(Run(s, rounds))
    decreases Measure(s)
  {
    if Finished(s) {
      rounds := [];
    } else {
      var gaps := SettlingRound(s);
      RoundShrinks(s, gaps);
      TickOnTime(s, gaps);
      var s1 := TickKeeps(s, gaps);
      var rest := CanFinishFrom(s1);
      rounds := [gaps] + rest;
      assert rounds[1..] == rest;
    }
  }

  /** From the start: a run that ends with every process terminated, within the bound, having done exactly the work. */
  lemma CanFinish(s: Sim) returns (rounds: seq<Gaps>)
    requires Initial(s)
    ensures IsRun(s, rounds) && AllOver(Run(s, rounds))
    ensures |rounds| <= SumLeft(s.procs) + Max(0, 10 * |s.procs| - 9) && TotalProgress(s, rounds) == SumLeft(s.procs)
  {
    InitialInv(s);
    rounds := CanFinishFrom(s);
    RunsTerminate(s, rounds);
    FinishedRun(s, rounds);
  }
}
