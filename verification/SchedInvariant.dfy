/** Where every process is: in the ready queue, on one CPU, in the I/O queue, not yet created, or done. */
module SchedInvariant {
  import opened Basics
  import opened SchedModel

  /** Operation lists start with a CPU burst, end with the only OpTerminate, and every I/O is followed by a CPU
      burst. */
  predicate GoodOps(ops: seq<Op>)
  {
    && |ops| >= 2 && ops[0].kind == OpCpu
    && (forall i :: 0 <= i < |ops| ==> (ops[i].kind == OpTerminate <==> i == |ops| - 1))
    && (forall i :: 0 <= i < |ops| - 1 && ops[i].kind == OpIo ==> ops[i + 1].kind == OpCpu)
  }

  /** Where the program counter may stand in each state. */
  predicate GoodPcb(pcb: Pcb)
  {
    && GoodOps(pcb.ops) && pcb.pc < |pcb.ops|
    && (pcb.state == New ==> pcb.pc == 0)
    && (pcb.state == New || pcb.state == Ready || pcb.state == Running ==> pcb.ops[pcb.pc].kind == OpCpu)
    && (pcb.state == Waiting ==> pcb.ops[pcb.pc].kind == OpIo)
    && (pcb.state == Terminated ==> pcb.ops[pcb.pc].kind == OpTerminate)
  }

  function Pids(io: seq<IoRequest>): (pids: seq<nat>)
    ensures |pids| == |io|
    ensures forall k :: 0 <= k < |io| ==> pids[k] == io[k].pid
  {
    if io == [] then [] else [io[0].pid] + Pids(io[1..])
  }

  /** The queue holds exactly the processes in the given state, each once. */
  ghost predicate Holds(procs: seq<Pcb>, q: seq<nat>, st: ProcState)
  {
    Distinct(q) && (forall p :: p in q ==> p < |procs|)
    && forall p :: 0 <= p < |procs| ==> (p in q <==> procs[p].state == st)
  }

  /** Each running process is current on exactly one CPU, and nothing else is current anywhere. */
  ghost predicate Placed(procs: seq<Pcb>, current: seq<Option<nat>>)
  {
    && (forall n :: 0 <= n < |current| && current[n].Some?
            ==> current[n].value < |procs| && procs[current[n].value].state == Running)
    && (forall m, n :: 0 <= m < n < |current| && current[m].Some? ==> current[m] != current[n])
    && (forall p :: 0 <= p < |procs| && procs[p].state == Running ==> Some(p) in current)
  }

  function CountDone(procs: seq<Pcb>): (n: nat)
    ensures n <= |procs|
  {
    if procs == [] then 0 else CountDone(procs[1..]) + if procs[0].state == Terminated then 1 else 0
  }

  /** Processes are created in order; each is well formed. */
  ghost predicate AllGood(procs: seq<Pcb>, created: nat)
  {
    created <= |procs| && forall p :: 0 <= p < |procs|
                              ==> GoodPcb(procs[p]) && (procs[p].state == New <==> created <= p)
  }

  lemma GoodUpdate(procs: seq<Pcb>, created: nat, p: nat, pcb: Pcb)
    requires AllGood(procs, created) && p < |procs| && GoodPcb(pcb)
    ensures procs[p].state != New && pcb.state != New ==> AllGood(procs[p := pcb], created)
    ensures p == created && pcb.state != New ==> AllGood(procs[p := pcb], created + 1)
  {
  }

  ghost predicate Inv(s: Sim)
  {
    && Sized(s) && s.cpu == s.current
    && AllGood(s.procs, s.created)
    && Holds(s.procs, s.ready, Ready)
    && Holds(s.procs, Pids(s.io), Waiting)
    && Placed(s.procs, s.current)
    && s.terminated == CountDone(s.procs)
  }

  /** An error case of simulate_process is never reached: whatever is current is at a CPU operation. */
  lemma RunningAtCpuOp(s: Sim, n: nat)
    requires Inv(s) && n < |s.cpu| && s.cpu[n].Some?
    ensures OnCpu(s, n) && Simulates(s, n) && HasOp(s, s.cpu[n].value, OpCpu)
  {
  }

  // ----- taking a process off its CPU -----

  function Clear(s: Sim, n: nat): Sim
    requires Sized(s) && n < |s.cpu|
  {
    s.(current := s.current[n := None], cpu := s.cpu[n := None])
  }

  /** Scheduling overwrites both tables, so a stale entry does not matter. */
  lemma ScheduleIgnoresStale(s: Sim, n: nat)
    requires Sized(s) && n < |s.cpu| && !Runs(s, s.current[n])
    ensures ScheduleWorker(s, n) == ScheduleWorker(Clear(s, n), n)
  {
    var c := Clear(s, n);
    assert c.current[n := None] == s.current[n := None] && c.cpu[n := None] == s.cpu[n := None];
    if s.ready != [] && s.ready[0] < |s.procs| {
      var q := Some(s.ready[0]);
      assert c.current[n := q] == s.current[n := q] && c.cpu[n := q] == s.cpu[n := q];
    }
  }

  lemma {:induction false} CountUpdate(procs: seq<Pcb>, p: nat, pcb: Pcb)
    requires p < |procs|
    ensures CountDone(procs[p := pcb]) + (if procs[p].state == Terminated then 1 else 0)
         == CountDone(procs) + if pcb.state == Terminated then 1 else 0
  {
    if p == 0 {
      assert procs[0 := pcb][1..] == procs[1..];
    } else {
      CountUpdate(procs[1..], p - 1, pcb);
      assert procs[p := pcb][1..] == procs[1..][p - 1 := pcb];
    }
  }

  lemma JoinQueue(procs: seq<Pcb>, q: seq<nat>, st: ProcState, p: nat, pcb: Pcb)
    requires Holds(procs, q, st) && p < |procs| && procs[p].state != st && pcb.state == st
    ensures Holds(procs[p := pcb], q + [p], st)
  {
  }

  lemma OtherQueue(procs: seq<Pcb>, q: seq<nat>, st: ProcState, p: nat, pcb: Pcb)
    requires Holds(procs, q, st) && p < |procs| && procs[p].state != st && pcb.state != st
    ensures Holds(procs[p := pcb], q, st)
  {
  }

  lemma LeaveQueue(procs: seq<Pcb>, q: seq<nat>, st: ProcState, pcb: Pcb)
    requires Holds(procs, q, st) && q != [] && pcb.state != st
    ensures q[0] < |procs| && procs[q[0]].state == st && Holds(procs[q[0] := pcb], q[1..], st)
  {
    assert q[0] in q;
    assert forall k :: 0 <= k < |q| - 1 ==> q[1..][k] == q[k + 1];
    forall p | p in q[1..]
      ensures p in q && p != q[0]
    {
    }
    forall p | 0 <= p < |procs|
      ensures p in q[1..] <==> procs[q[0] := pcb][p].state == st
    {
      if p in q && p != q[0] {
        var k :| 0 <= k < |q| && q[k] == p;
        assert q[1..][k - 1] == p;
      }
    }
  }

  /** A process leaves CPU n for a state other than Running. */
  lemma LeaveCpu(procs: seq<Pcb>, current: seq<Option<nat>>, n: nat, pcb: Pcb)
    requires Placed(procs, current) && n < |current| && current[n].Some? && pcb.state != Running
    ensures Placed(procs[current[n].value := pcb], current[n := None])
  {
    var p := current[n].value;
    var procs', current' := procs[p := pcb], current[n := None];
    forall q | 0 <= q < |procs'| && procs'[q].state == Running
      ensures Some(q) in current'
    {
      assert q != p;
      var k :| 0 <= k < |current| && current[k] == Some(q);
      assert current'[k] == Some(q);
    }
    forall m | 0 <= m < |current'| && current'[m].Some?
      ensures current'[m].value < |procs'| && procs'[current'[m].value].state == Running
    {
      assert current[m] != current[n];
    }
  }

  lemma TakeCpu(procs: seq<Pcb>, current: seq<Option<nat>>, n: nat, p: nat, pcb: Pcb)
    requires Placed(procs, current) && n < |current| && current[n].None?
    requires p < |procs| && procs[p].state != Running && pcb.state == Running
    ensures Placed(procs[p := pcb], current[n := Some(p)])
  {
    var procs', current' := procs[p := pcb], current[n := Some(p)];
    forall q | 0 <= q < |procs'| && procs'[q].state == Running
      ensures Some(q) in current'
    {
      if q == p {
        assert current'[n] == Some(p);
      } else {
        var k :| 0 <= k < |current| && current[k] == Some(q);
        assert current'[k] == Some(q);
      }
    }
  }

  /** A change to a process that is and stays off every CPU. */
  lemma OffCpu(procs: seq<Pcb>, current: seq<Option<nat>>, p: nat, pcb: Pcb)
    requires Placed(procs, current) && p < |procs| && procs[p].state != Running && pcb.state != Running
    ensures Placed(procs[p := pcb], current)
  {
  }

  // ----- the handlers -----

  /** Scheduling an idle CPU. */
  lemma ScheduleKeeps(s: Sim, n: nat) returns (s': Sim)
    requires Inv(s) && n < |s.cpu| && s.cpu[n].None?
    ensures s' == ScheduleWorker(s, n) && Inv(s')
  {
    s' := ScheduleWorker(s, n);
    if s.ready == [] {
      assert s.current[n := None] == s.current;
    } else {
      var p := s.ready[0];
      assert p in s.ready;
      var pcb := s.procs[p].(state := Running);
      LeaveQueue(s.procs, s.ready, Ready, pcb);
      OtherQueue(s.procs, Pids(s.io), Waiting, p, pcb);
      TakeCpu(s.procs, s.current, n, p, pcb);
      CountUpdate(s.procs, p, pcb);
      GoodUpdate(s.procs, s.created, p, pcb);
    }
  }

  /** What is left to do once a process has been taken off CPU n: schedule it again. */
  lemma RescheduleKeeps(s: Sim, n: nat) returns (s': Sim)
    requires Sized(s) && n < |s.cpu| && !Runs(s, s.current[n]) && Inv(Clear(s, n))
    ensures s' == ScheduleWorker(s, n) && Inv(s')
  {
    ScheduleIgnoresStale(s, n);
    s' := ScheduleKeeps(Clear(s, n), n);
  }

  lemma PreemptKeeps(s: Sim, n: nat) returns (s': Sim)
    requires Inv(s) && n < |s.cpu| && s.cpu[n].Some?
    ensures s' == Preempt(s, n) && Inv(s')
  {
    var p := s.current[n].value;
    var pcb := s.procs[p].(state := Ready);
    JoinQueue(s.procs, s.ready, Ready, p, pcb);
    OtherQueue(s.procs, Pids(s.io), Waiting, p, pcb);
    LeaveCpu(s.procs, s.current, n, pcb);
    CountUpdate(s.procs, p, pcb);
    GoodUpdate(s.procs, s.created, p, pcb);
    s' := RescheduleKeeps(MakeReady(s, p), n);
  }

  lemma PidsAppend(io: seq<IoRequest>, r: IoRequest)
    ensures Pids(io + [r]) == Pids(io) + [r.pid]
  {
  }

  /** The process on CPU n becomes `done`, which waits for the I/O just queued or has terminated. */
  lemma TakenOff(s: Sim, n: nat, done: Pcb, s1: Sim)
    requires Inv(s) && OnCpu(s, n) && GoodPcb(done)
    requires s1 == s.(procs := s.procs[s.current[n].value := done], io := s1.io, terminated := s1.terminated)
    requires done.state == Waiting ==> Pids(s1.io) == Pids(s.io) + [s.current[n].value] && s1.terminated == s.terminated
    requires done.state == Terminated ==> s1.io == s.io && s1.terminated == s.terminated + 1
    requires done.state == Waiting || done.state == Terminated
    ensures Inv(Clear(s1, n))
  {
    var p := s.current[n].value;
    if done.state == Waiting {
      JoinQueue(s.procs, Pids(s.io), Waiting, p, done);
    } else {
      OtherQueue(s.procs, Pids(s.io), Waiting, p, done);
    }
    OtherQueue(s.procs, s.ready, Ready, p, done);
    LeaveCpu(s.procs, s.current, n, done);
    CountUpdate(s.procs, p, done);
    GoodUpdate(s.procs, s.created, p, done);
  }

  /** simulate_process on an I/O operation: the request is queued and the process yields. */
  lemma YieldKeeps(s: Sim, n: nat, pcb: Pcb, t: nat) returns (s': Sim)
    requires Inv(s) && OnCpu(s, n)
    requires GoodPcb(pcb.(state := Waiting)) && pcb.state == Running
    ensures var p := s.current[n].value;
            s' == Yield(SetPcb(s, p, pcb).(io := s.io + [IoRequest(p, t)]), n)
    ensures Inv(s')
  {
    var p := s.current[n].value;
    var s1 := SetState(SetPcb(s, p, pcb).(io := s.io + [IoRequest(p, t)]), p, Waiting);
    PidsAppend(s.io, IoRequest(p, t));
    TakenOff(s, n, pcb.(state := Waiting), s1);
    s' := RescheduleKeeps(s1, n);
  }

  lemma TerminateKeeps(s: Sim, n: nat, pcb: Pcb) returns (s': Sim)
    requires Inv(s) && OnCpu(s, n)
    requires GoodPcb(pcb.(state := Terminated)) && pcb.state == Running
    ensures s' == Terminate(SetPcb(s, s.current[n].value, pcb), n) && Inv(s')
  {
    var p := s.current[n].value;
    var s0 := SetPcb(s, p, pcb);
    var s1 := SetState(s0.(terminated := s0.terminated + 1), p, Terminated);
    TakenOff(s, n, pcb.(state := Terminated), s1);
    TerminateIs(s0, n);
    s' := RescheduleKeeps(s1, n);
  }

  lemma TerminateIs(s: Sim, n: nat)
    requires Sized(s) && OnCpu(s, n)
    ensures Terminate(s, n)
            == ScheduleWorker(SetState(s.(terminated := s.terminated + 1), s.current[n].value, Terminated), n)
  {
  }

  /** wake_up once the process is queued: in priority mode another process may be pushed off its CPU. */
  lemma PushOffKeeps(s: Sim, n: Option<nat>) returns (s': Sim)
    requires Inv(s)
    ensures s' == ForcePreempt(s, n) && Inv(s')
  {
    if n.Some? && n.value < |s.cpu| && s.cpu[n.value].Some? {
      s' := PreemptKeeps(s, n.value);
    } else {
      s' := s;
    }
  }

  /** The next process is created ready, before wake_up looks for a CPU to preempt. */
  lemma QueueCreated(s: Sim) returns (s': Sim)
    requires Inv(s) && s.created < |s.procs|
    ensures s' == MakeReady(s, s.created).(created := s.created + 1) && Inv(s')
  {
    var p := s.created;
    var pcb := s.procs[p].(state := Ready);
    JoinQueue(s.procs, s.ready, Ready, p, pcb);
    OtherQueue(s.procs, Pids(s.io), Waiting, p, pcb);
    OffCpu(s.procs, s.current, p, pcb);
    CountUpdate(s.procs, p, pcb);
    GoodUpdate(s.procs, s.created, p, pcb);
    s' := MakeReady(s, p).(created := s.created + 1);
  }

  /** Counting the creation before or after the forced preemption makes no difference. */
  lemma CreatedIsIrrelevant(s: Sim, s': Sim, n: Option<nat>)
    requires Sized(s) && s' == s.(created := s'.created)
    ensures ForcePreempt(s', n) == ForcePreempt(s, n).(created := s'.created)
  {
  }

  lemma CreateKeeps(s: Sim) returns (s': Sim)
    requires Inv(s) && s.created < |s.procs|
    ensures s' == WakeUp(s, s.created).(created := s.created + 1) && Inv(s')
  {
    s' := QueueCreated(s);
    if s.mode == Priority {
      var s1 := MakeReady(s, s.created);
      var n := Victim(s1, 0, s1.procs[s.created].priority, None);
      CreatedIsIrrelevant(s1, s', n);
      s' := PushOffKeeps(s', n);
    }
  }

  /** The state in which wake_up looks for a CPU to preempt, once the head request is done. */
  function Woken(s: Sim, p: nat): Sim
    requires s.io != [] && p < |s.procs|
  {
    MakeReady(SetPcb(s.(io := s.io[1..]), p, Advance(s.procs[p])), p)
  }

  lemma QueueWoken(s: Sim, p: nat)
    requires Inv(s) && s.io != [] && s.io[0].pid == p
    ensures p < |s.procs| && s.procs[p].state == Waiting && Inv(Woken(s, p))
  {
    var pids := Pids(s.io);
    assert pids[0] == p && p in pids && pids[1..] == Pids(s.io[1..]);
    var done := Advance(s.procs[p]).(state := Ready);
    LeaveQueue(s.procs, pids, Waiting, done);
    JoinQueue(s.procs, s.ready, Ready, p, done);
    OffCpu(s.procs, s.current, p, done);
    CountUpdate(s.procs, p, done);
    GoodUpdate(s.procs, s.created, p, done);
    assert Woken(s, p).procs == s.procs[p := done];
  }

  lemma IoDoneKeeps(s: Sim) returns (s': Sim)
    requires Inv(s) && s.io != [] && s.io[0].time == 0
    ensures s' == SimulateIo(s) && Inv(s')
  {
    var p := s.io[0].pid;
    QueueWoken(s, p);
    s' := Woken(s, p);
    if s.mode == Priority {
      s' := PushOffKeeps(s', Victim(s', 0, s'.procs[p].priority, None));
    }
  }

  lemma IoTickKeeps(s: Sim) returns (s': Sim)
    requires Inv(s)
    ensures s' == SimulateIo(s) && Inv(s')
  {
    s' := s;
    if s.io != [] {
      var pids := Pids(s.io);
      assert pids[0] == s.io[0].pid && pids[0] in pids;
      if s.io[0].time == 0 {
        s' := IoDoneKeeps(s);
      } else {
        var io' := s.io[0 := s.io[0].(time := s.io[0].time - 1)];
        assert io'[1..] == s.io[1..];
        assert Pids(io') == pids;
        s' := s.(io := io');
      }
    }
  }

  /** A running process computes for one more tick. */
  lemma ComputeKeeps(s: Sim, n: nat, pcb: Pcb, timer: seq<int>) returns (s': Sim)
    requires Inv(s) && n < |s.cpu| && s.cpu[n].Some? && OnCpu(s, n) && |timer| == |s.timer|
    requires GoodPcb(pcb) && pcb.state == Running
    ensures s' == SetPcb(s, s.current[n].value, pcb).(timer := timer) && Inv(s')
  {
    var p := s.current[n].value;
    OtherQueue(s.procs, s.ready, Ready, p, pcb);
    OtherQueue(s.procs, Pids(s.io), Waiting, p, pcb);
    CountUpdate(s.procs, p, pcb);
    GoodUpdate(s.procs, s.created, p, pcb);
    assert Placed(s.procs[p := pcb], s.current);
    s' := SetPcb(s, p, pcb).(timer := timer);
  }

  lemma CountDownGood(pcb: Pcb)
    requires GoodPcb(pcb) && pcb.state == Running && pcb.ops[pcb.pc].time > 0
    ensures GoodPcb(CountDown(pcb))
  {
  }

  lemma NextOpGood(pcb: Pcb)
    requires GoodPcb(pcb) && pcb.state == Running
    ensures pcb.pc + 1 < |pcb.ops|
    ensures match Upcoming(pcb).kind
            case OpCpu => GoodPcb(Advance(pcb))
            case OpIo => GoodPcb(Advance(pcb).(state := Waiting))
            case OpTerminate => GoodPcb(Advance(pcb).(state := Terminated))
  {
  }

  lemma BurstOverKeeps(s: Sim, n: nat) returns (s': Sim)
    requires Inv(s) && n < |s.cpu| && OnCpu(s, n) && Simulates(s, n) && HasOp(s, s.current[n].value, OpCpu)
    requires var pcb := s.procs[s.current[n].value]; pcb.ops[pcb.pc].time == 0
    ensures s' == NextOp(s, n) && Inv(s')
  {
    var p := s.current[n].value;
    var pcb := s.procs[p];
    NextOpGood(pcb);
    var next := Advance(pcb);
    match Upcoming(pcb).kind
    case OpIo =>
      s' := YieldKeeps(s, n, next, Upcoming(pcb).time);
    case OpTerminate =>
      s' := TerminateKeeps(s, n, next);
    case OpCpu =>
      s' := ComputeKeeps(s, n, next, s.timer);
  }

  lemma ProcessKeeps(s: Sim, n: nat) returns (s': Sim)
    requires Inv(s) && n < |s.cpu| && OnCpu(s, n) && Simulates(s, n)
    ensures s' == SimulateProcess(s, n) && Inv(s')
  {
    RunningAtCpuOp(s, n);
    var p := s.current[n].value;
    var pcb := s.procs[p];
    if pcb.ops[pcb.pc].time > 0 {
      var pcb1 := CountDown(pcb);
      var timer := s.timer[n := OneLess(s.timer[n])];
      CountDownGood(pcb);
      s' := ComputeKeeps(s, n, pcb1, timer);
      if timer[n] == 0 {
        s' := PreemptKeeps(s', n);
      }
    } else {
      s' := BurstOverKeeps(s, n);
    }
  }

  // ----- whole ticks and runs -----

  lemma IdleStepKeeps(s: Sim, n: nat) returns (s': Sim)
    requires Inv(s)
    ensures s' == IdleStep(s, n) && Inv(s')
  {
    s' := s;
    if n < |s.cpu| && s.cpu[n].None? {
      s' := ScheduleKeeps(s, n);
    }
  }

  lemma {:induction false} DispatchKeeps(s: Sim, picks: seq<nat>) returns (s': Sim)
    requires Inv(s)
    ensures s' == Dispatch(s, picks) && Inv(s')
    decreases |picks|
  {
    s' := s;
    if picks != [] {
      var s1 := IdleStepKeeps(s, picks[0]);
      s' := DispatchKeeps(s1, picks[1..]);
    }
  }

  lemma StepKeeps(s: Sim, n: nat) returns (s': Sim)
    requires Inv(s) && n < |s.cpu|
    ensures s' == CpuStep(s, n) && Inv(s')
  {
    s' := s;
    if s.cpu[n].Some? {
      RunningAtCpuOp(s, n);
      s' := ProcessKeeps(s, n);
    }
  }

  lemma CpuPhaseKeeps(s: Sim, n: nat, gaps: Gaps) returns (s': Sim)
    requires Inv(s) && n < |s.cpu|
    ensures s' == CpuPhase(s, n, gaps) && Inv(s')
  {
    s' := StepKeeps(s, n);
    s' := DispatchKeeps(s', Gap(gaps, n));
  }

  lemma CpusUnfold(s: Sim, n: nat, gaps: Gaps, s1: Sim)
    requires Sized(s) && n < |s.cpu| && s1 == CpuPhase(s, n, gaps)
    ensures SimulateCpus(s, n, gaps) == SimulateCpus(s1, n + 1, gaps) && |s1.cpu| == |s.cpu|
  {
  }

  lemma {:induction false} CpusKeepFrom(s: Sim, n: nat, gaps: Gaps, s': Sim)
    requires Inv(s) && s' == SimulateCpus(s, n, gaps)
    ensures Inv(s')
    decreases |s.cpu| - n
  {
    if n < |s.cpu| {
      var s1 := CpuPhaseKeeps(s, n, gaps);
      CpusUnfold(s, n, gaps, s1);
      CpusKeepFrom(s1, n + 1, gaps, s');
    }
  }

  lemma CpusKeep(s: Sim, gaps: Gaps) returns (s': Sim)
    requires Inv(s)
    ensures s' == SimulateCpus(s, 0, gaps) && Inv(s')
  {
    s' := SimulateCpus(s, 0, gaps);
    CpusKeepFrom(s, 0, gaps, s');
  }

  lemma CreatKeeps(s: Sim) returns (s': Sim)
    requires Inv(s)
    ensures s' == SimulateCreat(s) && Inv(s')
  {
    s' := s;
    if s.time % 10 == 0 && s.created < |s.procs| {
      s' := CreateKeeps(s);
    }
  }

  lemma IoPhaseKeeps(s: Sim, gaps: Gaps) returns (s': Sim)
    requires Inv(s)
    ensures s' == IoPhase(s, gaps) && Inv(s')
  {
    s' := IoTickKeeps(s);
    s' := DispatchKeeps(s', Gap(gaps, |s.cpu|));
  }

  lemma CreatPhaseKeeps(s: Sim, gaps: Gaps) returns (s': Sim)
    requires Inv(s)
    ensures s' == CreatPhase(s, gaps) && Inv(s')
  {
    s' := CreatKeeps(s);
    s' := DispatchKeeps(s', Gap(gaps, |s.cpu| + 1));
  }

  lemma ClockKeeps(s: Sim)
    requires Inv(s)
    ensures Inv(Clock(s))
  {
  }

  /** Every tick, with idle CPUs scheduled at any time in any order, keeps every process where it belongs. */
  lemma TickKeeps(s: Sim, gaps: Gaps) returns (s': Sim)
    requires Inv(s)
    ensures s' == Tick(s, gaps) && Inv(s')
  {
    var s1 := CpusKeep(s, gaps);
    var s2 := IoPhaseKeeps(s1, gaps);
    var s3 := CreatPhaseKeeps(s2, gaps);
    ClockKeeps(s3);
    s' := Tick(s, gaps);
  }
}
