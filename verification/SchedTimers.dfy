/** Who gets preempted, and when: the choice wake_up makes in priority mode, and the preemption timers. */
module SchedTimers {
  import opened Basics
  import opened SchedModel
  import opened SchedInvariant
  import opened SchedTermination

  // ----- wake_up's choice -----

  predicate Idle(s: Sim, n: nat)
    requires Sized(s) && n < |s.cpu|
  {
    !Runs(s, s.current[n])
  }

  function Prio(s: Sim, n: nat): nat
    requires Sized(s) && n < |s.cpu| && !Idle(s, n)
  {
    s.procs[s.current[n].value].priority
  }

  /** CPU v runs the lowest priority of all from i on, and is the first to do so. */
  predicate FirstLowest(s: Sim, i: nat, v: nat)
    requires Sized(s) && forall k :: i <= k < |s.cpu| ==> !Idle(s, k)
  {
    i <= v < |s.cpu| && forall k :: i <= k < |s.cpu| ==> Prio(s, k) >= Prio(s, v) && (k < v ==> Prio(s, k) > Prio(s, v))
  }

  /** The first CPU without a running process, if there is one; else the first of those that run the lowest priority,
      if that is below `least`; else the candidate so far. */
  lemma {:induction false} VictimIs(s: Sim, i: nat, least: nat, best: Option<nat>)
    requires Sized(s)
    ensures var v := Victim(s, i, least, best);
            if exists k :: i <= k < |s.cpu| && Idle(s, k) then
              v.Some? && i <= v.value < |s.cpu| && Idle(s, v.value) && forall k :: i <= k < v.value ==> !Idle(s, k)
            else if exists k :: i <= k < |s.cpu| && Prio(s, k) < least then
              v.Some? && FirstLowest(s, i, v.value)
            else v == best
    decreases |s.cpu| - i
  {
    if i < |s.cpu| && !Idle(s, i) {
      var q := Prio(s, i);
      if q < least {
        VictimIs(s, i + 1, q, Some(i));
      } else {
        VictimIs(s, i + 1, least, best);
      }
    }
  }

  // ----- timers -----

  /** With a time slice the timer counts it down; without one it only moves away from 0. */
  predicate InSlice(slice: int, left: int)
  {
    if slice >= 1 then 1 <= left <= slice else left <= slice
  }

  ghost predicate Timers(s: Sim)
  {
    Sized(s) && forall n :: 0 <= n < |s.cpu| && s.cpu[n].Some? ==> InSlice(s.slice, s.timer[n])
  }

  lemma ScheduleTimers(s: Sim, n: nat)
    requires Timers(s) && n < |s.cpu|
    ensures Timers(ScheduleWorker(s, n)) && ScheduleWorker(s, n).slice == s.slice
  {
  }

  lemma PreemptTimers(s: Sim, n: nat)
    requires Timers(s) && n < |s.cpu|
    ensures Timers(Preempt(s, n)) && Preempt(s, n).slice == s.slice
  {
    if OnCpu(s, n) {
      ScheduleTimers(MakeReady(s, s.current[n].value), n);
    } else {
      ScheduleTimers(s, n);
    }
  }

  /** The head of the queue, with p behind it, gets CPU n, and a new slice; it may be p itself. */
  ghost predicate HandsOver(s: Sim, s': Sim, n: nat, p: nat)
    requires Sized(s) && n < |s.cpu|
  {
    var queue := s.ready + [p];
    && |s'.procs| == |s.procs| && s'.timer == s.timer[n := s.slice]
    && s'.ready == queue[1..] && s'.cpu == s.cpu[n := Some(queue[0])] && s'.current == s.current[n := Some(queue[0])]
    && forall q :: 0 <= q < |s.procs| ==> s'.procs[q].state == if q == queue[0] then Running else if q == p then Ready
                                                              else s.procs[q].state
  }

  lemma PreemptHandsOver(s: Sim, n: nat)
    requires Sized(s) && OnCpu(s, n) && (s.ready != [] ==> s.ready[0] < |s.procs|)
    ensures HandsOver(s, Preempt(s, n), n, s.current[n].value)
  {
    var p := s.current[n].value;
    var s1 := MakeReady(s, p);
    assert s1.ready == s.ready + [p];
  }

  /** What preempt() does to a process whose timer runs out: it goes to the queue's tail and the queue's head runs;
      until then it keeps its CPU.  So with a slice a burst is cut after exactly that many ticks, and without one
      (FIFO and priority mode use -1) never. */
  lemma BurstIsCutIff(s: Sim, n: nat)
    requires Inv(s) && Timers(s) && OnCpu(s, n) && Simulates(s, n)
    requires var pcb := s.procs[s.cpu[n].value]; pcb.ops[pcb.pc].time > 0
    ensures var s' := SimulateProcess(s, n); var p := s.cpu[n].value;
            if s.timer[n] == 1 then s.slice >= 1 && HandsOver(s, s', n, p)
            else s'.cpu == s.cpu && s'.ready == s.ready && s'.procs[p].state == Running
                 && s'.timer == s.timer[n := s.timer[n] - 1]
  {
    RunningAtCpuOp(s, n);
    var p := s.cpu[n].value;
    var s2 := TimerTick(SetPcb(s, p, CountDown(s.procs[p])), n);
    if s.timer[n] == 1 {
      assert s.ready != [] ==> s.ready[0] in s.ready;
      PreemptHandsOver(s2, n);
      assert s2.timer[n := s.slice] == s.timer[n := s.slice];
    }
  }

  lemma ForcePreemptTimers(s: Sim, n: Option<nat>)
    requires Timers(s)
    ensures Timers(ForcePreempt(s, n)) && ForcePreempt(s, n).slice == s.slice
  {
    if n.Some? && n.value < |s.cpu| {
      PreemptTimers(s, n.value);
    }
  }

  lemma WakeUpTimers(s: Sim, p: nat)
    requires Timers(s) && p < |s.procs|
    ensures Timers(WakeUp(s, p)) && WakeUp(s, p).slice == s.slice
  {
    var s1 := MakeReady(s, p);
    ForcePreemptTimers(s1, Victim(s1, 0, s1.procs[p].priority, None));
  }

  lemma NextOpTimers(s: Sim, n: nat)
    requires Timers(s) && OnCpu(s, n) && Simulates(s, n)
    ensures Timers(NextOp(s, n)) && NextOp(s, n).slice == s.slice
  {
    var p := s.cpu[n].value;
    var pcb := s.procs[p];
    var s1 := SetPcb(s, p, Advance(pcb));
    if pcb.pc + 1 < |pcb.ops| {
      match Upcoming(pcb).kind
      case OpIo =>
        var s2 := s1.(io := s1.io + [IoRequest(p, Upcoming(pcb).time)]);
        ScheduleTimers(SetState(s2, s2.current[n].value, Waiting), n);
      case OpTerminate =>
        var s2 := s1.(terminated := s1.terminated + 1);
        ScheduleTimers(SetState(s2, s2.current[n].value, Terminated), n);
      case OpCpu =>
    }
  }

  lemma ProcessTimers(s: Sim, n: nat)
    requires Inv(s) && Timers(s) && OnCpu(s, n) && Simulates(s, n)
    ensures Timers(SimulateProcess(s, n)) && SimulateProcess(s, n).slice == s.slice
  {
    RunningAtCpuOp(s, n);
    var p := s.cpu[n].value;
    var pcb := s.procs[p];
    if pcb.ops[pcb.pc].time > 0 {
      CountedDown(s, n, CountDown(pcb));
    } else {
      NextOpTimers(s, n);
    }
  }

  lemma CountedDown(s: Sim, n: nat, pcb: Pcb)
    requires Timers(s) && OnCpu(s, n) && Simulates(s, n)
    ensures var s2 := TimerTick(SetPcb(s, s.cpu[n].value, pcb), n);
            if s2.timer[n] == 0 then Timers(Preempt(s2, n)) && Preempt(s2, n).slice == s.slice else Timers(s2)
  {
  }

  lemma {:induction false} DispatchTimers(s: Sim, picks: seq<nat>)
    requires Timers(s)
    ensures Timers(Dispatch(s, picks)) && Dispatch(s, picks).slice == s.slice
    decreases |picks|
  {
    if picks != [] {
      if picks[0] < |s.cpu| {
        ScheduleTimers(s, picks[0]);
      }
      DispatchTimers(IdleStep(s, picks[0]), picks[1..]);
    }
  }

  lemma {:induction false} CpusTimers(s: Sim, n: nat, gaps: Gaps)
    requires Inv(s) && Timers(s)
    ensures Timers(SimulateCpus(s, n, gaps)) && SimulateCpus(s, n, gaps).slice == s.slice
    decreases |s.cpu| - n
  {
    if n < |s.cpu| {
      if Simulates(s, n) && OnCpu(s, n) {
        ProcessTimers(s, n);
      }
      DispatchTimers(CpuStep(s, n), Gap(gaps, n));
      var s1 := CpuPhaseKeeps(s, n, gaps);
      CpusTimers(s1, n + 1, gaps);
    }
  }

  lemma IoTimers(s: Sim)
    requires Timers(s)
    ensures Timers(SimulateIo(s)) && SimulateIo(s).slice == s.slice
  {
    if s.io != [] && s.io[0].pid < |s.procs| && s.io[0].time == 0 {
      var p := s.io[0].pid;
      WakeUpTimers(SetPcb(s.(io := s.io[1..]), p, Advance(s.procs[p])), p);
    }
  }

  lemma CreatTimers(s: Sim)
    requires Timers(s)
    ensures Timers(SimulateCreat(s)) && SimulateCreat(s).slice == s.slice
  {
    if s.created < |s.procs| {
      WakeUpTimers(s, s.created);
    }
  }

  /** Every running process is within its slice, after every round. */
  lemma TickTimers(s: Sim, gaps: Gaps)
    requires Inv(s) && Timers(s)
    ensures Timers(Tick(s, gaps)) && Tick(s, gaps).slice == s.slice
  {
    CpusTimers(s, 0, gaps);
    var s1 := SimulateCpus(s, 0, gaps);
    IoTimers(s1);
    DispatchTimers(SimulateIo(s1), Gap(gaps, |s.cpu|));
    var s2 := IoPhase(s1, gaps);
    CreatTimers(s2);
    DispatchTimers(SimulateCreat(s2), Gap(gaps, |s.cpu| + 1));
  }

  lemma InitialTimers(s: Sim)
    requires Initial(s)
    ensures Timers(s)
  {
  }

  /** So it is after any number of rounds from the start, in every mode and whatever the idle CPUs do in between. */
  lemma {:induction false} RunTimers(s: Sim, rounds: seq<Gaps>)
    requires Inv(s) && Timers(s)
    ensures Timers(Run(s, rounds)) && Run(s, rounds).slice == s.slice
    decreases |rounds|
  {
    if rounds == [] {
    } else {
      TickTimers(s, rounds[0]);
      var s1 := TickKeeps(s, rounds[0]);
      RunTimers(s1, rounds[1..]);
    }
  }

  lemma RunFromStartTimers(s: Sim, rounds: seq<Gaps>)
    requires Initial(s)
    ensures Timers(Run(s, rounds)) && Run(s, rounds).slice == s.slice
  {
    InitialInv(s);
    InitialTimers(s);
    RunTimers(s, rounds);
  }
}
