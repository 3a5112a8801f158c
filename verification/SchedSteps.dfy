/** What each step of the scheduler and the simulator does, in terms of the queue, the CPUs and the processes alone. */
module SchedSteps {
  import opened Basics
  import opened SchedModel
  import opened SchedInvariant
  import opened SchedTimers

  /** CPU n gets a new slice and the head of the queue, or nothing if the queue is empty. */
  predicate Gets(s: Sim, s': Sim, n: nat, queue: seq<nat>)
    requires Sized(s) && n < |s.cpu|
  {
    var next := if queue == [] then None else Some(queue[0]);
    && s'.ready == (if queue == [] then [] else queue[1..]) && s'.timer == s.timer[n := s.slice]
    && s'.cpu == s.cpu[n := next] && s'.current == s.current[n := next]
  }

  /** No CPU and no timer changes, and the queue becomes this one. */
  predicate Queues(s: Sim, s': Sim, queue: seq<nat>)
  {
    s'.ready == queue && s'.timer == s.timer && s'.cpu == s.cpu && s'.current == s.current
  }

  predicate SameClocks(s: Sim, s': Sim)
  {
    && s'.mode == s.mode && s'.slice == s.slice && s'.time == s.time
    && s'.created == s.created && s'.terminated == s.terminated && s'.io == s.io
  }

  /** The pcb with the state a change of `head`, `p` and `q` gives it: the head runs, the other two are ready. */
  function Restated(pcb: Pcb, i: nat, head: nat, p: nat, q: nat): Pcb
  {
    if i == head then pcb.(state := Running)
    else if i == p || i == q then pcb.(state := Ready)
    else pcb
  }

  /** p is queued, and nothing else changes. */
  ghost predicate JustQueued(s: Sim, s': Sim, p: nat)
  {
    && SameClocks(s, s') && Queues(s, s', s.ready + [p]) && |s'.procs| == |s.procs|
    && forall i :: 0 <= i < |s.procs|
           ==> s'.procs[i] == if i == p then s.procs[i].(state := Ready) else s.procs[i]
  }

  /** p and, behind it, the process on CPU v are queued, and CPU v gets the head. */
  ghost predicate QueuedAndTakes(s: Sim, s': Sim, p: nat, v: nat)
    requires Sized(s) && v < |s.cpu| && s.current[v].Some?
  {
    var q := s.current[v].value;
    var queue := s.ready + [p, q];
    && SameClocks(s, s') && Gets(s, s', v, queue) && |s'.procs| == |s.procs|
    && forall i :: 0 <= i < |s.procs| ==> s'.procs[i] == Restated(s.procs[i], i, queue[0], p, q)
  }

  /** In priority mode, with every CPU running and one of them a lower priority than p's, the first CPU of those that
      run the lowest priority is handed over; in all other cases p is queued and no CPU changes. */
  ghost predicate Wakes(s: Sim, s': Sim, p: nat)
    requires Sized(s) && p < |s.procs|
  {
    if s.mode == Priority && (forall k :: 0 <= k < |s.cpu| ==> !Idle(s, k))
       && exists k :: 0 <= k < |s.cpu| && Prio(s, k) < s.procs[p].priority
    then exists v :: FirstLowest(s, 0, v) && !Idle(s, v) && QueuedAndTakes(s, s', p, v)
    else JustQueued(s, s', p)
  }

  /** Both tables agree, and name running processes only. */
  ghost predicate Tables(s: Sim)
  {
    && Sized(s) && s.cpu == s.current && (forall q :: q in s.ready ==> q < |s.procs|)
    && (forall n :: 0 <= n < |s.cpu| && s.current[n].Some? ==> Runs(s, s.current[n]))
    && forall m, n :: 0 <= m < n < |s.cpu| && s.current[m].Some? ==> s.current[m] != s.current[n]
  }

  lemma PreemptTakes(s: Sim, p: nat, v: nat)
    requires Tables(s) && p < |s.procs| && s.procs[p].state != Running && v < |s.cpu| && !Idle(s, v)
    ensures QueuedAndTakes(s, Preempt(MakeReady(s, p), v), p, v)
  {
    var q := s.current[v].value;
    var s2 := MakeReady(MakeReady(s, p), q);
    var queue := s.ready + [p, q];
    assert s2.ready == queue && s2.current[v] == Some(q);
    assert queue[0] == (if s.ready == [] then p else s.ready[0]) && (s.ready != [] ==> s.ready[0] in s.ready);
  }

  lemma SameWhenQueued(s: Sim, p: nat)
    requires Tables(s) && p < |s.procs| && s.procs[p].state != Running
    ensures var s1 := MakeReady(s, p);
            forall k :: 0 <= k < |s.cpu|
                ==> (Idle(s1, k) <==> Idle(s, k)) && (!Idle(s, k) ==> Prio(s1, k) == Prio(s, k))
  {
  }

  lemma LowestTaken(s: Sim, p: nat) returns (v: nat)
    requires Tables(s) && p < |s.procs| && s.procs[p].state != Running
    requires forall k :: 0 <= k < |s.cpu| ==> !Idle(s, k)
    requires exists k :: 0 <= k < |s.cpu| && Prio(s, k) < s.procs[p].priority
    ensures Victim(MakeReady(s, p), 0, s.procs[p].priority, None) == Some(v) && FirstLowest(s, 0, v)
  {
    var s1 := MakeReady(s, p);
    SameWhenQueued(s, p);
    VictimIs(s1, 0, s.procs[p].priority, None);
    var k :| 0 <= k < |s.cpu| && Prio(s, k) < s.procs[p].priority;
    assert !Idle(s1, k) && Prio(s1, k) < s.procs[p].priority;
    v := Victim(s1, 0, s.procs[p].priority, None).value;
  }

  lemma NoneTaken(s: Sim, p: nat)
    requires Tables(s) && p < |s.procs| && s.procs[p].state != Running
    requires (exists k :: 0 <= k < |s.cpu| && Idle(s, k))
             || forall k :: 0 <= k < |s.cpu| ==> Prio(s, k) >= s.procs[p].priority
    ensures ForcePreempt(MakeReady(s, p), Victim(MakeReady(s, p), 0, s.procs[p].priority, None)) == MakeReady(s, p)
  {
    var s1 := MakeReady(s, p);
    SameWhenQueued(s, p);
    VictimIs(s1, 0, s.procs[p].priority, None);
  }

  /** wake_up, for a process that is not running. */
  lemma WakeUpIs(s: Sim, p: nat)
    requires Tables(s) && p < |s.procs| && s.procs[p].state != Running
    ensures Wakes(s, WakeUp(s, p), p)
  {
    var s1 := MakeReady(s, p);
    if s.mode == Priority && (forall k :: 0 <= k < |s.cpu| ==> !Idle(s, k))
       && exists k :: 0 <= k < |s.cpu| && Prio(s, k) < s.procs[p].priority {
      var v := LowestTaken(s, p);
      PreemptTakes(s, p, v);
    } else if s.mode == Priority {
      NoneTaken(s, p);
    }
  }

  // ----- the end of a burst -----

  /** The process p on CPU n moves on to its next operation; with a request or at its end it leaves the CPU to the
      head of the queue. */
  ghost predicate Proceeds(s: Sim, s': Sim, n: nat, p: nat)
    requires Sized(s) && n < |s.cpu| && p < |s.procs| && s.procs[p].pc + 1 < |s.procs[p].ops|
  {
    var pcb := s.procs[p].(pc := s.procs[p].pc + 1);
    var op := pcb.ops[pcb.pc];
    && s'.mode == s.mode && s'.slice == s.slice && s'.time == s.time && s'.created == s.created
    && s'.io == (if op.kind == OpIo then s.io + [IoRequest(p, op.time)] else s.io)
    && s'.terminated == s.terminated + (if op.kind == OpTerminate then 1 else 0)
    && (if op.kind == OpCpu then Queues(s, s', s.ready) else Gets(s, s', n, s.ready))
    && |s'.procs| == |s.procs|
    && s'.procs[p] == (if op.kind == OpIo then pcb.(state := Waiting)
                       else if op.kind == OpTerminate then pcb.(state := Terminated) else pcb)
    && forall i :: 0 <= i < |s.procs| && i != p
           ==> s'.procs[i] == if op.kind != OpCpu && s.ready != [] && i == s.ready[0] then s.procs[i].(state := Running)
                              else s.procs[i]
  }

  lemma InvTables(s: Sim)
    requires Inv(s)
    ensures Tables(s)
  {
    forall n | 0 <= n < |s.cpu| && s.current[n].Some?
      ensures Runs(s, s.current[n])
    {
    }
  }

  /** p leaves CPU n in this state, and the head of the queue gets it. */
  ghost predicate Left(s: Sim, s': Sim, n: nat, p: nat, st: ProcState)
    requires Sized(s) && n < |s.cpu| && p < |s.procs|
  {
    && Gets(s, s', n, s.ready) && SameClocks(s, s') && |s'.procs| == |s.procs|
    && s'.procs[p] == s.procs[p].(state := st)
    && forall i :: 0 <= i < |s.procs| && i != p
           ==> s'.procs[i] == if s.ready != [] && i == s.ready[0] then s.procs[i].(state := Running) else s.procs[i]
  }

  lemma LeavesCpu(s: Sim, n: nat, p: nat, st: ProcState)
    requires Tables(s) && n < |s.cpu| && s.current[n] == Some(p) && p < |s.procs| && st != Running && p !in s.ready
    ensures Left(s, ScheduleWorker(SetState(s, p, st), n), n, p, st)
  {
    assert s.ready != [] ==> s.ready[0] in s.ready;
  }

  /** Where LeavesCpu applies: the process has moved on, and the request or the count is in place. */
  lemma MovedOn(s: Sim, n: nat, p: nat, io: seq<IoRequest>, done: nat)
    requires Inv(s) && n < |s.cpu| && s.cpu[n] == Some(p) && OnCpu(s, n)
    ensures var s1 := SetPcb(s, p, Advance(s.procs[p])).(io := io, terminated := done);
            Tables(s1) && s1.current[n] == Some(p) && p !in s1.ready
  {
    InvTables(s);
  }

  lemma LeftProceeds(s: Sim, s1: Sim, s': Sim, n: nat, p: nat, st: ProcState)
    requires Sized(s) && n < |s.cpu| && p < |s.procs| && s.procs[p].pc + 1 < |s.procs[p].ops|
    requires var op := s.procs[p].ops[s.procs[p].pc + 1];
             && s1 == s.(procs := s.procs[p := s.procs[p].(pc := s.procs[p].pc + 1)],
                         io := if op.kind == OpIo then s.io + [IoRequest(p, op.time)] else s.io,
                         terminated := s.terminated + if op.kind == OpTerminate then 1 else 0)
             && op.kind != OpCpu && st == if op.kind == OpIo then Waiting else Terminated
    requires Left(s1, s', n, p, st)
    ensures Proceeds(s, s', n, p)
  {
  }

  lemma RequestProceeds(s: Sim, n: nat, p: nat) returns (s': Sim)
    requires Inv(s) && n < |s.cpu| && s.cpu[n] == Some(p) && OnCpu(s, n) && Simulates(s, n)
    requires s.procs[p].pc + 1 < |s.procs[p].ops| && Upcoming(s.procs[p]).kind == OpIo
    ensures s' == NextOp(s, n) && Proceeds(s, s', n, p)
  {
    var io := s.io + [IoRequest(p, Upcoming(s.procs[p]).time)];
    var s1 := SetPcb(s, p, Advance(s.procs[p])).(io := io);
    MovedOn(s, n, p, io, s.terminated);
    LeavesCpu(s1, n, p, Waiting);
    s' := ScheduleWorker(SetState(s1, p, Waiting), n);
    LeftProceeds(s, s1, s', n, p, Waiting);
  }

  lemma EndProceeds(s: Sim, n: nat, p: nat) returns (s': Sim)
    requires Inv(s) && n < |s.cpu| && s.cpu[n] == Some(p) && OnCpu(s, n) && Simulates(s, n)
    requires s.procs[p].pc + 1 < |s.procs[p].ops| && Upcoming(s.procs[p]).kind == OpTerminate
    ensures s' == NextOp(s, n) && Proceeds(s, s', n, p)
  {
    var s1 := SetPcb(s, p, Advance(s.procs[p])).(terminated := s.terminated + 1);
    MovedOn(s, n, p, s.io, s.terminated + 1);
    LeavesCpu(s1, n, p, Terminated);
    s' := ScheduleWorker(SetState(s1, p, Terminated), n);
    LeftProceeds(s, s1, s', n, p, Terminated);
  }

  lemma BurstEnds(s: Sim, n: nat, p: nat)
    requires Inv(s) && n < |s.cpu| && s.cpu[n] == Some(p)
    ensures p < |s.procs| && s.procs[p].pc + 1 < |s.procs[p].ops| && OnCpu(s, n) && Simulates(s, n)
    ensures s.procs[p].ops[s.procs[p].pc].time == 0 ==> Proceeds(s, SimulateProcess(s, n), n, p)
  {
    RunningAtCpuOp(s, n);
    match Upcoming(s.procs[p]).kind
    case OpIo => var s' := RequestProceeds(s, n, p);
    case OpTerminate => var s' := EndProceeds(s, n, p);
    case OpCpu =>
  }

  // ----- idle CPUs, requests and creations -----

  /** An idle CPU takes the head of the queue. */
  lemma IdleTakes(s: Sim, n: nat)
    requires Inv(s) && n < |s.cpu| && s.cpu[n].None?
    ensures var s' := IdleStep(s, n);
            && Gets(s, s', n, s.ready) && SameClocks(s, s') && |s'.procs| == |s.procs|
            && forall i :: 0 <= i < |s.procs|
                   ==> s'.procs[i] == if s.ready != [] && i == s.ready[0] then s.procs[i].(state := Running)
                                      else s.procs[i]
  {
    assert s.ready != [] ==> s.ready[0] in s.ready;
  }

  /** The head request counts down; at 0 it leaves the queue, and its process wakes up at its next operation. */
  ghost predicate Serves(s: Sim, s': Sim)
    requires Sized(s)
  {
    if s.io == [] then s' == s
    else if s.io[0].time > 0 then
      SameClocks(s.(io := [IoRequest(s.io[0].pid, s.io[0].time - 1)] + s.io[1..]), s') && Queues(s, s', s.ready)
      && s'.procs == s.procs
    else
      var p := s.io[0].pid;
      p < |s.procs|
      && var moved := s.procs[p].(pc := s.procs[p].pc + 1);
         Wakes(s.(io := s.io[1..], procs := s.procs[p := moved]), s', p)
  }

  lemma RequestDone(s: Sim) returns (p: nat, s1: Sim)
    requires Inv(s) && s.io != [] && s.io[0].time == 0
    ensures p == s.io[0].pid < |s.procs| && s.procs[p].state == Waiting
    ensures s1 == s.(io := s.io[1..], procs := s.procs[p := s.procs[p].(pc := s.procs[p].pc + 1)])
    ensures Tables(s1) && Wakes(s1, SimulateIo(s), p)
  {
    p := s.io[0].pid;
    assert Pids(s.io)[0] == p && p in Pids(s.io);
    InvTables(s);
    s1 := SetPcb(s.(io := s.io[1..]), p, Advance(s.procs[p]));
    assert forall n :: 0 <= n < |s.cpu| && s.current[n].Some? ==> s.current[n].value != p;
    assert Tables(s1);
    WakeUpIs(s1, p);
  }

  lemma RequestServed(s: Sim)
    requires Inv(s)
    ensures Serves(s, SimulateIo(s))
  {
    if s.io != [] {
      var p := s.io[0].pid;
      assert Pids(s.io)[0] == p && p in Pids(s.io);
      if s.io[0].time == 0 {
        var q, s1 := RequestDone(s);
      }
    }
  }

  /** Every tenth tick the next process, if there is one, wakes up for the first time. */
  lemma NextCreated(s: Sim)
    requires Inv(s)
    ensures var s' := SimulateCreat(s);
            if s.time % 10 == 0 && s.created < |s.procs|
            then s'.created == s.created + 1 && Wakes(s, s'.(created := s.created), s.created)
            else s' == s
  {
    if s.time % 10 == 0 && s.created < |s.procs| {
      InvTables(s);
      WakeUpIs(s, s.created);
      assert SimulateCreat(s).(created := s.created) == WakeUp(s, s.created);
    }
  }

  // ----- the order of a round -----

  /** Process p neither computes nor moves on. */
  predicate SameWork(s: Sim, s': Sim, p: nat)
    requires p < |s.procs| == |s'.procs|
  {
    s'.procs[p].ops == s.procs[p].ops && s'.procs[p].pc == s.procs[p].pc
  }

  /** Not in the ready queue and not on a CPU. */
  predicate Away(s: Sim, p: nat)
  {
    p < |s.procs| && (s.procs[p].state == New || s.procs[p].state == Waiting)
  }

  lemma PreemptLeaves(s: Sim, n: nat, p: nat)
    requires Tables(s) && OnCpu(s, n) && p < |s.procs| && s.current[n] != Some(p) && p !in s.ready
    ensures Preempt(s, n).procs[p] == s.procs[p] && Preempt(s, n).io == s.io
  {
    var q := s.current[n].value;
    assert (s.ready + [q])[0] == (if s.ready == [] then q else s.ready[0]);
    assert s.ready != [] ==> s.ready[0] in s.ready;
  }

  /** A CPU's turn leaves all others alone, and only ever appends requests. */
  lemma TurnLeaves(s: Sim, n: nat, p: nat)
    requires Inv(s) && n < |s.cpu| && Away(s, p)
    ensures CpuStep(s, n).procs[p] == s.procs[p] && s.io <= CpuStep(s, n).io
  {
    if s.cpu[n].Some? {
      var q := s.cpu[n].value;
      BurstEnds(s, n, q);
      if s.procs[q].ops[s.procs[q].pc].time > 0 {
        RunningAtCpuOp(s, n);
        var s2 := TimerTick(SetPcb(s, q, CountDown(s.procs[q])), n);
        InvTables(s);
        assert Tables(s2) && OnCpu(s2, n);
        PreemptLeaves(s2, n, p);
      } else {
        assert s.ready != [] ==> s.ready[0] in s.ready;
      }
    }
  }

  lemma {:induction false} DispatchLeaves(s: Sim, picks: seq<nat>, p: nat)
    requires Inv(s) && p < |s.procs|
    ensures SameWork(s, Dispatch(s, picks), p) && (Away(s, p) ==> Dispatch(s, picks).procs[p] == s.procs[p])
    decreases |picks|
  {
    if picks != [] {
      if picks[0] < |s.cpu| && s.cpu[picks[0]].None? {
        IdleTakes(s, picks[0]);
        assert s.ready != [] ==> s.ready[0] in s.ready;
      }
      var s1 := IdleStepKeeps(s, picks[0]);
      DispatchLeaves(s1, picks[1..], p);
    }
  }

  lemma PhaseLeaves(s: Sim, n: nat, gaps: Gaps, p: nat) returns (s': Sim)
    requires Inv(s) && n < |s.cpu| && Away(s, p)
    ensures s' == CpuPhase(s, n, gaps) && Inv(s') && s'.procs[p] == s.procs[p] && s.io <= s'.io
  {
    TurnLeaves(s, n, p);
    var s1 := StepKeeps(s, n);
    DispatchLeaves(s1, Gap(gaps, n), p);
    s' := CpuPhaseKeeps(s, n, gaps);
  }

  lemma {:induction false} CpusLeave(s: Sim, n: nat, gaps: Gaps, p: nat) returns (s': Sim)
    requires Inv(s) && Away(s, p)
    ensures s' == SimulateCpus(s, n, gaps) && s'.procs[p] == s.procs[p] && s.io <= s'.io
    decreases |s.cpu| - n
  {
    if n < |s.cpu| {
      var s1 := PhaseLeaves(s, n, gaps, p);
      s' := CpusLeave(s1, n + 1, gaps, p);
    } else {
      s' := s;
    }
  }

  lemma WakesLeaves(s: Sim, s': Sim, q: nat, p: nat)
    requires Tables(s) && q < |s.procs| && p < |s.procs| && Wakes(s, s', q)
    ensures |s'.procs| == |s.procs| && SameWork(s, s', p)
    ensures p != q && p !in s.ready && s.procs[p].state != Running ==> s'.procs[p] == s.procs[p]
  {
    assert s.ready != [] ==> s.ready[0] in s.ready;
  }

  lemma ServedLeaves(s: Sim, p: nat)
    requires Inv(s) && p < |s.procs|
    ensures s.io == [] || s.io[0].pid != p ==> SameWork(s, SimulateIo(s), p)
    ensures s.procs[p].state == New ==> SimulateIo(s).procs[p] == s.procs[p]
    ensures s.io != [] && s.io[0].pid == p && s.io[0].time == 0
            ==> SimulateIo(s).procs[p].ops == s.procs[p].ops && SimulateIo(s).procs[p].pc == s.procs[p].pc + 1
  {
    if s.io != [] && s.io[0].time == 0 {
      var q, s1 := RequestDone(s);
      WakesLeaves(s1, SimulateIo(s), q, p);
    } else {
      RequestServed(s);
    }
  }

  lemma CreationLeaves(s: Sim, p: nat)
    requires Inv(s) && p < |s.procs|
    ensures SameWork(s, SimulateCreat(s), p)
  {
    NextCreated(s);
    if s.time % 10 == 0 && s.created < |s.procs| {
      InvTables(s);
      WakesLeaves(s, SimulateCreat(s).(created := s.created), s.created, p);
    }
  }

  /** The creations come last: a process does not compute in the round that creates it, whatever the idle CPUs do. */
  lemma NewcomerWaits(s: Sim, gaps: Gaps)
    requires Inv(s) && s.created < |s.procs|
    ensures SameWork(s, Tick(s, gaps), s.created)
  {
    var p := s.created;
    var s1 := CpusLeave(s, 0, gaps, p);
    s1 := CpusKeep(s, gaps);
    ServedLeaves(s1, p);
    var s2 := IoTickKeeps(s1);
    DispatchLeaves(s2, Gap(gaps, |s.cpu|), p);
    AfterRequests(s2, gaps, p);
  }

  lemma AfterRequests(s: Sim, gaps: Gaps, p: nat)
    requires Inv(s) && p < |s.procs|
    ensures SameWork(s, Clock(CreatPhase(Dispatch(s, Gap(gaps, |s.cpu|)), gaps)), p)
  {
    DispatchLeaves(s, Gap(gaps, |s.cpu|), p);
    var s1 := DispatchKeeps(s, Gap(gaps, |s.cpu|));
    CreationLeaves(s1, p);
    var s2 := CreatKeeps(s1);
    DispatchLeaves(s2, Gap(gaps, |s.cpu| + 1), p);
  }

  /** The request comes behind the CPUs: a process whose request is done moves on to its next operation in that round,
      and does not compute in it. */
  lemma WokenWaits(s: Sim, gaps: Gaps)
    requires Inv(s) && s.io != [] && s.io[0].time == 0
    ensures var p, s' := s.io[0].pid, Tick(s, gaps);
            p < |s.procs| && s'.procs[p].ops == s.procs[p].ops && s'.procs[p].pc == s.procs[p].pc + 1
  {
    var p := s.io[0].pid;
    assert Pids(s.io)[0] == p && p in Pids(s.io);
    var s1 := CpusLeave(s, 0, gaps, p);
    s1 := CpusKeep(s, gaps);
    assert s1.io[0] == s.io[0];
    ServedLeaves(s1, p);
    var s2 := IoTickKeeps(s1);
    AfterRequests(s2, gaps, p);
  }

  lemma {:induction false} DispatchMode(s: Sim, picks: seq<nat>)
    requires Sized(s)
    ensures Dispatch(s, picks).mode == s.mode
    decreases |picks|
  {
    if picks != [] {
      DispatchMode(IdleStep(s, picks[0]), picks[1..]);
    }
  }

  lemma {:induction false} CpusMode(s: Sim, n: nat, gaps: Gaps)
    requires Sized(s)
    ensures SimulateCpus(s, n, gaps).mode == s.mode
    decreases |s.cpu| - n
  {
    if n < |s.cpu| {
      DispatchMode(CpuStep(s, n), Gap(gaps, n));
      CpusMode(CpuPhase(s, n, gaps), n + 1, gaps);
    }
  }

  function Woken(s: Sim): seq<nat>
  {
    if s.io != [] && s.io[0].time == 0 then [s.io[0].pid] else []
  }

  function Newcomer(s: Sim): seq<nat>
  {
    if s.time % 10 == 0 && s.created < |s.procs| then [s.created] else []
  }

  lemma RequestQueues(s: Sim)
    requires Inv(s) && s.mode != Priority
    ensures SimulateIo(s).ready == s.ready + Woken(s) && SimulateIo(s).mode == s.mode
  {
    RequestServed(s);
  }

  lemma CreationQueues(s: Sim)
    requires Inv(s) && s.mode != Priority
    ensures SimulateCreat(s).ready == s.ready + Newcomer(s)
  {
    NextCreated(s);
  }

  /** And the request comes before the creation: in the queue the woken process stands in front of the new one. */
  lemma WokenBeforeCreated(s: Sim, gaps: Gaps)
    requires Inv(s) && s.mode != Priority && Gap(gaps, |s.cpu|) == [] && Gap(gaps, |s.cpu| + 1) == []
    ensures var s1 := SimulateCpus(s, 0, gaps);
            Tick(s, gaps).ready == s1.ready + Woken(s1) + Newcomer(s)
  {
    var s1 := CpusKeep(s, gaps);
    CpusMode(s, 0, gaps);
    RequestQueues(s1);
    var s2 := IoTickKeeps(s1);
    CreationQueues(s2);
    assert Tick(s, gaps) == Clock(SimulateCreat(s2));
  }
}
