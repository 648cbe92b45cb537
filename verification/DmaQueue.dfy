/**
 benchmarks/common/queue_dma.c: a ring of DMA transfers that a driver hands to a device through its
 registers, together with the start and completion of a transfer in src/hwacc/noncoherent_dma.cc.
 Calls of the driver and ticks of the device are atomic steps, in any order.
 */
module DmaQueue {

  datatype Job = Job(dst: nat, src: nat, len: int)

  const QUEUE_SIZE: nat := 8

  /** The bits 0x01, 0x02 and 0x04 of the FLAGS register. */
  datatype Flags = Flags(start: bool, busy: bool, done: bool)

  const NO_FLAGS := Flags(false, false, false)

  // ----- the system as a bounded queue -----

  /**
   The waiting jobs, the registers, whether the device is running and with which job; and what has
   happened so far: jobs accepted by `dmacpy`, written to the registers, and started by the device.
   */
  datatype System = System(queue: seq<Job>, flags: Flags, regs: Job, running: bool, active: Job,
                           accepted: seq<Job>, launched: seq<Job>, started: seq<Job>)

  datatype Op =
    | Dmacpy(job: Job)
    | LaunchCpy
    | ResetDma
    | Tick(finished: bool)

  function Launch(s: System): System {
    if s.queue == [] then
      s.(flags := NO_FLAGS)
    else
      s.(queue := s.queue[1..], regs := s.queue[0], flags := s.flags.(start := true),
         launched := s.launched + [s.queue[0]])
  }

  function Enqueue(s: System, job: Job): System {
    s.(queue := s.queue + [job], accepted := s.accepted + [job])
  }

  predicate Full(s: System) {
    |s.queue| == QUEUE_SIZE
  }

  /** The device takes over the registers when it is told to start and is not running. */
  function StartTransfer(s: System): System {
    if !s.running && s.flags.start then
      s.(running := true, active := s.regs, started := s.started + [s.regs],
         flags := s.flags.(start := false, busy := true))
    else s
  }

  function FinishTransfer(s: System): System {
    if s.running then s.(running := false, flags := s.flags.(busy := false, done := true)) else s
  }

  function Step(s: System, op: Op): System {
    match op
    case Dmacpy(job) =>
      if Full(s) then s
      else if s.flags.busy then Enqueue(s, job)
      else Launch(Enqueue(s, job))
    case LaunchCpy => Launch(s)
    case ResetDma => s.(flags := NO_FLAGS)
    case Tick(finished) => if finished then FinishTransfer(StartTransfer(s)) else StartTransfer(s)
  }

  function Initial(): System {
    var none := Job(0, 0, 0);
    System([], NO_FLAGS, none, false, none, [], [], [])
  }

  function Run(ops: seq<Op>): System {
    if ops == [] then Initial() else Step(Run(ops[..|ops| - 1]), ops[|ops| - 1])
  }

  // ----- what every run keeps -----

  /** No more than QUEUE_SIZE jobs wait; what was launched and what waits is what was accepted, in order. */
  ghost predicate InOrder(s: System) {
    |s.queue| <= QUEUE_SIZE && s.launched + s.queue == s.accepted
  }

  lemma LaunchKeepsOrder(s: System)
    requires InOrder(s)
    ensures InOrder(Launch(s))
  {
    if s.queue != [] {
      assert s.queue == [s.queue[0]] + s.queue[1..];
      assert s.launched + [s.queue[0]] + s.queue[1..] == s.launched + s.queue;
    }
  }

  lemma EnqueueKeepsOrder(s: System, job: Job)
    requires InOrder(s) && !Full(s)
    ensures InOrder(Enqueue(s, job))
  {
    assert s.launched + (s.queue + [job]) == s.accepted + [job];
  }

  lemma {:induction false} EveryRunInOrder(ops: seq<Op>)
    ensures InOrder(Run(ops))
  {
    if ops != [] {
      var s, op := Run(ops[..|ops| - 1]), ops[|ops| - 1];
      EveryRunInOrder(ops[..|ops| - 1]);
      LaunchKeepsOrder(s);
      if op.Dmacpy? && !Full(s) {
        EnqueueKeepsOrder(s, op.job);
        LaunchKeepsOrder(Enqueue(s, op.job));
      }
    }
  }

  // ----- which launched jobs the device really starts -----

  /** The job in the registers that waits for the device, if the start bit is set. */
  function Waiting(s: System): seq<Job> {
    if s.flags.start then [s.regs] else []
  }

  /** The step writes or clears the start bit while it is still set from an earlier launch. */
  predicate Overruns(s: System, op: Op) {
    s.flags.start &&
    match op
    case Dmacpy(_) => !Full(s) && !s.flags.busy
    case LaunchCpy => true
    case ResetDma => true
    case Tick(_) => false
  }

  ghost function OverrunCount(ops: seq<Op>): nat {
    if ops == [] then 0
    else
      var before := ops[..|ops| - 1];
      OverrunCount(before) + if Overruns(Run(before), ops[|ops| - 1]) then 1 else 0
  }

  /** Each overrun loses exactly one launched job. */
  lemma {:induction false} OverrunsLose(ops: seq<Op>)
    ensures var s := Run(ops); |s.launched| == |s.started| + |Waiting(s)| + OverrunCount(ops)
  {
    if ops != [] {
      var k := |ops| - 1;
      OverrunsLose(ops[..k]);
      StepLoses(Run(ops[..k]), ops[k]);
    }
  }

  lemma StepLoses(s: System, op: Op)
    ensures var now := Step(s, op);
            |now.launched| - |now.started| - |Waiting(now)| ==
            |s.launched| - |s.started| - |Waiting(s)| + if Overruns(s, op) then 1 else 0
  {
  }

  lemma LaunchDelivers(s: System)
    requires s.launched == s.started + Waiting(s) && !s.flags.start
    ensures Launch(s).launched == Launch(s).started + Waiting(Launch(s))
  {
    assert s.started + [] == s.started;
  }

  lemma StartDelivers(s: System)
    requires s.launched == s.started + Waiting(s)
    ensures StartTransfer(s).launched == StartTransfer(s).started + Waiting(StartTransfer(s))
  {
    assert s.started + [s.regs] + [] == s.started + [s.regs];
  }

  lemma StepDelivers(s: System, op: Op)
    requires s.launched == s.started + Waiting(s) && !Overruns(s, op)
    ensures Step(s, op).launched == Step(s, op).started + Waiting(Step(s, op))
  {
    match op
    case Dmacpy(job) =>
      if !Full(s) && !s.flags.busy {
        LaunchDelivers(Enqueue(s, job));
      }
    case LaunchCpy => LaunchDelivers(s);
    case ResetDma =>
    case Tick(_) => StartDelivers(s);
  }

  lemma {:induction false} NoOverrunDelivers(ops: seq<Op>)
    requires OverrunCount(ops) == 0
    ensures var s := Run(ops); s.launched == s.started + Waiting(s)
  {
    if ops != [] {
      var k := |ops| - 1;
      NoOverrunDelivers(ops[..k]);
      StepDelivers(Run(ops[..k]), ops[k]);
    }
  }

  /** Every accepted job has been started by the device, waits in the registers or waits in the queue, in order. */
  ghost predicate Delivers(s: System) {
    s.accepted == s.started + Waiting(s) + s.queue
  }

  /**
   The device gets every accepted job, once and in order, if and only if no launch and no reset
   ever happened while the start bit was still set.
   */
  lemma DeliversIffNoOverrun(ops: seq<Op>)
    ensures Delivers(Run(ops)) <==> OverrunCount(ops) == 0
  {
    var s := Run(ops);
    EveryRunInOrder(ops);
    OverrunsLose(ops);
    assert |s.accepted| == |s.launched| + |s.queue|;
    if OverrunCount(ops) == 0 {
      NoOverrunDelivers(ops);
    }
  }

  /** Two calls of `dmacpy` before the device has ticked lose the first job. */
  lemma BackToBackLosesJob(a: Job, b: Job)
    ensures Run([Dmacpy(a), Dmacpy(b), Tick(false)]).accepted == [a, b]
    ensures Run([Dmacpy(a), Dmacpy(b), Tick(false)]).started == [b]
    ensures Run([Dmacpy(a), Dmacpy(b), Tick(false)]).queue == []
  {
    var first := Run([] + [Dmacpy(a)]);
    RunNext([], Dmacpy(a));
    assert Run([]) == Initial();
    assert first.queue == [] && first.accepted == [a] && first.started == [];
    assert first.flags == Flags(true, false, false);
    RunNext([] + [Dmacpy(a)], Dmacpy(b));
    var second := Run([] + [Dmacpy(a)] + [Dmacpy(b)]);
    assert second.queue == [] && second.accepted == [a, b] && second.regs == b && second.started == [];
    assert second.flags == Flags(true, false, false) && !second.running;
    RunNext([] + [Dmacpy(a)] + [Dmacpy(b)], Tick(false));
    assert [] + [Dmacpy(a)] + [Dmacpy(b)] + [Tick(false)] == [Dmacpy(a), Dmacpy(b), Tick(false)];
  }

  lemma RunNext(ops: seq<Op>, op: Op)
    ensures Run(ops + [op]) == Step(Run(ops), op)
  {
    assert (ops + [op])[..|ops|] == ops;
  }

  // ----- single steps -----

  /**
   A job is refused when eight are waiting. Otherwise it waits behind them, and the first of all of
   them goes to the registers unless the device is busy.
   */
  lemma DmacpyIs(s: System, job: Job)
    ensures var all, now := s.queue + [job], Step(s, Dmacpy(job));
            && (|s.queue| == 8 ==> now == s)
            && (|s.queue| != 8 ==> now.accepted == s.accepted + [job] && now.started == s.started)
            && (|s.queue| != 8 && s.flags.busy ==>
                  now.queue == all && now.regs == s.regs && now.flags == s.flags && now.launched == s.launched)
            && (|s.queue| != 8 && !s.flags.busy ==>
                  && now.queue == all[1..] && now.regs == all[0] && now.launched == s.launched + [all[0]]
                  && now.flags == Flags(true, false, s.flags.done))
  {
  }

  /** The next waiting job goes to the registers; without one, all flags are cleared. */
  lemma LaunchIs(s: System)
    ensures var now := Step(s, LaunchCpy);
            && (s.queue == [] ==> now == s.(flags := Flags(false, false, false)))
            && (s.queue != [] ==>
                  && now.queue == s.queue[1..] && now.regs == s.queue[0] && now.launched == s.launched + [s.queue[0]]
                  && now.flags == Flags(true, s.flags.busy, s.flags.done) && now.accepted == s.accepted)
  {
  }

  /** A tick starts the job in the registers if the start bit is set and nothing is running. */
  lemma TickIs(s: System, finished: bool)
    ensures var now := Step(s, Tick(finished));
            && now.started == s.started + (if s.flags.start && !s.running then [s.regs] else [])
            && (s.flags.start && !s.running ==> now.active == s.regs && !now.flags.start)
            && now.running == ((s.running || s.flags.start) && !finished)
            && (!finished && !s.running && s.flags.start ==> now.flags == Flags(false, true, s.flags.done))
            && (finished && (s.running || s.flags.start) ==> now.flags.done && !now.flags.busy)
            && now.queue == s.queue && now.regs == s.regs && now.launched == s.launched && now.accepted == s.accepted
  {
  }

  /** The busy bit is only set while a transfer is running. */
  lemma {:induction false} BusyMeansRunning(ops: seq<Op>)
    ensures Run(ops).flags.busy ==> Run(ops).running
  {
    if ops != [] {
      BusyMeansRunning(ops[..|ops| - 1]);
    }
  }

  /** As long as nobody clears the flags, it is set exactly then. */
  lemma {:induction false} BusyIffRunning(ops: seq<Op>)
    requires forall k :: 0 <= k < |ops| ==> !ops[k].ResetDma? && (ops[k].LaunchCpy? ==> Run(ops[..k]).queue != [])
    ensures Run(ops).flags.busy <==> Run(ops).running
  {
    if ops != [] {
      var init := ops[..|ops| - 1];
      forall k | 0 <= k < |init| ensures !init[k].ResetDma? && (init[k].LaunchCpy? ==> Run(init[..k]).queue != []) {
        assert init[..k] == ops[..k] && init[k] == ops[k];
      }
      BusyIffRunning(init);
      assert !ops[|init|].ResetDma? && (ops[|init|].LaunchCpy? ==> Run(init).queue != []);
    }
  }

  /** In every run, a job that is given when a transfer has finished is launched at once, or the one it waits for. */
  lemma LaunchedAfterFinish(ops: seq<Op>, job: Job)
    requires |Run(ops + [Tick(true)]).queue| < 8
    ensures var s := Run(ops + [Tick(true)]);
            var now := Step(s, Dmacpy(job));
            !s.running && !s.flags.busy && now.flags.start && now.regs == (s.queue + [job])[0] &&
            now.queue == (s.queue + [job])[1..]
  {
    RunNext(ops, Tick(true));
    BusyMeansRunning(ops);
  }

  // ----- the ring -----

  /** Position k of the ring, counted from `from`. */
  function Slot(from: nat, k: nat): (i: nat)
    requires from < QUEUE_SIZE && k <= QUEUE_SIZE
    ensures i < QUEUE_SIZE
  {
    if from + k < QUEUE_SIZE then from + k else from + k - QUEUE_SIZE
  }

  /** The n jobs of the ring from position `from` on. */
  ghost function Segment(jobs: seq<Job>, from: nat, n: nat): (q: seq<Job>)
    requires |jobs| == QUEUE_SIZE && from < QUEUE_SIZE && n <= QUEUE_SIZE
    ensures |q| == n && forall k :: 0 <= k < n ==> q[k] == jobs[Slot(from, k)]
  {
    if n == 0 then [] else Segment(jobs, from, n - 1) + [jobs[Slot(from, n - 1)]]
  }

  lemma SegmentFront(jobs: seq<Job>, from: nat, n: nat)
    requires |jobs| == QUEUE_SIZE && from < QUEUE_SIZE && 0 < n <= QUEUE_SIZE
    ensures Segment(jobs, from, n)[0] == jobs[from]
    ensures Segment(jobs, from, n)[1..] == Segment(jobs, Slot(from, 1), n - 1)
  {
    var tail := Segment(jobs, from, n)[1..];
    forall k | 0 <= k < n - 1 ensures tail[k] == jobs[Slot(Slot(from, 1), k)] {
      assert Slot(Slot(from, 1), k) == Slot(from, k + 1);
    }
  }

  lemma SegmentBack(jobs: seq<Job>, from: nat, n: nat, job: Job)
    requires |jobs| == QUEUE_SIZE && from < QUEUE_SIZE && n < QUEUE_SIZE
    ensures Segment(jobs[Slot(from, n) := job], from, n + 1) == Segment(jobs, from, n) + [job]
  {
    var more := jobs[Slot(from, n) := job];
    forall k | 0 <= k < n ensures more[Slot(from, k)] == jobs[Slot(from, k)] {
    }
  }

  /** The valid bits mark exactly the n slots from `from` on. */
  ghost predicate Marked(valid: seq<int>, from: nat, n: nat) {
    && |valid| == QUEUE_SIZE && from < QUEUE_SIZE && n <= QUEUE_SIZE
    && forall k :: 0 <= k < QUEUE_SIZE ==> valid[Slot(from, k)] == if k < n then 1 else 0
  }

  lemma MarkedFront(valid: seq<int>, from: nat, n: nat)
    requires Marked(valid, from, n)
    ensures valid[from] == 1 <==> n > 0
    ensures n > 0 ==> Marked(valid[from := 0], Slot(from, 1), n - 1)
  {
    assert Slot(from, 0) == from;
    if n > 0 {
      var after := valid[from := 0];
      forall k | 0 <= k < QUEUE_SIZE ensures after[Slot(Slot(from, 1), k)] == if k < n - 1 then 1 else 0 {
        if k < QUEUE_SIZE - 1 {
          assert Slot(Slot(from, 1), k) == Slot(from, k + 1);
        }
      }
    }
  }

  lemma MarkedBack(valid: seq<int>, from: nat, n: nat)
    requires Marked(valid, from, n)
    ensures valid[Slot(from, n)] == 0 <==> n < QUEUE_SIZE
    ensures n < QUEUE_SIZE ==> Marked(valid[Slot(from, n) := 1], from, n + 1)
  {
    assert Slot(from, QUEUE_SIZE) == Slot(from, 0);
  }

  /** What taking the front job does to the ring. */
  lemma FrontTaken(jobs: seq<Job>, valid: seq<int>, from: nat, n: nat)
    requires |jobs| == QUEUE_SIZE && Marked(valid, from, n) && n > 0
    ensures var q := Segment(jobs, from, n);
            q[0] == jobs[from] && q[1..] == Segment(jobs, Slot(from, 1), n - 1)
    ensures Marked(valid[from := 0], Slot(from, 1), n - 1) && Slot(Slot(from, 1), n - 1) == Slot(from, n)
  {
    SegmentFront(jobs, from, n);
    MarkedFront(valid, from, n);
  }

  /** Move a ring pointer by one. */
  method Advance(ptr: nat) returns (next: nat)
    requires ptr < QUEUE_SIZE
    ensures next == Slot(ptr, 1)
  {
    if ptr < QUEUE_SIZE - 1 {
      next := ptr + 1;
    } else {
      next := 0;
    }
  }

  class Driver {
    var rdQueuePtr: nat
    var wrQueuePtr: nat
    var inQueue: nat
    const jobs: array<Job>
    const valid: array<int>
    var flags: Flags
    var regs: Job
    var running: bool
    var active: Job
    ghost var accepted: seq<Job>
    ghost var launched: seq<Job>
    ghost var started: seq<Job>

    ghost predicate Valid()
      reads this, jobs, valid
    {
      && jobs.Length == valid.Length == QUEUE_SIZE
      && Marked(valid[..], rdQueuePtr, inQueue)
      && wrQueuePtr == Slot(rdQueuePtr, inQueue)
    }

    /** The state that the ring stands for. */
    ghost function Now(): System
      requires Valid()
      reads this, jobs, valid
    {
      System(Segment(jobs[..], rdQueuePtr, inQueue), flags, regs, running, active, accepted, launched, started)
    }

    constructor ()
      ensures Valid() && Now() == Initial() && fresh(jobs) && fresh(valid)
    {
      rdQueuePtr, wrQueuePtr, inQueue := 0, 0, 0;
      jobs := new Job[QUEUE_SIZE](_ => Job(0, 0, 0));
      valid := new int[QUEUE_SIZE](_ => 0);
      flags, running := NO_FLAGS, false;
      regs, active := Job(0, 0, 0), Job(0, 0, 0);
      accepted, launched, started := [], [], [];
    }

    /** Free the slot at the read pointer. */
    method FreeFront()
      requires Valid() && inQueue > 0
      modifies this`inQueue, this`rdQueuePtr, valid
      ensures Valid() && Now() == old(Now()).(queue := old(Now()).queue[1..])
    {
      FrontTaken(jobs[..], valid[..], rdQueuePtr, inQueue);
      ghost var marks, ring := valid[..], jobs[..];
      valid[rdQueuePtr] := 0;
      assert valid[..] == marks[rdQueuePtr := 0] && jobs[..] == ring;
      inQueue := inQueue - 1;
      rdQueuePtr := Advance(rdQueuePtr);
    }

    /** Write the job at the read pointer to the registers, and take it out of the ring. */
    method TakeJob()
      requires Valid() && inQueue > 0
      modifies this, valid
      ensures Valid() && Now() == Launch(old(Now()))
    {
      SegmentFront(jobs[..], rdQueuePtr, inQueue);
      regs := jobs[rdQueuePtr];
      flags := flags.(start := true);
      launched := launched + [regs];
      FreeFront();
    }

    method LaunchCpy() returns (r: int)
      requires Valid()
      modifies this, valid
      ensures Valid() && Now() == Launch(old(Now()))
      ensures r == if old(Now()).queue == [] then -1 else 0
    {
      MarkedFront(valid[..], rdQueuePtr, inQueue);
      if valid[rdQueuePtr] == 1 {
        TakeJob();
        return 0;
      } else {
        flags := NO_FLAGS;
        return -1;
      }
    }

    method Dmacpy(dst: nat, src: nat, len: int) returns (r: int)
      requires Valid()
      modifies this, jobs, valid
      ensures Valid() && Now() == Step(old(Now()), Op.Dmacpy(Job(dst, src, len)))
      ensures r == if Full(old(Now())) then -1 else 0
    {
      MarkedBack(valid[..], rdQueuePtr, inQueue);
      if valid[wrQueuePtr] == 0 {
        var job := Job(dst, src, len);
        SegmentBack(jobs[..], rdQueuePtr, inQueue, job);
        ghost var marks, ring := valid[..], jobs[..];
        jobs[wrQueuePtr] := job;
        valid[wrQueuePtr] := 1;
        assert jobs[..] == ring[wrQueuePtr := job] && valid[..] == marks[wrQueuePtr := 1];
        accepted := accepted + [job];
        inQueue := inQueue + 1;
        wrQueuePtr := Advance(wrQueuePtr);
        assert Now() == Enqueue(old(Now()), job);
        if !flags.busy {
          var ignored := LaunchCpy();
        }
        return 0;
      } else {
        return -1;
      }
    }

    method ResetDma()
      requires Valid()
      modifies this
      ensures Valid() && Now() == Step(old(Now()), Op.ResetDma)
    {
      flags := NO_FLAGS;
    }

    /** One tick of the device: start a transfer if told to, and finish the running one if it is done. */
    method DeviceTick(finished: bool)
      requires Valid()
      modifies this
      ensures Valid() && Now() == Step(old(Now()), Op.Tick(finished))
    {
      if !running && flags.start {
        running := true;
        flags := flags.(start := false, busy := true);
        active := regs;
        started := started + [regs];
      }
      if running && finished {
        running := false;
        flags := flags.(busy := false, done := true);
      }
    }

    /** Any interleaving of driver calls and device ticks, from the initial state. */
    method Interleave(ops: seq<Op>)
      requires Valid() && Now() == Initial()
      modifies this, jobs, valid
      ensures Valid() && Now() == Run(ops)
      ensures Now().launched + Now().queue == Now().accepted
      ensures Delivers(Now()) <==> OverrunCount(ops) == 0
    {
      for i := 0 to |ops|
        invariant Valid() && Now() == Run(ops[..i])
      {
        assert ops[..i + 1][..i] == ops[..i];
        match ops[i] {
          case Dmacpy(job) => var ignored := Dmacpy(job.dst, job.src, job.len);
          case LaunchCpy => var ignored := LaunchCpy();
          case ResetDma => ResetDma();
          case Tick(finished) => DeviceTick(finished);
        }
      }
      assert ops[..|ops|] == ops;
      EveryRunInOrder(ops);
      DeliversIffNoOverrun(ops);
    }
  }
}
