/** The kernel's guarantees over whole runs, with a timer interrupt possible after any operation. */
module Guarantees {
  import opened Options
  import opened ProcessTable
  import opened PickOrder
  import opened Machine
  import opened Regions
  import opened Protocol
  import opened Fairness
  import opened Safety

  /** The machine `main` leaves is quiet. */
  lemma BootQuiet(c: Core)
    requires Booted(c)
    ensures Quiet(c)
  {
    BootSane(c);
    hide Sane;
  }

  lemma BootSane(c: Core)
    requires Booted(c)
    ensures Sane(c.table, c.nextPid, None, c.exits, c.returned)
  {
    assert LivingAt(c.table, Some(0), 0);
  }

  /** One step keeps the machine on its track, or is a panic the source provides for. */
  lemma TrackStep(c: Core, s: State, w: Watch)
    requires OnTrack(c, w) && Step(On(c), s)
    ensures s == Halted || (s.On? && OnTrack(s.core, w))
  {
    hide Quiet, Waits, Leads, Next, UserTick, UserCall, KernelTick;
    var d: Core :| Leads(c, d) && Quiet(d) && Waits(d.table, d.dispatches, w);
    if c == d {
      StepFollows(c, s);
      if s.On? {
        FollowsTrack(c, s.core, w);
      }
    } else {
      OneOn(c, d);
      UserStuck(c);
    }
  }

  lemma UserStuck(c: Core)
    ensures c.code == Do(User, End) ==> Next(c) == Bad
  {
  }

  lemma FollowsTrack(c: Core, c1: Core, w: Watch)
    requires Follows(c, c1) && Waits(c.table, c.dispatches, w)
    ensures OnTrack(c1, w)
  {
    hide Quiet, Leads, Waits;
    var d: Core :| Ends(c, c1, d);
    assert Waits(d.table, d.dispatches, w);
  }

  /** Every state of a run is on its way to a quiet state in which nobody's bound is exceeded. */
  lemma {:induction false} RunOnTrack(states: seq<State>, k: nat, w: Watch)
    requires Run(states) && k < |states|
    requires states[0].On? && Quiet(states[0].core) && Waits(states[0].core.table, states[0].core.dispatches, w)
    ensures states[k] == Halted || (states[k].On? && OnTrack(states[k].core, w))
  {
    hide Quiet, Waits, Step, OnTrack;
    if k == 0 {
      QuietTrack(states[0].core, w);
    } else {
      RunOnTrack(states, k - 1, w);
      assert Step(states[k - 1], states[k]);
      HaltedStops(states[k]);
      TrackStep(states[k - 1].core, states[k], w);
    }
  }

  lemma HaltedStops(s: State)
    ensures !Step(Halted, s)
  {
  }

  lemma QuietTrack(c: Core, w: Watch)
    requires Quiet(c) && Waits(c.table, c.dispatches, w)
    ensures OnTrack(c, w)
  {
    hide Quiet, Waits, Leads;
    LeadsSelf(c);
  }

  lemma Nobody(c: Core)
    ensures Waits(c.table, c.dispatches, Nothing)
  {
  }

  /** No run from boot ever does anything bad: no lock is requested by its holder or given back
      without being held, the interrupt level never goes below zero, `sched` is always reached
      with interrupts off, at level one, with just the process's own lock and a state other than
      running, no zombie continues, and no exit or status is seen twice. */
  lemma NeverBad(states: seq<State>, k: nat)
    requires Run(states) && states[0].On? && Booted(states[0].core) && k < |states|
    ensures states[k] != Bad
    ensures states[k].On? ==> OnTrack(states[k].core, Nothing)
  {
    hide Quiet, OnTrack, Booted;
    BootQuiet(states[0].core);
    Nobody(states[0].core);
    RunOnTrack(states, k, Nothing);
  }

  /** Whenever interrupts are on, the machine is quiet: nothing is locked, the level is zero. */
  lemma InterruptsOnIsQuiet(c: Core, w: Watch)
    requires OnTrack(c, w) && c.cpu.sie
    ensures Quiet(c) && Waits(c.table, c.dispatches, w)
  {
    hide Quiet, Waits, Next;
    var d: Core :| Leads(c, d) && Quiet(d) && Waits(d.table, d.dispatches, w);
    if c != d {
      OneOn(c, d);
    }
  }

  /** While any lock is held or the level is above zero, nothing but the running code itself can
      happen: critical regions are atomic. */
  lemma RegionsAtomic(states: seq<State>, k: nat)
    requires Run(states) && states[0].On? && Booted(states[0].core) && k + 1 < |states|
    requires states[k].On? && (states[k].core.held != {} || states[k].core.cpu.depth > 0)
    ensures !states[k].core.cpu.sie && states[k].core.code != Do(User, End)
    ensures states[k + 1] == Next(states[k].core) || states[k + 1] == Halted
  {
    hide OnTrack, Booted, Next, Sane, AllSaved;
    NeverBad(states, k);
    var c := states[k].core;
    if c.cpu.sie {
      InterruptsOnIsQuiet(c, Nothing);
    } else {
      NotInUser(c);
      assert Step(states[k], states[k + 1]);
    }
  }

  /** User code runs with interrupts on. */
  lemma NotInUser(c: Core)
    requires OnTrack(c, Nothing) && !c.cpu.sie
    ensures c.code != Do(User, End)
  {
    hide Sane, AllSaved, Interruptible, Next;
    var d: Core :| Leads(c, d) && Quiet(d) && Waits(d.table, d.dispatches, Nothing);
    if c == d {
      InUserPosition(d);
    } else {
      OneOn(c, d);
      UserStuck(c);
    }
  }

  lemma InUserPosition(d: Core)
    requires Quiet(d) && !d.cpu.sie
    ensures d.code != Do(User, End)
  {
    hide Sane, AllSaved;
  }

  /** At every point of a run where an interrupt can come: ids are unique, the processes form a
      tree, the current process and no other is running, whoever sleeps in `kwait` has a child and
      no child that has exited, and every status returned went to the parent, once. */
  lemma AlwaysSane(states: seq<State>, k: nat)
    requires Run(states) && states[0].On? && Booted(states[0].core) && k < |states|
    requires states[k].On? && states[k].core.cpu.sie
    ensures var c := states[k].core;
      && c.held == {} && c.cpu.depth == 0
      && Ids(c.table, c.nextPid) && Tree(c.table) && OneRunning(c.table, c.cpu.current)
      && NoLostWakeup(c.table) && History(c.table, c.nextPid, c.exits, c.returned)
  {
    hide OnTrack, Booted, Ids, Tree, OneRunning, NoLostWakeup, History;
    NeverBad(states, k);
    InterruptsOnIsQuiet(states[k].core, Nothing);
  }

  // ----- the switch to the scheduler -----

  /** What the scheduler executes from the control transfer of `sched` until interrupts are on again. */
  predicate HandedOver(code: Code) {
    code.Do? &&
    var rest := code.rest;
    match code.op
    case AfterRun(_) => rest == End
    case Give(_) => rest == IDLE
    case Release(_) => rest == Do(PopDec, Do(PopOn, IDLE))
    case PopDec => rest == Do(PopOn, IDLE)
    case PopOn => rest == IDLE
    case SchedLoop => rest == End
    case IntOn => rest == Do(IntOff, PICK)
    case _ => false
  }

  /** The same processes in the same states, with the same history. */
  predicate SameTable(c: Core, d: Core) {
    d.table == c.table && d.nextPid == c.nextPid && d.exits == c.exits && d.returned == c.returned
  }

  lemma HandedOn(c: Core)
    requires HandedOver(c.code) && Next(c).On?
    ensures var d := Next(c).core;
      && SameTable(c, d) && (d.cpu.sie || HandedOver(d.code))
      && (c.code.op.AfterRun? || c.cpu.current == None ==> d.cpu.current == None)
  {
    hide ZombieStep, AllocStep, AdoptStep, ScanStep, ScanTestStep, SchedStep, PickStep, DispatchStep, Put, Order;
  }

  lemma {:induction false} HandedTo(c: Core, d: Core, n: nat)
    requires Goes(c, d, n) && (c.cpu.sie || HandedOver(c.code))
    ensures SameTable(c, d) && (c.cpu.current == None ==> d.cpu.current == None)
    decreases n
  {
    hide Next;
    if n > 0 {
      HandedOn(c);
      HandedTo(Next(c).core, d, n - 1);
    }
  }

  /** A state in the middle of a switch or of a lock's release is not quiet. */
  lemma QuietCode(c: Core)
    requires Quiet(c)
    ensures c.code.Do? && !c.code.op.AfterRun? && !c.code.op.RestorePrev? && !c.code.op.PushSave? && !c.code.op.PopOn?
  {
    hide Sane, AllSaved;
  }

  /** At every point of a run where `sched` has just handed over to the scheduler, the table is
      sane, with nobody running: no wakeup is lost in the switch. */
  lemma SwitchSane(states: seq<State>, k: nat, i: nat)
    requires Run(states) && states[0].On? && Booted(states[0].core) && k < |states|
    requires states[k].On? && states[k].core.code == Do(AfterRun(i), End)
    ensures var c := states[k].core;
      && Ids(c.table, c.nextPid) && Tree(c.table) && OneRunning(c.table, None)
      && NoLostWakeup(c.table) && History(c.table, c.nextPid, c.exits, c.returned)
  {
    hide Booted, Next, Ids, Tree, OneRunning, NoLostWakeup, History, Waits, AllSaved, Located;
    NeverBad(states, k);
    var c := states[k].core;
    var d: Core :| Leads(c, d) && Quiet(d) && Waits(d.table, d.dispatches, Nothing);
    var n: nat :| Goes(c, d, n);
    QuietCode(d);
    HandedOn(c);
    HandedTo(Next(c).core, d, n - 1);
  }

  /** A process that can run is dispatched after at most as many other dispatches as the others are
      behind it, whatever they do: as long as it has not been, no more than that many have
      happened, and it still can run. */
  lemma NoStarvation(states: seq<State>, p: nat, k: nat)
    requires Run(states) && states[0].On? && Quiet(states[0].core) && k < |states|
    requires p < |states[0].core.table| && states[0].core.table[p].state == Runnable
    requires states[k].On? && states[k].core.cpu.sie
    ensures var c0, c := states[0].core, states[k].core;
      && p < |c.table|
      && (|| c.table[p].quants > c0.table[p].quants
          || (c.table[p].state == Runnable && c.dispatches - c0.dispatches <= Potential(c0.table, p)))
  {
    hide Quiet, OnTrack, Potential;
    var c0 := states[0].core;
    var w := Watch(p, c0.table[p].quants, Potential(c0.table, p) + c0.dispatches);
    RunOnTrack(states, k, w);
    InterruptsOnIsQuiet(states[k].core, w);
  }

  // ----- the status of an exited process -----

  /** Only one operation records an exit, and only one returns a status. */
  lemma HistorySteps(c: Core)
    requires Next(c).On?
    ensures var d := Next(c).core;
      && (d.exits == c.exits || (c.code.Do? && c.code.op.BecomeZombie?))
      && (d.returned == c.returned || (c.code.Do? && c.code.op.ScanTest?))
  {
    hide ZombieStep, AllocStep, AdoptStep, ScanStep, ScanTestStep, SchedStep, PickStep, DispatchStep, Put, Jump,
         YieldCode, ForkBody, ExitBody, WaitBody, WokenProc, Order;
    if c.code.Do? && c.code.op.BecomeZombie? {
      ZombieHistory(c, c.code.op.slot, c.code.rest);
    } else if c.code.Do? && c.code.op.ScanTest? {
      ScanHistory(c, c.code.op.slot, c.code.op.pid, c.code.op.k, c.code.rest);
    }
  }

  lemma ZombieHistory(c: Core, i: nat, rest: Code)
    requires ZombieStep(c, i, rest).On?
    ensures var d := ZombieStep(c, i, rest).core;
      && d.returned == c.returned
      && i < |c.table| && c.table[i].pid.Some? && c.table[i].pid.value !in c.exits
      && d.exits == c.exits[c.table[i].pid.value := c.table[i].xstatus]
  {
  }

  lemma ScanHistory(c: Core, i: nat, pid: Option<nat>, k: nat, rest: Code)
    requires ScanTestStep(c, i, pid, k, rest).On?
    ensures var d := ScanTestStep(c, i, pid, k, rest).core;
      && d.exits == c.exits
      && (d.returned == c.returned || Returning(c, d, k))
  {
  }

  /** The status of zombie `k` goes to the current process, which is its recorded parent. */
  ghost predicate Returning(c: Core, d: Core, k: nat) {
    && k < |c.table| && c.table[k].state == Zombie && c.table[k].pid.Some? && c.table[k].pid.value !in c.returned
    && c.cpu.current.Some? && c.cpu.current.value < |c.table|
    && c.table[k].parent.Some? && c.table[c.cpu.current.value].pid == c.table[k].parent
    && d.returned == c.returned[c.table[k].pid.value := Return(c.table[k].parent.value, c.table[k].xstatus)]
  }

  /** No step forgets or changes an exit, or a status that has been returned; and a status that a
      step returns is that of a zombie, to its parent. */
  lemma StatusOnce(c: Core, s: State)
    requires Step(On(c), s) && s.On?
    ensures forall pid :: pid in c.exits ==> pid in s.core.exits && s.core.exits[pid] == c.exits[pid]
    ensures forall pid :: pid in c.returned ==> pid in s.core.returned && s.core.returned[pid] == c.returned[pid]
    ensures s.core.returned == c.returned || exists k: nat :: Returning(c, s.core, k)
  {
    hide Next, Returning;
    if c.code != Do(User, End) && s == Next(c) {
      HistorySteps(c);
      if c.code.Do? && c.code.op.BecomeZombie? {
        NextZombie(c);
        ZombieHistory(c, c.code.op.slot, c.code.rest);
      } else if c.code.Do? && c.code.op.ScanTest? {
        NextScan(c);
        ScanHistory(c, c.code.op.slot, c.code.op.pid, c.code.op.k, c.code.rest);
        ReturningGrows(c, s.core, c.code.op.k);
      }
    }
  }

  lemma NextZombie(c: Core)
    requires c.code.Do? && c.code.op.BecomeZombie?
    ensures Next(c) == ZombieStep(c, c.code.op.slot, c.code.rest)
  {
    hide ZombieStep;
  }

  lemma NextScan(c: Core)
    requires c.code.Do? && c.code.op.ScanTest?
    ensures Next(c) == ScanTestStep(c, c.code.op.slot, c.code.op.pid, c.code.op.k, c.code.rest)
  {
    hide ScanTestStep;
  }

  lemma ReturningGrows(c: Core, d: Core, k: nat)
    ensures Returning(c, d, k) ==>
      forall pid :: pid in c.returned ==> pid in d.returned && d.returned[pid] == c.returned[pid]
  {
  }

  /** A status once returned stays returned as it was, for the rest of the run: since it is bad to
      return one again, each is returned by at most one `kwait`. */
  lemma {:induction false} StatusForever(states: seq<State>, j: nat, k: nat, pid: nat)
    requires Run(states) && j <= k < |states| && states[j].On? && states[k].On?
    requires pid in states[j].core.returned
    ensures pid in states[k].core.returned && states[k].core.returned[pid] == states[j].core.returned[pid]
    decreases k
  {
    hide Step;
    if j < k {
      assert Step(states[k - 1], states[k]);
      StepsFromOn(states[k - 1], states[k]);
      StatusForever(states, j, k - 1, pid);
      StatusOnce(states[k - 1].core, states[k]);
    }
  }

  lemma StepsFromOn(s: State, t: State)
    requires Step(s, t)
    ensures s.On?
  {
  }
}
