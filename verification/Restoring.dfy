/** On every run, whatever other threads do in between, the last unlock of a process leaves
    interrupts as its first lock found them. */
module Restoring {
  import opened Options
  import opened ProcessTable
  import opened PickOrder
  import opened Machine
  import opened Regions
  import opened Protocol
  import opened Fairness
  import opened Safety
  import opened Guarantees
  import opened LockLevel

  /** Process `i` enters a critical section: interrupts were on if `was`. */
  predicate FirstLock(c: Core, i: nat, was: bool) {
    c.code.Do? && c.code.op == PushSave(was) && c.cpu.depth == 0 && c.cpu.current == Some(i)
  }

  /** A new process starts in slot `i`, in the section that chose it. */
  predicate Starts(c: Core, i: nat) {
    c.code.Do? && c.code.op == Dispatch(i) && i < |c.ctx| && c.ctx[i] == Do(Forkret, End)
  }

  /** Process `i` has given back its last lock; interrupts may be turned on. */
  predicate LastUnlock(c: Core, i: nat) {
    c.code.Do? && c.code.op == PopOn && c.cpu.depth == 0 && c.cpu.current == Some(i)
  }

  /** What each process found at its last first lock, after one more operation. */
  function Found(c: Core, base: seq<bool>): (r: seq<bool>)
    ensures |r| == |base|
  {
    if c.code.Do? && c.code.op.PushSave? && c.cpu.depth == 0 && c.cpu.current.Some? && c.cpu.current.value < |base| then
      base[c.cpu.current.value := c.code.op.was]
    else if c.code.Do? && c.code.op.Dispatch? && Starts(c, c.code.op.slot) && c.code.op.slot < |base| then
      base[c.code.op.slot := c.cpu.prev]
    else base
  }

  /** The same along a run. */
  ghost function FoundBy(states: seq<State>, k: nat): (r: seq<bool>)
    requires Run(states) && states[0].On? && k < |states|
    ensures |r| == |states[0].core.ctx|
  {
    if k == 0 then seq(|states[0].core.ctx|, _ => false)
    else
      assert Step(states[k - 1], states[k]);
      if states[k] == Next(states[k - 1].core) then Found(states[k - 1].core, FoundBy(states, k - 1))
      else FoundBy(states, k - 1)
  }

  /** Code saved by `sched` begins by restoring what the process had found. */
  predicate SavedIs(code: Code, was: bool) {
    code.Do? && code.op.RestorePrev? && code.op.prev == was
  }

  predicate Saved0(code: Code, was: bool) {
    code == End || code == Do(Forkret, End) || SavedIs(code, was)
  }

  /** `interrupt_prev_state` is what the current process had found, or is about to be; and what
      the others will restore is what they had found. */
  ghost predicate Remembers(c: Core, base: seq<bool>) {
    && |base| == |c.ctx| && !(c.sched.Do? && c.sched.op.RestorePrev?)
    && (forall j: nat :: j < |c.ctx| && (c.cpu.current != Some(j) || (c.code.Do? && c.code.op.AfterRun?)) ==>
          Saved0(c.ctx[j], base[j]))
    && (c.cpu.current.Some? ==> c.cpu.current.value < |base| && CurrentOk(c, base[c.cpu.current.value]))
  }

  predicate CurrentOk(c: Core, was: bool) {
    if c.code.Do? && c.code.op.RestorePrev? then SavedIs(c.code, was) else c.code == End || c.cpu.prev == was
  }

  // ----- one step -----

  /** Operations that touch neither the remembered state nor saved code. */
  predicate Neutral(op: Op) {
    !op.PushSave? && !op.RestorePrev? && !op.Sched? && !op.Dispatch? && !op.AfterRun? && !op.AllocFrom?
  }

  lemma NeutralKeeps(c: Core)
    requires c.code.Do? && Neutral(c.code.op) && Next(c).On?
    ensures Kept(c, Next(c).core)
  {
    hide Next;
    if TableOp(c.code.op) {
      TableOpKeeps(c);
    } else if PutOp(c.code.op) {
      PutOpKeeps(c);
    } else if HartOp(c.code.op) {
      HartOpKeeps(c);
    } else {
      OtherOpKeeps(c);
    }
  }

  predicate Kept(c: Core, d: Core) {
    d.cpu.prev == c.cpu.prev && d.cpu.current == c.cpu.current && d.ctx == c.ctx && d.sched == c.sched
  }

  predicate TableOp(op: Op) {
    op.BecomeZombie? || op.AdoptFrom? || op.ScanFrom? || op.ScanTest? || op.PickTest?
  }

  predicate PutOp(op: Op) {
    op.SetState? || op.SetChan? || op.SetStatus? || op.SetParent? || op.WakeTest?
  }

  predicate HartOp(op: Op) {
    || op.PushRead? || op.PushOff? || op.Acquire? || op.Release? || op.PopDec? || op.PopOn?
    || op.IntOn? || op.IntOff? || op.Sret? || op.ToUser?
  }

  lemma HartOpKeeps(c: Core)
    requires c.code.Do? && HartOp(c.code.op) && Next(c).On?
    ensures Kept(c, Next(c).core)
  {
    hide Put, ZombieStep, AdoptStep, ScanStep, ScanTestStep, PickStep, AllocStep, SchedStep, DispatchStep, Order,
         YieldCode, ForkBody, ExitBody, WaitBody, SleepCode, WokenProc, AdoptedProc, Freed;
  }

  lemma PutOpKeeps(c: Core)
    requires c.code.Do? && PutOp(c.code.op) && Next(c).On?
    ensures Kept(c, Next(c).core)
  {
    hide ZombieStep, AdoptStep, ScanStep, ScanTestStep, PickStep, AllocStep, SchedStep, DispatchStep, Order,
         YieldCode, ForkBody, ExitBody, WaitBody, SleepCode, WokenProc, AdoptedProc, Freed;
  }

  lemma TableOpKeeps(c: Core)
    requires c.code.Do? && TableOp(c.code.op) && Next(c).On?
    ensures Kept(c, Next(c).core)
  {
    hide AllocStep, SchedStep, DispatchStep, Order, YieldCode, ForkBody, ExitBody, WaitBody, SleepCode, WokenProc,
         AdoptedProc, Freed;
  }

  lemma OtherOpKeeps(c: Core)
    requires c.code.Do? && Neutral(c.code.op) && !TableOp(c.code.op) && !PutOp(c.code.op) && !HartOp(c.code.op)
    requires Next(c).On?
    ensures Kept(c, Next(c).core)
  {
    hide Put, ZombieStep, AdoptStep, ScanStep, ScanTestStep, PickStep, AllocStep, SchedStep, DispatchStep, Order,
         YieldCode, ForkBody, ExitBody, WaitBody, SleepCode, WokenProc, AdoptedProc, Freed;
  }

  /** What any operation but a switch goes on with is not the start of a switch. */
  lemma InnerNext(c: Core)
    requires Balanced(c) && c.code.Do? && Neutral(c.code.op) && Next(c).On?
    ensures Inner(Next(c).core.code)
  {
    hide Linked, Balanced, Resumed, Next;
    RestLinked(c);
    if Plain(c.code.op) && !c.code.op.Take? && !c.code.op.Give? {
      RestWhole(c);
      PlainCode(c);
    } else {
      LockNext(c);
    }
  }

  lemma RestLinked(c: Core)
    requires Balanced(c) && c.code.Do?
    ensures Inner(c.code.rest)
  {
  }

  lemma LockNext(c: Core)
    requires c.code.Do? && Inner(c.code.rest) && (!Plain(c.code.op) || c.code.op.Take? || c.code.op.Give?) && Next(c).On?
    ensures Inner(Next(c).core.code)
  {
    hide ZombieStep, AllocStep, AdoptStep, ScanStep, ScanTestStep, SchedStep, PickStep, DispatchStep, Put;
  }

  lemma NeutralRemembers(c: Core, base: seq<bool>)
    requires Remembers(c, base) && Balanced(c) && c.code.Do? && Neutral(c.code.op) && Next(c).On?
    ensures Found(c, base) == base && Remembers(Next(c).core, base)
  {
    hide Next, Balanced, Saved0;
    NeutralKeeps(c);
    InnerNext(c);
  }

  lemma PushRemembers(c: Core, base: seq<bool>)
    requires Remembers(c, base) && Balanced(c) && c.code.Do? && c.code.op.PushSave?
    ensures Next(c).On? && Remembers(Next(c).core, Found(c, base))
  {
    hide Saved0;
    RestLinked(c);
  }

  lemma RestoreRemembers(c: Core, base: seq<bool>)
    requires Remembers(c, base) && Balanced(c) && c.code.Do? && c.code.op.RestorePrev?
    ensures Next(c).On? && Remembers(Next(c).core, Found(c, base))
  {
    hide Saved0;
    RestLinked(c);
  }

  lemma SchedRemembers(c: Core, base: seq<bool>)
    requires Remembers(c, base) && c.code.Do? && c.code.op.Sched? && Next(c).On?
    ensures Remembers(Next(c).core, Found(c, base))
  {
    hide ZombieStep, AdoptStep, ScanStep, ScanTestStep, PickStep, AllocStep, DispatchStep;
  }

  lemma DispatchRemembers(c: Core, base: seq<bool>)
    requires Remembers(c, base) && c.code.Do? && c.code.op.Dispatch? && Next(c).On?
    ensures Remembers(Next(c).core, Found(c, base))
  {
    hide ZombieStep, AdoptStep, ScanStep, ScanTestStep, PickStep, AllocStep, SchedStep;
  }

  lemma AfterRunRemembers(c: Core, base: seq<bool>)
    requires Remembers(c, base) && c.code.Do? && c.code.op.AfterRun?
    ensures Next(c).On? && Remembers(Next(c).core, Found(c, base))
  {
    hide Saved0;
  }

  lemma AllocRemembers(c: Core, base: seq<bool>)
    requires Remembers(c, base) && Balanced(c) && c.code.Do? && c.code.op.AllocFrom? && Next(c).On?
    ensures Remembers(Next(c).core, Found(c, base))
  {
    hide Next, Balanced;
    RestLinked(c);
    AllocEffect(c);
  }

  lemma AllocEffect(c: Core)
    requires c.code.Do? && c.code.op.AllocFrom? && Next(c).On?
    ensures var d, k := Next(c).core, c.code.op.k;
      && d.cpu == c.cpu && d.sched == c.sched && Inner(d.code) && d.code.Do?
      && (d.ctx == c.ctx || (k < |c.ctx| && d.ctx == c.ctx[k := Do(Forkret, End)]))
  {
    hide ZombieStep, AdoptStep, ScanStep, ScanTestStep, PickStep, SchedStep, DispatchStep, Put;
  }

  lemma NextRemembers(c: Core, base: seq<bool>)
    requires Remembers(c, base) && Balanced(c) && c.code.Do? && Next(c).On?
    ensures Remembers(Next(c).core, Found(c, base))
  {
    hide Remembers, Balanced, Next;
    var op := c.code.op;
    if Neutral(op) {
      NeutralRemembers(c, base);
    } else if op.PushSave? {
      PushRemembers(c, base);
    } else if op.RestorePrev? {
      RestoreRemembers(c, base);
    } else if op.Sched? {
      SchedRemembers(c, base);
    } else if op.Dispatch? {
      DispatchRemembers(c, base);
    } else if op.AfterRun? {
      AfterRunRemembers(c, base);
    } else {
      AllocRemembers(c, base);
    }
  }

  /** Interrupts and system calls change nothing that is remembered. */
  lemma EntryRemembers(c: Core, s: State, base: seq<bool>)
    requires Remembers(c, base) && c.code.Do? && !c.code.op.RestorePrev? && !c.code.op.AfterRun? && s.On?
    requires s == UserTick(c) || s == KernelTick(c) || exists call: Call :: s == UserCall(c, call)
    ensures Remembers(s.core, base)
  {
    hide Saved0, CallCode;
  }

  lemma StepRemembers(c: Core, s: State, base: seq<bool>)
    requires OnTrack(c, Nothing) && Balanced(c) && Remembers(c, base) && Step(On(c), s) && s.On?
    ensures Remembers(s.core, if s == Next(c) then Found(c, base) else base)
  {
    hide Balanced, Remembers, OnTrack, Next, UserTick, KernelTick, UserCall;
    if s == Next(c) {
      EndStuck(c);
      NextRemembers(c, base);
    } else if c.code == Do(User, End) {
      EntryRemembers(c, s, base);
    } else {
      InterruptsOnIsQuiet(c, Nothing);
      QuietCode(c);
      EntryRemembers(c, s, base);
    }
  }

  lemma BootRemembers(c: Core)
    requires Booted(c)
    ensures Remembers(c, seq(|c.ctx|, _ => false))
  {
  }

  lemma {:induction false} RunRemembers(states: seq<State>, k: nat)
    requires Run(states) && states[0].On? && Booted(states[0].core) && k < |states| && states[k].On?
    ensures Remembers(states[k].core, FoundBy(states, k))
  {
    hide Balanced, Remembers, OnTrack, Booted, Next, Step, Found;
    if k == 0 {
      BootRemembers(states[0].core);
    } else {
      assert Step(states[k - 1], states[k]);
      StepsFromOn(states[k - 1], states[k]);
      RunRemembers(states, k - 1);
      NeverBad(states, k - 1);
      LevelIsLocksHeld(states, k - 1);
      StepRemembers(states[k - 1].core, states[k], FoundBy(states, k - 1));
    }
  }

  /** In the middle of taking or giving back a lock nothing else can happen. */
  lemma OnlyNext(c: Core, s: State)
    requires OnTrack(c, Nothing) && Step(On(c), s) && c.code.Do? && (c.code.op.PushSave? || c.code.op.PopOn?)
    ensures s == Next(c) && !c.cpu.sie
  {
    hide OnTrack, Next;
    if c.cpu.sie {
      InterruptsOnIsQuiet(c, Nothing);
      QuietCode(c);
    }
  }

  /** A lock may be interrupted between reading the enable bit and clearing it; the bit is then still
      what was read. */
  lemma ReadStaysTrue(c: Core)
    requires OnTrack(c, Nothing) && c.cpu.sie && c.code.Do? && c.code.op.PushOff?
    ensures c.code.rest.Do? && c.code.rest.op == PushSave(c.cpu.sie)
  {
    hide OnTrack, Sane, AllSaved, RegionBody;
    InterruptsOnIsQuiet(c, Nothing);
  }

  /** What process `i` has found at its first lock stays what it has found until its next first
      lock, or until a new process starts in its slot. */
  lemma {:induction false} StaysFound(states: seq<State>, a: nat, k: nat, i: nat, was: bool)
    requires Run(states) && states[0].On? && Booted(states[0].core) && a < k < |states|
    requires states[a].On? && FirstLock(states[a].core, i, was) && i < |states[0].core.ctx|
    requires forall l: nat :: a < l < k && states[l].On? ==> !Again(states[l].core, i)
    ensures FoundBy(states, k)[i] == was
    decreases k
  {
    hide OnTrack, Booted, Next, Step;
    assert Step(states[k - 1], states[k]);
    StepsFromOn(states[k - 1], states[k]);
    if k == a + 1 {
      NeverBad(states, a);
      OnlyNext(states[a].core, states[k]);
    } else {
      StaysFound(states, a, k - 1, i, was);
      assert !Again(states[k - 1].core, i);
    }
  }

  predicate Again(c: Core, i: nat) {
    FirstLock(c, i, true) || FirstLock(c, i, false) || Starts(c, i)
  }

  /** On every run, from the first lock of process `i` in a critical section to its last unlock,
      whatever it and others do in between under `sched`: interrupts are as they were found. */
  lemma LastUnlockRestores(states: seq<State>, a: nat, z: nat, i: nat, was: bool)
    requires Run(states) && states[0].On? && Booted(states[0].core) && a < z && z + 1 < |states|
    requires states[a].On? && FirstLock(states[a].core, i, was)
    requires states[z].On? && LastUnlock(states[z].core, i)
    requires forall l: nat :: a < l < z && states[l].On? ==> !Again(states[l].core, i)
    ensures states[z + 1].On? && states[z + 1].core.cpu.sie == was
  {
    hide OnTrack, Booted, Balanced, Step;
    RunRemembers(states, a);
    RunRemembers(states, z);
    StaysFound(states, a, z, i, was);
    NeverBad(states, z);
    assert Step(states[z], states[z + 1]);
    OnlyNext(states[z].core, states[z + 1]);
  }
}
