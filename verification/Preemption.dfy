/** A process can lose the hart at every step of `kexec`: from boot there is a run to each of these
    moments, also to those at which its address space is half dropped. */
module Preemption {
  import opened Options
  import opened ProcessTable
  import opened PickOrder
  import opened Machine
  import opened Regions
  import opened Protocol
  import opened Fairness
  import opened Safety
  import opened Guarantees

  ghost predicate From(c: Core, d: Core, states: seq<State>) {
    Run(states) && states[0] == On(c) && states[|states| - 1] == On(d)
  }

  /** There is a run from `c` to `d`. */
  ghost predicate Reaches(c: Core, d: Core) {
    exists states: seq<State> :: From(c, d, states)
  }

  lemma ReachesStep(c: Core, d: Core, e: Core)
    requires Step(On(c), On(d)) && Reaches(d, e)
    ensures Reaches(c, e)
  {
    hide Step;
    var states: seq<State> :| From(d, e, states);
    var now := [On(c)] + states;
    forall k | 0 <= k < |now| - 1
      ensures Step(now[k], now[k + 1])
    {
      if k > 0 {
        assert Step(states[k - 1], states[k]);
      }
    }
    assert From(c, e, now);
  }

  lemma ReachesSelf(c: Core)
    ensures Reaches(c, c)
  {
    assert From(c, c, [On(c)]);
  }

  lemma ReachesNext(c: Core, d: Core, e: Core)
    requires Next(c) == On(d) && Reaches(d, e)
    ensures Reaches(c, e)
  {
    hide Reaches, Next;
    UserStuck(c);
    ReachesStep(c, d, e);
  }

  lemma {:induction false} ReachesGoes(c: Core, d: Core, n: nat, e: Core)
    requires Goes(c, d, n) && Reaches(d, e)
    ensures Reaches(c, e)
    decreases n
  {
    hide Reaches, Next;
    if n > 0 {
      ReachesGoes(Next(c).core, d, n - 1, e);
      ReachesNext(c, Next(c).core, e);
    }
  }

  lemma ReachesLeads(c: Core, d: Core, e: Core)
    requires Leads(c, d) && Reaches(d, e)
    ensures Reaches(c, e)
  {
    hide Reaches, Next;
    var n: nat :| Goes(c, d, n);
    ReachesGoes(c, d, n, e);
  }

  // ----- inside kexec -----

  /** Process `i` about to take step `k`, able to be interrupted. */
  ghost predicate AtStep(c: Core, i: nat, k: nat) {
    Quiet(c) && c.cpu.current == Some(i) && c.cpu.sie && c.code == Do(Exec(k), TAIL) && k <= STORE
  }

  function Further(c: Core, i: nat, k: nat): Core {
    HeapDone(c, i, Do(Exec(k), TAIL))
  }

  /** One step of `kexec`, its use of the heap, and it can be interrupted again. */
  lemma StepOn(c: Core, i: nat, k: nat, e: Core)
    requires AtStep(c, i, k) && k < STORE && Reaches(Further(c, i, k + 1), e)
    ensures AtStep(Further(c, i, k + 1), i, k + 1) && Reaches(c, e)
  {
    hide Reaches, Quiet, Leads, Goes;
    var rest := Do(Exec(k + 1), TAIL);
    QuietLocated(c);
    var c1 := c.(code := HeapUse(rest));
    StepIsQuiet(c, c1, i, k);
    HeapFollows(c1, i, rest);
    HeapBegins(c1, i, rest, e);
    ReachesNext(c, c1, e);
  }

  lemma StepIsQuiet(c: Core, c1: Core, i: nat, k: nat)
    requires AtStep(c, i, k) && k < STORE && c1 == c.(code := HeapUse(Do(Exec(k + 1), TAIL)))
    ensures Quiet(c1) && IntentOf(c1.code) == ToExec(k + 1)
  {
    hide Sane, AllSaved, Leads;
    QuietLocated(c);
    assert IntentOf(Do(Give(Heap), Do(Exec(k + 1), TAIL))) == ToExec(k + 1);
    ExecNext(c, c1, i);
  }

  lemma HeapBegins(c: Core, i: nat, rest: Code, e: Core)
    requires c.cpu == Cpu(Some(i), 0, c.cpu.prev, true) && c.held == {} && c.code == HeapUse(rest)
    requires Leads(Begun(c, i, Heap, Do(Give(Heap), rest)), HeapDone(c, i, rest)) && Reaches(HeapDone(c, i, rest), e)
    ensures Reaches(c, e)
  {
    hide Reaches, Leads, Goes;
    var body := Do(Give(Heap), rest);
    var c1 := c.(code := Do(PushRead, Do(Acquire(Heap), body)));
    var c2 := c.(code := Do(PushOff, Do(PushSave(true), Do(Acquire(Heap), body))));
    var c3 := c.(cpu := c.cpu.(sie := false), code := Do(PushSave(true), Do(Acquire(Heap), body)));
    BeginLeads(c2, c3, i, Heap, body);
    ReachesLeads(Begun(c, i, Heap, body), HeapDone(c, i, rest), e);
    ReachesLeads(c3, Begun(c, i, Heap, body), e);
    ReachesNext(c2, c3, e);
    ReachesNext(c1, c2, e);
    ReachesNext(c, c1, e);
  }

  /** A timer interrupt at step `k`: the process can run, does not, and stands where it stood. */
  lemma TickAt(c: Core, i: nat, k: nat)
    requires AtStep(c, i, k)
    ensures i < |c.table| == |c.ctx|
    ensures var d := Yielded(c.(cpu := c.cpu.(sie := false), code := YieldCode(i, Do(Sret, c.code))), i, Do(Sret, c.code));
      Reaches(c, d) && Quiet(d) && d.cpu.current == None && d.table[i].state == Runnable && StageAt(d, i) == k
  {
    hide Reaches, Quiet, Leads, Goes, Transition, KeepsWaits;
    QuietLocated(c);
    assert IntentOf(Do(Sret, c.code)) == ToExec(k);
    var rest := Do(Sret, c.code);
    var c1 := c.(cpu := c.cpu.(sie := false), code := YieldCode(i, rest));
    var d := Yielded(c1, i, rest);
    StepPosition(c, i, k);
    YieldFollows(c, c1, i, rest);
    assert IntentOf(Do(Give(Own(i)), rest)) == ToExec(k);
    ReachesSelf(d);
    ReachesLeads(c1, d, d);
    TickStep(c, c1, i, d);
  }

  lemma TickStep(c: Core, c1: Core, i: nat, d: Core)
    requires c.cpu.current == Some(i) && c.cpu.sie && c.code != Do(User, End)
    requires c1 == c.(cpu := c.cpu.(sie := false), code := YieldCode(i, Do(Sret, c.code))) && Reaches(c1, d)
    ensures Reaches(c, d)
  {
    hide Reaches, Next;
    assert KernelTick(c) == On(c1);
    ReachesStep(c, c1, d);
  }

  lemma StepPosition(c: Core, i: nat, k: nat)
    requires AtStep(c, i, k) && i < |c.table|
    ensures Position(i, c.table[i].pid, Do(Sret, c.code), false)
  {
    hide Quiet;
  }

  /** From step `k` to a timer interrupt at step `n`. */
  lemma {:induction false} ReachesStage(c: Core, i: nat, k: nat, n: nat) returns (d: Core)
    requires AtStep(c, i, k) && k <= n <= STORE
    ensures Reaches(c, d) && Quiet(d) && d.cpu.current == None && i < |d.table| && d.table[i].state == Runnable
    ensures StageAt(d, i) == n
    decreases n - k
  {
    hide Reaches, Quiet, Leads, Goes, StageAt;
    if k == n {
      TickAt(c, i, k);
      QuietLocated(c);
      d := Yielded(c.(cpu := c.cpu.(sie := false), code := YieldCode(i, Do(Sret, c.code))), i, Do(Sret, c.code));
    } else {
      NextAtStep(c, i, k);
      d := ReachesStage(Further(c, i, k + 1), i, k + 1, n);
      StepOn(c, i, k, d);
    }
  }

  lemma NextAtStep(c: Core, i: nat, k: nat)
    requires AtStep(c, i, k) && k < STORE
    ensures AtStep(Further(c, i, k + 1), i, k + 1)
  {
    hide Quiet, Leads;
    var rest := Do(Exec(k + 1), TAIL);
    var c1 := c.(code := HeapUse(rest));
    StepIsQuiet(c, c1, i, k);
    HeapFollows(c1, i, rest);
  }

  // ----- from boot -----

  /** A step that changes the place in the code alone, not the stage. */
  lemma Along(c: Core, d: Core)
    requires Quiet(c) && d == c.(cpu := c.cpu.(sie := d.cpu.sie), code := d.code) && Located(d)
    requires c.cpu.current.None? || IntentOf(d.code) == IntentOf(c.code) || InUser(c, 0)
    requires InUser(c, 0) ==> Stage(d.code) == 0
    ensures Quiet(d)
  {
    hide Quiet, Located;
    if InUser(c, 0) {
      CalledThread(c, d, 0);
    } else {
      SameThread(c, d);
    }
    Moves(c, d);
  }

  /** The scheduler's first turn. */
  lemma BootToPick(c: Core)
    requires Booted(c)
    ensures Quiet(c.(code := PICK)) && Choice(c.table) == Some(0)
    ensures forall e: Core :: Reaches(c.(code := PICK), e) ==> Reaches(c, e)
  {
    hide Reaches, Leads, Sane, AllSaved, Choice;
    BootQuiet(c);
    var d := c.(code := PICK);
    Along(c, d);
    ChoiceIsFirst(c.table, 0);
    forall e: Core | Reaches(d, e)
      ensures Reaches(c, e)
    {
      PickFromBoot(c, e);
    }
  }

  lemma PickFromBoot(c: Core, e: Core)
    requires c.code == IDLE && c.cpu == Cpu(None, 0, false, false) && Reaches(c.(code := PICK), e)
    ensures Reaches(c, e)
  {
    hide Reaches;
    var c1 := c.(code := Do(IntOn, Do(IntOff, PICK)));
    var c2 := c.(cpu := c.cpu.(sie := true), code := Do(IntOff, PICK));
    ReachesNext(c2, c.(code := PICK), e);
    ReachesNext(c1, c2, e);
    ReachesNext(c, c1, e);
  }

  /** Process 0, chosen from `c`, in user mode, and then before the first step of `kexec`. */
  function Entered(c: Core): Core
    requires 0 < |c.table| == |c.ctx|
  {
    Returned(c, 0).(cpu := Cpu(Some(0), 0, false, true), code := Do(User, End))
  }

  function Starting(c: Core): Core
    requires 0 < |c.table| == |c.ctx|
  {
    Entered(c).(code := Do(Exec(0), TAIL))
  }

  lemma PickToExec(c: Core)
    requires Quiet(c) && c.code == PICK && c.cpu == Cpu(None, 0, false, false) && Choice(c.table) == Some(0)
    requires |c.ctx| == |c.table| && c.ctx[0] == Do(Forkret, End)
    ensures AtStep(Starting(c), 0, 0)
    ensures forall e: Core :: Reaches(Starting(c), e) ==> Reaches(c, e)
  {
    hide Reaches, Leads, Quiet, Choice;
    var r := Returned(c, 0);
    PickFollows(c, r);
    UserThenExec(r, Entered(c), Starting(c));
    forall e: Core | Reaches(Starting(c), e)
      ensures Reaches(c, e)
    {
      CallsExec(Entered(c), Starting(c), e);
      EntersUser(r, Entered(c), e);
      ReachesLeads(c, r, e);
    }
  }

  lemma UserThenExec(r: Core, u: Core, d: Core)
    requires Quiet(r) && r.code == TAIL && r.cpu == Cpu(Some(0), 0, false, false)
    requires u == r.(cpu := r.cpu.(sie := true), code := Do(User, End)) && d == u.(code := Do(Exec(0), TAIL))
    ensures AtStep(d, 0, 0)
  {
    hide Sane, AllSaved;
    assert IntentOf(TAIL) == IntentOf(Do(User, End)) == NoIntent && Stage(Do(Exec(0), TAIL)) == 0;
    Along(r, u);
    assert CallCode(0, CallExec) == d.code;
    Along(u, d);
  }

  lemma EntersUser(r: Core, u: Core, e: Core)
    requires r.code == TAIL && !r.cpu.sie && u == r.(cpu := r.cpu.(sie := true), code := Do(User, End)) && Reaches(u, e)
    ensures Reaches(r, e)
  {
    hide Reaches;
    var r1 := r.(code := Do(ToUser, End));
    ReachesNext(r1, u, e);
    ReachesNext(r, r1, e);
  }

  lemma CallsExec(u: Core, d: Core, e: Core)
    requires u.code == Do(User, End) && u.cpu.sie && u.cpu.current == Some(0)
    requires d == u.(code := Do(Exec(0), TAIL)) && Reaches(d, e)
    ensures Reaches(u, e)
  {
    hide Reaches;
    var entered := u.(cpu := u.cpu.(sie := false), code := Do(IntOn, Do(Exec(0), TAIL)));
    ReachesNext(entered, d, e);
    assert UserCall(u, CallExec) == On(entered);
    ReachesStep(u, entered, e);
  }

  /** From boot there is a run on which a process that can run has been interrupted with step `k` of
      `kexec` as its next, whatever `k` is: in the building, in the drop, and before the store. */
  lemma WindowIsReached(c: Core, k: nat) returns (d: Core)
    requires Booted(c) && k <= STORE
    ensures Reaches(c, d) && Quiet(d) && d.cpu.current == None && 0 < |d.table| && d.table[0].state == Runnable
    ensures StageAt(d, 0) == k
  {
    hide Reaches, Quiet, StageAt, Choice, AtStep;
    BootToPick(c);
    PickToExec(c.(code := PICK));
    d := ReachesStage(Starting(c.(code := PICK)), 0, 0, k);
  }
}
