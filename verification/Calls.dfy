/** What a system call comes to and what a timer interrupt does, on runs of the machine: a process that
    has called `exit` exits with that status, one that has called `fork` forks before it is back in user
    mode, and so on, whatever interrupts and other processes do in between. */
module Calls {
  import opened Options
  import opened ProcessTable
  import opened PickOrder
  import opened Machine
  import opened Regions
  import opened Protocol
  import opened Fairness
  import opened Safety
  import opened Guarantees

  // ----- the timer -----

  /** A timer interrupt while a process runs, in user mode or in the kernel. */
  function Tick(c: Core): State {
    if c.code == Do(User, End) then UserTick(c) else KernelTick(c)
  }

  /** It can always come, and it takes the hart from the process: it can run, nobody does, and it will
      go on where it was. */
  lemma TimerPreempts(c: Core, i: nat) returns (d: Core)
    requires Quiet(c) && c.cpu.sie && c.cpu.current == Some(i)
    ensures Step(On(c), Tick(c)) && Tick(c).On? && Ends(c, Tick(c).core, d)
    ensures i < |c.table| == |c.ctx| && d.cpu.current == None && d.code == IDLE
    ensures d.table == c.table[i := c.table[i].(state := Runnable)]
    ensures d.ctx == c.ctx[i := Do(RestorePrev(false), Do(Give(Own(i)),
      if c.code == Do(User, End) then Do(IntOff, Do(ToUser, End)) else Do(Sret, c.code)))]
    ensures IntentAt(d, i) == IntentAt(c, i) && StageAt(d, i) == StageAt(c, i)
    ensures d.nextPid == c.nextPid && d.exits == c.exits && d.returned == c.returned && d.dispatches == c.dispatches
  {
    hide Quiet, Interruptible, Leads, Transition, KeepsWaits;
    QuietLocated(c);
    var rest := if c.code == Do(User, End) then TAIL else Do(Sret, c.code);
    TickPosition(c, i, rest);
    var c1 := c.(cpu := c.cpu.(sie := false), code := YieldCode(i, rest));
    assert Tick(c) == On(c1);
    YieldFollows(c, c1, i, rest);
    d := Yielded(c1, i, rest);
    assert IntentOf(Do(Give(Own(i)), rest)) == IntentOf(rest);
  }

  lemma TickPosition(c: Core, i: nat, rest: Code)
    requires Quiet(c) && c.cpu.sie && c.cpu.current == Some(i) && i < |c.table|
    requires rest == if c.code == Do(User, End) then TAIL else Do(Sret, c.code)
    ensures Position(i, c.table[i].pid, rest, false) && IntentOf(rest) == IntentOf(c.code)
  {
    hide Sane, AllSaved, Interruptible;
    TailPosition(i, c.table[i].pid);
    assert IntentOf(TAIL) == IntentOf(Do(User, End)) == NoIntent;
  }

  /** In the scheduler it changes nothing: the next step is back where it came. */
  lemma SchedulerResumes(c: Core)
    requires c.cpu.current == None && c.cpu.sie
    ensures KernelTick(c).On? && Next(KernelTick(c).core) == On(c)
  {
  }

  // ----- the scheduler -----

  /** Process `j` runs now, and has one dispatch more; it could run, and nobody who could has had fewer
      or, in a lower slot, as many.  It means what it meant. */
  ghost predicate Chosen(c: Core, d: Core, j: nat) {
    && j < |c.table| == |d.table| && c.table[j].state == Runnable && d.cpu.current == Some(j)
    && (forall q: nat :: q < |c.table| && c.table[q].state == Runnable && q != j ==>
          c.table[j].quants < c.table[q].quants || (c.table[j].quants == c.table[q].quants && j < q))
    && d.table[j].state == Running && d.table[j].quants == c.table[j].quants + 1
    && d.table[j].pid == c.table[j].pid && d.table[j].parent == c.table[j].parent && d.table[j].xstatus == c.table[j].xstatus
    && (forall q: nat :: q < |c.table| && q != j ==> d.table[q] == c.table[q])
    && d.ctx == c.ctx && d.dispatches == c.dispatches + 1 && IntentAt(d, j) == IntentAt(c, j)
  }

  lemma ReturnSeen(c: Core, j: nat)
    requires Quiet(c) && c.cpu.current == None && Choice(c.table) == Some(j) && |c.ctx| == |c.table|
    ensures Chosen(c, Returned(c, j), j)
  {
    hide Choice, Sane, Located, Position, Outcome, ExecTo, SavedOk, IntentOf, WokenCode;
    var d := Returned(c, j);
    assert SavedOk(j, c.table[j].pid, c.table[j].state, c.ctx[j]);
    forall q: nat | q < |c.table| && c.table[q].state == Runnable && q != j
      ensures c.table[j].quants < c.table[q].quants || (c.table[j].quants == c.table[q].quants && j < q)
    {
      ChoiceIsFirst(c.table, q);
    }
    ReturnIntent(c, j);
  }

  /** Who was interrupted goes on exactly where it was: with `Sret`, then the code it left. */
  lemma PreemptedResumes(c: Core, j: nat, rest: Code) returns (d: Core)
    requires Quiet(c) && c.cpu.current == None && c.code == PICK && !c.cpu.sie && Choice(c.table) == Some(j)
    requires j < |c.ctx| && c.ctx[j] == Do(RestorePrev(false), Do(Give(Own(j)), rest))
    ensures Leads(c, d) && Quiet(d) && d.cpu.current == Some(j) && d.code == rest && !d.cpu.sie
  {
    hide Quiet, Choice, Leads;
    d := Returned(c, j);
    QuietLocated(c);
    PickFollows(c, d);
  }

  // ----- system calls -----

  /** Process `p` in slot `i` has yet to do what it means to. */
  ghost predicate Pending(d: Core, i: nat, p: nat, k: Intent) {
    && i < |d.table| && d.table[i].pid == Some(p) && Alive(d.table[i].state)
    && (|| IntentAt(d, i) == k
        || (k.ToExec? && IntentAt(d, i).ToExec?)
        || (k == ToFork && IntentAt(d, i) == ToPanic))
  }

  /** It has done it between `c` and `d`. */
  ghost predicate Out(c: Core, d: Core, i: nat, p: nat, k: Intent) {
    && i < |c.table| == |d.table| && c.table[i].pid == Some(p)
    && Outcome(c, d, i, if k.ToExec? then ToExec(STORE) else k)
  }

  lemma PendingOn(c: Core, c1: Core, d: Core, i: nat, p: nat, k: Intent)
    requires Ends(c, c1, d) && Pending(c, i, p, k) && k != NoIntent && k != ToPanic
    ensures Pending(d, i, p, k) || Out(c, d, i, p, k)
  {
    hide Leads, Quiet, KeepsWaits, ExitedAs, ForkedBy, WaitedBy, Childless;
    assert ProgressAt(c, d, i);
  }

  ghost predicate Heading(c: Core, i: nat, p: nat, k: Intent) {
    exists d: Core :: Leads(c, d) && Quiet(d) && Pending(d, i, p, k)
  }

  /** It began to be done at the quiet `q`, and will have been at the next quiet state. */
  ghost predicate Coming(q: Core, c: Core, i: nat, p: nat, k: Intent) {
    exists d: Core :: Leads(c, d) && Quiet(d) && Out(q, d, i, p, k)
  }

  lemma HeadingOn(c: Core, s: State, i: nat, p: nat, k: Intent)
    requires Heading(c, i, p, k) && k != NoIntent && k != ToPanic && Step(On(c), s) && s.On?
    ensures Heading(s.core, i, p, k) || (Quiet(c) && Coming(c, s.core, i, p, k))
  {
    hide Quiet, Leads, Next, Pending, Out, Transition, KeepsWaits, UserTick, UserCall, KernelTick;
    var d: Core :| Leads(c, d) && Quiet(d) && Pending(d, i, p, k);
    if c != d {
      OneOn(c, d);
      UserStuck(c);
    } else {
      StepFollows(c, s);
      var e: Core :| Ends(c, s.core, e);
      PendingOn(c, s.core, e, i, p, k);
    }
  }

  lemma ComingOn(q: Core, c: Core, s: State, i: nat, p: nat, k: Intent)
    requires Coming(q, c, i, p, k) && Step(On(c), s) && s.On?
    ensures Coming(q, s.core, i, p, k) || (Quiet(c) && Out(q, c, i, p, k))
  {
    hide Quiet, Leads, Next, Out, UserTick, UserCall, KernelTick;
    var d: Core :| Leads(c, d) && Quiet(d) && Out(q, d, i, p, k);
    if c != d {
      OneOn(c, d);
      UserStuck(c);
    }
  }

  /** On this run, from `a` on and no later than `z`, process `p` has done it, between two quiet states. */
  ghost predicate Happened(states: seq<State>, a: nat, z: nat, i: nat, p: nat, k: Intent) {
    exists l: nat, m: nat :: DoneBetween(states, a, l, m, z, i, p, k)
  }

  ghost predicate DoneBetween(states: seq<State>, a: nat, l: nat, m: nat, z: nat, i: nat, p: nat, k: Intent) {
    && a <= l < m <= z < |states| && states[l].On? && states[m].On?
    && Quiet(states[l].core) && Quiet(states[m].core) && Out(states[l].core, states[m].core, i, p, k)
  }

  ghost predicate OnTheWay(states: seq<State>, a: nat, z: nat, i: nat, p: nat, k: Intent) {
    exists l: nat :: WayFrom(states, a, l, z, i, p, k)
  }

  ghost predicate WayFrom(states: seq<State>, a: nat, l: nat, z: nat, i: nat, p: nat, k: Intent) {
    && a <= l < z < |states| && states[l].On? && states[z].On?
    && Quiet(states[l].core) && Coming(states[l].core, states[z].core, i, p, k)
  }

  /** Process `p` in slot `i` makes a system call from user mode at `a`. */
  ghost predicate CallsAt(states: seq<State>, a: nat, i: nat, p: nat, call: Call) {
    && Run(states) && states[0].On? && Booted(states[0].core) && a + 1 < |states| && states[a].On?
    && InUser(states[a].core, i) && i < |states[a].core.table| && states[a].core.table[i].pid == Some(p)
    && states[a + 1] == UserCall(states[a].core, call)
  }

  lemma CallBegins(states: seq<State>, a: nat, i: nat, p: nat, call: Call)
    requires CallsAt(states, a, i, p, call)
    ensures states[a + 1].On? && Heading(states[a + 1].core, i, p, Meaning(call))
  {
    hide Booted, OnTrack, Quiet, Leads, Position, CallCode;
    var c := states[a].core;
    NeverBad(states, a);
    UserIsOn(c, i);
    InterruptsOnIsQuiet(c, Nothing);
    QuietLocated(c);
    CurrentPid(c, i);
    var d := states[a + 1].core;
    CallPosition(i, c.table[i].pid, call);
    CallIntent(i, call);
    CalledThread(c, d, i);
    Moves(c, d);
    LeadsSelf(d);
    assert Pending(d, i, p, Meaning(call));
  }

  lemma UserIsOn(c: Core, i: nat)
    requires OnTrack(c, Nothing) && InUser(c, i)
    ensures c.cpu.sie
  {
    hide OnTrack;
    if !c.cpu.sie {
      NotInUser(c);
    }
  }

  /** From where process `p` means to do something on. */
  lemma {:induction false} IntentRuns(states: seq<State>, a: nat, z: nat, i: nat, p: nat, k: Intent)
    requires Run(states) && a <= z < |states| && states[a].On? && states[z].On?
    requires Heading(states[a].core, i, p, k) && k != NoIntent && k != ToPanic
    ensures Heading(states[z].core, i, p, k) || OnTheWay(states, a, z, i, p, k) || Happened(states, a, z, i, p, k)
    decreases z
  {
    hide Step, Heading, Coming, Out, Quiet;
    if a < z {
      assert Step(states[z - 1], states[z]);
      StepsFromOn(states[z - 1], states[z]);
      IntentRuns(states, a, z - 1, i, p, k);
      if Happened(states, a, z - 1, i, p, k) {
        var l: nat, m: nat :| DoneBetween(states, a, l, m, z - 1, i, p, k);
        assert DoneBetween(states, a, l, m, z, i, p, k);
      } else if OnTheWay(states, a, z - 1, i, p, k) {
        var l: nat :| WayFrom(states, a, l, z - 1, i, p, k);
        ComingOn(states[l].core, states[z - 1].core, states[z], i, p, k);
        assert WayFrom(states, a, l, z, i, p, k) || DoneBetween(states, a, l, z - 1, z, i, p, k);
      } else {
        HeadingOn(states[z - 1].core, states[z], i, p, k);
        assert Heading(states[z].core, i, p, k) || WayFrom(states, a, z - 1, z, i, p, k);
      }
    }
  }

  /** Where interrupts are on, nothing is on its way. */
  lemma Arrived(c: Core, d: Core)
    requires Leads(c, d) && c.cpu.sie
    ensures c == d
  {
    hide Next;
    if c != d {
      OneOn(c, d);
    }
  }

  /** Back in user mode, the process has done what it meant to. */
  lemma IntentMet(states: seq<State>, a: nat, z: nat, i: nat, p: nat, k: Intent)
    requires Run(states) && states[0].On? && Booted(states[0].core) && a <= z < |states| && states[a].On? && states[z].On?
    requires Heading(states[a].core, i, p, k) && k != NoIntent && k != ToPanic && InUser(states[z].core, i)
    ensures states[z].core.cpu.sie && Quiet(states[z].core) && Happened(states, a, z, i, p, k)
  {
    hide Booted, OnTrack, Quiet, Leads, Out, Step;
    var c := states[z].core;
    NeverBad(states, z);
    UserIsOn(c, i);
    InterruptsOnIsQuiet(c, Nothing);
    IntentRuns(states, a, z, i, p, k);
    if Heading(c, i, p, k) {
      var d: Core :| Leads(c, d) && Quiet(d) && Pending(d, i, p, k);
      Arrived(c, d);
      assert false;
    }
    if OnTheWay(states, a, z, i, p, k) {
      var l: nat :| WayFrom(states, a, l, z, i, p, k);
      var d: Core :| Leads(c, d) && Quiet(d) && Out(states[l].core, d, i, p, k);
      Arrived(c, d);
      assert DoneBetween(states, a, l, z, z, i, p, k);
    }
  }

  lemma BackInUser(states: seq<State>, a: nat, z: nat, i: nat, p: nat, call: Call)
    requires CallsAt(states, a, i, p, call) && call != CallOther && a < z < |states| && states[z].On?
    requires InUser(states[z].core, i)
    ensures states[z].core.cpu.sie && Quiet(states[z].core) && Happened(states, a + 1, z, i, p, Meaning(call))
  {
    hide Booted, Quiet, Heading, Happened, Step;
    CallBegins(states, a, i, p, call);
    IntentMet(states, a + 1, z, i, p, Meaning(call));
  }

  // ----- fork, wait and exec -----

  /** `fork`: before the process is back in user mode it has forked: a new child of its own, in the
      first free slot, and nothing else changed with that. */
  lemma ForkForks(states: seq<State>, a: nat, z: nat, i: nat, p: nat)
    requires CallsAt(states, a, i, p, CallFork) && a < z < |states| && states[z].On? && InUser(states[z].core, i)
    ensures exists l: nat, m: nat, k: nat ::
      && a < l < m <= z && states[l].On? && states[m].On? && i < |states[l].core.table| == |states[m].core.table|
      && states[l].core.table[i].pid == Some(p) && ForkedBy(states[l].core, states[m].core, i, k)
  {
    hide Step, Quiet, ForkedBy;
    BackInUser(states, a, z, i, p, CallFork);
    var l: nat, m: nat :| DoneBetween(states, a + 1, l, m, z, i, p, ToFork);
    var k: nat :| ForkedBy(states[l].core, states[m].core, i, k);
  }

  /** `wait`: before it is back it has had no child at all, or has got its first zombie child's id and
      status, and with just these it has answered. */
  lemma WaitWaits(states: seq<State>, a: nat, z: nat, i: nat, p: nat)
    requires CallsAt(states, a, i, p, CallWait) && a < z < |states| && states[z].On? && InUser(states[z].core, i)
    ensures exists l: nat, m: nat ::
      && a < l < m <= z && states[l].On? && states[m].On? && i < |states[l].core.table| == |states[m].core.table|
      && states[l].core.table[i].pid == Some(p)
      && (|| Childless(states[l].core, states[m].core, i)
          || exists k: nat :: WaitedBy(states[l].core, states[m].core, i, k) && Answers(states, m, z, i, states[l].core.table[k]))
  {
    hide Step, Quiet, WaitedBy, Childless, Booted, Answers;
    BackInUser(states, a, z, i, p, CallWait);
    var l: nat, m: nat :| DoneBetween(states, a + 1, l, m, z, i, p, ToWait);
    if k: nat :| WaitedBy(states[l].core, states[m].core, i, k) {
      WaitedAnswers(states, l, m, z, i, p, k);
    }
  }

  /** Between `m` and `z` process `i` answers with the id and the status of zombie `q`. */
  ghost predicate Answers(states: seq<State>, m: nat, z: nat, i: nat, q: Proc) {
    exists l: nat, n: nat ::
      && m <= l < n <= z < |states| && states[l].On? && states[n].On? && q.pid.Some?
      && AnsweredWith(states[l].core, states[n].core, i, q.pid.value, q.xstatus)
  }

  lemma WaitedAnswers(states: seq<State>, l: nat, m: nat, z: nat, i: nat, p: nat, k: nat)
    requires Run(states) && states[0].On? && Booted(states[0].core) && l < m <= z < |states|
    requires states[l].On? && states[m].On? && states[z].On? && InUser(states[z].core, i)
    requires Quiet(states[l].core) && Quiet(states[m].core)
    requires i < |states[l].core.table| == |states[m].core.table| && states[l].core.table[i].pid == Some(p)
    requires WaitedBy(states[l].core, states[m].core, i, k)
    ensures Answers(states, m, z, i, states[l].core.table[k])
  {
    hide Booted, Quiet, Leads, Step;
    var c, d := states[l].core, states[m].core;
    var q := c.table[k];
    var w := ToAnswer(q.pid.value, q.xstatus);
    CurrentPid(c, i);
    LeadsSelf(d);
    assert Pending(d, i, p, w);
    assert Heading(d, i, p, w);
    IntentMet(states, m, z, i, p, w);
    var x: nat, n: nat :| DoneBetween(states, m, x, n, z, i, p, w);
    assert AnsweredWith(states[x].core, states[n].core, i, q.pid.value, q.xstatus);
  }

  /** `exec`: before it is back it has taken the last step, the store of the new address space. */
  lemma ExecStores(states: seq<State>, a: nat, z: nat, i: nat, p: nat)
    requires CallsAt(states, a, i, p, CallExec) && a < z < |states| && states[z].On? && InUser(states[z].core, i)
    ensures exists l: nat, m: nat ::
      && a < l < m <= z && states[l].On? && states[m].On? && ExecTo(states[l].core, states[m].core, i)
      && StageAt(states[l].core, i) == STORE && StageAt(states[m].core, i) == 0
  {
    hide Step, Quiet;
    BackInUser(states, a, z, i, p, CallExec);
    var l: nat, m: nat :| DoneBetween(states, a + 1, l, m, z, i, p, ToExec(0));
    StoreIsLast(states[l].core, states[m].core, i, p);
  }

  lemma StoreIsLast(c: Core, d: Core, i: nat, p: nat)
    requires Out(c, d, i, p, ToExec(0))
    ensures ExecTo(c, d, i) && (StageAt(c, i) == STORE ==> StageAt(d, i) == 0)
  {
  }

  // ----- exit -----

  lemma {:induction false} ExitsGrow(c: Core, d: Core, n: nat, p: nat)
    requires Goes(c, d, n) && p in c.exits
    ensures p in d.exits && d.exits[p] == c.exits[p]
    decreases n
  {
    hide Next;
    if n > 0 {
      var e := Next(c).core;
      UserStuck(c);
      ExitStays(c, On(e), p);
      ExitsGrow(e, d, n - 1, p);
    }
  }

  lemma ExitStays(c: Core, s: State, p: nat)
    requires Step(On(c), s) && s.On? && p in c.exits
    ensures p in s.core.exits && s.core.exits[p] == c.exits[p]
  {
    hide Step;
    StatusOnce(c, s);
  }

  lemma {:induction false} ExitForever(states: seq<State>, m: nat, z: nat, p: nat)
    requires Run(states) && m <= z < |states| && states[m].On? && states[z].On? && p in states[m].core.exits
    ensures p in states[z].core.exits && states[z].core.exits[p] == states[m].core.exits[p]
    decreases z
  {
    hide Step;
    if m < z {
      assert Step(states[z - 1], states[z]);
      StepsFromOn(states[z - 1], states[z]);
      ExitForever(states, m, z - 1, p);
      ExitStays(states[z - 1].core, states[z], p);
    }
  }

  lemma AliveHasNotExited(d: Core, i: nat, p: nat)
    requires Quiet(d) && i < |d.table| && d.table[i].pid == Some(p) && Alive(d.table[i].state)
    ensures p !in d.exits
  {
    hide AllSaved, Located, Ids, Tree, NoLostWakeup;
    assert HistoryAt(d.table[i], d.exits, d.returned);
  }

  /** `exit`: whatever is recorded as its exit is the status it has called with, and the process is
      never back in user mode. */
  lemma ExitDelivers(states: seq<State>, a: nat, z: nat, i: nat, p: nat, x: nat)
    requires CallsAt(states, a, i, p, CallExit(x)) && a < z < |states| && states[z].On?
    ensures var c := states[z].core;
      && (p in c.exits ==> c.exits[p] == x)
      && !(InUser(c, i) && i < |c.table| && c.table[i].pid == Some(p))
  {
    hide Booted, OnTrack, Quiet, Leads, Out, Step;
    var c, k := states[z].core, ToExit(x);
    CallBegins(states, a, i, p, CallExit(x));
    IntentRuns(states, a + 1, z, i, p, k);
    if Heading(c, i, p, k) {
      var d: Core :| Leads(c, d) && Quiet(d) && Pending(d, i, p, k);
      ExitNotYet(c, d, i, p);
    } else if OnTheWay(states, a + 1, z, i, p, k) {
      var l: nat :| WayFrom(states, a + 1, l, z, i, p, k);
      var d: Core :| Leads(c, d) && Quiet(d) && Out(states[l].core, d, i, p, k);
      ExitIs(states[l].core, d, i, p, x);
      if p in c.exits {
        ExitGrown(c, d, p);
      }
    } else {
      var l: nat, m: nat :| DoneBetween(states, a + 1, l, m, z, i, p, k);
      ExitIs(states[l].core, states[m].core, i, p, x);
      ExitForever(states, m, z, p);
    }
    NotBackFromExit(states, a, z, i, p, x);
  }

  lemma ExitIs(c: Core, d: Core, i: nat, p: nat, x: nat)
    requires Out(c, d, i, p, ToExit(x))
    ensures p in d.exits && d.exits[p] == x
  {
  }

  lemma ExitGrown(c: Core, d: Core, p: nat)
    requires Leads(c, d) && p in c.exits
    ensures p in d.exits && d.exits[p] == c.exits[p]
  {
    hide Goes;
    var n: nat :| Goes(c, d, n);
    ExitsGrow(c, d, n, p);
  }

  lemma ExitNotYet(c: Core, d: Core, i: nat, p: nat)
    requires Leads(c, d) && Quiet(d) && i < |d.table| && d.table[i].pid == Some(p) && Alive(d.table[i].state)
    ensures p !in c.exits
  {
    hide Leads, Quiet;
    AliveHasNotExited(d, i, p);
    if p in c.exits {
      ExitGrown(c, d, p);
    }
  }

  lemma NotBackFromExit(states: seq<State>, a: nat, z: nat, i: nat, p: nat, x: nat)
    requires CallsAt(states, a, i, p, CallExit(x)) && a < z < |states| && states[z].On?
    ensures var c := states[z].core; !(InUser(c, i) && i < |c.table| && c.table[i].pid == Some(p))
  {
    hide Booted, OnTrack, Quiet, Leads, Out, Step;
    var c := states[z].core;
    if InUser(c, i) && i < |c.table| && c.table[i].pid == Some(p) {
      BackInUser(states, a, z, i, p, CallExit(x));
      var l: nat, m: nat :| DoneBetween(states, a + 1, l, m, z, i, p, ToExit(x));
      ExitIs(states[l].core, states[m].core, i, p, x);
      ExitForever(states, m, z, p);
      CurrentPid(c, i);
      AliveHasNotExited(c, i, p);
      assert false;
    }
  }

  /** What `exit` was called with is what the zombie's slot holds, wherever interrupts are on, and what
      its parent is given. */
  lemma ExitStatus(states: seq<State>, a: nat, z: nat, i: nat, p: nat, x: nat, j: nat)
    requires CallsAt(states, a, i, p, CallExit(x)) && a < z < |states| && states[z].On? && states[z].core.cpu.sie
    ensures var c := states[z].core;
      && (j < |c.table| && c.table[j].pid == Some(p) && c.table[j].state == Zombie ==> c.table[j].xstatus == x)
      && (p in c.returned ==> c.returned[p].status == x)
  {
    hide Booted, OnTrack, Step, Ids, Tree, OneRunning, NoLostWakeup;
    ExitDelivers(states, a, z, i, p, x);
    AlwaysSane(states, z);
    var c := states[z].core;
    if j < |c.table| && c.table[j].pid == Some(p) && c.table[j].state == Zombie {
      assert HistoryAt(c.table[j], c.exits, c.returned);
    }
  }
}
