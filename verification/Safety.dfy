/** What holds on every run of the kernel, whenever interrupts may come. */
module Safety {
  import opened Options
  import opened ProcessTable
  import opened PickOrder
  import opened Machine
  import opened Regions
  import opened Protocol
  import opened Fairness

  // ----- where a thread can be interrupted -----

  /** Taking the first lock of a system call; the interrupt level has not been raised yet. */
  predicate AtLock(code: Code, m: Mutex, body: Code) {
    || code == Do(Take(m), body)
    || code == Do(PushRead, Do(Acquire(m), body))
    || code == Do(PushOff, Do(PushSave(true), Do(Acquire(m), body)))
  }

  /** The system calls that take locks, by what follows their first lock; and the heap allocator's
      own, in any of them. */
  datatype Region = ForkRegion | ExitRegion(xstatus: nat) | WaitRegion | HeapRegion(rest: Code)

  function RegionLock(i: nat, r: Region): Mutex {
    if r.ExitRegion? then Local(i) else if r.HeapRegion? then Heap else Kernel
  }

  function RegionBody(i: nat, pid: Option<nat>, r: Region): Code {
    match r
    case ForkRegion => ForkBody(i, TAIL)
    case ExitRegion(xstatus) => ExitBody(i, xstatus)
    case WaitRegion => WaitBody(i, pid, TAIL)
    case HeapRegion(rest) => Do(Give(Heap), rest)
  }

  /** What `usertrap` goes on with behind a use of the heap: a step of `kexec`, or its end. */
  predicate AfterHeap(code: Code) {
    code == TAIL || (code.Do? && code.op.Exec? && code.op.at <= STORE && code.rest == TAIL)
  }

  /** `kwait` with a child's id and status. */
  predicate Answering(code: Code) {
    code.Do? && code.op.CopyOut? && code.rest == TAIL
  }

  ghost predicate Locking(i: nat, pid: Option<nat>, code: Code) {
    exists r: Region :: AtRegion(i, pid, code, r)
  }

  predicate AtRegion(i: nat, pid: Option<nat>, code: Code, r: Region) {
    AtLock(code, RegionLock(i, r), RegionBody(i, pid, r)) && (r.ExitRegion? ==> pid != Some(0))
    && (r.HeapRegion? ==> AfterHeap(r.rest))
  }

  /** Kernel code of process `i` at which a timer interrupt can come. */
  ghost predicate Interruptible(i: nat, pid: Option<nat>, code: Code) {
    || AfterHeap(code) || Answering(code) || code == Do(Panic, TAIL)
    || (exists call: Call :: code == CallCode(i, call))
    || Locking(i, pid, code)
  }

  /** Where process `i` can be with no lock held. */
  ghost predicate Position(i: nat, pid: Option<nat>, code: Code, sie: bool) {
    if sie then code == Do(User, End) || Interruptible(i, pid, code)
    else
      || code == TAIL || code == Do(ToUser, End)
      || (code.Do? && (code.op == IntOn || code.op == Sret) && Interruptible(i, pid, code.rest))
  }

  /** Where the scheduler can be with no lock held. */
  predicate SchedPosition(code: Code, sie: bool) {
    || code == IDLE || code == Do(IntOn, IDLE) || code == Do(IntOn, Do(IntOff, PICK))
    || (if sie then code == Do(IntOff, PICK) else code == PICK)
    || (!sie && code.Do? && code.op == Sret && code.rest in {IDLE, Do(IntOn, IDLE), Do(IntOn, Do(IntOff, PICK)), Do(IntOff, PICK)})
  }

  /** What a process that is not running will go on with. */
  ghost predicate SavedOk(j: nat, pid: Option<nat>, state: ProcState, ctx: Code) {
    && (state == Sleeping ==> ctx == Do(RestorePrev(true), WokenCode(j, TAIL)))
    && (state == Unused || state == Zombie ==> Stage(ctx) == 0)
    && (state == Runnable ==>
          || ctx == Do(Forkret, End)
          || ctx == Do(RestorePrev(true), WokenCode(j, TAIL))
          || Yielder(j, pid, ctx))
  }

  ghost predicate Yielder(j: nat, pid: Option<nat>, ctx: Code) {
    ctx.Do? && ctx.op == RestorePrev(false) && ctx.rest.Do? && ctx.rest.op == Give(Own(j))
    && Position(j, pid, ctx.rest.rest, false)
  }

  ghost predicate AllSaved(t: Table, ctx: seq<Code>) {
    |ctx| == |t| && forall j: nat :: j < |t| ==> SavedOk(j, t[j].pid, t[j].state, ctx[j])
  }

  /** The machine between two critical regions: no lock held, interrupts not masked by anybody,
      and the process table sane. */
  ghost predicate Quiet(c: Core) {
    && c.held == {} && c.cpu.depth == 0
    && Sane(c.table, c.nextPid, c.cpu.current, c.exits, c.returned)
    && AllSaved(c.table, c.ctx)
    && Located(c)
  }

  ghost predicate Located(c: Core) {
    match c.cpu.current
    case None => SchedPosition(c.code, c.cpu.sie)
    case Some(i) => i < |c.table| && c.sched == Do(AfterRun(i), End) && Position(i, c.table[i].pid, c.code, c.cpu.sie)
  }

  /** The machine is quiet, or gets there in steps no interrupt can come between. */
  ghost predicate OnTrack(c: Core, w: Watch) {
    exists d: Core :: Leads(c, d) && Quiet(d) && Waits(d.table, d.dispatches, w)
  }

  // ----- what happens to memory between two quiet states -----

  /** Where process `j` stands in `kexec`, running or not. */
  function StageAt(c: Core, j: nat): nat {
    if c.cpu.current == Some(j) then Stage(c.code) else if j < |c.ctx| then Stage(c.ctx[j]) else 0
  }

  ghost predicate SameStages(c: Core, d: Core) {
    |d.table| == |c.table| && forall j: nat :: j < |c.table| ==> StageAt(d, j) == StageAt(c, j)
  }

  /** No memory of a process is touched: nobody's slot comes into use or goes out of it, and nobody
      gets on in `kexec`. */
  ghost predicate SameJobs(c: Core, d: Core) {
    && SameStages(c, d)
    && forall j: nat :: j < |c.table| ==> (d.table[j].state == Unused <==> c.table[j].state == Unused)
  }

  /** The current process has forked into slot `k`. */
  ghost predicate ForkTo(c: Core, d: Core, i: nat, k: nat) {
    && c.cpu.current == Some(i) && i < |c.table| && StageAt(c, i) == 0
    && FirstUnused(c.table, 0) == Some(k) && d.table == Forked(c.table, i, k, c.nextPid) && SameStages(c, d)
  }

  /** The current process has taken the status of zombie `z`. */
  ghost predicate ReapTo(c: Core, d: Core, i: nat, z: nat) {
    && c.cpu.current == Some(i) && i < |c.table| && StageAt(c, i) == 0
    && FirstZombie(c.table, c.table[i].pid, 0) == Some(z) && d.table == c.table[z := Freed(c.table[z])] && SameStages(c, d)
  }

  /** The current process has taken a step of `kexec`. */
  ghost predicate ExecTo(c: Core, d: Core, i: nat) {
    && c.cpu.current == Some(i) && d.cpu.current == Some(i) && i < |c.table| && d.table == c.table && d.ctx == c.ctx
    && c.code == Do(Exec(StageAt(c, i)), TAIL) && StageAt(c, i) <= STORE
    && StageAt(d, i) == if StageAt(c, i) == STORE then 0 else StageAt(c, i) + 1
  }

  /** What memory has to do to follow the machine. */
  datatype Effect = NoEffect | Forks(i: nat, k: nat) | Reaps(i: nat, z: nat) | Executes(i: nat)

  ghost predicate HasEffect(c: Core, d: Core, e: Effect) {
    match e
    case NoEffect => SameJobs(c, d)
    case Forks(i, k) => ForkTo(c, d, i, k)
    case Reaps(i, z) => ReapTo(c, d, i, z)
    case Executes(i) => ExecTo(c, d, i)
  }

  // ----- what a thread has done between two quiet states -----

  function IntentAt(c: Core, j: nat): Intent {
    if c.cpu.current == Some(j) then IntentOf(c.code) else if j < |c.ctx| then IntentOf(c.ctx[j]) else NoIntent
  }

  predicate Alive(state: ProcState) {
    state in {Sleeping, Runnable, Running}
  }

  /** Process `j` is still the same, and still means to do the same. */
  ghost predicate Stays(c: Core, d: Core, j: nat)
    requires j < |c.table| == |d.table|
  {
    d.table[j].pid == c.table[j].pid && Alive(d.table[j].state) && IntentAt(d, j) == IntentAt(c, j)
  }

  /** Process `j` has become a zombie with status `x`, which is recorded as its exit. */
  ghost predicate ExitedAs(c: Core, d: Core, j: nat, x: nat)
    requires j < |c.table| == |d.table|
  {
    && c.cpu.current == Some(j) && d.cpu.current == None && c.table[j].pid.Some?
    && d.exits == c.exits[c.table[j].pid.value := x] && d.returned == c.returned && d.nextPid == c.nextPid
    && d.table[j].state == Zombie && d.table[j].xstatus == x
    && forall q: nat :: q < |c.table| ==> ExitSeen(c.table, d.table, j, q)
  }

  /** What it means for slot `q`: a child of `j` is process 0's now; whoever sleeps on `j`'s parent can
      run, and so can process 0 if it has got children. */
  ghost predicate ExitSeen(t: Table, u: Table, j: nat, q: nat)
    requires j < |t| == |u| && q < |t|
  {
    && u[q].pid == t[q].pid && u[q].quants == t[q].quants
    && u[q].parent == (if t[q].parent == t[j].pid then Some(0) else t[q].parent)
    && (q != j ==> u[q].xstatus == t[q].xstatus && u[q].chan == t[q].chan)
    && (q != j && t[q].state != Sleeping ==> u[q].state == t[q].state)
    && (q != j && t[q].state == Sleeping ==>
          u[q].state == if t[q].chan == t[j].parent || (t[q].chan == Some(0) && exists k: nat :: ChildAt(t, t[j].pid, k))
                        then Runnable else Sleeping)
  }

  /** Process `j` has a new child in the first free slot, which can run and begins where new processes
      do; nothing else changed. */
  ghost predicate ForkedBy(c: Core, d: Core, j: nat, k: nat)
    requires j < |c.table| == |d.table|
  {
    && c.cpu.current == Some(j) && d.cpu.current == Some(j) && k < |c.table| == |c.ctx| && c.table[k].state == Unused
    && (forall q: nat :: q < k ==> c.table[q].state != Unused)
    && d.table == c.table[k := Proc(Some(c.nextPid), Runnable, c.table[j].pid, c.table[k].chan, c.table[k].xstatus, c.table[k].quants)]
    && d.nextPid == c.nextPid + 1 && d.ctx == c.ctx[k := Do(Forkret, End)]
    && d.exits == c.exits && d.returned == c.returned
  }

  /** Process `j` has been given the status of its first zombie child `z`, whose slot is free again. */
  ghost predicate WaitedBy(c: Core, d: Core, j: nat, z: nat)
    requires j < |c.table| == |d.table|
  {
    && c.cpu.current == Some(j) && d.cpu.current == Some(j) && c.table[j].pid.Some? && z < |c.table|
    && c.table[z].parent == c.table[j].pid && c.table[z].state == Zombie && c.table[z].pid.Some?
    && (forall q: nat :: q < z && c.table[q].parent == c.table[j].pid ==> c.table[q].state != Zombie)
    && d.table == c.table[z := Proc(None, Unused, None, None, 0, c.table[z].quants)]
    && d.returned == c.returned[c.table[z].pid.value := Return(c.table[j].pid.value, c.table[z].xstatus)]
    && d.exits == c.exits && d.nextPid == c.nextPid && d.ctx == c.ctx
    && IntentAt(d, j) == ToAnswer(c.table[z].pid.value, c.table[z].xstatus)
  }

  /** It has no child to wait for. */
  ghost predicate Childless(c: Core, d: Core, j: nat)
    requires j < |c.table| == |d.table|
  {
    && c.cpu.current == Some(j) && d.cpu.current == Some(j) && d.table == c.table && d.returned == c.returned
    && IntentAt(d, j) == NoIntent
    && forall q: nat :: q < |c.table| ==> c.table[q].parent != c.table[j].pid
  }

  /** It is done with the child's id and status, and on its way to user mode. */
  ghost predicate AnsweredWith(c: Core, d: Core, j: nat, child: nat, x: nat) {
    && c.cpu.current == Some(j) && c.code == Do(CopyOut(child, x), TAIL)
    && d == c.(code := TAIL)
  }

  /** What a system call that meant `intent` comes to. */
  ghost predicate Outcome(c: Core, d: Core, j: nat, intent: Intent)
    requires j < |c.table| == |d.table|
  {
    match intent
    case ToExit(x) => ExitedAs(c, d, j, x)
    case ToFork => exists k: nat :: ForkedBy(c, d, j, k)
    case ToWait => Childless(c, d, j) || exists z: nat :: WaitedBy(c, d, j, z)
    case ToAnswer(child, x) => AnsweredWith(c, d, j, child, x)
    case ToExec(at) => at == STORE == StageAt(c, j) && ExecTo(c, d, j)
    case _ => false
  }

  /** No slot is left to fork into: a panic is next. */
  ghost predicate NoSlot(c: Core, d: Core, j: nat)
    requires j < |c.table| == |d.table|
  {
    && d.table == c.table && IntentAt(c, j) == ToFork && IntentAt(d, j) == ToPanic
    && forall q: nat :: q < |c.table| ==> c.table[q].state != Unused
  }

  /** Whoever means to do something does that, and nothing else, before it means something else. */
  ghost predicate ProgressAt(c: Core, d: Core, j: nat)
    requires j < |c.table| == |d.table|
  {
    Alive(c.table[j].state) ==>
      || Stays(c, d, j)
      || Outcome(c, d, j, IntentAt(c, j))
      || NoSlot(c, d, j)
      || (IntentAt(c, j).ToExec? && ExecTo(c, d, j) && IntentAt(d, j) == ToExec(IntentAt(c, j).at + 1))
      || (InUser(c, j) && d.table == c.table)
  }

  predicate InUser(c: Core, j: nat) {
    c.cpu.current == Some(j) && c.code == Do(User, End)
  }

  ghost predicate Progress(c: Core, d: Core) {
    |d.table| == |c.table| && forall j: nat :: j < |c.table| ==> ProgressAt(c, d, j)
  }

  ghost predicate Transition(c: Core, d: Core) {
    (exists e: Effect :: HasEffect(c, d, e)) && Progress(c, d)
  }

  /** `c1` follows the quiet `c`, and is on its way to the quiet `d`, which keeps all bounds. */
  ghost predicate Ends(c: Core, c1: Core, d: Core) {
    Leads(c1, d) && Quiet(d) && KeepsWaits(c, d) && Transition(c, d)
  }

  ghost predicate Follows(c: Core, c1: Core) {
    exists d: Core :: Ends(c, c1, d)
  }

  lemma FollowsLater(c: Core, c1: Core, d: Core)
    requires Leads(c1, d) && Quiet(d) && KeepsWaits(c, d) && Transition(c, d)
    ensures Ends(c, c1, d) && Follows(c, c1)
  {
    hide Quiet, KeepsWaits, Leads, Transition;
  }

  /** Only the place in the code changed. */
  lemma Moves(c: Core, d: Core)
    requires Quiet(c) && d == c.(cpu := c.cpu.(sie := d.cpu.sie), code := d.code) && Located(d) && Transition(c, d)
    ensures Quiet(d) && Ends(c, d, d) && Follows(c, d)
  {
    hide Sane, AllSaved, Located, Steady, Transition;
    SteadySelf(c.table);
    SteadyWaits(c, d);
    LeadsSelf(d);
    FollowsLater(c, d, d);
  }

  lemma SameThread(c: Core, d: Core)
    requires d.table == c.table && d.ctx == c.ctx && d.cpu.current == c.cpu.current
    requires c.cpu.current.None? || IntentOf(d.code) == IntentOf(c.code)
    ensures SameJobs(c, d) && Transition(c, d)
  {
    hide Outcome;
    assert HasEffect(c, d, NoEffect);
    assert forall j: nat :: j < |c.table| && Alive(c.table[j].state) ==> Stays(c, d, j);
  }

  lemma SteadySelf(t: Table)
    ensures Steady(t, t)
  {
  }

  // ----- leaving the hart -----

  lemma SavedAgain(t: Table, u: Table, ctx: seq<Code>, i: nat, saved: Code)
    requires AllSaved(t, ctx) && |u| == |t| && i < |t| && SavedOk(i, u[i].pid, u[i].state, saved)
    requires forall j: nat :: j < |t| && j != i ==>
      u[j].pid == t[j].pid && (u[j].state == t[j].state || (t[j].state == Sleeping && u[j].state == Runnable))
    ensures AllSaved(u, ctx[i := saved])
  {
    hide Yielder;
    forall j: nat | j < |u|
      ensures SavedOk(j, u[j].pid, u[j].state, ctx[i := saved][j])
    {
      assert SavedOk(j, t[j].pid, t[j].state, ctx[j]);
    }
  }

  /** Where a timer interrupt in process `i` leaves the machine. */
  lemma YieldFollows(c: Core, c1: Core, i: nat, rest: Code)
    requires Quiet(c) && c.cpu.current == Some(i) && IntentOf(rest) == IntentOf(c.code)
    requires c1 == c.(cpu := c.cpu.(sie := false), code := YieldCode(i, rest))
    requires Position(i, if i < |c.table| then c.table[i].pid else None, rest, false)
    ensures i < |c.table| == |c.ctx| && Ends(c, c1, Yielded(c1, i, rest)) && Follows(c, c1)
  {
    hide Sane, Position, Leads, Ids, Tree, NoLostWakeup, History, SavedOk;
    SaneParts(c);
    QuietSaved(c);
    YieldKeeps(c.table, i, c.nextPid, c.exits, c.returned);
    YieldLeads(c1, i, rest);
    var d := Yielded(c1, i, rest);
    YielderOk(i, c.table[i].pid, rest);
    SavedAgain(c.table, d.table, c.ctx, i, Do(RestorePrev(false), Do(Give(Own(i)), rest)));
    SteadyWaits(c, d);
    LeftJobs(c, d, i);
    FollowsLater(c, c1, d);
  }

  /** Process `i` has left the hart where it stood. */
  lemma LeftJobs(c: Core, d: Core, i: nat)
    requires c.cpu.current == Some(i) && d.cpu.current == None && i < |c.table| == |c.ctx| == |d.ctx| == |d.table|
    requires d.ctx == c.ctx[i := d.ctx[i]] && IntentOf(d.ctx[i]) == IntentOf(c.code)
    requires forall j: nat :: j < |c.table| ==> (d.table[j].state == Unused <==> c.table[j].state == Unused)
    requires forall j: nat :: j < |c.table| ==> d.table[j].pid == c.table[j].pid
    requires forall j: nat :: j < |c.table| && Alive(c.table[j].state) ==> Alive(d.table[j].state)
    ensures SameJobs(c, d) && Transition(c, d)
  {
    hide Outcome;
    LeftStages(c, d, i);
    assert HasEffect(c, d, NoEffect);
    assert forall j: nat :: j < |c.table| && Alive(c.table[j].state) ==> Stays(c, d, j);
  }

  lemma LeftStages(c: Core, d: Core, i: nat)
    requires c.cpu.current == Some(i) && d.cpu.current == None && i < |c.table| == |c.ctx| == |d.ctx| == |d.table|
    requires d.ctx == c.ctx[i := d.ctx[i]] && Stage(d.ctx[i]) == Stage(c.code)
    requires forall j: nat :: j < |c.table| ==> (d.table[j].state == Unused <==> c.table[j].state == Unused)
    ensures SameJobs(c, d)
  {
  }

  lemma YielderOk(i: nat, pid: Option<nat>, rest: Code)
    requires Position(i, pid, rest, false)
    ensures SavedOk(i, pid, Runnable, Do(RestorePrev(false), Do(Give(Own(i)), rest)))
  {
    hide Position;
  }

  lemma SaneParts(c: Core)
    requires Quiet(c) && c.cpu.current.Some?
    ensures var i := c.cpu.current.value;
      && i < |c.table| == |c.ctx| && c.table[i].state == Running && c.table[i].pid.Some?
      && c.table[i].pid.value !in c.exits && c.table[i].parent != c.table[i].pid
      && SlotWithPid(c.table, c.table[i].pid, 0) == Some(i) && c.sched == Do(AfterRun(i), End)
    ensures forall j :: 0 <= j < |c.table| && c.table[j].state == Zombie ==>
      c.table[j].pid.Some? && c.table[j].pid.value !in c.returned
  {
    hide Tree, NoLostWakeup, SavedOk, Position;
    var i := c.cpu.current.value;
    assert HistoryAt(c.table[i], c.exits, c.returned);
    OwnParent(c.table, i);
    forall j | 0 <= j < |c.table| && c.table[j].state == Zombie
      ensures c.table[j].pid.Some? && c.table[j].pid.value !in c.returned
    {
      assert HistoryAt(c.table[j], c.exits, c.returned);
    }
  }

  lemma OwnParent(t: Table, i: nat)
    requires Tree(t) && i < |t| && t[i].pid.Some?
    ensures t[i].parent != t[i].pid
  {
    assert ParentOk(t, i);
  }

  lemma QuietSaved(c: Core)
    requires Quiet(c)
    ensures AllSaved(c.table, c.ctx)
    ensures Sane(c.table, c.nextPid, c.cpu.current, c.exits, c.returned)
  {
  }

  // ----- the regions -----

  lemma ExitFollows(c: Core, i: nat, xstatus: nat)
    requires Quiet(c) && c.cpu.current == Some(i) && i < |c.table| == |c.ctx| && c.table[i].pid != Some(0)
    requires IntentOf(c.code) == ToExit(xstatus)
    ensures Ends(c, Begun(c, i, Local(i), ExitBody(i, xstatus)), ExitDone(c, i, xstatus))
    ensures ExitedAs(c, ExitDone(c, i, xstatus), i, xstatus)
  {
    hide Sane, Position, Leads, Ids, Tree, NoLostWakeup, History, SavedOk, Exited;
    SaneParts(c);
    QuietSaved(c);
    ExitKeeps(c.table, i, xstatus, c.nextPid, c.exits, c.returned);
    ExitLeads(c, i, xstatus);
    var d := ExitDone(c, i, xstatus);
    forall j: nat | j < |c.table|
      ensures |d.table| == |c.table| && d.table[j].pid == c.table[j].pid && d.table[j].quants == c.table[j].quants
      ensures if j == i then d.table[j].state == Zombie
              else d.table[j].state == c.table[j].state || (c.table[j].state == Sleeping && d.table[j].state == Runnable)
    {
      ExitedAt(c.table, i, xstatus, j);
    }
    ZombieSaved(i, c.table[i].pid);
    SavedAgain(c.table, d.table, c.ctx, i, Do(RestorePrev(true), Do(Cordyceps, End)));
    SteadyWaits(c, d);
    ExitJobs(c, i, xstatus);
    FollowsLater(c, Begun(c, i, Local(i), ExitBody(i, xstatus)), d);
  }

  lemma ExitJobs(c: Core, i: nat, xstatus: nat)
    requires c.cpu.current == Some(i) && i < |c.table| == |c.ctx| && c.table[i].state == Running && c.table[i].pid.Some?
    requires IntentOf(c.code) == ToExit(xstatus)
    ensures SameJobs(c, ExitDone(c, i, xstatus)) && ExitedAs(c, ExitDone(c, i, xstatus), i, xstatus)
    ensures Transition(c, ExitDone(c, i, xstatus))
  {
    hide Exited, HasChild;
    var t, d := c.table, ExitDone(c, i, xstatus);
    ExitedAt(t, i, xstatus, i);
    forall q: nat | q < |t|
      ensures |d.table| == |t| && ExitSeen(t, d.table, i, q)
      ensures q != i && Alive(t[q].state) ==> Alive(d.table[q].state)
      ensures d.table[q].state == Unused <==> t[q].state == Unused
    {
      ExitedAt(t, i, xstatus, q);
      HasChildIs(t, t[i].pid);
      if t[q].parent == t[i].pid {
        assert ChildAt(t, t[i].pid, q);
      }
    }
    LeftStages(c, d, i);
    assert HasEffect(c, d, NoEffect);
    assert forall j: nat :: j < |t| && Alive(t[j].state) && j != i ==> Stays(c, d, j);
  }

  lemma HasChildIs(t: Table, pid: Option<nat>)
    ensures HasChild(t, pid, 0) <==> exists k: nat :: ChildAt(t, pid, k)
  {
  }

  lemma ZombieSaved(i: nat, pid: Option<nat>)
    ensures SavedOk(i, pid, Zombie, Do(RestorePrev(true), Do(Cordyceps, End)))
  {
  }

  lemma WaitFollows(c: Core, i: nat, pid: nat)
    requires Quiet(c) && c.cpu.current == Some(i) && i < |c.table| == |c.ctx| && c.table[i].pid == Some(pid)
    requires IntentOf(c.code) == ToWait
    ensures Ends(c, Begun(c, i, Kernel, WaitBody(i, Some(pid), TAIL)), WaitDone(c, i, pid))
    ensures WaitOutcome(c, WaitDone(c, i, pid), i)
    ensures FirstZombie(c.table, Some(pid), 0).Some? ==>
      ReapTo(c, WaitDone(c, i, pid), i, FirstZombie(c.table, Some(pid), 0).value)
    ensures FirstZombie(c.table, Some(pid), 0).None? ==> SameJobs(c, WaitDone(c, i, pid))
  {
    hide Sane, Position, Leads, Ids, Tree, NoLostWakeup, History, SavedOk, HasChild;
    SaneParts(c);
    QuietSaved(c);
    WaitLeads(c, i, pid);
    var d := WaitDone(c, i, pid);
    var z := FirstZombie(c.table, Some(pid), 0);
    TailPosition(i, c.table[i].pid);
    if z.Some? {
      FreeKeeps(c.table, i, z.value, c.nextPid, c.exits, c.returned);
      FreedSaved(c.table, c.ctx, z.value);
    } else if HasChild(c.table, Some(pid), 0) {
      SleepKeeps(c.table, i, c.nextPid, c.exits, c.returned);
      SleeperSaved(i, c.table[i].pid);
      SavedAgain(c.table, d.table, c.ctx, i, Do(RestorePrev(true), WokenCode(i, TAIL)));
    }
    SteadyWaits(c, d);
    WaitJobs(c, i, pid);
    FollowsLater(c, Begun(c, i, Kernel, WaitBody(i, Some(pid), TAIL)), d);
  }

  lemma WaitJobs(c: Core, i: nat, pid: nat)
    requires c.cpu.current == Some(i) && i < |c.table| == |c.ctx| && c.table[i].pid == Some(pid)
    requires IntentOf(c.code) == ToWait && c.table[i].state == Running
    requires forall j :: 0 <= j < |c.table| && c.table[j].state == Zombie ==> c.table[j].pid.Some?
    ensures WaitOutcome(c, WaitDone(c, i, pid), i)
    ensures var z := FirstZombie(c.table, Some(pid), 0);
      && (z.Some? ==> ReapTo(c, WaitDone(c, i, pid), i, z.value))
      && (z.None? ==> SameJobs(c, WaitDone(c, i, pid)))
      && Transition(c, WaitDone(c, i, pid))
  {
    hide HasChild, FirstZombie, WaitDone, Outcome, Transition;
    var z := FirstZombie(c.table, Some(pid), 0);
    if z.Some? {
      WaitGets(c, i, pid, z.value);
    } else {
      WaitElse(c, i, pid);
    }
  }

  lemma WaitGets(c: Core, i: nat, pid: nat, z: nat)
    requires c.cpu.current == Some(i) && i < |c.table| == |c.ctx| && c.table[i].pid == Some(pid)
    requires IntentOf(c.code) == ToWait && c.table[i].state == Running
    requires FirstZombie(c.table, Some(pid), 0) == Some(z) && c.table[z].pid.Some?
    ensures var d := WaitDone(c, i, pid); WaitOutcome(c, d, i) && ReapTo(c, d, i, z) && Transition(c, d)
  {
    hide HasChild, FirstZombie;
    var d := WaitDone(c, i, pid);
    assert IntentOf(TAIL) == NoIntent;
    FirstZombieFirst(c.table, Some(pid), 0);
    assert HasEffect(c, d, Reaps(i, z));
    assert WaitedBy(c, d, i, z);
    assert forall j: nat :: j < |c.table| && Alive(c.table[j].state) && j != i ==> Stays(c, d, j);
  }

  lemma WaitElse(c: Core, i: nat, pid: nat)
    requires c.cpu.current == Some(i) && i < |c.table| == |c.ctx| && c.table[i].pid == Some(pid)
    requires IntentOf(c.code) == ToWait && c.table[i].state == Running && FirstZombie(c.table, Some(pid), 0).None?
    ensures var d := WaitDone(c, i, pid); WaitOutcome(c, d, i) && SameJobs(c, d) && Transition(c, d)
  {
    hide HasChild, FirstZombie;
    var d := WaitDone(c, i, pid);
    HasChildIs(c.table, Some(pid));
    if HasChild(c.table, Some(pid), 0) {
      WokenIntent(i);
      LeftJobs(c, d, i);
    } else {
      assert IntentOf(TAIL) == NoIntent;
      forall q: nat | q < |c.table|
        ensures c.table[q].parent != Some(pid)
      {
        assert !ChildAt(c.table, Some(pid), q);
      }
      assert HasEffect(c, d, NoEffect);
      assert Childless(c, d, i);
      assert forall j: nat :: j < |c.table| && Alive(c.table[j].state) && j != i ==> Stays(c, d, j);
    }
  }

  lemma FirstZombieFirst(t: Table, pid: Option<nat>, k: nat)
    requires k <= |t| && FirstZombie(t, pid, k).Some?
    ensures forall q: nat :: k <= q < FirstZombie(t, pid, k).value && t[q].parent == pid ==> t[q].state != Zombie
    decreases |t| - k
  {
  }

  /** `kwait` ends with a status, or without a child, or sleeps if it has a child and none has exited. */
  ghost predicate WaitOutcome(c: Core, d: Core, j: nat)
    requires j < |c.table|
  {
    |d.table| == |c.table| &&
    (|| Childless(c, d, j)
     || (exists z: nat :: WaitedBy(c, d, j, z))
     || (&& d.cpu.current == None && d.table == c.table[j := c.table[j].(state := Sleeping, chan := c.table[j].pid)]
         && (exists k: nat :: ChildAt(c.table, c.table[j].pid, k))
         && (forall k: nat :: ChildAt(c.table, c.table[j].pid, k) ==> c.table[k].state != Zombie)))
  }

  lemma WokenIntent(i: nat)
    ensures IntentOf(Do(RestorePrev(true), WokenCode(i, TAIL))) == ToWait && IntentOf(TAIL) == NoIntent
    ensures IntentOf(Do(Wait(i), TAIL)) == ToWait
  {
    assert IntentOf(Do(Give(Own(i)), Do(Wait(i), TAIL))) == ToWait;
    assert IntentOf(WokenCode(i, TAIL)) == ToWait;
  }

  lemma TailPosition(i: nat, pid: Option<nat>)
    ensures Position(i, pid, TAIL, true) && Position(i, pid, TAIL, false)
    ensures (forall child, x :: Position(i, pid, Do(CopyOut(child, x), TAIL), true)) && Position(i, pid, Do(Panic, TAIL), true)
  {
  }

  lemma SleeperSaved(i: nat, pid: Option<nat>)
    ensures SavedOk(i, pid, Sleeping, Do(RestorePrev(true), WokenCode(i, TAIL)))
  {
  }

  lemma FreedSaved(t: Table, ctx: seq<Code>, k: nat)
    requires AllSaved(t, ctx) && k < |t| && t[k].state == Zombie
    ensures AllSaved(t[k := Freed(t[k])], ctx)
  {
    hide Yielder;
    var u := t[k := Freed(t[k])];
    forall j: nat | j < |u|
      ensures SavedOk(j, u[j].pid, u[j].state, ctx[j])
    {
      assert SavedOk(j, t[j].pid, t[j].state, ctx[j]);
    }
  }

  lemma ForkFollows(c: Core, i: nat)
    requires Quiet(c) && c.cpu.current == Some(i) && i < |c.table| == |c.ctx| && IntentOf(c.code) == ToFork
    ensures Ends(c, Begun(c, i, Kernel, ForkBody(i, TAIL)), ForkDone(c, i))
    ensures var k := FirstUnused(c.table, 0);
      k.Some? ==> ForkTo(c, ForkDone(c, i), i, k.value) && ForkedBy(c, ForkDone(c, i), i, k.value)
  {
    hide Sane, Position, Leads, Ids, Tree, NoLostWakeup, History, SavedOk;
    SaneParts(c);
    QuietSaved(c);
    ForkLeads(c, i);
    var d := ForkDone(c, i);
    var free := FirstUnused(c.table, 0);
    TailPosition(i, c.table[i].pid);
    if free.Some? {
      ForkKeeps(c.table, i, free.value, c.nextPid, c.exits, c.returned);
      NewSaved(free.value, Some(c.nextPid));
      SavedAgain(c.table, d.table, c.ctx, free.value, Do(Forkret, End));
    }
    SteadyWaits(c, d);
    ForkJobs(c, i);
    FollowsLater(c, Begun(c, i, Kernel, ForkBody(i, TAIL)), d);
  }

  lemma ForkJobs(c: Core, i: nat)
    requires AllSaved(c.table, c.ctx) && c.cpu.current == Some(i) && i < |c.table| == |c.ctx| && IntentOf(c.code) == ToFork
    requires c.table[i].state == Running
    ensures var k := FirstUnused(c.table, 0);
      && (k.Some? ==> ForkTo(c, ForkDone(c, i), i, k.value) && ForkedBy(c, ForkDone(c, i), i, k.value))
      && Transition(c, ForkDone(c, i))
  {
    hide FirstUnused, Yielder, ForkDone, Transition, ForkTo, ForkedBy;
    var k := FirstUnused(c.table, 0);
    if k.Some? {
      assert SavedOk(k.value, c.table[k.value].pid, c.table[k.value].state, c.ctx[k.value]);
      ForkMakes(c, i, k.value);
    } else {
      ForkFails(c, i);
    }
  }

  lemma ForkMakes(c: Core, i: nat, k: nat)
    requires c.cpu.current == Some(i) && i < |c.table| == |c.ctx| && IntentOf(c.code) == ToFork && c.table[i].state == Running
    requires FirstUnused(c.table, 0) == Some(k) && Stage(c.ctx[k]) == 0
    ensures var d := ForkDone(c, i); ForkTo(c, d, i, k) && ForkedBy(c, d, i, k) && Transition(c, d)
  {
    hide FirstUnused;
    var d := ForkDone(c, i);
    assert IntentOf(TAIL) == NoIntent;
    FirstUnusedFirst(c.table, 0);
    assert HasEffect(c, d, Forks(i, k));
    assert ForkedBy(c, d, i, k);
    assert forall j: nat :: j < |c.table| && Alive(c.table[j].state) && j != i ==> Stays(c, d, j);
  }

  lemma ForkFails(c: Core, i: nat)
    requires c.cpu.current == Some(i) && i < |c.table| == |c.ctx| && IntentOf(c.code) == ToFork
    requires FirstUnused(c.table, 0) == None
    ensures Transition(c, ForkDone(c, i))
  {
    hide FirstUnused;
    var d := ForkDone(c, i);
    assert IntentOf(Do(Panic, TAIL)) == ToPanic;
    assert HasEffect(c, d, NoEffect);
    assert NoSlot(c, d, i);
    assert forall j: nat :: j < |c.table| && Alive(c.table[j].state) && j != i ==> Stays(c, d, j);
  }

  lemma FirstUnusedFirst(t: Table, k: nat)
    requires k <= |t| && FirstUnused(t, k).Some?
    ensures forall q: nat :: k <= q < FirstUnused(t, k).value ==> t[q].state != Unused
    decreases |t| - k
  {
  }

  /** A use of the heap with interrupts on. */
  lemma HeapFollows(c: Core, i: nat, rest: Code)
    requires Quiet(c) && c.cpu.current == Some(i) && AfterHeap(rest) && IntentOf(rest) == IntentOf(c.code)
    ensures Ends(c, Begun(c, i, Heap, Do(Give(Heap), rest)), HeapDone(c, i, rest))
  {
    hide Sane, AllSaved, Leads, Steady;
    var b, d := Begun(c, i, Heap, Do(Give(Heap), rest)), HeapDone(c, i, rest);
    assert b.held - {Heap} == {};
    GiveLeads(b, Heap, rest);
    SteadySelf(c.table);
    SteadyWaits(c, d);
    SameThread(c, d);
    FollowsLater(c, b, d);
  }

  function HeapDone(c: Core, i: nat, rest: Code): Core {
    c.(cpu := Cpu(Some(i), 0, true, true), held := {}, code := rest)
  }

  lemma NewSaved(j: nat, pid: Option<nat>)
    ensures SavedOk(j, pid, Runnable, Do(Forkret, End))
  {
  }

  // ----- the scheduler -----

  /** Where process `j` is once it has come back from the scheduler. */
  function Returned(c: Core, j: nat): Core
    requires j < |c.table| && j < |c.ctx|
  {
    var e := Entering(c, j);
    if c.ctx[j] == Do(Forkret, End) then
      e.(cpu := Cpu(Some(j), 0, false, false), held := {}, code := TAIL)
    else if c.ctx[j] == Do(RestorePrev(true), WokenCode(j, TAIL)) then
      e.(table := e.table[j := e.table[j].(chan := None)], cpu := Cpu(Some(j), 0, true, true), held := {}, code := Do(Wait(j), TAIL))
    else
      e.(cpu := Cpu(Some(j), 0, false, false), held := {},
         code := if c.ctx[j].Do? && c.ctx[j].rest.Do? then c.ctx[j].rest.rest else End)
  }

  lemma ReturnLeads(c: Core, j: nat, pid: Option<nat>)
    requires j < |c.table| && j < |c.ctx| && SavedOk(j, pid, Runnable, c.ctx[j])
    ensures Leads(Entering(c, j), Returned(c, j))
    ensures Position(j, pid, Returned(c, j).code, Returned(c, j).cpu.sie)
  {
    hide Leads, Position;
    var e := Entering(c, j);
    TailPosition(j, pid);
    if c.ctx[j] == Do(Forkret, End) {
      StartLeads(e, j);
    } else if c.ctx[j] == Do(RestorePrev(true), WokenCode(j, TAIL)) {
      WakeUpLeads(e, j);
      WaitPosition(j, pid);
    } else {
      ResumeLeads(e, j, false, c.ctx[j].rest.rest);
    }
  }

  lemma WaitPosition(j: nat, pid: Option<nat>)
    ensures Position(j, pid, Do(Wait(j), TAIL), true)
  {
    assert Do(Wait(j), TAIL) == CallCode(j, CallWait);
  }

  /** The scheduler's region: a process comes back, or there is none to run. */
  lemma PickFollows(c: Core, d: Core)
    requires Quiet(c) && c.cpu.current == None && c.code == PICK && !c.cpu.sie
    requires d == if Choice(c.table).Some? then Returned(c, Choice(c.table).value)
                  else c.(cpu := Cpu(None, 0, false, false), code := Do(IntOn, IDLE))
    ensures Leads(c, d) && Quiet(d) && KeepsWaits(c, d) && SameJobs(c, d) && Transition(c, d)
  {
    hide Sane, Position, Leads, Ids, Tree, NoLostWakeup, History, SavedOk, Choice, Returned, KeepsWaits, Steady;
    QuietSaved(c);
    PickRegion(c);
    if Choice(c.table).Some? {
      var j := Choice(c.table).value;
      assert SavedOk(j, c.table[j].pid, c.table[j].state, c.ctx[j]);
      ReturnLeads(c, j, c.table[j].pid);
      LeadsOn(c, Entering(c, j), d);
      ReturnSane(c, j);
      ReturnJobs(c, j);
    } else {
      SteadySelf(c.table);
      SteadyWaits(c, d);
      SameThread(c, d);
    }
  }

  /** Whoever comes back goes on where it stood. */
  lemma ReturnIntent(c: Core, j: nat)
    requires j < |c.table| && j < |c.ctx| && SavedOk(j, c.table[j].pid, Runnable, c.ctx[j])
    ensures IntentOf(Returned(c, j).code) == IntentOf(c.ctx[j]) && Returned(c, j).cpu.current == Some(j)
  {
    hide Position, WokenCode;
    var d, ctx := Returned(c, j), c.ctx[j];
    WokenIntent(j);
    if ctx != Do(Forkret, End) && ctx != Do(RestorePrev(true), WokenCode(j, TAIL)) {
      assert IntentOf(ctx) == IntentOf(ctx.rest) == IntentOf(ctx.rest.rest);
    }
  }

  lemma ReturnJobs(c: Core, j: nat)
    requires AllSaved(c.table, c.ctx) && c.cpu.current == None && j < |c.table| && c.table[j].state == Runnable
    ensures SameJobs(c, Returned(c, j)) && Transition(c, Returned(c, j))
  {
    hide Position, Outcome, SavedOk, IntentOf, WokenCode;
    var d := Returned(c, j);
    assert SavedOk(j, c.table[j].pid, c.table[j].state, c.ctx[j]);
    ReturnIntent(c, j);
    assert HasEffect(c, d, NoEffect);
    assert forall k: nat :: k < |c.table| && Alive(c.table[k].state) ==> Stays(c, d, k);
  }

  lemma ReturnSane(c: Core, j: nat)
    requires Quiet(c) && c.cpu.current == None && Choice(c.table) == Some(j)
    requires Position(j, c.table[j].pid, Returned(c, j).code, Returned(c, j).cpu.sie)
    ensures Quiet(Returned(c, j)) && KeepsWaits(c, Returned(c, j))
  {
    hide Sane, Position, Ids, Tree, NoLostWakeup, History, SavedOk, Choice;
    var d := Returned(c, j);
    DispatchKeeps(c.table, j, c.nextPid, c.exits, c.returned);
    ForgetKeeps(Dispatched(c.table, j), j, None, c.nextPid, Some(j), c.exits, c.returned);
    RunningSaved(j, c.table[j].pid, c.ctx[j]);
    SavedAgain(c.table, d.table, c.ctx, j, c.ctx[j]);
    assert c.ctx[j := c.ctx[j]] == c.ctx;
    ChoiceWaits(c, d);
  }

  lemma RunningSaved(j: nat, pid: Option<nat>, ctx: Code)
    ensures SavedOk(j, pid, Running, ctx)
  {
  }

  // ----- every step -----

  /** What one step leads to from a state on the way to `d`. */
  lemma OneOn(c: Core, d: Core)
    requires Leads(c, d) && c != d
    ensures !c.cpu.sie && Next(c).On? && Leads(Next(c).core, d)
  {
    hide Next;
    var n: nat :| Goes(c, d, n);
    assert Goes(Next(c).core, d, n - 1);
  }

  /** The scheduler's steps. */
  lemma SchedFollows(c: Core, c1: Core)
    requires Quiet(c) && c.cpu.current == None
    requires Next(c) == On(c1) || (c.cpu.sie && KernelTick(c) == On(c1))
    ensures Follows(c, c1)
  {
    hide Sane, AllSaved, Leads, Choice, Returned, KeepsWaits, Follows, Quiet;
    QuietLocated(c);
    if c.code == PICK && !c.cpu.sie {
      var d := if Choice(c.table).Some? then Returned(c, Choice(c.table).value)
               else c.(cpu := Cpu(None, 0, false, false), code := Do(IntOn, IDLE));
      PickFollows(c, d);
      ReturnedElsewhere(c, d);
      OneOn(c, d);
      FollowsLater(c, c1, d);
    } else {
      SameThread(c, c1);
      Moves(c, c1);
    }
  }

  lemma QuietLocated(c: Core)
    requires Quiet(c)
    ensures Located(c) && c.held == {} && c.cpu.depth == 0 && |c.ctx| == |c.table|
  {
  }

  lemma ReturnedElsewhere(c: Core, d: Core)
    requires c.code == PICK
    requires d == if Choice(c.table).Some? && Choice(c.table).value < |c.ctx| then Returned(c, Choice(c.table).value)
                  else c.(cpu := Cpu(None, 0, false, false), code := Do(IntOn, IDLE))
    ensures d != c
  {
    hide Choice;
  }

  /** A timer interrupt while process `i` is in the kernel. */
  lemma TickFollows(c: Core, i: nat)
    requires Quiet(c) && c.cpu.current == Some(i) && c.cpu.sie && c.code != Do(User, End)
    ensures KernelTick(c).On? && Follows(c, KernelTick(c).core)
  {
    hide Sane, AllSaved, Leads, Follows, Interruptible, Quiet;
    QuietLocated(c);
    assert IntentOf(Do(Sret, c.code)) == IntentOf(c.code);
    YieldFollows(c, KernelTick(c).core, i, Do(Sret, c.code));
  }

  /** Steps of process `i` with interrupts off and no lock held. */
  lemma OffFollows(c: Core, c1: Core, i: nat)
    requires Quiet(c) && c.cpu.current == Some(i) && !c.cpu.sie && Next(c) == On(c1)
    ensures Follows(c, c1)
  {
    hide Sane, AllSaved, Leads, Follows, Interruptible, Quiet;
    QuietLocated(c);
    TailPosition(i, c.table[i].pid);
    assert IntentOf(TAIL) == NoIntent;
    SameThread(c, c1);
    Moves(c, c1);
  }

  /** Raising the interrupt level and taking the first lock of a system call starts its region. */
  lemma BeginLeads(c: Core, c1: Core, i: nat, m: Mutex, body: Code)
    requires c.cpu == Cpu(Some(i), 0, c.cpu.prev, true) && c.held == {}
    requires c.code == Do(PushOff, Do(PushSave(true), Do(Acquire(m), body))) && Next(c) == On(c1)
    ensures Leads(c1, Begun(c, i, m, body))
  {
    hide Leads, Goes;
    var c2 := c.(cpu := Cpu(Some(i), 1, true, false), code := Do(Acquire(m), body));
    assert c.held + {m} == {m};
    LeadsStep(c2, Begun(c, i, m, body));
    StepThen(c1, c2, Begun(c, i, m, body));
  }

  lemma RegionFollows(c: Core, i: nat, r: Region)
    requires Quiet(c) && c.cpu.current == Some(i) && i < |c.table| && (r.ExitRegion? ==> c.table[i].pid != Some(0))
    requires r.HeapRegion? ==> AfterHeap(r.rest)
    requires IntentOf(c.code) == IntentOf(RegionBody(i, c.table[i].pid, r))
    ensures Follows(c, Begun(c, i, RegionLock(i, r), RegionBody(i, c.table[i].pid, r)))
  {
    hide Quiet, Ends, WaitDone, ForkDone, ExitDone;
    QuietLocated(c);
    CurrentPid(c, i);
    BodyIntent(i, c.table[i].pid, r);
    match r
    case ForkRegion => ForkFollows(c, i);
    case ExitRegion(xstatus) => ExitFollows(c, i, xstatus);
    case WaitRegion => WaitFollows(c, i, c.table[i].pid.value);
    case HeapRegion(rest) => HeapFollows(c, i, rest);
  }

  lemma CurrentPid(c: Core, i: nat)
    requires Quiet(c) && c.cpu.current == Some(i)
    ensures i < |c.table| && c.table[i].pid.Some? && c.table[i].state == Running
  {
    hide AllSaved, Located, Tree, NoLostWakeup, History;
  }

  lemma BodyIntent(i: nat, pid: Option<nat>, r: Region)
    ensures IntentOf(RegionBody(i, pid, r)) == RegionIntent(r)
  {
    match r {
      case ExitRegion(xstatus) => ExitIntent(i, xstatus);
      case _ =>
    }
  }

  function RegionIntent(r: Region): Intent {
    match r
    case ForkRegion => ToFork
    case ExitRegion(xstatus) => ToExit(xstatus)
    case WaitRegion => ToWait
    case HeapRegion(rest) => IntentOf(rest)
  }

  lemma ExitIntent(i: nat, xstatus: nat)
    ensures IntentOf(ExitBody(i, xstatus)) == ToExit(xstatus)
  {
    var c1 := Do(Give(Local(i)), Do(Sched(i), Do(Cordyceps, End)));
    var c2 := Do(Take(Own(i)), Do(SetStatus(i, xstatus), Do(BecomeZombie(i), c1)));
    var c3 := Do(Take(Kernel), Do(WakeParentOf(i), Do(Give(Kernel), c2)));
    assert IntentOf(c2) == ToExit(xstatus);
    assert IntentOf(Do(WakeParentOf(i), Do(Give(Kernel), c2))) == ToExit(xstatus);
    assert IntentOf(c3) == ToExit(xstatus);
    assert IntentOf(Do(ReparentOf(i), Do(Give(Kernel), c3))) == ToExit(xstatus);
  }

  lemma FollowsBack(c: Core, c1: Core, c2: Core)
    requires Leads(c1, c2) && Follows(c, c2)
    ensures Follows(c, c1)
  {
    hide Leads, Quiet, KeepsWaits, Transition;
    var d :| Ends(c, c2, d);
    LeadsOn(c1, c2, d);
    FollowsLater(c, c1, d);
  }

  /** The first lock of a system call, part by part. */
  lemma LockFollows(c: Core, c1: Core, i: nat, r: Region)
    requires Quiet(c) && c.cpu.current == Some(i) && i < |c.table| && c.cpu.sie && Next(c) == On(c1)
    requires AtRegion(i, c.table[i].pid, c.code, r)
    ensures Follows(c, c1)
  {
    hide Sane, AllSaved, Leads, Follows, Quiet, RegionLock, RegionBody, Interruptible;
    QuietLocated(c);
    var m, body := RegionLock(i, r), RegionBody(i, c.table[i].pid, r);
    LockIntent(c.code, m, body);
    if c.code == Do(PushOff, Do(PushSave(true), Do(Acquire(m), body))) {
      BeginLeads(c, c1, i, m, body);
      RegionFollows(c, i, r);
      FollowsBack(c, c1, Begun(c, i, m, body));
    } else {
      assert AtRegion(i, c.table[i].pid, c1.code, r);
      LockingPosition(i, c.table[i].pid, c1.code, r);
      LockIntent(c1.code, m, body);
      SameThread(c, c1);
      Moves(c, c1);
    }
  }

  lemma LockIntent(code: Code, m: Mutex, body: Code)
    ensures AtLock(code, m, body) ==> IntentOf(code) == IntentOf(body)
  {
    assert IntentOf(Do(Acquire(m), body)) == IntentOf(body);
    assert IntentOf(Do(PushSave(true), Do(Acquire(m), body))) == IntentOf(body);
  }

  lemma LockingPosition(i: nat, pid: Option<nat>, code: Code, r: Region)
    requires AtRegion(i, pid, code, r)
    ensures Position(i, pid, code, true)
  {
  }

  /** The other places of process `i` in the kernel with interrupts on. */
  lemma OnFollows(c: Core, c1: Core, i: nat)
    requires Quiet(c) && c.cpu.current == Some(i) && i < |c.table| && c.cpu.sie && Next(c) == On(c1)
    requires Interruptible(i, c.table[i].pid, c.code) && !Locking(i, c.table[i].pid, c.code)
    ensures Follows(c, c1)
  {
    hide Sane, AllSaved, Leads, Follows, Quiet, Locking, Next, Position;
    QuietLocated(c);
    var pid := c.table[i].pid;
    TailPosition(i, pid);
    if call: Call :| c.code == CallCode(i, call) {
      CallNext(c, c1, i, call);
    } else if c.code.Do? && c.code.op.Exec? {
      ExecNext(c, c1, i);
    } else if Answering(c.code) {
      AnswerNext(c, c1, i);
    } else {
      PlainNext(c, c1, i, pid);
      SameThread(c, c1);
    }
    Moves(c, c1);
  }

  /** A step of `kexec`. */
  lemma ExecNext(c: Core, c1: Core, i: nat)
    requires c.cpu.current == Some(i) && i < |c.table| && Next(c) == On(c1)
    requires AfterHeap(c.code) && c.code.Do? && c.code.op.Exec?
    ensures c1 == c.(code := c1.code) && Position(i, c.table[i].pid, c1.code, true)
    ensures ExecTo(c, c1, i) && Transition(c, c1)
  {
    hide Position, AfterHeap, Next, ExecTo;
    var at := c.code.op.at;
    ExecGoes(c, c1);
    ExecPosition(i, c.table[i].pid, at);
    ExecAdvances(c, c1, i);
    assert HasEffect(c, c1, Executes(i));
  }

  function BehindExec(at: nat): Code {
    if at < STORE then HeapUse(Do(Exec(at + 1), TAIL)) else TAIL
  }

  lemma ExecGoes(c: Core, c1: Core)
    requires Next(c) == On(c1) && AfterHeap(c.code) && c.code.Do? && c.code.op.Exec?
    ensures c.code == Do(Exec(c.code.op.at), TAIL) && c.code.op.at <= STORE
    ensures c1 == c.(code := BehindExec(c.code.op.at))
  {
    hide ZombieStep, AllocStep, AdoptStep, ScanStep, ScanTestStep, SchedStep, PickStep, DispatchStep, Put, Order;
  }

  lemma ExecPosition(i: nat, pid: Option<nat>, at: nat)
    requires at <= STORE
    ensures Position(i, pid, BehindExec(at), true)
  {
    hide Position;
    if at < STORE {
      var rest := Do(Exec(at + 1), TAIL);
      assert AtRegion(i, pid, BehindExec(at), HeapRegion(rest));
      LockingPosition(i, pid, BehindExec(at), HeapRegion(rest));
    } else {
      TailPosition(i, pid);
    }
  }

  lemma ExecAdvances(c: Core, c1: Core, i: nat)
    requires c.cpu.current == Some(i) && i < |c.table| && c.code.Do? && c.code.op.Exec?
    requires c.code == Do(Exec(c.code.op.at), TAIL) && c.code.op.at <= STORE && c1 == c.(code := BehindExec(c.code.op.at))
    ensures ExecTo(c, c1, i) && Progress(c, c1)
  {
    var at := c.code.op.at;
    assert IntentOf(TAIL) == NoIntent;
    assert IntentOf(Do(Give(Heap), Do(Exec(at + 1), TAIL))) == ToExec(at + 1);
    assert forall j: nat :: j < |c.table| && Alive(c.table[j].state) && j != i ==> Stays(c, c1, j);
  }

  lemma PlainNext(c: Core, c1: Core, i: nat, pid: Option<nat>)
    requires c.cpu.sie && Next(c) == On(c1)
    requires c.code == TAIL || c.code == Do(Panic, TAIL)
    ensures c1 == c.(cpu := c.cpu.(sie := c1.cpu.sie), code := c1.code) && Position(i, pid, c1.code, c1.cpu.sie)
    ensures IntentOf(c1.code) == IntentOf(c.code)
  {
    hide Locking;
    assert IntentOf(TAIL) == IntentOf(Do(ToUser, End)) == NoIntent;
  }

  /** The end of `kwait`. */
  lemma AnswerNext(c: Core, c1: Core, i: nat)
    requires c.cpu.current == Some(i) && Answering(c.code) && Next(c) == On(c1)
    ensures c1 == c.(code := TAIL) && Transition(c, c1)
    ensures AnsweredWith(c, c1, i, c.code.op.child, c.code.op.xstatus)
  {
    AnswerGoes(c, c1);
    assert IntentOf(TAIL) == NoIntent;
    assert HasEffect(c, c1, NoEffect);
    assert forall j: nat :: j < |c.table| && Alive(c.table[j].state) && j != i ==> Stays(c, c1, j);
  }

  lemma AnswerGoes(c: Core, c1: Core)
    requires Answering(c.code) && Next(c) == On(c1)
    ensures c1 == c.(code := TAIL) && c.code == Do(CopyOut(c.code.op.child, c.code.op.xstatus), TAIL)
  {
    hide ZombieStep, AllocStep, AdoptStep, ScanStep, ScanTestStep, SchedStep, PickStep, DispatchStep, Put, Order;
  }

  /** What a system call starts with. */
  lemma CallNext(c: Core, c1: Core, i: nat, call: Call)
    requires c.cpu.sie && i < |c.table| && c.code == CallCode(i, call) && Next(c) == On(c1)
    requires c.cpu.current == Some(i)
    ensures c1 == c.(code := c1.code) && Position(i, c.table[i].pid, c1.code, true) && Transition(c, c1)
  {
    hide Position, Transition;
    if call == CallExec {
      ExecNext(c, c1, i);
    } else {
      var r := match call
        case CallFork => ForkRegion
        case CallExit(xstatus) => ExitRegion(xstatus)
        case CallWait => WaitRegion
        case _ => HeapRegion(TAIL);
      LockingPosition(i, c.table[i].pid, c1.code, r);
      LockIntent(c1.code, RegionLock(i, r), RegionBody(i, c.table[i].pid, r));
      BodyIntent(i, c.table[i].pid, r);
      assert IntentOf(TAIL) == NoIntent;
      assert IntentOf(c.code) == RegionIntent(r);
      SameThread(c, c1);
    }
  }

  lemma CallPosition(i: nat, pid: Option<nat>, call: Call)
    ensures Position(i, pid, Do(IntOn, CallCode(i, call)), false)
  {
  }

  lemma UserFollows(c: Core, s: State)
    requires Quiet(c) && c.code == Do(User, End) && Step(On(c), s) && s != Halted
    ensures s.On? && Follows(c, s.core)
  {
    hide Sane, AllSaved, Leads, Follows, Quiet, Interruptible;
    QuietLocated(c);
    var i := c.cpu.current.value;
    if s == UserTick(c) {
      TailPosition(i, c.table[i].pid);
      assert IntentOf(TAIL) == IntentOf(Do(User, End)) == NoIntent;
      YieldFollows(c, s.core, i, TAIL);
    } else {
      var call: Call :| s == UserCall(c, call);
      CallFollows(c, s.core, i, call);
    }
  }

  lemma CallFollows(c: Core, c1: Core, i: nat, call: Call)
    requires Quiet(c) && c.code == Do(User, End) && c.cpu.current == Some(i) && UserCall(c, call) == On(c1)
    ensures Follows(c, c1)
  {
    hide Quiet, Follows, Ends, Transition, Position, Sane, AllSaved, Interruptible;
    QuietLocated(c);
    CallPosition(i, c.table[i].pid, call);
    CallIntent(i, call);
    CalledThread(c, c1, i);
    Moves(c, c1);
  }

  lemma CalledThread(c: Core, d: Core, i: nat)
    requires InUser(c, i) && d.table == c.table && d.ctx == c.ctx && d.cpu.current == c.cpu.current && Stage(d.code) == 0
    ensures Transition(c, d)
  {
    hide Outcome;
    assert HasEffect(c, d, NoEffect);
    assert forall j: nat :: j < |c.table| && Alive(c.table[j].state) && j != i ==> Stays(c, d, j);
  }

  /** What a system call means. */
  function Meaning(call: Call): Intent {
    match call
    case CallFork => ToFork
    case CallExec => ToExec(0)
    case CallExit(xstatus) => ToExit(xstatus)
    case CallWait => ToWait
    case CallOther => NoIntent
  }

  lemma CallIntent(i: nat, call: Call)
    ensures IntentOf(Do(IntOn, CallCode(i, call))) == Meaning(call) && IntentOf(Do(User, End)) == NoIntent
  {
    assert IntentOf(TAIL) == NoIntent;
    assert IntentOf(CallCode(i, call)) == Meaning(call);
  }

  lemma NextFollows(c: Core, c1: Core, i: nat)
    requires Quiet(c) && c.cpu.current == Some(i) && c.code != Do(User, End) && Next(c) == On(c1)
    ensures Follows(c, c1)
  {
    hide Sane, AllSaved, Leads, Follows, Quiet, Interruptible, Locking, Next;
    QuietLocated(c);
    if !c.cpu.sie {
      OffFollows(c, c1, i);
    } else if Locking(i, c.table[i].pid, c.code) {
      LockingRegion(i, c.table[i].pid, c.code);
      var r: Region :| AtRegion(i, c.table[i].pid, c.code, r);
      LockFollows(c, c1, i, r);
    } else {
      OnFollows(c, c1, i);
    }
  }

  lemma LockingRegion(i: nat, pid: Option<nat>, code: Code)
    requires Locking(i, pid, code)
    ensures exists r: Region :: AtRegion(i, pid, code, r)
  {
  }

  /** From a quiet state nothing bad can happen next. */
  lemma NextNotBad(c: Core)
    requires Quiet(c) && c.code != Do(User, End)
    ensures Next(c) != Bad
  {
    hide Sane, AllSaved;
  }

  /** Every step from a quiet state leads to a quiet state again, or halts. */
  lemma StepFollows(c: Core, s: State)
    requires Quiet(c) && Step(On(c), s)
    ensures s == Halted || (s.On? && Follows(c, s.core))
  {
    hide Quiet, Follows, Next, KernelTick, UserCall, UserTick;
    if c.code == Do(User, End) {
      if s != Halted {
        UserFollows(c, s);
      }
    } else {
      NextNotBad(c);
      if s == Next(c) {
        if s.On? && c.cpu.current.None? {
          SchedFollows(c, s.core);
        } else if s.On? {
          NextFollows(c, s.core, c.cpu.current.value);
        }
      } else if s != Halted {
        TickOn(c);
        if c.cpu.current.None? {
          SchedFollows(c, s.core);
        } else {
          TickFollows(c, c.cpu.current.value);
        }
      }
    }
  }

  lemma TickOn(c: Core)
    ensures KernelTick(c).On?
  {
  }
}
