/** `Cpu`'s counted interrupt masking and `IntMutex` on top of it, as they work on their fields. */
module Interrupts {
  import M = Machine

  class Cpu {
    var depth: nat
    var prev: bool
    /** The interrupt-enable bit of the status register. */
    var sie: bool

    ghost function Value(): M.Cpu
      reads this
    {
      M.Cpu(M.Options.None, depth, prev, sie)
    }

    method PushInterruptOff()
      modifies this
      ensures Value() == M.Saved(old(Value()).(sie := false), old(sie))
      ensures !sie && depth > 0 && (old(depth) == 0 ==> prev == old(sie))
    {
      var was := sie;
      sie := false;
      if depth == 0 {
        prev := was;
      }
      depth := depth + 1;
    }

    /** `false` is the panic on an empty stack. */
    method PopInterruptOff() returns (ok: bool)
      modifies this
      ensures ok <==> old(depth) >= 1
      ensures ok && old(depth) == 1 && !old(sie) ==> sie == old(prev)
      ensures if ok then Value() == M.PoppedOn(old(Value()).(depth := old(depth) - 1)) else Value() == old(Value())
    {
      if depth < 1 {
        return false;
      }
      depth := depth - 1;
      if depth == 0 && prev {
        sie := true;
      }
      ok := true;
    }
  }

  class IntMutex {
    var locked: bool
    const cpu: Cpu

    constructor (cpu: Cpu)
      ensures this.cpu == cpu && !locked
    {
      this.cpu, locked := cpu, false;
    }

    /** `lock` and `lock_manual`.  `false` is the holder, or a holder that can never run, waiting
        for itself with interrupts off. */
    method LockManual() returns (ok: bool)
      modifies this, cpu
      ensures cpu.Value() == M.Saved(old(cpu.Value()).(sie := false), old(cpu.sie))
      ensures locked && ok == !old(locked)
    {
      cpu.PushInterruptOff();
      ok := !locked;
      locked := true;
    }

    /** `unlock_manual`, and dropping a guard. */
    method UnlockManual() returns (ok: bool)
      modifies this, cpu
      ensures !locked && (ok <==> old(cpu.depth) >= 1)
      ensures ok ==> cpu.Value() == M.PoppedOn(old(cpu.Value()).(depth := old(cpu.depth) - 1))
    {
      locked := false;
      ok := cpu.PopInterruptOff();
    }
  }

  /** A section as the kernel writes it: locked, and unlocked when the guard goes out of scope.  Whatever
      level it starts at, it ends there with interrupts as they were. */
  method Section(m: IntMutex) returns (ok: bool)
    requires !m.locked && (m.cpu.depth > 0 ==> !m.cpu.sie)
    modifies m, m.cpu
    ensures ok && !m.locked
    ensures m.cpu.sie == old(m.cpu.sie) && m.cpu.depth == old(m.cpu.depth)
    ensures old(m.cpu.depth) > 0 ==> m.cpu.prev == old(m.cpu.prev)
  {
    ok := m.LockManual();
    var unlocked := m.UnlockManual();
    ok := ok && unlocked;
  }

  // ----- interrupts come back as they were -----

  /** What can happen between the first lock and the last unlock: locks taken and given back in any
      order, and other threads running in between, which leave `prev` as they like. */
  datatype Event = Push | Pop | Away(others: bool)

  /** `sched` keeps the saved state in a local variable while others run. */
  function Switched(cpu: M.Cpu, others: bool): M.Cpu {
    var saved := cpu.prev;
    var back := M.Cpu(cpu.current, 1, others, false);
    back.(prev := saved)
  }

  function After(cpu: M.Cpu, e: Event): M.Cpu {
    match e
    case Push => M.Saved(cpu.(sie := false), cpu.sie)
    case Pop => if cpu.depth >= 1 then M.PoppedOn(cpu.(depth := cpu.depth - 1)) else cpu
    case Away(others) => Switched(cpu, others)
  }

  function AfterAll(cpu: M.Cpu, events: seq<Event>): M.Cpu {
    if events == [] then cpu else After(AfterAll(cpu, events[..|events| - 1]), events[|events| - 1])
  }

  /** Locked from the first event to the last: the level returns to zero only at the end, and the
      hart is given away at level one. */
  ghost predicate Bracketed(cpu: M.Cpu, events: seq<Event>) {
    && cpu.depth == 0 && events != []
    && (forall k :: 0 < k < |events| ==> AfterAll(cpu, events[..k]).depth > 0)
    && (forall k :: 0 <= k < |events| && events[k].Away? ==> AfterAll(cpu, events[..k]).depth == 1)
    && AfterAll(cpu, events).depth == 0
  }

  /** In between, interrupts are off and the state at the first lock is remembered. */
  lemma {:induction false} Remembered(cpu: M.Cpu, events: seq<Event>, k: nat)
    requires Bracketed(cpu, events) && 0 < k < |events|
    ensures var c := AfterAll(cpu, events[..k]); !c.sie && c.prev == cpu.sie && c.depth > 0
  {
    var before := events[..k - 1];
    assert events[..k][..k - 1] == before;
    assert AfterAll(cpu, events[..k]) == After(AfterAll(cpu, before), events[k - 1]);
    if k == 1 {
      assert before == [];
      assert events[..0] == [];
    } else {
      Remembered(cpu, events, k - 1);
    }
  }

  /** The last unlock leaves interrupts exactly as they were at the first lock. */
  lemma InterruptsRestored(cpu: M.Cpu, events: seq<Event>)
    requires Bracketed(cpu, events)
    ensures AfterAll(cpu, events).sie == cpu.sie
  {
    var n := |events|;
    assert events[..n] == events;
    if n == 1 {
      assert events[..0] == [];
      assert AfterAll(cpu, events) == After(cpu, events[0]);
    } else {
      Remembered(cpu, events, n - 1);
    }
  }
}
