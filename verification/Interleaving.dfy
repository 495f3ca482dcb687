/** Why work on one's own frames can be verified as if nobody else were there: other processes may take,
    give back and write frames between any two accesses to memory, and it makes no difference. */
module Interleaving {
  import opened Ram

  /** One access to memory: a frame from the allocator, with whatever it holds, back to it, or new contents. */
  datatype Access = Take(f: nat, p: Page) | Give(f: nat) | Write(f: nat, p: Page)

  datatype State = State(mem: Mem, free: set<nat>)

  ghost predicate Possible(s: State, a: Access) {
    if a.Take? then a.f in s.free else a.f in s.mem
  }

  ghost function Done(s: State, a: Access): State {
    match a
    case Take(f, p) => State(s.mem[f := p], s.free - {f})
    case Give(f) => State(s.mem - {f}, s.free + {f})
    case Write(f, p) => s.(mem := s.mem[f := p])
  }

  /** An access of the process looked at, or of somebody else. */
  datatype Event = Event(mine: bool, access: Access)

  ghost function OwnAfter(own: set<nat>, e: Event): set<nat> {
    if !e.mine then own
    else if e.access.Take? then own + {e.access.f}
    else if e.access.Give? then own - {e.access.f}
    else own
  }

  /** What one takes is one's own; nobody touches what others own. */
  ghost predicate Proper(s: State, own: set<nat>, e: Event) {
    && Possible(s, e.access)
    && (e.mine && !e.access.Take? ==> e.access.f in own)
    && (!e.mine ==> e.access.f !in own)
  }

  ghost predicate Interleaved(s: State, own: set<nat>, events: seq<Event>)
    decreases events
  {
    events == []
    || (Proper(s, own, events[0]) && Interleaved(Done(s, events[0].access), OwnAfter(own, events[0]), events[1..]))
  }

  ghost function RunAll(s: State, events: seq<Event>): State
    decreases events
  {
    if events == [] then s else RunAll(Done(s, events[0].access), events[1..])
  }

  ghost function OwnAtEnd(own: set<nat>, events: seq<Event>): set<nat>
    decreases events
  {
    if events == [] then own else OwnAtEnd(OwnAfter(own, events[0]), events[1..])
  }

  /** The accesses of the process alone. */
  function Mine(events: seq<Event>): seq<Event>
    decreases events
  {
    if events == [] then [] else (if events[0].mine then [events[0]] else []) + Mine(events[1..])
  }

  /** A machine in which everything that is not `own` is free. */
  ghost function Alone(s: State, own: set<nat>): State {
    State(map f | f in own && f in s.mem :: s.mem[f], s.mem.Keys + s.free - own)
  }

  ghost predicate Sound(s: State, own: set<nat>) {
    s.mem.Keys !! s.free && own <= s.mem.Keys
  }

  lemma OneMine(s: State, own: set<nat>, e: Event)
    requires Sound(s, own) && Proper(s, own, e) && e.mine
    ensures Proper(Alone(s, own), own, e) && Sound(Done(s, e.access), OwnAfter(own, e))
    ensures Done(Alone(s, own), e.access) == Alone(Done(s, e.access), OwnAfter(own, e))
  {
    var a, b := Done(Alone(s, own), e.access), Alone(Done(s, e.access), OwnAfter(own, e));
    assert a.mem == b.mem;
    assert a.free == b.free;
  }

  lemma OneOther(s: State, own: set<nat>, e: Event)
    requires Sound(s, own) && Proper(s, own, e) && !e.mine
    ensures Sound(Done(s, e.access), own) && Alone(Done(s, e.access), own) == Alone(s, own)
  {
    var a, b := Alone(Done(s, e.access), own), Alone(s, own);
    assert a.mem == b.mem;
    assert a.free == b.free;
  }

  /** The same accesses are possible in a machine where nobody else is, and at every moment they find
      and leave the same contents there: what holds of the one holds of the other. */
  lemma {:induction false} NoDifference(s: State, own: set<nat>, events: seq<Event>)
    requires Sound(s, own) && Interleaved(s, own, events)
    ensures Interleaved(Alone(s, own), own, Mine(events))
    ensures RunAll(Alone(s, own), Mine(events)) == Alone(RunAll(s, events), OwnAtEnd(own, events))
    ensures OwnAtEnd(own, Mine(events)) == OwnAtEnd(own, events) && Sound(RunAll(s, events), OwnAtEnd(own, events))
    decreases events
  {
    if events != [] {
      var e, rest := events[0], events[1..];
      OneEvent(s, own, e);
      NoDifference(Done(s, e.access), OwnAfter(own, e), rest);
      if e.mine {
        assert Mine(events)[1..] == Mine(rest);
      } else {
        assert Mine(events) == Mine(rest);
      }
    }
  }

  lemma OneEvent(s: State, own: set<nat>, e: Event)
    requires Sound(s, own) && Proper(s, own, e)
    ensures Sound(Done(s, e.access), OwnAfter(own, e))
    ensures e.mine ==> Proper(Alone(s, own), own, e)
    ensures e.mine ==> Done(Alone(s, own), e.access) == Alone(Done(s, e.access), OwnAfter(own, e))
    ensures !e.mine ==> Alone(Done(s, e.access), OwnAfter(own, e)) == Alone(s, own)
  {
    if e.mine {
      OneMine(s, own, e);
    } else {
      OneOther(s, own, e);
    }
  }
}
