/** One armed plane update at a time (flip_state.hpp). Counters are unbounded here. */
module FlipState {
  const PAGE := 4096

  /** live & 0xfffff000 */
  function Aligned(live: nat): nat { live / PAGE * PAGE }

  datatype Flips = Flips(submitted: nat, latched: nat, completed: nat, armWrap: nat, base: nat, pending: bool,
      enabled: bool) {
    function Arm(address: nat, enable: bool, wraps: nat): Flips {
      if pending then this
      else this.(base := address, enabled := enable, armWrap := wraps, pending := true, submitted := submitted + 1)
    }

    /** The armed base was read live, at a frame after arming. */
    predicate Sees(live: nat, wraps: nat) {
      pending && latched != submitted && wraps > armWrap && Aligned(live) == base
    }

    function Observe(live: nat, wraps: nat): Flips {
      if Sees(live, wraps) then this.(latched := submitted) else this
    }

    predicate Finishes() { pending && latched == submitted }

    function Finish(): Flips {
      if Finishes() then this.(completed := submitted, pending := false) else this
    }

    predicate Complete() { submitted > 0 && completed == submitted && !pending }

    predicate Ordered() {
      completed <= latched <= submitted <= completed + 1 && (pending <==> submitted > completed)
    }
  }

  const NEW := Flips(0, 0, 0, 0, 0, false, false)

  datatype Event = Arm(address: nat, enable: bool, wraps: nat) | Observe(live: nat, wraps: nat) | Finish

  function Step(f: Flips, e: Event): Flips {
    match e
    case Arm(address, enable, wraps) => f.Arm(address, enable, wraps)
    case Observe(live, wraps) => f.Observe(live, wraps)
    case Finish => f.Finish()
  }

  function Run(f: Flips, events: seq<Event>): Flips {
    if events == [] then f else Step(Run(f, events[..|events| - 1]), events[|events| - 1])
  }

  /** One observation and a finish complete an update that waits for its latch exactly if the observation is
      of a later frame and shows the armed base, its low 12 bits aside. */
  lemma ObservedExactly(f: Flips, live: nat, wraps: nat)
    requires f.Ordered() && f.pending && f.latched < f.submitted
    ensures f.Observe(live, wraps).Finish().Complete() <==> wraps > f.armWrap && live - live % 4096 == f.base
  {
    assert live / 4096 * 4096 == live - live % 4096;
  }

  /** Completion never gets ahead of latching, nor latching of submission, and at most one update is
      outstanding, in every order of calls. */
  lemma {:induction false} AlwaysOrdered(events: seq<Event>)
    ensures Run(NEW, events).Ordered()
  {
    if events != [] { AlwaysOrdered(events[..|events| - 1]); }
  }

  /** The last update armed by these events, as its index. */
  predicate LastArmed(events: seq<Event>, i: nat) {
    i < |events| && events[i].Arm? && !Run(NEW, events[..i]).pending &&
    forall k :: i < k < |events| && events[k].Arm? ==> Run(NEW, events[..k]).pending
  }

  /** Completion is only reported when the last armed base was read live, at a frame strictly after it
      was armed. */
  lemma CompleteIsTrue(events: seq<Event>) returns (i: nat, j: nat)
    requires Run(NEW, events).Complete()
    ensures LastArmed(events, i) && i < j < |events| && events[j].Observe?
    ensures events[j].live - events[j].live % 4096 == events[i].address && events[j].wraps > events[i].wraps
  {
    AlwaysOrdered(events);
    i, j := Latched(events);
  }

  lemma {:induction false} Armed(events: seq<Event>) returns (i: nat)
    requires var f := Run(NEW, events); f.submitted > 0
    ensures LastArmed(events, i)
    ensures var f := Run(NEW, events); f.base == events[i].address && f.armWrap == events[i].wraps
  {
    var n := |events| - 1;
    var before := events[..n];
    var f := Run(NEW, before);
    if events[n].Arm? && !f.pending {
      i := n;
    } else {
      i := Armed(before);
      assert before[..i] == events[..i];
      forall k | i < k < |events| && events[k].Arm? ensures Run(NEW, events[..k]).pending {
        if k < n { assert before[..k] == events[..k]; }
      }
    }
  }

  lemma {:induction false} Latched(events: seq<Event>) returns (i: nat, j: nat)
    requires var f := Run(NEW, events); f.submitted > 0 && f.latched == f.submitted
    ensures LastArmed(events, i) && i < j < |events| && events[j].Observe?
    ensures Aligned(events[j].live) == events[i].address && events[j].wraps > events[i].wraps
  {
    var n := |events| - 1;
    var before := events[..n];
    var f := Run(NEW, before);
    AlwaysOrdered(before);
    if events[n].Observe? && f.Sees(events[n].live, events[n].wraps) {
      i := Armed(before);
      j := n;
    } else {
      i, j := Latched(before);
    }
    assert before[..i] == events[..i];
    forall k | i < k < |events| && events[k].Arm? ensures Run(NEW, events[..k]).pending {
      if k < n { assert before[..k] == events[..k]; }
    }
  }

  /** The record as the driver keeps it. */
  class State {
    var submitted: nat
    var latched: nat
    var completed: nat
    var armWrap: nat
    var base: nat
    var pending: bool
    var enabled: bool

    function Value(): Flips
      reads this
    {
      Flips(submitted, latched, completed, armWrap, base, pending, enabled)
    }

    constructor ()
      ensures Value() == NEW
    {
      submitted, latched, completed, armWrap, base, pending, enabled := 0, 0, 0, 0, 0, false, false;
    }

    method Arm(address: nat, enable: bool, wraps: nat) returns (ok: bool)
      modifies this
      ensures Value() == old(Value()).Arm(address, enable, wraps) && ok == !old(pending)
    {
      if pending { return false; }
      base, enabled, armWrap, pending := address, enable, wraps, true;
      submitted := submitted + 1;
      ok := true;
    }

    method Observe(live: nat, wraps: nat) returns (ok: bool)
      modifies this
      ensures Value() == old(Value()).Observe(live, wraps) && ok == old(Value()).Sees(live, wraps)
    {
      if !pending || latched == submitted || wraps <= armWrap { return false; }
      if Aligned(live) != base { return false; }
      latched := submitted;
      ok := true;
    }

    method Finish() returns (ok: bool)
      modifies this
      ensures Value() == old(Value()).Finish() && ok == old(Value()).Finishes()
    {
      if !pending || latched != submitted { return false; }
      completed, pending := submitted, false;
      ok := true;
    }

    predicate Complete()
      reads this
    {
      Value().Complete()
    }
  }
}
