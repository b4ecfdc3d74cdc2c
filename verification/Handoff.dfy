/** The desktop handoff (desktop_handoff.py): one bounded restart of the desktop per boot, guarded by a
    persisted marker. A run is its trace of visible effects; a crash cuts the trace anywhere. */
module Handoff {
  import opened Words

  // ---- what is observed ----

  /** A property value: absent, an integer, or a boolean, which compares as 0 or 1. */
  datatype Value = Absent | Int(n: int) | Bool(b: bool) {
    function Number(): int
      requires !Absent?
    {
      if Int? then n else if b then 1 else 0
    }

    predicate Is(k: int) { !Absent? && Number() == k }

    predicate Equals(v: Value) {
      if Absent? || v.Absent? then Absent? && v.Absent? else Number() == v.Number()
    }
  }

  datatype Obs = Obs(pid: int, identity: string, power: Value, submitted: Value, completed: Value, pending: Value) {
    predicate Equals(o: Obs) {
      pid == o.pid && identity == o.identity && power.Equals(o.power) && submitted.Equals(o.submitted) &&
      completed.Equals(o.completed) && pending.Equals(o.pending)
    }

    /** Powered down, with no flip ever completed: the desktop never bound the display. */
    predicate Unbound() { power.Is(0) && (completed.Absent? || completed.Is(0)) }
  }

  predicate SameProcess(a: Obs, b: Obs) { a.pid == b.pid && a.identity == b.identity }

  predicate Progressing(before: Obs, after: Obs) {
    SameProcess(before, after) && before.power.Equals(after.power) && after.power.Is(2) &&
    before.submitted.Int? && before.completed.Int? && after.submitted.Int? && after.completed.Int? &&
    after.completed.n > before.completed.n && after.submitted.n >= after.completed.n &&
        before.submitted.n >= before.completed.n &&
    (after.pending.Is(0) || after.pending.Is(1))
  }

  // ---- what is persisted ----

  datatype Phase = TermIntent | ForceIntent | Verified

  datatype Record = Record(boot: string, before: Option<Obs>, evidence: string, phase: Option<Phase>)

  /** The marker file: missing, unreadable, or a record (of this boot or another, of this
      implementation or its predecessor, which wrote no phase). */
  datatype Marker = Missing | Broken | Holds(record: Record)

  // ---- what a run does ----

  datatype Signal = Term | Kill

  datatype Event = Observe(obs: Obs) | Save(record: Record) | Send(signal: Signal, pid: int) | Return(obs: Obs) | Raise

  /** An observation attempt. */
  datatype Reading = Seen(obs: Obs) | Fails

  /** failure.json of the evidence directory a marker names. */
  datatype Failure = NoFile | Unreadable | Says(timedOut: bool)

  /** The two observations of a forced exit and the stack sample between them. */
  datatype Force = Force(now: Reading, sampleAborts: bool, latest: Reading)

  /** One turn of the waiting loop: its observation (an error of an unexpected kind ends the run), and
      whether it is past the force time. */
  datatype Turn = Turn(reading: Reading, unexpected: bool, late: bool, force: Force)

  datatype Inputs = Inputs(first: Reading, second: Reading, boot: string, failure: Failure, current: Reading,
                           force: Force, turns: seq<Turn>, logdir: string)

  predicate Resumes(m: Marker, boot: string) { m.Holds? && m.record.boot == boot }

  /** The previous implementation's timeout, seen with the same desktop: the one case to go on. */
  predicate Legacy(m: Marker, second: Obs, failure: Failure)
    requires m.Holds?
  {
    m.record.phase == None && failure == Says(true) && m.record.before.Some? &&
        SameProcess(second, m.record.before.value)
  }

  /** What a forced exit does, and whether it gets to the end. */
  function Forcing(record: Record, f: Force): (seq<Event>, bool) {
    if f.now.Fails? then ([], false)
    else
      var current := f.now.obs;
      var seen := [Observe(current)];
      if record.before.None? || !SameProcess(current, record.before.value) || !current.Unbound() then (seen, false)
      else if f.sampleAborts || f.latest.Fails? then (seen, false)
      else if !f.latest.obs.Equals(current) then (seen + [Observe(f.latest.obs)], false)
      else (seen + [Observe(f.latest.obs), Save(Forced(record)), Send(Kill, current.pid)], true)
  }

  function Forced(record: Record): Record {
    record.(phase := Some(ForceIntent))
  }

  /** The waiting loop. */
  function Waiting(current: Obs, record: Record, previous: Option<Obs>, forced: bool, turns: seq<Turn>): seq<Event>
    decreases |turns|
  {
    if turns == [] then [Raise]
    else
      var t := turns[0];
      if t.reading.Fails? then
        (if t.unexpected then [Raise] else Waiting(current, record, previous, forced, turns[1..]))
      else
        var value := t.reading.obs;
        [Observe(value)] +
        if value.pid != current.pid && previous.Some? && Progressing(previous.value, value) then
          [Save(record.(phase := Some(Verified))), Return(value)]
        else if !forced && t.late && SameProcess(value, current) then
          var (events, ok) := Forcing(record, t.force);
          events + if ok then Waiting(current, Forced(record), Some(value), true, turns[1..]) else [Raise]
        else Waiting(current, record, Some(value), forced, turns[1..])
  }

  /** What follows once the stuck desktop is seen a third time, the same as the second. */
  function Settling(m: Marker, i: Inputs, current: Obs): seq<Event>
    requires !m.Broken?
  {
    if Resumes(m, i.boot) then
      var (events, ok) := Forcing(m.record, i.force);
      events + if ok then Waiting(current, Forced(m.record), None, true, i.turns) else [Raise]
    else
      var record := Record(i.boot, Some(current), i.logdir, Some(TermIntent));
      [Save(record), Send(Term, current.pid)] + Waiting(current, record, None, false, i.turns)
  }

  /** The part of a run after its first two observations, if it goes on. */
  function Acting(m: Marker, i: Inputs, second: Obs): seq<Event> {
    if m.Broken? then [Raise]
    else if Resumes(m, i.boot) && (i.failure == Unreadable || !Legacy(m, second, i.failure)) then [Raise]
    else if i.current.Fails? then [Raise]
    else [Observe(i.current.obs)] + Signalling(m, i, second, i.current.obs)
  }

  function Signalling(m: Marker, i: Inputs, second: Obs, current: Obs): seq<Event>
    requires !m.Broken?
  {
    if !current.Equals(second) then [Raise] else Settling(m, i, current)
  }

  /** A whole run. */
  function Trace(m: Marker, i: Inputs): seq<Event> {
    if i.first.Fails? then [Raise]
    else if i.second.Fails? then [Observe(i.first.obs), Raise]
    else
      var first, second := i.first.obs, i.second.obs;
      [Observe(first), Observe(second)] +
      if Progressing(first, second) then [Return(second)]
      else if !second.Unbound() || !SameProcess(first, second) then [Raise]
      else Acting(m, i, second)
  }

  // ---- signals are justified ----

  /** A signal goes to the process just recorded as `before`, which the last observation showed
      unbound, the same as the observation before it. */
  predicate Justified(signal: Signal, pid: int, earlier: Event, seen: Event, saved: Event) {
    earlier.Observe? && seen.Observe? && saved.Save? && saved.record.before.Some? &&
    SameProcess(seen.obs, saved.record.before.value) && seen.obs.Unbound() && seen.obs.pid == pid &&
    (earlier.obs.Equals(seen.obs) || seen.obs.Equals(earlier.obs)) &&
    saved.record.phase == Some(if signal == Term then TermIntent else ForceIntent)
  }

  /** Reading a trace with its last three events at hand: signals are justified, and every record saved
      is of this boot and has a phase. */
  predicate Good(boot: string, a: Event, b: Event, c: Event, events: seq<Event>)
    decreases |events|
  {
    events == [] ||
    ((match events[0]
      case Send(signal, pid) => Justified(signal, pid, a, b, c)
      case Save(record) => record.boot == boot && record.phase.Some?
      case _ => true) && Good(boot, b, c, events[0], events[1..]))
  }

  /** Good behind anything. */
  ghost predicate GoodAfterAll(boot: string, events: seq<Event>) {
    forall x: Event, y: Event, z: Event :: Good(boot, x, y, z, events)
  }

  lemma GoodMore(boot: string, a: Event, b: Event, c: Event, e: Event, rest: seq<Event>)
    requires e.Send? ==> Justified(e.signal, e.pid, a, b, c)
    requires e.Save? ==> e.record.boot == boot && e.record.phase.Some?
    requires Good(boot, b, c, e, rest)
    ensures Good(boot, a, b, c, [e] + rest)
  {
    assert ([e] + rest)[1..] == rest;
  }

  lemma ForcingGood(boot: string, a: Event, b: Event, c: Event, record: Record, f: Force, rest: seq<Event>)
    requires record.boot == boot && GoodAfterAll(boot, rest)
    ensures Good(boot, a, b, c, Forcing(record, f).0 + rest)
  {
    var events := Forcing(record, f).0;
    if events == [] {
      assert events + rest == rest;
    } else if |events| == 1 {
      GoodMore(boot, a, b, c, events[0], rest);
      assert events + rest == [events[0]] + rest;
    } else if |events| == 2 {
      GoodMore(boot, b, c, events[0], events[1], rest);
      GoodMore(boot, a, b, c, events[0], [events[1]] + rest);
      assert events + rest == [events[0]] + ([events[1]] + rest);
    } else {
      SameObs(f.latest.obs, f.now.obs);
      KillGood(boot, a, b, c, events[0], events[1], events[2], events[3], rest);
      assert events + rest == [events[0]] + ([events[1]] + ([events[2]] + ([events[3]] + rest)));
    }
  }

  lemma KillGood(boot: string, a: Event, b: Event, c: Event, x: Event, y: Event, save: Event, send: Event,
      rest: seq<Event>)
    requires x.Observe? && y.Observe? && GoodAfterAll(boot, rest)
    requires save.Save? && save.record.boot == boot && save.record.phase.Some?
    requires send.Send? && Justified(send.signal, send.pid, x, y, save)
    ensures Good(boot, a, b, c, [x] + ([y] + ([save] + ([send] + rest))))
  {
    GoodMore(boot, x, y, save, send, rest);
    GoodMore(boot, c, x, y, save, [send] + rest);
    GoodMore(boot, b, c, x, y, [save] + ([send] + rest));
    GoodMore(boot, a, b, c, x, [y] + ([save] + ([send] + rest)));
  }

  lemma SameObs(a: Obs, b: Obs)
    requires a.Equals(b)
    ensures SameProcess(a, b) && (a.Unbound() <==> b.Unbound())
  {
  }

  lemma {:induction false} WaitingGood(boot: string, a: Event, b: Event, c: Event, current: Obs, record: Record,
      previous: Option<Obs>, forced: bool, turns: seq<Turn>)
    requires record.boot == boot
    ensures Good(boot, a, b, c, Waiting(current, record, previous, forced, turns))
    decreases |turns|
  {
    if turns == [] {
    } else if turns[0].reading.Fails? {
      if !turns[0].unexpected { WaitingGood(boot, a, b, c, current, record, previous, forced, turns[1..]); }
    } else {
      var t, value := turns[0], turns[0].reading.obs;
      var rest;
      if value.pid != current.pid && previous.Some? && Progressing(previous.value, value) {
        rest := [Save(record.(phase := Some(Verified))), Return(value)];
        GoodMore(boot, c, Observe(value), rest[0], rest[1], []);
        GoodMore(boot, b, c, Observe(value), rest[0], [rest[1]]);
        assert rest == [rest[0]] + ([rest[1]] + []);
      } else if !forced && t.late && SameProcess(value, current) {
        var (events, ok) := Forcing(record, t.force);
        var tail := if ok then Waiting(current, Forced(record), Some(value), true, turns[1..]) else [Raise];
        rest := events + tail;
        forall x: Event, y: Event, z: Event ensures Good(boot, x, y, z, tail) {
          if ok { WaitingGood(boot, x, y, z, current, Forced(record), Some(value), true, turns[1..]); }
        }
        ForcingGood(boot, b, c, Observe(value), record, t.force, tail);
      } else {
        rest := Waiting(current, record, Some(value), forced, turns[1..]);
        WaitingGood(boot, b, c, Observe(value), current, record, Some(value), forced, turns[1..]);
      }
      GoodMore(boot, a, b, c, Observe(value), rest);
    }
  }

  lemma SignallingGood(m: Marker, i: Inputs, second: Obs, current: Obs, a: Event)
    requires !m.Broken? && second.Unbound()
    ensures Good(i.boot, a, Observe(second), Observe(current), Signalling(m, i, second, current))
  {
    if current.Equals(second) {
      if Resumes(m, i.boot) {
        var (events, ok) := Forcing(m.record, i.force);
        var tail := if ok then Waiting(current, Forced(m.record), None, true, i.turns) else [Raise];
        forall x: Event, y: Event, z: Event ensures Good(i.boot, x, y, z, tail) {
          if ok { WaitingGood(i.boot, x, y, z, current, Forced(m.record), None, true, i.turns); }
        }
        ForcingGood(i.boot, a, Observe(second), Observe(current), m.record, i.force, tail);
      } else {
        SameObs(current, second);
        var record := Record(i.boot, Some(current), i.logdir, Some(TermIntent));
        var all := Signalling(m, i, second, current);
        assert all[0] == Save(record) && all[1] == Send(Term, current.pid) &&
               all[1..][1..] == Waiting(current, record, None, false, i.turns);
        WaitingGood(i.boot, Observe(current), all[0], all[1], current, record, None, false, i.turns);
        assert Good(i.boot, Observe(second), Observe(current), all[0], all[1..]);
      }
    }
  }

  lemma ActingGood(m: Marker, i: Inputs, second: Obs, a: Event, b: Event)
    requires second.Unbound()
    ensures Good(i.boot, a, b, Observe(second), Acting(m, i, second))
  {
    if !m.Broken? && i.current.Seen? {
      SignallingGood(m, i, second, i.current.obs, b);
      var all := Acting(m, i, second);
      if |all| > 1 { assert all[1..] == Signalling(m, i, second, i.current.obs); }
    }
  }

  lemma TraceGood(m: Marker, i: Inputs)
    ensures Good(i.boot, Raise, Raise, Raise, Trace(m, i))
  {
    var all := Trace(m, i);
    if i.first.Seen? && i.second.Seen? {
      var first, second := i.first.obs, i.second.obs;
      var tail := all[1..][1..];
      assert Good(i.boot, Raise, all[0], all[1], tail) by {
        if !Progressing(first, second) && second.Unbound() && SameProcess(first, second) {
          assert tail == Acting(m, i, second);
          ActingGood(m, i, second, Raise, all[0]);
        }
      }
    }
  }

  lemma {:induction false} GoodAt(boot: string, a: Event, b: Event, c: Event, events: seq<Event>, k: nat)
    requires Good(boot, a, b, c, events) && k < |events|
    ensures events[k].Save? ==> events[k].record.boot == boot && events[k].record.phase.Some?
    ensures var all := [a, b, c] + events;
            events[k].Send? ==> Justified(events[k].signal, events[k].pid, all[k], all[k + 1], all[k + 2])
    decreases k
  {
    if k > 0 { GoodAt(boot, b, c, events[0], events[1..], k - 1); }
  }

  /** Every signal of a run comes right after the record that names its target and its kind, which comes
      right after two observations that agree, booleans read as 0 and 1, and show the target powered
      down with no flip completed. */
  lemma SignalsAreJustified(m: Marker, i: Inputs, k: nat)
    requires k < |Trace(m, i)| && Trace(m, i)[k].Send?
    ensures k >= 3 && Trace(m, i)[k - 3].Observe? && Trace(m, i)[k - 2].Observe? && Trace(m, i)[k - 1].Save?
    ensures var (x, y) := (Trace(m, i)[k - 3].obs, Trace(m, i)[k - 2].obs);
            x.pid == y.pid && x.identity == y.identity &&
            forall f <- [(x.power, y.power), (x.submitted, y.submitted), (x.completed, y.completed),
                (x.pending, y.pending)] ::
              f.0 == f.1 || {f.0, f.1} == {Int(0), Bool(false)} || {f.0, f.1} == {Int(1), Bool(true)}
    ensures var o := Trace(m, i)[k - 2].obs;
            o.pid == Trace(m, i)[k].pid && o.power in {Int(0), Bool(false)} &&
            o.completed in {Absent, Int(0), Bool(false)}
    ensures var (o, record) := (Trace(m, i)[k - 2].obs, Trace(m, i)[k - 1].record);
            record.boot == i.boot && record.before.Some? && record.before.value.pid == o.pid &&
            record.before.value.identity == o.identity &&
            record.phase == Some(if Trace(m, i)[k].signal == Term then TermIntent else ForceIntent)
  {
    TraceGood(m, i);
    GoodAt(i.boot, Raise, Raise, Raise, Trace(m, i), k);
    GoodAt(i.boot, Raise, Raise, Raise, Trace(m, i), k - 1);
  }

  // ---- at most one of each per boot ----

  function Count(signal: Signal, events: seq<Event>): nat
    decreases |events|
  {
    if events == [] then 0
    else (if events[0].Send? && events[0].signal == signal then 1 else 0) + Count(signal, events[1..])
  }

  lemma {:induction false} CountAppend(signal: Signal, a: seq<Event>, b: seq<Event>)
    ensures Count(signal, a + b) == Count(signal, a) + Count(signal, b)
    decreases |a|
  {
    if a == [] {
      assert a + b == b;
    } else {
      CountAppend(signal, a[1..], b);
      assert (a + b)[1..] == a[1..] + b;
    }
  }

  lemma CountTwo(signal: Signal, a: Event, b: Event)
    ensures Count(signal, [a, b]) == Count(signal, [a]) + Count(signal, [b])
  {
    CountAppend(signal, [a], [b]);
  }

  lemma ForcingCounts(record: Record, f: Force)
    ensures var (events, ok) := Forcing(record, f);
            Count(Term, events) == 0 && Count(Kill, events) == if ok then 1 else 0
  {
    var (events, ok) := Forcing(record, f);
    if |events| == 4 {
      assert events == [events[0], events[1]] + [events[2], events[3]];
      CountAppend(Term, [events[0], events[1]], [events[2], events[3]]);
      CountAppend(Kill, [events[0], events[1]], [events[2], events[3]]);
      CountTwo(Kill, events[0], events[1]);
      CountTwo(Kill, events[2], events[3]);
      CountTwo(Term, events[0], events[1]);
      CountTwo(Term, events[2], events[3]);
    } else if |events| == 2 {
      CountTwo(Term, events[0], events[1]);
      CountTwo(Kill, events[0], events[1]);
    }
  }

  lemma {:induction false} WaitingCounts(current: Obs, record: Record, previous: Option<Obs>, forced: bool,
      turns: seq<Turn>)
    ensures var all := Waiting(current, record, previous, forced, turns);
            Count(Term, all) == 0 && Count(Kill, all) <= if forced then 0 else 1
    decreases |turns|
  {
    if turns != [] && turns[0].reading.Fails? {
      if !turns[0].unexpected { WaitingCounts(current, record, previous, forced, turns[1..]); }
    } else if turns != [] {
      var t, value := turns[0], turns[0].reading.obs;
      var all := Waiting(current, record, previous, forced, turns);
      var rest := all[1..];
      if value.pid != current.pid && previous.Some? && Progressing(previous.value, value) {
        assert rest == [Save(record.(phase := Some(Verified))), Return(value)];
        CountTwo(Term, rest[0], rest[1]);
        CountTwo(Kill, rest[0], rest[1]);
      } else if !forced && t.late && SameProcess(value, current) {
        var (events, ok) := Forcing(record, t.force);
        var tail := if ok then Waiting(current, Forced(record), Some(value), true, turns[1..]) else [Raise];
        assert rest == events + tail;
        ForcingCounts(record, t.force);
        CountAppend(Term, events, tail);
        CountAppend(Kill, events, tail);
        if ok { WaitingCounts(current, Forced(record), Some(value), true, turns[1..]); }
      } else {
        assert rest == Waiting(current, record, Some(value), forced, turns[1..]);
        WaitingCounts(current, record, Some(value), forced, turns[1..]);
      }
    }
  }

  /** What a marker still allows in a boot. */
  function Allowed(signal: Signal, m: Marker, boot: string): nat {
    if m.Broken? then 0
    else if !Resumes(m, boot) then 1
    else if signal == Kill && m.record.phase == None then 1
    else 0
  }

  lemma SignallingCounts(m: Marker, i: Inputs, second: Obs, current: Obs, signal: Signal)
    requires !m.Broken? && (Resumes(m, i.boot) ==> m.record.phase == None)
    ensures Count(signal, Signalling(m, i, second, current)) <= Allowed(signal, m, i.boot)
  {
    var all := Signalling(m, i, second, current);
    if current.Equals(second) {
      if Resumes(m, i.boot) {
        var (events, ok) := Forcing(m.record, i.force);
        var tail := if ok then Waiting(current, Forced(m.record), None, true, i.turns) else [Raise];
        ForcingCounts(m.record, i.force);
        if ok { WaitingCounts(current, Forced(m.record), None, true, i.turns); }
        CountAppend(signal, events, tail);
      } else {
        var record := Record(i.boot, Some(current), i.logdir, Some(TermIntent));
        var head: seq<Event> := [Save(record), Send(Term, current.pid)];
        WaitingCounts(current, record, None, false, i.turns);
        CountTwo(signal, head[0], head[1]);
        CountAppend(signal, head, Waiting(current, record, None, false, i.turns));
      }
    }
  }

  lemma TraceCounts(m: Marker, i: Inputs, signal: Signal)
    ensures Count(signal, Trace(m, i)) <= Allowed(signal, m, i.boot)
  {
    if i.first.Seen? && i.second.Seen? {
      var first, second := i.first.obs, i.second.obs;
      var head: seq<Event> := [Observe(first), Observe(second)];
      CountTwo(signal, head[0], head[1]);
      if !Progressing(first, second) && second.Unbound() && SameProcess(first, second) {
        ActingCounts(m, i, second, signal);
        CountAppend(signal, head, Acting(m, i, second));
      } else {
        CountAppend(signal, head, if Progressing(first, second) then [Return(second)] else [Raise]);
      }
    } else if i.first.Seen? {
      CountTwo(signal, Observe(i.first.obs), Raise);
    }
  }

  lemma ActingCounts(m: Marker, i: Inputs, second: Obs, signal: Signal)
    ensures Count(signal, Acting(m, i, second)) <= Allowed(signal, m, i.boot)
  {
    if !m.Broken? && i.current.Seen? &&
        !(Resumes(m, i.boot) && (i.failure == Unreadable || !Legacy(m, second, i.failure))) {
      SignallingCounts(m, i, second, i.current.obs, signal);
      CountAppend(signal, [Observe(i.current.obs)], Signalling(m, i, second, i.current.obs));
    }
  }

  /** The marker after these events. */
  function After(m: Marker, events: seq<Event>): Marker {
    if events == [] then m
    else if events[|events| - 1].Save? then Holds(events[|events| - 1].record)
    else After(m, events[..|events| - 1])
  }

  /** A run, cut off after its first `cut` events. */
  datatype Attempt = Attempt(i: Inputs, cut: nat)

  function Done(m: Marker, a: Attempt): seq<Event> {
    if a.cut < |Trace(m, a.i)| then Trace(m, a.i)[..a.cut] else Trace(m, a.i)
  }

  /** Everything a boot's attempts do, one after the other; the lock keeps them from overlapping. */
  function Boot(m: Marker, attempts: seq<Attempt>): seq<Event>
    decreases |attempts|
  {
    if attempts == [] then [] else Done(m, attempts[0]) + Boot(After(m, Done(m, attempts[0])), attempts[1..])
  }

  /** These events did nothing that lasts, or left a marker that allows no more. */
  predicate Spent(m: Marker, boot: string, p: seq<Event>, signal: Signal) {
    (After(m, p) == m && Count(signal, p) == 0) ||
    (Allowed(signal, After(m, p), boot) == 0 && Count(signal, p) <= Allowed(signal, m, boot))
  }

  /** One event more: a record of this boot that has a phase, or a signal right behind one, or neither. */
  lemma SpentMore(m: Marker, boot: string, q: seq<Event>, e: Event, signal: Signal)
    requires Spent(m, boot, q, signal) && Count(signal, q + [e]) <= Allowed(signal, m, boot)
    requires e.Save? ==> e.record.boot == boot && e.record.phase.Some?
    requires e.Send? ==> q != [] && q[|q| - 1].Save? &&
                         q[|q| - 1].record.boot == boot && q[|q| - 1].record.phase.Some?
    ensures Spent(m, boot, q + [e], signal)
  {
    assert (q + [e])[..|q|] == q;
    CountAppend(signal, q, [e]);
  }

  lemma SavesAreOurs(m: Marker, i: Inputs, k: nat)
    requires k < |Trace(m, i)|
    ensures Trace(m, i)[k].Save? ==> Trace(m, i)[k].record.boot == i.boot && Trace(m, i)[k].record.phase.Some?
  {
    TraceGood(m, i);
    GoodAt(i.boot, Raise, Raise, Raise, Trace(m, i), k);
  }

  lemma SendsFollow(m: Marker, i: Inputs, k: nat)
    requires k < |Trace(m, i)| && Trace(m, i)[k].Send?
    ensures k > 0 && Trace(m, i)[k - 1].Save?
    ensures Trace(m, i)[k - 1].record.boot == i.boot && Trace(m, i)[k - 1].record.phase.Some?
  {
    SignalsAreJustified(m, i, k);
  }

  /** Any cut of a run either did nothing that lasts, or leaves a marker that allows no more. */
  lemma {:induction false} CutSpends(m: Marker, i: Inputs, k: nat, signal: Signal)
    requires k <= |Trace(m, i)|
    ensures Spent(m, i.boot, Trace(m, i)[..k], signal)
  {
    var t := Trace(m, i);
    var p := t[..k];
    assert t == p + t[k..];
    CountAppend(signal, p, t[k..]);
    TraceCounts(m, i, signal);
    if k > 0 {
      var q := t[..k - 1];
      assert p == q + [t[k - 1]];
      CutSpends(m, i, k - 1, signal);
      SavesAreOurs(m, i, k - 1);
      if t[k - 1].Send? { SendsFollow(m, i, k - 1); }
      SpentMore(m, i.boot, q, t[k - 1], signal);
    }
  }

  /** Over any number of attempts in one boot, each cut off anywhere, on any observations: at most one
      SIGTERM and at most one SIGKILL, and none the marker left by earlier ones does not allow. */
  lemma {:induction false} AtMostOneEach(m: Marker, attempts: seq<Attempt>, boot: string, signal: Signal)
    requires forall k :: 0 <= k < |attempts| ==> attempts[k].i.boot == boot
    ensures Count(signal, Boot(m, attempts)) <= Allowed(signal, m, boot) <= 1
    decreases |attempts|
  {
    if attempts != [] {
      var a := attempts[0];
      var p := Done(m, a);
      var k := if a.cut < |Trace(m, a.i)| then a.cut else |Trace(m, a.i)|;
      assert p == Trace(m, a.i)[..k];
      CutSpends(m, a.i, k, signal);
      AtMostOneEach(After(m, p), attempts[1..], boot, signal);
      CountAppend(signal, p, Boot(After(m, p), attempts[1..]));
    }
  }

  // ---- success ----

  /** The trace returns `v` at its end, behind an observation of `v` at l, and has `p` at j. */
  predicate Ends(t: seq<Event>, p: Obs, j: int, l: nat, v: Obs) {
    0 <= j < l < |t| - 1 && t[j] == Observe(p) && t[l] == Observe(v) && t[|t| - 1] == Return(v)
  }

  lemma EndsBehind(head: seq<Event>, tail: seq<Event>, p: Obs, j: int, l: nat, v: Obs)
    requires Ends(tail, p, j, l, v)
    ensures Ends(head + tail, p, |head| + j, |head| + l, v)
  {
  }

  /** What the wait returned progressed from `p`, seen before the wait if `known`, else at j within it. */
  lemma {:induction false} WaitingReturns(current: Obs, record: Record, previous: Option<Obs>, forced: bool,
      turns: seq<Turn>, v: Obs)
    returns (p: Obs, known: bool, j: int, l: nat)
    requires Return(v) in Waiting(current, record, previous, forced, turns)
    ensures v.pid != current.pid && Progressing(p, v)
    ensures known ==> previous == Some(p)
    ensures known ==> Ends([Observe(p)] + Waiting(current, record, previous, forced, turns), p, 0, l + 1, v)
    ensures !known ==> Ends(Waiting(current, record, previous, forced, turns), p, j, l, v)
    decreases |turns|
  {
    var all := Waiting(current, record, previous, forced, turns);
    if turns[0].reading.Fails? {
      p, known, j, l := WaitingReturns(current, record, previous, forced, turns[1..], v);
    } else {
      var t, value := turns[0], turns[0].reading.obs;
      if value.pid != current.pid && previous.Some? && Progressing(previous.value, value) {
        p, known, j, l := previous.value, true, 0, 0;
        assert [Observe(p)] + all == [Observe(p), Observe(v), Save(record.(phase := Some(Verified))), Return(v)];
      } else {
        var events, next, forced' := WaitingGoesOn(current, record, previous, forced, turns, v);
        p, known, j, l := WaitingReturns(current, next, Some(value), forced', turns[1..], v);
        EndsFurther(value, events, Waiting(current, next, Some(value), forced', turns[1..]), p, known, j, l, v);
        if known { known, j, l := false, 0, 1 + |events| + l; } else { j, l := 1 + |events| + j, 1 + |events| + l; }
      }
    }
  }

  lemma WaitingGoesOn(current: Obs, record: Record, previous: Option<Obs>, forced: bool, turns: seq<Turn>, v: Obs)
    returns (events: seq<Event>, next: Record, forced': bool)
    requires turns != [] && turns[0].reading.Seen? && Return(v) in Waiting(current, record, previous, forced, turns)
    requires var value := turns[0].reading.obs;
             !(value.pid != current.pid && previous.Some? && Progressing(previous.value, value))
    ensures var value := turns[0].reading.obs;
            var tail := Waiting(current, next, Some(value), forced', turns[1..]);
            Waiting(current, record, previous, forced, turns) == [Observe(value)] + events + tail && Return(v) in tail
  {
    var t, value := turns[0], turns[0].reading.obs;
    events, next, forced' := [], record, forced;
    if !forced && t.late && SameProcess(value, current) {
      events, next, forced' := Forcing(record, t.force).0, Forced(record), true;
    }
  }

  lemma EndsFurther(value: Obs, events: seq<Event>, tail: seq<Event>, p: Obs, known: bool, j: int, l: nat, v: Obs)
    requires known ==> p == value && Ends([Observe(p)] + tail, p, 0, l + 1, v)
    requires !known ==> Ends(tail, p, j, l, v)
    ensures var n := 1 + |events|; Ends([Observe(value)] + events + tail, p, if known then 0 else n + j, n + l, v)
  {
    if !known {
      EndsBehind([Observe(value)] + events, tail, p, j, l, v);
    } else {
      var s, t := [Observe(p)] + tail, [Observe(value)] + events + tail;
      assert s[l + 1] == tail[l] && s[|s| - 1] == tail[|tail| - 1];
      assert t[1 + |events| + l] == tail[l] && t[|t| - 1] == tail[|tail| - 1];
    }
  }

  lemma {:induction false} WaitingTargets(current: Obs, record: Record, previous: Option<Obs>, forced: bool,
      turns: seq<Turn>, signal: Signal, pid: int)
    requires record.before.Some? && Send(signal, pid) in Waiting(current, record, previous, forced, turns)
    ensures pid == record.before.value.pid
    decreases |turns|
  {
    if turns[0].reading.Fails? {
      WaitingTargets(current, record, previous, forced, turns[1..], signal, pid);
    } else {
      var t, value := turns[0], turns[0].reading.obs;
      if value.pid != current.pid && previous.Some? && Progressing(previous.value, value) {
      } else if !forced && t.late && SameProcess(value, current) {
        var (events, ok) := Forcing(record, t.force);
        if Send(signal, pid) !in events { WaitingTargets(current, Forced(record), Some(value), true, turns[1..],
            signal, pid); }
      } else {
        WaitingTargets(current, record, Some(value), forced, turns[1..], signal, pid);
      }
    }
  }

  /** A run that returns waited for that, behind events that signal no one but the observed process. */
  lemma SignallingParts(m: Marker, i: Inputs, second: Obs, current: Obs, v: Obs)
    returns (record: Record, head: seq<Event>)
    requires !m.Broken? && Return(v) in Signalling(m, i, second, current)
    requires current.Equals(second) && (Resumes(m, i.boot) ==> Legacy(m, second, i.failure))
    ensures Signalling(m, i, second, current) == head + Waiting(current, record, None, Resumes(m, i.boot), i.turns)
    ensures Return(v) in Waiting(current, record, None, Resumes(m, i.boot), i.turns)
    ensures record.before.Some? && record.before.value.pid == current.pid
    ensures forall signal, pid :: Send(signal, pid) in head ==> pid == current.pid
  {
    SameObs(current, second);
    if Resumes(m, i.boot) {
      record, head := Forced(m.record), Forcing(m.record, i.force).0;
    } else {
      record := Record(i.boot, Some(current), i.logdir, Some(TermIntent));
      head := [Save(record), Send(Term, current.pid)];
    }
  }

  lemma SignallingReturns(m: Marker, i: Inputs, second: Obs, current: Obs, v: Obs) returns (p: Obs, j: int, l: nat)
    requires !m.Broken? && Return(v) in Signalling(m, i, second, current)
    requires current.Equals(second) && (Resumes(m, i.boot) ==> Legacy(m, second, i.failure))
    ensures Progressing(p, v) && Ends(Signalling(m, i, second, current), p, j, l, v)
    ensures forall signal, pid :: Send(signal, pid) in Signalling(m, i, second, current) ==> v.pid != pid
  {
    var record, head := SignallingParts(m, i, second, current, v);
    p, j, l := HeadReturns(current, record, Resumes(m, i.boot), i.turns, head, Signalling(m, i, second, current), v);
  }

  lemma HeadReturns(current: Obs, record: Record, forced: bool, turns: seq<Turn>, head: seq<Event>, all: seq<Event>,
      v: Obs)
    returns (p: Obs, j: int, l: nat)
    requires all == head + Waiting(current, record, None, forced, turns)
    requires Return(v) in Waiting(current, record, None, forced, turns)
    requires record.before.Some? && record.before.value.pid == current.pid
    requires forall signal, pid :: Send(signal, pid) in head ==> pid == current.pid
    ensures Progressing(p, v) && Ends(all, p, j, l, v)
    ensures forall signal, pid :: Send(signal, pid) in all ==> v.pid != pid
  {
    var waiting, known := Waiting(current, record, None, forced, turns), false;
    p, known, j, l := WaitingReturns(current, record, None, forced, turns, v);
    EndsBehind(head, waiting, p, j, l, v);
    j, l := |head| + j, |head| + l;
    forall signal, pid | Send(signal, pid) in all ensures v.pid != pid {
      if Send(signal, pid) in waiting { WaitingTargets(current, record, None, forced, turns, signal, pid); }
    }
  }

  lemma TraceReturns(m: Marker, i: Inputs, v: Obs) returns (p: Obs, j: int, l: nat)
    requires Return(v) in Trace(m, i)
    ensures Progressing(p, v) && Ends(Trace(m, i), p, j, l, v)
    ensures forall signal, pid :: Send(signal, pid) in Trace(m, i) ==> v.pid != pid
  {
    var first, second := i.first.obs, i.second.obs;
    if Progressing(first, second) {
      p, j, l := first, 0, 1;
    } else {
      TraceParts(m, i, v);
      p, j, l := SignallingReturns(m, i, second, i.current.obs, v);
      EndsBehindThree(Observe(first), Observe(second), Observe(i.current.obs),
          Signalling(m, i, second, i.current.obs), p, j, l, v);
      j, l := 3 + j, 3 + l;
    }
  }

  lemma EndsBehindThree(a: Event, b: Event, c: Event, tail: seq<Event>, p: Obs, j: int, l: nat, v: Obs)
    requires Ends(tail, p, j, l, v) && a.Observe? && b.Observe? && c.Observe?
    requires forall signal, pid :: Send(signal, pid) in tail ==> v.pid != pid
    ensures Ends([a, b, c] + tail, p, 3 + j, 3 + l, v)
    ensures forall signal, pid :: Send(signal, pid) in [a, b, c] + tail ==> v.pid != pid
  {
  }

  lemma TraceParts(m: Marker, i: Inputs, v: Obs)
    requires Return(v) in Trace(m, i) && !Progressing(i.first.obs, i.second.obs)
    ensures i.first.Seen? && i.second.Seen? && i.current.Seen? && !m.Broken?
    ensures var (second, current) := (i.second.obs, i.current.obs);
            Trace(m, i) == [Observe(i.first.obs), Observe(second), Observe(current)] +
                Signalling(m, i, second, current) &&
            Return(v) in Signalling(m, i, second, current) && current.Equals(second) &&
            (Resumes(m, i.boot) ==> Legacy(m, second, i.failure))
  {
    var rest := Acting(m, i, i.second.obs);
    assert Trace(m, i) == [Observe(i.first.obs), Observe(i.second.obs)] + rest;
    assert Return(v) in rest;
  }

  lemma ProgressFields(t: seq<Event>, p: Obs, j: int, l: nat, v: Obs)
    requires Progressing(p, v) && Ends(t, p, j, l, v)
    ensures t[|t| - 1] == Return(v) &&
            exists j, l :: 0 <= j < l < |t| - 1 && t[j].Observe? && t[l] == Observe(v) &&
                var p := t[j].obs;
                p.pid == v.pid && p.identity == v.identity && p.power == v.power == Int(2) &&
                p.submitted.Int? && p.completed.Int? && v.submitted.Int? && v.completed.Int? &&
                p.completed.n < v.completed.n <= v.submitted.n && p.completed.n <= p.submitted.n &&
                v.pending in {Int(0), Int(1), Bool(false), Bool(true)}
  {
    assert t[j].obs == p;
  }

  /** Success comes last in a run, behind two observations of one process, powered on in both, between
      which it completed flips; and never for a process the run signalled. */
  lemma SuccessIsProgress(m: Marker, i: Inputs, v: Obs)
    requires Return(v) in Trace(m, i)
    ensures var t := Trace(m, i);
            t[|t| - 1] == Return(v) &&
            exists j, l :: 0 <= j < l < |t| - 1 && t[j].Observe? && t[l] == Observe(v) &&
                var p := t[j].obs;
                p.pid == v.pid && p.identity == v.identity && p.power == v.power == Int(2) &&
                p.submitted.Int? && p.completed.Int? && v.submitted.Int? && v.completed.Int? &&
                p.completed.n < v.completed.n <= v.submitted.n && p.completed.n <= p.submitted.n &&
                v.pending in {Int(0), Int(1), Bool(false), Bool(true)}
    ensures forall signal, pid :: Send(signal, pid) in Trace(m, i) ==> v.pid != pid
  {
    var p, j, l := TraceReturns(m, i, v);
    ProgressFields(Trace(m, i), p, j, l, v);
  }

  /** A run returns at once exactly if its first two observations show progress. */
  lemma ReturnsAtOnceExactly(m: Marker, i: Inputs)
    requires i.first.Seen? && i.second.Seen?
    ensures var (p, v) := (i.first.obs, i.second.obs);
            Trace(m, i) == [Observe(p), Observe(v), Return(v)] <==>
            (p.pid == v.pid && p.identity == v.identity && p.power == v.power == Int(2) &&
             p.submitted.Int? && p.completed.Int? && v.submitted.Int? && v.completed.Int? &&
             p.completed.n < v.completed.n <= v.submitted.n && p.completed.n <= p.submitted.n &&
             v.pending in {Int(0), Int(1), Bool(false), Bool(true)})
  {
    var (p, v) := (i.first.obs, i.second.obs);
    if Trace(m, i) == [Observe(p), Observe(v), Return(v)] {
      assert Trace(m, i)[2] == Return(v);
    }
  }

  /** A desktop that stands still, powered on or with a flip completed, and one that was replaced between
      the two observations are left alone. */
  lemma StalledIsLeftAlone(m: Marker, i: Inputs)
    requires i.first.Seen? && i.second.Seen?
    requires var (p, v) := (i.first.obs, i.second.obs);
             (p == v && (v.power !in {Int(0), Bool(false)} || v.completed !in {Absent, Int(0), Bool(false)})) ||
             p.pid != v.pid || p.identity != v.identity
    ensures Trace(m, i) == [Observe(i.first.obs), Observe(i.second.obs), Raise]
  {
  }

  // ---- when a signal is sent ----

  /** An escalation one of whose observations or whose stack sample fails, or whose observations differ,
      saves nothing and kills no one. */
  lemma ForceNeedsAll(record: Record, f: Force)
    requires f.now.Fails? || f.latest.Fails? || f.sampleAborts || !f.latest.obs.Equals(f.now.obs)
    ensures !Forcing(record, f).1 && forall e <- Forcing(record, f).0 :: e.Observe?
  {
  }

  /** A run signals only where the marker is missing, is of another boot, or is the record without a
      phase of an earlier attempt at the same process that timed out. */
  lemma SignalsNeedLeave(m: Marker, i: Inputs, signal: Signal, pid: int)
    requires Send(signal, pid) in Trace(m, i)
    ensures i.second.Seen? && !m.Broken?
    ensures m.Holds? && m.record.boot == i.boot ==>
              m.record.phase == None && i.failure == Says(true) && m.record.before.Some? &&
              m.record.before.value.pid == i.second.obs.pid &&
              m.record.before.value.identity == i.second.obs.identity && signal == Kill
  {
    TraceCounts(m, i, Term);
    CountIn(Term, pid, Trace(m, i));
  }

  lemma {:induction false} CountIn(signal: Signal, pid: int, events: seq<Event>)
    ensures Send(signal, pid) in events ==> Count(signal, events) > 0
    decreases |events|
  {
    if events != [] { CountIn(signal, pid, events[1..]); }
  }

  /** A stuck desktop, seen so three times, is asked to exit if the marker says nothing of this boot. */
  lemma StuckIsAsked(m: Marker, i: Inputs, o: Obs)
    requires i.first == i.second == i.current == Seen(o)
    requires o.power in {Int(0), Bool(false)} && o.completed in {Absent, Int(0), Bool(false)}
    requires m.Missing? || (m.Holds? && m.record.boot != i.boot)
    ensures var record := Record(i.boot, Some(o), i.logdir, Some(TermIntent));
            [Observe(o), Observe(o), Observe(o), Save(record), Send(Term, o.pid)] <= Trace(m, i)
  {
  }

  lemma {:induction false} WaitingKills(current: Obs, record: Record, previous: Option<Obs>, forced: bool,
      turns: seq<Turn>, pid: int)
    requires Send(Kill, pid) in Waiting(current, record, previous, forced, turns)
    ensures !forced
    ensures exists k :: 0 <= k < |turns| && turns[k].late && turns[k].reading.Seen? &&
              turns[k].reading.obs.pid == current.pid && turns[k].reading.obs.identity == current.identity
    decreases |turns|
  {
    var t := turns[0];
    if t.reading.Seen? && !forced && t.late && SameProcess(t.reading.obs, current) {
      assert turns[0].late;
    } else {
      var rest := turns[1..];
      var next := if t.reading.Fails? then previous else Some(t.reading.obs);
      WaitingKills(current, record, next, forced, rest, pid);
      var k :| 0 <= k < |rest| && rest[k].late && rest[k].reading.Seen? &&
          rest[k].reading.obs.pid == current.pid && rest[k].reading.obs.identity == current.identity;
      assert turns[k + 1] == rest[k];
    }
  }

  /** Where the run asked first, it forces only past the force time, the old process being still there. */
  lemma KillIsLate(m: Marker, i: Inputs, pid: int)
    requires Send(Kill, pid) in Trace(m, i) && !(m.Holds? && m.record.boot == i.boot)
    ensures i.current.Seen?
    ensures exists k :: 0 <= k < |i.turns| && i.turns[k].late && i.turns[k].reading.Seen? &&
              i.turns[k].reading.obs.pid == i.current.obs.pid &&
              i.turns[k].reading.obs.identity == i.current.obs.identity
  {
    var current := i.current.obs;
    var record := Record(i.boot, Some(current), i.logdir, Some(TermIntent));
    assert Send(Kill, pid) in Waiting(current, record, None, false, i.turns);
    WaitingKills(current, record, None, false, i.turns, pid);
  }

  // ---- the run as the script performs it ----

  /** One bounded escalation: observe, sample, observe again, record, kill. */
  method ForceStuckExit(record: Record, f: Force) returns (events: seq<Event>, ok: bool)
    ensures (events, ok) == Forcing(record, f)
  {
    if f.now.Fails? { return [], false; }
    var current := f.now.obs;
    events := [Observe(current)];
    if record.before.None? || !SameProcess(current, record.before.value) || !current.Unbound() { return events, false; }
    if f.sampleAborts || f.latest.Fails? { return events, false; }
    events := events + [Observe(f.latest.obs)];
    if !f.latest.obs.Equals(current) { return events, false; }
    events := events + [Save(record.(phase := Some(ForceIntent)))];
    events := events + [Send(Kill, current.pid)];
    assert events == Forcing(record, f).0;
    ok := true;
  }

  method EnsureDesktop(m: Marker, i: Inputs) returns (trace: seq<Event>)
    ensures trace == Trace(m, i)
  {
    trace := [];
    if i.first.Fails? { return [Raise]; }
    trace := trace + [Observe(i.first.obs)];
    if i.second.Fails? { return trace + [Raise]; }
    var second := i.second.obs;
    trace := trace + [Observe(second)];
    if Progressing(i.first.obs, second) { return trace + [Return(second)]; }
    if !second.Unbound() { return trace + [Raise]; }
    if !SameProcess(i.first.obs, second) { return trace + [Raise]; }
    var rest := Act(m, i, second);
    trace := trace + rest;
  }

  /** The part behind the two observations: read the marker, and look again before doing anything. */
  method Act(m: Marker, i: Inputs, second: Obs) returns (trace: seq<Event>)
    ensures trace == Acting(m, i, second)
  {
    if m.Broken? { return [Raise]; }
    if Resumes(m, i.boot) {
      if i.failure == Unreadable || !Legacy(m, second, i.failure) { return [Raise]; }
    }
    if i.current.Fails? { return [Raise]; }
    var current := i.current.obs;
    trace := [Observe(current)];
    if !current.Equals(second) { return trace + [Raise]; }
    var rest := Settle(m, i, current);
    trace := trace + rest;
  }

  /** Ask the desktop to exit, or force it where an earlier run has asked already; then wait. */
  method Settle(m: Marker, i: Inputs, current: Obs) returns (trace: seq<Event>)
    requires !m.Broken?
    ensures trace == Settling(m, i, current)
  {
    var resume := Resumes(m, i.boot);
    var record;
    if !resume {
      record := Record(i.boot, Some(current), i.logdir, Some(TermIntent));
      trace := [Save(record), Send(Term, current.pid)];
    } else {
      var events, ok := ForceStuckExit(m.record, i.force);
      trace := events;
      if !ok { return trace + [Raise]; }
      record := m.record.(phase := Some(ForceIntent));
    }
    var rest := Wait(current, record, resume, i.turns);
    trace := trace + rest;
  }

  /** Wait for a new desktop that makes progress, forcing the old one out once. */
  method Wait(current: Obs, start: Record, resume: bool, turns: seq<Turn>) returns (trace: seq<Event>)
    ensures trace == Waiting(current, start, None, resume, turns)
  {
    var record, forced, previous: Option<Obs>, k := start, resume, None, 0;
    ghost var goal := Waiting(current, start, None, resume, turns);
    trace := [];
    assert turns[0..] == turns;
    while k < |turns|
      invariant 0 <= k <= |turns|
      invariant trace + Waiting(current, record, previous, forced, turns[k..]) == goal
    {
      var t := turns[k];
      WaitingStep(current, record, previous, forced, turns[k..], trace);
      assert turns[k..][1..] == turns[k + 1..];
      k := k + 1;
      if t.reading.Fails? {
        if t.unexpected { return trace + [Raise]; }
        continue;
      }
      var value := t.reading.obs;
      trace := trace + [Observe(value)];
      if value.pid != current.pid && previous.Some? && Progressing(previous.value, value) {
        return trace + [Save(record.(phase := Some(Verified))), Return(value)];
      }
      if !forced && t.late && SameProcess(value, current) {
        var events, ok := ForceStuckExit(record, t.force);
        trace := trace + events;
        if !ok { return trace + [Raise]; }
        record := record.(phase := Some(ForceIntent));
        forced := true;
      }
      previous := Some(value);
    }
    trace := trace + [Raise];
  }

  /** One turn of the loop, behind the events so far. */
  lemma WaitingStep(current: Obs, record: Record, previous: Option<Obs>, forced: bool, turns: seq<Turn>,
      trace: seq<Event>)
    requires turns != []
    ensures var t := turns[0];
            var all, rest := trace + Waiting(current, record, previous, forced, turns), turns[1..];
            if t.reading.Fails? then
              all == if t.unexpected then trace + [Raise] else trace + Waiting(current, record, previous, forced, rest)
            else
              var value, seen := t.reading.obs, trace + [Observe(t.reading.obs)];
              if value.pid != current.pid && previous.Some? && Progressing(previous.value, value) then
                all == seen + [Save(record.(phase := Some(Verified))), Return(value)]
              else if !forced && t.late && SameProcess(value, current) then
                var (events, ok) := Forcing(record, t.force);
                all == (seen + events) + if ok then Waiting(current, Forced(record), Some(value), true, rest)
                    else [Raise]
              else all == seen + Waiting(current, record, Some(value), forced, rest)
  {
  }
}
