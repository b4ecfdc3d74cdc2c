/** The driver object as intel_framebuffer.cpp updates it in place; each method is its function in
    `Framebuffer`. */
module FramebufferDriver {
  import opened Words
  import opened FlipState
  import opened Framebuffer

  class Driver {
    const flips: State
    const proofs: array<Entry>
    var front: nat
    var pendingR: nat
    var proofAge: nat
    var pins: multiset<nat>
    var acquires: nat
    var releases: nat
    var lastFrame: nat
    var wraps: nat
    var plane: Plane
    ghost var frontBase: nat
    ghost var start: nat
    ghost var polled: nat

    ghost predicate Valid()
      reads this
    {
      proofs.Length == ENTRIES
    }

    ghost function Now(): Screen
      reads this, flips, proofs
    {
      Screen(flips.Value(), front, pendingR, frontBase, proofs[..], proofAge, pins, acquires, releases, lastFrame,
          wraps, start, polled, plane)
    }

    /** Enabled with the boot picture on screen, at `base`. */
    constructor (base: nat, frame: nat, maps: (nat, nat) -> Mapping.Facts)
      requires Aligned(base) == base
      ensures Valid() && fresh(flips) && fresh(proofs) && Starts(World(Now(), maps))
    {
      flips := new State();
      proofs := new Entry[ENTRIES](_ => HOLE);
      front, pendingR, proofAge, acquires, releases, wraps := 0, 0, 0, 0, 0, 0;
      pins, lastFrame := multiset{}, frame % FRAMES;
      plane := Plane(frame, base, 0, frame, base, 0);
      frontBase, start, polled := base, frame, frame;
    }

    method PinResource(r: nat, ok: bool) returns (pinned: bool)
      modifies this`pins, this`acquires
      ensures pinned == ok && Now() == if ok then Pin(old(Now()), r) else old(Now())
    {
      if ok { pins, acquires := pins + multiset{r}, acquires + 1; }
      pinned := ok;
    }

    method UnpinResource(r: nat)
      modifies this`pins, this`releases
      ensures Now() == Unpin(old(Now()), r)
    {
      if r != 0 { pins, releases := pins - multiset{r}, releases + 1; }
    }

    /** Drop entry k's pin and proof. */
    method EvictEntry(k: nat)
      requires k < proofs.Length
      modifies this`pins, this`releases, proofs
      ensures Now() == Evict(old(Now()), k)
    {
      var e := proofs[k];
      proofs[k] := e.(r := 0, s := 0, proof := e.proof.(valid := false));
      UnpinResource(e.r);
    }

    method ClearProofs()
      requires Valid()
      modifies this`pins, this`releases, proofs
      ensures Now() == Clear(old(Now()), 0)
    {
      var k := 0;
      while k < proofs.Length
        invariant 0 <= k <= proofs.Length && Clear(Now(), k) == Clear(old(Now()), 0)
      {
        EvictEntry(k);
        proofs[k] := proofs[k].(age := 0);
        k := k + 1;
      }
    }

    /** The entry a flip of (r, s) may use, if any; `ok` says whether its extra pin would succeed. */
    method ProofFor(r: nat, s: nat, optimize: bool, ok: bool) returns (choice: Option<nat>)
      requires Valid()
      modifies this`pins, this`acquires, this`releases, this`proofAge, proofs
      ensures (Now(), choice) == Framebuffer.ProofFor(old(Now()), r, s, optimize, ok)
    {
      if !optimize {
        ClearProofs();
        return None;
      }
      var found := Choose(r, s);
      match found
      case Nothing => choice := None;
      case Hit(k) =>
        proofAge := proofAge + 1;
        proofs[k] := proofs[k].(age := proofAge);
        choice := Some(k);
      case Use(k) =>
        EvictEntry(k);
        var pinned := PinResource(r, ok);
        if !pinned { return None; }
        proofAge := proofAge + 1;
        proofs[k] := proofs[k].(r := r, s := s, age := proofAge);
        choice := Some(k);
    }

    method Choose(r: nat, s: nat) returns (found: Choice)
      ensures found == Scan(proofs[..], 0, None, r, s, front, pendingR)
      ensures found.Hit? ==>
                found.k < proofs.Length && proofs[found.k].r == r && proofs[found.k].s == s &&
                (forall j :: 0 <= j < found.k ==> proofs[j].r != 0 && !(proofs[j].r == r && proofs[j].s == s))
      ensures !found.Hit? ==>
                (forall k :: 0 <= k < proofs.Length && proofs[k].r == r && proofs[k].s == s ==>
                   exists j :: 0 <= j < k && proofs[j].r == 0)
      ensures found.Use? ==>
                found.k < proofs.Length && !(proofs[found.k].r == r && proofs[found.k].s == s) &&
                (forall j :: 0 <= j < found.k ==> proofs[j].r != 0 && !(proofs[j].r == r && proofs[j].s == s))
      ensures found.Use? && proofs[found.k].r != 0 ==>
                proofs[found.k].r != front && proofs[found.k].r != pendingR &&
                (forall j :: 0 <= j < proofs.Length ==> proofs[j].r != 0 && !(proofs[j].r == r && proofs[j].s == s)) &&
                (forall j :: 0 <= j < proofs.Length && proofs[j].r != front && proofs[j].r != pendingR ==>
                   proofs[found.k].age <= proofs[j].age && (j < found.k ==> proofs[found.k].age < proofs[j].age))
      ensures found.Nothing? <==>
                (forall j :: 0 <= j < proofs.Length ==>
                   proofs[j].r != 0 && !(proofs[j].r == r && proofs[j].s == s) &&
                   (proofs[j].r == front || proofs[j].r == pendingR))
    {
      var k: nat, best: Option<nat> := 0, None;
      while k < proofs.Length
        invariant 0 <= k <= proofs.Length
        invariant best.Some? ==> best.value < k && proofs[best.value].r != front && proofs[best.value].r != pendingR
        invariant Scan(proofs[..], k, best, r, s, front, pendingR) == Scan(proofs[..], 0, None, r, s, front, pendingR)
      {
        var e := proofs[k];
        if e.r == r && e.s == s {
          ScanIsOldest(proofs[..], r, s, front, pendingR, Hit(k));
          return Hit(k);
        }
        if e.r == 0 {
          ScanIsOldest(proofs[..], r, s, front, pendingR, Use(k));
          return Use(k);
        }
        if e.r != front && e.r != pendingR && (best.None? || e.age < proofs[best.value].age) { best := Some(k); }
        k := k + 1;
      }
      found := if best.Some? then Use(best.value) else Nothing;
      ScanIsOldest(proofs[..], r, s, front, pendingR, found);
    }

    /** Read the frame counter and the live base. */
    method ObserveScanout()
      modifies this`wraps, this`lastFrame, this`polled, flips
      ensures Now() == Poll(old(Now()))
    {
      var frame := plane.frame % FRAMES;
      wraps := wraps + (frame - lastFrame) % FRAMES;
      lastFrame := frame;
      polled := plane.frame;
      var latched := flips.Observe(plane.live, wraps);
    }

    method FinishFlip()
      modifies this, flips
      ensures Now() == Framebuffer.FinishFlip(old(Now()))
      ensures proofs[..] == old(proofs[..])
    {
      ghost var base := flips.base;
      var done := flips.Finish();
      if !done { return; }
      UnpinResource(front);
      front, pendingR := pendingR, 0;
      frontBase := base;
    }

    method ArmPrimary(r: nat, va: nat, tiles: Outcome) returns (outcome: Outcome)
      modifies this, flips
      ensures (Now(), outcome) == Framebuffer.ArmPrimary(old(Now()), r, va, tiles)
    {
      if flips.pending { return Busy; }
      if r != 0 && tiles != Outcome.Armed { return tiles; }
      ObserveScanout();
      var armed := flips.Arm(va, r != 0, wraps);
      pendingR := r;
      plane := plane.(surf := va, surfR := r, armFrame := plane.frame);
      outcome := Outcome.Armed;
    }

    method Flip(q: Request) returns (outcome: Outcome)
      requires Valid()
      modifies this, flips, proofs
      ensures (Now(), outcome) == Framebuffer.Flip(old(Now()), q)
    {
      if q.kind != 1 { return Unsupported; }
      if flips.pending { return Busy; }
      if q.r == 0 && q.s == 0 {
        if q.dirty { return BadArgument; }
        outcome := ArmPrimary(0, 0, Outcome.Armed);
        return;
      }
      if q.r == 0 || q.s == 0 || !q.suitable { return Unsupported; }
      var pinned := PinResource(q.r, q.pinned);
      if !pinned { return NotReady; }
      var choice := ProofFor(q.r, q.s, q.optimize, q.again);
      var good := CheckMapping(q, choice);
      if !good {
        UnpinResource(q.r);
        return Unsupported;
      }
      outcome := ArmPrimary(q.r, q.va, q.tiles);
      if outcome != Outcome.Armed { UnpinResource(q.r); }
    }

    method CheckMapping(q: Request, choice: Option<nat>) returns (good: bool)
      requires Valid() && (choice.Some? ==> choice.value < ENTRIES)
      modifies proofs
      ensures (good, Now()) == Check(old(Now()), q, choice)
    {
      match choice
      case None =>
        var code, _ := Mapping.Inspect(q.facts, q.va, q.bytes, HOLE.proof);
        good := code == Mapping.Success;
      case Some(k) =>
        var code, proof := Mapping.Inspect(q.facts, q.va, q.bytes, proofs[k].proof);
        proofs[k] := proofs[k].(proof := proof);
        good := code == Mapping.Success;
    }

    method Itcm() returns (complete: bool)
      modifies this, flips
      ensures (Now(), complete) == Framebuffer.Itcm(old(Now()))
    {
      ObserveScanout();
      FinishFlip();
      complete := flips.submitted > 0 && flips.completed == flips.submitted && !flips.pending;
    }
  }
}
