/** Concrete runs of flips: a frame count that comes out wrong, and a resource that is scanned out with no
    pin left. */
module FramebufferWitness {
  import opened Words
  import opened FlipState
  import opened Framebuffer
  import opened FramebufferRuns

  // ---- a start ----

  const BASE := 4096

  function Page(offset: nat): Mapping.Segment { Mapping.Segment(8192, 4096) }

  function Pte(page: nat): nat { 8193 }

  /** One page at graphics address BASE, wired, and its page table entry. */
  function Mapped(r: nat, s: nat): Mapping.Facts {
    Mapping.Facts(None, BASE, 4096, None, 4096, 4096, true, [], true, Page, Page, false, 0x100_0000, true, Pte, Pte,
                  true)
  }

  function Holes(): seq<Entry> { seq(ENTRIES, _ => HOLE) }

  function Boot(): Screen {
    Screen(NEW, 0, 0, 0, Holes(), 0, multiset{}, 0, 0, 0, 0, 0, 0, Plane(0, 0, 0, 0, 0, 0))
  }

  function Start(): World { World(Boot(), Mapped) }

  // ---- counting frames ----

  /** 2^32 frames pass, all latched, and one poll: none is counted. */
  lemma FramesLost() returns (steps: seq<Step>)
    ensures Starts(Start()) && !CountTrue(Framebuffer.Run(Start(), steps).f)
    ensures Framebuffer.Run(Start(), steps).f.plane.frame == FRAMES && Framebuffer.Run(Start(), steps).f.wraps == 0
  {
    steps := Ticks(FRAMES) + [TimerPoll];
    FirstPollExactly(Start(), FRAMES);
    TicksRun(Start(), FRAMES);
    RunOn(Start(), Ticks(FRAMES), TimerPoll);
  }

  // ---- a resource scanned out with no pin ----

  /** A flip to resource r at BASE; no proof of it is kept. */
  function Ask(r: nat): Request {
    Request(1, r, 1, BASE, 4096, false, true, true, false, true, Armed, Mapped(r, 1))
  }

  lemma MappedProven(r: nat)
    ensures Mapping.Proven(Mapped(r, 1), BASE, 4096)
  {
    assert Mapping.Pages(4096) == 1;
  }

  /** A flip where no update is pending and no proofs are kept. */
  lemma FlipArms(f: Screen, r: nat)
    requires !f.flips.pending && r != 0 && f.proofs == Holes()
    ensures Flip(f, Ask(r)).0 == ArmPrimary(Pin(f, r), r, BASE, Armed).0
  {
    MappedProven(r);
    var g := Pin(f, r);
    assert Scan(g.proofs, 0, None, r, 1, g.front, g.pendingR) == Use(0);
    assert g.proofs[0 := HOLE] == g.proofs;
    assert Evict(g, 0) == g;
  }

  /** The flip to resource 1 is armed; a frame latches it; it is the front. */
  function First(): Screen {
    Screen(Flips(1, 0, 0, 0, BASE, true, true), 0, 1, 0, Holes(), 0, multiset{1}, 1, 0, 0, 0, 0, 0,
           Plane(0, BASE, 1, 0, 0, 0))
  }

  function Latched(): Screen { First().(plane := Plane(1, BASE, 1, 0, BASE, 1)) }

  function Front(): Screen {
    Screen(Flips(1, 1, 1, 0, BASE, false, true), 1, 0, BASE, Holes(), 0, multiset{1}, 1, 0, 1, 1, 0, 1,
           Plane(1, BASE, 1, 0, BASE, 1))
  }

  /** And an update for resource 2 is armed at its base. */
  function Second(): Screen {
    Screen(Flips(2, 1, 1, 1, BASE, true, true), 1, 2, BASE, Holes(), 0, multiset{1, 2}, 2, 0, 1, 1, 0, 1,
           Plane(1, BASE, 2, 1, BASE, 1))
  }

  lemma FirstIs()
    ensures Flip(Boot(), Ask(1)).0 == First()
  {
    FlipArms(Boot(), 1);
    assert multiset{} + multiset{1} == multiset{1};
  }

  lemma FrontIs()
    ensures Itcm(Latched()).0 == Front()
  {
    assert Elapsed(Latched()) == 1;
  }

  lemma SecondIs()
    ensures Flip(Front(), Ask(2)).0 == Second() && ArmedOver(Second())
  {
    FlipArms(Front(), 2);
    SecondArmed(Pin(Front(), 2));
  }

  lemma SecondArmed(g: Screen)
    requires g == Pin(Front(), 2)
    ensures ArmPrimary(g, 2, BASE, Armed).0 == Second() && ArmedOver(Second())
  {
    assert multiset{1} + multiset{2} == multiset{1, 2};
    assert Elapsed(g) == 0;
  }

  function At(f: Screen): World { World(f, Mapped) }

  lemma Flipped(f: Screen, r: nat)
    ensures Next(At(f), DoFlip(Ask(r))) == At(Flip(f, Ask(r)).0)
  {
  }

  lemma Framed(f: Screen)
    ensures Next(At(f), Tick(true)) == At(f.(plane := Ticked(f.plane, true)))
  {
  }

  lemma Completed(f: Screen)
    ensures Next(At(f), DoItcm) == At(Itcm(f).0)
  {
  }

  /** The four steps that lead there. */
  lemma ArmTwice() returns (w: World)
    ensures w == Framebuffer.Run(Start(), [DoFlip(Ask(1)), Tick(true), DoItcm, DoFlip(Ask(2))]) && w == At(Second())
  {
    FirstIs();
    FrontIs();
    SecondIs();
    Flipped(Boot(), 1);
    Framed(First());
    Completed(Latched());
    Flipped(Front(), 2);
    FourSteps(Start(), DoFlip(Ask(1)), Tick(true), DoItcm, DoFlip(Ask(2)));
    w := At(Second());
  }

  lemma FourSteps(w: World, a: Step, b: Step, c: Step, d: Step)
    ensures Framebuffer.Run(w, [a, b, c, d]) == Next(Next(Next(Next(w, a), b), c), d)
  {
    assert [a, b, c, d] == [a, b, c] + [d] && [a, b, c] == [a, b] + [c];
    RunOn(w, [a, b, c], d);
    RunOn(w, [a, b], c);
    RunTwo(w, a, b);
  }

  /** Two flips to one base, the second one's frame not latched: resource 1 is still scanned out, and no pin
      of it is left. */
  lemma ScannedUnpinned() returns (steps: seq<Step>)
    ensures Starts(Start())
    ensures var f := Framebuffer.Run(Start(), steps).f; f.plane.liveR == 1 && 1 !in f.pins
  {
    var first := [DoFlip(Ask(1)), Tick(true), DoItcm, DoFlip(Ask(2))];
    var w := ArmTwice();
    steps := first + [Tick(false)] + [DoItcm];
    RunOn(Start(), first, Tick(false));
    RunOn(Start(), first + [Tick(false)], DoItcm);
    RunTwo(w, Tick(false), DoItcm);
    LastUncovered(w);
  }

  lemma LastUncovered(w: World)
    requires w == At(Second())
    ensures var f := Framebuffer.Run(w, [Tick(false), DoItcm]).f; f.plane.liveR == 1 && 1 !in f.pins
  {
    SecondIs();
    NoRefs(Holes());
    assert multiset{1, 2} == multiset{1} + multiset{2} + multiset{} + multiset{};
    SharedBaseUncovers(w);
  }
}
