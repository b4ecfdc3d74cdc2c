/** The running display mode, decoded from registers (display_timing.hpp). Clocks are computed in 64
    bits, where a multiplication may wrap; the link bandwidth check comes later. */
module Timing {
  import opened Words
  import opened Checks

  const OFFSETS: seq<nat> := [
    0x60000, 0x60004, 0x60008, 0x6000c, 0x60010, 0x60014, 0x6001c, 0x6007c,
    0x60030, 0x60034, 0x60040, 0x60044, 0x60400, 0x46140, 0x164280, 0x51004,
    0x46010, 0x46014, 0x164284, 0x164288, 0x16428c, 0x164290,
    0x60420, 0x6042c, 0x60424, 0x60434, 0x70008, 0x70040, 0x70000, 0x70048, 0x44070]

  const TOP := 0x1_0000_0000_0000_0000

  function Wrap(n: nat): nat { n % TOP }

  datatype Status = OK | Route | Disabled | VariableRefresh | PLL | Geometry | Clock | Link

  datatype Mode = Mode(
    hActive: nat, hTotal: nat, hSyncStart: nat, hSyncEnd: nat, vActive: nat, vTotal: nat, vSyncStart: nat,
        vSyncEnd: nat,
    refresh1616: nat, pll: nat, lanes: nat, bpc: nat, portClockHz: nat, pixelClockHz: nat, hPositive: bool,
        vPositive: bool)

  const BLANK := Mode(0, 0, 0, 0, 0, 0, 0, 0, 0, 0, 0, 0, 0, 0, false, false)

  // ---- a snapshot of the registers ----

  /** The captured value of a register, 0 for one not captured. */
  method Get(values: seq<word>, address: nat) returns (value: word)
    requires |values| == |OFFSETS|
    ensures address !in OFFSETS ==> value == 0
    ensures forall i :: 0 <= i < |OFFSETS| && OFFSETS[i] == address && address !in OFFSETS[..i] ==> value == values[i]
  {
    var i := 0;
    while i < |OFFSETS|
      invariant 0 <= i <= |OFFSETS| && address !in OFFSETS[..i]
    {
      if OFFSETS[i] == address { return values[i]; }
      i := i + 1;
    }
    value := 0;
  }

  // ---- fields ----

  /** Bits low.. of w, `size` a power of two many values. */
  function Bits(w: word, low: nat, size: nat): nat
    requires low > 0 && size > 0
  {
    w / low % size
  }

  predicate Bit(w: word, low: nat)
    requires low > 0
  {
    Bits(w, low, 2) == 1
  }

  function PDivider(code: nat): nat { if code == 1 then 2 else if code == 2 then 3 else if code == 4 then 5
      else if code == 8 then 7 else 0 }

  function KDivider(code: nat): nat { if code == 1 then 1 else if code == 2 then 2 else if code == 4 then 3 else 0 }

  /** What decides the mode, read off the registers. */
  datatype Fields = Fields(
    route: bool, enabled: bool, variable: bool, interlaced: bool, pll: nat, locked: bool, refCode: nat,
    integer: nat, fraction: nat, p: nat, q: nat, k: nat, linkM: nat, linkN: nat,
    hActive: nat, hTotal: nat, hSyncStart: nat, hSyncEnd: nat, vActive: nat, vTotal: nat, vSyncStart: nat,
        vSyncEnd: nat,
    bpcCode: nat, lanes: nat, hPositive: bool, vPositive: bool)
  {
    predicate Ranges() {
      refCode < 8 && integer < 1024 && fraction < 0x8000 && p <= 7 && q < 256 && k <= 3 && linkM < 0x100_0000 &&
          linkN < 0x100_0000 &&
      hActive <= 0x1_0000 && hTotal <= 0x1_0000 && vActive <= 0x1_0000 && vTotal <= 0x1_0000 && bpcCode < 8 &&
          1 <= lanes <= 8
    }
  }

  function Read(reg: nat -> word): (f: Fields)
    ensures f.Ranges()
  {
    var ddi, mux := reg(0x60400), reg(0x164280);
    var pll := mux % 4;
    var c0, c1 := reg(if pll != 0 then 0x16428c else 0x164284), reg(if pll != 0 then 0x164290 else 0x164288);
    var h, v, hs, vs := reg(0x60000), reg(0x6000c), reg(0x60008), reg(0x60014);
    Fields(
      Bits(ddi, 0x800_0000, 16) == 1 && Bits(ddi, 0x100_0000, 8) == 2 && Bits(reg(0x46140), 0x1000_0000, 16) == 1,
      Bit(ddi, 0x8000_0000) && Bit(reg(0x70008), 0x4000_0000) && !Bit(mux, 0x400),
      Bit(reg(0x60420), 0x8000_0000) || Bit(reg(0x6042c), 0x800_0000),
      Bits(reg(0x70008), 0x20_0000, 8) != 0,
      pll, Bits(reg(if pll != 0 then 0x46014 else 0x46010), 0x4000_0000, 4) == 3,
      Bits(reg(0x51004), 0x2000_0000, 8),
      c0 % 1024, Bits(c0, 0x400, 0x8000),
      PDivider(Bits(c1, 4, 16)), if Bit(c1, 0x200) then Bits(c1, 0x400, 256) else 1, KDivider(Bits(c1, 0x40, 8)),
      reg(0x60040) % 0x100_0000, reg(0x60044) % 0x100_0000,
      h % 0x1_0000 + 1, h / 0x1_0000 + 1, hs % 0x1_0000 + 1, hs / 0x1_0000 + 1,
      v % 0x1_0000 + 1, v / 0x1_0000 + 1, vs % 0x1_0000 + 1, vs / 0x1_0000 + 1,
      Bits(ddi, 0x10_0000, 8), Bits(ddi, 2, 8) + 1, Bit(ddi, 0x1_0000), Bit(ddi, 0x2_0000))
  }

  /** The flags, on the registers. */
  lemma FlagsOnRegisters(reg: nat -> word, f: Fields)
    requires f == Read(reg)
    ensures f.route <==>
            reg(0x60400) / 0x800_0000 % 16 == 1 && reg(0x60400) / 0x100_0000 % 8 == 2 &&
            reg(0x46140) / 0x1000_0000 == 1
    ensures f.enabled <==>
            reg(0x60400) >= 0x8000_0000 && reg(0x70008) / 0x4000_0000 % 2 == 1 && reg(0x164280) / 0x400 % 2 == 0
    ensures f.variable <==> reg(0x60420) >= 0x8000_0000 || reg(0x6042c) / 0x800_0000 % 2 == 1
    ensures f.interlaced <==> reg(0x70008) / 0x20_0000 % 8 != 0
    ensures f.locked <==> reg(if reg(0x164280) % 4 != 0 then 0x46014 else 0x46010) >= 0xC000_0000
  {
  }

  /** The sizes and the link, on the registers. */
  lemma SizesOnRegisters(reg: nat -> word, f: Fields)
    requires f == Read(reg)
    ensures f.hActive == reg(0x60000) % 0x1_0000 + 1 && f.hTotal == reg(0x60000) / 0x1_0000 + 1
    ensures f.hSyncStart == reg(0x60008) % 0x1_0000 + 1 && f.hSyncEnd == reg(0x60008) / 0x1_0000 + 1
    ensures f.vActive == reg(0x6000c) % 0x1_0000 + 1 && f.vTotal == reg(0x6000c) / 0x1_0000 + 1
    ensures f.vSyncStart == reg(0x60014) % 0x1_0000 + 1 && f.vSyncEnd == reg(0x60014) / 0x1_0000 + 1
    ensures f.bpcCode == reg(0x60400) / 0x10_0000 % 8 && f.lanes == reg(0x60400) / 2 % 8 + 1
    ensures (f.hPositive <==> reg(0x60400) / 0x1_0000 % 2 == 1) && (f.vPositive <==> reg(0x60400) / 0x2_0000 % 2 == 1)
  {
  }

  /** The clocks' parts, on the registers. */
  lemma PartsOnRegisters(reg: nat -> word, f: Fields)
    requires f == Read(reg)
    ensures f.pll == reg(0x164280) % 4 && f.refCode == reg(0x51004) / 0x2000_0000
    ensures f.linkM == reg(0x60040) % 0x100_0000 && f.linkN == reg(0x60044) % 0x100_0000
    ensures var c0 := reg(if f.pll != 0 then 0x16428c else 0x164284);
            f.integer == c0 % 0x400 && f.fraction == c0 / 0x400 % 0x8000
    ensures var c1 := reg(if f.pll != 0 then 0x164290 else 0x164288);
            f.q == (if c1 / 0x200 % 2 == 1 then c1 / 0x400 % 256 else 1) &&
            f.p == (match c1 / 4 % 16 case 1 => 2 case 2 => 3 case 4 => 5 case 8 => 7 case _ => 0) &&
            f.k == (match c1 / 0x40 % 8 case 1 => 1 case 2 => 2 case 4 => 3 case _ => 0)
  {
  }

  /** The same values in the snapshot. */
  ghost predicate SameSnapshot(reg: nat -> word, reg': nat -> word) { forall a :: a in OFFSETS ==> reg(a) == reg'(a) }

  lemma SameAt(reg: nat -> word, reg': nat -> word, a: nat)
    requires a in OFFSETS && SameSnapshot(reg, reg')
    ensures reg(a) == reg'(a)
  {
  }

  lemma GeometryCaptured()
    ensures 0x60000 in OFFSETS
    ensures 0x60008 in OFFSETS
    ensures 0x6000c in OFFSETS
    ensures 0x60014 in OFFSETS
    ensures 0x60040 in OFFSETS
    ensures 0x60044 in OFFSETS
  {
    assert OFFSETS[0] == 0x60000;
    assert OFFSETS[2] == 0x60008;
    assert OFFSETS[3] == 0x6000c;
    assert OFFSETS[5] == 0x60014;
    assert OFFSETS[10] == 0x60040;
    assert OFFSETS[11] == 0x60044;
  }

  lemma RoutingCaptured()
    ensures 0x60400 in OFFSETS
    ensures 0x46140 in OFFSETS
    ensures 0x164280 in OFFSETS
    ensures 0x51004 in OFFSETS
  {
    assert OFFSETS[12] == 0x60400;
    assert OFFSETS[13] == 0x46140;
    assert OFFSETS[14] == 0x164280;
    assert OFFSETS[15] == 0x51004;
  }

  lemma ClockCaptured()
    ensures 0x46010 in OFFSETS
    ensures 0x46014 in OFFSETS
    ensures 0x164284 in OFFSETS
    ensures 0x164288 in OFFSETS
    ensures 0x16428c in OFFSETS
    ensures 0x164290 in OFFSETS
  {
    assert OFFSETS[16] == 0x46010;
    assert OFFSETS[17] == 0x46014;
    assert OFFSETS[18] == 0x164284;
    assert OFFSETS[19] == 0x164288;
    assert OFFSETS[20] == 0x16428c;
    assert OFFSETS[21] == 0x164290;
  }

  lemma ModeCaptured()
    ensures 0x60420 in OFFSETS
    ensures 0x6042c in OFFSETS
    ensures 0x70008 in OFFSETS
  {
    assert OFFSETS[22] == 0x60420;
    assert OFFSETS[23] == 0x6042c;
    assert OFFSETS[26] == 0x70008;
  }

  lemma ReadOfSame(reg: nat -> word, reg': nat -> word)
    requires reg(0x60000) == reg'(0x60000)
    requires reg(0x60008) == reg'(0x60008)
    requires reg(0x6000c) == reg'(0x6000c)
    requires reg(0x60014) == reg'(0x60014)
    requires reg(0x60040) == reg'(0x60040)
    requires reg(0x60044) == reg'(0x60044)
    requires reg(0x60400) == reg'(0x60400)
    requires reg(0x46140) == reg'(0x46140)
    requires reg(0x164280) == reg'(0x164280)
    requires reg(0x51004) == reg'(0x51004)
    requires reg(0x46010) == reg'(0x46010)
    requires reg(0x46014) == reg'(0x46014)
    requires reg(0x164284) == reg'(0x164284)
    requires reg(0x164288) == reg'(0x164288)
    requires reg(0x16428c) == reg'(0x16428c)
    requires reg(0x164290) == reg'(0x164290)
    requires reg(0x60420) == reg'(0x60420)
    requires reg(0x6042c) == reg'(0x6042c)
    requires reg(0x70008) == reg'(0x70008)
    ensures Read(reg) == Read(reg')
  {
  }

  /** The decoder reads only registers of the snapshot. */
  lemma ReadsSnapshot(reg: nat -> word, reg': nat -> word)
    requires SameSnapshot(reg, reg')
    ensures Read(reg) == Read(reg')
  {
    GeometryCaptured();
    SameAt(reg, reg', 0x60000);
    SameAt(reg, reg', 0x60008);
    SameAt(reg, reg', 0x6000c);
    SameAt(reg, reg', 0x60014);
    SameAt(reg, reg', 0x60040);
    SameAt(reg, reg', 0x60044);
    RoutingCaptured();
    SameAt(reg, reg', 0x60400);
    SameAt(reg, reg', 0x46140);
    SameAt(reg, reg', 0x164280);
    SameAt(reg, reg', 0x51004);
    ClockCaptured();
    SameAt(reg, reg', 0x46010);
    SameAt(reg, reg', 0x46014);
    SameAt(reg, reg', 0x164284);
    SameAt(reg, reg', 0x164288);
    SameAt(reg, reg', 0x16428c);
    SameAt(reg, reg', 0x164290);
    ModeCaptured();
    SameAt(reg, reg', 0x60420);
    SameAt(reg, reg', 0x6042c);
    SameAt(reg, reg', 0x70008);
    ReadOfSame(reg, reg');
  }

  // ---- exact arithmetic ----

  function Reference(f: Fields): nat { if f.refCode != 0 then 19200000 else 24000000 }

  /** The oscillator's frequency times 32768. */
  function Dco(f: Fields): nat {
    (f.integer * 32768 + f.fraction * (if f.refCode == 2 then 2 else 1)) * Reference(f)
  }

  function Divider(f: Fields): nat { f.p * f.q * f.k * 5 }

  /** a / b, rounded half up. */
  function Round(a: nat, b: nat): nat
    requires b > 0
  {
    (a + b / 2) / b
  }

  function PortClock(f: Fields): nat
    requires Divider(f) > 0
  {
    Round(Dco(f), Divider(f) * 32768)
  }

  function PixelClock(f: Fields): nat
    requires Divider(f) > 0 && f.linkN > 0
  {
    Round(PortClock(f) * f.linkM, f.linkN)
  }

  function Refresh(f: Fields): nat
    requires Divider(f) > 0 && f.linkN > 0 && f.hTotal * f.vTotal > 0
  {
    Round(PixelClock(f) * 65536, f.hTotal * f.vTotal)
  }

  function Bpc(code: nat): nat { if code == 0 then 8 else if code == 1 then 10 else if code == 2 then 6 else 12 }

  predicate GeometryOk(f: Fields) {
    f.hActive < f.hTotal && f.vActive < f.vTotal &&
    f.hActive <= f.hSyncStart < f.hSyncEnd <= f.hTotal && f.vActive <= f.vSyncStart < f.vSyncEnd <= f.vTotal
  }

  /** Checks on the fields alone. */
  predicate Readable(f: Fields) {
    f.route && f.enabled && !f.variable && !f.interlaced && f.pll <= 1 && f.locked && f.refCode <= 2 &&
    f.p > 0 && f.q > 0 && f.k > 0
  }

  /** Checks on the link, given the clocks. */
  predicate LinkOk(f: Fields, pixel: nat, port: nat) {
    f.bpcCode <= 3 && (f.lanes == 1 || f.lanes == 2 || f.lanes == 4) && pixel * 3 * Bpc(f.bpcCode) <= port * 8 * f.lanes
  }

  /** A mode the decoder should accept, said without machine arithmetic. */
  predicate Supported(f: Fields) {
    Readable(f) && f.linkM > 0 && f.linkN > 0 && GeometryOk(f) &&
    Divider(f) > 0 && 0 < PortClock(f) <= 810000000 &&
    f.hTotal * f.vTotal > 0 && 0 < Refresh(f) < 0x1_0000_0000 && LinkOk(f, PixelClock(f), PortClock(f))
  }

  predicate Describes(m: Mode, f: Fields)
    requires Supported(f)
  {
    m == Filled(f, PortClock(f), PixelClock(f), Refresh(f))
  }

  function Filled(f: Fields, port: nat, pixel: nat, refresh: nat): Mode {
    Mode(f.hActive, f.hTotal, f.hSyncStart, f.hSyncEnd, f.vActive, f.vTotal, f.vSyncStart, f.vSyncEnd,
         refresh, f.pll, f.lanes, Bpc(f.bpcCode), port, pixel, f.hPositive, f.vPositive)
  }

  /** Which fields make a mode the decoder accepts, in numbers; d is the divider, port, pixel and refresh
      are the clocks. */
  lemma SupportedOnFields(f: Fields, d: nat, port: nat, pixel: nat, refresh: nat)
    requires d == f.p * f.q * f.k * 5
    requires d > 0 ==>
               port == ((f.integer * 32768 + f.fraction * (if f.refCode == 2 then 2 else 1)) *
                        (if f.refCode == 0 then 24000000 else 19200000) + d * 32768 / 2) / (d * 32768)
    requires f.linkN > 0 ==> pixel == (port * f.linkM + f.linkN / 2) / f.linkN
    requires f.hTotal * f.vTotal > 0 ==>
               refresh == (pixel * 65536 + f.hTotal * f.vTotal / 2) / (f.hTotal * f.vTotal)
    ensures Supported(f) <==>
            (f.route && f.enabled && !f.variable && !f.interlaced && f.pll <= 1 && f.locked && f.refCode <= 2 &&
             f.p > 0 && f.q > 0 && f.k > 0 && d > 0 && f.linkM > 0 && f.linkN > 0 && 0 < port <= 810000000 &&
             f.hActive <= f.hSyncStart < f.hSyncEnd <= f.hTotal && f.vActive <= f.vSyncStart < f.vSyncEnd <= f.vTotal &&
             f.hTotal * f.vTotal > 0 && 0 < refresh <= 0xFFFF_FFFF && f.bpcCode <= 3 && f.lanes in {1, 2, 4} &&
             pixel * 3 * [8, 10, 6, 12][f.bpcCode] <= port * 8 * f.lanes)
  {
    assert d == Divider(f);
  }

  // ---- bounds ----

  lemma DividerBounds(f: Fields)
    requires f.Ranges() && f.p > 0 && f.q > 0 && f.k > 0
    ensures 0 < Divider(f) <= 26775
  {
    assert f.p * f.q <= 7 * 255;
    assert f.p * f.q * f.k <= 7 * 255 * 3;
    assert f.p * f.q >= 1;
  }

  lemma DcoBounds(f: Fields)
    requires f.Ranges()
    ensures Dco(f) < 0x4_0000_0000_0000
  {
  }

  lemma RoundBounds(a: nat, b: nat)
    requires b > 0
    ensures Round(a, b) <= a + 1 && b * Round(a, b) <= a + b / 2
  {
    var n := a + b / 2;
    Below(n, b);
    if b >= 2 {
      assert n <= b * (a + 1) by { Grows(a + 1, b); }
      QuotientSmaller(n, b, a + 1);
    }
  }

  lemma Below(n: nat, b: nat)
    requires b > 0
    ensures b * (n / b) <= n < b * (n / b) + b
  {
  }

  lemma Grows(a: nat, b: nat)
    requires b >= 2 && a >= 1
    ensures a - 1 + b / 2 <= b * a
  {
    assert b * a >= b && b * a >= 2 * a;
  }

  lemma QuotientSmaller(n: nat, b: nat, q: nat)
    requires b > 0 && n <= b * q
    ensures n / b <= q
  {
    Below(n, b);
    var k := n / b;
    assert b * (q + 1) == b * q + b;
    assert k > q ==> b * k >= b * (q + 1);
  }

  lemma PixelBounds(port: nat, linkM: nat, linkN: nat)
    requires 0 < port <= 810000000 && linkM < 0x100_0000 && 0 < linkN < 0x100_0000
    ensures port * linkM + linkN / 2 < 0x40_0000_0000_0000 && Round(port * linkM, linkN) < 0x40_0000_0000_0000
  {
    assert port * linkM <= 810000000 * 0x100_0000;
    RoundBounds(port * linkM, linkN);
  }

  /** The link's bandwidth bounds the pixel clock so far that the refresh product cannot wrap. */
  lemma LinkBoundsPixels(pixel: nat, port: nat, bpc: nat, lanes: nat)
    requires pixel * 3 * bpc <= port * 8 * lanes && port <= 810000000 && bpc >= 6 && lanes <= 4
    ensures pixel <= 1440000000
  {
    assert port * 8 * lanes <= 810000000 * 8 * 4;
    assert pixel * 3 * bpc >= pixel * 3 * 6;
  }

  lemma ProductBounds(a: nat, b: nat, most: nat)
    requires 0 < a <= most && 0 < b <= most
    ensures 0 < a * b <= most * most
  {
    assert a * b <= most * b;
    assert most * b <= most * most;
    assert 1 * b <= a * b;
  }

  lemma GeometryTotals(f: Fields)
    requires f.Ranges() && GeometryOk(f)
    ensures 0 < f.hTotal * f.vTotal <= 0x1_0000_0000
  {
    ProductBounds(f.hTotal, f.vTotal, 0x1_0000);
  }

  /** The refresh computation is exact exactly when its product does not wrap. */
  lemma RefreshExactly(pixel: nat, total: nat)
    requires 0 < total <= 0x1_0000_0000
    ensures Wrap(pixel * 65536 + total / 2) / total == Round(pixel * 65536, total) <==> pixel * 65536 + total / 2 < TOP
  {
    var n := pixel * 65536 + total / 2;
    if n >= TOP {
      var w := Wrap(n);
      assert n == TOP * (n / TOP) + w && n / TOP >= 1;
      Below(n, total);
      Below(w, total);
      var whole, wrapped := n / total, w / total;
      assert wrapped == whole ==> n - w < total;
    }
  }

  /** Where the link check passes, it is exact. */
  lemma LinkMakesRefreshExact(pixel: nat, port: nat, bpc: nat, lanes: nat, total: nat)
    requires pixel * 3 * bpc <= port * 8 * lanes && port <= 810000000 && bpc >= 6 && lanes <= 4 &&
             0 < total <= 0x1_0000_0000
    ensures MachineRefresh(pixel, total) == Round(pixel * 65536, total)
  {
    LinkBoundsPixels(pixel, port, bpc, lanes);
    RefreshExactly(pixel, total);
  }

  // ---- the decoder ----

  lemma WrapSmall(n: nat)
    requires n < TOP
    ensures Wrap(n) == n
  {
  }

  function Over(a: nat, b: nat): nat
    requires b > 0
  {
    a / b
  }

  /** The port clock as computed, in 64 bits, from the oscillator and the divider. */
  function MachinePort(dco: nat, divider: nat): nat
    requires divider > 0
  {
    Over(Wrap(Wrap(dco) + divider * 16384), divider * 32768)
  }

  lemma PortExact(f: Fields)
    requires f.Ranges() && f.p > 0 && f.q > 0 && f.k > 0
    ensures Divider(f) > 0 && MachinePort(Dco(f), Divider(f)) == PortClock(f)
  {
    DividerBounds(f);
    DcoBounds(f);
    WrapSmall(Dco(f));
    WrapSmall(Dco(f) + Divider(f) * 16384);
    HalfOf(Divider(f));
  }

  lemma HalfOf(d: nat)
    ensures d * 32768 / 2 == d * 16384
  {
  }

  function MachinePixel(port: nat, linkM: nat, linkN: nat): nat
    requires linkN > 0
  {
    Wrap(port * linkM + linkN / 2) / linkN
  }

  lemma PixelExact(port: nat, linkM: nat, linkN: nat)
    requires 0 < port <= 810000000 && linkM < 0x100_0000 && 0 < linkN < 0x100_0000
    ensures MachinePixel(port, linkM, linkN) == Round(port * linkM, linkN) < 0x40_0000_0000_0000
  {
    PixelBounds(port, linkM, linkN);
    WrapSmall(port * linkM + linkN / 2);
  }

  /** Whether the rest of the decoder accepts these clocks, and what it fills in. */
  predicate RateOk(f: Fields, port: nat, pixel: nat, total: nat)
    requires total > 0
  {
    0 < Round(pixel * 65536, total) < 0x1_0000_0000 && LinkOk(f, pixel, port)
  }

  predicate PortOk(f: Fields) {
    f.linkM > 0 && f.linkN > 0 && Divider(f) > 0 && 0 < PortClock(f) <= 810000000
  }

  /** The refresh rate as computed fits its field. */
  predicate RefreshFits(f: Fields) {
    PortOk(f) && f.hTotal * f.vTotal > 0 && 0 < MachineRefresh(PixelClock(f), f.hTotal * f.vTotal) < 0x1_0000_0000
  }

  predicate LanesOk(f: Fields) { f.lanes == 1 || f.lanes == 2 || f.lanes == 4 }

  predicate BandwidthOk(f: Fields) {
    PortOk(f) && PixelClock(f) * 3 * Bpc(f.bpcCode) <= PortClock(f) * 8 * f.lanes
  }

  /** The checks in the source's order. All but the refresh rate are in exact arithmetic. */
  function InOrder(f: Fields): seq<Check<Status>> { FieldChecks(f) + ClockChecks(f) }

  function FieldChecks(f: Fields): seq<Check<Status>> { RouteChecks(f) + PllChecks(f) }

  function RouteChecks(f: Fields): seq<Check<Status>> {
    [Check(f.route, Route), Check(f.enabled, Disabled), Check(!f.variable, VariableRefresh),
     Check(!f.interlaced, Geometry)]
  }

  function PllChecks(f: Fields): seq<Check<Status>> {
    [Check(f.pll <= 1, PLL), Check(f.locked, PLL), Check(f.refCode <= 2, Clock),
     Check(f.p > 0 && f.k > 0 && f.q > 0, PLL)]
  }

  function ClockChecks(f: Fields): seq<Check<Status>> {
    [Check(PortOk(f), Clock), Check(GeometryOk(f), Geometry), Check(RefreshFits(f), Clock), Check(f.bpcCode <= 3, Link),
     Check(LanesOk(f), Link), Check(BandwidthOk(f), Link)]
  }

  /** What the checks on the fields alone come to. */
  function RouteStatus(f: Fields): Status {
    if !f.route then Route
    else if !f.enabled then Disabled
    else if f.variable then VariableRefresh
    else if f.interlaced then Geometry
    else OK
  }

  function PllStatus(f: Fields): Status {
    if f.pll > 1 || !f.locked then PLL
    else if f.refCode > 2 then Clock
    else if f.p == 0 || f.k == 0 || f.q == 0 then PLL
    else OK
  }

  lemma RouteVerdict(f: Fields)
    ensures Verdict(RouteChecks(f), OK) == RouteStatus(f) && (AllPass(RouteChecks(f)) <==> RouteStatus(f) == OK)
  {
    var checks := RouteChecks(f);
    if !f.route {
      assert FirstFailing(checks, 0);
    } else if !f.enabled {
      assert FirstFailing(checks, 1);
    } else if f.variable {
      assert FirstFailing(checks, 2);
    } else if f.interlaced {
      assert FirstFailing(checks, 3);
    } else {
      assert AllPass(checks);
    }
  }

  lemma PllVerdict(f: Fields)
    ensures Verdict(PllChecks(f), OK) == PllStatus(f) && (AllPass(PllChecks(f)) <==> PllStatus(f) == OK)
  {
    var checks := PllChecks(f);
    if f.pll > 1 {
      assert FirstFailing(checks, 0);
    } else if !f.locked {
      assert FirstFailing(checks, 1);
    } else if f.refCode > 2 {
      assert FirstFailing(checks, 2);
    } else if f.p == 0 || f.k == 0 || f.q == 0 {
      assert FirstFailing(checks, 3);
    } else {
      assert AllPass(checks);
    }
  }

  /** A verdict on the fields, or else one on the clocks. */
  lemma FieldVerdict(f: Fields)
    ensures Verdict(InOrder(f), OK)
            == if RouteStatus(f) != OK then RouteStatus(f)
               else if PllStatus(f) != OK then PllStatus(f)
               else Verdict(ClockChecks(f), OK)
  {
    RouteVerdict(f);
    PllVerdict(f);
    VerdictAppend(PllChecks(f), ClockChecks(f), OK);
    VerdictAppend(RouteChecks(f), PllChecks(f) + ClockChecks(f), OK);
    assert InOrder(f) == RouteChecks(f) + (PllChecks(f) + ClockChecks(f));
  }

  /** The clocks of a mode the decoder accepts, on the registers: the oscillator runs at c0's multiple of
      the reference, in 1 / 32768, is divided by 5 p q k for the port, and the link ratio gives the pixel
      clock; each is rounded half up. */
  lemma ClocksOnRegisters(reg: nat -> word, m: Mode, c0: nat, c1: nat, p: nat, q: nat, k: nat, d: nat)
    requires Supported(Read(reg)) && Describes(m, Read(reg))
    requires c0 == reg(if m.pll == 0 then 0x164284 else 0x16428c)
    requires c1 == reg(if m.pll == 0 then 0x164288 else 0x164290)
    requires p == (match c1 / 4 % 16 case 1 => 2 case 2 => 3 case 4 => 5 case 8 => 7 case _ => 0)
    requires k == (match c1 / 0x40 % 8 case 1 => 1 case 2 => 2 case 4 => 3 case _ => 0)
    requires q == (if c1 / 0x200 % 2 == 1 then c1 / 0x400 % 256 else 1) && d == p * q * k * 5
    ensures d > 0 && reg(0x60044) % 0x100_0000 > 0 && m.hTotal * m.vTotal > 0
    ensures var code := reg(0x51004) / 0x2000_0000;
            var fraction := c0 / 0x400 % 0x8000 * (if code == 2 then 2 else 1);
            var reference := if code == 0 then 24000000 else 19200000;
            code <= 2 &&
            m.portClockHz == ((c0 % 0x400 * 32768 + fraction) * reference + d * 32768 / 2) / (d * 32768)
    ensures var linkN := reg(0x60044) % 0x100_0000;
            m.pixelClockHz == (m.portClockHz * (reg(0x60040) % 0x100_0000) + linkN / 2) / linkN
    ensures m.refresh1616 == (m.pixelClockHz * 65536 + m.hTotal * m.vTotal / 2) / (m.hTotal * m.vTotal)
    ensures 0 < m.portClockHz <= 810000000 && m.pixelClockHz * 3 * m.bpc <= m.portClockHz * 8 * m.lanes
  {
    var f := Read(reg);
    PartsOnRegisters(reg, f);
    ClocksOf(f, m, d);
  }

  lemma ClocksOf(f: Fields, m: Mode, d: nat)
    requires Supported(f) && Describes(m, f) && d == f.p * f.q * f.k * 5
    ensures d > 0 && f.linkN > 0 && m.hTotal * m.vTotal > 0 && f.refCode <= 2
    ensures var fraction := f.fraction * (if f.refCode == 2 then 2 else 1);
            var reference := if f.refCode == 0 then 24000000 else 19200000;
            m.portClockHz == ((f.integer * 32768 + fraction) * reference + d * 32768 / 2) / (d * 32768)
    ensures m.pixelClockHz == (m.portClockHz * f.linkM + f.linkN / 2) / f.linkN
    ensures m.refresh1616 == (m.pixelClockHz * 65536 + m.hTotal * m.vTotal / 2) / (m.hTotal * m.vTotal)
    ensures 0 < m.portClockHz <= 810000000 && m.pixelClockHz * 3 * m.bpc <= m.portClockHz * 8 * m.lanes
  {
    assert d == Divider(f);
  }

  /** Decode the running mode. It is accepted exactly when it is supported in exact arithmetic, and
      then every number in it is the exact one, correctly rounded. Otherwise the status is that of the
      first check that fails. */
  method Decode(reg: nat -> word) returns (status: Status, m: Mode)
    ensures status == Verdict(InOrder(Read(reg)), OK)
    ensures status == OK <==> Supported(Read(reg))
    ensures status == OK ==> Describes(m, Read(reg))
    ensures status == Route <==>
              reg(0x60400) / 0x800_0000 % 16 != 1 || reg(0x60400) / 0x100_0000 % 8 != 2 ||
              reg(0x46140) / 0x1000_0000 != 1
    ensures status == Disabled <==>
              status != Route && (reg(0x60400) < 0x8000_0000 || reg(0x70008) / 0x4000_0000 % 2 == 0 ||
                                  reg(0x164280) / 0x400 % 2 == 1)
    ensures status == VariableRefresh <==>
              status != Route && status != Disabled &&
              (reg(0x60420) >= 0x8000_0000 || reg(0x6042c) / 0x800_0000 % 2 == 1)
    ensures status == OK ==>
              reg(0x70008) / 0x20_0000 % 8 == 0 && m.pll == reg(0x164280) % 4 <= 1 &&
              reg(if m.pll == 0 then 0x46010 else 0x46014) >= 0xC000_0000
    ensures status == OK ==>
              m.hActive == reg(0x60000) % 0x1_0000 + 1 && m.hTotal == reg(0x60000) / 0x1_0000 + 1 &&
              m.hSyncStart == reg(0x60008) % 0x1_0000 + 1 && m.hSyncEnd == reg(0x60008) / 0x1_0000 + 1 &&
              m.vActive == reg(0x6000c) % 0x1_0000 + 1 && m.vTotal == reg(0x6000c) / 0x1_0000 + 1 &&
              m.vSyncStart == reg(0x60014) % 0x1_0000 + 1 && m.vSyncEnd == reg(0x60014) / 0x1_0000 + 1
    ensures status == OK ==>
              reg(0x60400) / 0x10_0000 % 8 <= 3 && m.bpc == [8, 10, 6, 12][reg(0x60400) / 0x10_0000 % 8] &&
              m.lanes == reg(0x60400) / 2 % 8 + 1 && m.lanes in {1, 2, 4} &&
              (m.hPositive <==> reg(0x60400) / 0x1_0000 % 2 == 1) &&
              (m.vPositive <==> reg(0x60400) / 0x2_0000 % 2 == 1)
  {
    var f := Read(reg);
    FlagsOnRegisters(reg, f);
    SizesOnRegisters(reg, f);
    PartsOnRegisters(reg, f);
    status, m := DecodeFields(f);
  }

  /** The same, on the fields. */
  method DecodeFields(f: Fields) returns (status: Status, m: Mode)
    requires f.Ranges()
    ensures status == Verdict(InOrder(f), OK)
    ensures status == OK <==> Supported(f)
    ensures status == OK ==> Describes(m, f)
    ensures RouteStatus(f) != OK ==> status == RouteStatus(f)
    ensures RouteStatus(f) == OK ==> status != Route && status != Disabled && status != VariableRefresh
  {
    m := BLANK;
    FieldVerdict(f);
    if !f.route { return Route, m; }
    if !f.enabled { return Disabled, m; }
    if f.variable { return VariableRefresh, m; }
    if f.interlaced { return Geometry, m; }
    m := m.(pll := f.pll);
    if f.pll > 1 { return PLL, m; }
    if !f.locked { return PLL, m; }
    if f.refCode > 2 { return Clock, m; }
    if f.p == 0 || f.k == 0 || f.q == 0 { return PLL, m; }
    status, m := DecodeClocks(f, m);
  }

  /** The clocks, the geometry and the rate, once the fields are readable. */
  method DecodeClocks(f: Fields, start: Mode) returns (status: Status, m: Mode)
    requires f.Ranges() && Readable(f)
    ensures status == Verdict(ClockChecks(f), OK)
    ensures status == OK <==> Supported(f)
    ensures status == OK ==> Describes(m, f)
    ensures status in {OK, Clock, Geometry, Link}
  {
    ghost var checks := ClockChecks(f);
    PortExact(f);
    var port := MachinePort(Dco(f), Divider(f));
    m := start.(portClockHz := port);
    if f.linkM == 0 || f.linkN == 0 || port == 0 || port > 810000000 {
      assert FirstFailing(checks, 0);
      return Clock, m;
    }
    PixelExact(port, f.linkM, f.linkN);
    var pixel := MachinePixel(port, f.linkM, f.linkN);
    if !GeometryOk(f) { assert FirstFailing(checks, 1); return Geometry, m.(pixelClockHz := pixel); }
    GeometryTotals(f);
    assert Supported(f) <==> RateOk(f, port, pixel, f.hTotal * f.vTotal);
    status, m := DecodeRate(f, port, pixel, f.hTotal * f.vTotal);
    RateVerdict(f, port, pixel, f.hTotal * f.vTotal, status);
  }

  /** The checks of the rate and the link. */
  function RateInOrder(f: Fields, port: nat, pixel: nat, total: nat): seq<Check<Status>>
    requires total > 0
  {
    [Check(0 < MachineRefresh(pixel, total) < 0x1_0000_0000, Clock), Check(f.bpcCode <= 3, Link),
     Check(LanesOk(f), Link),
     Check(pixel * 3 * Bpc(f.bpcCode) <= port * 8 * f.lanes, Link)]
  }

  lemma RateVerdict(f: Fields, port: nat, pixel: nat, total: nat, status: Status)
    requires Readable(f) && PortOk(f) && GeometryOk(f) && port == PortClock(f) && pixel == PixelClock(f)
    requires total == f.hTotal * f.vTotal > 0 && status == Verdict(RateInOrder(f, port, pixel, total), OK)
    ensures status == Verdict(ClockChecks(f), OK)
  {
    var first: seq<Check<Status>> := [Check(true, Clock), Check(true, Geometry)];
    assert ClockChecks(f) == first + RateInOrder(f, port, pixel, total);
    VerdictAppend(first, RateInOrder(f, port, pixel, total), OK);
  }

  /** The refresh rate and the link, for good geometry. */
  method DecodeRate(f: Fields, port: nat, pixel: nat, total: nat) returns (status: Status, m: Mode)
    requires f.Ranges() && 0 < port <= 810000000 && pixel < 0x40_0000_0000_0000 && 0 < total <= 0x1_0000_0000
    ensures status == Verdict(RateInOrder(f, port, pixel, total), OK)
    ensures status == OK <==> RateOk(f, port, pixel, total)
    ensures status == OK ==> m == Filled(f, port, pixel, Round(pixel * 65536, total))
    ensures status in {OK, Clock, Link}
  {
    m := Mode(f.hActive, f.hTotal, f.hSyncStart, f.hSyncEnd, f.vActive, f.vTotal, f.vSyncStart, f.vSyncEnd,
              0, f.pll, 0, 0, port, pixel, false, false);
    ghost var checks := RateInOrder(f, port, pixel, total);
    var refresh := MachineRefresh(pixel, total);
    if LinkOk(f, pixel, port) { LinkMakesRefreshExact(pixel, port, Bpc(f.bpcCode), f.lanes, total); }
    if refresh == 0 || refresh > 0xffff_ffff { assert FirstFailing(checks, 0); return Clock, m; }
    m := m.(refresh1616 := refresh);
    if f.bpcCode > 3 { assert FirstFailing(checks, 1); return Link, m; }
    m := m.(bpc := Bpc(f.bpcCode), lanes := f.lanes);
    if m.lanes != 1 && m.lanes != 2 && m.lanes != 4 { assert FirstFailing(checks, 2); return Link, m; }
    if !MachineLink(pixel, m.bpc, port, m.lanes) { assert FirstFailing(checks, 3); return Link, m; }
    m := m.(hPositive := f.hPositive, vPositive := f.vPositive);
    assert AllPass(checks);
    status := OK;
  }

  function MachineRefresh(pixel: nat, total: nat): nat
    requires total > 0
  {
    Wrap(pixel * 65536 + total / 2) / total
  }

  /** The bandwidth comparison in 64 bits, which is wide enough for it. */
  predicate MachineLink(pixel: nat, bpc: nat, port: nat, lanes: nat)
    requires pixel < 0x40_0000_0000_0000 && bpc <= 12 && port <= 810000000 && lanes <= 4
    ensures MachineLink(pixel, bpc, port, lanes) <==> pixel * 3 * bpc <= port * 8 * lanes
  {
    LinkFits(pixel, bpc, port, lanes);
    Wrap(pixel * 3 * bpc) <= Wrap(port * 8 * lanes)
  }

  lemma LinkFits(pixel: nat, bpc: nat, port: nat, lanes: nat)
    requires pixel < 0x40_0000_0000_0000 && bpc <= 12 && port <= 810000000 && lanes <= 4
    ensures pixel * 3 * bpc < TOP && port * 8 * lanes < TOP
  {
    assert pixel * 3 * bpc <= pixel * 3 * 12;
    assert port * 8 * lanes <= port * 8 * 4;
  }

  // ---- registers whose refresh rate wraps ----

  /** 1920 by 1080 at 192 MHz on the port, and a link ratio as large as the register holds. */
  function FastLink(address: nat): word {
    match address
    case 0x60400 => 0x8a03_0006
    case 0x46140 => 0x1000_0000
    case 0x70008 => 0x4000_0000
    case 0x46010 => 0xc000_0000
    case 0x51004 => 0x2000_0000
    case 0x164284 => 100
    case 0x164288 => 0x44
    case 0x60040 => 0xff_ffff
    case 0x60044 => 1
    case 0x60000 => 2199 * 0x1_0000 + 1919
    case 0x60008 => 2049 * 0x1_0000 + 1999
    case 0x6000c => 1124 * 0x1_0000 + 1079
    case 0x60014 => 1088 * 0x1_0000 + 1083
    case _ => 0
  }

  const FAST := Fields(true, true, false, false, 0, true, 1, 100, 0, 2, 1, 1, 0xff_ffff, 1,
                       1920, 2200, 2000, 2050, 1080, 1125, 1084, 1089, 0, 4, true, true)

  lemma FastIsRead()
    ensures Read(FastLink) == FAST
  {
  }

  lemma FastClocks()
    ensures Divider(FAST) == 10 && PortClock(FAST) == 192000000 && PixelClock(FAST) == 192000000 * 0xff_ffff
  {
    assert Divider(FAST) == 10 && Dco(FAST) == 62914560000000;
  }

  /** Registers that pass every check before the refresh rate, and make its product wrap: the rate comes
      out wrong. */
  lemma RefreshCanWrap() returns (reg: nat -> word, f: Fields)
    ensures f == Read(reg) && AllPass(FieldChecks(f)) && PortOk(f) && GeometryOk(f)
    ensures f.hTotal * f.vTotal > 0 && PixelClock(f) * 65536 >= TOP
    ensures MachineRefresh(PixelClock(f), f.hTotal * f.vTotal) != Refresh(f)
  {
    reg, f := FastLink, FAST;
    FastIsRead();
    FastClocks();
    GeometryTotals(f);
    RefreshExactly(PixelClock(f), f.hTotal * f.vTotal);
  }

  /** Blanking, sync offset and pulse width of one direction. */
  datatype Porch = Porch(blank: nat, offset: nat, pulse: nat)

  /** The blanking is what the total has beyond the active part, and offset and pulse lie in it. */
  predicate PorchOk(porch: Porch, active: nat, total: nat, start: nat, end: nat) {
    active + porch.blank == total && active + porch.offset == start && start + porch.pulse == end &&
    porch.blank > 0 && porch.pulse > 0 && porch.offset + porch.pulse <= porch.blank
  }

  /** What an accepted mode gives the display driver, in both directions: blanking is positive, the sync
      offset is not negative, the pulse is positive, and both fit in the blanking. */
  method BlankingOf(reg: nat -> word) returns (ok: bool, h: Porch, v: Porch)
    ensures ok <==> Supported(Read(reg))
    ensures ok ==>
              var f := Read(reg);
              PorchOk(h, f.hActive, f.hTotal, f.hSyncStart, f.hSyncEnd) &&
              PorchOk(v, f.vActive, f.vTotal, f.vSyncStart, f.vSyncEnd)
  {
    var status, m := Decode(reg);
    ok, h, v := status == OK, Porch(0, 0, 0), Porch(0, 0, 0);
    if ok {
      h := Porch(m.hTotal - m.hActive, m.hSyncStart - m.hActive, m.hSyncEnd - m.hSyncStart);
      v := Porch(m.vTotal - m.vActive, m.vSyncStart - m.vActive, m.vSyncEnd - m.vSyncStart);
    }
  }
}
