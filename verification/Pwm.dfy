/** Backlight conversions (pwm.hpp): user levels 0..255 and linear levels 0..65535 against a PWM duty
    of `period` steps. Arguments are 32-bit, products are taken in 64 bits, results cast to 32. */
module Pwm {
  import opened Words

  const LINEAR := 65535

  function Cast(n: nat): word { n % 0x1_0000_0000 }

  function ToDuty(level: word, period: word): word { Cast((level * period + 127) / 255) }

  function ToUser(duty: word, period: word): word {
    if period == 0 then 0 else Cast((duty * 255 + period / 2) / period)
  }

  function LinearToDuty(level: word, period: word): word { Cast((level * period + LINEAR / 2) / LINEAR) }

  function DutyToLinear(duty: word, period: word): word {
    if period == 0 then 0 else Cast((duty * LINEAR + period / 2) / period)
  }

  function UserToLinear(level: word): word { Cast(level * 257) }

  function LinearToUser(level: word): word { Cast((level + 128) % 0x1_0000_0000 / 257) }

  function MinimumPanelDuty(period: word): word { Cast((period + 99) / 100) }

  function PanelDuty(level: word, period: word): word {
    var requested, minimum := LinearToDuty(level, period), MinimumPanelDuty(period);
    if requested < minimum then minimum else requested
  }

  // ---- division ----

  lemma Quotient(n: nat, m: nat)
    requires m > 0
    ensures m * (n / m) <= n < m * (n / m) + m
  {
  }

  /** The quotient is the only number that fits. */
  lemma QuotientIs(n: nat, m: nat, q: nat)
    requires m > 0 && m * q <= n < m * q + m
    ensures n / m == q
  {
    var r := n / m;
    Quotient(n, m);
    Times(m, r + 1, q);
    Times(m, q + 1, r);
    assert m * (r + 1) == m * r + m && m * (q + 1) == m * q + m;
  }

  lemma Times(m: nat, a: int, b: int)
    ensures a <= b ==> m * a <= m * b
  {
  }

  /** Scaling `level` of `top` levels to `period` steps, rounded to nearest (top is odd). */
  function Scale(level: nat, period: nat, top: nat): nat
    requires top > 0
  {
    (level * period + top / 2) / top
  }

  function Back(duty: nat, period: nat, top: nat): nat
    requires period > 0
  {
    (duty * top + period / 2) / period
  }

  lemma ScaleBounds(level: nat, period: nat, top: nat)
    requires top > 0 && top % 2 == 1
    ensures var d := Scale(level, period, top); level * period - top / 2 <= top * d <= level * period + top / 2
  {
    Quotient(level * period + top / 2, top);
  }

  lemma ScaleFull(period: nat, top: nat)
    requires top > 0
    ensures Scale(top, period, top) == period
  {
    assert top * period <= top * period + top / 2 < top * period + top;
    QuotientIs(top * period + top / 2, top, period);
  }

  lemma ScaleMonotone(a: nat, b: nat, period: nat, top: nat)
    requires a <= b && top > 0
    ensures Scale(a, period, top) <= Scale(b, period, top)
  {
    Times(period, a, b);
    var x, y := a * period + top / 2, b * period + top / 2;
    Quotient(x, top);
    Quotient(y, top);
    Times(top, y / top + 1, x / top);
    assert top * (y / top + 1) == top * (y / top) + top;
  }

  lemma ScaleFits(level: nat, period: nat, top: nat)
    requires level <= top && top > 0
    ensures Scale(level, period, top) <= period
  {
    ScaleMonotone(level, top, period, top);
    ScaleFull(period, top);
  }

  /** Back undoes Scale when there are at least as many steps as levels. */
  lemma BackExact(level: nat, period: nat, top: nat)
    requires top > 0 && top % 2 == 1 && period >= top
    ensures Back(Scale(level, period, top), period, top) == level
  {
    var d := Scale(level, period, top);
    ScaleBounds(level, period, top);
    var n := d * top + period / 2;
    assert d * top == top * d && level * period == period * level;
    assert period * level <= n < period * level + period;
    QuotientIs(n, period, level);
  }

  /** ... and is off by at most one from a third of that on. */
  lemma BackWithinOne(level: nat, period: nat, top: nat)
    requires top > 0 && top % 2 == 1 && 3 * period >= top
    ensures level - 1 <= Back(Scale(level, period, top), period, top) <= level + 1
  {
    var d := Scale(level, period, top);
    ScaleBounds(level, period, top);
    assert d * top == top * d && level * period == period * level;
    NearQuotient(d * top + period / 2, level, period);
  }

  lemma NearQuotient(n: nat, level: nat, period: nat)
    requires period > 0 && period * level - period <= n < period * level + 2 * period
    ensures level - 1 <= n / period <= level + 1
  {
    var r := n / period;
    Quotient(n, period);
    Times(period, level + 2, r);
    assert period * (level + 2) == period * level + 2 * period;
    Times(period, r + 1, level - 1);
    assert period * (r + 1) == period * r + period && period * (level - 1) == period * level - period;
  }

  /** Levels far enough apart get different duties, so that many steps are needed. */
  lemma {:induction false} Climbs(k: nat, gap: nat, period: nat, top: nat)
    requires top > 0 && gap > 0 && gap * k <= top
    requires forall v :: 0 <= v && v + gap <= top ==> Scale(v, period, top) < Scale(v + gap, period, top)
    ensures Scale(gap * k, period, top) >= k
  {
    if k > 0 {
      assert gap * k == gap * (k - 1) + gap;
      Climbs(k - 1, gap, period, top);
    }
  }

  lemma Spread(gap: nat, period: nat, top: nat)
    requires top > 0 && period > 0 && gap > 0
    requires forall v :: 0 <= v <= top ==>
             2 * v - gap + 1 <= 2 * Back(Scale(v, period, top), period, top) <= 2 * v + gap - 1
    ensures forall v :: 0 <= v && v + gap <= top ==> Scale(v, period, top) < Scale(v + gap, period, top)
  {
    forall v | 0 <= v && v + gap <= top ensures Scale(v, period, top) < Scale(v + gap, period, top) {
      ScaleMonotone(v, v + gap, period, top);
      assert 2 * Back(Scale(v, period, top), period, top) <= 2 * v + gap - 1;
      assert 2 * (v + gap) - gap + 1 <= 2 * Back(Scale(v + gap, period, top), period, top);
    }
  }

  // ---- the casts lose nothing ----

  lemma DutyIs(level: word, period: word)
    requires level <= 255
    ensures ToDuty(level, period) == Scale(level, period, 255) <= period
  {
    ScaleFits(level, period, 255);
  }

  lemma LinearDutyIs(level: word, period: word)
    requires level <= LINEAR
    ensures LinearToDuty(level, period) == Scale(level, period, LINEAR) <= period
  {
    ScaleFits(level, period, LINEAR);
  }

  lemma BackFits(duty: nat, period: nat, top: nat)
    requires duty <= period && period > 0 && top > 0
    ensures Back(duty, period, top) <= top
  {
    Times(top, duty, period);
    var n := duty * top + period / 2;
    assert duty * top == top * duty && n < period * top + period;
    Quotient(n, period);
    Times(period, top + 1, n / period);
    assert period * (top + 1) == period * top + period;
  }

  lemma UserIs(level: word, period: word)
    requires level <= 255 && period > 0
    ensures ToUser(ToDuty(level, period), period) == Back(Scale(level, period, 255), period, 255)
  {
    DutyIs(level, period);
    BackFits(Scale(level, period, 255), period, 255);
  }

  lemma LinearIs(level: word, period: word)
    requires level <= LINEAR && period > 0
    ensures DutyToLinear(LinearToDuty(level, period), period) == Back(Scale(level, period, LINEAR), period, LINEAR)
  {
    LinearDutyIs(level, period);
    BackFits(Scale(level, period, LINEAR), period, LINEAR);
  }

  // ---- round trips, with exact thresholds ----

  predicate UserRoundTrips(period: word) {
    forall v: word :: v <= 255 ==> ToUser(ToDuty(v, period), period) == v
  }

  /** All user levels survive exactly when there are at least 255 steps. */
  lemma UserRoundTripExactly(period: word)
    ensures UserRoundTrips(period) <==> period >= 255
  {
    if period >= 255 {
      forall v: word | v <= 255 ensures ToUser(ToDuty(v, period), period) == v {
        UserIs(v, period);
        BackExact(v, period, 255);
      }
    }
    if UserRoundTrips(period) {
      assert ToUser(ToDuty(1, period), period) == 1;
      forall v | 0 <= v <= 255 ensures 2 * v - 1 + 1 <= 2 * Back(Scale(v, period, 255), period, 255) <= 2 * v + 1 - 1 {
        UserIs(v, period);
      }
      Spread(1, period, 255);
      Climbs(255, 1, period, 255);
      ScaleFull(period, 255);
    }
  }

  predicate LinearRoundTrips(period: word, slack: nat) {
    forall v: word :: v <= LINEAR ==> v - slack <= DutyToLinear(LinearToDuty(v, period), period) <= v + slack
  }

  /** All linear levels survive exactly when there are at least 65535 steps. */
  lemma LinearRoundTripExactly(period: word)
    ensures LinearRoundTrips(period, 0) <==> period >= LINEAR
  {
    if period >= LINEAR {
      forall v: word | v <= LINEAR ensures DutyToLinear(LinearToDuty(v, period), period) == v {
        LinearIs(v, period);
        BackExact(v, period, LINEAR);
      }
    }
    if LinearRoundTrips(period, 0) {
      assert DutyToLinear(LinearToDuty(1, period), period) == 1;
      forall v | 0 <= v <= LINEAR ensures 2 * v - 1 + 1 <= 2 * Back(Scale(v, period, LINEAR), period,
          LINEAR) <= 2 * v + 1 - 1 {
        LinearIs(v, period);
      }
      Spread(1, period, LINEAR);
      Climbs(LINEAR, 1, period, LINEAR);
      ScaleFull(period, LINEAR);
    }
  }

  /** They come back within one exactly when there are at least 21845 steps. */
  lemma LinearWithinOneExactly(period: word)
    ensures LinearRoundTrips(period, 1) <==> period >= 21845
  {
    if period >= 21845 {
      forall v: word | v <= LINEAR ensures v - 1 <= DutyToLinear(LinearToDuty(v, period), period) <= v + 1 {
        LinearIs(v, period);
        BackWithinOne(v, period, LINEAR);
      }
    }
    if LinearRoundTrips(period, 1) {
      assert 2 - 1 <= DutyToLinear(LinearToDuty(2, period), period);
      forall v | 0 <= v <= LINEAR ensures 2 * v - 3 + 1 <= 2 * Back(Scale(v, period, LINEAR), period,
          LINEAR) <= 2 * v + 3 - 1 {
        var u: word := v;
        LinearIs(u, period);
        assert u - 1 <= DutyToLinear(LinearToDuty(u, period), period) <= u + 1;
      }
      Spread(3, period, LINEAR);
      Climbs(21845, 3, period, LINEAR);
      ScaleFull(period, LINEAR);
    }
  }

  /** Going through the linear scale gives the duty the user scale gives, for every period. */
  lemma ScalesAgree(level: word, period: word)
    requires level <= 255
    ensures LinearToDuty(UserToLinear(level), period) == ToDuty(level, period)
  {
    var wide := UserToLinear(level);
    Widened(level);
    DutyIs(level, period);
    LinearDutyIs(wide, period);
    ScaleAgree(level, wide, period);
  }

  lemma Widened(level: word)
    requires level <= 255
    ensures UserToLinear(level) == 257 * level <= LINEAR
  {
  }

  lemma ScaleAgree(level: nat, wide: nat, period: nat)
    requires wide == 257 * level
    ensures Scale(wide, period, LINEAR) == Scale(level, period, 255)
  {
    Regrouped(level, wide, period);
    SameQuotient(level * period, wide * period);
  }

  /** 65535 is 255 times 257, and both halves round down. */
  lemma SameQuotient(x: nat, y: nat)
    requires y == 257 * x
    ensures (y + 65535 / 2) / 65535 == (x + 255 / 2) / 255
  {
    var q := (x + 127) / 255;
    assert 65535 * q <= y + 32767 < 65535 * q + 65535;
    QuotientIs(y + 32767, 65535, q);
  }

  lemma Regrouped(level: nat, wide: nat, period: nat)
    requires wide == 257 * level
    ensures wide * period == 257 * (level * period)
  {
  }

  lemma LinearLevelsComeBack(level: word)
    requires level <= 255
    ensures LinearToUser(UserToLinear(level)) == level
  {
    Widened(level);
    QuotientIs(257 * level + 128, 257, level);
  }

  lemma MinimumBounds(period: word)
    requires period >= 1
    ensures period <= 100 * MinimumPanelDuty(period) && MinimumPanelDuty(period) <= period
  {
    Quotient(period + 99, 100);
  }

  /** The panel never goes below one percent, rounded up, nor above full; more level is never less
      light. */
  lemma PanelDutyBounds(a: word, b: word, period: word)
    requires a <= b <= LINEAR && period >= 1
    ensures PanelDuty(a, period) <= PanelDuty(b, period)
    ensures period <= 100 * PanelDuty(a, period) && PanelDuty(a, period) <= period
    ensures a * period - 32767 <= 65535 * LinearToDuty(a, period) <= a * period + 32767
    ensures LinearToDuty(a, period) <= PanelDuty(a, period)
    ensures PanelDuty(a, period) == LinearToDuty(a, period) || 100 * PanelDuty(a, period) < period + 100
  {
    LinearDutyIs(a, period);
    LinearDutyIs(b, period);
    ScaleBounds(a, period, LINEAR);
    MinimumBounds(period);
    ScaleMonotone(a, b, period, LINEAR);
  }
}
