/**
 Discipline of the ADC clock by GPS solutions: a moving average of measurements, with a
 narrow window against outliers. Doubles are modelled as reals, with infinity and no number
 where a division by zero makes them.
 */
module Clock {

  const WRAP: nat := 0x1_0000_0000_0000

  /** `time_diff48`. */
  function TimeDiff48(next: nat, prev: nat): int {
    if next >= prev then next - prev else (WRAP - 1 - prev) + next
  }

  /** The ticks that have passed between two readings of a 48-bit counter. */
  function Elapsed(next: nat, prev: nat): nat { (next - prev) % WRAP }

  /** The difference is right exactly when the counter has not wrapped; if it has, one tick
      is missing. */
  lemma TimeDiff48IsElapsed(next: nat, prev: nat)
    requires next < WRAP && prev < WRAP
    ensures TimeDiff48(next, prev) == Elapsed(next, prev) <==> next >= prev
    ensures next < prev ==> TimeDiff48(next, prev) == Elapsed(next, prev) - 1
  {
    if next < prev { assert next - prev == -1 * WRAP + (next - prev + WRAP); }
  }

  // ---- the average -------------------------------------------------------------------

  const ADC_CLOCK_TYP: real := 124999900.0
  const ADC_CLOCK_PPM_TYP: real := 50.0
  const MAX_OUTSIDE := 8
  const MMA_PERIODS: real := 32.0

  function PpmToHz(hz: real, ppm: real): real { hz * ppm / 1000000.0 }

  function Wide(): (w: real) ensures w > Narrow() { PpmToHz(ADC_CLOCK_TYP, ADC_CLOCK_PPM_TYP) }

  function Narrow(): (w: real) ensures w > 0.0 { PpmToHz(ADC_CLOCK_TYP, 1.0) }

  /** `clk.adc_clock_base`, the average (0 before the first), and the counters. */
  datatype Avg = Avg(base: real, mma: real, outside: nat, corrections: nat, gpsCorrections: nat, manual: int)

  function Window(s: Avg): (w: real)
    ensures w == Wide() || w == Narrow()
  {
    if s.corrections == 0 || s.outside > MAX_OUTSIDE then Wide() else Narrow()
  }

  predicate Accepts(s: Avg, m: real) { -Window(s) <= m - s.base <= Window(s) }

  /** One measurement of the clock. */
  function Measure(s: Avg, m: real): Avg {
    if !Accepts(s, m) then s.(outside := s.outside + 1)
    else
      var old_ := if s.mma == 0.0 then m else s.mma;
      var mma := (old_ * (MMA_PERIODS - 1.0) + m) / MMA_PERIODS;
      Avg(mma, mma, 0, s.corrections + 1, s.gpsCorrections + 1, 0)
  }

  function Adjust(s: Avg, adj: int): Avg { s.(manual := adj, corrections := s.corrections + 1) }

  // ---- whole runs --------------------------------------------------------------------

  /** What a division of doubles gives. */
  datatype Quotient = Finite(m: real) | Infinite | NaN

  function Measured(ticks: nat, secs: real): Quotient {
    if secs != 0.0 then Finite(ticks as real / secs) else if ticks == 0 then NaN else Infinite
  }

  /** The clock, or the counters of one that is no number. */
  datatype State = Known(avg: Avg) | Lost(outside: nat, corrections: nat, gpsCorrections: nat, manual: int)

  /** One solution. No comparison with what is no number holds, so it counts as inside every window;
      and what it is averaged with is no number either. */
  function Take(s: State, q: Quotient): State {
    match s
    case Lost(_, n, k, _) => Lost(0, n + 1, k + 1, 0)
    case Known(a) =>
      match q
      case Finite(m) => Known(Measure(a, m))
      case Infinite => Known(a.(outside := a.outside + 1))
      case NaN => Lost(0, a.corrections + 1, a.gpsCorrections + 1, 0)
  }

  function AdjustBy(s: State, adj: int): State {
    match s
    case Lost(_, n, _, _) => s.(manual := adj, corrections := n + 1)
    case Known(a) => Known(Adjust(a, adj))
  }

  datatype Event = Solution(q: Quotient) | Manual(adj: int)

  /** The clock with the least and greatest measurement accepted so far. */
  datatype History = History(s: State, least: real, greatest: real)

  predicate Accepted(s: State, q: Quotient) { s.Known? && q.Finite? && Accepts(s.avg, q.m) }

  function Apply(h: History, e: Event): History {
    match e
    case Manual(adj) => h.(s := AdjustBy(h.s, adj))
    case Solution(q) =>
      if !Accepted(h.s, q) then h.(s := Take(h.s, q))
      else
        var first := h.s.avg.gpsCorrections == 0;
        History(Take(h.s, q), if first || q.m < h.least then q.m else h.least,
                if first || q.m > h.greatest then q.m else h.greatest)
  }

  function Run(h: History, es: seq<Event>): History
    decreases |es|
  {
    if es == [] then h else Run(Apply(h, es[0]), es[1..])
  }

  /** From the first accepted measurement on, the base clock is the average, and lies between
      the least and the greatest measurement accepted. */
  predicate Bounded(h: History) {
    h.s.Known? ==>
      var a := h.s.avg;
      if a.gpsCorrections == 0 then a.mma == 0.0 else a.base == a.mma && h.least <= a.base <= h.greatest
  }

  lemma ApplyBounded(h: History, e: Event)
    requires Bounded(h)
    ensures Bounded(Apply(h, e))
    ensures Apply(h, e).s.Lost? <==> h.s.Lost? || e == Solution(NaN)
  {
  }

  /** The clock stays so bounded for good, unless time and ticks of a solution are both those of the
      one before: then, and only then, it is no number from there on. */
  lemma {:induction false} RunBounded(h: History, es: seq<Event>)
    requires Bounded(h)
    ensures Bounded(Run(h, es))
    ensures Run(h, es).s.Lost? <==> h.s.Lost? || Solution(NaN) in es
    decreases |es|
  {
    if es != [] {
      ApplyBounded(h, es[0]);
      RunBounded(Apply(h, es[0]), es[1..]);
      assert Solution(NaN) in es <==> es[0] == Solution(NaN) || Solution(NaN) in es[1..];
    }
  }

  function Abs(x: real): real { if x < 0.0 then -x else x }

  /** An accepted measurement takes the average 1/32 of the way, so by no more than 1/32 of
      the window; the first one, and only it, takes it there. */
  lemma AcceptedMoves(h: History, m: real)
    requires Bounded(h) && Accepted(h.s, Finite(m))
    ensures var s, r := h.s.avg, Measure(h.s.avg, m);
            if s.mma == 0.0 then r.base == m
            else r.base - s.base == (m - s.base) / MMA_PERIODS && Abs(r.base - s.base) <= Window(s) / MMA_PERIODS
  {
  }

  // ---- convergence -------------------------------------------------------------------

  function Times(s: Avg, m: real, n: nat): Avg
    decreases n
  {
    if n == 0 then s else Times(Measure(s, m), m, n - 1)
  }

  /** Of ten solutions with the same clock, within the wide window, one at least is accepted. */
  lemma {:induction false} AcceptedInTen(s: Avg, m: real, n: nat) returns (k: nat)
    requires Abs(m - s.base) <= Wide() && n + s.outside >= MAX_OUTSIDE + 1
    ensures k <= n && Accepts(Times(s, m, k), m)
    ensures Times(s, m, k).base == s.base && Times(s, m, k).mma == s.mma
            && Times(s, m, k).gpsCorrections == s.gpsCorrections
    decreases n
  {
    if Accepts(s, m) {
      k := 0;
    } else {
      assert n > 0;
      k := AcceptedInTen(Measure(s, m), m, n - 1);
      k := k + 1;
    }
  }

  predicate Sane(s: Avg) { s.mma == 0.0 || s.base == s.mma }

  function Deviation(s: Avg, m: real): real { Abs(m - s.base) }

  /** A solution never increases the error; an accepted one takes 1/32 of it away. */
  lemma MeasureShrinks(s: Avg, m: real)
    requires Sane(s)
    ensures var r := Measure(s, m);
            Sane(r) && Deviation(r, m) <= Deviation(s, m)
                && (Accepts(s, m) ==> Deviation(r, m) <= Deviation(s, m) * 31.0 / 32.0)
  {
  }

  lemma {:induction false} TimesShrinks(s: Avg, m: real, n: nat)
    requires Sane(s)
    ensures Sane(Times(s, m, n)) && Deviation(Times(s, m, n), m) <= Deviation(s, m)
    decreases n
  {
    if n > 0 {
      MeasureShrinks(s, m);
      TimesShrinks(Measure(s, m), m, n - 1);
    }
  }

  lemma {:induction false} TimesAdd(s: Avg, m: real, a: nat, b: nat)
    ensures Times(s, m, a + b) == Times(Times(s, m, a), m, b)
    decreases a
  {
    if a > 0 { TimesAdd(Measure(s, m), m, a - 1, b); }
  }

  lemma TenShrinks(s: Avg, m: real)
    requires Sane(s) && Deviation(s, m) <= Wide()
    ensures Sane(Times(s, m, 10)) && Deviation(Times(s, m, 10), m) <= Deviation(s, m) * 31.0 / 32.0
  {
    var k := AcceptedInTen(s, m, 9);
    var t := Times(s, m, k);
    TimesShrinks(s, m, k);
    MeasureShrinks(t, m);
    TimesAdd(s, m, k, 10 - k);
    TimesShrinks(Measure(t, m), m, 9 - k);
  }

  /** `e` times the `n`th power of 31/32. */
  function Decay(e: real, n: nat): real
    decreases n
  {
    if n == 0 then e else Decay(e * 31.0 / 32.0, n - 1)
  }

  lemma {:induction false} DecayMonotone(a: real, b: real, n: nat)
    requires a <= b
    ensures Decay(a, n) <= Decay(b, n)
    decreases n
  {
    if n > 0 { DecayMonotone(a * 31.0 / 32.0, b * 31.0 / 32.0, n - 1); }
  }

  /** A clock within 50 ppm that stays the same is approached geometrically: every ten
      solutions leave at most 31/32 of the error. */
  lemma {:induction false} Converges(s: Avg, m: real, n: nat)
    requires Sane(s) && Deviation(s, m) <= Wide()
    ensures Deviation(Times(s, m, 10 * n), m) <= Decay(Deviation(s, m), n)
    decreases n
  {
    if n > 0 {
      var t := Times(s, m, 10);
      TenShrinks(s, m);
      TimesAdd(s, m, 10, 10 * (n - 1));
      hide Measure, Times, Sane;
      Converges(t, m, n - 1);
      DecayMonotone(Deviation(t, m), Deviation(s, m) * 31.0 / 32.0, n - 1);
    }
  }

  // ---- the code ----------------------------------------------------------------------

  class Discipline {
    var adc_clock_base: real
    var adc_clk_corrections: nat
    var adc_gps_clk_corrections: nat
    var manual_adj: int
    var do_corrections: bool
    var last_t_rx: real
    var last_ticks: nat
    var outside_window: nat
    var adc_clock_mma: real
    var lost: bool // whether `adc_clock_base` and `adc_clock_mma` are no numbers

    ghost function View(): State
      reads this
    {
      if lost then Lost(outside_window, adc_clk_corrections, adc_gps_clk_corrections, manual_adj)
      else Known(Avg(adc_clock_base, adc_clock_mma, outside_window, adc_clk_corrections, adc_gps_clk_corrections,
                     manual_adj))
    }

    constructor (base: real, corrections: bool)
      ensures View() == Known(Avg(base, 0.0, 0, 0, 0, 0)) && last_ticks == 0 && do_corrections == corrections
    {
      adc_clock_base, adc_clk_corrections, adc_gps_clk_corrections, manual_adj, lost := base, 0, 0, 0, false;
      do_corrections, last_t_rx, last_ticks, outside_window, adc_clock_mma := corrections, 0.0, 0, 0, 0.0;
    }

    method ManualAdj(adj: int)
      modifies this`manual_adj, this`adc_clk_corrections
      ensures View() == AdjustBy(old(View()), adj)
    {
      manual_adj := adj;
      adc_clk_corrections := adc_clk_corrections + 1;
    }

    /** `clock_correction`: the first solution only sets the reference; later ones measure the
        clock since the one before. */
    method Correction(t_rx: real, ticks: nat)
      requires ticks < WRAP && last_ticks < WRAP
      modifies this
      ensures last_ticks < WRAP && do_corrections == old(do_corrections)
      ensures old(last_ticks) == 0 ==> View() == old(View()) && last_ticks == ticks && last_t_rx == t_rx
      ensures old(last_ticks) != 0 && !do_corrections ==>
              View() == old(View()) && last_ticks == old(last_ticks) && last_t_rx == old(last_t_rx)
      ensures old(last_ticks) != 0 && do_corrections ==>
                && last_ticks == ticks && last_t_rx == t_rx
                && View() == Take(old(View()), Measured(TimeDiff48(ticks, old(last_ticks)), t_rx - old(last_t_rx)))
    {
      if last_ticks == 0 {
        last_ticks, last_t_rx := ticks, t_rx;
        return;
      }
      if !do_corrections { return; }
      var diff_ticks := TimeDiff48(ticks, last_ticks);
      var gps_secs := t_rx - last_t_rx;
      var new_adc_clock := Measured(diff_ticks, gps_secs);
      last_ticks, last_t_rx := ticks, t_rx;
      if Outside(new_adc_clock) {
        outside_window := outside_window + 1;
        return;
      }
      outside_window := 0;
      MovingAverage(new_adc_clock);
      adc_clk_corrections := adc_clk_corrections + 1;
      adc_gps_clk_corrections := adc_gps_clk_corrections + 1;
      manual_adj := 0;
      adc_clock_base := adc_clock_mma;
    }

    /** Whether the offset from the clock is outside the window; never, if it is no number. */
    function Outside(q: Quotient): (r: bool)
      reads this
      ensures r == (View().Known? && !q.NaN? && !Accepted(View(), q))
    {
      var first := adc_clk_corrections == 0;
      var offset_window := if first || outside_window > MAX_OUTSIDE then PpmToHz(ADC_CLOCK_TYP, ADC_CLOCK_PPM_TYP)
                           else PpmToHz(ADC_CLOCK_TYP, 1.0);
      if lost then false
      else
        match q
        case NaN => false
        case Infinite => true
        case Finite(m) => var offset := m - adc_clock_base; offset < -offset_window || offset > offset_window
    }

    method MovingAverage(q: Quotient)
      modifies this`adc_clock_mma, this`lost
      ensures lost == (old(lost) || !q.Finite?)
      ensures !lost ==> adc_clock_mma == (if old(adc_clock_mma) == 0.0 then q.m
                                          else (old(adc_clock_mma) * (MMA_PERIODS - 1.0) + q.m) / MMA_PERIODS)
    {
      if lost || !q.Finite? {
        lost := true;
        return;
      }
      if adc_clock_mma == 0.0 { adc_clock_mma := q.m; }
      adc_clock_mma := (adc_clock_mma * (MMA_PERIODS - 1.0) + q.m) / MMA_PERIODS;
    }
  }
}
