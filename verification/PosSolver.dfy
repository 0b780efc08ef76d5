/**
 Time bookkeeping of the position solver: when the Kalman filter runs, and the time steps it
 is given, from a tick counter of 48 bits. The two solvers are taken as success or failure.
 */
module PosSolver {
  import Clock

  const WRAP := Clock.WRAP

  /** `_use_kalman`, `_ekf_running`, `_state_spp`, `_ticks_spp` and `_ticks_ekf`. */
  datatype Tracker = Tracker(useKalman: bool, ekf: int, spp0: bool, spp1: bool, sppTicks0: nat, sppTicks1: nat,
      ekf0: nat, ekf1: nat)

  const Initial := Tracker(true, -1, false, false, 0, 0, 0, 0)

  /** `dadc_ticks_sec`, in ticks. */
  function Step(next: nat, prev: nat): int { next + (if next < prev then WRAP else 0) - prev }

  function UseKalman(s: Tracker, b: bool): Tracker {
    if b then s.(useKalman := true) else s.(useKalman := false, ekf := -1, spp0 := false, spp1 := false)
  }

  /** The first part of `solve`: history, and a new start after two valid fixes in a row. */
  function Prepare(s: Tracker, ticks: nat, spp: bool): Tracker {
    var t := s.(sppTicks1 := s.sppTicks0, ekf0 := ticks, sppTicks0 := ticks, spp1 := s.spp0, spp0 := spp);
    if t.spp0 && t.spp1 && t.useKalman && t.ekf == -1 then t.(ekf1 := t.ekf0, ekf := 0) else t
  }

  /** Whether the filter is updated, and what it becomes. */
  predicate Updates(s: Tracker) { s.useKalman && s.ekf >= 0 }

  function Update(s: Tracker, ok: bool): Tracker {
    if !Updates(s) then s
    else if ok then s.(ekf1 := s.ekf0, ekf := s.ekf + if s.ekf < 4 then 1 else 0)
    else s.(ekf := -1)
  }

  function Solve(s: Tracker, ticks: nat, spp: bool, ok: bool): Tracker { Update(Prepare(s, ticks, spp), ok) }

  // ---- whole runs --------------------------------------------------------------------

  /** A solution at the true tick count `at`, with satellites in view; or a setting. */
  datatype Event = Solution(at: nat, spp: bool, ok: bool) | Use(b: bool)

  /** The tracker; the true count at the last solution; the true count at the last start of
      the filter; and the sum of the steps given to successful updates since. */
  datatype History = History(s: Tracker, now: nat, start: nat, sum: int)

  /** Counts do not run backwards, and less than one wrap passes between solutions. */
  predicate Timely(h: History, e: Event) { e.Solution? ==> h.now <= e.at < h.now + WRAP }

  function Apply(h: History, e: Event): History {
    match e
    case Use(b) => h.(s := UseKalman(h.s, b))
    case Solution(at, spp, ok) =>
      var p := Prepare(h.s, at % WRAP, spp);
      var started := h.s.ekf == -1 && p.ekf == 0;
      var start, sum := if started then at else h.start, if started then 0 else h.sum;
      History(Update(p, ok), at, start, sum + if Updates(p) && ok then Step(p.ekf0, p.ekf1) else 0)
  }

  function Run(h: History, es: seq<Event>): History
    decreases |es|
  {
    if es == [] then h else Run(Apply(h, es[0]), es[1..])
  }

  predicate AllTimely(h: History, es: seq<Event>)
    decreases |es|
  {
    es == [] || (Timely(h, es[0]) && AllTimely(Apply(h, es[0]), es[1..]))
  }

  /** The filter is off, or runs in one of four stages; when it runs, it has been given the
      exact time since it started, whatever wrapped in between. */
  predicate Inv(h: History) {
    && (h.s.ekf == -1 || 1 <= h.s.ekf <= 4)
    && (h.s.ekf >= 1 ==> h.s.useKalman && h.s.ekf1 == h.now % WRAP && h.start <= h.now && h.sum == h.now - h.start)
  }

  lemma StepIsElapsed(a: nat, b: nat)
    requires a <= b < a + WRAP
    ensures Step(b % WRAP, a % WRAP) == b - a
  {
    var q := b / WRAP - a / WRAP;
    assert b - a == WRAP * q + (b % WRAP - a % WRAP);
    assert q == 0 || q == 1;
  }

  lemma ApplyKeeps(h: History, e: Event)
    requires Inv(h) && Timely(h, e)
    ensures Inv(Apply(h, e))
  {
    if e.Solution? {
      StepIsElapsed(h.now, e.at);
      StepIsElapsed(e.at, e.at);
    }
  }

  lemma {:induction false} RunKeeps(h: History, es: seq<Event>)
    requires Inv(h) && AllTimely(h, es)
    ensures Inv(Run(h, es))
    decreases |es|
  {
    if es != [] {
      ApplyKeeps(h, es[0]);
      RunKeeps(Apply(h, es[0]), es[1..]);
    }
  }

  /** The last solution gave a valid single point fix, and the filter was not turned off since. */
  predicate LastFix(es: seq<Event>) {
    es != [] && match es[|es| - 1]
                case Solution(_, spp, _) => spp
                case Use(b) => b && LastFix(es[..|es| - 1])
  }

  lemma {:induction false} RunSnoc(h: History, es: seq<Event>, e: Event)
    ensures Run(h, es + [e]) == Apply(Run(h, es), e)
    decreases |es|
  {
    if es == [] {
      assert [e][1..] == [];
    } else {
      assert (es + [e])[1..] == es[1..] + [e];
      RunSnoc(Apply(h, es[0]), es[1..], e);
    }
  }

  lemma {:induction false} FixesRemembered(es: seq<Event>)
    ensures Run(History(Initial, 0, 0, 0), es).s.spp0 ==> LastFix(es)
    decreases |es|
  {
    if es != [] {
      var n := |es| - 1;
      FixesRemembered(es[..n]);
      RunSnoc(History(Initial, 0, 0, 0), es[..n], es[n]);
      assert es[..n] + [es[n]] == es;
    }
  }

  /** Tracking starts only with a valid fix, directly after another valid fix. */
  lemma StartNeedsTwoFixes(es: seq<Event>, e: Event)
    requires var h := Run(History(Initial, 0, 0, 0), es); h.s.ekf == -1 && Apply(h, e).s.ekf >= 1
    ensures e.Solution? && e.spp && LastFix(es)
  {
    FixesRemembered(es);
  }

  // ---- the code ----------------------------------------------------------------------

  class Solver {
    var use_kalman: bool
    var ekf_running: int
    var state_spp0: bool
    var state_spp1: bool
    var ticks_spp0: nat
    var ticks_spp1: nat
    var ticks_ekf0: nat
    var ticks_ekf1: nat

    ghost function View(): Tracker
      reads this
    {
      Tracker(use_kalman, ekf_running, state_spp0, state_spp1, ticks_spp0, ticks_spp1, ticks_ekf0, ticks_ekf1)
    }

    constructor ()
      ensures View() == Initial
    {
      use_kalman, ekf_running, state_spp0, state_spp1 := true, -1, false, false;
      ticks_spp0, ticks_spp1, ticks_ekf0, ticks_ekf1 := 0, 0, 0, 0;
    }

    method SetUseKalman(b: bool)
      modifies this
      ensures View() == UseKalman(old(View()), b)
    {
      use_kalman := b;
      if !use_kalman {
        ekf_running := -1;
        state_spp0, state_spp1 := false, false;
      }
    }

    /** `solve` with `nsv` satellites; the outcomes of the two solvers are parameters, and
        `dt` is the step, if the filter is updated. */
    method SolveFor(nsv: nat, adc_ticks: nat, spp: bool, ok: bool) returns (r: bool, ghost dt: int)
      modifies this
      ensures r == (nsv > 0) && (nsv == 0 ==> View() == old(View()))
      ensures nsv > 0 ==> View() == Solve(old(View()), adc_ticks, spp, ok)
      ensures nsv > 0 ==> var p := Prepare(old(View()), adc_ticks, spp); Updates(p) ==> dt == Step(p.ekf0, p.ekf1)
    {
      dt := 0;
      if nsv == 0 { return false, 0; }
      ticks_spp1 := ticks_spp0;
      ticks_ekf0, ticks_spp0 := adc_ticks, adc_ticks;
      state_spp1 := state_spp0;
      state_spp0 := spp;
      if state_spp0 && state_spp1 && use_kalman && ekf_running == -1 {
        ticks_ekf1 := ticks_ekf0;
        ekf_running := 0;
      }
      if use_kalman && ekf_running >= 0 {
        dt := Step(ticks_ekf0, ticks_ekf1);
        if ok {
          ticks_ekf1 := ticks_ekf0;
          if ekf_running < 4 { ekf_running := ekf_running + 1; }
        } else {
          ekf_running := -1;
        }
      }
      r := true;
    }
  }
}
