/**
 Satellites and channels: the search task hands free channels to satellites, and each
 channel task gives its satellite back when the signal is lost. All tasks yield at every
 SPI transfer, so each stretch between two transfers is one event, in any interleaving.
 */
module GpsAlloc {

  datatype SatType = Navstar | QZSS | E1B

  datatype Settings = Settings(acqQZSS: bool, prioQZSS: bool, nQZSS: int)

  /** The search task: looking for a satellite; sampling for one on a channel that it has
      reset; starting the channel; about to wake the channel's task. */
  datatype Search = Idle | Sampling(ch: nat, sat: nat, cfg: Settings) | Starting(ch: nat, sat: nat, cfg: Settings)
      | Waking(ch: nat)

  /** A channel task: waiting to be woken; servicing its channel; past the loss of signal
      but not yet waiting again. */
  datatype Task = Asleep | Serving | Losing

  /** `BusyFlags`, the channels' `sat` and `isE1B`, the satellites' `busy`, and the tasks. */
  datatype Gps = Gps(busy: seq<bool>, sat: seq<nat>, isE1B: seq<bool>, satBusy: seq<bool>, search: Search,
      task: seq<Task>)

  // ---- handing out a channel ---------------------------------------------------------

  function Count(b: seq<bool>): (n: nat)
    ensures n <= |b|
  {
    if b == [] then 0 else (if b[0] then 1 else 0) + Count(b[1..])
  }

  predicate IsQZSS(sky: seq<SatType>, s: nat) { s < |sky| && sky[s] == QZSS }

  /** Which channels are busy with a QZSS satellite. */
  function BusyQZSS(g: Gps, sky: seq<SatType>): (b: seq<bool>)
    ensures |b| == |g.busy|
  {
    seq(|g.busy|, c requires 0 <= c < |g.busy| => g.busy[c] && c < |g.sat| && IsQZSS(sky, g.sat[c]))
  }

  function Free(g: Gps): nat { |g.busy| - Count(g.busy) }

  const QZSS_RESERVED := 2

  function Min(a: int, b: int): int { if a < b then a else b }

  function Reserved(g: Gps, sky: seq<SatType>, cfg: Settings): int {
    Min(QZSS_RESERVED, cfg.nQZSS - Count(BusyQZSS(g, sky)))
  }

  predicate Prefers(cfg: Settings) { cfg.acqQZSS && cfg.prioQZSS }

  function FirstFree(b: seq<bool>): (c: nat)
    ensures c <= |b| && (c < |b| ==> !b[c]) && forall i :: 0 <= i < c ==> b[i]
  {
    if b == [] || !b[0] then 0 else 1 + FirstFree(b[1..])
  }

  /** The channel `ChanReset` hands out for `s`, or -1. */
  function HandOut(g: Gps, sky: seq<SatType>, cfg: Settings, s: nat): int {
    var c := FirstFree(g.busy);
    if c == |g.busy| || (Prefers(cfg) && Free(g) <= Reserved(g, sky, cfg) && !IsQZSS(sky, s)) then -1 else c
  }

  // ---- events ------------------------------------------------------------------------

  datatype Event =
    | Try(s: nat, cfg: Settings)   // the search task resets a channel for a satellite not busy
    | Weak                         // the correlation is too weak
    | Strong                       // the satellite becomes busy, and the channel is set up
    | Started                      // the channel's busy flag is set
    | Woken                        // its task is woken, if it is waiting
    | Lost(c: nat)                 // signal lost: satellite and channel are given back
    | Finished(c: nat)             // the rest of `SignalLost`; the task waits again

  predicate IsE1B(sky: seq<SatType>, s: nat) { s < |sky| && sky[s] == E1B }

  predicate Enabled(g: Gps, sky: seq<SatType>, e: Event) {
    match e
    case Try(s, _) => g.search.Idle? && s < |g.satBusy| && !g.satBusy[s]
    case Weak => g.search.Sampling?
    case Strong => g.search.Sampling?
    case Started => g.search.Starting?
    case Woken => g.search.Waking?
    case Lost(c) => c < |g.task| && g.task[c] == Serving
    case Finished(c) => c < |g.task| && g.task[c] == Losing
  }

  predicate Shape(g: Gps, sky: seq<SatType>) {
    && |g.busy| == |g.sat| == |g.isE1B| == |g.task| && |g.satBusy| == |sky|
    && (forall c :: 0 <= c < |g.sat| ==> g.sat[c] < |sky|)
    && (g.search.Sampling? || g.search.Starting? ==> g.search.ch < |g.busy| && g.search.sat < |sky|)
    && (g.search.Waking? ==> g.search.ch < |g.busy|)
  }

  function Apply(g: Gps, sky: seq<SatType>, e: Event): Gps
    requires Shape(g, sky) && Enabled(g, sky, e)
  {
    match e
    case Try(s, cfg) =>
      var c := HandOut(g, sky, cfg, s);
      if c < 0 then g
      else g.(sat := g.sat[c := s], isE1B := g.isE1B[c := IsE1B(sky, s)], search := Sampling(c, s, cfg))
    case Weak => g.(search := Idle)
    case Strong =>
      var c, s := g.search.ch, g.search.sat;
      g.(satBusy := g.satBusy[s := true], sat := g.sat[c := s], isE1B := g.isE1B[c := IsE1B(sky, s)],
         search := Starting(c, s, g.search.cfg))
    case Started => g.(busy := g.busy[g.search.ch := true], search := Waking(g.search.ch))
    case Woken =>
      var c := g.search.ch;
      g.(task := if g.task[c] == Asleep then g.task[c := Serving] else g.task, search := Idle)
    case Lost(c) => g.(satBusy := g.satBusy[g.sat[c] := false], busy := g.busy[c := false], task := g.task[c := Losing])
    case Finished(c) => g.(isE1B := g.isE1B[c := false], task := g.task[c := Asleep])
  }

  // ---- what every interleaving keeps ---------------------------------------------------

  /** Some busy channel tracks `s`. */
  predicate Tracked(g: Gps, s: nat) {
    exists c :: 0 <= c < |g.busy| && c < |g.sat| && g.busy[c] && g.sat[c] == s
  }

  ghost predicate Inv(g: Gps, sky: seq<SatType>) {
    && Shape(g, sky)
    // busy channels track different satellites, which are busy
    && (forall c :: 0 <= c < |g.busy| && g.busy[c] ==> g.satBusy[g.sat[c]])
    && (forall c, d :: 0 <= c < d < |g.busy| && g.busy[c] && g.busy[d] ==> g.sat[c] != g.sat[d])
    // a busy satellite is tracked, or it is the one being started
    && (forall s :: 0 <= s < |sky| && g.satBusy[s] ==> Tracked(g, s) || (g.search.Starting? && g.search.sat == s))
    // the channel handed out is not busy, and the satellite it is for is not tracked
    && (g.search.Sampling? ==> !g.busy[g.search.ch] && !g.satBusy[g.search.sat])
    && (g.search.Starting? ==> !g.busy[g.search.ch] && g.sat[g.search.ch] == g.search.sat
                               && g.satBusy[g.search.sat] && !Tracked(g, g.search.sat))
    && (g.search.Waking? ==> g.busy[g.search.ch] && g.task[g.search.ch] != Serving)
    && (forall c :: 0 <= c < |g.task| && g.task[c] == Serving ==> g.busy[c])
    && KeepsReserve(g, sky)
  }

  /** A channel handed out for another satellite leaves those reserved for QZSS. */
  predicate KeepsReserve(g: Gps, sky: seq<SatType>) {
    (g.search.Sampling? || g.search.Starting?) && Prefers(g.search.cfg) && !IsQZSS(sky, g.search.sat) ==>
      Free(g) > Reserved(g, sky, g.search.cfg)
  }

  lemma {:induction false} CountSet(b: seq<bool>, c: nat, x: bool)
    requires c < |b|
    ensures Count(b[c := x]) == Count(b) - (if b[c] then 1 else 0) + (if x then 1 else 0)
  {
    if c == 0 {
      assert b[c := x][1..] == b[1..];
    } else {
      assert b[c := x][1..] == b[1..][c - 1 := x];
      CountSet(b[1..], c - 1, x);
    }
  }

  lemma TryKeepsReserve(g: Gps, sky: seq<SatType>, s: nat, cfg: Settings)
    requires Shape(g, sky) && Enabled(g, sky, Try(s, cfg))
    ensures KeepsReserve(Apply(g, sky, Try(s, cfg)), sky)
  {
    if HandOut(g, sky, cfg, s) >= 0 {
      assert BusyQZSS(Apply(g, sky, Try(s, cfg)), sky) == BusyQZSS(g, sky);
    }
  }

  lemma TryKeeps(g: Gps, sky: seq<SatType>, s: nat, cfg: Settings)
    requires Inv(g, sky) && Enabled(g, sky, Try(s, cfg))
    ensures Inv(Apply(g, sky, Try(s, cfg)), sky)
  {
    TryKeepsReserve(g, sky, s, cfg);
    hide KeepsReserve, Free, Reserved, Count, Tracked, BusyQZSS;
    var r := Apply(g, sky, Try(s, cfg));
    if HandOut(g, sky, cfg, s) >= 0 {
      forall t: nat | Tracked(g, t) ensures Tracked(r, t) { TryTracked(g, sky, s, cfg, t); }
    }
  }

  lemma TryTracked(g: Gps, sky: seq<SatType>, s: nat, cfg: Settings, t: nat)
    requires Shape(g, sky) && Enabled(g, sky, Try(s, cfg)) && Tracked(g, t)
    ensures Tracked(Apply(g, sky, Try(s, cfg)), t)
  {
    var r := Apply(g, sky, Try(s, cfg));
    var d :| 0 <= d < |g.busy| && g.busy[d] && g.sat[d] == t;
    if HandOut(g, sky, cfg, s) >= 0 { assert r.busy[d] && r.sat[d] == t; }
  }

  lemma StrongKeeps(g: Gps, sky: seq<SatType>)
    requires Inv(g, sky) && g.search.Sampling?
    ensures Inv(Apply(g, sky, Strong), sky)
  {
    var r := Apply(g, sky, Strong);
    assert BusyQZSS(r, sky) == BusyQZSS(g, sky);
    forall t ensures Tracked(g, t) <==> Tracked(r, t) {
      if Tracked(g, t) {
        var d :| 0 <= d < |g.busy| && g.busy[d] && g.sat[d] == t;
        assert r.busy[d] && r.sat[d] == t;
      }
    }
    assert !Tracked(g, g.search.sat);
  }

  lemma StartedKeeps(g: Gps, sky: seq<SatType>)
    requires Inv(g, sky) && g.search.Starting?
    ensures Inv(Apply(g, sky, Started), sky)
  {
    var r, c := Apply(g, sky, Started), g.search.ch;
    forall d | 0 <= d < |g.busy| && g.busy[d] ensures g.sat[d] != g.search.sat {
      assert !Tracked(g, g.search.sat);
    }
    forall t | Tracked(g, t) || t == g.search.sat ensures Tracked(r, t) {
      if t == g.search.sat { assert r.busy[c] && r.sat[c] == t; } else {
        var d :| 0 <= d < |g.busy| && g.busy[d] && g.sat[d] == t;
        assert r.busy[d] && r.sat[d] == t;
      }
    }
  }

  lemma LostTracked(g: Gps, sky: seq<SatType>, c: nat, t: nat)
    requires Shape(g, sky) && Enabled(g, sky, Lost(c))
    ensures var r := Apply(g, sky, Lost(c));
            (Tracked(g, t) && t != g.sat[c] ==> Tracked(r, t)) && (Tracked(r, t) ==> Tracked(g, t))
  {
    var r := Apply(g, sky, Lost(c));
    if Tracked(g, t) && t != g.sat[c] {
      var d :| 0 <= d < |g.busy| && g.busy[d] && g.sat[d] == t;
      assert r.busy[d] && r.sat[d] == t;
    }
    if Tracked(r, t) {
      var d :| 0 <= d < |r.busy| && r.busy[d] && r.sat[d] == t;
      assert g.busy[d] && g.sat[d] == t;
    }
  }

  lemma LostKeeps(g: Gps, sky: seq<SatType>, c: nat)
    requires Inv(g, sky) && Enabled(g, sky, Lost(c))
    ensures Inv(Apply(g, sky, Lost(c)), sky)
  {
    var r := Apply(g, sky, Lost(c));
    LostKeepsReserve(g, sky, c);
    hide KeepsReserve, Tracked;
    forall t: nat ensures (Tracked(g, t) && t != g.sat[c] ==> Tracked(r, t)) && (Tracked(r, t) ==> Tracked(g, t)) {
      LostTracked(g, sky, c, t);
    }
  }

  lemma LostKeepsReserve(g: Gps, sky: seq<SatType>, c: nat)
    requires Shape(g, sky) && Enabled(g, sky, Lost(c)) && g.busy[c] && KeepsReserve(g, sky)
    ensures KeepsReserve(Apply(g, sky, Lost(c)), sky)
  {
    var r := Apply(g, sky, Lost(c));
    CountSet(g.busy, c, false);
    assert BusyQZSS(r, sky) == BusyQZSS(g, sky)[c := false];
    CountSet(BusyQZSS(g, sky), c, false);
  }

  lemma EventKeeps(g: Gps, sky: seq<SatType>, e: Event)
    requires Inv(g, sky) && Enabled(g, sky, e)
    ensures Inv(Apply(g, sky, e), sky)
  {
    match e
    case Try(s, cfg) => TryKeeps(g, sky, s, cfg);
    case Weak =>
    case Strong => StrongKeeps(g, sky);
    case Started => StartedKeeps(g, sky);
    case Woken => WokenKeeps(g, sky);
    case Lost(c) => LostKeeps(g, sky, c);
    case Finished(c) => FinishedKeeps(g, sky, c);
  }

  lemma WokenKeeps(g: Gps, sky: seq<SatType>)
    requires Inv(g, sky) && g.search.Waking?
    ensures Inv(Apply(g, sky, Woken), sky)
  {
  }

  lemma FinishedKeeps(g: Gps, sky: seq<SatType>, c: nat)
    requires Inv(g, sky) && Enabled(g, sky, Finished(c))
    ensures Inv(Apply(g, sky, Finished(c)), sky)
  {
    assert BusyQZSS(Apply(g, sky, Finished(c)), sky) == BusyQZSS(g, sky);
  }

  function Run(g: Gps, sky: seq<SatType>, es: seq<Event>): Gps
    requires Inv(g, sky) && Valid(g, sky, es)
    decreases |es|
  {
    if es == [] then g else
      EventKeeps(g, sky, es[0]);
      Run(Apply(g, sky, es[0]), sky, es[1..])
  }

  /** Each event is enabled when its turn comes. */
  predicate Valid(g: Gps, sky: seq<SatType>, es: seq<Event>)
    requires Shape(g, sky)
    decreases |es|
  {
    es == [] || (Enabled(g, sky, es[0]) && Shape(Apply(g, sky, es[0]), sky)
        && Valid(Apply(g, sky, es[0]), sky, es[1..]))
  }

  /** In every interleaving: busy channels track different satellites, each busy satellite is
      held by one busy channel or is being started, and a busy channel is never handed out. */
  lemma {:induction false} RunKeeps(g: Gps, sky: seq<SatType>, es: seq<Event>)
    requires Inv(g, sky) && Valid(g, sky, es)
    ensures Inv(Run(g, sky, es), sky)
    decreases |es|
  {
    if es != [] {
      EventKeeps(g, sky, es[0]);
      RunKeeps(Apply(g, sky, es[0]), sky, es[1..]);
    }
  }

  /** With priority for QZSS, starting a channel for another satellite leaves at least the
      reserved number free. */
  lemma StartLeavesReserve(g: Gps, sky: seq<SatType>)
    requires Inv(g, sky) && g.search.Starting? && Prefers(g.search.cfg) && !IsQZSS(sky, g.search.sat)
    ensures var r := Apply(g, sky, Started); Free(r) >= Reserved(r, sky, g.search.cfg)
  {
    var r, c := Apply(g, sky, Started), g.search.ch;
    CountSet(g.busy, c, true);
    assert BusyQZSS(r, sky) == BusyQZSS(g, sky);
  }

  // ---- whether a channel that was started is served ------------------------------------

  /** Busy channels are in the right mode, and served or about to be. */
  ghost predicate Served(g: Gps, sky: seq<SatType>)
    requires Shape(g, sky)
  {
    && (forall c :: 0 <= c < |g.busy| && g.busy[c] ==> g.isE1B[c] == IsE1B(sky, g.sat[c]))
    && (forall c :: 0 <= c < |g.busy| && g.busy[c] ==>
          g.task[c] == Serving || (g.search == Waking(c) && g.task[c] == Asleep))
    && (g.search.Starting? ==> g.isE1B[g.search.ch] == IsE1B(sky, g.search.sat) && g.task[g.search.ch] == Asleep)
  }

  /** The task of the channel to be started has finished with the signal it lost. */
  predicate Settled(g: Gps, e: Event) {
    e.Strong? && g.search.Sampling? && g.search.ch < |g.task| ==> g.task[g.search.ch] != Losing
  }

  lemma ServedTry(g: Gps, sky: seq<SatType>, s: nat, cfg: Settings)
    requires Inv(g, sky) && Served(g, sky) && Enabled(g, sky, Try(s, cfg))
    ensures Shape(Apply(g, sky, Try(s, cfg)), sky) && Served(Apply(g, sky, Try(s, cfg)), sky)
  {
    hide KeepsReserve, Count, Reserved, Free;
  }

  lemma ServedSearch(g: Gps, sky: seq<SatType>, e: Event)
    requires Inv(g, sky) && Served(g, sky) && Enabled(g, sky, e) && Settled(g, e)
    requires e.Weak? || e.Strong? || e.Started? || e.Woken?
    ensures Shape(Apply(g, sky, e), sky) && Served(Apply(g, sky, e), sky)
  {
    hide KeepsReserve, Tracked;
  }

  lemma ServedTask(g: Gps, sky: seq<SatType>, e: Event)
    requires Inv(g, sky) && Served(g, sky) && Enabled(g, sky, e) && (e.Lost? || e.Finished?)
    ensures Shape(Apply(g, sky, e), sky) && Served(Apply(g, sky, e), sky)
  {
    hide KeepsReserve, Tracked;
  }

  lemma ServedKeeps(g: Gps, sky: seq<SatType>, e: Event)
    requires Inv(g, sky) && Served(g, sky) && Enabled(g, sky, e) && Settled(g, e)
    ensures Shape(Apply(g, sky, e), sky) && Served(Apply(g, sky, e), sky)
  {
    match e
    case Try(s, cfg) => ServedTry(g, sky, s, cfg);
    case Lost(_) => ServedTask(g, sky, e);
    case Finished(_) => ServedTask(g, sky, e);
    case _ => ServedSearch(g, sky, e);
  }

  predicate AllSettled(g: Gps, sky: seq<SatType>, es: seq<Event>)
    requires Shape(g, sky) && Valid(g, sky, es)
    decreases |es|
  {
    es == [] || (Settled(g, es[0]) && AllSettled(Apply(g, sky, es[0]), sky, es[1..]))
  }

  /** If no channel is started before its task has finished with the last signal, every busy
      channel is served, in the mode of its satellite. `GpsSched` shows that none is. */
  lemma {:induction false} SettledRunServes(g: Gps, sky: seq<SatType>, es: seq<Event>)
    requires Inv(g, sky) && Served(g, sky) && Valid(g, sky, es) && AllSettled(g, sky, es)
    ensures Inv(Run(g, sky, es), sky) && Served(Run(g, sky, es), sky)
    decreases |es|
  {
    hide Served, Settled;
    if es != [] {
      EventKeeps(g, sky, es[0]);
      ServedKeeps(g, sky, es[0]);
      SettledRunServes(Apply(g, sky, es[0]), sky, es[1..]);
    }
  }

  /** A busy channel that nobody services or will wake. */
  predicate Stuck(g: Gps, c: nat) {
    c < |g.busy| && c < |g.task| && g.busy[c] && g.task[c] == Asleep && g.search != Waking(c)
  }

  lemma {:induction false} StuckForever(g: Gps, sky: seq<SatType>, es: seq<Event>, c: nat)
    requires Inv(g, sky) && Valid(g, sky, es) && Stuck(g, c)
    ensures Stuck(Run(g, sky, es), c)
    decreases |es|
  {
    if es != [] {
      EventKeeps(g, sky, es[0]);
      StuckStays(g, sky, es[0], c);
      hide Inv, Stuck;
      StuckForever(Apply(g, sky, es[0]), sky, es[1..], c);
    }
  }

  lemma StuckStays(g: Gps, sky: seq<SatType>, e: Event, c: nat)
    requires Inv(g, sky) && Enabled(g, sky, e) && Stuck(g, c)
    ensures Stuck(Apply(g, sky, e), c)
  {
  }

  /** This needs the order of the SPI lock. In the interleavings that ignore it a channel can be
      started earlier; its wake-up is missed, and it stays busy and unserved for ever. */
  lemma EarlyStartCanStick(g: Gps, sky: seq<SatType>)
    requires Inv(g, sky) && g.search.Sampling? && !Settled(g, Strong)
    ensures var es := [] + [Strong] + [Started] + [Woken] + [Finished(g.search.ch)];
            Valid(g, sky, es) && Stuck(Run(g, sky, es), g.search.ch)
  {
    var c := g.search.ch;
    OneMore(g, sky, [], Strong);
    OneMore(g, sky, [] + [Strong], Started);
    OneMore(g, sky, [] + [Strong] + [Started], Woken);
    OneMore(g, sky, [] + [Strong] + [Started] + [Woken], Finished(c));
  }

  lemma {:induction false} OneMore(g: Gps, sky: seq<SatType>, es: seq<Event>, e: Event)
    requires Inv(g, sky) && Valid(g, sky, es) && Enabled(Run(g, sky, es), sky, e)
    ensures Inv(Run(g, sky, es), sky) && Valid(g, sky, es + [e])
            && Run(g, sky, es + [e]) == Apply(Run(g, sky, es), sky, e)
    decreases |es|
  {
    RunKeeps(g, sky, es);
    hide Apply, Enabled;
    if es == [] {
      assert [] + [e] == [e] && [e][1..] == [];
      EventKeeps(g, sky, e);
    } else {
      EventKeeps(g, sky, es[0]);
      OneMore(Apply(g, sky, es[0]), sky, es[1..], e);
      assert (es + [e])[1..] == es[1..] + [e];
    }
    hide Inv, Shape;
  }

  /** Such a state is reached from the start: one channel loses its signal and is handed out
      again at once. */
  lemma EarlyStartIsReached(cfg: Settings)
    requires !Prefers(cfg)
    ensures var g, es := Initial(1, [Navstar]),
            [] + [Try(0, cfg)] + [Strong] + [Started] + [Woken] + [Lost(0)] + [Try(0, cfg)];
            && Inv(g, [Navstar]) && Valid(g, [Navstar], es)
            && var r := Run(g, [Navstar], es); r.search.Sampling? && !Settled(r, Strong)
  {
    var g, sky := Initial(1, [Navstar]), [Navstar];
    InitialOk(1, sky);
    OneChannel(cfg);
    var free := Gps([false], [0], [false], [false], Sampling(0, 0, cfg), [Losing]);
    assert !Settled(free, Strong);
    hide Apply, Inv, Valid, Run, Settled;
    var e1 := [] + [Try(0, cfg)];
    RunNothing(g, sky);
    OneMore(g, sky, [], Try(0, cfg));
    OneMore(g, sky, e1, Strong);
    OneMore(g, sky, e1 + [Strong], Started);
    OneMore(g, sky, e1 + [Strong] + [Started], Woken);
    OneMore(g, sky, e1 + [Strong] + [Started] + [Woken], Lost(0));
    OneMore(g, sky, e1 + [Strong] + [Started] + [Woken] + [Lost(0)], Try(0, cfg));
  }

  lemma RunNothing(g: Gps, sky: seq<SatType>)
    requires Inv(g, sky)
    ensures Valid(g, sky, []) && Run(g, sky, []) == g
  {
  }

  /** The states of one channel and one satellite, up to the loss of its signal. */
  lemma OneChannel(cfg: Settings)
    requires !Prefers(cfg)
    ensures var sky := [Navstar];
            var g0 := Initial(1, sky);
            var g1 := Gps([false], [0], [false], [false], Sampling(0, 0, cfg), [Asleep]);
            var g2 := Gps([false], [0], [false], [true], Starting(0, 0, cfg), [Asleep]);
            var g3 := Gps([true], [0], [false], [true], Waking(0), [Asleep]);
            var g4 := Gps([true], [0], [false], [true], Idle, [Serving]);
            var g5 := Gps([false], [0], [false], [false], Idle, [Losing]);
            && Shape(g0, sky) && Shape(g1, sky) && Shape(g2, sky) && Shape(g3, sky) && Shape(g4, sky) && Shape(g5, sky)
            && Enabled(g0, sky, Try(0, cfg)) && Apply(g0, sky, Try(0, cfg)) == g1 && Apply(g1, sky, Strong) == g2
            && Apply(g2, sky, Started) == g3 && Apply(g3, sky, Woken) == g4
            && Enabled(g4, sky, Lost(0)) && Apply(g4, sky, Lost(0)) == g5
            && Enabled(g5, sky, Try(0, cfg)) && Apply(g5, sky, Try(0, cfg)) == g1.(task := [Losing])
  {
    hide Count, Free, Reserved, BusyQZSS;
    assert FirstFree([false]) == 0;
    assert [false][0 := false] == [false] && [0][0 := 0] == [0];
    assert Initial(1, [Navstar]) == Gps([false], [0], [false], [false], Idle, [Asleep]);
  }

  /** At the start nothing is busy. */
  function Initial(chans: nat, sky: seq<SatType>): Gps {
    Gps(seq(chans, _ => false), seq(chans, _ => 0), seq(chans, _ => false), seq(|sky|, _ => false), Idle,
        seq(chans, _ => Asleep))
  }

  lemma InitialOk(chans: nat, sky: seq<SatType>)
    requires sky != []
    ensures Inv(Initial(chans, sky), sky) && Served(Initial(chans, sky), sky)
  {
  }

  // ---- the code ----------------------------------------------------------------------

  class Receiver {
    const sky: seq<SatType>
    var busy: seq<bool>
    var sat: seq<nat>
    var isE1B: seq<bool>
    var satBusy: seq<bool>
    ghost var search: Search
    ghost var task: seq<Task>

    ghost function View(): Gps
      reads this
    {
      Gps(busy, sat, isE1B, satBusy, search, task)
    }

    ghost predicate Valid()
      reads this
    {
      Inv(View(), sky)
    }

    constructor (chans: nat, sky: seq<SatType>)
      requires sky != []
      ensures Valid() && View() == Initial(chans, sky) && this.sky == sky
    {
      this.sky := sky;
      busy := seq(chans, _ => false);
      sat := seq(chans, _ => 0);
      isE1B := seq(chans, _ => false);
      satBusy := seq(|sky|, _ => false);
      search := Idle;
      task := seq(chans, _ => Asleep);
      new;
      InitialOk(chans, sky);
    }

    /** The counting loop of `ChanReset`. */
    method CountChannels() returns (nbusy: nat, cur: nat)
      requires Valid()
      ensures nbusy == Count(busy) && cur == Count(BusyQZSS(View(), sky))
    {
      ghost var q := BusyQZSS(View(), sky);
      nbusy, cur := 0, 0;
      var ch := 0;
      while ch < |busy|
        invariant ch <= |busy| && nbusy + Count(busy[ch..]) == Count(busy) && cur + Count(q[ch..]) == Count(q)
      {
        assert busy[ch..][1..] == busy[ch + 1..] && q[ch..][1..] == q[ch + 1..];
        if busy[ch] {
          if sky[sat[ch]] == QZSS { cur := cur + 1; }
          nbusy := nbusy + 1;
        }
        ch := ch + 1;
      }
    }

    /** `ChanReset`: a free channel is reset for the satellite, unless the free ones are
        reserved; -1 if there is none. */
    method ChanReset(s: nat, cfg: Settings) returns (ch: int)
      requires Valid() && Enabled(View(), sky, Try(s, cfg))
      modifies this`sat, this`isE1B, this`search
      ensures View() == Apply(old(View()), sky, Try(s, cfg)) && Valid()
      ensures ch == HandOut(old(View()), sky, cfg, s)
    {
      ghost var g := View();
      TryKeeps(g, sky, s, cfg);
      var prefer := cfg.acqQZSS && cfg.prioQZSS;
      var nbusy, cur := 0, 0;
      if prefer { nbusy, cur := CountChannels(); }
      var nfree := |busy| - nbusy;
      var nresv := Min(QZSS_RESERVED, cfg.nQZSS - cur);
      var limit := prefer && nfree <= nresv;
      hide Inv, Shape, Count, BusyQZSS;
      var c := FindFree();
      if c == |busy| || (limit && sky[s] != QZSS) { return -1; }
      sat := sat[c := s];
      isE1B := isE1B[c := sky[s] == E1B];
      search := Sampling(c, s, cfg);
      ch := c;
    }

    method FindFree() returns (c: nat)
      ensures c == FirstFree(busy)
    {
      c := 0;
      while c < |busy| && busy[c]
        invariant c <= |busy| && c + FirstFree(busy[c..]) == FirstFree(busy)
      {
        assert busy[c..][1..] == busy[c + 1..];
        c := c + 1;
      }
    }

    /** The search task found the satellite: it becomes busy, and `Start` sets the channel up
        until its first transfer. */
    method Start(ch: nat, s: nat)
      requires Valid() && search.Sampling? && search.ch == ch && search.sat == s
      modifies this`satBusy, this`sat, this`isE1B, this`search
      ensures View() == Apply(old(View()), sky, Strong) && Valid()
    {
      StrongKeeps(View(), sky);
      satBusy := satBusy[s := true];
      sat := sat[ch := s];
      isE1B := isE1B[ch := sky[s] == E1B];
      search := Starting(ch, s, search.cfg);
    }

    /** The end of `Start`: the busy flag is set, and after that transfer the task is woken. */
    method SetBusy(ch: nat)
      requires Valid() && search.Starting? && search.ch == ch
      modifies this`busy, this`search
      ensures View() == Apply(old(View()), sky, Started) && Valid()
    {
      StartedKeeps(View(), sky);
      busy := busy[ch := true];
      search := Waking(ch);
    }

    /** `SignalLost` until its transfer, with `SearchEnable`. */
    method SignalLost(ch: nat)
      requires Valid() && Enabled(View(), sky, Lost(ch))
      modifies this`satBusy, this`busy, this`task
      ensures View() == Apply(old(View()), sky, Lost(ch)) && Valid()
    {
      LostKeeps(View(), sky, ch);
      satBusy := satBusy[sat[ch] := false];
      busy := busy[ch := false];
      task := task[ch := Losing];
    }

    /** The rest of `SignalLost`. */
    method Forget(ch: nat)
      requires Valid() && Enabled(View(), sky, Finished(ch))
      modifies this`isE1B, this`task
      ensures View() == Apply(old(View()), sky, Finished(ch)) && Valid()
    {
      FinishedKeeps(View(), sky, ch);
      isE1B := isE1B[ch := false];
      task := task[ch := Asleep];
    }
  }
}
