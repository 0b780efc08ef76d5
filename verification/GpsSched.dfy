/**
 The search task and the channel tasks under the SPI lock and the scheduler: a task runs only
 while no task of higher priority can, and channel tasks come before the search task. So no
 channel is started before its task has finished with the signal it lost.
 */
module GpsSched {
  import opened Optional
  import opened GpsAlloc
  import SpiLock

  /** Tasks are numbered: the channels' tasks first, then the search task, then all others.
      `searching` means that the search task is running; `ready`, that it has had the lock
      since it last handed out a channel, to reset that channel. */
  datatype Sys = Sys(g: Gps, l: SpiLock.Lock, searching: bool, ready: bool)

  function SearchTask(s: Sys): nat { |s.g.task| }

  /** Channel tasks have a higher priority than the search task. */
  predicate Priorities(s: Sys, prio: seq<nat>) {
    |prio| == |s.l.at| > |s.g.task| && forall c :: 0 <= c < |s.g.task| ==> prio[c] > prio[|s.g.task|]
  }

  datatype Step =
    | Switch                 // the scheduler runs the search task
    | Yield                  // the search task waits for something
    | Search(e: Event)       // an event of the search task
    | EnterLock(t: nat)
    | ResumeLock(t: nat)     // a task that was woken in line goes on
    | LeaveLock(t: nat)
    | LoseSignal(c: nat)     // gives satellite and channel back, and asks for the lock
    | Finish(c: nat)         // after the transfer

  /** The task of a channel is past the transfer of `SignalLost`, but not yet asleep. */
  predicate Finishing(s: Sys, c: nat) {
    c < |s.g.task| && c < |s.l.at| && s.g.task[c] == Losing && s.l.at[c].Out?
  }

  /** Tasks known to be able to run: those woken in line, and those finishing. */
  predicate Runnable(s: Sys, t: nat) {
    t < |s.l.at| && ((s.l.at[t].Waiting? && !s.l.at[t].asleep) || Finishing(s, t))
  }

  /** Nobody of higher priority than the search task can run. */
  ghost predicate Foremost(s: Sys, prio: seq<nat>)
    requires Priorities(s, prio)
  {
    forall t :: 0 <= t < |prio| && Runnable(s, t) ==> prio[t] <= prio[SearchTask(s)]
  }

  predicate IsSearchEvent(e: Event) { !e.Lost? && !e.Finished? }

  /** A task runs: the search task if it was chosen, any other one if not. */
  predicate Runs(s: Sys, t: nat) { t < |s.l.at| && (t == SearchTask(s) <==> s.searching) }

  ghost predicate CanStep(s: Sys, sky: seq<SatType>, prio: seq<nat>, e: Step)
    requires Priorities(s, prio)
  {
    match e
    case Switch => !s.searching && Foremost(s, prio)
    case Yield => s.searching
    case Search(ev) =>
      s.searching && IsSearchEvent(ev) && Enabled(s.g, sky, ev) && s.l.at[SearchTask(s)].Out?
          && (ev.Strong? ==> s.ready)
    case EnterLock(t) => Runs(s, t) && s.l.at[t].Out? && (t < |s.g.task| ==> s.g.task[t] == Serving)
    case ResumeLock(t) => Runs(s, t) && s.l.at[t].Waiting? && !s.l.at[t].asleep
    case LeaveLock(t) => Runs(s, t) && s.l.owner == Some(t)
    case LoseSignal(c) => Runs(s, c) && Enabled(s.g, sky, Lost(c)) && s.l.at[c].Out?
    case Finish(c) => Runs(s, c) && Finishing(s, c)
  }

  /** When the search task gives the lock back, it stops if it wakes a task of higher priority. */
  predicate WakesHigher(s: Sys, prio: seq<nat>, t: nat)
    requires Priorities(s, prio) && t < |prio|
  {
    exists u :: 0 <= u < |prio| && s.l.at[u].Waiting? && s.l.at[u].asleep && prio[u] > prio[t]
  }

  /** With the lock as `l`; the search task is ready once it has it. */
  function Locked(s: Sys, l: SpiLock.Lock): Sys { s.(l := l, ready := s.ready || l.owner == Some(SearchTask(s))) }

  ghost function Do(s: Sys, sky: seq<SatType>, prio: seq<nat>, e: Step): Sys
    requires Priorities(s, prio) && GpsAlloc.Shape(s.g, sky) && CanStep(s, sky, prio, e)
  {
    match e
    case Switch => s.(searching := true)
    case Yield => s.(searching := false)
    case Search(ev) => s.(g := Apply(s.g, sky, ev), ready := s.ready && !ev.Try?)
    case EnterLock(t) => Locked(s, SpiLock.Enter(s.l, prio, t))
    case ResumeLock(t) => Locked(s, SpiLock.Resume(s.l, prio, t))
    case LeaveLock(t) => s.(l := SpiLock.Leave(s.l, t), searching := s.searching && !WakesHigher(s, prio, t))
    case LoseSignal(c) => Locked(s.(g := Apply(s.g, sky, Lost(c))), SpiLock.Enter(s.l, prio, c))
    case Finish(c) => s.(g := Apply(s.g, sky, Finished(c)))
  }

  /** Beside the invariants of the channels and of the lock: while the search task runs, it is
      foremost; sleeping channel tasks do not use the lock; and once the search task is ready,
      the task of the channel handed out sleeps. */
  ghost predicate SysInv(s: Sys, sky: seq<SatType>, prio: seq<nat>) {
    && Priorities(s, prio) && GpsAlloc.Inv(s.g, sky) && Served(s.g, sky) && SpiLock.Inv(s.l, prio)
    && (s.searching ==> Foremost(s, prio)) && (s.l.owner == Some(SearchTask(s)) ==> s.ready)
    && (forall c :: 0 <= c < |s.g.task| && s.g.task[c] == Asleep ==> s.l.at[c].Out?)
    && (s.g.search.Sampling? && s.ready ==> s.g.task[s.g.search.ch] == Asleep)
  }

  // ---- what every step keeps -----------------------------------------------------------

  /** Others keep their place in line, but for the ticket. */
  predicate OthersKeep(l: SpiLock.Lock, r: SpiLock.Lock, t: nat) {
    && |l.at| == |r.at|
    && forall u :: 0 <= u < |l.at| && u != t ==>
         && l.at[u].Out? == r.at[u].Out? && l.at[u].Waiting? == r.at[u].Waiting?
         && (l.at[u].Waiting? ==> l.at[u].asleep == r.at[u].asleep)
  }

  lemma EnterIs(l: SpiLock.Lock, prio: seq<nat>, t: nat)
    requires SpiLock.Inv(l, prio) && t < |l.at| && l.at[t].Out?
    ensures var r := SpiLock.Enter(l, prio, t);
            && SpiLock.Inv(r, prio) && OthersKeep(l, r, t) && !r.at[t].Out?
            && (r.owner == Some(t) ==> l.owner.None? && SpiLock.Overtakes(r, prio, t))
            && (r.owner != Some(t) ==> r.owner == l.owner)
            && (r.at[t].Waiting? ==> r.at[t].asleep)
  {
    var m := l.(enter := l.enter + 1, at := l.at[t := SpiLock.Waiting(l.enter, false)]);
    assert SpiLock.Enter(l, prio, t) == SpiLock.Resume(m, prio, t);
    hide SpiLock.Inv, SpiLock.Overtakes, SpiLock.Enter, SpiLock.Resume;
    SpiLock.AddKeeps(l, prio, t);
    ResumeIs(m, prio, t);
  }

  lemma ResumeIs(l: SpiLock.Lock, prio: seq<nat>, t: nat)
    requires SpiLock.Inv(l, prio) && t < |l.at| && l.at[t].Waiting?
    ensures var r := SpiLock.Resume(l, prio, t);
            && SpiLock.Inv(r, prio) && OthersKeep(l, r, t) && !r.at[t].Out?
            && (r.owner == Some(t) ==> l.owner.None? && SpiLock.Overtakes(r, prio, t))
            && (r.owner != Some(t) ==> r.owner == l.owner)
            && (r.at[t].Waiting? ==> r.at[t].asleep)
  {
    hide SpiLock.Inv, SpiLock.Overtakes;
    SpiLock.TurnKeeps(l, prio, t);
  }

  /** When the search task gets the lock, no channel task is past a loss of signal. */
  lemma NobodyLosing(s: Sys, sky: seq<SatType>, prio: seq<nat>, r: SpiLock.Lock, c: nat)
    requires SysInv(s, sky, prio) && s.searching && OthersKeep(s.l, r, SearchTask(s)) && SpiLock.Inv(r, prio)
    requires r.owner == Some(SearchTask(s)) && SpiLock.Overtakes(r, prio, SearchTask(s)) && c < |s.g.task|
    ensures s.g.task[c] != Losing
  {
    hide SpiLock.Inv, SpiLock.Overtakes, Served, GpsAlloc.Inv, Foremost;
    OvertakenAt(r, prio, SearchTask(s), c);
    ForemostAt(s, prio, c);
  }

  lemma OvertakenAt(r: SpiLock.Lock, prio: seq<nat>, t: nat, c: nat)
    requires SpiLock.Inv(r, prio) && r.owner == Some(t) && t < |prio| && SpiLock.Overtakes(r, prio, t)
    requires c < |prio| && prio[c] > prio[t]
    ensures !r.at[c].Holding? && !(r.at[c].Waiting? && r.at[c].asleep)
  {
    assert SpiLock.Uses(r, c) <==> !r.at[c].Out?;
  }

  lemma ForemostAt(s: Sys, prio: seq<nat>, c: nat)
    requires Priorities(s, prio) && Foremost(s, prio) && c < |s.g.task|
    ensures !Runnable(s, c)
  {
  }

  lemma LockStep(s: Sys, sky: seq<SatType>, prio: seq<nat>, t: nat, r: SpiLock.Lock)
    requires SysInv(s, sky, prio) && Runs(s, t) && OthersKeep(s.l, r, t) && !r.at[t].Out? && SpiLock.Inv(r, prio)
    requires t < |s.g.task| ==> s.g.task[t] != Asleep
    requires r.owner == Some(t) ==> SpiLock.Overtakes(r, prio, t)
    requires r.owner != Some(t) ==> r.owner == s.l.owner
    requires r.at[t].Waiting? ==> r.at[t].asleep
    ensures SysInv(Locked(s, r), sky, prio)
  {
    var v := Locked(s, r);
    if t == SearchTask(s) && r.owner == Some(t) && s.g.search.Sampling? {
      NobodyLosing(s, sky, prio, r, s.g.search.ch);
    }
    hide SpiLock.Inv, SpiLock.Overtakes, Served, GpsAlloc.KeepsReserve, GpsAlloc.Tracked;
    assert s.searching ==> forall u :: 0 <= u < |prio| && Runnable(v, u) ==> Runnable(s, u);
  }

  lemma SearchStep(s: Sys, sky: seq<SatType>, prio: seq<nat>, e: Event)
    requires SysInv(s, sky, prio) && CanStep(s, sky, prio, Search(e))
    ensures SysInv(Do(s, sky, prio, Search(e)), sky, prio)
  {
    hide SpiLock.Inv, Served, GpsAlloc.Inv, Apply, Enabled;
    InvShape(s.g, sky);
    OwnerIsIn(s.l, prio, SearchTask(s));
    SearchKeeps(s, sky, prio, e);
    TasksKept(s.g, sky, e);
    SampledIsNew(s.g, sky, e);
    var r := Apply(s.g, sky, e);
    InvShape(r, sky);
    hide GpsAlloc.Shape;
    var v := s.(g := r, ready := s.ready && !e.Try?);
    assert v == Do(s, sky, prio, Search(e));
    assert forall u :: 0 <= u < |prio| && Runnable(v, u) ==> Runnable(s, u);
  }

  lemma OwnerIsIn(l: SpiLock.Lock, prio: seq<nat>, t: nat)
    requires SpiLock.Inv(l, prio) && t < |l.at| && l.at[t].Out?
    ensures l.owner != Some(t)
  {
  }

  lemma InvShape(g: Gps, sky: seq<SatType>)
    requires GpsAlloc.Inv(g, sky)
    ensures GpsAlloc.Shape(g, sky) && (g.search.Sampling? ==> g.search.ch < |g.task|)
  {
  }

  lemma SearchKeeps(s: Sys, sky: seq<SatType>, prio: seq<nat>, e: Event)
    requires SysInv(s, sky, prio) && CanStep(s, sky, prio, Search(e))
    ensures Enabled(s.g, sky, e) && IsSearchEvent(e)
    ensures GpsAlloc.Inv(Apply(s.g, sky, e), sky) && Served(Apply(s.g, sky, e), sky)
  {
    assert Settled(s.g, e);
    hide Served, GpsAlloc.Inv, Apply, Settled, Enabled;
    EventKeeps(s.g, sky, e);
    ServedKeeps(s.g, sky, e);
  }

  lemma TasksKept(g: Gps, sky: seq<SatType>, e: Event)
    requires GpsAlloc.Inv(g, sky) && Enabled(g, sky, e) && IsSearchEvent(e)
    ensures var r := Apply(g, sky, e);
            && |r.task| == |g.task|
            && forall c :: 0 <= c < |g.task| ==> r.task[c] == g.task[c] || (g.task[c] == Asleep && r.task[c] == Serving)
  {
  }

  /** After an event of the search task a channel is being sampled for only if this is new, or
      nothing has happened to its task. */
  lemma SampledIsNew(g: Gps, sky: seq<SatType>, e: Event)
    requires GpsAlloc.Inv(g, sky) && Enabled(g, sky, e) && IsSearchEvent(e)
    ensures Apply(g, sky, e).search.Sampling? ==> e.Try?
  {
  }

  lemma LeaveStep(s: Sys, sky: seq<SatType>, prio: seq<nat>, t: nat)
    requires SysInv(s, sky, prio) && CanStep(s, sky, prio, LeaveLock(t))
    ensures SysInv(Do(s, sky, prio, LeaveLock(t)), sky, prio)
  {
    var v := Do(s, sky, prio, LeaveLock(t));
    SpiLock.LeaveKeeps(s.l, prio, t);
    hide SpiLock.Inv, Served, GpsAlloc.KeepsReserve, GpsAlloc.Tracked, GpsAlloc.Inv;
    if v.searching {
      forall u | 0 <= u < |prio| && Runnable(v, u) ensures prio[u] <= prio[SearchTask(s)] {
        assert Runnable(s, u) || u == t || (s.l.at[u].Waiting? && s.l.at[u].asleep);
      }
    }
  }

  lemma TaskStep(s: Sys, sky: seq<SatType>, prio: seq<nat>, e: Event)
    requires SysInv(s, sky, prio) && !s.searching && (e.Lost? || e.Finished?) && Enabled(s.g, sky, e)
    requires e.Finished? ==> s.l.at[e.c].Out?
    ensures SysInv(s.(g := Apply(s.g, sky, e)), sky, prio)
  {
    EventKeeps(s.g, sky, e);
    ServedKeeps(s.g, sky, e);
    hide SpiLock.Inv, Served, GpsAlloc.KeepsReserve, GpsAlloc.Tracked;
  }

  lemma InlineStep(s: Sys, sky: seq<SatType>, prio: seq<nat>, e: Step)
    requires SysInv(s, sky, prio) && CanStep(s, sky, prio, e) && (e.EnterLock? || e.ResumeLock?)
    ensures SysInv(Do(s, sky, prio, e), sky, prio)
  {
    hide SpiLock.Inv, Served, GpsAlloc.Inv, SpiLock.Enter, SpiLock.Resume, SpiLock.Overtakes;
    var r := if e.EnterLock? then SpiLock.Enter(s.l, prio, e.t) else SpiLock.Resume(s.l, prio, e.t);
    if e.EnterLock? { EnterIs(s.l, prio, e.t); } else { ResumeIs(s.l, prio, e.t); }
    LockStep(s, sky, prio, e.t, r);
  }

  lemma LoseStep(s: Sys, sky: seq<SatType>, prio: seq<nat>, c: nat)
    requires SysInv(s, sky, prio) && CanStep(s, sky, prio, LoseSignal(c))
    ensures SysInv(Do(s, sky, prio, LoseSignal(c)), sky, prio)
  {
    var r, m := SpiLock.Enter(s.l, prio, c), s.(g := Apply(s.g, sky, Lost(c)));
    assert Runs(m, c) && m.g.task[c] == Losing;
    hide SpiLock.Inv, Served, GpsAlloc.Inv, SpiLock.Enter, SpiLock.Overtakes, Apply;
    TaskStep(s, sky, prio, Lost(c));
    EnterIs(s.l, prio, c);
    LockStep(m, sky, prio, c, r);
  }

  lemma PauseStep(s: Sys, sky: seq<SatType>, prio: seq<nat>, e: Step)
    requires SysInv(s, sky, prio) && CanStep(s, sky, prio, e) && (e.Switch? || e.Yield? || e.Finish?)
    ensures SysInv(Do(s, sky, prio, e), sky, prio)
  {
    if e.Finish? { TaskStep(s, sky, prio, Finished(e.c)); }
    hide SpiLock.Inv, Served, GpsAlloc.Inv;
  }

  lemma StepKeeps(s: Sys, sky: seq<SatType>, prio: seq<nat>, e: Step)
    requires SysInv(s, sky, prio) && CanStep(s, sky, prio, e)
    ensures SysInv(Do(s, sky, prio, e), sky, prio)
  {
    hide *;
    match e
    case Search(ev) => SearchStep(s, sky, prio, ev);
    case LeaveLock(t) => LeaveStep(s, sky, prio, t);
    case LoseSignal(c) => LoseStep(s, sky, prio, c);
    case EnterLock(_) => InlineStep(s, sky, prio, e);
    case ResumeLock(_) => InlineStep(s, sky, prio, e);
    case _ => PauseStep(s, sky, prio, e);
  }

  // ---- whole runs ----------------------------------------------------------------------

  /** Each step can be taken when its turn comes. */
  ghost predicate ValidRun(s: Sys, sky: seq<SatType>, prio: seq<nat>, es: seq<Step>)
    decreases |es|
  {
    es == [] || (Priorities(s, prio) && GpsAlloc.Shape(s.g, sky) && CanStep(s, sky, prio, es[0])
                 && ValidRun(Do(s, sky, prio, es[0]), sky, prio, es[1..]))
  }

  ghost function DoAll(s: Sys, sky: seq<SatType>, prio: seq<nat>, es: seq<Step>): Sys
    requires ValidRun(s, sky, prio, es)
    decreases |es|
  {
    if es == [] then s else DoAll(Do(s, sky, prio, es[0]), sky, prio, es[1..])
  }

  lemma {:induction false} RunKeeps(s: Sys, sky: seq<SatType>, prio: seq<nat>, es: seq<Step>)
    requires SysInv(s, sky, prio) && ValidRun(s, sky, prio, es)
    ensures SysInv(DoAll(s, sky, prio, es), sky, prio)
    decreases |es|
  {
    hide CanStep, Do;
    if es != [] {
      StepKeeps(s, sky, prio, es[0]);
      RunKeeps(Do(s, sky, prio, es[0]), sky, prio, es[1..]);
    }
  }

  function Start(chans: nat, sky: seq<SatType>, tasks: nat): Sys {
    Sys(Initial(chans, sky), SpiLock.Lock(0, 0, None, seq(tasks, _ => SpiLock.Out)), false, false)
  }

  lemma StartOk(chans: nat, sky: seq<SatType>, prio: seq<nat>)
    requires sky != [] && |prio| > chans && forall c :: 0 <= c < chans ==> prio[c] > prio[chans]
    ensures SysInv(Start(chans, sky, |prio|), sky, prio)
  {
    InitialOk(chans, sky);
    var l := Start(chans, sky, |prio|).l;
    assert forall t :: !SpiLock.Uses(l, t);
    assert SpiLock.Next(l).None?;
    hide GpsAlloc.Inv, Served;
  }

  /** Channel tasks have a higher priority than the search task, which is task `chans`. */
  predicate Ranked(chans: nat, prio: seq<nat>) {
    chans < |prio| && forall c :: 0 <= c < chans ==> prio[c] > prio[chans]
  }

  /** In every run from the start under the lock and the scheduler, every busy channel is served,
      in the mode of its satellite, or just about to be. */
  lemma RunServes(chans: nat, sky: seq<SatType>, prio: seq<nat>, es: seq<Step>)
    requires sky != [] && Ranked(chans, prio) && ValidRun(Start(chans, sky, |prio|), sky, prio, es)
    ensures var g := DoAll(Start(chans, sky, |prio|), sky, prio, es).g; GpsAlloc.Inv(g, sky) && Served(g, sky)
  {
    StartOk(chans, sky, prio);
    hide ValidRun, DoAll, Start, SpiLock.Inv, Foremost, GpsAlloc.Inv, Served;
    RunKeeps(Start(chans, sky, |prio|), sky, prio, es);
  }

  /** In such a run the search task never starts a channel whose task has not finished. */
  lemma StartsSettled(chans: nat, sky: seq<SatType>, prio: seq<nat>, es: seq<Step>)
    requires sky != [] && Ranked(chans, prio) && ValidRun(Start(chans, sky, |prio|), sky, prio, es)
    requires var s := DoAll(Start(chans, sky, |prio|), sky, prio, es);
             Priorities(s, prio) && CanStep(s, sky, prio, Search(Strong))
    ensures Settled(DoAll(Start(chans, sky, |prio|), sky, prio, es).g, Strong)
  {
    StartOk(chans, sky, prio);
    hide ValidRun, DoAll, Start, SpiLock.Inv, Foremost, GpsAlloc.Inv, Served;
    RunKeeps(Start(chans, sky, |prio|), sky, prio, es);
  }
}
