/**
 The lock of the SPI bus: tasks take tickets, and a task that finds one of lower priority next
 in line swaps tickets with it.
 */
module SpiLock {
  import opened Optional

  /** A task outside the lock code; in line, asleep or not; or the owner. */
  datatype Place = Out | Waiting(token: nat, asleep: bool) | Holding(token: nat)

  /** `enter` is the next ticket, `leave` the one being served; the places of all tasks. */
  datatype Lock = Lock(enter: nat, leave: nat, owner: Option<nat>, at: seq<Place>)

  predicate Uses(l: Lock, t: int) { 0 <= t < |l.at| && !l.at[t].Out? }

  /** The task with a ticket, among the first `n`. */
  function Holder(at: seq<Place>, n: nat, k: nat): (t: Option<nat>)
    requires n <= |at|
    ensures t.Some? ==> t.value < n && !at[t.value].Out? && at[t.value].token == k
    ensures t.None? ==> forall u :: 0 <= u < n && !at[u].Out? ==> at[u].token != k
  {
    if n == 0 then None
    else if !at[n - 1].Out? && at[n - 1].token == k then Some(n - 1)
    else Holder(at, n - 1, k)
  }

  /** The lowest ticket in line. */
  function Lowest(l: Lock): nat { l.leave + if l.owner.Some? then 1 else 0 }

  function Next(l: Lock): Option<nat> { Holder(l.at, |l.at|, Lowest(l)) }

  /** The lock is taken if it is the task's turn; else it sleeps. */
  function TakeOrSleep(l: Lock, t: nat): Lock
    requires t < |l.at| && l.at[t].Waiting?
  {
    if l.at[t].token > l.leave then l.(at := l.at[t := Waiting(l.at[t].token, true)])
    else l.(owner := Some(t), at := l.at[t := Holding(l.at[t].token)])
  }

  /** Tickets of `t` and `u` are exchanged. */
  function Swap(l: Lock, t: nat, u: nat): Lock
    requires t < |l.at| && u < |l.at| && l.at[t].Waiting? && l.at[u].Waiting?
  {
    l.(at := l.at[u := Waiting(l.at[t].token, l.at[u].asleep)][t := Waiting(l.at[u].token, l.at[t].asleep)])
  }

  /** The loop of `lock_enter`, when task `t` runs in line. */
  function Turn(l: Lock, prio: seq<nat>, t: nat): Lock
    requires t < |l.at| == |prio| && l.at[t].Waiting?
  {
    var u := Next(l);
    if l.at[t].token > l.leave && u.Some? && prio[t] > prio[u.value] && l.at[u.value].Waiting?
    then TakeOrSleep(Swap(l, t, u.value), t)
    else TakeOrSleep(l, t)
  }

  /** `lock_enter`, to the point where the task has the lock or sleeps. */
  function Enter(l: Lock, prio: seq<nat>, t: nat): Lock
    requires t < |l.at| == |prio| && l.at[t].Out?
  {
    Turn(l.(enter := l.enter + 1, at := l.at[t := Waiting(l.enter, false)]), prio, t)
  }

  /** The same for a task that was woken in line. */
  function Resume(l: Lock, prio: seq<nat>, t: nat): Lock
    requires t < |l.at| == |prio| && l.at[t].Waiting?
  {
    Turn(l, prio, t)
  }

  function Wake(p: Place): Place { if p.Waiting? then p.(asleep := false) else p }

  /** `lock_leave`: all in line are woken; tickets start again when nobody is. */
  function Leave(l: Lock, t: nat): Lock
    requires t < |l.at|
  {
    var at := seq(|l.at|, u requires 0 <= u < |l.at| => if u == t then Out else Wake(l.at[u]));
    if l.enter == l.leave + 1 then Lock(0, 0, None, at) else Lock(l.enter, l.leave + 1, None, at)
  }

  // ---- what the lock keeps -------------------------------------------------------------

  /** Tickets are different, and each one from the one served on is held by somebody. */
  ghost predicate Tickets(l: Lock) {
    && l.leave <= l.enter
    && (forall t :: Uses(l, t) ==> l.leave <= l.at[t].token < l.enter)
    && (forall t, u :: Uses(l, t) && Uses(l, u) && t != u ==> l.at[t].token != l.at[u].token)
    && (forall k: nat :: l.leave <= k < l.enter ==> Holder(l.at, |l.at|, k).Some?)
  }

  /** The owner holds the ticket served. */
  ghost predicate Owned(l: Lock) {
    && (forall t :: Uses(l, t) ==> (l.at[t].Holding? <==> l.owner == Some(t)))
    && (l.owner.Some? ==> l.owner.value < |l.at| && l.at[l.owner.value] == Holding(l.leave))
  }

  /** A free lock has somebody awake to take it, and whoever sleeps has no higher priority. */
  ghost predicate Lively(l: Lock, prio: seq<nat>)
    requires |prio| == |l.at|
  {
    l.owner.None? && Next(l).Some? ==>
      var h := Next(l).value;
      && l.at[h].Waiting? && !l.at[h].asleep
      && forall u :: 0 <= u < |l.at| && l.at[u].Waiting? && l.at[u].asleep ==> prio[u] <= prio[h]
  }

  ghost predicate Inv(l: Lock, prio: seq<nat>) {
    |prio| == |l.at| && Tickets(l) && Owned(l) && Lively(l, prio)
  }

  lemma HolderIs(l: Lock, t: nat)
    requires Tickets(l) && Uses(l, t)
    ensures Holder(l.at, |l.at|, l.at[t].token) == Some(t)
  {
    var u := Holder(l.at, |l.at|, l.at[t].token).value;
    assert Uses(l, u);
  }

  /** While a task is in line, somebody in line has the lowest ticket. */
  lemma InLine(l: Lock, t: nat)
    requires Tickets(l) && Owned(l) && t < |l.at| && l.at[t].Waiting?
    ensures Next(l).Some? && l.at[Next(l).value].Waiting? && Lowest(l) <= l.at[t].token
    ensures l.owner.Some? ==> l.at[t].token > l.leave
  {
    assert Uses(l, t);
    if l.owner.Some? { assert Uses(l, l.owner.value) && l.at[t].token != l.at[l.owner.value].token; }
    assert Holder(l.at, |l.at|, Lowest(l)).Some?;
    var u := Next(l).value;
    assert Uses(l, u);
  }

  lemma SwapKeeps(l: Lock, t: nat, u: nat)
    requires Tickets(l) && Owned(l) && t < |l.at| && u < |l.at| && t != u && l.at[t].Waiting? && l.at[u].Waiting?
    ensures Tickets(Swap(l, t, u)) && Owned(Swap(l, t, u))
  {
    var r := Swap(l, t, u);
    assert Uses(l, t) && Uses(l, u);
    assert forall v :: Uses(l, v) <==> Uses(r, v);
    forall k: nat | l.leave <= k < l.enter ensures Holder(r.at, |r.at|, k).Some? {
      var v := Holder(l.at, |l.at|, k).value;
      var w := if v == t then u else if v == u then t else v;
      assert !r.at[w].Out? && r.at[w].token == k;
    }
  }

  lemma AddKeeps(l: Lock, prio: seq<nat>, t: nat)
    requires Inv(l, prio) && t < |l.at| && l.at[t].Out?
    ensures Inv(l.(enter := l.enter + 1, at := l.at[t := Waiting(l.enter, false)]), prio)
  {
    var r := l.(enter := l.enter + 1, at := l.at[t := Waiting(l.enter, false)]);
    assert forall v :: Uses(r, v) <==> v == t || Uses(l, v);
    forall k: nat | r.leave <= k < r.enter ensures Holder(r.at, |r.at|, k).Some? {
      if k < l.enter {
        var v := Holder(l.at, |l.at|, k).value;
        assert !r.at[v].Out? && r.at[v].token == k;
      } else {
        assert r.at[t].token == k;
      }
    }
    assert forall v :: Uses(l, v) ==> v != t && r.at[v] == l.at[v] && l.leave <= l.at[v].token < l.enter;
    if l.owner.Some? { assert Uses(l, l.owner.value) && l.leave < l.enter; }
    assert Tickets(r) && Owned(r);
    if l.owner.None? { AddLively(l, r, prio, t); }
  }

  lemma AddLively(l: Lock, r: Lock, prio: seq<nat>, t: nat)
    requires Inv(l, prio) && t < |l.at| && l.at[t].Out? && l.owner.None? && Tickets(r) && Owned(r)
    requires r == l.(enter := l.enter + 1, at := l.at[t := Waiting(l.enter, false)])
    ensures Lively(r, prio)
  {
    if l.leave < l.enter {
      var h := Next(l).value;
      assert Uses(r, h);
      HolderIs(r, h);
    } else {
      HolderIs(r, t);
      forall u | 0 <= u < |l.at| && r.at[u].Waiting? && r.at[u].asleep ensures false {
        assert Uses(l, u);
      }
    }
  }

  lemma TakeKeeps(l: Lock, prio: seq<nat>, t: nat)
    requires |prio| == |l.at| && Tickets(l) && Owned(l) && t < |l.at| && l.at[t].Waiting? && l.at[t].token == l.leave
    ensures var r := TakeOrSleep(l, t); Inv(r, prio) && r.owner == Some(t)
  {
    InLine(l, t);
    var r := TakeOrSleep(l, t);
    assert forall v :: Uses(l, v) <==> Uses(r, v);
    assert Uses(l, t);
    forall k: nat | l.leave <= k < l.enter ensures Holder(r.at, |r.at|, k).Some? {
      var v := Holder(l.at, |l.at|, k).value;
      assert !r.at[v].Out? && r.at[v].token == k;
    }
  }

  lemma SleepKeeps(l: Lock, prio: seq<nat>, t: nat)
    requires |prio| == |l.at| && Tickets(l) && Owned(l) && t < |l.at| && l.at[t].Waiting? && l.at[t].token > l.leave
    requires l.owner.None? ==> Lively(l, prio) && Next(l).Some? && prio[t] <= prio[Next(l).value]
    ensures var r := TakeOrSleep(l, t); Inv(r, prio) && r.owner == l.owner
  {
    var r := TakeOrSleep(l, t);
    assert forall v :: Uses(l, v) <==> Uses(r, v);
    assert Uses(l, t);
    forall k: nat | l.leave <= k < l.enter ensures Holder(r.at, |r.at|, k).Some? {
      var v := Holder(l.at, |l.at|, k).value;
      assert !r.at[v].Out? && r.at[v].token == k;
    }
    if l.owner.None? {
      var h := Next(l).value;
      assert Uses(r, h);
      HolderIs(r, h);
    }
  }

  /** A turn in line keeps the lock in order. If the lock is taken, nobody of higher priority
      sleeps in line. */
  lemma TurnKeeps(l: Lock, prio: seq<nat>, t: nat)
    requires Inv(l, prio) && t < |l.at| && l.at[t].Waiting?
    ensures var r := Turn(l, prio, t);
            && Inv(r, prio) && !r.at[t].Out?
            && (r.owner == Some(t) ==> l.owner.None? && Overtakes(r, prio, t))
            && (r.owner != Some(t) ==> r.owner == l.owner)
  {
    InLine(l, t);
    var h := Next(l).value;
    if l.at[t].token > l.leave && prio[t] > prio[h] {
      var m := Swap(l, t, h);
      SwapKeeps(l, t, h);
      if l.owner.None? { TakeKeeps(m, prio, t); } else { SleepKeeps(m, prio, t); }
    } else if l.at[t].token > l.leave {
      SleepKeeps(l, prio, t);
    } else {
      HolderIs(l, t);
      TakeKeeps(l, prio, t);
    }
  }

  /** All others in line that sleep have at most the priority of `t`. */
  predicate Overtakes(l: Lock, prio: seq<nat>, t: nat)
    requires |prio| == |l.at| && t < |l.at|
  {
    forall u :: 0 <= u < |l.at| && l.at[u].Waiting? && l.at[u].asleep ==> prio[u] <= prio[t]
  }

  lemma LeaveKeeps(l: Lock, prio: seq<nat>, t: nat)
    requires Inv(l, prio) && l.owner == Some(t)
    ensures Inv(Leave(l, t), prio)
  {
    var r := Leave(l, t);
    assert forall v :: Uses(r, v) <==> v != t && Uses(l, v);
    assert Uses(l, t);
    assert forall v :: Uses(r, v) ==> l.at[v].token != l.leave;
    forall k: nat | r.leave <= k < r.enter ensures Holder(r.at, |r.at|, k).Some? {
      var v := Holder(l.at, |l.at|, k).value;
      assert !r.at[v].Out? && r.at[v].token == k;
    }
    assert Tickets(r) && Owned(r);
    if Next(r).Some? { assert Uses(r, Next(r).value); }
  }
}
