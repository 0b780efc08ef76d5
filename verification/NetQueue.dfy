/**
 The message queue of a connection as a value: what enqueue (with its lazy collection and
 overflow hysteresis), dequeue, done-marking and cleanup must do.
 */
module NetQueue {
  import opened Optional

  const ND_HIWAT := 64
  const ND_LOWAT := 32

  type Msg = seq<char>

  datatype Entry = Entry(msg: Msg, ttl: nat, dequeued: bool, done: bool)

  /** Entries oldest first; `cnt` counts those not dequeued. */
  datatype Queue = Queue(es: seq<Entry>, cnt: nat, ovfl: bool, ttl: nat)

  /** Done entries come closer to collection, if the queue uses a time to live. The code
      asserts that none of them has reached zero before. */
  function Age(es: seq<Entry>, ttl: nat): (r: seq<Entry>)
    ensures |r| == |es|
  {
    seq(|es|, i requires 0 <= i < |es| => AgeEntry(es[i], ttl))
  }

  function AgeEntry(e: Entry, ttl: nat): Entry {
    if ttl > 0 && e.done && e.ttl > 0 then e.(ttl := e.ttl - 1) else e
  }

  predicate AgeAsserts(q: Queue) {
    q.ttl > 0 ==> forall i :: 0 <= i < |q.es| ==> q.es[i].done ==> q.es[i].ttl > 0
  }

  /** How many entries at the old end are done with. */
  function Expired(es: seq<Entry>, ttl: nat): (n: nat)
    ensures n <= |es|
  {
    if es != [] && es[0].done && (ttl == 0 || es[0].ttl == 0) then 1 + Expired(es[1..], ttl) else 0
  }

  function Collect(q: Queue): seq<Entry> {
    var es := Age(q.es, q.ttl);
    es[Expired(es, q.ttl)..]
  }

  /** Overflow, once set, lasts until fewer than 32 messages wait. */
  predicate Refuses(q: Queue) {
    (q.ovfl && q.cnt >= ND_LOWAT) || q.cnt > ND_HIWAT
  }

  function Enqueue(q: Queue, m: Msg): Queue {
    if Refuses(q) then q.(es := Collect(q), ovfl := true)
    else Queue(Collect(q) + [Entry(m, q.ttl, false, false)], q.cnt + 1, false, q.ttl)
  }

  /** Index of the oldest entry not dequeued. */
  function FirstWaiting(es: seq<Entry>): (i: nat)
    ensures i <= |es|
  {
    if es == [] || !es[0].dequeued then 0 else 1 + FirstWaiting(es[1..])
  }

  function Dequeue(q: Queue): (r: (Queue, Option<Msg>)) {
    var i := FirstWaiting(q.es);
    if i == |q.es| then (q, None)
    else (Taken(q, i), Some(q.es[i].msg))
  }

  function Taken(q: Queue, i: nat): Queue
    requires i < |q.es|
  {
    q.(es := q.es[i := q.es[i].(dequeued := true)], cnt := if q.cnt > 0 then q.cnt - 1 else 0)
  }

  function MarkDone(q: Queue, i: nat): Queue
    requires i < |q.es|
  {
    q.(es := q.es[i := q.es[i].(done := true)])
  }

  function Cleanup(q: Queue): Queue { Queue([], 0, false, q.ttl) }

  // ---- what every queue keeps -------------------------------------------------------

  /** Dequeued entries are the old end, done ones are among them, `cnt` counts the others. */
  ghost predicate Inv(q: Queue) {
    && q.cnt <= |q.es| && q.cnt <= ND_HIWAT + 1
    && (forall i :: 0 <= i < |q.es| ==> (q.es[i].dequeued <==> i < |q.es| - q.cnt))
    && (forall i :: 0 <= i < |q.es| ==> q.es[i].done ==> q.es[i].dequeued)
  }

  /** The messages still to be delivered: those of the newest `cnt` entries. */
  function Pending(q: Queue): (ms: seq<Msg>)
    requires q.cnt <= |q.es|
    ensures |ms| == q.cnt
  {
    seq(q.cnt, i requires 0 <= i < q.cnt => q.es[|q.es| - q.cnt + i].msg)
  }

  lemma {:induction false} ExpiredDone(es: seq<Entry>, ttl: nat, k: nat)
    requires k < Expired(es, ttl)
    ensures es[k].done && (ttl == 0 || es[k].ttl == 0)
  {
    if k > 0 { ExpiredDone(es[1..], ttl, k - 1); }
  }

  /** Collection ends at the first entry that is not done with. */
  lemma {:induction false} ExpiredStops(es: seq<Entry>, ttl: nat)
    requires Expired(es, ttl) < |es|
    ensures var e := es[Expired(es, ttl)]; !(e.done && (ttl == 0 || e.ttl == 0))
  {
    if Expired(es, ttl) > 0 { ExpiredStops(es[1..], ttl); }
  }

  lemma {:induction false} ExpiredAtMost(es: seq<Entry>, ttl: nat, n: nat)
    requires n <= |es| && (n < |es| ==> !es[n].done)
    ensures Expired(es, ttl) <= n
  {
    if n > 0 { ExpiredAtMost(es[1..], ttl, n - 1); }
  }

  /** Ageing and collection lose no pending message and no waiting entry. */
  lemma CollectKeeps(q: Queue)
    requires Inv(q)
    ensures var r := q.(es := Collect(q)); Inv(r) && Pending(r) == Pending(q)
  {
    var es := Age(q.es, q.ttl);
    ExpiredAtMost(es, q.ttl, |q.es| - q.cnt);
    assert forall i :: 0 <= i < |es| ==> es[i] == q.es[i].(ttl := es[i].ttl);
    hide Age, Expired;
    DropKeeps(q, es, Expired(es, q.ttl));
  }

  lemma DropKeeps(q: Queue, es: seq<Entry>, n: nat)
    requires Inv(q) && |es| == |q.es| && n <= |q.es| - q.cnt
    requires forall i :: 0 <= i < |es| ==> es[i] == q.es[i].(ttl := es[i].ttl)
    ensures var r := q.(es := es[n..]); Inv(r) && Pending(r) == Pending(q)
  {
    var r := q.(es := es[n..]);
    assert forall i :: 0 <= i < |r.es| ==> r.es[i] == es[n + i];
  }

  /** Enqueueing adds the message at the end, unless the queue refuses it. */
  lemma EnqueueKeeps(q: Queue, m: Msg)
    requires Inv(q)
    ensures Inv(Enqueue(q, m))
    ensures Pending(Enqueue(q, m)) == Pending(q) + (if Refuses(q) then [] else [m])
  {
    CollectKeeps(q);
  }

  lemma {:induction false} FirstWaitingIs(es: seq<Entry>, n: nat)
    requires n <= |es| && (forall i :: 0 <= i < n ==> es[i].dequeued) && (n < |es| ==> !es[n].dequeued)
    ensures FirstWaiting(es) == n
  {
    if n > 0 { FirstWaitingIs(es[1..], n - 1); }
  }

  /** Dequeueing hands out exactly the oldest pending message. */
  lemma DequeueKeeps(q: Queue)
    requires Inv(q)
    ensures var (r, m) := Dequeue(q);
            Inv(r) && if Pending(q) == [] then m == None && r == q
                      else m == Some(Pending(q)[0]) && Pending(r) == Pending(q)[1..]
  {
    FirstWaitingIs(q.es, |q.es| - q.cnt);
  }

  lemma MarkDoneKeeps(q: Queue, i: nat)
    requires Inv(q) && i < |q.es| && q.es[i].dequeued
    ensures Inv(MarkDone(q, i)) && Pending(MarkDone(q, i)) == Pending(q)
  {
  }

  // ---- whole runs -------------------------------------------------------------------

  datatype Op = Put(m: Msg) | Take | Done(i: nat) | Clean

  /** A queue with its history: what was accepted, and delivered, since the last cleanup. */
  datatype History = History(q: Queue, accepted: seq<Msg>, delivered: seq<Msg>)

  function Apply(h: History, op: Op): History {
    match op
    case Put(m) => History(Enqueue(h.q, m), if Refuses(h.q) then h.accepted else h.accepted + [m], h.delivered)
    case Take =>
      var (r, m) := Dequeue(h.q);
      History(r, h.accepted, if m.Some? then h.delivered + [m.value] else h.delivered)
    case Done(i) =>
      if i < |h.q.es| && h.q.es[i].dequeued then h.(q := MarkDone(h.q, i)) else h
    case Clean => History(Cleanup(h.q), [], [])
  }

  function Run(h: History, ops: seq<Op>): History
    decreases |ops|
  {
    if ops == [] then h else Run(Apply(h, ops[0]), ops[1..])
  }

  /** Everything accepted has been delivered, in order and unchanged, or is pending. */
  ghost predicate Conserves(h: History) {
    Inv(h.q) && h.accepted == h.delivered + Pending(h.q)
  }

  lemma ApplyConserves(h: History, op: Op)
    requires Conserves(h)
    ensures Conserves(Apply(h, op))
  {
    match op
    case Put(m) => EnqueueKeeps(h.q, m);
    case Take => DequeueKeeps(h.q);
    case Done(i) => if i < |h.q.es| && h.q.es[i].dequeued { MarkDoneKeeps(h.q, i); }
    case Clean =>
  }

  function New(ttl: nat): History { History(Queue([], 0, false, ttl), [], []) }

  /** In every run, messages are delivered once each, in the order of arrival. */
  lemma {:induction false} RunConserves(h: History, ops: seq<Op>)
    requires Conserves(h)
    ensures Conserves(Run(h, ops))
    decreases |ops|
  {
    if ops != [] {
      ApplyConserves(h, ops[0]);
      RunConserves(Apply(h, ops[0]), ops[1..]);
    }
  }

  /** After an overflow nothing is accepted until fewer than 32 messages wait. */
  lemma {:induction false} OverflowLasts(h: History, ops: seq<Op>, k: nat)
    requires Conserves(h) && h.q.ovfl && k <= |ops|
    requires forall i :: 0 <= i < |ops| ==> !ops[i].Clean?
    requires forall i :: 0 <= i <= k ==> Run(h, ops[..i]).q.cnt >= ND_LOWAT
    ensures Run(h, ops[..k]).q.ovfl && Run(h, ops[..k]).accepted == h.accepted
  {
    if k > 0 {
      OverflowLasts(h, ops, k - 1);
      RunSnoc(h, ops[..k - 1], ops[k - 1]);
      assert ops[..k] == ops[..k - 1] + [ops[k - 1]];
    }
  }

  lemma {:induction false} RunSnoc(h: History, ops: seq<Op>, op: Op)
    ensures Run(h, ops + [op]) == Apply(Run(h, ops), op)
    decreases |ops|
  {
    if ops == [] {
      assert [op][1..] == [];
    } else {
      assert (ops + [op])[1..] == ops[1..] + [op];
      RunSnoc(Apply(h, ops[0]), ops[1..], op);
    }
  }

  // ---- the time-to-live assertion ---------------------------------------------------

  /** No done entry is behind one that is not done. */
  ghost predicate DoneFirst(es: seq<Entry>) {
    forall i, j :: 0 <= i < j < |es| && es[j].done ==> es[i].done
  }

  /** Times to live are positive and do not decrease towards the newer entries; those not done
      have the full time. */
  ghost predicate Timed(q: Queue) {
    && q.ttl > 0
    && (forall i :: 0 <= i < |q.es| ==> 0 < q.es[i].ttl <= q.ttl && (!q.es[i].done ==> q.es[i].ttl == q.ttl))
    && (forall i, j :: 0 <= i < j < |q.es| ==> q.es[i].ttl <= q.es[j].ttl)
  }

  lemma AgeTimed(q: Queue)
    requires Timed(q) && DoneFirst(q.es)
    ensures var es := Age(q.es, q.ttl);
            && (forall i :: 0 <= i < |es| ==> es[i].ttl <= q.ttl && (!es[i].done ==> es[i].ttl == q.ttl))
            && (forall i, j :: 0 <= i < j < |es| ==> es[i].ttl <= es[j].ttl) && DoneFirst(es)
  {
  }

  /** Collection takes all entries that have no time left. */
  lemma CollectTimed(q: Queue)
    requires Timed(q) && DoneFirst(q.es)
    ensures Timed(q.(es := Collect(q))) && DoneFirst(Collect(q))
  {
    var es := Age(q.es, q.ttl);
    var n := Expired(es, q.ttl);
    AgeTimed(q);
    if n < |es| { ExpiredStops(es, q.ttl); }
    hide Age, Expired;
    DropTimed(es, q.ttl, n);
  }

  lemma DropTimed(es: seq<Entry>, ttl: nat, n: nat)
    requires ttl > 0 && n <= |es| && DoneFirst(es) && (n < |es| ==> !(es[n].done && es[n].ttl == 0))
    requires forall i :: 0 <= i < |es| ==> es[i].ttl <= ttl && (!es[i].done ==> es[i].ttl == ttl)
    requires forall i, j :: 0 <= i < j < |es| ==> es[i].ttl <= es[j].ttl
    ensures DoneFirst(es[n..])
    ensures forall i :: 0 <= i < |es[n..]| ==> 0 < es[n..][i].ttl <= ttl && (!es[n..][i].done ==> es[n..][i].ttl == ttl)
    ensures forall i, j :: 0 <= i < j < |es[n..]| ==> es[n..][i].ttl <= es[n..][j].ttl
  {
    var c := es[n..];
    forall i | 0 <= i < |c| ensures c[i] == es[n + i] && c[i].ttl > 0 {
      assert i > 0 ==> es[n].ttl <= es[n + i].ttl;
    }
  }

  lemma EnqueueTimed(q: Queue, m: Msg)
    requires Timed(q) && DoneFirst(q.es)
    ensures Timed(Enqueue(q, m)) && DoneFirst(Enqueue(q, m).es)
  {
    CollectTimed(q);
    if !Refuses(q) { assert Enqueue(q, m).es == Collect(q) + [Entry(m, q.ttl, false, false)]; }
  }

  lemma ApplyTimed(h: History, op: Op)
    requires Timed(h.q) && (op.Put? ==> DoneFirst(h.q.es))
    ensures Timed(Apply(h, op).q)
  {
    if op.Put? { EnqueueTimed(h.q, op.m); }
  }

  function Puts(m: Msg, n: nat): (ops: seq<Op>)
    ensures |ops| == n && forall i :: 0 <= i < n ==> ops[i] == Put(m)
  {
    if n == 0 then [] else [Put(m)] + Puts(m, n - 1)
  }

  /** While only messages come, the assertion holds. */
  lemma {:induction false} PutsAssert(h: History, m: Msg, n: nat)
    requires Timed(h.q) && DoneFirst(h.q.es)
    ensures AgeAsserts(Run(h, Puts(m, n)).q)
    decreases n
  {
    if n > 0 {
      EnqueueTimed(h.q, m);
      PutsAssert(Apply(h, Put(m)), m, n - 1);
      assert Puts(m, n)[1..] == Puts(m, n - 1);
    }
  }

  /** A done entry behind one that is not done is aged but not collected. */
  lemma BlockedAges(q: Queue, m: Msg, i: nat, j: nat) returns (k: nat, l: nat)
    requires q.ttl > 0 && i < j < |q.es| && !q.es[i].done && q.es[j].done
    ensures var r := Enqueue(q, m);
            && r.ttl == q.ttl && k < l < |r.es| && !r.es[k].done && r.es[l].done
            && r.es[l].ttl == (if q.es[j].ttl > 0 then q.es[j].ttl - 1 else 0)
  {
    var es := Age(q.es, q.ttl);
    ExpiredAtMost(es, q.ttl, i);
    var n := Expired(es, q.ttl);
    k, l := i - n, j - n;
    assert Collect(q)[k] == es[i] && Collect(q)[l] == es[j];
  }

  lemma {:induction false} BlockedFails(h: History, m: Msg, i: nat, j: nat)
    requires h.q.ttl > 0 && i < j < |h.q.es| && !h.q.es[i].done && h.q.es[j].done
    ensures !AgeAsserts(Run(h, Puts(m, h.q.es[j].ttl)).q)
    decreases h.q.es[j].ttl
  {
    var n := h.q.es[j].ttl;
    if n > 0 {
      var k, l := BlockedAges(h.q, m, i, j);
      BlockedFails(Apply(h, Put(m)), m, k, l);
      assert Puts(m, n)[1..] == Puts(m, n - 1);
    }
  }

  /** From a queue with times in order, the assertion holds for any number of messages exactly
      if no done entry is behind one that is not done. */
  lemma PutsAssertIff(h: History, m: Msg)
    requires Timed(h.q)
    ensures (forall n :: AgeAsserts(Run(h, Puts(m, n)).q)) <==> DoneFirst(h.q.es)
  {
    if DoneFirst(h.q.es) {
      forall n: nat ensures AgeAsserts(Run(h, Puts(m, n)).q) { PutsAssert(h, m, n); }
    } else {
      var i, j :| 0 <= i < j < |h.q.es| && h.q.es[j].done && !h.q.es[i].done;
      BlockedFails(h, m, i, j);
    }
  }

  /** At every message in this run, no done entry is behind one that is not done. */
  ghost predicate Orderly(h: History, ops: seq<Op>) {
    forall k :: 0 <= k < |ops| && ops[k].Put? ==> DoneFirst(Run(h, ops[..k]).q.es)
  }

  /** At every message in this run, and whatever number of messages come there instead, the
      assertion holds. */
  ghost predicate Asserts(h: History, ops: seq<Op>, m: Msg) {
    forall k, n: nat :: 0 <= k < |ops| && ops[k].Put? ==> AgeAsserts(Run(Run(h, ops[..k]), Puts(m, n)).q)
  }

  /** Up to the first message that finds entries out of order, times stay in order. */
  lemma {:induction false} RunTimed(h: History, ops: seq<Op>, k: nat)
    requires Timed(h.q) && k <= |ops|
    requires forall i :: 0 <= i < k && ops[i].Put? ==> DoneFirst(Run(h, ops[..i]).q.es)
    ensures Timed(Run(h, ops[..k]).q)
    decreases k
  {
    if k > 0 {
      RunTimed(h, ops, k - 1);
      ApplyTimed(Run(h, ops[..k - 1]), ops[k - 1]);
      RunSnoc(h, ops[..k - 1], ops[k - 1]);
      assert ops[..k] == ops[..k - 1] + [ops[k - 1]];
    }
  }

  lemma {:induction false} OrderlyUpTo(h: History, ops: seq<Op>, m: Msg, k: nat)
    requires Timed(h.q) && Asserts(h, ops, m) && k <= |ops|
    ensures forall i :: 0 <= i < k && ops[i].Put? ==> DoneFirst(Run(h, ops[..i]).q.es)
    decreases k
  {
    if k > 0 {
      OrderlyUpTo(h, ops, m, k - 1);
      if ops[k - 1].Put? {
        RunTimed(h, ops, k - 1);
        PutsAssertIff(Run(h, ops[..k - 1]), m);
      }
    }
  }

  /** With a positive time to live, the assertion that no done buffer has run out of time holds
      for good exactly if at each message the done buffers are the oldest ones, in whatever
      order they were marked since the message before. */
  lemma TtlAssertIff(h: History, ops: seq<Op>, m: Msg)
    requires Timed(h.q)
    ensures Asserts(h, ops, m) <==> Orderly(h, ops)
  {
    if Asserts(h, ops, m) { OrderlyUpTo(h, ops, m, |ops|); }
    if Orderly(h, ops) {
      forall k, n: nat | 0 <= k < |ops| && ops[k].Put?
        ensures AgeAsserts(Run(Run(h, ops[..k]), Puts(m, n)).q)
      {
        RunTimed(h, ops, k);
        PutsAssert(Run(h, ops[..k]), m, n);
      }
    }
  }

  /** A reader that marks each buffer done before it takes the next one. */
  ghost predicate OneAtATime(h: History, ops: seq<Op>) {
    forall k, i :: 0 <= k < |ops| && ops[k].Take? && 0 <= i < |Run(h, ops[..k]).q.es| ==>
      var e := Run(h, ops[..k]).q.es[i]; e.dequeued ==> e.done
  }

  /** Only the newest of the buffers dequeued may not be done. */
  ghost predicate OneOut(q: Queue) {
    Inv(q) && forall i :: 0 <= i < |q.es| - q.cnt - 1 ==> q.es[i].done
  }

  lemma CollectOneOut(q: Queue)
    requires OneOut(q)
    ensures OneOut(q.(es := Collect(q)))
  {
    CollectKeeps(q);
    var es := Age(q.es, q.ttl);
    var n := Expired(es, q.ttl);
    forall i | 0 <= i < |Collect(q)| - q.cnt - 1 ensures Collect(q)[i].done {
      assert Collect(q)[i] == es[n + i];
    }
  }

  lemma ApplyOneOut(h: History, op: Op)
    requires OneOut(h.q) && (op.Take? ==> forall i :: 0 <= i < |h.q.es| && h.q.es[i].dequeued ==> h.q.es[i].done)
    ensures OneOut(Apply(h, op).q)
  {
    match op
    case Put(m) =>
      CollectOneOut(h.q);
      EnqueueKeeps(h.q, m);
    case Take =>
      DequeueKeeps(h.q);
      FirstWaitingIs(h.q.es, |h.q.es| - h.q.cnt);
    case Done(i) => if i < |h.q.es| && h.q.es[i].dequeued { MarkDoneKeeps(h.q, i); }
    case Clean =>
  }

  /** Such a reader keeps the assertion. */
  lemma {:induction false} OneAtATimeIsOrderly(h: History, ops: seq<Op>, k: nat)
    requires OneOut(h.q) && OneAtATime(h, ops) && k <= |ops|
    ensures OneOut(Run(h, ops[..k]).q) && DoneFirst(Run(h, ops[..k]).q.es)
    decreases k
  {
    if k > 0 {
      OneAtATimeIsOrderly(h, ops, k - 1);
      ApplyOneOut(Run(h, ops[..k - 1]), ops[k - 1]);
      RunSnoc(h, ops[..k - 1], ops[k - 1]);
      assert ops[..k] == ops[..k - 1] + [ops[k - 1]];
    }
  }

  /** Without a time to live, as in all queues of the program, there is nothing to assert. */
  lemma {:induction false} NoTtlAsserts(h: History, ops: seq<Op>)
    requires h.q.ttl == 0
    ensures AgeAsserts(Run(h, ops).q) && Run(h, ops).q.ttl == 0
    decreases |ops|
  {
    if ops != [] { NoTtlAsserts(Apply(h, ops[0]), ops[1..]); }
  }
}
