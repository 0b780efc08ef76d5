/**
 The buffers and queues of `nbuf.cpp`: nodes of a static pool, linked from the newest
 (`q`, along `next`) to the oldest (`q_head`, along `prev`). Every operation is shown to do
 to the linked structure what `NetQueue` says.
 */
module NetBuf {
  import opened Optional
  import opened NetQueue

  class Nbuf {
    var buf: Msg
    var ttl: nat
    var done: bool
    var dequeued: bool
    var isFree: bool
    var next: Nbuf?
    var prev: Nbuf?

    constructor ()
      ensures isFree
    {
      isFree := true;
    }

    ghost function AsEntry(): Entry
      reads this
    {
      Entry(buf, ttl, dequeued, done)
    }
  }

  ghost predicate Distinct(s: seq<Nbuf>) {
    forall i, j :: 0 <= i < j < |s| ==> s[i] != s[j]
  }

  ghost function Entries(s: seq<Nbuf>): (es: seq<Entry>)
    reads s
    ensures |es| == |s| && forall i :: 0 <= i < |s| ==> es[i] == s[i].AsEntry()
  {
    seq(|s|, i requires 0 <= i < |s| reads s => s[i].AsEntry())
  }

  /** `s`, oldest first, is a well-formed doubly linked list of buffers in use. */
  ghost predicate Linked(s: seq<Nbuf>)
    reads s`isFree, s`next, s`prev
  {
    && Distinct(s)
    && (forall i :: 0 <= i < |s| ==> !s[i].isFree)
    && (forall i {:trigger s[i].prev} :: 0 <= i < |s| ==> s[i].prev == if i + 1 < |s| then s[i + 1] else null)
    && (forall i {:trigger s[i].next} :: 0 <= i < |s| ==> s[i].next == if i > 0 then s[i - 1] else null)
  }

  /** The links from the oldest buffer to the newest. */
  ghost predicate Back(s: seq<Nbuf>)
    reads s`prev
  {
    && Distinct(s)
    && forall k {:trigger s[k].prev} :: 0 <= k < |s| ==> s[k].prev == if k + 1 < |s| then s[k + 1] else null
  }

  lemma LinkedBack(s: seq<Nbuf>)
    requires Linked(s)
    ensures Back(s)
  {
  }

  lemma BackAt(s: seq<Nbuf>, k: nat)
    requires Back(s) && k < |s|
    ensures s[k].prev == (if k + 1 < |s| then s[k + 1] else null) && (s[k] == s[|s| - 1] <==> k + 1 == |s|)
  {
  }

  class Ndesc {
    var q: Nbuf?
    var q_head: Nbuf?
    var cnt: nat
    var ttl: nat
    var ovfl: bool
    ghost var list: seq<Nbuf>      // oldest first

    ghost predicate Shape()
      reads this`q, this`q_head, this`list, list`isFree, list`next, list`prev
    {
      && Linked(list)
      && q_head == (if list == [] then null else list[0])
      && q == (if list == [] then null else list[|list| - 1])
    }

    ghost function View(): Queue
      reads this, list
    {
      Queue(Entries(list), cnt, ovfl, ttl)
    }

    ghost predicate Valid()
      reads this, list
    {
      Shape() && Inv(View())
    }

    constructor (ttl: nat)
      ensures Valid() && View() == NetQueue.New(ttl).q && list == []
    {
      q, q_head, cnt, this.ttl, ovfl, list := null, null, 0, ttl, false, [];
    }

    /** The first `i` buffers have been aged. */
    ghost predicate AgedTo(i: nat, es: seq<Entry>)
      reads this, list
    {
      && i <= |list| == |es|
      && (forall k :: 0 <= k < i ==> list[k].AsEntry() == AgeEntry(es[k], ttl))
      && (forall k :: i <= k < |list| ==> list[k].AsEntry() == es[k])
    }

    method AgeOne(dp: Nbuf, ghost i: nat, ghost es: seq<Entry>)
      requires Shape() && AgedTo(i, es) && i < |list| && dp == list[i] && ttl > 0
      requires es[i].done ==> es[i].ttl > 0
      modifies dp`ttl
      ensures Shape() && AgedTo(i + 1, es)
    {
      assert dp.AsEntry() == es[i];
      if dp.done { dp.ttl := dp.ttl - 1; }
    }

    /** The first loop of `nbuf_enqueue`. */
    method AgeAll()
      requires Shape() && AgeAsserts(View())
      modifies list`ttl
      ensures Shape() && Entries(list) == Age(old(Entries(list)), ttl)
    {
      ghost var es := Entries(list);
      if ttl > 0 {
        ghost var i := 0;
        var dp := q_head;
        while dp != null
          invariant Shape() && AgedTo(i, es) && dp == (if i < |list| then list[i] else null)
          decreases |list| - i
        {
          AgeOne(dp, i, es);
          dp := dp.prev;
          i := i + 1;
        }
      }
    }

    /** Unlinks and frees the oldest buffer. */
    method FreeOldest()
      requires Shape() && list != []
      modifies this`q, this`q_head, this`list, list
      ensures Shape() && list == old(list)[1..] && old(list)[0].isFree
      ensures Entries(list) == old(Entries(list))[1..]
    {
      var dp := q_head;
      q_head := dp.prev;
      if q == dp {
        q := null;
      } else {
        q_head.next := null;
      }
      dp.isFree := true;
      list := list[1..];
    }

    /** The `n` oldest buffers of `s`, with contents `es`, have been collected. */
    ghost predicate CollectedTo(n: nat, s: seq<Nbuf>, es: seq<Entry>)
      reads this, list, s`isFree
    {
      && n <= |s| == |es| && list == s[n..] && Entries(list) == es[n..]
      && n + Expired(es[n..], ttl) == Expired(es, ttl)
      && forall k :: 0 <= k < n ==> s[k].isFree
    }

    method CollectOne(ghost n: nat, ghost s: seq<Nbuf>, ghost es: seq<Entry>)
      requires Shape() && Distinct(s) && CollectedTo(n, s, es) && n < |s| && es[n].done && (ttl == 0 || es[n].ttl == 0)
      modifies this`q, this`q_head, this`list, list
      ensures Shape() && CollectedTo(n + 1, s, es)
    {
      FreeOldest();
      assert es[n..][1..] == es[n + 1..] && s[n..][1..] == s[n + 1..];
    }

    /** The second loop of `nbuf_enqueue`: returns how many buffers were collected. */
    method CollectDone() returns (ghost n: nat)
      requires Shape()
      modifies this`q, this`q_head, this`list, list
      ensures Shape() && n == Expired(old(Entries(list)), ttl) && list == old(list)[n..]
      ensures Entries(list) == old(Entries(list))[n..]
      ensures forall k :: 0 <= k < n ==> old(list)[k].isFree
    {
      n := 0;
      ghost var s, es := list, Entries(list);
      while q_head != null && q_head.done && (ttl == 0 || q_head.ttl == 0)
        invariant Shape() && CollectedTo(n, s, es)
        decreases |list|
      {
        CollectOne(n, s, es);
        n := n + 1;
      }
    }

    /** Makes `nb` the newest buffer. */
    method LinkNew(nb: Nbuf)
      requires Shape() && nb !in list && !nb.isFree
      modifies this`q, this`q_head, this`list, list`prev, nb`next, nb`prev
      ensures Shape() && list == old(list) + [nb]
      ensures Entries(list) == old(Entries(list)) + [old(nb.AsEntry())]
    {
      if q != null { q.prev := nb; }
      nb.next := q;
      q := nb;
      nb.prev := null;
      if q_head == null { q_head := nb; }
      list := list + [nb];
    }

    /** Both loops: frees the buffers that are done with. */
    method CollectAll(ghost nb: Nbuf) returns (ghost n: nat)
      requires Shape() && AgeAsserts(View()) && nb !in list
      modifies this`q, this`q_head, this`list, list
      ensures Shape() && View() == old(View()).(es := Collect(old(View()))) && nb !in list
      ensures n <= |old(list)| && list == old(list)[n..] && forall k :: 0 <= k < n ==> old(list)[k].isFree
    {
      AgeAll();
      n := CollectDone();
    }

    /** Room or not, on a collected queue. */
    method Admit(nb: Nbuf) returns (refused: bool)
      requires Shape() && nb !in list && !nb.isFree && nb.AsEntry() == Entry(nb.buf, ttl, false, false)
      modifies this`q, this`q_head, this`list, this`cnt, this`ovfl, list`prev, nb`next, nb`prev
      ensures Shape() && refused == Refuses(old(View()))
      ensures list == old(list) + (if refused then [] else [nb])
      ensures View() == if refused then old(View()).(ovfl := true)
                        else Queue(old(View()).es + [Entry(nb.buf, ttl, false, false)], old(cnt) + 1, false, ttl)
    {
      refused := CheckRoom();
      if !refused {
        cnt := cnt + 1;
        LinkNew(nb);
      }
    }

    /** Hysteresis: returns whether the queue takes no more. */
    method CheckRoom() returns (refused: bool)
      modifies this`ovfl
      ensures refused == ovfl == ((old(ovfl) && cnt >= ND_LOWAT) || cnt > ND_HIWAT)
    {
      if ovfl && cnt < ND_LOWAT { ovfl := false; }
      refused := ovfl || cnt > ND_HIWAT;
      ovfl := refused;
    }

    /** `nbuf_enqueue`. The time-to-live assertion is a precondition; `NetQueue.TtlAssertIff` says
        when it is met. */
    method Enqueue(nb: Nbuf) returns (refused: bool)
      requires Valid() && AgeAsserts(View())
      requires nb !in list && !nb.isFree && nb.AsEntry() == Entry(nb.buf, ttl, false, false)
      modifies this`q, this`q_head, this`list, this`cnt, this`ovfl, list, nb`next, nb`prev
      ensures Shape() && View() == NetQueue.Enqueue(old(View()), nb.buf)
      ensures refused == Refuses(old(View()))
      ensures Kept(old(list), list, nb, refused) && (refused ==> nb !in list)
    {
      hide Shape, Collect, AgeAsserts, Entries, Kept;
      ghost var s := list;
      ghost var n := CollectAll(nb);
      refused := Admit(nb);
      KeptBy(n, s, list, nb, refused);
    }

    /** The end of `nbuf_allocq`: a refused buffer goes back to the pool. */
    method EnqueueOrFree(nb: Nbuf) returns (refused: bool)
      requires Valid() && AgeAsserts(View())
      requires nb !in list && !nb.isFree && nb.AsEntry() == Entry(nb.buf, ttl, false, false)
      modifies this, list, nb
      ensures Valid() && View() == NetQueue.Enqueue(old(View()), old(nb.buf))
      ensures refused == Refuses(old(View())) == nb.isFree
      ensures Kept(old(list), list, nb, refused)
    {
      hide Shape, NetQueue.Inv, NetQueue.Enqueue, AgeAsserts, Refuses, Kept, Entries;
      EnqueueKeeps(View(), nb.buf);
      refused := Enqueue(nb);
      if refused { nb.isFree := true; }
    }

    /** Walks from the oldest buffer to the first one not dequeued. */
    method FindWaiting() returns (nb: Nbuf?)
      requires Shape()
      ensures nb == var i := FirstWaiting(Entries(list)); if i < |list| then list[i] else null
    {
      ghost var es, i := Entries(list), 0;
      nb := q_head;
      while nb != null && nb.dequeued
        invariant i <= |list| && nb == (if i < |list| then list[i] else null)
        invariant i + FirstWaiting(es[i..]) == FirstWaiting(es)
        decreases |list| - i
      {
        assert es[i..][1..] == es[i + 1..] && es[i] == list[i].AsEntry();
        nb := nb.prev;
        i := i + 1;
      }
    }

    /** Where the first waiting buffer is, and what taking it out makes of the queue. */
    lemma Waiting()
      requires Valid()
      ensures View().es == Entries(list)
      ensures FirstWaiting(View().es) == |list| - cnt
      ensures cnt == 0 ==> NetQueue.Dequeue(View()) == (View(), None)
      ensures cnt > 0 ==> NetQueue.Dequeue(View()) == (Taken(View(), |list| - cnt), Some(list[|list| - cnt].buf))
      ensures cnt > 0 ==> !list[|list| - cnt].done
    {
      FirstWaitingIs(View().es, |list| - cnt);
      if cnt > 0 { assert list[|list| - cnt].AsEntry() == View().es[|list| - cnt]; }
    }

    /** `nbuf_dequeue`: marks and returns the oldest waiting buffer. */
    method Dequeue() returns (nb: Nbuf?)
      requires Valid()
      modifies this`cnt, list`dequeued
      ensures Valid() && (View(), if nb == null then None else Some(nb.buf)) == NetQueue.Dequeue(old(View()))
      ensures nb != null ==> nb in list && !nb.done
    {
      Waiting();
      DequeueKeeps(View());
      hide Shape, NetQueue.Inv, NetQueue.Dequeue, View, Taken, Entries;
      nb := FindWaiting();
      if nb != null { TakeOut(nb, |list| - cnt); }
    }

    method TakeOut(nb: Nbuf, ghost i: nat)
      requires Shape() && i < |list| && nb == list[i] && cnt > 0
      modifies this`cnt, nb`dequeued
      ensures Shape() && View() == Taken(old(View()), i)
    {
      ghost var v := View();
      nb.dequeued := true;
      cnt := cnt - 1;
      assert Entries(list) == v.es[i := v.es[i].(dequeued := true)];
    }

    /** `nbuf_queued`: walks from the newest to the oldest. */
    method Queued() returns (n: nat)
      requires Valid()
      ensures n == cnt
    {
      n := 0;
      ghost var i := |list|;
      var bp := q;
      while bp != null
        invariant i <= |list| && bp == (if i > 0 then list[i - 1] else null)
        invariant n == if |list| - i < cnt then |list| - i else cnt
        decreases i
      {
        assert bp.AsEntry() == View().es[i - 1];
        if !bp.dequeued { n := n + 1; }
        bp := bp.next;
        i := i - 1;
      }
    }

    /** The sender has written a dequeued buffer out. */
    method MarkDone(nb: Nbuf)
      requires Valid() && nb in list && nb.dequeued
      modifies nb`done
      ensures Valid() && exists i :: 0 <= i < |list| && list[i] == nb && View() == NetQueue.MarkDone(old(View()), i)
    {
      ghost var v := View();
      ghost var i :| 0 <= i < |list| && list[i] == nb;
      nb.done := true;
      assert View() == NetQueue.MarkDone(v, i);
    }

    /** `nbuf_cleanup`. */
    method Cleanup()
      requires Valid()
      modifies this, list`isFree
      ensures Valid() && View() == NetQueue.Cleanup(old(View())) && list == []
      ensures forall nb :: nb in old(list) ==> nb.isFree
    {
      ghost var i := 0;
      LinkedBack(list);
      hide Valid, View, Entries, Linked, Back, Distinct;
      while q_head != null
        invariant FreedTo(i) && ttl == old(ttl) && list == old(list)
        decreases |list| - i
      {
        DropOldest(i);
        i := i + 1;
      }
      cnt := 0;
      ovfl := false;
      list := [];
      Emptied();
    }

    /** The `i` oldest buffers are free. */
    ghost predicate FreedTo(i: nat)
      reads this`q, this`q_head, this`list, list`prev, list`isFree
    {
      && i <= |list| && Back(list) && q_head == (if i < |list| then list[i] else null)
      && q == (if i < |list| then list[|list| - 1] else null)
      && forall k :: 0 <= k < i ==> list[k].isFree
    }

    method DropOldest(ghost i: nat)
      requires FreedTo(i) && q_head != null
      modifies this`q, this`q_head, list`isFree
      ensures FreedTo(i + 1)
    {
      hide Back, Distinct;
      BackAt(list, i);
      var dp := q_head;
      q_head := dp.prev;
      if dp == q { q := null; }
      dp.isFree := true;
    }

    lemma Emptied()
      requires q == null && q_head == null && cnt == 0 && !ovfl && list == []
      ensures Valid() && View() == Queue([], 0, false, ttl)
    {
    }
  }

  lemma KeptBy(n: nat, s: seq<Nbuf>, t: seq<Nbuf>, nb: Nbuf, refused: bool)
    requires n <= |s| && t == s[n..] + (if refused then [] else [nb]) && forall k :: 0 <= k < n ==> s[k].isFree
    ensures Kept(s, t, nb, refused)
  {
  }

  /** `s` became `t`: oldest buffers were freed, and `nb` was added unless refused. */
  ghost predicate Kept(s: seq<Nbuf>, t: seq<Nbuf>, nb: Nbuf, refused: bool)
    reads s`isFree
  {
    exists n: nat :: n <= |s| && t == s[n..] + (if refused then [] else [nb]) && forall k :: 0 <= k < n ==> s[k].isFree
  }
}
