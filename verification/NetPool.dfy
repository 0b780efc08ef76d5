/**
 All queues share one static pool of 1024 buffers. Whatever the queues do, no buffer is in
 two of them or free while in one, and every buffer in use is in one.
 */
module NetPool {
  import opened Optional
  import opened NetQueue
  import opened NetBuf

  const NNBUF := 1024

  datatype Outcome = OutOfNbufs | Refused | Accepted

  class Pool {
    const nbufs: seq<Nbuf>
    ghost var queues: set<Ndesc>

    /** The list of `nd` is well formed and made of buffers of this pool. */
    ghost predicate Owns(nd: Ndesc)
      reads nd, nbufs
    {
      (forall i :: 0 <= i < |nd.list| ==> nd.list[i] in nbufs) && nd.Valid()
    }

    ghost predicate Apart()
      reads this, queues
    {
      forall nd, other, b :: nd in queues && other in queues && b in nd.list && b in other.list ==> nd == other
    }

    /** Buffers in use, and only they, are queued. */
    ghost predicate AllQueued()
      reads this, queues, nbufs
    {
      forall b :: b in nbufs && !b.isFree ==> exists nd :: nd in queues && b in nd.list
    }

    ghost predicate Valid()
      reads this, queues, nbufs
    {
      Sound() && AllQueued()
    }

    ghost predicate Sound()
      reads this, queues, nbufs
    {
      |nbufs| == NNBUF && Distinct(nbufs) && (forall nd :: nd in queues ==> Owns(nd)) && Apart()
    }

    /** All is well but that `nb`, whatever it holds, is in no queue. */
    ghost predicate ValidBut(nb: Nbuf)
      reads this, queues, set b | b in nbufs && b != nb
    {
      && |nbufs| == NNBUF && Distinct(nbufs) && nb in nbufs && Apart()
      && (forall nd :: nd in queues ==>
            (forall i :: 0 <= i < |nd.list| ==> nd.list[i] in nbufs && nd.list[i] != nb) && nd.Valid())
      && forall b :: b in nbufs && b != nb && !b.isFree ==> exists nd :: nd in queues && b in nd.list
    }

    /** `nbuf_init`. */
    constructor ()
      ensures Valid() && queues == {} && forall b :: b in nbufs ==> b.isFree
    {
      var s: seq<Nbuf> := [];
      while |s| < NNBUF
        invariant |s| <= NNBUF && Distinct(s) && forall b :: b in s ==> b.isFree && allocated(b)
      {
        var b := new Nbuf();
        s := s + [b];
      }
      nbufs := s;
      queues := {};
    }

    ghost predicate Full()
      reads nbufs
    {
      forall b :: b in nbufs ==> !b.isFree
    }

    /** The search of `nbuf_malloc`: the first free buffer, if there is one. */
    method FindFree() returns (nb: Nbuf?)
      requires |nbufs| == NNBUF
      ensures if nb == null then Full() else !Full() && nb in nbufs && nb.isFree
    {
      nb := null;
      var i := 0;
      while i < NNBUF
        invariant i <= NNBUF && forall k :: 0 <= k < i ==> !nbufs[k].isFree
      {
        if nbufs[i].isFree {
          return nbufs[i];
        }
        i := i + 1;
      }
    }

    lemma Unlinked(nb: Nbuf)
      requires Valid() && nb in nbufs && nb.isFree
      ensures ValidBut(nb) && forall nd :: nd in queues ==> nb !in nd.list
    {
      forall nd | nd in queues ensures nb !in nd.list {
        assert nd.Valid();
      }
    }

    ghost predicate Of(s: seq<Nbuf>) {
      forall b :: b in s ==> b in nbufs
    }

    /** All queues but `nd` are sound and own exactly the buffers in use outside `mine`. */
    ghost predicate Rest(nd: Ndesc, mine: set<Nbuf>)
      reads this, queues - {nd}, set b | b in nbufs && b !in mine
    {
      && |nbufs| == NNBUF && Distinct(nbufs) && nd in queues
      && (forall other :: other in queues && other != nd ==>
            (forall i :: 0 <= i < |other.list| ==> other.list[i] in nbufs && other.list[i] !in mine) && other.Valid())
      && (forall nd1, nd2, b :: nd1 in queues && nd2 in queues && nd1 != nd && nd2 != nd && b in nd1.list ==>
            b in nd2.list ==> nd1 == nd2)
      && (forall b :: b in nbufs && b !in mine && !b.isFree ==>
            exists other :: other in queues && other != nd && b in other.list)
    }

    /** What the queues other than `nd` hold. */
    ghost function Others(nd: Ndesc, mine: set<Nbuf>): map<Ndesc, Queue>
      reads this, queues - {nd}, set b | b in nbufs && b !in mine
      requires Rest(nd, mine)
    {
      map o | o in queues && o != nd :: o.View()
    }

    ghost function Mine(nd: Ndesc, nb: Nbuf): set<Nbuf>
      reads nd
    {
      (set b | b in nd.list) + {nb}
    }

    lemma Split(nd: Ndesc, nb: Nbuf)
      requires ValidBut(nb) && nd in queues
      ensures Rest(nd, Mine(nd, nb))
      ensures nd.Valid() && nb !in nd.list && nb in nbufs && Of(nd.list)
    {
      hide Ndesc.Valid;
    }

    lemma Join(nd: Ndesc, s: seq<Nbuf>, nb: Nbuf, refused: bool)
      requires Rest(nd, (set b | b in s) + {nb}) && Kept(s, nd.list, nb, refused) && nd.Valid()
      requires nb in nbufs && nb.isFree == refused && Of(s)
      ensures Valid()
    {
      hide Ndesc.Valid;
    }

    /** Enqueues `nb`, or gives it back to the pool. */
    method QueueOrFree(nd: Ndesc, nb: Nbuf) returns (refused: bool)
      requires ValidBut(nb) && nd in queues && !nb.isFree && nb.AsEntry() == Entry(nb.buf, nd.ttl, false, false)
      requires AgeAsserts(nd.View())
      modifies nd, nd.list, nb
      ensures Valid() && nd.View() == NetQueue.Enqueue(old(nd.View()), old(nb.buf))
      ensures refused == Refuses(old(nd.View()))
      ensures forall o :: o in queues && o != nd ==> o.View() == old(o.View())
    {
      hide Valid, ValidBut, Ndesc.Valid, Rest, Kept, AgeAsserts, Refuses, Enqueue, Ndesc.View;
      ghost var s, mine := nd.list, Mine(nd, nb);
      Split(nd, nb);
      ghost var v := Others(nd, mine);
      assert forall o :: o in queues && o != nd ==> v[o] == o.View();
      refused := nd.EnqueueOrFree(nb);
      assert Others(nd, mine) == v;
      assert forall o :: o in queues && o != nd ==> Others(nd, mine)[o] == o.View();
      Join(nd, s, nb, refused);
    }

    /** Clears the free buffer `nb`, fills it and queues it. */
    method Send(nd: Ndesc, nb: Nbuf, s: Msg) returns (refused: bool)
      requires Valid() && nd in queues && AgeAsserts(nd.View()) && nb in nbufs && nb.isFree
      modifies nd, nd.list, nb
      ensures Valid() && forall o :: o in queues && o != nd ==> o.View() == old(o.View())
      ensures nd.View() == NetQueue.Enqueue(old(nd.View()), s) && refused == Refuses(old(nd.View()))
    {
      hide Valid, ValidBut, AgeAsserts, Refuses, Enqueue, Ndesc.View;
      Unlinked(nb);
      nb.buf, nb.ttl, nb.done, nb.dequeued, nb.isFree, nb.next, nb.prev := s, nd.ttl, false, false, false, null, null;
      refused := QueueOrFree(nd, nb);
    }

    /** `nbuf_allocq`: a copy of the message in a buffer of the pool is queued, unless the
        queue refuses it; then the buffer goes back. */
    method AllocQ(nd: Ndesc, s: Msg) returns (r: Outcome)
      requires Valid() && nd in queues && s != [] && AgeAsserts(nd.View())
      modifies nd, nbufs
      ensures Valid() && forall o :: o in queues && o != nd ==> o.View() == old(o.View())
      ensures nd.View() == if r.OutOfNbufs? then old(nd.View()) else NetQueue.Enqueue(old(nd.View()), s)
      ensures r == if old(Full()) then OutOfNbufs else if Refuses(old(nd.View())) then Refused else Accepted
    {
      assert |nbufs| == NNBUF;
      hide Full, Valid, AgeAsserts, Refuses, Enqueue, Ndesc.View;
      var nb := FindFree();
      if nb == null { return OutOfNbufs; }
      var refused := Send(nd, nb, s);
      r := if refused then Refused else Accepted;
    }

    /** A new, empty queue (`ndesc_init`). */
    method NewQueue(ttl: nat) returns (nd: Ndesc)
      requires Valid()
      modifies this`queues
      ensures Valid() && fresh(nd) && queues == old(queues) + {nd} && nd.View() == NetQueue.New(ttl).q
      ensures forall o :: o in old(queues) ==> o.View() == old(o.View())
    {
      hide Valid, Ndesc.Valid, Ndesc.View;
      nd := new Ndesc(ttl);
      Register(nd);
    }

    ghost method Register(nd: Ndesc)
      requires Valid() && nd.Valid() && nd.list == []
      modifies this`queues
      ensures Valid() && queues == old(queues) + {nd}
    {
      hide Ndesc.Valid;
      queues := queues + {nd};
    }

    ghost function Own(nd: Ndesc): set<Nbuf>
      reads nd
    {
      set b | b in nd.list
    }

    lemma SplitOff(nd: Ndesc)
      requires Valid() && nd in queues
      ensures Rest(nd, Own(nd)) && nd.Valid() && Of(nd.list)
    {
      hide Ndesc.Valid;
    }

    lemma Rejoin(nd: Ndesc, s: seq<Nbuf>)
      requires Rest(nd, set b | b in s) && nd.Valid() && Of(s)
      requires forall b :: b in nd.list ==> b in s
      requires forall b :: b in s ==> b in nd.list || b.isFree
      ensures Valid()
    {
      hide Ndesc.Valid;
    }

    /** `nbuf_dequeue` on one queue leaves the others as they are. */
    method Dequeue(nd: Ndesc) returns (nb: Nbuf?)
      requires Valid() && nd in queues
      modifies nd`cnt, nd.list`dequeued
      ensures Valid() && forall o :: o in queues && o != nd ==> o.View() == old(o.View())
      ensures (nd.View(), if nb == null then None else Some(nb.buf)) == NetQueue.Dequeue(old(nd.View()))
    {
      hide Valid, Ndesc.Valid, Rest, NetQueue.Dequeue, Ndesc.View;
      ghost var s, mine := nd.list, Own(nd);
      SplitOff(nd);
      ghost var v := Others(nd, mine);
      assert forall o :: o in queues && o != nd ==> v[o] == o.View();
      nb := nd.Dequeue();
      assert Others(nd, mine) == v;
      assert forall o :: o in queues && o != nd ==> Others(nd, mine)[o] == o.View();
      Rejoin(nd, s);
    }

    /** Marking a buffer done leaves the other queues as they are. */
    method MarkDone(nd: Ndesc, nb: Nbuf)
      requires Valid() && nd in queues && nb in nd.list && nb.dequeued
      modifies nb`done
      ensures Valid() && forall o :: o in queues && o != nd ==> o.View() == old(o.View())
      ensures exists i :: 0 <= i < |nd.list| && nd.list[i] == nb && nd.View() == NetQueue.MarkDone(old(nd.View()), i)
    {
      hide Valid, Ndesc.Valid, Rest, NetQueue.MarkDone, Ndesc.View;
      ghost var s, mine := nd.list, Own(nd);
      SplitOff(nd);
      ghost var v := Others(nd, mine);
      assert forall o :: o in queues && o != nd ==> v[o] == o.View();
      nd.MarkDone(nb);
      assert Others(nd, mine) == v;
      assert forall o :: o in queues && o != nd ==> Others(nd, mine)[o] == o.View();
      Rejoin(nd, s);
    }

    /** `nbuf_cleanup` returns all buffers of a queue to the pool. */
    method Cleanup(nd: Ndesc)
      requires Valid() && nd in queues
      modifies nd, nd.list`isFree
      ensures Valid() && forall o :: o in queues && o != nd ==> o.View() == old(o.View())
      ensures nd.View() == NetQueue.Cleanup(old(nd.View()))
    {
      hide Valid, Ndesc.Valid, Rest, NetQueue.Cleanup, Ndesc.View;
      ghost var s, mine := nd.list, Own(nd);
      SplitOff(nd);
      ghost var v := Others(nd, mine);
      assert forall o :: o in queues && o != nd ==> v[o] == o.View();
      nd.Cleanup();
      assert Others(nd, mine) == v;
      assert forall o :: o in queues && o != nd ==> Others(nd, mine)[o] == o.View();
      Rejoin(nd, s);
    }
  }

  // ---- conservation -----------------------------------------------------------------

  function Sum(ns: seq<nat>): nat {
    if ns == [] then 0 else ns[0] + Sum(ns[1..])
  }

  ghost function Lengths(qs: seq<Ndesc>): (ns: seq<nat>)
    reads qs
    ensures |ns| == |qs|
  {
    seq(|qs|, i requires 0 <= i < |qs| reads qs => |qs[i].list|)
  }

  ghost function Union(qs: seq<Ndesc>): set<Nbuf>
    reads qs
  {
    set i, b | 0 <= i < |qs| && b in qs[i].list :: b
  }

  lemma {:induction false} DistinctSize(s: seq<Nbuf>)
    requires Distinct(s)
    ensures |set b | b in s| == |s|
  {
    if s != [] {
      DistinctSize(s[1..]);
      assert (set b | b in s) == (set b | b in s[1..]) + {s[0]};
    }
  }

  lemma {:induction false} UnionSize(qs: seq<Ndesc>)
    requires forall i :: 0 <= i < |qs| ==> Distinct(qs[i].list)
    requires forall i, j, b :: 0 <= i < j < |qs| && b in qs[i].list ==> b !in qs[j].list
    ensures |Union(qs)| == Sum(Lengths(qs))
  {
    if qs != [] {
      hide Union, Sum, Lengths, Distinct;
      UnionSize(qs[1..]);
      DistinctSize(qs[0].list);
      UnionSplits(qs);
      SumSplits(qs);
      SizesAdd((set b | b in qs[0].list), Union(qs[1..]));
    }
  }

  lemma SumSplits(qs: seq<Ndesc>)
    requires qs != []
    ensures Sum(Lengths(qs)) == |qs[0].list| + Sum(Lengths(qs[1..]))
  {
    assert Lengths(qs)[1..] == Lengths(qs[1..]);
  }

  lemma SizesAdd(a: set<Nbuf>, b: set<Nbuf>)
    requires a !! b
    ensures |a + b| == |a| + |b|
  {
  }

  lemma UnionSplits(qs: seq<Ndesc>)
    requires qs != [] && forall i, j, b :: 0 <= i < j < |qs| && b in qs[i].list ==> b !in qs[j].list
    ensures var mine := set b | b in qs[0].list; Union(qs) == mine + Union(qs[1..]) && mine !! Union(qs[1..])
  {
    forall i, b | 0 <= i < |qs| && b in qs[i].list ensures b in qs[0].list || b in Union(qs[1..]) {
      if i > 0 { assert qs[1..][i - 1] == qs[i]; }
    }
    forall b | b in Union(qs[1..]) ensures b in Union(qs) && b !in qs[0].list {
      var i :| 0 <= i < |qs[1..]| && b in qs[1..][i].list;
      assert qs[i + 1] == qs[1..][i];
    }
  }

  /** The number of buffers in use is the total of the queue lengths. */
  lemma BusyIsQueued(p: Pool, qs: seq<Ndesc>)
    requires p.Valid() && (forall nd :: nd in qs <==> nd in p.queues)
    requires forall i, j :: 0 <= i < j < |qs| ==> qs[i] != qs[j]
    ensures |set b | b in p.nbufs && !b.isFree| == Sum(Lengths(qs))
  {
    forall i | 0 <= i < |qs| ensures Distinct(qs[i].list) && forall b :: b in qs[i].list ==> b in p.nbufs && !b.isFree {
      assert p.Owns(qs[i]);
    }
    UnionSize(qs);
    assert (set b | b in p.nbufs && !b.isFree) == Union(qs);
  }
}
