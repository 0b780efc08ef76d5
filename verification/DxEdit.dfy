/**
 Edits of the stored label list: an added, changed or deleted entry is moved to its place by
 sorting, the list keeps a spare slot at its end, and the masked list is rebuilt.
 */
module DxEdit {
  import opened DxList
  import opened DxMarkers

  const DX_HIDDEN_SLOT := 1
  const DX_LIST_ALLOC_CHUNK := 256
  const DELETED: real := 999999.0

  // ---- sorting by carrier --------------------------------------------------------------

  function Insert(d: Dx, s: seq<Dx>): seq<Dx> {
    if s == [] || d.freq <= s[0].freq then [d] + s else [s[0]] + Insert(d, s[1..])
  }

  function Sort(s: seq<Dx>): seq<Dx> {
    if s == [] then [] else Insert(s[0], Sort(s[1..]))
  }

  lemma {:induction false} InsertSorts(d: Dx, s: seq<Dx>)
    requires Sorted(s)
    ensures Sorted(Insert(d, s)) && multiset(Insert(d, s)) == multiset(s) + multiset{d}
    decreases |s|
  {
    if s != [] && d.freq > s[0].freq {
      InsertSorts(d, s[1..]);
      var r := Insert(d, s[1..]);
      assert s == [s[0]] + s[1..];
      forall j | 0 <= j < |r| ensures s[0].freq <= r[j].freq {
        assert r[j] in multiset(r);
        assert r[j] == d || r[j] in s[1..];
      }
    } else {
      assert [d] + s == Insert(d, s);
    }
  }

  lemma {:induction false} SortSorts(s: seq<Dx>)
    ensures Sorted(Sort(s)) && multiset(Sort(s)) == multiset(s) && |Sort(s)| == |s|
    decreases |s|
  {
    if s != [] {
      SortSorts(s[1..]);
      InsertSorts(s[0], Sort(s[1..]));
      assert s == [s[0]] + s[1..];
      assert |multiset(Sort(s))| == |multiset(s)|;
    }
  }

  /** What `qsort` may make of `s`: entries with the same carrier in any order. */
  ghost predicate IsSort(r: seq<Dx>, s: seq<Dx>) { Sorted(r) && multiset(r) == multiset(s) && |r| == |s| }

  /** `r` are the first `n` entries of the sorted list `q`. */
  ghost predicate SortFront(q: seq<Dx>, s: seq<Dx>, n: nat, r: seq<Dx>) { IsSort(q, s) && n <= |q| && r == q[..n] }

  ghost predicate Shortened(q: seq<Dx>, s: seq<Dx>, r: seq<Dx>) { s != [] && SortFront(q, s, |s| - 1, r) }

  lemma WholeFront(q: seq<Dx>, s: seq<Dx>, r: seq<Dx>)
    requires SortFront(q, s, |s|, r)
    ensures IsSort(r, s)
  {
    assert q[..|s|] == q;
  }

  // ---- the edits -----------------------------------------------------------------------

  ghost predicate AfterAdd(s: seq<Dx>, d: Dx, r: seq<Dx>) { IsSort(r, s + [d]) }

  ghost predicate AfterModify(s: seq<Dx>, g: nat, d: Dx, r: seq<Dx>)
    requires g < |s|
  {
    if s[g].freq == d.freq then r == s[g := d] else IsSort(r, s[g := d])
  }

  /** The entry to be deleted, with the frequency that sorts it to the end. */
  function Doomed(s: seq<Dx>, g: nat): Dx
    requires g < |s|
  {
    s[g].(freq := DELETED)
  }

  /** After sorting, the list is shortened. */
  ghost predicate AfterDelete(s: seq<Dx>, g: nat, r: seq<Dx>)
    requires g < |s|
  {
    var t := s[g := Doomed(s, g)];
    exists q :: Shortened(q, t, r)
  }

  lemma AddedIs(s: seq<Dx>, d: Dx, r: seq<Dx>)
    requires AfterAdd(s, d, r)
    ensures Sorted(r) && multiset(r) == multiset(s) + multiset{d} && |r| == |s| + 1
  {
  }

  lemma ModifiedIs(s: seq<Dx>, g: nat, d: Dx, r: seq<Dx>)
    requires g < |s| && Sorted(s) && AfterModify(s, g, d, r)
    ensures Sorted(r) && |r| == |s| && multiset(r) == multiset(s) - multiset{s[g]} + multiset{d}
  {
  }

  /** Exactly the entry asked for is taken out. */
  ghost predicate TakenOut(s: seq<Dx>, g: nat, r: seq<Dx>)
    requires g < |s|
  {
    multiset(r) == multiset(s) - multiset{s[g]}
  }

  /** Every other entry is below 999999, or cannot be told from the one to be deleted. */
  predicate Deletable(s: seq<Dx>, g: nat)
    requires g < |s|
  {
    forall j :: 0 <= j < |s| && j != g ==> s[j].freq < DELETED || s[j] == Doomed(s, g)
  }

  lemma Exchange(s: multiset<Dx>, a: Dx, x: Dx, r: multiset<Dx>, z: Dx)
    requires s - multiset{a} + multiset{x} == r + multiset{z}
    ensures r == s - multiset{a} <==> z == x
  {
    var m := s - multiset{a};
    if z == x {
      assert r == (r + multiset{z}) - multiset{z} == (m + multiset{x}) - multiset{x} == m;
    } else {
      assert (m + multiset{x})[x] == m[x] + 1 && (r + multiset{z})[x] == r[x];
    }
  }

  /** What is cut off decides. */
  lemma CutOff(s: seq<Dx>, g: nat, q: seq<Dx>)
    requires g < |s| && IsSort(q, s[g := Doomed(s, g)])
    ensures Sorted(q[..|s| - 1]) && (TakenOut(s, g, q[..|s| - 1]) <==> q[|s| - 1] == Doomed(s, g))
  {
    var x, n := Doomed(s, g), |s| - 1;
    assert q == q[..n] + [q[n]];
    assert multiset(s[g := x]) == multiset(s) - multiset{s[g]} + multiset{x};
    hide Doomed;
    Exchange(multiset(s), s[g], x, multiset(q[..n]), q[n]);
  }

  /** The last entry of a sorted list is in the list, and none is above it. */
  lemma LastIsGreatest(q: seq<Dx>, t: seq<Dx>) returns (i: nat)
    requires IsSort(q, t) && t != []
    ensures i < |t| && t[i] == q[|q| - 1] && forall j :: 0 <= j < |t| ==> t[j].freq <= t[i].freq
  {
    var z := q[|q| - 1];
    assert z in multiset(t);
    i :| 0 <= i < |t| && t[i] == z;
    forall j | 0 <= j < |t| ensures t[j].freq <= z.freq {
      assert t[j] in multiset(q);
      var k :| 0 <= k < |q| && q[k] == t[j];
    }
  }

  lemma DeletedIs(s: seq<Dx>, g: nat, r: seq<Dx>)
    requires g < |s| && AfterDelete(s, g, r)
    ensures Sorted(r) && |r| == |s| - 1 && (Deletable(s, g) ==> TakenOut(s, g, r))
    ensures (exists j :: 0 <= j < |s| && j != g && s[j].freq > DELETED) ==> !TakenOut(s, g, r)
  {
    var q :| Shortened(q, s[g := Doomed(s, g)], r);
    hide IsSort, Sorted, TakenOut, Deletable;
    CutOff(s, g, q);
    LastIsDoomed(s, g, q);
  }

  lemma LastIsDoomed(s: seq<Dx>, g: nat, q: seq<Dx>)
    requires g < |s| && IsSort(q, s[g := Doomed(s, g)])
    ensures Deletable(s, g) ==> q[|s| - 1] == Doomed(s, g)
    ensures (exists j :: 0 <= j < |s| && j != g && s[j].freq > DELETED) ==> q[|s| - 1] != Doomed(s, g)
  {
    var t := s[g := Doomed(s, g)];
    var i := LastIsGreatest(q, t);
    hide IsSort;
    assert t[g].freq <= t[i].freq;
    if i != g { assert t[i] == s[i]; }
    if j :| 0 <= j < |s| && j != g && s[j].freq > DELETED { assert t[j] == s[j] && t[j].freq <= t[i].freq; }
  }

  /** Another entry at or above 999999 can be cut off instead. */
  lemma CanLose(s: seq<Dx>, g: nat, j: nat) returns (r: seq<Dx>)
    requires g < |s| && j < |s| && j != g && s[j].freq >= DELETED && s[j] != Doomed(s, g)
    ensures AfterDelete(s, g, r) && !TakenOut(s, g, r)
  {
    var t := s[g := Doomed(s, g)];
    if k :| 0 <= k < |s| && k != g && s[k].freq > DELETED {
      SortSorts(t);
      r := Sort(t)[..|s| - 1];
      assert Shortened(Sort(t), t, r);
      DeletedIs(s, g, r);
    } else {
      assert t[j] == s[j] && forall i :: 0 <= i < |t| ==> t[i].freq <= DELETED;
      r := SortLast(t, j);
      var q := r + [s[j]];
      assert q[..|s| - 1] == r;
      assert Shortened(q, t, r);
      CutOff(s, g, q);
    }
  }

  /** A greatest entry can be sorted to the end. */
  lemma SortLast(t: seq<Dx>, j: nat) returns (r: seq<Dx>)
    requires j < |t| && forall i :: 0 <= i < |t| ==> t[i].freq <= t[j].freq
    ensures IsSort(r + [t[j]], t)
  {
    var rest := t[..j] + t[j + 1..];
    assert t == t[..j] + [t[j]] + t[j + 1..];
    assert multiset(t) == multiset(rest) + multiset{t[j]};
    SortSorts(rest);
    r := Sort(rest);
    hide Sort;
    forall i | 0 <= i < |r| ensures r[i].freq <= t[j].freq {
      assert r[i] in multiset(r);
      assert r[i] in multiset(t);
    }
  }

  /** Whatever order `qsort` gives entries with the same carrier: deleting takes out exactly the
      entry asked for, if and only if every other one is below 999999 or the same as it. */
  lemma DeletedIff(s: seq<Dx>, g: nat)
    requires g < |s|
    ensures (forall r :: AfterDelete(s, g, r) ==> TakenOut(s, g, r)) <==> Deletable(s, g)
  {
    if Deletable(s, g) {
      forall r | AfterDelete(s, g, r) ensures TakenOut(s, g, r) { DeletedIs(s, g, r); }
    } else {
      var j :| 0 <= j < |s| && j != g && !(s[j].freq < DELETED || s[j] == Doomed(s, g));
      var r := CanLose(s, g, j);
    }
  }

  predicate Below(s: seq<Dx>) { forall i :: 0 <= i < |s| ==> s[i].freq < DELETED }

  /** While only frequencies below 999999 are entered, every entry can be deleted. */
  lemma EditsKeepBelow(s: seq<Dx>, g: nat, d: Dx, r: seq<Dx>)
    requires Sorted(s) && Below(s)
    requires || (d.freq < DELETED && AfterAdd(s, d, r))
             || (d.freq < DELETED && g < |s| && AfterModify(s, g, d, r))
             || (g < |s| && AfterDelete(s, g, r))
    ensures Below(r) && forall i :: 0 <= i < |r| ==> Deletable(r, i)
  {
    forall i | 0 <= i < |r| ensures r[i].freq < DELETED {
      assert r[i] in multiset(r);
      if d.freq < DELETED && AfterAdd(s, d, r) {
        AddedIs(s, d, r);
      } else if d.freq < DELETED && g < |s| && AfterModify(s, g, d, r) {
        ModifiedIs(s, g, d, r);
      } else {
        DeletedIs(s, g, r);
      }
    }
  }

  // ---- entries without their index -----------------------------------------------------

  function Plain(d: Dx): Dx { d.(idx := 0) }

  function Plains(s: seq<Dx>): (r: seq<Dx>)
    ensures |r| == |s| && forall i :: 0 <= i < |s| ==> r[i] == Plain(s[i])
  {
    seq(|s|, i requires 0 <= i < |s| => Plain(s[i]))
  }

  /** Sorting does not look at the index. */
  lemma {:induction false} InsertPlains(d: Dx, s: seq<Dx>)
    ensures Plains(Insert(d, s)) == Insert(Plain(d), Plains(s))
    decreases |s|
  {
    if s != [] && d.freq > s[0].freq {
      InsertPlains(d, s[1..]);
      assert Plains(s)[1..] == Plains(s[1..]);
      assert Plains([s[0]] + Insert(d, s[1..])) == [Plain(s[0])] + Plains(Insert(d, s[1..]));
    } else {
      assert Plains([d] + s) == [Plain(d)] + Plains(s);
    }
  }

  lemma {:induction false} SortPlains(s: seq<Dx>)
    ensures Plains(Sort(s)) == Sort(Plains(s))
    decreases |s|
  {
    if s != [] {
      SortPlains(s[1..]);
      InsertPlains(s[0], Sort(s[1..]));
      assert Plains(s)[1..] == Plains(s[1..]);
    }
  }

  /** Each entry knows its position. */
  predicate Indexed(s: seq<Dx>) { forall i :: 0 <= i < |s| ==> s[i].idx == i }

  lemma SortedWhole(need: bool, s: seq<Dx>, r: seq<Dx>)
    requires |r| == |s| && if need then exists q :: SortFront(q, s, |s|, r) else r == s[..|s|]
    ensures if need then IsSort(r, s) else r == s
  {
    if need {
      var q :| SortFront(q, s, |s|, r);
      WholeFront(q, s, r);
    }
  }

  lemma ModifyIs(need: bool, s: seq<Dx>, g: nat, d: Dx, r: seq<Dx>)
    requires g < |s| == |r| && need == (s[g].freq != d.freq)
    requires var t := s[g := d]; if need then exists q :: SortFront(q, t, |s|, r) else r == t[..|s|]
    ensures AfterModify(s, g, d, r)
  {
    hide SortFront, IsSort;
    SortedWhole(need, s[g := d], r);
  }

  /** `qsort` by carrier. */
  method Qsort(s: seq<Dx>) returns (r: seq<Dx>)
    ensures IsSort(Plains(r), Plains(s))
  {
    r := Sort(s);
    SortPlains(s);
    SortSorts(Plains(s));
  }

  // ---- masked frequencies --------------------------------------------------------------

  /** The receiver's range, and half bandwidth and offset of each mode. */
  datatype Range = Range(low: real, high: real)

  datatype Mask = Mask(lo: int, hi: int)

  predicate IsMasked(d: Dx, r: Range) { d.typ == MASKED && r.low <= d.freq <= r.high }

  function MaskOf(d: Dx, r: Range, hbw: nat -> int, shift: nat -> int): Mask {
    var f := ((d.freq - r.low) * 1000.0 + 0.5).Floor + shift(d.mode);
    Mask(f + (if d.low != 0 then d.low else -hbw(d.mode)), f + (if d.high != 0 then d.high else hbw(d.mode)))
  }

  /** The masks of the masked entries in the range, in list order. */
  function Masks(s: seq<Dx>, r: Range, hbw: nat -> int, shift: nat -> int): seq<Mask> {
    if s == [] then []
    else
      var rest := Masks(s[..|s| - 1], r, hbw, shift);
      if IsMasked(s[|s| - 1], r) then rest + [MaskOf(s[|s| - 1], r, hbw, shift)] else rest
  }

  lemma {:induction false} MasksSame(s: seq<Dx>, r: Range, hbw: nat -> int, shift: nat -> int)
    ensures Masks(Plains(s), r, hbw, shift) == Masks(s, r, hbw, shift)
    decreases |s|
  {
    if s != [] {
      assert Plains(s)[..|s| - 1] == Plains(s[..|s| - 1]);
      MasksSame(s[..|s| - 1], r, hbw, shift);
    }
  }

  /** A frequency is masked exactly by the entries that are masked and in the range. */
  lemma {:induction false} MasksAre(s: seq<Dx>, r: Range, hbw: nat -> int, shift: nat -> int, m: Mask)
    ensures m in Masks(s, r, hbw, shift) <==>
            exists i :: 0 <= i < |s| && IsMasked(s[i], r) && MaskOf(s[i], r, hbw, shift) == m
    decreases |s|
  {
    if s != [] {
      var t := s[..|s| - 1];
      MasksAre(t, r, hbw, shift, m);
      if m in Masks(t, r, hbw, shift) {
        var i :| 0 <= i < |t| && IsMasked(t[i], r) && MaskOf(t[i], r, hbw, shift) == m;
        assert s[i] == t[i];
      }
      if exists i :: 0 <= i < |s| && IsMasked(s[i], r) && MaskOf(s[i], r, hbw, shift) == m {
        var i :| 0 <= i < |s| && IsMasked(s[i], r) && MaskOf(s[i], r, hbw, shift) == m;
        if i < |t| { assert t[i] == s[i]; }
      }
    }
  }

  // ---- the code ------------------------------------------------------------------------

  datatype Command = Delete | ModifyOrAdd

  const Spare := Dx(0.0, 0, 0, 0, 0, 0, 0, 0, 0, 0, "", "", "", 0)

  function Spares(n: nat): (s: seq<Dx>) ensures |s| == n { seq(n, _ => Spare) }

  /** Midnight to midnight is written as 0 to 2400. */
  function FullDay(d: Dx): Dx { if d.begin == 0 && d.end == 0 then d.(end := 2400) else d }

  class LabelDb {
    var list: seq<Dx>        // all slots
    var actual_len: nat
    var hidden_used: bool
    var masked_list: seq<Mask>
    const range: Range
    const mode_hbw: nat -> int
    const mode_offset: nat -> int

    ghost function Entries(): seq<Dx>
      reads this
      requires actual_len <= |list|
    {
      Plains(list[..actual_len])
    }

    /** In order of carrier and indexed, with a spare slot behind. */
    ghost predicate Valid()
      reads this
    {
      && actual_len + DX_HIDDEN_SLOT <= |list| && !hidden_used
      && Sorted(Entries()) && Indexed(list[..actual_len])
      && masked_list == Masks(Entries(), range, mode_hbw, mode_offset)
    }

    constructor (r: Range, hbw: nat -> int, shift: nat -> int)
      ensures Valid() && Entries() == [] && range == r && mode_hbw == hbw && mode_offset == shift
    {
      list, actual_len, hidden_used, masked_list := Spares(DX_LIST_ALLOC_CHUNK), 0, false, [];
      range, mode_hbw, mode_offset := r, hbw, shift;
    }

    /** `update_masked_freqs`. */
    method UpdateMasked(n: nat)
      requires n <= |list|
      modifies this`masked_list
      ensures masked_list == Masks(list[..n], range, mode_hbw, mode_offset)
    {
      masked_list := [];
      var i := 0;
      while i < n
        invariant i <= n && masked_list == Masks(list[..i], range, mode_hbw, mode_offset)
      {
        var dxp := list[i];
        assert list[..i + 1][..i] == list[..i];
        if dxp.typ == MASKED && dxp.freq >= range.low && dxp.freq <= range.high {
          masked_list := masked_list + [MaskOf(dxp, range, mode_hbw, mode_offset)];
        }
        i := i + 1;
      }
    }

    /** `dx_prep_list` for the stored list: the first `prev` entries are sorted if need be, and
        the first `n` get their index. */
    method PrepList(need_sort: bool, prev: nat, n: nat)
      requires n <= prev <= |list|
      modifies this`list, this`masked_list
      ensures |list| == |old(list)| && Indexed(list[..n])
      ensures var s := Plains(old(list)[..prev]);
              if need_sort then exists q :: SortFront(q, s, n, Plains(list[..n])) else Plains(list[..n]) == s[..n]
      ensures masked_list == Masks(Plains(list[..n]), range, mode_hbw, mode_offset)
    {
      ghost var s := Plains(list[..prev]);
      ghost var q := s;
      if need_sort {
        var r := Qsort(list[..prev]);
        q := Plains(r);
        list := r + list[prev..];
      }
      ghost var r := Plains(list[..n]);
      assert r == q[..n];
      hide Plains;
      SetIndexes(n);
      assert Plains(list[..n]) == r;
      assert need_sort ==> SortFront(q, s, n, r);
      UpdateMasked(n);
      MasksSame(list[..n], range, mode_hbw, mode_offset);
    }

    method SetIndexes(n: nat)
      requires n <= |list|
      modifies this`list
      ensures |list| == |old(list)| && Indexed(list[..n]) && Plains(list[..n]) == Plains(old(list)[..n])
    {
      var i := 0;
      while i < n
        invariant i <= n && |list| == |old(list)|
        invariant forall k :: 0 <= k < i ==> list[k].idx == k
        invariant forall k :: 0 <= k < n ==> Plain(list[k]) == Plain(old(list)[k])
      {
        list := list[i := list[i].(idx := i)];
        i := i + 1;
      }
    }

    /** `CMD_DX_UPD` on the stored list: delete (frequency -1), change, or add (`gid` -1).
        `d` holds the new values. */
    method Update(cmd: Command, gid: int, freq: real, d: Dx) returns (err: bool)
      requires Valid() && d.freq == freq
      modifies this`list, this`actual_len, this`hidden_used, this`masked_list
      ensures Valid()
      ensures var s := old(Entries());
              var bad := !(-1 <= gid < |s|) || (cmd.Delete? && (gid == -1 || freq != -1.0));
              && (err ==> bad) && (bad ==> Entries() == s)
              && (!bad ==> if cmd.Delete? then AfterDelete(s, gid, Entries())
                           else if gid == -1 then AfterAdd(s, Plain(d), Entries())
                           else AfterModify(s, gid, Plain(FullDay(d)), Entries()))
    {
      if gid != -1 && actual_len == 0 { return false; }
      if !(-1 <= gid < actual_len) { return true; }
      if cmd.Delete? && gid != -1 && freq == -1.0 {
        DeleteEntry(gid);
        err := false;
      } else if cmd.ModifyOrAdd? {
        if gid == -1 { AddEntry(d); } else { ModifyEntry(gid, FullDay(d)); }
        err := false;
      } else {
        err := true;
      }
    }

    method DeleteEntry(g: nat)
      requires Valid() && g < actual_len
      modifies this`list, this`actual_len, this`masked_list
      ensures Valid() && AfterDelete(old(Entries()), g, Entries())
    {
      ghost var s := Entries();
      list := list[g := list[g].(freq := DELETED)];
      assert Plains(list[..actual_len]) == s[g := Doomed(s, g)];
      var new_len := actual_len - 1;
      PrepList(true, actual_len, new_len);
      actual_len := new_len;
      ghost var t := s[g := Doomed(s, g)];
      ghost var q :| SortFront(q, t, new_len, Entries());
      assert Shortened(q, t, Entries());
      DeletedIs(s, g, Entries());
    }

    method ModifyEntry(g: nat, d: Dx)
      requires Valid() && g < actual_len
      modifies this`list, this`masked_list
      ensures Valid() && AfterModify(old(Entries()), g, Plain(d), Entries())
    {
      ghost var s := Entries();
      var need_sort := list[g].freq != d.freq;
      list := list[g := d];
      assert Plains(list[..actual_len]) == s[g := Plain(d)];
      assert s[g].freq == list[g].freq || need_sort;
      hide Masks, Sorted, Plains, IsSort, SortFront, AfterModify;
      PrepList(need_sort, actual_len, actual_len);
      ModifyIs(need_sort, s, g, Plain(d), Entries());
      ModifiedIs(s, g, Plain(d), Entries());
    }

    /** The new entry goes into the spare slot; after sorting there must be another one. */
    method AddEntry(d: Dx)
      requires Valid()
      modifies this`list, this`actual_len, this`hidden_used, this`masked_list
      ensures Valid() && AfterAdd(old(Entries()), Plain(d), Entries())
    {
      ghost var s := Entries();
      list := list[actual_len := d];
      hidden_used := true;
      actual_len := actual_len + 1;
      assert Plains(list[..actual_len]) == s + [Plain(d)];
      hide Masks, Sorted, Plains, IsSort, SortFront;
      PrepList(true, actual_len, actual_len);
      SortedWhole(true, s + [Plain(d)], Entries());
      assert AfterAdd(s, Plain(d), Entries());
      AddedIs(s, Plain(d), Entries());
      Reserve();
    }

    /** `CMD_MARKER` on the stored list. */
    method ScanMarkers(min: real, max: real) returns (visited: seq<nat>)
      requires Valid()
      ensures forall i: nat :: i in visited ==> i < actual_len
      ensures OffsetsWithin(list[..actual_len], 9999) ==>
                forall i: nat :: i < actual_len && min <= Effective(list[i]) <= max ==> i in visited
    {
      if actual_len == 0 { return []; }
      var cur_list := list[..actual_len];
      assert Sorted(cur_list) by { assert forall i :: 0 <= i < actual_len ==> cur_list[i].freq == Entries()[i].freq; }
      visited := Markers(cur_list, min, max);
      if OffsetsWithin(cur_list, 9999) { ScanIsComplete(cur_list, 9999, min, max); }
    }

    /** A spare slot again, if the last one was used. */
    method Reserve()
      requires hidden_used && actual_len <= |list|
      modifies this`list, this`hidden_used
      ensures !hidden_used && actual_len + DX_HIDDEN_SLOT <= |list| && list[..actual_len] == old(list[..actual_len])
    {
      if actual_len + DX_HIDDEN_SLOT > |list| { list := list + Spares(DX_LIST_ALLOC_CHUNK); }
      hidden_used := false;
    }
  }
}
