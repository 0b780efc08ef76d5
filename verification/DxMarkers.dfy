/**
 Labels in a frequency range: a binary search with a comparator that accepts a range, the
 scan from there, and the schedule test of each entry.
 */
module DxMarkers {
  import opened DxList

  const DX_SEARCH_WINDOW: real := 10.0

  /** `bsearch_freqcomp` at entry `i`. The last entry is not used as an upper neighbour. */
  function FreqComp(list: seq<Dx>, key: real, i: nat): int
    requires i < |list|
  {
    var f := Effective(list[i]);
    if key == f then 0
    else if key < f then if i == 0 then 0 else -1
    else if i + 1 < |list| - 1 then if key < Effective(list[i + 1]) then 0 else 1
    else 0
  }

  /** The bounds of the library search: what is left of them compared above, what is right below. */
  predicate Bounds(list: seq<Dx>, key: real, l: nat, u: nat) {
    && l <= u <= |list|
    && (l > 0 ==> FreqComp(list, key, l - 1) > 0)
    && (u < |list| ==> u > 0 && FreqComp(list, key, u) < 0)
  }

  lemma BoundsApart(list: seq<Dx>, key: real, l: nat, u: nat)
    requires list != [] && Bounds(list, key, l, u)
    ensures l < u
  {
  }

  /** The entry that `bsearch` finds between `l` and `u`. */
  function Find(list: seq<Dx>, key: real, l: nat, u: nat): (i: nat)
    requires list != [] && Bounds(list, key, l, u)
    ensures i < |list| && FreqComp(list, key, i) == 0
    decreases u - l
  {
    BoundsApart(list, key, l, u);
    var m := (l + u) / 2;
    var c := FreqComp(list, key, m);
    if c == 0 then m else if c < 0 then Find(list, key, l, m) else Find(list, key, m + 1, u)
  }

  /** `bsearch`: on a list that is not empty, sorted or not, it always finds an entry. */
  method Bsearch(list: seq<Dx>, key: real) returns (i: nat)
    requires list != []
    ensures i < |list| && FreqComp(list, key, i) == 0 && i == Find(list, key, 0, |list|)
  {
    var l: nat, u: nat := 0, |list|;
    BoundsApart(list, key, l, u);
    while l < u
      invariant Bounds(list, key, l, u) && l < u && Find(list, key, l, u) == Find(list, key, 0, |list|)
      decreases u - l
    {
      i := (l + u) / 2;
      var c := FreqComp(list, key, i);
      if c == 0 { return; }
      if c < 0 { u := i; } else { l := i + 1; }
      BoundsApart(list, key, l, u);
    }
    assert false;
  }

  // ---- the scan ------------------------------------------------------------------------

  /** The first entry beyond the window, from `i` on. */
  function Stop(list: seq<Dx>, i: nat, max: real): (r: nat)
    requires i <= |list|
    ensures i <= r <= |list| && forall k :: i <= k < r ==> Effective(list[k]) <= max + DX_SEARCH_WINDOW
    ensures r < |list| ==> Effective(list[r]) > max + DX_SEARCH_WINDOW
    decreases |list| - i
  {
    if i == |list| || Effective(list[i]) > max + DX_SEARCH_WINDOW then i else Stop(list, i + 1, max)
  }

  /** The scan for `min` to `max` considers entry `i`. */
  predicate InScan(list: seq<Dx>, min: real, max: real, i: nat)
    requires list != []
  {
    var start := Find(list, min - DX_SEARCH_WINDOW, 0, |list|);
    start <= i < Stop(list, start, max)
  }

  /** The scan of `CMD_MARKER`: the entries it considers, from the one found up to the first
      one beyond the window. */
  method Markers(list: seq<Dx>, min: real, max: real) returns (visited: seq<nat>)
    requires list != []
    ensures forall k :: 0 <= k < |visited| ==> visited[k] < |list| && visited[k] == visited[0] + k
    ensures forall i: nat :: i in visited <==> InScan(list, min, max, i)
  {
    var start := Bsearch(list, min - DX_SEARCH_WINDOW);
    var dp := start;
    visited := [];
    while dp < |list| && Effective(list[dp]) <= max + DX_SEARCH_WINDOW
      invariant start <= dp <= |list| && |visited| == dp - start && Stop(list, dp, max) == Stop(list, start, max)
      invariant forall k :: 0 <= k < |visited| ==> visited[k] == start + k
    {
      visited := visited + [dp];
      dp := dp + 1;
    }
    forall i: nat | start <= i < dp ensures i in visited { assert visited[i - start] == i; }
  }

  /** Any two offsets differ by at most `spread` Hz. */
  predicate OffsetsWithin(list: seq<Dx>, spread: int) {
    forall i, j :: 0 <= i < |list| && 0 <= j < |list| ==> list[i].offset - list[j].offset <= spread
  }

  /** The scan misses no entry in the range. */
  ghost predicate Complete(list: seq<Dx>, min: real, max: real)
    requires list != []
  {
    forall i: nat :: i < |list| && min <= Effective(list[i]) <= max ==> InScan(list, min, max, i)
  }

  lemma EffectivesWithin(list: seq<Dx>, spread: int)
    requires Sorted(list) && OffsetsWithin(list, spread)
    ensures forall i, j :: 0 <= i < j < |list| ==> Effective(list[i]) - Effective(list[j]) <= spread as real / 1000.0
  {
    forall i, j | 0 <= i < j < |list| ensures Effective(list[i]) - Effective(list[j]) <= spread as real / 1000.0 {
      assert list[i].freq <= list[j].freq && list[i].offset - list[j].offset <= spread;
    }
  }

  /** On a list in order of carriers whose offsets differ by less than 10 kHz, the scan visits
      every entry in the range, in whatever order the offsets put them. */
  lemma ScanIsComplete(list: seq<Dx>, spread: int, min: real, max: real)
    requires list != [] && Sorted(list) && OffsetsWithin(list, spread) && spread < 10000
    ensures Complete(list, min, max)
  {
    var start := Find(list, min - DX_SEARCH_WINDOW, 0, |list|);
    var stop := Stop(list, start, max);
    EffectivesWithin(list, spread);
    assert start > 0 ==> Effective(list[start]) <= min - DX_SEARCH_WINDOW;
  }

  function Label(freq: real, offset: int): Dx { Dx(freq, 0, 0, ALL_DAYS, 0, 0, offset, 0, 0, 2400, "", "", "", 0) }

  /** Two labels on one carrier, the second without offset: asked for the first, the scan starts
      at the second. */
  lemma ScanMisses(offset: nat)
    requires offset >= 10000
    ensures var list, f := [Label(100.0, offset), Label(100.0, 0)], 100.0 + offset as real / 1000.0;
            Sorted(list) && OffsetsWithin(list, offset) && Effective(list[0]) == f && !InScan(list, f, f, 0)
  {
    var list, f := [Label(100.0, offset), Label(100.0, 0)], 100.0 + offset as real / 1000.0;
    assert Effective(list[1]) == 100.0 <= f - DX_SEARCH_WINDOW;
    assert FreqComp(list, f - DX_SEARCH_WINDOW, 1) == 0;
  }

  /** A spread of offsets is safe for all lists in order of carriers and all ranges exactly if it
      is less than the search window. */
  lemma WindowIsExact(spread: nat)
    ensures spread < 10000 <==>
            forall list: seq<Dx>, min: real, max: real ::
              list != [] && Sorted(list) && OffsetsWithin(list, spread) ==> Complete(list, min, max)
  {
    if spread < 10000 {
      forall list: seq<Dx>, min: real, max: real | list != [] && Sorted(list) && OffsetsWithin(list, spread)
        ensures Complete(list, min, max)
      {
        ScanIsComplete(list, spread, min, max);
      }
    } else {
      ScanMisses(spread);
      var list, f := [Label(100.0, spread), Label(100.0, 0)], 100.0 + spread as real / 1000.0;
      assert !Complete(list, f, f);
    }
  }

  // ---- schedules -----------------------------------------------------------------------

  /** Whether day `d`, Monday 0, is in the mask; an empty mask means all days. */
  predicate OnDay(dow: nat, d: nat)
    requires d < 7
  {
    dow == 0 || (dow / Power(6 - d)) % 2 == 1
  }

  function Power(n: nat): (r: nat)
    ensures r > 0
  {
    if n == 0 then 1 else 2 * Power(n - 1)
  }

  /** A label is shown in the period that starts at `begin` on each of its days and ends at
      `end`, on the next day if that is earlier. `now` is in such a period. */
  predicate OnAir(d: Dx, today: nat, now: nat)
    requires today < 7
  {
    var end := if d.begin > d.end then d.end + 2400 else d.end;
    || (OnDay(d.dow, today) && d.begin <= now < end)
    || (OnDay(d.dow, (today + 6) % 7) && d.begin <= now + 2400 < end)
  }

  /** The two tests of the scan, which look at the days and at the times. */
  method Scheduled(d: Dx, today: nat, now: nat) returns (shown: bool)
    requires today < 7 && now < 2400
    ensures var e := if d.begin == 0 && d.end == 0 then d.(end := 2400) else d;
            && (d.begin <= 2400 && d.end <= 2400 ==> shown == OnAir(e, today, now))
            && shown == if e.begin <= e.end then OnDay(d.dow, today) && e.begin <= now < e.end
                        else (OnDay(d.dow, today) && e.begin <= now) ||
                             (OnDay(d.dow, (today + 6) % 7) && now < e.end && now < e.begin)
  {
    var time_begin, time_end := d.begin, d.end;
    if time_begin == 0 && time_end == 0 { time_end := 2400; }
    var yesterday := if today == 0 then 6 else today - 1;
    var rev := time_begin > time_end;
    var today_ok, yesterday_ok := OnDay(d.dow, today), OnDay(d.dow, yesterday);
    var dow_ok := if !rev then today_ok else if now >= time_begin then today_ok else yesterday_ok;
    var within := now >= time_begin && now < time_end;
    var within_rev := now >= time_end && now < time_begin;
    var tod_ok := (!rev && within) || (rev && !within_rev);
    shown := dow_ok && tod_ok;
  }
}
