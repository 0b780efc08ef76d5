/**
 Editing of configuration text in its buffer: cutting a member out, and inserting one, by
 moving the characters behind it.
 */
module CfgEdit {

  /** The buffer holds the string `t`, with its terminator. */
  ghost predicate Buffered(a: array<char>, t: string)
    reads a
  {
    |t| < a.Length && a[..|t|] == t && a[|t|] == '\0' && '\0' !in t
  }

  lemma BufferedAt(a: array<char>, t: string)
    requires Buffered(a, t)
    ensures forall i :: 0 <= i < |t| ==> a[i] == t[i] && a[i] != '\0'
  {
    forall i | 0 <= i < |t| ensures a[i] == t[i] && a[i] != '\0' {
      assert a[..|t|][i] == t[i];
    }
  }

  lemma BufferedLength(a: array<char>, t: string)
    requires Buffered(a, t)
    ensures |t| < a.Length
  {
  }

  method Strlen(a: array<char>, ghost t: string) returns (n: nat)
    requires Buffered(a, t)
    ensures n == |t|
  {
    BufferedAt(a, t);
    n := 0;
    while a[n] != '\0'
      invariant n <= |t|
      decreases |t| - n
    {
      n := n + 1;
    }
  }

  /** `kiwi_overlap_strcpy`, towards the front. */
  method OverlapCopy(a: array<char>, dst: nat, src: nat, ghost t: string)
    requires Buffered(a, t) && dst <= src <= |t|
    modifies a
    ensures Buffered(a, t[..dst] + t[src..])
  {
    BufferedAt(a, t);
    var d, s := dst, src;
    var c := a[s];
    a[d] := c;
    while c != '\0'
      invariant dst <= d <= s <= |t| && s - d == src - dst
      invariant forall i :: 0 <= i < dst ==> a[i] == t[i]
      invariant forall i :: dst <= i < d ==> a[i] == t[i + (src - dst)]
      invariant forall i :: d < i < |t| ==> a[i] == t[i]
      invariant d < |t| ==> a[|t|] == '\0'
      invariant a[d] == c && c == (if s < |t| then t[s] else '\0')
      decreases |t| - s
    {
      s := s + 1;
      d := d + 1;
      c := a[s];
      a[d] := c;
    }

    ghost var r := t[..dst] + t[src..];
    assert |r| == d;
    assert a[..d] == r;
  }

  predicate IsGap(c: char) { c == ',' || c == ' ' || c == '\n' }

  predicate Gap(s: string) { forall i :: 0 <= i < |s| ==> IsGap(s[i]) }

  predicate IsBefore(c: char) { c == ' ' || c == '\t' || c == '\n' }

  predicate IsBetween(c: char) { c == ' ' || c == '\t' }

  /** The blanks that are skipped before a key, and between a colon and a value. */
  predicate Before(s: string) { forall i :: 0 <= i < |s| ==> IsBefore(s[i]) }

  predicate Between(s: string) { forall i :: 0 <= i < |s| ==> IsBetween(s[i]) }

  /** A member in its surroundings: `left` ends with a brace or comma, `gap` are the comma
      and blanks after the value. */
  datatype Site = Site(left: string, pre: string, key: string, mid: string, value: string, gap: string, right: string)

  predicate SiteOk(s: Site) {
    && s.left != "" && (s.left[|s.left| - 1] == '{' || s.left[|s.left| - 1] == ',')
    && Before(s.pre) && Between(s.mid) && Gap(s.gap)
    && s.value != "" && s.value[0] != ' ' && s.value[0] != '\t'
    && s.right != "" && !IsGap(s.right[0])
  }

  function SiteText(s: Site): string {
    s.left + s.pre + "\"" + s.key + "\":" + s.mid + s.value + s.gap + s.right
  }

  function KeyStart(s: Site): nat { |s.left| + |s.pre| + 1 }

  /** What remains of the left side: a comma with nothing after it goes, too. */
  function LeftKept(s: Site): string
    requires SiteOk(s)
  {
    if s.left[|s.left| - 1] == ',' && s.right[0] == '}' then s.left[..|s.left| - 1] else s.left
  }

  lemma SiteAt(s: Site)
    requires SiteOk(s)
    ensures var t, k := SiteText(s), KeyStart(s);
            var v := k + |s.key| + 2 + |s.mid|;
            var e := v + |s.value| + |s.gap|;
            && |t| == e + |s.right|
            && (forall i :: |s.left| <= i < k - 1 ==> IsBefore(t[i]))
            && t[|s.left| - 1] == s.left[|s.left| - 1]
            && (forall i :: k + |s.key| + 2 <= i < v ==> IsBetween(t[i])) && t[v] == s.value[0]
            && (forall i :: v + |s.value| <= i < e ==> IsGap(t[i])) && t[e] == s.right[0]
            && t[e..] == s.right && t[..|s.left|] == s.left
  {
  }

  const JSON_ID_FIRST_QUOTE := 1
  const JSON_ID_QUOTE_COLON := 2

  /** The pointers `s` and `e` of `_cfg_cut`. */
  lemma SpanFacts(a: array<char>, keyStart: nat, keyEnd: nat, site: Site)
    requires SiteOk(site) && Buffered(a, SiteText(site))
    requires keyStart == KeyStart(site) && keyEnd == keyStart + |site.key|
    ensures var v, l := keyEnd + 2 + |site.mid|, |site.left|;
            var g := v + |site.value| + |site.gap|;
            && 0 < l <= keyStart - 1 && g < a.Length && site.right != []
            && !IsBefore(a[l - 1]) && !IsBetween(a[v]) && !IsGap(a[g])
            && (forall i :: l <= i < keyStart - 1 ==> IsBefore(a[i]))
            && (forall i :: keyEnd + 2 <= i < v ==> IsBetween(a[i]))
            && (forall i :: v + |site.value| <= i < g ==> IsGap(a[i]))
            && a[g] == site.right[0] && a[l - 1] == site.left[l - 1]
            && |SiteText(site)| == g + |site.right|
  {
    SiteAt(site);
    BufferedAt(a, SiteText(site));
    hide SiteText;
  }

  method Span(a: array<char>, keyStart: nat, keyEnd: nat, jtStart: nat, jtEnd: nat, skip: nat, ghost site: Site)
      returns (s: nat, e: nat)
    requires SiteOk(site) && Buffered(a, SiteText(site))
    requires keyStart == KeyStart(site) && keyEnd == keyStart + |site.key|
    requires jtStart <= jtEnd && jtEnd - jtStart + skip == |site.value|
    ensures s == |LeftKept(site)| && e == |SiteText(site)| - |site.right|
  {
    hide SiteText, Before, Between, Gap, SiteOk, IsBefore, IsBetween, IsGap;
    SpanFacts(a, keyStart, keyEnd, site);
    ghost var v, l := keyEnd + 2 + |site.mid|, |site.left|;
    var keySize, valSize := keyEnd - keyStart, jtEnd - jtStart;
    s := keyStart - JSON_ID_FIRST_QUOTE - 1;
    while IsBefore(a[s])
      invariant l - 1 <= s <= keyStart - 2
      decreases s
    {
      s := s - 1;
    }
    s := s + 1;
    e := keyStart + keySize + JSON_ID_QUOTE_COLON;
    while IsBetween(a[e])
      invariant keyEnd + 2 <= e <= v
      decreases v - e
    {
      e := e + 1;
    }
    e := e + valSize + skip;
    while IsGap(a[e])
      invariant v + |site.value| <= e <= v + |site.value| + |site.gap|
      decreases v + |site.value| + |site.gap| - e
    {
      e := e + 1;
    }
    if a[s - 1] == ',' && a[e] == '}' { s := s - 1; }
  }

  /** `_cfg_cut`: removes the member; `skip` is 2 for a string, whose token is without its
      quotes. Returns where it was. */
  method Cut(a: array<char>, keyStart: nat, keyEnd: nat, jtStart: nat, jtEnd: nat, skip: nat, ghost site: Site)
      returns (pos: nat)
    requires SiteOk(site) && Buffered(a, SiteText(site))
    requires keyStart == KeyStart(site) && keyEnd == keyStart + |site.key|
    requires jtStart <= jtEnd && jtEnd - jtStart + skip == |site.value|
    modifies a
    ensures Buffered(a, LeftKept(site) + site.right) && pos == |LeftKept(site)|
  {
    ghost var t := SiteText(site);
    SiteAt(site);
    var s, e := Span(a, keyStart, keyEnd, jtStart, jtEnd, skip, site);
    assert t[..s] == LeftKept(site) by { assert t[..s] == t[..|site.left|][..s]; }
    hide SiteText, LeftKept;
    OverlapCopy(a, s, e, t);
    pos := s;
  }

  /** The text after an insertion at `pos`, with a comma on one side unless the object was
      empty. */
  function Inserted(t: string, pos: nat, val: string): string
    requires 0 < pos < |t|
  {
    if t[pos] == '}' && t[pos - 1] == '{' then t[..pos] + val + t[pos..]
    else if t[pos] == '}' then t[..pos] + "," + val + t[pos..]
    else t[..pos] + val + "," + t[pos..]
  }

  /** Moves the text from `low` on, with its terminator, up by `gap`. */
  method MoveUp(a: array<char>, low: nat, gap: nat, ghost t: string)
    requires Buffered(a, t) && low <= |t| && |t| + gap < a.Length
    modifies a
    ensures forall k :: 0 <= k < low ==> a[k] == t[k]
    ensures forall k :: low <= k < |t| ==> a[k + gap] == t[k]
    ensures a[|t| + gap] == '\0'
  {
    BufferedAt(a, t);
    var slen := Strlen(a, t);
    var rlen := slen - low + 1;
    var s: int, d: int := slen, slen + gap;
    for i := 0 to rlen
      invariant s == slen - i && d == slen + gap - i
      invariant forall k :: 0 <= k <= s && k < |t| ==> a[k] == t[k]
      invariant forall k :: s < k < |t| ==> a[k + gap] == t[k]
      invariant if i == 0 then a[|t|] == '\0' else a[|t| + gap] == '\0'
    {
      a[d] := a[s];
      s, d := s - 1, d - 1;
    }
  }

  /** `strncpy` of a string without terminator. */
  method Write(a: array<char>, r: nat, val: string)
    requires r + |val| <= a.Length
    modifies a
    ensures forall k :: 0 <= k < |val| ==> a[r + k] == val[k]
    ensures forall k :: 0 <= k < a.Length && !(r <= k < r + |val|) ==> a[k] == old(a[k])
  {
    for i := 0 to |val|
      invariant forall k :: 0 <= k < i ==> a[r + k] == val[k]
      invariant forall k :: 0 <= k < a.Length && !(r <= k < r + i) ==> a[k] == old(a[k])
    {
      a[r + i] := val[i];
    }
  }

  lemma Assembled(a: array<char>, t: string, pos: nat, new_: string)
    requires pos <= |t| && |t| + |new_| < a.Length && '\0' !in t && '\0' !in new_
    requires forall k :: 0 <= k < pos ==> a[k] == t[k]
    requires forall k :: 0 <= k < |new_| ==> a[pos + k] == new_[k]
    requires forall k :: pos <= k < |t| ==> a[k + |new_|] == t[k]
    requires a[|t| + |new_|] == '\0'
    ensures Buffered(a, t[..pos] + new_ + t[pos..])
  {
    var r := t[..pos] + new_ + t[pos..];
    forall i | 0 <= i < |r| ensures a[i] == r[i] {
      if i >= pos + |new_| { assert a[(i - |new_|) + |new_|] == t[i - |new_|]; }
      else if i >= pos { assert a[pos + (i - pos)] == new_[i - pos]; }
    }
    assert a[..|r|] == r;
  }

  /** `_cfg_ins`. */
  method Ins(a: array<char>, pos: nat, val: string, ghost t: string)
    requires Buffered(a, t) && 0 < pos < |t| && |t| + |val| + 1 < a.Length && '\0' !in val
    modifies a
    ensures Buffered(a, Inserted(t, pos, val))
  {
    BufferedAt(a, t);
    var r, Lcomma, Rcomma := pos, false, false;
    if a[r] == '}' && a[r - 1] == '{' {
    } else if a[r] == '}' {
      r := r + 1;
      Lcomma := true;
    } else {
      Rcomma := true;
    }
    assert t[..pos] + (Comma(Lcomma) + val + Comma(Rcomma)) + t[pos..] == Inserted(t, pos, val);
    hide Inserted;
    Place(a, pos, r, val, Lcomma, Rcomma, t);
  }

  function Comma(c: bool): string { if c then "," else "" }

  /** Makes room at `pos` and writes the value at `r`, and the comma. */
  method Place(a: array<char>, pos: nat, r: nat, val: string, Lcomma: bool, Rcomma: bool, ghost t: string)
    requires Buffered(a, t) && pos < |t| && |t| + |val| + 1 < a.Length && '\0' !in val
    requires !(Lcomma && Rcomma) && r == pos + |Comma(Lcomma)|
    modifies a
    ensures Buffered(a, t[..pos] + (Comma(Lcomma) + val + Comma(Rcomma)) + t[pos..])
  {
    BufferedAt(a, t);
    assert '\0' !in t;
    MoveUp(a, pos, |val| + (if Lcomma || Rcomma then 1 else 0), t);
    hide Buffered;
    if Rcomma { a[pos + |val|] := ','; }
    Write(a, r, val);
    if Lcomma { a[r - 1] := ','; }
    hide Comma;
    Assembled(a, t, pos, Comma(Lcomma) + val + Comma(Rcomma));
  }
}
