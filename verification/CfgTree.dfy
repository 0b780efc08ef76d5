/**
 What editing a configuration means: the members of an object are an ordered map, set in
 place, appended, put first or removed; and what this does to the text and the tokens.
 */
module CfgTree {
  import opened Optional
  import opened Json
  import opened CfgWalk
  import opened CfgLookup
  import opened CfgEdit
  import opened Jsmn

  // ---- members as an ordered map ----------------------------------------------------

  function Join(f: Members, b: Members): Members {
    if f.NoMember? then b else f.(more := Join(f.more, b))
  }

  /** The members before the first one called `key`, and those from there on. */
  function Ahead(ms: Members, key: string): Members {
    if ms.NoMember? || ms.key == key then NoMember else ms.(more := Ahead(ms.more, key))
  }

  function From(ms: Members, key: string): (b: Members)
    ensures b.Member? <==> HasKey(ms, key)
    ensures b.Member? ==> b.key == key
  {
    if ms.NoMember? || ms.key == key then ms else From(ms.more, key)
  }

  function First(ms: Members, key: string, v: Value): Members { Member("", key, "", v, "", ms) }

  function One(key: string, v: Value): Members { First(NoMember, key, v) }

  function DropGap(s: string): string {
    if s != "" && IsGap(s[0]) then DropGap(s[1..]) else s
  }

  /** The blanks before a member that follows a removed one are dropped. */
  function Trim(ms: Members): Members {
    if ms.NoMember? then ms else ms.(pre := DropGap(ms.pre))
  }

  function Remove(ms: Members, key: string): Members { Join(Ahead(ms, key), Trim(More(From(ms, key)))) }

  function More(ms: Members): Members { if ms.NoMember? then ms else ms.more }

  function Append(ms: Members, key: string, v: Value): Members { Join(ms, One(key, v)) }

  /** In place of the first member called `key`. */
  function Replace(ms: Members, key: string, v: Value): Members {
    Join(Ahead(ms, key), First(Trim(More(From(ms, key))), key, v))
  }

  /** The ordered map itself: keys and values. */
  function Entries(ms: Members): seq<(string, Value)> {
    if ms.NoMember? then [] else [(ms.key, ms.value)] + Entries(ms.more)
  }

  lemma {:induction false} JoinEntries(f: Members, b: Members)
    ensures Entries(Join(f, b)) == Entries(f) + Entries(b)
  {
    if f.Member? { JoinEntries(f.more, b); }
  }

  lemma {:induction false} Parts(ms: Members, key: string)
    ensures Join(Ahead(ms, key), From(ms, key)) == ms && !HasKey(Ahead(ms, key), key)
  {
    if ms.Member? && ms.key != key { Parts(ms.more, key); }
  }

  /** Where the first entry with this key is. */
  lemma EntryAt(ms: Members, key: string)
    requires HasKey(ms, key)
    ensures var i, b := |Entries(Ahead(ms, key))|, From(ms, key);
            && Entries(ms) == Entries(Ahead(ms, key)) + [(key, b.value)] + Entries(b.more)
            && forall j :: 0 <= j < i ==> Entries(ms)[j].0 != key
  {
    Parts(ms, key);
    JoinEntries(Ahead(ms, key), From(ms, key));
    EntryKeys(Ahead(ms, key), key);
  }

  /** Replacing changes one value and nothing else. */
  lemma ReplaceEntries(ms: Members, key: string, v: Value)
    requires HasKey(ms, key)
    ensures var i := |Entries(Ahead(ms, key))|;
            i < |Entries(ms)| && Entries(ms)[i].0 == key && Entries(Replace(ms, key, v)) == Entries(ms)[i := (key, v)]
  {
    EntryAt(ms, key);
    var f, b := Ahead(ms, key), From(ms, key);
    JoinEntries(f, First(Trim(b.more), key, v));
    assert Entries(Trim(b.more)) == Entries(b.more);
    assert Entries(First(Trim(b.more), key, v)) == [(key, v)] + Entries(b.more);
    hide Entries;
    assert Entries(f) + ([(key, v)] + Entries(b.more))
           == (Entries(f) + [(key, b.value)] + Entries(b.more))[|Entries(f)| := (key, v)];
  }

  /** Removing takes one entry out. */
  lemma RemoveEntries(ms: Members, key: string)
    requires HasKey(ms, key)
    ensures var i := |Entries(Ahead(ms, key))|;
            i < |Entries(ms)| && Entries(ms)[i].0 == key
                && Entries(Remove(ms, key)) == Entries(ms)[..i] + Entries(ms)[i + 1..]
  {
    EntryAt(ms, key);
    var f, b := Ahead(ms, key), From(ms, key);
    JoinEntries(f, Trim(b.more));
    assert Entries(Trim(b.more)) == Entries(b.more);
    hide *;
    TakeOut(Entries(f), (key, b.value), Entries(b.more));
  }

  lemma TakeOut<T>(a: seq<T>, x: T, b: seq<T>)
    ensures var s := a + [x] + b; s[|a|] == x && s[..|a|] == a && s[|a| + 1..] == b
  {
  }

  lemma {:induction false} EntryKeys(ms: Members, key: string)
    ensures HasKey(ms, key) <==> exists j :: 0 <= j < |Entries(ms)| && Entries(ms)[j].0 == key
  {
    if ms.Member? {
      EntryKeys(ms.more, key);
      if HasKey(ms.more, key) {
        var j :| 0 <= j < |Entries(ms.more)| && Entries(ms.more)[j].0 == key;
        assert Entries(ms)[j + 1] == Entries(ms.more)[j];
      }
      if ms.key == key { assert Entries(ms)[0].0 == key; }
    }
  }

  lemma AppendEntries(ms: Members, key: string, v: Value)
    ensures Entries(Append(ms, key, v)) == Entries(ms) + [(key, v)]
    ensures Entries(First(ms, key, v)) == [(key, v)] + Entries(ms)
  {
    JoinEntries(ms, One(key, v));
  }

  lemma {:induction false} JoinFind(f: Members, b: Members, key: string)
    ensures Find(Join(f, b), key) == (if HasKey(f, key) then Find(f, key) else Find(b, key))
    ensures HasKey(Join(f, b), key) <==> HasKey(f, key) || HasKey(b, key)
  {
    if f.Member? { JoinFind(f.more, b, key); }
  }

  lemma TrimFind(ms: Members, key: string)
    ensures Find(Trim(ms), key) == Find(ms, key) && (HasKey(Trim(ms), key) <==> HasKey(ms, key))
  {
  }

  /** Get after set: the key has the new value, all other keys what they had. */
  lemma ReplaceFind(ms: Members, key: string, v: Value, k: string)
    requires HasKey(ms, key)
    ensures Find(Replace(ms, key, v), k) == if k == key then Some(v) else Find(ms, k)
  {
    Parts(ms, key);
    var f, b := Ahead(ms, key), From(ms, key);
    JoinFind(f, b, k);
    JoinFind(f, First(Trim(b.more), key, v), k);
    TrimFind(b.more, k);
  }

  lemma RemoveFind(ms: Members, key: string, k: string)
    requires Once(ms, key)
    ensures Find(Remove(ms, key), k) == if k == key then None else Find(ms, k)
    ensures HasKey(Remove(ms, key), k) <==> k != key && HasKey(ms, k)
  {
    Parts(ms, key);
    var f, b := Ahead(ms, key), From(ms, key);
    JoinFind(f, b, k);
    JoinFind(f, Trim(More(b)), k);
    TrimFind(More(b), k);
    if b.Member? { OnceFrom(ms, key); FindHas(b.more, key); }
    FindHas(f, key);
  }

  lemma {:induction false} OnceFrom(ms: Members, key: string)
    requires Once(ms, key)
    ensures From(ms, key).Member? ==> !HasKey(From(ms, key).more, key)
  {
    if ms.Member? && ms.key != key { OnceFrom(ms.more, key); }
  }

  /** How often a key is there, in two parts. */
  lemma {:induction false} OnceJoin(f: Members, b: Members, key: string)
    ensures Once(Join(f, b), key) <==> Once(f, key) && Once(b, key) && !(HasKey(f, key) && HasKey(b, key))
  {
    if f.Member? {
      OnceJoin(f.more, b, key);
      JoinFind(f.more, b, key);
      if !HasKey(b, key) { AbsentIsOnce(b, key); }
      if !HasKey(f.more, key) { AbsentIsOnce(f.more, key); }
    }
  }

  lemma {:induction false} UniqueJoin(f: Members, b: Members)
    ensures Unique(Join(f, b)) <==> Unique(f) && Unique(b) && forall k :: HasKey(f, k) ==> !HasKey(b, k)
  {
    if f.Member? {
      UniqueJoin(f.more, b);
      JoinFind(f.more, b, f.key);
      assert HasKey(f, f.key);
      forall k | HasKey(f.more, k) ensures HasKey(f, k) {}
    }
  }

  // ---- text --------------------------------------------------------------------------

  /** The text of members that are followed by more. */
  function FrontText(f: Members): string {
    if f.NoMember? then "" else RenderMembers(f) + ","
  }

  lemma {:induction false} JoinText(f: Members, b: Members)
    requires b.Member?
    ensures RenderMembers(Join(f, b)) == FrontText(f) + RenderMembers(b)
  {
    if f.Member? {
      JoinText(f.more, b);
      var h := Head(f) + Render(f.value) + f.post;
      assert RenderMembers(Join(f, b)) == h + ("," + RenderMembers(Join(f.more, b)));
      assert RenderMembers(f) == h + (if f.more.NoMember? then "" else "," + RenderMembers(f.more));
      assert RenderMembers(Join(f, b)) == FrontText(f) + RenderMembers(b);
    }
  }

  lemma {:induction false} JoinNothing(f: Members)
    ensures Join(f, NoMember) == f
  {
    if f.Member? { JoinNothing(f.more); }
  }

  lemma {:induction false} JoinTokens(f: Members, b: Members, pos: nat)
    requires b.Member?
    ensures MemberTokens(Join(f, b), pos) == MemberTokens(f, pos) + MemberTokens(b, pos + |FrontText(f)|)
    decreases f
  {
    if f.Member? {
      JoinTokens(f.more, b, MorePos(f, pos));
      MoreTokens(f, pos);
      MoreTokens(Join(f, b), pos);
      JoinMore(f, b, pos);
      hide FrontText, MemberTokens, Join, MorePos, FirstTokens;
    }
  }

  /** The tokens of the first member. */
  function FirstTokens(ms: Members, pos: nat): seq<Token>
    requires ms.Member?
  {
    [KeyToken(ms, pos)] + Tokens(ms.value, ValuePos(ms, pos))
  }

  lemma MoreTokens(ms: Members, pos: nat)
    requires ms.Member?
    ensures MemberTokens(ms, pos) == FirstTokens(ms, pos) + MemberTokens(ms.more, MorePos(ms, pos))
  {
  }

  lemma JoinMore(f: Members, b: Members, pos: nat)
    requires f.Member?
    ensures MorePos(f, pos) + |FrontText(f.more)| == pos + |FrontText(f)|
    ensures Join(f, b).Member? && Join(f, b).more == Join(f.more, b)
    ensures MorePos(Join(f, b), pos) == MorePos(f, pos) && FirstTokens(Join(f, b), pos) == FirstTokens(f, pos)
  {
    hide FrontText, Render, Tokens, Join;
    FrontLength(f);
    JoinHead(f, b);
  }

  lemma JoinHead(f: Members, b: Members)
    requires f.Member?
    ensures Join(f, b) == Member(f.pre, f.key, f.mid, f.value, f.post, Join(f.more, b))
  {
  }

  lemma FrontLength(f: Members)
    requires f.Member?
    ensures |FrontText(f)| == |f.pre| + |f.key| + 3 + |f.mid| + |Render(f.value)| + |f.post| + 1 + |FrontText(f.more)|
  {
  }

  /** Blanks such that members can be cut out: no tab or carriage return after a value, no
      line break between key and value. And no primitive that ends like an empty object. */
  predicate Layout(ms: Members) {
    ms.Member? ==>
      && Before(ms.pre) && Between(ms.mid) && Gap(ms.post) && ',' !in ms.post && !Gaping(ms.value)
      && Layout(ms.more)
  }

  predicate Gaping(v: Value) { v.Prim? && v.text != "" && v.text[|v.text| - 1] == '{' }

  lemma {:induction false} JoinLayout(f: Members, b: Members)
    ensures Layout(Join(f, b)) <==> Layout(f) && Layout(b)
    ensures MembersOk(Join(f, b)) <==> MembersOk(f) && MembersOk(b)
  {
    if f.Member? { JoinLayout(f.more, b); }
  }

  // ---- cutting and inserting in the text of an object ---------------------------------

  /** The text of an object with these members, between `l` and `r`. */
  function ObjectText(l: string, ms: Members, r: string): string { l + "{" + RenderMembers(ms) + "}" + r }

  function LeadingGap(s: string): string {
    if s != "" && IsGap(s[0]) then [s[0]] + LeadingGap(s[1..]) else ""
  }

  lemma {:induction false} GapSplit(s: string)
    ensures LeadingGap(s) + DropGap(s) == s && Gap(LeadingGap(s)) && (DropGap(s) != "" ==> !IsGap(DropGap(s)[0]))
  {
    if s != "" && IsGap(s[0]) { GapSplit(s[1..]); }
  }

  /** The member `b` in the text, as `_cfg_cut` sees it. */
  function SiteOf(l: string, f: Members, b: Members, r: string): Site
    requires b.Member?
  {
    Site(l + "{" + FrontText(f), b.pre, b.key, b.mid, Render(b.value),
         b.post + (if b.more.NoMember? then "" else "," + LeadingGap(b.more.pre)),
         RenderMembers(Trim(b.more)) + "}" + r)
  }

  lemma Assoc(a: string, b: string, c: string)
    ensures (a + b) + c == a + (b + c)
  {
  }

  /** All of the text of these members but the first blanks. */
  function AfterPre(ms: Members): string
    requires ms.Member?
  {
    "\"" + ms.key + "\":" + ms.mid + Render(ms.value) + ms.post + Tail(ms)
  }

  lemma PreText(ms: Members)
    requires ms.Member?
    ensures RenderMembers(ms) == ms.pre + AfterPre(ms)
  {
    var a1 := "\"" + ms.key;
    var a2 := a1 + "\":";
    var a3 := a2 + ms.mid;
    var a4 := a3 + Render(ms.value);
    var a5 := a4 + ms.post;
    Assoc(ms.pre, "\"", ms.key);
    Assoc(ms.pre, a1, "\":");
    Assoc(ms.pre, a2, ms.mid);
    Assoc(ms.pre, a3, Render(ms.value));
    Assoc(ms.pre, a4, ms.post);
    Assoc(ms.pre, a5, Tail(ms));
  }

  lemma TrimText(ms: Members)
    requires ms.Member?
    ensures RenderMembers(ms) == LeadingGap(ms.pre) + RenderMembers(Trim(ms))
    ensures RenderMembers(Trim(ms)) != "" && !IsGap(RenderMembers(Trim(ms))[0])
    ensures Before(ms.pre) ==> RenderMembers(Trim(ms))[0] != '}'
  {
    GapSplit(ms.pre);
    PreText(ms);
    PreText(Trim(ms));
    assert AfterPre(Trim(ms)) == AfterPre(ms) && AfterPre(ms)[0] == '"';
    hide AfterPre, RenderMembers;
    Assoc(LeadingGap(ms.pre), DropGap(ms.pre), AfterPre(ms));
    if DropGap(ms.pre) != "" && Before(ms.pre) { assert ms.pre[|LeadingGap(ms.pre)|] == DropGap(ms.pre)[0]; }
  }

  /** The text of the first member without a comma. */
  function Own(ms: Members): string
    requires ms.Member?
  {
    ms.pre + "\"" + ms.key + "\":" + ms.mid + Render(ms.value) + ms.post
  }

  lemma GapAndRight(b: Members)
    requires b.Member?
    ensures var g := if b.more.NoMember? then "" else "," + LeadingGap(b.more.pre);
            RenderMembers(b) == Own(b) + (g + RenderMembers(Trim(b.more)))
  {
    if b.more.Member? {
      TrimText(b.more);
      Assoc(",", LeadingGap(b.more.pre), RenderMembers(Trim(b.more)));
    }
  }

  lemma SiteIsText(l: string, f: Members, b: Members, r: string)
    requires b.Member?
    ensures SiteText(SiteOf(l, f, b, r)) == ObjectText(l, Join(f, b), r)
  {
    hide Render, RenderMembers, FrontText, LeadingGap, Own, Join;
    JoinText(f, b);
    GapAndRight(b);
    var g := if b.more.NoMember? then "" else "," + LeadingGap(b.more.pre);
    assert b.post + (if b.more.NoMember? then "" else "," + LeadingGap(b.more.pre)) == b.post + g;
    SiteChain(l + "{" + FrontText(f), b, g, RenderMembers(Trim(b.more)) + "}" + r);
    Chain(l + "{", FrontText(f), Own(b), g, RenderMembers(Trim(b.more)), "}" + r);
  }

  lemma SiteChainParts(left: string, pre: string, key: string, mid: string, value: string, post: string, g: string,
      right: string)
    ensures left + pre + "\"" + key + "\":" + mid + value + (post + g) + right
            == left + (pre + "\"" + key + "\":" + mid + value + post) + g + right
  {
    var a1 := pre + "\"";
    var a2 := a1 + key;
    var a3 := a2 + "\":";
    var a4 := a3 + mid;
    var a5 := a4 + value;
    Assoc(left, pre, "\"");
    Assoc(left, a1, key);
    Assoc(left, a2, "\":");
    Assoc(left, a3, mid);
    Assoc(left, a4, value);
    Assoc(left, a5, post);
    Assoc(left + a5, post, g);
  }

  lemma SiteChain(left: string, b: Members, g: string, right: string)
    requires b.Member?
    ensures left + b.pre + "\"" + b.key + "\":" + b.mid + Render(b.value) + (b.post + g) + right
            == left + Own(b) + g + right
  {
    SiteChainParts(left, b.pre, b.key, b.mid, Render(b.value), b.post, g, right);
  }

  lemma Chain(l: string, f: string, m: string, g: string, t: string, r: string)
    ensures (l + f) + m + g + (t + r) == l + (f + (m + (g + t))) + r
  {
    Assoc(l + f, m, g);
    Assoc(l, f, m + g);
    Assoc(f, m, g);
    Assoc(m, g, t);
    Assoc(f, m + g, t);
    Assoc(l, f + (m + g), t);
    Assoc(l + f + m + g, t, r);
  }

  lemma ValueStarts(v: Value)
    requires ValueOk(v)
    ensures Render(v) != "" && Render(v)[0] != ' ' && Render(v)[0] != '\t'
  {
  }

  lemma SiteIsOk(l: string, f: Members, b: Members, r: string)
    requires b.Member? && Layout(b) && ValueOk(b.value)
    ensures SiteOk(SiteOf(l, f, b, r))
  {
    ValueStarts(b.value);
    if b.more.Member? { TrimText(b.more); GapSplit(b.more.pre); }
    hide Render, RenderMembers;
  }

  /** Cutting a member out of the text removes it from the object. */
  lemma CutIsRemoval(l: string, f: Members, b: Members, r: string)
    requires b.Member? && Layout(b) && ValueOk(b.value)
    ensures var s := SiteOf(l, f, b, r);
            SiteOk(s) && LeftKept(s) + s.right == ObjectText(l, Join(f, Trim(b.more)), r)
  {
    SiteIsOk(l, f, b, r);
    if b.more.Member? { CutBefore(l, f, b, r); } else { CutLast(l, f, b, r); }
  }

  lemma CutBefore(l: string, f: Members, b: Members, r: string)
    requires b.Member? && Layout(b) && SiteOk(SiteOf(l, f, b, r)) && b.more.Member?
    ensures var s := SiteOf(l, f, b, r);
            LeftKept(s) == s.left && LeftKept(s) + s.right == ObjectText(l, Join(f, Trim(b.more)), r)
  {
    TrimText(b.more);
    JoinText(f, Trim(b.more));
    hide Render, RenderMembers, LeadingGap, Layout, Trim, Join;
    var s, t := SiteOf(l, f, b, r), RenderMembers(Trim(b.more));
    assert s.right[0] == t[0];
    assert LeftKept(s) == s.left;
    hide FrontText, SiteOk;
    Assoc(l + "{", FrontText(f), t);
    Assoc(t, "}", r);
    Assoc(l + "{" + FrontText(f), t, "}" + r);
    Assoc(l + "{" + (FrontText(f) + t), "}", r);
  }

  lemma CutLast(l: string, f: Members, b: Members, r: string)
    requires b.Member? && SiteOk(SiteOf(l, f, b, r)) && b.more.NoMember?
    ensures var s := SiteOf(l, f, b, r);
            LeftKept(s) == l + "{" + RenderMembers(f)
                && LeftKept(s) + s.right == ObjectText(l, Join(f, Trim(b.more)), r)
  {
    JoinNothing(f);
    var s := SiteOf(l, f, b, r);
    assert s.right == "}" + r;
    hide RenderMembers;
    Assoc(l + "{" + RenderMembers(f), "}", r);
    if f.Member? {
      Assoc(l + "{", RenderMembers(f), ",");
      assert s.left == l + "{" + RenderMembers(f) + ",";
    } else {
      assert s.left == l + "{";
    }
  }

  lemma {:induction false} NotOpened(ms: Members)
    requires ms.Member? && MembersOk(ms) && Layout(ms)
    ensures RenderMembers(ms) != "" && RenderMembers(ms)[|RenderMembers(ms)| - 1] != '{'
    decreases ms
  {
    var r := RenderMembers(ms);
    if ms.more.Member? {
      NotOpened(ms.more);
      assert r[|r| - 1] == RenderMembers(ms.more)[|RenderMembers(ms.more)| - 1];
    } else {
      ValueStarts(ms.value);
      ValueEnds(ms.value);
      if ms.post != "" { assert r[|r| - 1] == ms.post[|ms.post| - 1]; } else {
        assert r[|r| - 1] == Render(ms.value)[|Render(ms.value)| - 1];
      }
    }
  }

  lemma ValueEnds(v: Value)
    requires ValueOk(v) && Render(v) != "" && !Gaping(v)
    ensures Render(v)[|Render(v)| - 1] != '{'
  {
  }

  /** What is inserted for a new member. */
  function NewText(key: string, v: Value): string { "\"" + key + "\":" + Render(v) }

  lemma OneText(key: string, v: Value)
    ensures RenderMembers(One(key, v)) == NewText(key, v)
  {
  }

  lemma FirstText(m: Members, key: string, v: Value)
    requires m.Member?
    ensures RenderMembers(First(m, key, v)) == NewText(key, v) + ("," + RenderMembers(m)) && First(m, key, v).Member?
  {
  }

  /** The text `t` with the member inserted at `pos` is `u`. */
  predicate Inserts(t: string, pos: nat, key: string, v: Value, u: string) {
    0 < pos < |t| && Inserted(t, pos, NewText(key, v)) == u
  }

  /** Inserting before a member. */
  lemma InsertBefore(l: string, f: Members, m: Members, r: string, key: string, v: Value, pos: nat)
    requires m.Member? && Before(m.pre) && pos == |l| + 1 + |FrontText(f)|
    ensures Inserts(ObjectText(l, Join(f, m), r), pos, key, v, ObjectText(l, Join(f, First(m, key, v)), r))
  {
    hide *;
    MemberStarts(m);
    FirstText(m, key, v);
    JoinText(f, m);
    JoinText(f, First(m, key, v));
    ObjectIs(l, Join(f, m), r);
    ObjectIs(l, Join(f, First(m, key, v)), r);
    InMiddle(l, FrontText(f), NewText(key, v), RenderMembers(m), r);
    InsertsAre(ObjectText(l, Join(f, m), r), pos, key, v, ObjectText(l, Join(f, First(m, key, v)), r));
  }

  lemma ObjectIs(l: string, ms: Members, r: string)
    ensures ObjectText(l, ms, r) == l + "{" + RenderMembers(ms) + "}" + r
  {
  }

  lemma InsertsAre(t: string, pos: nat, key: string, v: Value, u: string)
    requires 0 < pos < |t| && Inserted(t, pos, NewText(key, v)) == u
    ensures Inserts(t, pos, key, v, u)
  {
  }

  lemma MemberStarts(m: Members)
    requires m.Member? && Before(m.pre)
    ensures RenderMembers(m) != "" && RenderMembers(m)[0] != '}'
  {
    PreText(m);
    assert RenderMembers(m)[0] == if m.pre != "" then m.pre[0] else '"';
  }

  lemma InMiddle(l: string, f: string, x: string, y: string, r: string)
    requires y != "" && y[0] != '}'
    ensures var t, pos := l + "{" + (f + y) + "}" + r, |l| + 1 + |f|;
            0 < pos < |t| && Inserted(t, pos, x) == l + "{" + (f + (x + ("," + y))) + "}" + r
  {
    var left := l + "{" + f;
    var t, pos := l + "{" + (f + y) + "}" + r, |l| + 1 + |f|;
    Assoc(l + "{", f, y);
    Assoc(left, y, "}");
    Assoc(left, y + "}", r);
    assert t == left + (y + "}" + r);
    assert t[pos] == y[0] && t[..pos] == left && t[pos..] == y + "}" + r;
    SplicedBefore(l, f, x, y, r);
  }

  lemma SplicedBefore(l: string, f: string, x: string, y: string, r: string)
    ensures (l + "{" + f) + x + "," + (y + "}" + r) == l + "{" + (f + (x + ("," + y))) + "}" + r
  {
    var left := l + "{";
    Assoc(left, f, x);
    Assoc(left, f + x, ",");
    Assoc(f, x, ",");
    Assoc(x, ",", y);
    Assoc(f, x + ",", y);
    Assoc(left, f + (x + ","), y);
    Assoc(left + (f + (x + ",")), y, "}");
    Assoc(left + (f + (x + ",")), y + "}", r);
  }

  /** Inserting at the end of an object. */
  lemma InsertLast(l: string, f: Members, r: string, key: string, v: Value, pos: nat)
    requires MembersOk(f) && Layout(f) && pos == |l| + 1 + |RenderMembers(f)|
    ensures Inserts(ObjectText(l, f, r), pos, key, v, ObjectText(l, Append(f, key, v), r))
  {
    hide *;
    if f.Member? { NotOpened(f); } else { NothingText(f); }
    AppendText(f, key, v);
    ObjectIs(l, f, r);
    ObjectIs(l, Append(f, key, v), r);
    AtEnd(l, RenderMembers(f), NewText(key, v), r);
    InsertsAre(ObjectText(l, f, r), pos, key, v, ObjectText(l, Append(f, key, v), r));
  }

  lemma NothingText(f: Members)
    requires f.NoMember?
    ensures RenderMembers(f) == ""
  {
  }

  lemma AppendText(f: Members, key: string, v: Value)
    ensures RenderMembers(Append(f, key, v)) ==
            if RenderMembers(f) == "" then NewText(key, v) else RenderMembers(f) + "," + NewText(key, v)
  {
    JoinText(f, One(key, v));
    OneText(key, v);
    if f.Member? { PreText(f); }
  }

  lemma AtEnd(l: string, f: string, x: string, r: string)
    requires f != "" ==> f[|f| - 1] != '{'
    ensures var t, pos := l + "{" + f + "}" + r, |l| + 1 + |f|;
            0 < pos < |t| && Inserted(t, pos, x) == l + "{" + (if f == "" then x else f + "," + x) + "}" + r
  {
    var left := l + "{" + f;
    var t := left + "}" + r;
    Assoc(left, "}", r);
    assert t[|left|] == '}' && t[..|left|] == left && t[|left|..] == "}" + r && t[|left| - 1] == left[|left| - 1];
    if f == "" {
      assert left == l + "{";
      Assoc(l + "{" + x, "}", r);
    } else {
      assert left[|left| - 1] == f[|f| - 1];
      SplicedAfter(l, f, x, r);
    }
  }

  lemma SplicedAfter(l: string, f: string, x: string, r: string)
    ensures (l + "{" + f) + "," + x + ("}" + r) == l + "{" + (f + "," + x) + "}" + r
  {
    var left := l + "{";
    Assoc(left, f, ",");
    Assoc(left, f + ",", x);
    Assoc(left + (f + "," + x), "}", r);
  }
}
