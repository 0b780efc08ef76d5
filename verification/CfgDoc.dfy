/**
 Documents: an outer object with members, some of which are objects themselves. Ties the
 token found by a lookup to the place in the text where the member stands.
 */
module CfgDoc {
  import opened Optional
  import opened Json
  import opened CfgWalk
  import opened CfgLookup
  import opened CfgEdit
  import opened Jsmn
  import opened CfgTree

  // ---- tokens seen as items ----------------------------------------------------------

  lemma AtText(js: string, p: nat, s: string)
    requires At(js, p, s)
    ensures js[p..p + |s|] == s
  {
  }

  lemma ItemsAppend(js: string, a: seq<Token>, b: seq<Token>)
    ensures Items(js, a + b) == Items(js, a) + Items(js, b)
  {
  }

  lemma MemberAt(js: string, pos: nat, ms: Members)
    requires ms.Member? && At(js, pos, RenderMembers(ms))
    ensures At(js, pos + |ms.pre| + 1, ms.key) && At(js, ValuePos(ms, pos), Render(ms.value))
    ensures ms.more.Member? ==> At(js, MorePos(ms, pos), RenderMembers(ms.more))
  {
    MemberParts(ms);
    assert Head(ms) == ms.pre + "\"" + ms.key + "\":" + ms.mid;
    assert ms.more.Member? ==> Tail(ms) == "," + RenderMembers(ms.more);
    var v := ValuePos(ms, pos);
    var e := v + |Render(ms.value)|;
    hide Render, RenderMembers, Head, Tail, At;
    AtParts(js, pos, Head(ms), Render(ms.value), ms.post, Tail(ms), v, e, e + |ms.post|);
    KeyAt(js, pos, ms.pre, ms.key, ms.mid);
    if ms.more.Member? { AtSplit(js, e + |ms.post|, ",", RenderMembers(ms.more)); }
  }

  lemma KeyAt(js: string, pos: nat, pre: string, key: string, mid: string)
    requires At(js, pos, pre + "\"" + key + "\":" + mid)
    ensures At(js, pos + |pre| + 1, key)
  {
    AtSplit(js, pos, pre + "\"" + key + "\":", mid);
    AtSplit(js, pos, pre + "\"" + key, "\":");
    AtSplit(js, pos, pre + "\"", key);
  }

  lemma ItemsOfScalar(js: string, v: Value, pos: nat)
    requires At(js, pos, Render(v)) && IsScalar(v)
    ensures Items(js, Tokens(v, pos)) == Flatten(v)
  {
    if v.Str? {
      AtSplit(js, pos, "\"" + v.text, "\"");
      AtSplit(js, pos, "\"", v.text);
      AtText(js, pos + 1, v.text);
    } else {
      AtText(js, pos, v.text);
    }
  }

  lemma {:induction false} ItemsOfValue(js: string, v: Value, pos: nat)
    requires At(js, pos, Render(v))
    ensures Items(js, Tokens(v, pos)) == Flatten(v)
    decreases v, 1
  {
    if IsScalar(v) {
      ItemsOfScalar(js, v, pos);
    } else {
      ContainerText(js, v, pos);
      AtText(js, pos, Render(v));
      ContainerItems(js, v, pos);
      InnerItems(js, v, pos);
    }
  }

  /** The items of the elements. */
  function InnerFlat(v: Value): seq<Item> {
    match v case Arr(es) => FlattenElems(es) case Obj(ms) => FlattenMembers(ms) case _ => []
  }

  lemma ContainerItems(js: string, v: Value, pos: nat)
    requires !IsScalar(v) && pos + |Render(v)| <= |js| && js[pos..pos + |Render(v)|] == Render(v)
    ensures Items(js, Inner(v, pos)) == InnerFlat(v) ==> Items(js, Tokens(v, pos)) == Flatten(v)
  {
    var t := Tokens(v, pos)[0];
    assert Tokens(v, pos) == [t] + Inner(v, pos);
    FirstItem(js, v, pos);
    hide Tokens, Inner, InnerFlat, Flatten, Render;
    ItemsAppend(js, [t], Inner(v, pos));
  }

  lemma FirstItem(js: string, v: Value, pos: nat)
    requires !IsScalar(v) && pos + |Render(v)| <= |js| && js[pos..pos + |Render(v)|] == Render(v)
    ensures Flatten(v) == Items(js, [Tokens(v, pos)[0]]) + InnerFlat(v)
  {
    var size := if v.Arr? then CountElems(v.elems) else CountMembers(v.members);
    var t, it := Tokens(v, pos)[0], Item(if v.Arr? then Array else Object, size, Render(v));
    assert ItemOf(js, t) == it;
    assert Items(js, [t]) == [it];
    assert Flatten(v) == [it] + InnerFlat(v);
  }

  lemma {:induction false} InnerItems(js: string, v: Value, pos: nat)
    requires !IsScalar(v) && At(js, pos + 1, Body(v))
    ensures Items(js, Inner(v, pos)) == InnerFlat(v)
    decreases v, 0
  {
    match v
    case Arr(es) => ItemsOfElems(js, es, pos + 1);
    case Obj(ms) => ItemsOfMembers(js, ms, pos + 1);
  }

  lemma ElemAt(js: string, pos: nat, es: Elems)
    requires es.Elem? && At(js, pos, RenderElems(es))
    ensures At(js, pos + |es.pre|, Render(es.value))
    ensures es.more.Elem? ==> At(js, pos + |es.pre| + |Render(es.value)| + |es.post| + 1, RenderElems(es.more))
  {
    ElemParts(es);
    assert es.more.Elem? ==> MoreElems(es) == "," + RenderElems(es.more);
    var v := pos + |es.pre|;
    var e := v + |Render(es.value)|;
    hide Render, RenderElems, MoreElems, At;
    AtParts(js, pos, es.pre, Render(es.value), es.post, MoreElems(es), v, e, e + |es.post|);
    if es.more.Elem? { AtSplit(js, e + |es.post|, ",", RenderElems(es.more)); }
  }

  lemma {:induction false} ItemsOfElems(js: string, es: Elems, pos: nat)
    requires At(js, pos, RenderElems(es))
    ensures Items(js, ElemTokens(es, pos)) == FlattenElems(es)
    decreases es
  {
    if es.Elem? {
      ElemAt(js, pos, es);
      var p := pos + |es.pre| + |Render(es.value)| + |es.post| + 1;
      ItemsAppend(js, Tokens(es.value, pos + |es.pre|), ElemTokens(es.more, p));
      ItemsOfValue(js, es.value, pos + |es.pre|);
      hide At, Render, RenderElems, Items, Tokens, Flatten;
      if es.more.Elem? { ItemsOfElems(js, es.more, p); } else { assert Items(js, []) == []; }
    }
  }

  lemma {:induction false} ItemsOfMembers(js: string, ms: Members, pos: nat)
    requires At(js, pos, RenderMembers(ms))
    ensures Items(js, MemberTokens(ms, pos)) == FlattenMembers(ms)
    decreases ms
  {
    if ms.Member? {
      MemberAt(js, pos, ms);
      AtText(js, pos + |ms.pre| + 1, ms.key);
      assert Items(js, [KeyToken(ms, pos)]) == [Item(String, 1, ms.key)];
      ItemsOfValue(js, ms.value, ValuePos(ms, pos));
      if ms.more.Member? { ItemsOfMembers(js, ms.more, MorePos(ms, pos)); }
      var a, b, c := [KeyToken(ms, pos)], Tokens(ms.value, ValuePos(ms, pos)), MemberTokens(ms.more, MorePos(ms, pos));
      ItemsAppend(js, a + b, c);
      ItemsAppend(js, a, b);
    }
  }

  lemma {:induction false} TokenCount(v: Value, pos: nat)
    ensures |Tokens(v, pos)| == |Flatten(v)|
    decreases v
  {
    match v
    case Prim(_) =>
    case Str(_) =>
    case Arr(es) => ElemTokenCount(es, pos + 1);
    case Obj(ms) => MemberTokenCount(ms, pos + 1);
  }

  lemma {:induction false} ElemTokenCount(es: Elems, pos: nat)
    ensures |ElemTokens(es, pos)| == |FlattenElems(es)|
    decreases es
  {
    if es.Elem? {
      TokenCount(es.value, pos + |es.pre|);
      ElemTokenCount(es.more, pos + |es.pre| + |Render(es.value)| + |es.post| + 1);
    }
  }

  lemma {:induction false} MemberTokenCount(ms: Members, pos: nat)
    ensures |MemberTokens(ms, pos)| == |FlattenMembers(ms)|
    decreases ms
  {
    if ms.Member? {
      TokenCount(ms.value, ValuePos(ms, pos));
      MemberTokenCount(ms.more, MorePos(ms, pos));
    }
  }

  // ---- the place of a member ---------------------------------------------------------

  /** `jt` is the value token, and `jt - 1` the key token, of the first of the members `b`,
      which stands at `p`. */
  predicate Marks(ts: seq<Token>, jt: int, b: Members, p: nat) {
    b.Member? && 0 < jt < |ts| && ts[jt - 1] == KeyToken(b, p) && ts[jt] == Tokens(b.value, ValuePos(b, p))[0]
  }

  lemma MarksShift(a: seq<Token>, ts: seq<Token>, c: seq<Token>, jt: int, b: Members, p: nat)
    requires Marks(ts, jt, b, p)
    ensures Marks(a + ts + c, |a| + jt, b, p)
  {
  }

  /** From the members after the first to all of them. */
  lemma MarksMore(ms: Members, pos: nat, jt: int, b: Members, q: nat)
    requires ms.Member? && Marks(MemberTokens(ms.more, MorePos(ms, pos)), jt, b, q)
    ensures Marks(MemberTokens(ms, pos), 1 + |Flatten(ms.value)| + jt, b, q)
  {
    var a := [KeyToken(ms, pos)] + Tokens(ms.value, ValuePos(ms, pos));
    TokenCount(ms.value, ValuePos(ms, pos));
    var m := MemberTokens(ms.more, MorePos(ms, pos));
    assert a + m == MemberTokens(ms, pos);
    hide Marks, Tokens, MemberTokens, Flatten;
    MarksShift(a, m, [], jt, b, q);
    assert a + m + [] == a + m;
  }

  lemma MarksHere(ms: Members, pos: nat)
    requires ms.Member?
    ensures Marks(MemberTokens(ms, pos), 1, ms, pos)
  {
  }

  lemma MarksFirst(ms: Members, key: string, pos: nat)
    requires ms.Member? && ms.key == key
    ensures Index(ms, key).Some?
            && Marks(MemberTokens(ms, pos), Index(ms, key).value, From(ms, key), pos + |FrontText(Ahead(ms, key))|)
  {
    hide Marks, MemberTokens;
    MarksHere(ms, pos);
  }

  lemma MarksInner(ms: Members, pos: nat, jt: int, b: Members, q: nat)
    requires ms.Member? && ms.value.Obj? && Marks(MemberTokens(ms.value.members, ValuePos(ms, pos) + 1), jt, b, q)
    ensures Marks(MemberTokens(ms, pos), 2 + jt, b, q)
  {
    var v := ValuePos(ms, pos);
    var t, m, c := Tokens(ms.value, v)[0], MemberTokens(ms.value.members, v + 1),
        MemberTokens(ms.more, MorePos(ms, pos));
    assert Tokens(ms.value, v) == [t] + m;
    assert MemberTokens(ms, pos) == [KeyToken(ms, pos)] + ([t] + m) + c;
    hide Marks, Tokens, MemberTokens;
    MarksShift([KeyToken(ms, pos)] + [t], m, c, jt, b, q);
    Regroup([KeyToken(ms, pos)], [t], m, c);
  }

  lemma Regroup<T>(a: seq<T>, b: seq<T>, m: seq<T>, c: seq<T>)
    ensures a + (b + m) + c == a + b + m + c
  {
  }

  lemma FrontMore(ms: Members, key: string, pos: nat)
    requires ms.Member? && ms.key != key
    ensures MorePos(ms, pos) + |FrontText(Ahead(ms.more, key))| == pos + |FrontText(Ahead(ms, key))|
  {
    FrontLength(Ahead(ms, key));
  }

  lemma IndexMarksMore(ms: Members, key: string, pos: nat, i: nat, b: Members, q: nat)
    requires ms.Member? && ms.key != key && Index(ms.more, key) == Some(i) && b == From(ms.more, key)
    requires Marks(MemberTokens(ms.more, MorePos(ms, pos)), i, b, q)
    ensures From(ms, key) == b && Index(ms, key).Some? && Marks(MemberTokens(ms, pos), Index(ms, key).value, b, q)
  {
    assert Index(ms, key) == Shift(Index(ms.more, key), 1 + |Flatten(ms.value)|);
    hide Marks, MemberTokens, Flatten, Index;
    MarksMore(ms, pos, i, b, q);
  }

  lemma {:induction false} IndexMarks(ms: Members, key: string, pos: nat)
    requires HasKey(ms, key)
    ensures Index(ms, key).Some?
            && Marks(MemberTokens(ms, pos), Index(ms, key).value, From(ms, key), pos + |FrontText(Ahead(ms, key))|)
    decreases ms
  {
    hide Marks, MemberTokens, FrontText, Flatten, Ahead, Index, From;
    if ms.key == key {
      MarksFirst(ms, key, pos);
    } else {
      FrontMore(ms, key, pos);
      IndexMarks(ms.more, key, MorePos(ms, pos));
      IndexMarksMore(ms, key, pos, Index(ms.more, key).value, From(ms.more, key),
          MorePos(ms, pos) + |FrontText(Ahead(ms.more, key))|);
    }
  }

  /** Where the members of the object called `id1` begin. */
  function InnerPos(ms: Members, id1: string, pos: nat): nat
    requires HasKey(ms, id1)
  {
    ValuePos(From(ms, id1), pos + |FrontText(Ahead(ms, id1))|) + 1
  }

  lemma ScopedMarksHere(ms: Members, id1: string, id2: string, pos: nat)
    requires ms.Member? && ms.key == id1 && ms.value.Obj? && HasKey(ms.value.members, id2)
    ensures var i, inner := ScopedIndex(ms, id1, id2, false), ms.value.members;
            i.Some? && Marks(MemberTokens(ms, pos), i.value, From(inner, id2),
                InnerPos(ms, id1, pos) + |FrontText(Ahead(inner, id2))|)
  {
    var inner := ms.value.members;
    hide Marks, MemberTokens;
    IndexMarks(inner, id2, ValuePos(ms, pos) + 1);
    MarksInner(ms, pos, Index(inner, id2).value, From(inner, id2),
        ValuePos(ms, pos) + 1 + |FrontText(Ahead(inner, id2))|);
  }

  lemma ScopedMarksMore(ms: Members, id1: string, id2: string, pos: nat, i: nat, b: Members, q: nat)
    requires ms.Member? && ms.key != id1 && ScopedIndex(ms.more, id1, id2, false) == Some(i)
    requires Marks(MemberTokens(ms.more, MorePos(ms, pos)), i, b, q)
    ensures ScopedIndex(ms, id1, id2, false).Some?
            && Marks(MemberTokens(ms, pos), ScopedIndex(ms, id1, id2, false).value, b, q)
  {
    assert ScopedIndex(ms, id1, id2, false) == Shift(ScopedIndex(ms.more, id1, id2, false), 1 + |Flatten(ms.value)|);
    hide Marks, MemberTokens, Flatten, Index, ScopedIndex;
    MarksMore(ms, pos, i, b, q);
  }

  lemma {:induction false} ScopedMarks(ms: Members, id1: string, id2: string, pos: nat)
    requires HasKey(ms, id1) && From(ms, id1).value.Obj? && HasKey(From(ms, id1).value.members, id2)
    ensures var i, inner := ScopedIndex(ms, id1, id2, false), From(ms, id1).value.members;
            i.Some? && Marks(MemberTokens(ms, pos), i.value, From(inner, id2),
                InnerPos(ms, id1, pos) + |FrontText(Ahead(inner, id2))|)
    decreases ms
  {
    if ms.key == id1 {
      ScopedMarksHere(ms, id1, id2, pos);
    } else {
      hide Marks, MemberTokens, FrontText, Flatten, Index, ScopedIndex, Ahead;
      ScopedMarks(ms.more, id1, id2, MorePos(ms, pos));
      FrontMore(ms, id1, pos);
      var inner := From(ms, id1).value.members;
      ScopedMarksMore(ms, id1, id2, pos, ScopedIndex(ms.more, id1, id2, false).value, From(inner, id2),
                      InnerPos(ms.more, id1, MorePos(ms, pos)) + |FrontText(Ahead(inner, id2))|);
    }
  }

  // ---- lookups -----------------------------------------------------------------------

  lemma LookupWhole(ms: Members, id: string)
    ensures HasKey(ms, id) <==> Index(ms, id).Some?
    ensures LookupIn(Obj(ms), Whole(id), false) == if HasKey(ms, id) then Found(1 + Index(ms, id).value) else Missing
  {
    IndexIsValue(ms, id);
    FindHas(ms, id);
  }

  /** The first part of a two-part name is not repeated. */
  predicate Clear(ms: Members, n: Name) { n.Two? ==> Once(ms, n.id1) }

  /** Nor is a name of one part. */
  predicate Single(ms: Members, n: Name) { n.Whole? ==> Once(ms, n.id) }

  /** A name of two parts may be used if the first part is missing or an object. */
  predicate Usable(ms: Members, n: Name) {
    n.Two? && HasKey(ms, n.id1) ==> From(ms, n.id1).value.Obj?
  }

  lemma {:induction false} FindFrom(ms: Members, id: string)
    ensures Find(ms, id) == if HasKey(ms, id) then Some(From(ms, id).value) else None
  {
    if ms.Member? && ms.key != id { FindFrom(ms.more, id); }
  }

  lemma {:induction false} UsableDoesNotStray(ms: Members, id1: string, id2: string)
    requires Usable(ms, Two(id1, id2))
    ensures !Strays(ms, id1, id2)
  {
    if ms.Member? && ms.key != id1 { UsableDoesNotStray(ms.more, id1, id2); }
  }

  lemma LookupTwo(ms: Members, id1: string, id2: string)
    requires Once(ms, id1) && Usable(ms, Two(id1, id2))
    ensures HasKey(ms, id1) && HasKey(From(ms, id1).value.members, id2) ==> ScopedIndex(ms, id1, id2, false).Some?
    ensures LookupIn(Obj(ms), Two(id1, id2), false) ==
            if !HasKey(ms, id1) then Missing
            else if !HasKey(From(ms, id1).value.members, id2) then OnlyId1
            else Found(1 + ScopedIndex(ms, id1, id2, false).value)
  {
    UsableDoesNotStray(ms, id1, id2);
    ScopedIsFind2(ms, id1, id2);
    ScopedIsValue(ms, id1, id2, false);
    IndexIsValue(ms, id1);
    FindFrom(ms, id1);
    if HasKey(ms, id1) { FindHas(From(ms, id1).value.members, id2); }
  }

  // ---- editing documents -------------------------------------------------------------

  /** The inner object `id1` with other members. */
  function WithInner(ms: Members, id1: string, inner: Members): Members
    requires HasKey(ms, id1)
  {
    var b := From(ms, id1);
    Join(Ahead(ms, id1), b.(value := Obj(inner)))
  }

  /** What is around the inner object in the text. */
  function InnerLeft(ms: Members, id1: string): string
    requires HasKey(ms, id1)
  {
    "{" + FrontText(Ahead(ms, id1)) + Head(From(ms, id1))
  }

  function InnerRight(ms: Members, id1: string): string
    requires HasKey(ms, id1)
  {
    From(ms, id1).post + Tail(From(ms, id1)) + "}"
  }

  lemma InnerText(ms: Members, id1: string, inner: Members)
    requires HasKey(ms, id1)
    ensures Render(Obj(WithInner(ms, id1, inner))) == ObjectText(InnerLeft(ms, id1), inner, InnerRight(ms, id1))
  {
    var f, b := Ahead(ms, id1), From(ms, id1);
    b := b.(value := Obj(inner));
    JoinText(f, b);
    assert RenderMembers(b) == Head(b) + Render(b.value) + b.post + Tail(b);
    assert Render(b.value) == "{" + RenderMembers(inner) + "}";
    assert Head(b) == Head(From(ms, id1)) && Tail(b) == Tail(From(ms, id1));
    hide Render, RenderMembers, Head, Tail, FrontText, Join;
    Nested("{", FrontText(f), Head(b), "{", RenderMembers(inner), "}", b.post, Tail(b));
    assert Render(Obj(Join(f, b))) == "{" + RenderMembers(Join(f, b)) + "}" by { RenderObj(Join(f, b)); }
  }

  lemma RenderObj(ms: Members)
    ensures Render(Obj(ms)) == "{" + RenderMembers(ms) + "}" == ObjectText("", ms, "")
  {
  }

  lemma Nested(o: string, f: string, h: string, p: string, x: string, q: string, post: string, t: string)
    ensures o + (f + (h + (p + x + q) + post + t)) + q == (o + f + h) + p + x + q + (post + t + q)
  {
    var v := p + x + q;
    Assoc(h + v, post, t);
    Assoc(h, v, post + t);
    Assoc(f, h, v + (post + t));
    Assoc(o, f, h + (v + (post + t)));
    Assoc(o + f, h, v + (post + t));
    Assoc(o + f + h, v, post + t);
    Assoc(o + f + h + v, post + t, q);
    Assoc(o + f + h, p, x);
    Assoc(o + f + h, p + x, q);
  }

  lemma InnerStart(ms: Members, id1: string)
    requires HasKey(ms, id1)
    ensures |InnerLeft(ms, id1)| + 1 == InnerPos(ms, id1, 1)
  {
  }

  // ---- what edits keep ---------------------------------------------------------------

  predicate NewOk(v: Value) { ValueOk(v) && !Gaping(v) && (v.Obj? ==> Layout(v.members) && Unique(v.members)) }

  predicate InnerGood(ms: Members) {
    ms.Member? ==> (ms.value.Obj? ==> Layout(ms.value.members) && Unique(ms.value.members)) && InnerGood(ms.more)
  }

  /** Members that can be tokenized and edited, at both levels. */
  predicate Good(ms: Members) { MembersOk(ms) && Layout(ms) && InnerGood(ms) }

  lemma {:induction false} GoodJoin(f: Members, b: Members)
    ensures Good(Join(f, b)) <==> Good(f) && Good(b)
    ensures MemberNesting(Join(f, b)) == Max(MemberNesting(f), MemberNesting(b))
  {
    JoinLayout(f, b);
    if f.Member? { GoodJoin(f.more, b); }
  }

  lemma {:induction false} DropGapOk(s: string)
    ensures Before(s) ==> Before(DropGap(s)) && Blank(DropGap(s))
  {
    if s != "" && IsGap(s[0]) { DropGapOk(s[1..]); }
  }

  lemma GoodTrim(m: Members)
    requires Good(m)
    ensures Good(Trim(m)) && MemberNesting(Trim(m)) == MemberNesting(m)
  {
    if m.Member? { DropGapOk(m.pre); }
  }

  lemma GoodFirst(m: Members, key: string, v: Value)
    requires Good(m) && StringOk(key) && NewOk(v)
    ensures Good(First(m, key, v)) && MemberNesting(First(m, key, v)) == Max(Nesting(v), MemberNesting(m))
  {
  }

  lemma GoodParts(ms: Members, key: string)
    requires Good(ms)
    ensures Good(Ahead(ms, key)) && Good(From(ms, key)) && Good(More(From(ms, key)))
    ensures MemberNesting(ms) == Max(MemberNesting(Ahead(ms, key)), MemberNesting(From(ms, key)))
  {
    Parts(ms, key);
    GoodJoin(Ahead(ms, key), From(ms, key));
  }

  lemma GoodRemove(ms: Members, key: string)
    requires Good(ms)
    ensures Good(Remove(ms, key)) && MemberNesting(Remove(ms, key)) <= MemberNesting(ms)
  {
    GoodParts(ms, key);
    var m := More(From(ms, key));
    GoodTrim(m);
    GoodJoin(Ahead(ms, key), Trim(m));
  }

  /** A new member between two parts. */
  lemma GoodInsert(f: Members, m: Members, key: string, v: Value)
    requires Good(f) && Good(m) && StringOk(key) && NewOk(v)
    ensures Good(Join(f, First(m, key, v)))
    ensures MemberNesting(Join(f, First(m, key, v))) == Max(Nesting(v), MemberNesting(Join(f, m)))
  {
    GoodFirst(m, key, v);
    GoodJoin(f, First(m, key, v));
    GoodJoin(f, m);
  }

  lemma GoodInner(ms: Members, id1: string, inner: Members)
    requires Good(ms) && HasKey(ms, id1) && MembersOk(inner) && Layout(inner) && Unique(inner)
    ensures Good(WithInner(ms, id1, inner))
    ensures MemberNesting(WithInner(ms, id1, inner)) <= Max(MemberNesting(ms), 1 + MemberNesting(inner))
  {
    GoodParts(ms, id1);
    var b := From(ms, id1);
    GoodJoin(Ahead(ms, id1), b.(value := Obj(inner)));
  }

  /** Uniqueness of keys survives removal and replacement; a new key must be new. */
  lemma UniqueEdits(ms: Members, key: string, v: Value)
    requires Unique(ms)
    ensures Unique(Remove(ms, key)) && !HasKey(Remove(ms, key), key)
    ensures HasKey(ms, key) ==> Unique(Replace(ms, key, v))
    ensures Unique(Append(ms, key, v)) <==> !HasKey(ms, key)
    ensures Unique(First(ms, key, v)) <==> !HasKey(ms, key)
  {
    Parts(ms, key);
    var f, b := Ahead(ms, key), From(ms, key);
    UniqueJoin(f, b);
    UniqueIsOnce(ms, key);
    RemoveFind(ms, key, key);
    UniqueJoin(ms, One(key, v));
    UniqueMore(f, b, key, v);
  }

  lemma UniqueMore(f: Members, b: Members, key: string, v: Value)
    requires Unique(f) && Unique(b) && (forall k :: HasKey(f, k) ==> !HasKey(b, k)) && !HasKey(f, key)
    requires b.Member? ==> b.key == key
    ensures Unique(Join(f, Trim(More(b))))
    ensures b.Member? ==> Unique(Join(f, First(Trim(More(b)), key, v)))
  {
    var m := Trim(More(b));
    forall k ensures HasKey(m, k) ==> HasKey(b, k) { TrimFind(More(b), k); }
    if b.Member? { TrimFind(b.more, key); }
    UniqueJoin(f, m);
    UniqueJoin(f, First(m, key, v));
  }

  /** Changing an inner object repeats no key. */
  lemma {:induction false} OnceInner(ms: Members, id1: string, inner: Members, key: string)
    requires HasKey(ms, id1)
    ensures Once(WithInner(ms, id1, inner), key) <==> Once(ms, key)
    ensures HasKey(WithInner(ms, id1, inner), key) <==> HasKey(ms, key)
  {
    if ms.key != id1 {
      OnceInner(ms.more, id1, inner, key);
      assert WithInner(ms, id1, inner) == ms.(more := WithInner(ms.more, id1, inner));
    }
  }

  lemma UniqueInner(ms: Members, id1: string, inner: Members)
    requires Unique(ms) && HasKey(ms, id1)
    ensures Unique(WithInner(ms, id1, inner))
  {
    Parts(ms, id1);
    var f, b := Ahead(ms, id1), From(ms, id1);
    UniqueJoin(f, b);
    UniqueJoin(f, b.(value := Obj(inner)));
  }
}
