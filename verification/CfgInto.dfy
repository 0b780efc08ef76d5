/**
 Setting `id1.id2` when `id1` is there but not an object. If the search strays into the next
 object, a member of that one is set. Otherwise the new member is written one character into
 the value of `id1`; what the text is then.
 */
module CfgInto {
  import opened Optional
  import opened Json
  import opened CfgWalk
  import opened CfgLookup
  import opened CfgEdit
  import opened Jsmn
  import opened CfgTree
  import opened CfgDoc

  // ---- a text is the text of one value only --------------------------------------------

  lemma SameText(js: string, p: nat, a: string, b: string)
    requires At(js, p, a) && At(js, p, b) && |a| == |b|
    ensures a == b
  {
    forall i | 0 <= i < |a| ensures a[i] == b[i] { assert js[p + i] == a[i]; }
  }

  lemma SameBlank(js: string, p: nat, a: string, b: string)
    requires At(js, p, a) && At(js, p, b) && Blank(a) && Blank(b)
    requires p + |a| < |js| && !IsSpace(js[p + |a|]) && p + |b| < |js| && !IsSpace(js[p + |b|])
    ensures a == b
  {
    BlankAt(js, p, a);
    BlankAt(js, p, b);
    SameText(js, p, a, b);
  }

  lemma BlankAt(js: string, p: nat, s: string)
    requires At(js, p, s) && Blank(s)
    ensures forall i :: p <= i < p + |s| ==> IsSpace(js[i])
  {
    forall i | p <= i < p + |s| ensures IsSpace(js[i]) { assert js[p + (i - p)] == s[i - p]; }
  }

  lemma ValueHead(js: string, p: nat, v: Value)
    requires ValueOk(v) && At(js, p, Render(v))
    ensures p < |js| && js[p] == Render(v)[0] && !IsSpace(js[p]) && !EndsPrimitive(js[p])
    ensures v.Str? <==> js[p] == '"'
    ensures v.Arr? <==> js[p] == '['
    ensures v.Obj? <==> js[p] == '{'
  {
    ValueStarts(v);
    assert js[p] == Render(v)[0];
  }

  lemma StringText(js: string, p: nat, v: Value)
    requires v.Str? && StringOk(v.text) && At(js, p, Render(v))
    ensures At(js, p + 1, v.text) && StringEnd(js, p + 1) == End(p + 1 + |v.text|)
  {
    AtSplit(js, p, "\"" + v.text, "\"");
    AtSplit(js, p, "\"", v.text);
    assert "\"" + v.text + "\"" == "\"" + (v.text + "\"");
    AtSplit(js, p, "\"", v.text + "\"");
    ScanString(js, p + 1, v.text);
  }

  lemma WordEnd(js: string, p: nat, v: Value)
    requires v.Prim? && PrimitiveOk(v.text) && At(js, p, Render(v)) && EndsAt(js, p + |v.text|)
    ensures PrimitiveEnd(js, p) == End(p + |v.text|)
  {
    var q := p + |v.text|;
    assert forall i :: p <= i < q ==> js[i] == v.text[i - p];
    ScanPrimitive(js, p, q);
  }

  lemma {:induction false} SameScalar(js: string, p: nat, v: Value, w: Value)
    requires At(js, p, Render(v)) && At(js, p, Render(w)) && ValueOk(v) && ValueOk(w) && IsScalar(v)
    requires EndsAt(js, p + |Render(v)|) && EndsAt(js, p + |Render(w)|)
    ensures v == w
  {
    ValueHead(js, p, v);
    ValueHead(js, p, w);
    hide StringEnd, PrimitiveEnd, StringOk, PrimitiveOk, At, EndsAt;
    if v.Str? {
      StringText(js, p, v);
      StringText(js, p, w);
      SameText(js, p + 1, v.text, w.text);
    } else {
      WordEnd(js, p, v);
      WordEnd(js, p, w);
      SameText(js, p, v.text, w.text);
    }
  }

  /** Two values that stand at the same place are the same. */
  lemma {:induction false} SameValue(js: string, p: nat, v: Value, w: Value)
    requires At(js, p, Render(v)) && At(js, p, Render(w)) && ValueOk(v) && ValueOk(w)
    requires EndsAt(js, p + |Render(v)|) && EndsAt(js, p + |Render(w)|)
    ensures v == w
    decreases v, 1
  {
    ValueHead(js, p, v);
    ValueHead(js, p, w);
    hide At, EndsAt, Render;
    if IsScalar(v) {
      SameScalar(js, p, v, w);
    } else {
      SameContainer(js, p, v, w);
    }
  }

  lemma {:induction false} SameContainer(js: string, p: nat, v: Value, w: Value)
    requires At(js, p, Render(v)) && At(js, p, Render(w)) && ValueOk(v) && ValueOk(w)
    requires !IsScalar(v) && !IsScalar(w) && v.Arr? == w.Arr?
    ensures v == w
    decreases v, 0
  {
    ContainerText(js, v, p);
    ContainerText(js, w, p);
    hide At, Render, RenderElems, RenderMembers;
    match v
    case Arr(es) => SameElems(js, p + 1, es, w.elems);
    case Obj(ms) => SameMembers(js, p + 1, ms, w.members);
  }

  /** Elements stand at `p`, and then the array closes. */
  predicate ElemsAt(js: string, p: nat, es: Elems) {
    At(js, p, RenderElems(es)) && ElemsOk(es) && p + |RenderElems(es)| < |js| && js[p + |RenderElems(es)|] == ']'
  }

  /** Where the parts of the first element are. */
  lemma FirstElem(js: string, p: nat, es: Elems)
    requires ElemsAt(js, p, es)
    ensures p < |js| && (es.NoElem? <==> js[p] == ']')
    ensures es.Elem? ==>
              var v := p + |es.pre|;
              var e := v + |Render(es.value)|;
              var m := e + |es.post|;
              && At(js, p, es.pre) && Blank(es.pre) && At(js, v, Render(es.value)) && ValueOk(es.value) && EndsAt(js, e)
              && At(js, e, es.post) && Blank(es.post) && m < |js| && v < |js| && !IsSpace(js[v]) && !IsSpace(js[m])
              && js[m] == (if es.more.Elem? then ',' else ']') && (es.more.Elem? ==> ElemsAt(js, m + 1, es.more))
  {
    if es.Elem? {
      var v := p + |es.pre|;
      var m := v + |Render(es.value)| + |es.post|;
      ElemText(js, p, es);
      ValueHead(js, v, es.value);
      if es.pre != "" { assert js[p] == es.pre[0]; }
      if es.more.Elem? {
        AtSplit(js, m, ",", RenderElems(es.more));
        assert js[m] == ","[0];
      }
    }
  }

  lemma {:induction false} SameElems(js: string, p: nat, es: Elems, fs: Elems)
    requires ElemsAt(js, p, es) && ElemsAt(js, p, fs)
    ensures es == fs
    decreases es
  {
    FirstElem(js, p, es);
    FirstElem(js, p, fs);
    hide ElemsAt, At, Render, Blank, EndsAt, ValueOk;
    if es.Elem? {
      SameBlank(js, p, es.pre, fs.pre);
      var v := p + |es.pre|;
      SameValue(js, v, es.value, fs.value);
      SameBlank(js, v + |Render(es.value)|, es.post, fs.post);
      if es.more.Elem? { SameElems(js, v + |Render(es.value)| + |es.post| + 1, es.more, fs.more); }
    }
  }

  /** Members stand at `p`, and then the object closes. */
  predicate MembersAt(js: string, p: nat, ms: Members) {
    && At(js, p, RenderMembers(ms)) && MembersOk(ms)
    && p + |RenderMembers(ms)| < |js| && js[p + |RenderMembers(ms)|] == '}'
  }

  /** A member's own text, without what follows, stands at `p`. */
  predicate OneAt(js: string, p: nat, ms: Members)
    requires ms.Member?
  {
    var v := ValuePos(ms, p);
    var e := v + |Render(ms.value)|;
    && HeadAt(js, p, ms) && At(js, v, Render(ms.value)) && ValueOk(ms.value) && EndsAt(js, e)
    && At(js, e, ms.post) && Blank(ms.post) && e + |ms.post| < |js| && !IsSpace(js[e + |ms.post|])
  }

  predicate HeadAt(js: string, p: nat, ms: Members)
    requires ms.Member?
  {
    At(js, p, Head(ms)) && Blank(ms.pre) && StringOk(ms.key) && Blank(ms.mid)
  }

  lemma FirstMember(js: string, p: nat, ms: Members)
    requires MembersAt(js, p, ms)
    ensures p < |js| && (ms.NoMember? <==> js[p] == '}')
    ensures ms.Member? ==>
              var m := ValuePos(ms, p) + |Render(ms.value)| + |ms.post|;
              && OneAt(js, p, ms) && js[m] == (if ms.more.Member? then ',' else '}')
              && (ms.more.Member? ==> MembersAt(js, m + 1, ms.more))
  {
    if ms.Member? {
      var m := ValuePos(ms, p) + |Render(ms.value)| + |ms.post|;
      MemberText(js, p, ms);
      assert Head(ms)[0] == if ms.pre == "" then '"' else ms.pre[0];
      assert js[p] == Head(ms)[0];
      if ms.more.Member? {
        AtSplit(js, m, ",", RenderMembers(ms.more));
        assert js[m] == ","[0];
      }
    }
  }

  lemma SameHead(js: string, p: nat, ms: Members, ns: Members)
    requires ms.Member? && ns.Member? && HeadAt(js, p, ms) && HeadAt(js, p, ns)
    requires ValuePos(ms, p) < |js| && !IsSpace(js[ValuePos(ms, p)])
    requires ValuePos(ns, p) < |js| && !IsSpace(js[ValuePos(ns, p)])
    ensures ms.pre == ns.pre && ms.key == ns.key && ms.mid == ns.mid
  {
    var a, b := p + |ms.pre|, p + |ns.pre|;
    KeyParts(js, p, ms, a, a + 2 + |ms.key|);
    KeyParts(js, p, ns, b, b + 2 + |ns.key|);
    KeyAt(js, p, ms.pre, ms.key, ms.mid);
    KeyAt(js, p, ns.pre, ns.key, ns.mid);
    hide At, StringEnd, StringOk, Blank;
    SameBlank(js, p, ms.pre, ns.pre);
    SameText(js, a + 1, ms.key, ns.key);
    SameBlank(js, a + 3 + |ms.key|, ms.mid, ns.mid);
  }

  lemma {:induction false} SameOne(js: string, p: nat, ms: Members, ns: Members)
    requires ms.Member? && ns.Member? && OneAt(js, p, ms) && OneAt(js, p, ns)
    ensures ms == ns.(more := ms.more)
    decreases ms, 0
  {
    var v := ValuePos(ms, p);
    ValueHead(js, v, ms.value);
    ValueHead(js, ValuePos(ns, p), ns.value);
    hide At, Render, Blank, EndsAt, ValueOk, HeadAt;
    SameHead(js, p, ms, ns);
    SameValue(js, v, ms.value, ns.value);
    SameBlank(js, v + |Render(ms.value)|, ms.post, ns.post);
  }

  lemma {:induction false} SameMembers(js: string, p: nat, ms: Members, ns: Members)
    requires MembersAt(js, p, ms) && MembersAt(js, p, ns)
    ensures ms == ns
    decreases ms, 1
  {
    FirstMember(js, p, ms);
    FirstMember(js, p, ns);
    hide MembersAt, OneAt, Render;
    if ms.Member? {
      SameOne(js, p, ms, ns);
      if ms.more.Member? { SameMembers(js, ValuePos(ms, p) + |Render(ms.value)| + |ms.post| + 1, ms.more, ns.more); }
    }
  }

  lemma RootAt(ms: Members)
    requires MembersOk(ms)
    ensures MembersAt(Render(Obj(ms)), 1, ms)
  {
    var js := Render(Obj(ms));
    assert js == "{" + RenderMembers(ms) + "}";
  }

  /** A document can be read back from its text in one way only. */
  lemma RenderIsInjective(ms: Members, ns: Members)
    requires MembersOk(ms) && MembersOk(ns) && Render(Obj(ms)) == Render(Obj(ns))
    ensures ms == ns
  {
    RootAt(ms);
    RootAt(ns);
    SameMembers(Render(Obj(ms)), 1, ms, ns);
  }

  // ---- what setting writes -------------------------------------------------------------

  /** Where the value of `id1` begins in the text of the document. */
  function ValueOf(ms: Members, id1: string): nat
    requires HasKey(ms, id1)
  {
    ValuePos(From(ms, id1), 1 + |FrontText(Ahead(ms, id1))|)
  }

  /** One character into the token of the value; a string's token is without its quotes. */
  function IntoPos(ms: Members, id1: string): nat
    requires HasKey(ms, id1)
  {
    ValueOf(ms, id1) + if From(ms, id1).value.Str? then 2 else 1
  }

  lemma FrontAt(js: string, p: nat, f: Members, b: Members)
    requires b.Member? && MembersAt(js, p, Join(f, b))
    ensures At(js, p, FrontText(f)) && MembersAt(js, p + |FrontText(f)|, b) && MembersOk(f)
  {
    JoinText(f, b);
    JoinLayout(f, b);
    AtSplit(js, p, FrontText(f), RenderMembers(b));
  }

  /** The place of the member `id1` in the text. */
  lemma Placed(ms: Members, id1: string)
    requires MembersOk(ms) && HasKey(ms, id1)
    ensures var t, k, b := Render(Obj(ms)), 1 + |FrontText(Ahead(ms, id1))|, From(ms, id1);
            && MembersAt(t, 1, Join(Ahead(ms, id1), b)) && MembersAt(t, k, b)
            && OneAt(t, k, b) && k <= ValueOf(ms, id1) < IntoPos(ms, id1) < |t|
  {
    hide *;
    Parts(ms, id1);
    RootAt(ms);
    var t, k, b := Render(Obj(ms)), 1 + |FrontText(Ahead(ms, id1))|, From(ms, id1);
    FrontAt(t, 1, Ahead(ms, id1), b);
    FirstMember(t, k, b);
    PlaceOf(ms, id1);
    ValueInside(t, k, b);
  }

  lemma PlaceOf(ms: Members, id1: string)
    requires HasKey(ms, id1)
    ensures ValueOf(ms, id1) == ValuePos(From(ms, id1), 1 + |FrontText(Ahead(ms, id1))|)
    ensures IntoPos(ms, id1) == ValueOf(ms, id1) + if From(ms, id1).value.Str? then 2 else 1
  {
    hide HasKey, From, Ahead, FrontText;
  }

  lemma ValueInside(t: string, k: nat, b: Members)
    requires b.Member? && OneAt(t, k, b)
    ensures var v := ValuePos(b, k); k <= v && v + (if b.value.Str? then 2 else 1) < |t|
  {
    ValueStarts(b.value);
    hide At, EndsAt, ValueOk, HeadAt;
  }

  /** The text after setting `id1.id2`. */
  function Into(ms: Members, id1: string, id2: string, v: Value): string
    requires MembersOk(ms) && HasKey(ms, id1)
  {
    Placed(ms, id1);
    Inserted(Render(Obj(ms)), IntoPos(ms, id1), NewText(id2, v))
  }

  // ---- it never updates `id1.id2` ------------------------------------------------------

  lemma OneKept(t: string, js: string, p: nat, ms: Members, k: nat)
    requires ms.Member? && OneAt(t, p, ms) && k <= |t| && k <= |js| && t[..k] == js[..k]
    requires ValuePos(ms, p) + |Render(ms.value)| + |ms.post| < k
    ensures OneAt(js, p, ms)
  {
    MemberParts(ms);
    assert forall i :: 0 <= i < k ==> t[i] == t[..k][i] == js[i];
  }

  lemma HeadKept(t: string, js: string, p: nat, ms: Members, k: nat)
    requires ms.Member? && HeadAt(t, p, ms) && k <= |t| && k <= |js| && t[..k] == js[..k] && ValuePos(ms, p) < k
    ensures HeadAt(js, p, ms) && js[ValuePos(ms, p)] == t[ValuePos(ms, p)]
    ensures p < k && js[p] != '}'
  {
    MemberParts(ms);
    assert forall i :: 0 <= i < k ==> t[i] == t[..k][i] == js[i];
    assert Head(ms)[0] == if ms.pre == "" then '"' else ms.pre[0];
    assert js[p] == Head(ms)[0];
  }

  /** Texts that agree on the members `f` are those of documents that agree on `f`. */
  lemma {:induction false} SameFront(t: string, js: string, p: nat, f: Members, b: Members, w: Members)
      returns (x: Members)
    requires b.Member? && MembersAt(t, p, Join(f, b)) && MembersAt(js, p, w)
    requires var k := p + |FrontText(f)|; k <= |t| && k <= |js| && t[..k] == js[..k]
    ensures w == Join(f, x) && MembersAt(js, p + |FrontText(f)|, x)
    decreases f
  {
    hide *;
    JoinFirst(f, b);
    if f.NoMember? {
      JoinFirst(f, w);
      return w;
    }
    var ms := Join(f, b);
    var m := ValuePos(f, p) + |Render(f.value)| + |f.post|;
    FrontAfter(f, p);
    FirstMember(t, p, ms);
    FirstMember(js, p, w);
    SamePos(f, ms, p);
    OneKept(t, js, p, ms, p + |FrontText(f)|);
    KeyFirst(js, p, ms);
    SameOne(js, p, ms, w);
    PrefixAt(t, js, p + |FrontText(f)|, m);
    SamePos(f, w, p);
    x := SameFront(t, js, m + 1, f.more, b, w.more);
    JoinFirst(f, x);
  }

  lemma JoinFirst(f: Members, b: Members)
    ensures f.NoMember? ==> Join(f, b) == b && FrontText(f) == ""
    ensures f.Member? ==> Join(f, b) == f.(more := Join(f.more, b)) && (b.Member? ==> Join(f.more, b).Member?)
  {
  }

  lemma SamePos(f: Members, g: Members, p: nat)
    requires f.Member? && g.Member? && g == f.(more := g.more)
    ensures ValuePos(f, p) == ValuePos(g, p) && Head(f) == Head(g)
  {
  }

  lemma FrontAfter(f: Members, p: nat)
    requires f.Member?
    ensures var m := ValuePos(f, p) + |Render(f.value)| + |f.post|;
            m < p + |FrontText(f)| && m + 1 + |FrontText(f.more)| == p + |FrontText(f)|
  {
    FrontLength(f);
  }

  lemma PrefixAt(t: string, js: string, k: nat, i: nat)
    requires i < k <= |t| && k <= |js| && t[..k] == js[..k]
    ensures t[i] == js[i]
  {
    assert t[i] == t[..k][i] == js[..k][i];
  }

  lemma KeyFirst(js: string, p: nat, ms: Members)
    requires ms.Member? && OneAt(js, p, ms)
    ensures p < |js| && js[p] != '}'
  {
    assert Head(ms)[0] == if ms.pre == "" then '"' else ms.pre[0];
    assert js[p] == Head(ms)[0];
  }

  /** In a document with the new text, the member `id1` begins as it did before, and those
      before it are the same. */
  lemma IntoReads(ms: Members, id1: string, js: string, w: Members) returns (x: Members)
    requires MembersOk(ms) && HasKey(ms, id1) && MembersOk(w) && js == Render(Obj(w))
    requires var pos, t := IntoPos(ms, id1), Render(Obj(ms)); pos <= |t| && pos <= |js| && js[..pos] == t[..pos]
    ensures w == Join(Ahead(ms, id1), x) && x.Member? && x.key == id1
    ensures var vp := ValueOf(ms, id1);
            && At(js, vp, Render(x.value)) && ValueOk(x.value) && EndsAt(js, vp + |Render(x.value)|)
            && vp < |js| && js[vp] == Render(Obj(ms))[vp]
  {
    hide *;
    var t, k, b := Render(Obj(ms)), 1 + |FrontText(Ahead(ms, id1))|, From(ms, id1);
    var vp := ValueOf(ms, id1);
    Placed(ms, id1);
    PlaceOf(ms, id1);
    RootAt(w);
    OneParts(t, k, b);
    ValueHead(t, vp, b.value);
    PrefixTo(t, js, k, IntoPos(ms, id1));
    x := SameFront(t, js, 1, Ahead(ms, id1), b, w);
    HeadKept(t, js, k, b, IntoPos(ms, id1));
    FirstMember(js, k, x);
    OneParts(js, k, x);
    ValueHead(js, ValuePos(x, k), x.value);
    SameHead(js, k, b, x);
    SameValuePos(x, b, k);
  }

  lemma OneParts(js: string, p: nat, ms: Members)
    requires ms.Member? && OneAt(js, p, ms)
    ensures var v := ValuePos(ms, p);
            && HeadAt(js, p, ms) && At(js, v, Render(ms.value)) && ValueOk(ms.value)
            && EndsAt(js, v + |Render(ms.value)|)
  {
  }

  lemma SameValuePos(a: Members, b: Members, p: nat)
    requires a.Member? && b.Member? && a.pre == b.pre && a.key == b.key && a.mid == b.mid
    ensures ValuePos(a, p) == ValuePos(b, p)
  {
  }

  lemma PrefixTo(t: string, js: string, k: nat, n: nat)
    requires k <= n <= |t| && n <= |js| && t[..n] == js[..n]
    ensures t[..k] == js[..k]
  {
    assert t[..k] == t[..n][..k] == js[..n][..k] == js[..k];
  }

  lemma IntoPrefix(ms: Members, id1: string, id2: string, v: Value)
    requires MembersOk(ms) && HasKey(ms, id1)
    ensures var pos, t, js := IntoPos(ms, id1), Render(Obj(ms)), Into(ms, id1, id2, v);
            pos < |t| && pos < |js| && js[..pos] == t[..pos]
  {
    Placed(ms, id1);
    PlaceOf(ms, id1);
    IsInserted(ms, id1, id2, v);
    hide *;
    InsertedPrefix(Render(Obj(ms)), IntoPos(ms, id1), NewText(id2, v));
  }

  lemma IsInserted(ms: Members, id1: string, id2: string, v: Value)
    requires MembersOk(ms) && HasKey(ms, id1) && 0 < IntoPos(ms, id1) < |Render(Obj(ms))|
    ensures Into(ms, id1, id2, v) == Inserted(Render(Obj(ms)), IntoPos(ms, id1), NewText(id2, v))
  {
  }

  lemma InsertedPrefix(t: string, pos: nat, val: string)
    requires 0 < pos < |t| && val != ""
    ensures pos < |Inserted(t, pos, val)| && Inserted(t, pos, val)[..pos] == t[..pos]
  {
  }

  /** Whatever document the new text is, `id1` is in it, is no object, and `id1.id2` is not
      there; what stood before `id1` is as it was. */
  lemma IntoIsNoUpdate(ms: Members, id1: string, id2: string, v: Value, w: Members)
    requires MembersOk(ms) && HasKey(ms, id1) && !From(ms, id1).value.Obj?
    requires MembersOk(w) && Into(ms, id1, id2, v) == Render(Obj(w))
    ensures Ahead(w, id1) == Ahead(ms, id1) && Find(w, id1).Some? && !Find(w, id1).value.Obj?
            && Find2(w, id1, id2).None?
  {
    var vp, b := ValueOf(ms, id1), From(ms, id1);
    Placed(ms, id1);
    ValueHead(Render(Obj(ms)), vp, b.value);
    IntoPrefix(ms, id1, id2, v);
    Parts(ms, id1);
    hide Into, At, Render, Inserted, NewText, MembersAt, OneAt;
    var x := IntoReads(ms, id1, Into(ms, id1, id2, v), w);
    ValueHead(Render(Obj(w)), vp, x.value);
    JoinFind(Ahead(ms, id1), x, id1);
    FromJoin(Ahead(ms, id1), x, id1);
  }

  lemma {:induction false} FromJoin(f: Members, b: Members, key: string)
    requires !HasKey(f, key) && b.Member? && b.key == key
    ensures From(Join(f, b), key) == b && Ahead(Join(f, b), key) == f
  {
    if f.Member? { FromJoin(f.more, b, key); }
  }

  // ---- when the new text is a document -------------------------------------------------

  predicate IsPlain(c: char) {
    '0' <= c <= '9' || 'A' <= c <= 'Z' || 'a' <= c <= 'z' || c == '-' || c == '+' || c == '.'
  }

  /** Primitives are plain words, as in section 3 of RFC 8259; the tokenizer takes more. */
  predicate Proper(v: Value) {
    match v
    case Prim(text) => forall i :: 0 <= i < |text| ==> IsPlain(text[i])
    case Str(_) => true
    case Arr(es) => ProperElems(es)
    case Obj(ms) => ProperMembers(ms)
  }

  predicate ProperElems(es: Elems) { es.Elem? ==> Proper(es.value) && ProperElems(es.more) }

  predicate ProperMembers(ms: Members) { ms.Member? ==> Proper(ms.value) && ProperMembers(ms.more) }

  predicate IsText(js: string, w: Members) { MembersOk(w) && ProperMembers(w) && js == Render(Obj(w)) }

  lemma {:induction false} ProperJoin(f: Members, b: Members)
    ensures ProperMembers(Join(f, b)) <==> ProperMembers(f) && ProperMembers(b)
  {
    if f.Member? { ProperJoin(f.more, b); }
  }

  /** The last member of the document is `id1`, with nothing after its value, which is a
      primitive of one character or an empty string. */
  predicate Spare(ms: Members, id1: string)
    requires HasKey(ms, id1)
  {
    var b := From(ms, id1);
    && b.more.NoMember? && b.post == ""
    && ((b.value.Prim? && |b.value.text| == 1) || (b.value.Str? && b.value.text == ""))
  }

  /** The characters from the insertion on. */
  lemma NewAt(t: string, pos: nat, key: string, v: Value)
    requires 0 < pos < |t|
    ensures var js := Inserted(t, pos, NewText(key, v));
            var q := if t[pos] == '}' && t[pos - 1] != '{' then pos + 1 else pos;
            && (q > pos ==> js[pos] == ',') && q + |key| + 2 < |js| && At(js, q, "\"") && At(js, q + 1, key + "\"")
            && js[q] == '"' && js[q + 2 + |key|] == ':'
  {
    var js, x := Inserted(t, pos, NewText(key, v)), NewText(key, v);
    var q := if t[pos] == '}' && t[pos - 1] != '{' then pos + 1 else pos;
    var a := "\"" + (key + "\"") + ":" + Render(v);
    assert x == a;
    assert At(js, q, x) by {
      if t[pos] == '}' && t[pos - 1] != '{' { AtMiddle(t[..pos] + ",", x, t[pos..]); }
      else if t[pos] == '}' { AtMiddle(t[..pos], x, t[pos..]); }
      else {
        AtMiddle(t[..pos], x, "," + t[pos..]);
        assert t[..pos] + x + "," + t[pos..] == t[..pos] + x + ("," + t[pos..]);
      }
    }
    AtParts(js, q, "\"", key + "\"", ":", Render(v), q + 1, q + 2 + |key|, q + 3 + |key|);
    assert js[q] == "\""[0] && js[q + 2 + |key|] == ":"[0];
  }

  lemma AtMiddle(left: string, x: string, right: string)
    ensures At(left + x + right, |left|, x) && |left + x + right| == |left| + |x| + |right|
    ensures right != "" ==> (left + x + right)[|left| + |x|] == right[0]
  {
  }

  /** When a brace follows the value of a member. */
  lemma LastValue(t: string, k: nat, b: Members)
    requires b.Member? && MembersAt(t, k, b)
    ensures var e := ValuePos(b, k) + |Render(b.value)|;
            e < |t| && (t[e] == '}' <==> b.more.NoMember? && b.post == "")
  {
    FirstMember(t, k, b);
    var e := ValuePos(b, k) + |Render(b.value)|;
    hide MembersAt, Render, HeadAt, ValueOk, EndsAt;
    if b.post != "" { assert t[e] == b.post[0]; }
  }

  /** In a document, a quote does not follow a value. */
  lemma WordThenQuote(js: string, p: nat, x: Value)
    requires x.Prim? && At(js, p, Render(x)) && ValueOk(x) && Proper(x) && EndsAt(js, p + |Render(x)|)
    ensures p + 1 < |js| && js[p + 1] != '"'
  {
    if |x.text| > 1 { assert js[p + 1] == x.text[1]; }
  }

  lemma EmptyThenQuote(js: string, p: nat, x: Value)
    requires x.Str? && At(js, p, Render(x)) && ValueOk(x) && EndsAt(js, p + |Render(x)|) && p + 1 < |js|
             && js[p + 1] == '"'
    ensures p + 2 < |js| && js[p + 2] != '"'
  {
    StringText(js, p, x);
  }

  /** The second character of a value. */
  lemma SecondChar(t: string, p: nat, u: Value)
    requires At(t, p, Render(u)) && ValueOk(u) && EndsAt(t, p + |Render(u)|)
    ensures p + 1 < |t|
    ensures u.Prim? && |u.text| > 1 ==> t[p + 1] != '}'
    ensures u.Str? ==> t[p + 1] == if u.text == "" then '"' else u.text[0]
    ensures u.Str? && u.text != "" ==> u.text[0] != '"' && p + 2 < |t|
    ensures u.Str? && u.text != "" && u.text[0] == '\\' ==> t[p + 2] != '}'
  {
    if u.Str? {
      StringText(t, p, u);
      if u.text != "" {
        assert t[p + 1] == u.text[0];
        if |u.text| > 1 { assert t[p + 2] == u.text[1]; }
      } else {
        assert t[p + 1] == Render(u)[1];
      }
    } else if u.Prim? && |u.text| > 1 {
      assert t[p + 1] == u.text[1];
    } else if u.Arr? || u.Obj? {
      ContainerText(t, u, p);
    }
  }

  lemma ScalarReads(t: string, js: string, k: nat, b: Members, pos: nat, x: Value, key: string, v: Value)
    requires b.Member? && MembersAt(t, k, b)
    requires (b.value.Prim? && pos == ValuePos(b, k) + 1)
             || (b.value.Str? && b.value.text == "" && pos == ValuePos(b, k) + 2)
    requires 0 < pos < |t| && js == Inserted(t, pos, NewText(key, v)) && js[..pos] == t[..pos]
    requires var p := ValuePos(b, k); At(js, p, Render(x)) && ValueOk(x) && Proper(x) && EndsAt(js, p + |Render(x)|)
    requires x.Str? == b.value.Str? && x.Prim? == b.value.Prim?
    ensures b.more.NoMember? && b.post == "" && (b.value.Prim? ==> |b.value.text| == 1)
  {
    var p := ValuePos(b, k);
    hide *;
    NewAt(t, pos, key, v);
    FirstMember(t, k, b);
    OneParts(t, k, b);
    SecondChar(t, p, b.value);
    LastValue(t, k, b);
    ScalarLength(b.value);
    if x.Prim? {
      WordThenQuote(js, p, x);
    } else {
      PrefixAt(t, js, pos, p + 1);
      EmptyThenQuote(js, p, x);
    }
  }

  lemma ScalarLength(u: Value)
    ensures u.Prim? ==> |Render(u)| == |u.text|
    ensures u.Str? ==> |Render(u)| == |u.text| + 2
    ensures ValueOk(u) && u.Prim? ==> |u.text| > 0
    ensures ValueOk(u) && u.Str? ==> StringOk(u.text)
  {
  }

  /** A string with something in it is broken. */
  lemma StringBreaks(t: string, js: string, p: nat, u: Value, x: Value, key: string, v: Value)
    requires u.Str? && u.text != "" && At(t, p, Render(u)) && ValueOk(u) && EndsAt(t, p + |Render(u)|)
    requires p + 2 < |t| && js == Inserted(t, p + 2, NewText(key, v)) && js[..p + 2] == t[..p + 2]
    requires x.Str? && At(js, p, Render(x)) && ValueOk(x)
    requires StringOk(key) && key != "" && !EndsPrimitive(key[0])
    ensures !EndsAt(js, p + |Render(x)|)
  {
    hide *;
    NewAt(t, p + 2, key, v);
    SecondChar(t, p, u);
    PrefixAt(t, js, p + 2, p + 1);
    ScalarLength(x);
    StringText(js, p, x);
    var q := if t[p + 2] == '}' && t[p + 1] != '{' then p + 3 else p + 2;
    NewString(js, p, q, key);
    ColonEndsNothing();
  }

  /** The string that begins at `p` ends before or after the new key. */
  lemma NewString(js: string, p: nat, q: nat, key: string)
    requires p + 2 <= q <= p + 3 && q + 1 < |js| && js[q] == '"' && At(js, q + 1, key + "\"") && StringOk(key)
             && key != ""
    requires js[p + 1] != '"' && (q == p + 3 ==> js[p + 2] == ',' && js[p + 1] != '\\')
    ensures js[q + 1] == key[0]
    ensures StringEnd(js, p + 1) == End(if js[p + 1] == '\\' then q + 1 + |key| else q)
  {
    ScanString(js, q + 1, key);
    assert js[q + 1] == (key + "\"")[0];
    hide At, StringOk;
    if js[p + 1] == '\\' {
      assert StringEnd(js, p + 1) == StringEnd(js, p + 3);
    } else {
      assert StringEnd(js, p + 1) == StringEnd(js, p + 2);
      assert StringEnd(js, q) == End(q);
      assert q == p + 3 ==> StringEnd(js, p + 2) == StringEnd(js, q);
    }
  }

  lemma ArrayAt(js: string, p: nat, v: Value)
    requires v.Arr? && At(js, p, Render(v)) && ValueOk(v)
    ensures ElemsAt(js, p + 1, v.elems)
  {
    ContainerText(js, v, p);
  }

  lemma ElemFirst(js: string, p: nat, es: Elems)
    requires ElemsAt(js, p, es)
    ensures p < |js| && js[p] != '}'
    ensures js[p] == '"' ==> es.Elem? && es.value.Str? && es.pre == "" && StringOk(es.value.text)
  {
    FirstElem(js, p, es);
    if es.Elem? {
      ValueHead(js, p + |es.pre|, es.value);
      if es.pre != "" { assert js[p] == es.pre[0]; }
    }
  }

  /** So is an array. */
  lemma ArrayBreaks(t: string, js: string, p: nat, u: Value, x: Value, key: string, v: Value)
    requires u.Arr? && At(t, p, Render(u)) && ValueOk(u)
    requires p + 1 < |t| && js == Inserted(t, p + 1, NewText(key, v))
    requires x.Arr? && StringOk(key)
    ensures !(At(js, p, Render(x)) && ValueOk(x))
  {
    hide *;
    NewAt(t, p + 1, key, v);
    ArrayAt(t, p, u);
    ElemFirst(t, p + 1, u.elems);
    if At(js, p, Render(x)) && ValueOk(x) {
      ArrayAt(js, p, x);
      ElemFirst(js, p + 1, x.elems);
      FirstElem(js, p + 1, x.elems);
      StringText(js, p + 1, x.elems.value);
      ScanString(js, p + 2, key);
      ScalarLength(x.elems.value);
      ColonEndsNothing();
    }
  }

  lemma ColonEndsNothing()
    ensures !EndsPrimitive(':')
    ensures forall js: string, q: nat {:trigger EndsAt(js, q)} :: EndsAt(js, q) ==> q < |js| && EndsPrimitive(js[q])
  {
  }

  /** In the new text as a document, the value of `id1` stands where it stood, and begins with
      the same character. */
  lemma IntoValue(ms: Members, id1: string, id2: string, v: Value, w: Members) returns (x: Value)
    requires MembersOk(ms) && HasKey(ms, id1) && IsText(Into(ms, id1, id2, v), w)
    ensures var js, p, u := Into(ms, id1, id2, v), ValueOf(ms, id1), From(ms, id1).value;
            && At(js, p, Render(x)) && ValueOk(x) && Proper(x) && EndsAt(js, p + |Render(x)|)
            && x.Prim? == u.Prim? && x.Str? == u.Str? && x.Arr? == u.Arr?
  {
    hide *;
    var js, t, p, b := Into(ms, id1, id2, v), Render(Obj(ms)), ValueOf(ms, id1), From(ms, id1);
    TextOf(js, w);
    Placed(ms, id1);
    PlaceOf(ms, id1);
    OneParts(t, 1 + |FrontText(Ahead(ms, id1))|, b);
    IntoPrefix(ms, id1, id2, v);
    var y := IntoReads(ms, id1, js, w);
    ProperJoin(Ahead(ms, id1), y);
    ProperFirst(y);
    ValueHead(t, p, b.value);
    ValueHead(js, p, y.value);
    x := y.value;
    FourKinds(x);
    FourKinds(b.value);
  }

  lemma FourKinds(v: Value)
    ensures v.Prim? || v.Str? || v.Arr? || v.Obj?
  {
  }

  lemma TextOf(js: string, w: Members)
    requires IsText(js, w)
    ensures MembersOk(w) && ProperMembers(w) && js == Render(Obj(w))
  {
  }

  lemma ProperFirst(ms: Members)
    requires ms.Member? && ProperMembers(ms)
    ensures Proper(ms.value)
  {
  }

  lemma IntoNeedsSpare(ms: Members, id1: string, id2: string, v: Value, w: Members)
    requires MembersOk(ms) && HasKey(ms, id1) && !From(ms, id1).value.Obj? && IsText(Into(ms, id1, id2, v), w)
    requires StringOk(id2) && id2 != "" && !EndsPrimitive(id2[0])
    ensures Spare(ms, id1)
  {
    hide *;
    var js, t, p, b := Into(ms, id1, id2, v), Render(Obj(ms)), ValueOf(ms, id1), From(ms, id1);
    var u, k := b.value, 1 + |FrontText(Ahead(ms, id1))|;
    Placed(ms, id1);
    PlaceOf(ms, id1);
    IsInserted(ms, id1, id2, v);
    IntoPrefix(ms, id1, id2, v);
    OneParts(t, k, b);
    FourKinds(u);
    SpareIf(ms, id1);
    var x := IntoValue(ms, id1, id2, v, w);
    if u.Prim? || (u.Str? && u.text == "") {
      ScalarReads(t, js, k, b, IntoPos(ms, id1), x, id2, v);
    } else if u.Str? {
      StringBreaks(t, js, p, u, x, id2, v);
    } else {
      ArrayBreaks(t, js, p, u, x, id2, v);
    }
  }

  lemma SpareIf(ms: Members, id1: string)
    requires HasKey(ms, id1)
    ensures var b := From(ms, id1);
            && b.Member?
            && (b.more.NoMember? && b.post == "" && b.value.Prim? && |b.value.text| == 1 ==> Spare(ms, id1))
            && (b.more.NoMember? && b.post == "" && b.value.Str? && b.value.text == "" ==> Spare(ms, id1))
  {
  }

  lemma SpareEnds(ms: Members, id1: string)
    requires MembersOk(ms) && HasKey(ms, id1) && Spare(ms, id1)
    ensures IntoPos(ms, id1) == 1 + |RenderMembers(ms)|
  {
    var f, b := Ahead(ms, id1), From(ms, id1);
    Parts(ms, id1);
    JoinText(f, b);
    MemberParts(b);
    assert Tail(b) == "";
  }

  /** The new text is a document exactly when `id1` is the last member and its value one
      character or an empty string; then the member follows it, under the name `id2`. */
  lemma IntoIsDocument(ms: Members, id1: string, id2: string, v: Value)
    requires Good(ms) && ProperMembers(ms) && HasKey(ms, id1) && !From(ms, id1).value.Obj?
    requires ValueOk(v) && Proper(v) && StringOk(id2) && id2 != "" && !EndsPrimitive(id2[0])
    ensures (exists w :: IsText(Into(ms, id1, id2, v), w)) <==> Spare(ms, id1)
    ensures Spare(ms, id1) ==> IsText(Into(ms, id1, id2, v), Append(ms, id2, v))
  {
    if Spare(ms, id1) {
      SpareEnds(ms, id1);
      Placed(ms, id1);
      IsInserted(ms, id1, id2, v);
      InsertLast("", ms, "", id2, v, IntoPos(ms, id1));
      RenderObj(ms);
      RenderObj(Append(ms, id2, v));
      JoinLayout(ms, One(id2, v));
      ProperJoin(ms, One(id2, v));
      assert IsText(Into(ms, id1, id2, v), Append(ms, id2, v));
    }
    if w :| IsText(Into(ms, id1, id2, v), w) { IntoNeedsSpare(ms, id1, id2, v, w); }
  }

  // ---- which member is set -------------------------------------------------------------

  function NextKey(ms: Members, id2: string): string
    requires NextHolds(ms, id2)
  {
    if IsScalar(ms.value) then NextKey(ms.more, id2) else ms.key
  }

  /** The object that the search for `id1.id2` strays into. */
  function StrayKey(ms: Members, id1: string, id2: string): string
    requires Strays(ms, id1, id2)
  {
    if ms.key == id1 then NextKey(ms.more, id2) else StrayKey(ms.more, id1, id2)
  }

  /** The member that a setter works on. */
  function Target(ms: Members, n: Name): Name {
    if n.Two? && Strays(ms, n.id1, n.id2) then Two(StrayKey(ms, n.id1, n.id2), n.id2) else n
  }

  /** The keys that a lookup starts from and ends up with are not repeated. */
  predicate Searchable(ms: Members, n: Name) { Clear(ms, n) && Clear(ms, Target(ms, n)) }

  /** `k` is an object of these members with a member `id2`. */
  predicate Holder(ms: Members, k: string, id2: string) {
    HasKey(ms, k) && From(ms, k).value.Obj? && HasKey(From(ms, k).value.members, id2)
  }

  lemma {:induction false} NextIs(ms: Members, id1: string, id2: string)
    requires NextHolds(ms, id2) && Once(ms, NextKey(ms, id2)) && !HasKey(ms, id1)
    ensures var k := NextKey(ms, id2);
            && k != id1 && Holder(ms, k, id2) && ScopedIndex(ms, id1, id2, true) == ScopedIndex(ms, k, id2, false)
    decreases ms
  {
    if IsScalar(ms.value) {
      NextHas(ms.more, id2);
      NextIs(ms.more, id1, id2);
    } else {
      IndexIsValue(ms.value.members, id2);
      FindHas(ms.value.members, id2);
    }
  }

  /** A search that strays finds the member of another object. */
  lemma {:induction false} StrayIs(ms: Members, id1: string, id2: string)
    requires Strays(ms, id1, id2) && Once(ms, id1) && Once(ms, StrayKey(ms, id1, id2))
    ensures var k := StrayKey(ms, id1, id2);
            && HasKey(ms, id1) && !From(ms, id1).value.Obj? && Holder(ms, k, id2)
            && ScopedIndex(ms, id1, id2, false) == ScopedIndex(ms, k, id2, false)
    decreases ms
  {
    if ms.key == id1 {
      NextHas(ms.more, id2);
      NextIs(ms.more, id1, id2);
    } else {
      StrayHas(ms.more, id1, id2);
      StrayIs(ms.more, id1, id2);
    }
  }

  /** Once that member is gone, the search finds nothing. */
  lemma {:induction false} NextGone(ms: Members, id2: string, inner: Members)
    requires NextHolds(ms, id2) && !HasKey(inner, id2) && HasKey(ms, NextKey(ms, id2))
    requires Once(ms, NextKey(ms, id2))
    ensures !NextHolds(WithInner(ms, NextKey(ms, id2), inner), id2)
    decreases ms
  {
    var k := NextKey(ms, id2);
    if IsScalar(ms.value) {
      NextHas(ms.more, id2);
      NextGone(ms.more, id2, inner);
      assert WithInner(ms, k, inner) == ms.(more := WithInner(ms.more, k, inner));
    }
  }

  lemma {:induction false} NextHas(ms: Members, id2: string)
    requires NextHolds(ms, id2)
    ensures HasKey(ms, NextKey(ms, id2))
    decreases ms
  {
    if IsScalar(ms.value) { NextHas(ms.more, id2); }
  }

  lemma {:induction false} StrayHas(ms: Members, id1: string, id2: string)
    requires Strays(ms, id1, id2)
    ensures HasKey(ms, StrayKey(ms, id1, id2))
    decreases ms
  {
    if ms.key == id1 { NextHas(ms.more, id2); } else { StrayHas(ms.more, id1, id2); }
  }

  lemma {:induction false} StrayGone(ms: Members, id1: string, id2: string, inner: Members)
    requires Strays(ms, id1, id2) && Once(ms, id1) && Once(ms, StrayKey(ms, id1, id2)) && !HasKey(inner, id2)
             && HasKey(ms, StrayKey(ms, id1, id2))
    ensures var w := WithInner(ms, StrayKey(ms, id1, id2), inner);
            !Strays(w, id1, id2) && HasKey(w, id1) && !From(w, id1).value.Obj?
    decreases ms
  {
    var k := StrayKey(ms, id1, id2);
    if ms.key == id1 {
      NextHas(ms.more, id2);
      NextGone(ms.more, id2, inner);
      assert WithInner(ms, k, inner) == ms.(more := WithInner(ms.more, k, inner));
    } else {
      StrayHas(ms.more, id1, id2);
      StrayGone(ms.more, id1, id2, inner);
      assert WithInner(ms, k, inner) == ms.(more := WithInner(ms.more, k, inner));
    }
  }

  /** `id1` is there, is no object, and the search does not stray. */
  predicate Lost(ms: Members, n: Name) {
    n.Two? && HasKey(ms, n.id1) && !From(ms, n.id1).value.Obj? && !Strays(ms, n.id1, n.id2)
  }

  /** Then a lookup says so, and finds `id1` alone. */
  lemma LostLookup(ms: Members, n: Name)
    requires Clear(ms, n) && Lost(ms, n)
    ensures LookupIn(Obj(ms), n, false) == OnlyId1
  {
    ScopedIsFind2(ms, n.id1, n.id2);
    ScopedIsValue(ms, n.id1, n.id2, false);
    IndexIsValue(ms, n.id1);
    FindFrom(ms, n.id1);
  }

  lemma HolderParts(ms: Members, k: string, id2: string)
    requires Holder(ms, k, id2)
    ensures HasKey(ms, k) && From(ms, k).value.Obj? && HasKey(From(ms, k).value.members, id2)
  {
  }

  /** A search that strays is the search for the member of the other object. */
  lemma StrayLookup(ms: Members, n: Name, k: string)
    requires n.Two? && Once(ms, k) && Holder(ms, k, n.id2)
    requires ScopedIndex(ms, n.id1, n.id2, false) == ScopedIndex(ms, k, n.id2, false)
    ensures LookupIn(Obj(ms), n, false) == LookupIn(Obj(ms), Two(k, n.id2), false)
  {
    hide ScopedIndex, Index;
    LookupTwo(ms, k, n.id2);
  }
}
