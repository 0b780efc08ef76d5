/**
 A configuration: JSON text in a buffer that is edited in place, and the tokens of that
 text. Setting a value is an ordered-map update of the document.
 */
module Cfg {
  import opened Optional
  import opened Json
  import opened CfgWalk
  import opened CfgLookup
  import opened CfgEdit
  import opened Jsmn
  import opened CfgTree
  import opened CfgDoc
  import opened CfgInto
  import opened CfgTorn

  /** The setters: `_cfg_set_int`, `_cfg_set_float`, `_cfg_set_bool`, `_cfg_set_string`, `_cfg_set_object`. */
  datatype Setter = SetInt | SetFloat | SetBool | SetString | SetObject

  predicate IsDigit(c: char) { '0' <= c <= '9' }

  predicate StartsNull(s: string) { "null" <= s }

  /** A setter only replaces a value of its own kind, or null; otherwise it panics. */
  predicate Replaceable(setter: Setter, v: Value) {
    match v
    case Str(_) => setter == SetString
    case Arr(_) => false
    case Obj(_) => setter == SetObject
    case Prim(text) =>
      || StartsNull(text)
      || (text != "" && match setter
                        case SetInt => IsDigit(text[0]) || text[0] == '-'
                        case SetFloat => IsDigit(text[0]) || text[0] == '-' || text[0] == '.'
                        case SetBool => text[0] == 't' || text[0] == 'f'
                        case _ => false)
  }

  // ---- the edits on the document -----------------------------------------------------

  function Suffix(name: string): string {
    var d := Strchr(name, '.');
    if d < |name| then name[d + 1..] else ""
  }

  lemma {:induction false} StrchrAt(s: string, c: char, i: nat)
    requires i < |s| && s[i] == c && c !in s[..i]
    ensures Strchr(s, c) == i
  {
    if i > 0 {
      assert s[..i] == [s[0]] + s[1..][..i - 1];
      StrchrAt(s[1..], c, i - 1);
    }
  }

  lemma {:induction false} WordIs(s: string)
    requires forall i :: 0 <= i < |s| ==> !IsBlank(s[i])
    ensures UpToBlank(s) == s && Word(s) == s
  {
    if s != "" { WordIs(s[1..]); }
  }

  /** An ordinary name of two parts is taken apart at its dot. */
  lemma DottedName(id1: string, id2: string)
    requires id1 != "" && id2 != "" && '.' !in id1 && '.' !in id2 && forall i :: 0 <= i < |id2| ==> !IsBlank(id2[i])
    ensures var name := id1 + "." + id2;
            NameOf(name, false) == Two(id1, id2) && Suffix(name) == id2 && NameOf(name, true) == Whole(name)
  {
    var name := id1 + "." + id2;
    assert name[..|id1|] == id1 && name[|id1| + 1..] == id2;
    StrchrAt(name, '.', |id1|);
    WordIs(id2);
  }

  /** The value a name stands for. */
  function Get(ms: Members, n: Name): Option<Value> {
    match n
    case Whole(id) => Find(ms, id)
    case Two(id1, id2) => Find2(ms, id1, id2)
    case Bad => None
  }

  function Without(ms: Members, n: Name): Members
    requires Get(ms, n).Some? && Usable(ms, n)
  {
    match n
    case Whole(id) => Remove(ms, id)
    case Two(id1, id2) =>
      FindFrom(ms, id1);
      WithInner(ms, id1, Remove(From(ms, id1).value.members, id2))
  }

  /** The members of an inner object after setting `key` in it. */
  function SetInner(inner: Members, key: string, v: Value): Members {
    if HasKey(inner, key) then Replace(inner, key, v) else First(inner, key, v)
  }

  /** In place; or at the end; or as the first member of the inner object. */
  function With(ms: Members, name: string, n: Name, v: Value): Members
    requires Usable(ms, n)
  {
    match n
    case Whole(id) => if HasKey(ms, id) then Replace(ms, id, v) else Append(ms, id, v)
    case Bad => Append(ms, name, v)
    case Two(id1, id2) =>
      if !HasKey(ms, id1) then Append(ms, name, v)
      else
        var inner := From(ms, id1).value.members;
        WithInner(ms, id1, SetInner(inner, id2, v))
  }

  /** The setter removes what is there and looks again, so of a repeated key only the last
      occurrence is left, and gets the value. */
  function Put(ms: Members, name: string, n: Name, v: Value): Members
    requires Usable(ms, n)
    decreases |Entries(ms)|
  {
    if n.Whole? && HasKey(ms, n.id) && HasKey(Remove(ms, n.id), n.id) then
      RemoveEntries(ms, n.id);
      Put(Remove(ms, n.id), name, n, v)
    else With(ms, name, n, v)
  }

  /** The setter may replace whatever it removes. */
  predicate MayReplace(ms: Members, n: Name, setter: Setter)
    decreases |Entries(ms)|
  {
    Get(ms, n).Some? ==>
      && Replaceable(setter, Get(ms, n).value)
      && (n.Whole? && HasKey(ms, n.id) && HasKey(Remove(ms, n.id), n.id) ==>
            (RemoveEntries(ms, n.id); MayReplace(Remove(ms, n.id), n, setter)))
  }

  /** Only one removal is needed, unless a one-part name is repeated. */
  lemma PutIsWith(ms: Members, name: string, n: Name, v: Value, setter: Setter)
    requires Usable(ms, n) && Single(ms, n)
    ensures Put(ms, name, n, v) == With(ms, name, n, v)
    ensures MayReplace(ms, n, setter) <==> (Get(ms, n).Some? ==> Replaceable(setter, Get(ms, n).value))
  {
    if n.Whole? && HasKey(ms, n.id) { RemoveOnce(ms, n.id); }
  }

  lemma PutAgain(ms: Members, name: string, n: Name, v: Value, setter: Setter)
    requires Usable(ms, n) && Get(ms, n).Some? && !Single(ms, n)
    ensures n.Whole? && HasKey(ms, n.id) && Without(ms, n) == Remove(ms, n.id)
    ensures var w := Remove(ms, n.id);
            && HasKey(w, n.id) && Get(w, n).Some? && |Entries(w)| < |Entries(ms)|
            && Put(ms, name, n, v) == Put(w, name, n, v)
            && (MayReplace(ms, n, setter) <==> Replaceable(setter, Get(ms, n).value) && MayReplace(w, n, setter))
  {
    FindFrom(ms, n.id);
    RemoveOnce(ms, n.id);
    RemoveEntries(ms, n.id);
    FindFrom(Remove(ms, n.id), n.id);
  }

  // ---- where a name is in the text ----------------------------------------------------

  /** The member `b` stands after `f`, in an object between `l` and `r`. */
  datatype Spot = Spot(l: string, f: Members, b: Members, r: string)

  function SpotOf(ms: Members, n: Name): Spot
    requires Get(ms, n).Some?
  {
    match n
    case Whole(id) => Spot("", Ahead(ms, id), From(ms, id), "")
    case Two(id1, id2) =>
      FindFrom(ms, id1);
      var inner := From(ms, id1).value.members;
      Spot(InnerLeft(ms, id1), Ahead(inner, id2), From(inner, id2), InnerRight(ms, id1))
  }

  function Text(s: Spot, ms: Members): string { ObjectText(s.l, ms, s.r) }

  /** Where the key goes, between `f` and `m`. */
  function InsertPos(l: string, f: Members, m: Members): nat {
    |l| + 1 + if m.Member? then |FrontText(f)| else |RenderMembers(f)|
  }

  predicate Editable(ms: Members) { MembersOk(ms) && Layout(ms) }

  lemma EditableOk(ms: Members)
    requires Editable(ms)
    ensures MembersOk(ms) && Layout(ms)
  {
  }

  lemma EditableParts(ms: Members, key: string)
    requires Editable(ms)
    ensures Editable(Ahead(ms, key)) && Editable(From(ms, key)) && Editable(Trim(More(From(ms, key))))
  {
    Parts(ms, key);
    JoinLayout(Ahead(ms, key), From(ms, key));
    var m := More(From(ms, key));
    if m.Member? { DropGapOk(m.pre); }
  }

  lemma {:induction false} InnerEditable(ms: Members, id1: string)
    requires Good(ms) && HasKey(ms, id1) && From(ms, id1).value.Obj?
    ensures var inner := From(ms, id1).value.members; Editable(inner) && Unique(inner)
  {
    if ms.key == id1 { assert ValueOk(ms.value); } else { InnerEditable(ms.more, id1); }
  }

  lemma WithSame(ms: Members, id1: string)
    requires HasKey(ms, id1) && From(ms, id1).value.Obj?
    ensures WithInner(ms, id1, From(ms, id1).value.members) == ms
  {
    Parts(ms, id1);
  }

  lemma SpotText(ms: Members, n: Name)
    requires Get(ms, n).Some? && Usable(ms, n) && Good(ms)
    ensures var s := SpotOf(ms, n);
            && s.b.Member? && Editable(s.f) && Editable(s.b) && Editable(Trim(s.b.more))
            && Some(s.b.value) == Get(ms, n)
            && Render(Obj(ms)) == Text(s, Join(s.f, s.b))
            && Render(Obj(Without(ms, n))) == Text(s, Join(s.f, Trim(s.b.more)))
  {
    match n
    case Whole(id) =>
      FindFrom(ms, id);
      Parts(ms, id);
      EditableParts(ms, id);
      RenderObj(ms);
      RenderObj(Remove(ms, id));
    case Two(id1, id2) =>
      FindFrom(ms, id1);
      var inner := From(ms, id1).value.members;
      FindFrom(inner, id2);
      InnerEditable(ms, id1);
      EditableParts(inner, id2);
      Parts(inner, id2);
      WithSame(ms, id1);
      InnerText(ms, id1, inner);
      InnerText(ms, id1, Remove(inner, id2));
  }

  /** Setting an existing name inserts a new member at its spot. */
  lemma SpotWith(ms: Members, name: string, n: Name, v: Value)
    requires Get(ms, n).Some? && Usable(ms, n)
    ensures var s := SpotOf(ms, n);
            s.b.Member? && Render(Obj(With(ms, name, n, v))) == Text(s, Join(s.f, First(Trim(s.b.more), s.b.key, v)))
  {
    match n
    case Whole(id) =>
      FindFrom(ms, id);
      RenderObj(Replace(ms, id, v));
    case Two(id1, id2) =>
      FindFrom(ms, id1);
      var inner := From(ms, id1).value.members;
      FindFrom(inner, id2);
      InnerText(ms, id1, Replace(inner, id2, v));
  }

  /** The token a lookup finds is the value's token at the spot. */
  lemma SpotMarks(ms: Members, n: Name)
    requires Get(ms, n).Some? && Usable(ms, n) && Clear(ms, n)
    ensures var s, jt := SpotOf(ms, n), LookupIn(Obj(ms), n, false);
            jt.Found? && Marks(Tokens(Obj(ms), 0), jt.jt, s.b, |s.l| + 1 + |FrontText(s.f)|)
  {
    hide Marks, Index, ScopedIndex, FrontText, MemberTokens, Tokens;
    match n
    case Whole(id) =>
      FindFrom(ms, id);
      LookupWhole(ms, id);
      IndexMarks(ms, id, 1);
      RootMarks(ms, Index(ms, id).value, From(ms, id), 1 + |FrontText(Ahead(ms, id))|);
    case Two(id1, id2) =>
      FindFrom(ms, id1);
      var inner := From(ms, id1).value.members;
      FindFrom(inner, id2);
      LookupTwo(ms, id1, id2);
      ScopedMarks(ms, id1, id2, 1);
      InnerStart(ms, id1);
      RootMarks(ms, ScopedIndex(ms, id1, id2, false).value, From(inner, id2),
          InnerPos(ms, id1, 1) + |FrontText(Ahead(inner, id2))|);
  }

  lemma RootMarks(ms: Members, i: nat, b: Members, p: nat)
    requires Marks(MemberTokens(ms, 1), i, b, p)
    ensures Marks(Tokens(Obj(ms), 0), 1 + i, b, p)
  {
    var t := Tokens(Obj(ms), 0)[0];
    MarksShift([t], MemberTokens(ms, 1), [], i, b, p);
    assert [t] + MemberTokens(ms, 1) + [] == Tokens(Obj(ms), 0);
  }

  /** Names that stand for nothing are not found, or only their first part is. */
  lemma NotFound(ms: Members, n: Name)
    requires Get(ms, n).None? && Usable(ms, n) && Clear(ms, n)
    ensures LookupIn(Obj(ms), n, false) == if n.Two? && HasKey(ms, n.id1) then OnlyId1 else Missing
  {
    match n
    case Bad =>
    case Whole(id) =>
      FindFrom(ms, id);
      LookupWhole(ms, id);
    case Two(id1, id2) =>
      FindFrom(ms, id1);
      if HasKey(ms, id1) { FindFrom(From(ms, id1).value.members, id2); }
      LookupTwo(ms, id1, id2);
  }

  /** The value `v` is the text at `p`, after a character other than a quote. */
  predicate ValueHere(t: string, p: nat, v: Value) {
    At(t, p, Render(v)) && ValueOk(v) && 0 < p && t[p - 1] != '"' && EndsAt(t, p + |Render(v)|) && p + |Render(v)| < |t|
  }

  lemma HereHead(t: string, p: nat, v: Value)
    requires ValueHere(t, p, v)
    ensures |Render(v)| > 0 && Tokens(v, p)[0].start == (if v.Str? then p + 1 else p)
    ensures v.Str? ==> t[p] == '"'
    ensures v.Obj? ==> t[p] == '{'
    ensures v.Arr? ==> t[p] == '['
    ensures v.Prim? ==> t[p] == v.text[0] && t[p] != '{' && p + |v.text| < |t| && EndsPrimitive(t[p + |v.text|])
    ensures v.Prim? ==> forall i :: 0 <= i < |v.text| ==> t[p + i] == v.text[i]
  {
    ValueStarts(v);
    assert t[p] == Render(v)[0];
  }

  lemma NullHere(t: string, p: nat, v: Value)
    requires ValueHere(t, p, v) && v.Prim?
    ensures StartsNull(v.text) <==> t[p] == 'n' && p + 3 < |t| && t[p + 1] == 'u' && t[p + 2] == 'l' && t[p + 3] == 'l'
  {
    HereHead(t, p, v);
    var n := |v.text|;
    if n >= 4 {
      assert v.text[..4] == [v.text[0], v.text[1], v.text[2], v.text[3]];
      assert t[p + 1] == v.text[1] && t[p + 2] == v.text[2] && t[p + 3] == v.text[3];
      assert "null" <= v.text <==> v.text[..4] == "null";
    }
  }

  lemma HeadEnds(ms: Members)
    requires ms.Member? && MembersOk(ms)
    ensures Head(ms) != "" && Head(ms)[|Head(ms)| - 1] != '"'
  {
    var h := Head(ms);
    if ms.mid != "" { assert h[|h| - 1] == ms.mid[|ms.mid| - 1]; } else { assert h[|h| - 1] == ':'; }
  }

  lemma SpotChain(s: Spot)
    requires s.b.Member?
    ensures Text(s, Join(s.f, s.b)) == (s.l + "{" + FrontText(s.f)) + RenderMembers(s.b) + ("}" + s.r)
  {
    JoinText(s.f, s.b);
    hide RenderMembers, FrontText, Join;
    Assoc(s.l + "{", FrontText(s.f), RenderMembers(s.b));
    Assoc(s.l + "{" + FrontText(s.f) + RenderMembers(s.b), "}", s.r);
  }

  lemma MemberValue(t: string, p: nat, b: Members)
    requires b.Member? && MembersOk(b) && At(t, p, RenderMembers(b))
    requires p + |RenderMembers(b)| < |t| && t[p + |RenderMembers(b)|] == '}'
    ensures ValueHere(t, ValuePos(b, p), b.value)
  {
    HeadEnds(b);
    assert |Head(b)| == |b.pre| + |b.key| + 3 + |b.mid|;
    hide RenderMembers, Render, Head, Tail;
    MemberText(t, p, b);
    assert t[p + (|Head(b)| - 1)] == Head(b)[|Head(b)| - 1];
  }

  lemma SpotValue(s: Spot)
    requires s.b.Member? && MembersOk(s.b)
    ensures var p := |s.l| + 1 + |FrontText(s.f)|;
            ValueHere(Text(s, Join(s.f, s.b)), ValuePos(s.b, p), s.b.value)
  {
    hide RenderMembers, FrontText, Join, MembersOk, ValueHere;
    var left, rm, right := s.l + "{" + FrontText(s.f), RenderMembers(s.b), "}" + s.r;
    SpotChain(s);
    AtMiddle(left, rm, right);
    MemberValue(left + rm + right, |left|, s.b);
  }

  lemma InnerFrom(ms: Members, id1: string, inner: Members)
    requires HasKey(ms, id1)
    ensures HasKey(WithInner(ms, id1, inner), id1) && From(WithInner(ms, id1, inner), id1).value == Obj(inner)
  {
    Parts(ms, id1);
    var b := From(ms, id1);
    FromJoin(Ahead(ms, id1), b.(value := Obj(inner)), id1);
    JoinFind(Ahead(ms, id1), b.(value := Obj(inner)), id1);
  }

  lemma NestingInner(ms: Members, id1: string)
    requires HasKey(ms, id1) && From(ms, id1).value.Obj?
    ensures MemberNesting(ms) >= 1 + MemberNesting(From(ms, id1).value.members)
  {
    if ms.key != id1 { NestingInner(ms.more, id1); }
  }

  /** After removal the name stands for nothing, and the document can be edited again. */
  lemma AfterRemoval(ms: Members, n: Name)
    requires Get(ms, n).Some? && Usable(ms, n) && Clear(ms, n) && Good(ms)
    ensures var w := Without(ms, n);
            && Usable(w, n) && Clear(w, n) && Good(w) && MemberNesting(w) <= MemberNesting(ms)
            && (n.Two? ==> HasKey(w, n.id1)) && (Get(w, n).None? <==> Single(ms, n))
  {
    match n
    case Whole(id) =>
      GoodRemove(ms, id);
      FindFrom(ms, id);
      RemoveOnce(ms, id);
      FindFrom(Remove(ms, id), id);
    case Two(id1, id2) =>
      FindFrom(ms, id1);
      InnerRemoval(ms, id1, id2);
  }

  /** A key is gone after one removal exactly if it was not repeated. */
  lemma RemoveOnce(ms: Members, key: string)
    requires HasKey(ms, key)
    ensures HasKey(Remove(ms, key), key) <==> !Once(ms, key)
  {
    var f, b := Ahead(ms, key), From(ms, key);
    Parts(ms, key);
    JoinFind(f, Trim(More(b)), key);
    OnceJoin(f, b, key);
    AbsentIsOnce(f, key);
  }

  lemma InnerRemoval(ms: Members, id1: string, id2: string)
    requires HasKey(ms, id1) && From(ms, id1).value.Obj? && Once(ms, id1) && Good(ms)
    ensures var w := WithInner(ms, id1, Remove(From(ms, id1).value.members, id2));
            && HasKey(w, id1) && From(w, id1).value.Obj? && Find2(w, id1, id2).None?
            && Once(w, id1) && Good(w) && MemberNesting(w) <= MemberNesting(ms)
  {
    var inner := From(ms, id1).value.members;
    var rest := Remove(inner, id2);
    InnerEditable(ms, id1);
    UniqueEdits(inner, id2, Prim(""));
    EditableParts(inner, id2);
    JoinLayout(Ahead(inner, id2), Trim(More(From(inner, id2))));
    InnerFrom(ms, id1, rest);
    FindFrom(WithInner(ms, id1, rest), id1);
    FindFrom(rest, id2);
    OnceInner(ms, id1, rest, id1);
    GoodInner(ms, id1, rest);
    NestingInner(ms, id1);
    NestingRemove(inner, id2);
  }

  lemma {:induction false} NestingRemove(ms: Members, key: string)
    ensures MemberNesting(Remove(ms, key)) <= MemberNesting(ms)
  {
    if ms.Member? && ms.key != key { NestingRemove(ms.more, key); }
  }

  lemma TokenSize(v: Value, p: nat)
    ensures var t := Tokens(v, p)[0];
            p <= t.start <= t.end && t.end - t.start + (if v.Str? then 2 else 0) == |Render(v)|
  {
  }

  lemma CutPos(s: Spot)
    requires s.b.Member? && Editable(s.b)
    ensures var site := SiteOf(s.l, s.f, s.b, s.r);
            SiteOk(site) && |LeftKept(site)| == InsertPos(s.l, s.f, Trim(s.b.more))
  {
    CutIsRemoval(s.l, s.f, s.b, s.r);
    if s.b.more.Member? { CutBefore(s.l, s.f, s.b, s.r); } else { CutLast(s.l, s.f, s.b, s.r); }
  }

  /** Inserting at a spot, before its next member or at the end of the object. */
  lemma InsertText(l: string, f: Members, m: Members, r: string, key: string, v: Value)
    requires Editable(f) && Editable(m)
    ensures Inserts(ObjectText(l, Join(f, m), r), InsertPos(l, f, m), key, v,
            ObjectText(l, Join(f, First(m, key, v)), r))
  {
    EditableOk(f);
    if m.Member? {
      assert Before(m.pre) && InsertPos(l, f, m) == |l| + 1 + |FrontText(f)|;
      hide *;
      InsertBefore(l, f, m, r, key, v, InsertPos(l, f, m));
    } else {
      JoinNothing(f);
      assert m == NoMember && Append(f, key, v) == Join(f, First(m, key, v))
             && InsertPos(l, f, m) == |l| + 1 + |RenderMembers(f)|;
      hide *;
      InsertLast(l, f, r, key, v, InsertPos(l, f, m));
    }
  }

  /** The key a setter writes: the whole name, or what follows the dot. */
  predicate Writable(name: string, n: Name) {
    && StringOk(name) && '\0' !in name
    && (n.Two? ==> n.id2 == Suffix(name) && StringOk(n.id2) && '\0' !in n.id2)
  }

  /** Setting keeps the document well formed. */
  lemma GoodWith(ms: Members, name: string, n: Name, v: Value)
    requires Good(ms) && Usable(ms, n) && StringOk(name) && Writable(name, n) && NewOk(v) && (n.Whole? ==> n.id == name)
    ensures Good(With(ms, name, n, v)) && MemberNesting(With(ms, name, n, v)) <= Max(MemberNesting(ms), 1 + Nesting(v))
  {
    assert n.Two? ==> StringOk(n.id2);
    hide Good, NewOk, MemberNesting, Nesting, StringOk, Replace, Append, WithInner, SetInner, Writable;
    if n.Two? && HasKey(ms, n.id1) {
      GoodSub(ms, n.id1, n.id2, v);
    } else if n.Whole? && HasKey(ms, n.id) {
      GoodReplace(ms, n.id, v);
    } else {
      GoodAppend(ms, name, v);
    }
  }

  lemma GoodAppend(ms: Members, name: string, v: Value)
    requires Good(ms) && StringOk(name) && NewOk(v)
    ensures Good(Append(ms, name, v)) && MemberNesting(Append(ms, name, v)) <= Max(MemberNesting(ms), Nesting(v))
  {
    JoinNothing(ms);
    GoodInsert(ms, NoMember, name, v);
  }

  lemma GoodReplace(ms: Members, id: string, v: Value)
    requires Good(ms) && StringOk(id) && NewOk(v)
    ensures Good(Replace(ms, id, v)) && MemberNesting(Replace(ms, id, v)) <= Max(MemberNesting(ms), Nesting(v))
  {
    GoodParts(ms, id);
    var f, m := Ahead(ms, id), Trim(More(From(ms, id)));
    GoodTrim(More(From(ms, id)));
    GoodInsert(f, m, id, v);
    GoodJoin(f, m);
  }

  lemma EditableSet(inner: Members, key: string, v: Value)
    requires Editable(inner) && Unique(inner) && StringOk(key) && NewOk(v)
    ensures Editable(SetInner(inner, key, v)) && Unique(SetInner(inner, key, v))
    ensures MemberNesting(SetInner(inner, key, v)) <= Max(MemberNesting(inner), Nesting(v))
  {
    UniqueEdits(inner, key, v);
    EditableParts(inner, key);
    JoinLayout(Ahead(inner, key), First(Trim(More(From(inner, key))), key, v));
    NestingReplace(inner, key, v);
  }

  lemma GoodSub(ms: Members, id1: string, id2: string, v: Value)
    requires Good(ms) && HasKey(ms, id1) && From(ms, id1).value.Obj? && StringOk(id2) && NewOk(v)
    ensures var w := WithInner(ms, id1, SetInner(From(ms, id1).value.members, id2, v));
            Good(w) && MemberNesting(w) <= Max(MemberNesting(ms), 1 + Nesting(v))
  {
    hide *;
    var inner := From(ms, id1).value.members;
    InnerEditable(ms, id1);
    NestingInner(ms, id1);
    EditableSet(inner, id2, v);
    var x := SetInner(inner, id2, v);
    EditableOk(x);
    GoodInner(ms, id1, x);
    MaxBound(MemberNesting(ms), MemberNesting(inner), MemberNesting(x), Nesting(v));
  }

  lemma MaxBound(a: nat, b: nat, c: nat, d: nat)
    requires a >= 1 + b && c <= Max(b, d)
    ensures Max(a, 1 + c) <= Max(a, 1 + d)
  {
  }

  lemma {:induction false} NestingReplace(ms: Members, key: string, v: Value)
    ensures HasKey(ms, key) ==> MemberNesting(Replace(ms, key, v)) <= Max(MemberNesting(ms), Nesting(v))
  {
    if ms.Member? && ms.key != key { NestingReplace(ms.more, key, v); }
  }

  /** In document `m`, inserting a member at the spot `s` makes it `w`, and a lookup sees
      that the member is missing. */
  predicate SpotReady(m: Members, name: string, n: Name, v: Value, s: Spot, w: Members) {
    && s.b.Member? && Editable(s.f) && Editable(Trim(s.b.more))
    && Render(Obj(m)) == ObjectText(s.l, Join(s.f, Trim(s.b.more)), s.r)
    && Render(Obj(w)) == ObjectText(s.l, Join(s.f, First(Trim(s.b.more), if n.Two? then n.id2 else name, v)), s.r)
    && LookupIn(Obj(m), n, false) == if n.Two? then OnlyId1 else Missing
  }

  /** Inserting at the removed spot is setting. */
  lemma SpotSet(ms: Members, name: string, n: Name, v: Value)
    requires Get(ms, n).Some? && Usable(ms, n) && Good(ms) && Clear(ms, n) && Single(ms, n)
             && (n.Whole? ==> n.id == name)
    ensures SpotReady(Without(ms, n), name, n, v, SpotOf(ms, n), With(ms, name, n, v))
  {
    SpotText(ms, n);
    SpotWith(ms, name, n, v);
    AfterRemoval(ms, n);
    NotFound(Without(ms, n), n);
    SpotKey(ms, n);
  }

  /** The same for the member that the lookup of `n` strays to. */
  lemma StraySet(ms: Members, name: string, n: Name, v: Value)
    requires n.Two? && Strays(ms, n.id1, n.id2) && Good(ms) && Searchable(ms, n)
    ensures var t := Target(ms, n);
            && Get(ms, t).Some? && Usable(ms, t) && t.Two? && t.id2 == n.id2
            && SpotReady(Without(ms, t), name, n, v, SpotOf(ms, t), With(ms, name, t, v))
            && LookupIn(Obj(ms), n, false) == LookupIn(Obj(ms), t, false)
  {
    hide *;
    var t := Target(ms, n);
    TargetIs(ms, n);
    SearchableIs(ms, n);
    StrayIs(ms, n.id1, n.id2);
    HolderParts(ms, t.id1, n.id2);
    HolderGet(ms, t);
    SpotSet(ms, name, t, v);
    var rest := Remove(From(ms, t.id1).value.members, n.id2);
    InnerEditable(ms, t.id1);
    UniqueEdits(From(ms, t.id1).value.members, n.id2, v);
    StrayGone(ms, n.id1, n.id2, rest);
    WithoutTwo(ms, t);
    AfterRemoval(ms, t);
    OnceInner(ms, t.id1, rest, n.id1);
    ClearIs(Without(ms, t), n);
    LostIs(Without(ms, t), n);
    LostLookup(Without(ms, t), n);
    SpotFor(Without(ms, t), name, t, n, v, SpotOf(ms, t), With(ms, name, t, v));
    StrayLookup(ms, n, t.id1);
  }

  lemma TargetIs(ms: Members, n: Name)
    requires n.Two?
    ensures Target(ms, n) == if Strays(ms, n.id1, n.id2) then Two(StrayKey(ms, n.id1, n.id2), n.id2) else n
  {
  }

  lemma SearchableIs(ms: Members, n: Name)
    requires Searchable(ms, n) && n.Two?
    ensures Once(ms, n.id1) && Clear(ms, n) && Clear(ms, Target(ms, n))
    ensures Strays(ms, n.id1, n.id2) ==> Once(ms, StrayKey(ms, n.id1, n.id2))
  {
  }

  lemma ClearIs(ms: Members, n: Name)
    requires n.Two? && Once(ms, n.id1)
    ensures Clear(ms, n)
  {
  }

  lemma LostIs(ms: Members, n: Name)
    requires n.Two? && HasKey(ms, n.id1) && !From(ms, n.id1).value.Obj? && !Strays(ms, n.id1, n.id2)
    ensures Lost(ms, n)
  {
  }

  lemma WithoutTwo(ms: Members, t: Name)
    requires t.Two? && Get(ms, t).Some? && Usable(ms, t) && HasKey(ms, t.id1) && From(ms, t.id1).value.Obj?
    ensures Without(ms, t) == WithInner(ms, t.id1, Remove(From(ms, t.id1).value.members, t.id2))
  {
  }

  lemma HolderGet(ms: Members, t: Name)
    requires t.Two? && Holder(ms, t.id1, t.id2)
    ensures Get(ms, t).Some? && Usable(ms, t)
  {
    FindFrom(ms, t.id1);
    FindHas(From(ms, t.id1).value.members, t.id2);
  }

  lemma SpotFor(m: Members, name: string, t: Name, n: Name, v: Value, s: Spot, w: Members)
    requires SpotReady(m, name, t, v, s, w) && t.Two? && n.Two? && t.id2 == n.id2
             && LookupIn(Obj(m), n, false) == OnlyId1
    ensures SpotReady(m, name, n, v, s, w)
  {
    hide LookupIn, ObjectText, Render, Editable;
  }

  lemma SpotKey(ms: Members, n: Name)
    requires Get(ms, n).Some? && Usable(ms, n)
    ensures var s := SpotOf(ms, n); s.b.Member? && !n.Bad? && s.b.key == if n.Two? then n.id2 else n.id
  {
    match n
    case Whole(id) => FindFrom(ms, id);
    case Two(id1, id2) =>
      FindFrom(ms, id1);
      FindFrom(From(ms, id1).value.members, id2);
  }

  /** Written into an object, the new member is its first. */
  lemma IntoObject(ms: Members, id1: string, id2: string, v: Value)
    requires Good(ms) && HasKey(ms, id1) && From(ms, id1).value.Obj?
    ensures Into(ms, id1, id2, v) == Render(Obj(WithInner(ms, id1, First(From(ms, id1).value.members, id2, v))))
  {
    var l, inner, r := InnerLeft(ms, id1), From(ms, id1).value.members, InnerRight(ms, id1);
    assert Editable(NoMember) && Join(NoMember, inner) == inner
           && Join(NoMember, First(inner, id2, v)) == First(inner, id2, v);
    InnerBrace(ms, id1, inner);
    hide *;
    GoodParses(ms);
    InnerEditable(ms, id1);
    WithSame(ms, id1);
    InnerText(ms, id1, inner);
    InnerText(ms, id1, First(inner, id2, v));
    InsertText(l, NoMember, inner, r, id2, v);
    Placed(ms, id1);
    IsInserted(ms, id1, id2, v);
    InsertsIs(Render(Obj(ms)), IntoPos(ms, id1), id2, v, ObjectText(l, First(inner, id2, v), r));
  }

  lemma InsertsIs(t: string, pos: nat, key: string, v: Value, u: string)
    requires Inserts(t, pos, key, v, u)
    ensures 0 < pos < |t| && Inserted(t, pos, NewText(key, v)) == u
  {
  }

  lemma InnerBrace(ms: Members, id1: string, m: Members)
    requires HasKey(ms, id1) && From(ms, id1).value.Obj?
    ensures InsertPos(InnerLeft(ms, id1), NoMember, m) == IntoPos(ms, id1)
  {
    InnerStart(ms, id1);
    PlaceOf(ms, id1);
  }

  /** A name that stands for nothing goes to the end of the document, or to the start of
      the inner object that its first part names. */
  lemma NewSpot(ms: Members, name: string, n: Name, v: Value)
    requires Get(ms, n).None? && Usable(ms, n) && Good(ms) && (n.Whole? ==> n.id == name)
    ensures n.Two? && HasKey(ms, n.id1) ==>
              MembersOk(ms) && From(ms, n.id1).value.Obj?
                  && Into(ms, n.id1, n.id2, v) == Render(Obj(With(ms, name, n, v)))
    ensures !(n.Two? && HasKey(ms, n.id1)) ==>
              Render(Obj(With(ms, name, n, v))) == ObjectText("", Join(ms, First(NoMember, name, v)), "")
  {
    if n.Two? && HasKey(ms, n.id1) {
      var inner := From(ms, n.id1).value.members;
      FindFrom(ms, n.id1);
      FindFrom(inner, n.id2);
      hide Into, Render;
      IntoObject(ms, n.id1, n.id2, v);
    } else {
      RenderObj(Append(ms, name, v));
      if n.Whole? { FindFrom(ms, n.id); }
    }
  }

  lemma MarkStart(ts: seq<Token>, jt: int, b: Members, p: nat)
    requires Marks(ts, jt, b, p)
    ensures 0 < jt < |ts| && ts[jt].start == ValuePos(b, p) + if b.value.Str? then 1 else 0
  {
  }

  // ---- what a set does to the values --------------------------------------------------

  lemma {:induction false} InnerEntries(ms: Members, id1: string, inner: Members)
    requires HasKey(ms, id1)
    ensures var i := |Entries(Ahead(ms, id1))|;
            i < |Entries(ms)| && Entries(ms)[i].0 == id1
                && Entries(WithInner(ms, id1, inner)) == Entries(ms)[i := (id1, Obj(inner))]
  {
    if ms.key != id1 { InnerEntries(ms.more, id1, inner); }
  }

  /** A value set can be read back, except where a two-part name has no object to go to:
      then it ends up under the whole name, where no lookup finds it. */
  lemma SetThenGet(ms: Members, name: string, n: Name, v: Value)
    requires Usable(ms, n) && (n.Whole? ==> n.id == name) && (n.Two? && !HasKey(ms, n.id1) ==> n.id1 != name)
    ensures Get(With(ms, name, n, v), n) == Some(v) <==> !n.Bad? && (n.Two? ==> HasKey(ms, n.id1))
  {
    match n
    case Bad =>
    case Whole(id) =>
      if HasKey(ms, id) { ReplaceFind(ms, id, v, id); } else { JoinFind(ms, One(id, v), id); }
    case Two(id1, id2) =>
      if HasKey(ms, id1) {
        var inner := From(ms, id1).value.members;
        InnerFrom(ms, id1, SetInner(inner, id2, v));
        FindFrom(With(ms, name, n, v), id1);
        if HasKey(inner, id2) { ReplaceFind(inner, id2, v, id2); }
      } else {
        JoinFind(ms, One(name, v), id1);
        FindHas(ms, id1);
      }
  }

  /** Other members of the document keep their values. */
  lemma SetKeepsOthers(ms: Members, name: string, n: Name, v: Value, k: string)
    requires Usable(ms, n) && (n.Whole? ==> n.id == name) && k != name && (n.Two? ==> k != n.id1)
    ensures Find(With(ms, name, n, v), k) == Find(ms, k)
  {
    JoinFind(ms, One(name, v), k);
    FindHas(ms, k);
    if n.Whole? && HasKey(ms, n.id) { ReplaceFind(ms, n.id, v, k); }
    if n.Two? && HasKey(ms, n.id1) {
      var b := From(ms, n.id1);
      Parts(ms, n.id1);
      var inner := SetInner(b.value.members, n.id2, v);
      JoinFind(Ahead(ms, n.id1), b, k);
      JoinFind(Ahead(ms, n.id1), b.(value := Obj(inner)), k);
    }
  }

  /** So do the other members of an inner object. */
  lemma SetKeepsInner(ms: Members, name: string, id1: string, id2: string, v: Value, k: string)
    requires Usable(ms, Two(id1, id2)) && HasKey(ms, id1) && k != id2
    ensures Find2(With(ms, name, Two(id1, id2), v), id1, k) == Find2(ms, id1, k)
  {
    var inner := From(ms, id1).value.members;
    InnerFrom(ms, id1, SetInner(inner, id2, v));
    FindFrom(With(ms, name, Two(id1, id2), v), id1);
    FindFrom(ms, id1);
    if HasKey(inner, id2) { ReplaceFind(inner, id2, v, k); }
  }

  /** Keys stay unique, exactly when a value that cannot be found is not set twice. */
  lemma SetKeepsUnique(ms: Members, name: string, n: Name, v: Value)
    requires Usable(ms, n) && Unique(ms) && (n.Whole? ==> n.id == name)
    ensures Unique(With(ms, name, n, v)) <==> !(HasKey(ms, name) && (n.Bad? || (n.Two? && !HasKey(ms, n.id1))))
  {
    UniqueEdits(ms, name, v);
    if n.Two? && HasKey(ms, n.id1) { UniqueInner(ms, n.id1, SetInner(From(ms, n.id1).value.members, n.id2, v)); }
  }

  /** Where the value of `id1` is written into: one character after its token starts. */
  lemma IntoToken(ms: Members, id1: string, id2: string)
    requires HasKey(ms, id1)
    ensures var jt, ts := LookupIn(Obj(ms), Two(id1, id2), true), Tokens(Obj(ms), 0);
            jt.Found? && jt.jt < |ts| && ts[jt.jt].start + 1 == IntoPos(ms, id1)
  {
    hide *;
    var b, p := From(ms, id1), 1 + |FrontText(Ahead(ms, id1))|;
    PlaceOf(ms, id1);
    IndexMarks(ms, id1, 1);
    FirstPart(ms, id1, id2);
    RootMarks(ms, Index(ms, id1).value, b, p);
    MarkStart(Tokens(Obj(ms), 0), 1 + Index(ms, id1).value, b, p);
  }

  lemma FirstPart(ms: Members, id1: string, id2: string)
    requires Index(ms, id1).Some?
    ensures LookupIn(Obj(ms), Two(id1, id2), true) == Found(1 + Index(ms, id1).value)
  {
  }

  /** Setting `a.x` where `a` is 12, and where it is 5 and the last member. */
  lemma SetIntoNumbers()
    ensures Into(One("a", Prim("12")), "a", "x", Prim("7")) == "{\"a\":1\"x\":7,2}"
    ensures Into(One("a", Prim("5")), "a", "x", Prim("7")) == "{\"a\":5,\"x\":7}"
  {
    assert Render(Obj(One("a", Prim("12")))) == "{\"a\":12}";
    assert Render(Obj(One("a", Prim("5")))) == "{\"a\":5}";
    assert NewText("x", Prim("7")) == "\"x\":7";
  }

  lemma CutFacts(ms: Members, n: Name, jt: nat)
    requires Good(ms) && Clear(ms, n) && Usable(ms, n) && Get(ms, n).Some? && LookupIn(Obj(ms), n, false) == Found(jt)
             && Nesting(Obj(ms)) < 32
    ensures var s, w := SpotOf(ms, n), Without(ms, n);
            && s.b.Member? && Editable(s.b) && Good(w) && Nesting(Obj(w)) < 32 && s.b.value == Get(ms, n).value
            && Render(Obj(ms)) == Text(s, Join(s.f, s.b)) && Render(Obj(w)) == Text(s, Join(s.f, Trim(s.b.more)))
            && Marks(Tokens(Obj(ms), 0), jt, s.b, |s.l| + 1 + |FrontText(s.f)|)
            && ValueHere(Text(s, Join(s.f, s.b)), ValuePos(s.b, |s.l| + 1 + |FrontText(s.f)|), s.b.value)
  {
    hide *;
    var s := SpotOf(ms, n);
    NestingOf(ms);
    NestingOf(Without(ms, n));
    SpotText(ms, n);
    EditableOk(s.b);
    SpotMarks(ms, n);
    SpotValue(s);
    AfterRemoval(ms, n);
  }

  /** The text with a member written into the value of `id1`; in an object, this is the
      document `w`. */
  predicate CanEnter(m: Members, n: Name, w: Members, v: Value) {
    && n.Two? && HasKey(m, n.id1) && MembersOk(m)
    && (From(m, n.id1).value.Obj? ==> Good(w) && Nesting(Obj(w)) < 32 && Into(m, n.id1, n.id2, v) == Render(Obj(w)))
  }

  lemma EnterIf(m: Members, n: Name, w: Members, v: Value)
    requires n.Two? && HasKey(m, n.id1) ==>
               MembersOk(m) && Good(w) && Nesting(Obj(w)) < 32 && Into(m, n.id1, n.id2, v) == Render(Obj(w))
    ensures n.Two? && HasKey(m, n.id1) ==> CanEnter(m, n, w, v)
  {
  }

  lemma EnterToken(ms: Members, n: Name, w: Members, v: Value)
    requires CanEnter(ms, n, w, v)
    ensures var jt, ts, t := LookupIn(Obj(ms), n, true), Tokens(Obj(ms), 0), Render(Obj(ms));
            && n.Two? && HasKey(ms, n.id1) && MembersOk(ms) && 0 < IntoPos(ms, n.id1) < |t|
            && jt.Found? && jt.jt < |ts| && ts[jt.jt].start + 1 == IntoPos(ms, n.id1)
            && Into(ms, n.id1, n.id2, v) == Inserted(t, IntoPos(ms, n.id1), NewText(n.id2, v))
    ensures From(ms, n.id1).value.Obj? ==>
            Good(w) && Nesting(Obj(w)) < 32 && Into(ms, n.id1, n.id2, v) == Render(Obj(w))
  {
    hide Render, Tokens, LookupIn, IntoPos, ValueOf, Inserted, NewText, Into, MembersOk;
    IntoToken(ms, n.id1, n.id2);
    Placed(ms, n.id1);
    IsInserted(ms, n.id1, n.id2, v);
  }

  lemma NewFacts(ms: Members, name: string, n: Name, v: Value)
    requires Good(ms) && Clear(ms, n) && Usable(ms, n) && Writable(name, n) && NewOk(v) && Get(ms, n).None?
             && (n.Whole? ==> n.id == name)
    requires Nesting(v) < 30 && Nesting(Obj(ms)) < 32
    ensures var w, jt := With(ms, name, n, v), LookupIn(Obj(ms), n, false);
            && Good(w) && Nesting(Obj(w)) < 32 && jt == (if n.Two? && HasKey(ms, n.id1) then OnlyId1 else Missing)
            && (jt == Missing ==> Render(Obj(w)) == ObjectText("", Join(ms, First(NoMember, name, v)), ""))
            && (jt == OnlyId1 ==> CanEnter(ms, n, w, v))
  {
    hide *;
    NestingOf(ms);
    NestingOf(With(ms, name, n, v));
    WritableName(name, n);
    NewSpot(ms, name, n, v);
    GoodWith(ms, name, n, v);
    NotFound(ms, n);
    MaxBelow(MemberNesting(ms), 1 + Nesting(v), 31);
    EnterIf(ms, n, With(ms, name, n, v), v);
  }

  /** What a lookup finds is the member that a setter works on. */
  lemma TargetLookup(ms: Members, n: Name)
    requires Searchable(ms, n) && Good(ms)
    ensures var t, jt := Target(ms, n), LookupIn(Obj(ms), n, false);
            && (Get(ms, t).Some? <==> jt.Found?)
            && (Get(ms, t).Some? ==> Usable(ms, t) && jt == LookupIn(Obj(ms), t, false) && !Lost(ms, n))
            && (Get(ms, t).None? ==> t == n && !(n.Two? && Strays(ms, n.id1, n.id2)))
  {
    assert Clear(ms, n) && Clear(ms, Target(ms, n));
    hide *;
    LostOrUsable(ms, n);
    TargetSame(ms, n);
    if n.Two? && Strays(ms, n.id1, n.id2) {
      TargetIs(ms, n);
      StraySet(ms, "", n, Prim(""));
      StrayNotLost(ms, n);
      SpotMarks(ms, Target(ms, n));
    } else if Usable(ms, n) {
      if Get(ms, n).Some? { SpotMarks(ms, n); } else { NotFound(ms, n); }
    } else {
      LostLookup(ms, n);
      LostMissing(ms, n);
    }
  }

  lemma TargetSame(ms: Members, n: Name)
    ensures !(n.Two? && Strays(ms, n.id1, n.id2)) ==> Target(ms, n) == n
  {
  }

  lemma StrayNotLost(ms: Members, n: Name)
    requires n.Two? && Strays(ms, n.id1, n.id2)
    ensures !Lost(ms, n)
  {
  }

  lemma LostMissing(ms: Members, n: Name)
    requires Lost(ms, n)
    ensures Get(ms, n).None?
  {
    FindFrom(ms, n.id1);
  }

  /** What changing a member needs. */
  lemma UpdateFacts(ms: Members, name: string, n: Name, v: Value)
    requires Good(ms) && Searchable(ms, n) && Single(ms, n) && Writable(name, n) && NewOk(v)
             && Get(ms, Target(ms, n)).Some?
    requires Nesting(v) < 30 && Nesting(Obj(ms)) < 32 && (n.Whole? ==> n.id == name)
    ensures var t := Target(ms, n);
            && Usable(ms, t)
            && var w := With(ms, name, t, v);
            SpotReady(Without(ms, t), name, n, v, SpotOf(ms, t), w) && Good(w) && Nesting(Obj(w)) < 32
  {
    assert Clear(ms, Target(ms, n));
    hide *;
    TargetLookup(ms, n);
    var t := Target(ms, n);
    if n.Two? && Strays(ms, n.id1, n.id2) {
      StraySet(ms, name, n, v);
      WritableAlso(name, n, t);
    } else {
      TargetSame(ms, n);
    }
    SetFacts(ms, name, t, v);
  }

  /** A name not repeated: one removal, after which nothing is found. */
  lemma OnceUpdated(m: Members, name: string, n: Name, v: Value, setter: Setter)
    requires Searchable(m, n) && Single(m, n) && Get(m, Target(m, n)).Some? && Usable(m, Target(m, n))
    requires SpotReady(Without(m, Target(m, n)), name, n, v, SpotOf(m, Target(m, n)), With(m, name, Target(m, n), v))
    ensures var t := Target(m, n);
            && Put(m, name, t, v) == With(m, name, t, v)
            && (MayReplace(m, t, setter) <==> Replaceable(setter, Get(m, t).value))
            && !LookupIn(Obj(Without(m, t)), n, false).Found?
  {
    TargetSame(m, n);
    assert n.Two? && Strays(m, n.id1, n.id2) ==> Target(m, n).Two?;
    hide Without, SpotOf, With, Put, MayReplace, LookupIn, ObjectText, Render, Editable, Target, Once;
    PutIsWith(m, name, Target(m, n), v, setter);
  }

  /** A repeated one: after the removal it is still there. */
  lemma RepeatedFacts(m: Members, name: string, n: Name, v: Value, setter: Setter)
    requires Good(m) && Searchable(m, n) && !Single(m, n) && Get(m, Target(m, n)).Some?
    ensures var w := Without(m, n);
            && n.Whole? && Target(m, n) == n && Target(w, n) == n && Get(m, n).Some? && Usable(m, n)
            && Searchable(w, n) && Get(w, n).Some? && |Entries(w)| < |Entries(m)| && Usable(w, n)
            && Put(m, name, n, v) == Put(w, name, n, v)
            && (MayReplace(m, n, setter) <==> Replaceable(setter, Get(m, n).value) && MayReplace(w, n, setter))
            && LookupIn(Obj(w), n, false).Found?
  {
    TargetSame(m, n);
    PutAgain(m, name, n, v, setter);
    var w := Remove(m, n.id);
    TargetSame(w, n);
    GoodRemove(m, n.id);
    hide Put, MayReplace, LookupIn, Remove, Good, Get, Entries;
    TargetLookup(w, n);
  }

  lemma PutNew(ms: Members, name: string, n: Name, v: Value, setter: Setter)
    requires Get(ms, n).None?
    ensures MayReplace(ms, n, setter) && (Usable(ms, n) ==> Put(ms, name, n, v) == With(ms, name, n, v))
  {
    if n.Whole? { FindFrom(ms, n.id); }
  }

  lemma WritableAlso(name: string, n: Name, t: Name)
    requires Writable(name, n) && n.Two? && t.Two? && t.id2 == n.id2
    ensures Writable(name, t)
  {
  }

  /** What creating a member needs, in any document. */
  lemma CreateFacts(ms: Members, name: string, n: Name, v: Value)
    requires Good(ms) && Clear(ms, n) && Writable(name, n) && NewOk(v) && Get(ms, n).None?
             && (n.Whole? ==> n.id == name)
    requires Nesting(v) < 30 && Nesting(Obj(ms)) < 32 && !(n.Two? && Strays(ms, n.id1, n.id2))
    ensures Lost(ms, n) ==> LookupIn(Obj(ms), n, false) == OnlyId1 && CanEnter(ms, n, ms, v)
    ensures !Lost(ms, n) ==>
              && Usable(ms, n)
              && var w, jt := With(ms, name, n, v), LookupIn(Obj(ms), n, false);
              && Good(w) && Nesting(Obj(w)) < 32
              && (if jt == OnlyId1 then CanEnter(ms, n, w, v) && From(ms, n.id1).value.Obj?
                  else Render(Obj(w)) == ObjectText("", Join(ms, First(NoMember, name, v)), ""))
  {
    LostOrUsable(ms, n);
    GoodParses(ms);
    hide *;
    if Lost(ms, n) {
      LostLookup(ms, n);
      LostEnters(ms, n, v);
    } else {
      NewFacts(ms, name, n, v);
    }
  }

  lemma LostEnters(ms: Members, n: Name, v: Value)
    requires Lost(ms, n) && MembersOk(ms)
    ensures CanEnter(ms, n, ms, v)
  {
  }

  lemma LostOrUsable(ms: Members, n: Name)
    ensures (n.Two? && Strays(ms, n.id1, n.id2)) || (Lost(ms, n) <==> !Usable(ms, n))
    ensures Usable(ms, n) && n.Two? && HasKey(ms, n.id1) ==> From(ms, n.id1).value.Obj?
  {
    if n.Two? && Usable(ms, n) { UsableDoesNotStray(ms, n.id1, n.id2); }
  }

  lemma WholeName(name: string, noDot: bool)
    ensures var n := NameOf(name, noDot); n.Whole? ==> n.id == name
  {
  }

  lemma NestingOf(ms: Members)
    ensures Nesting(Obj(ms)) == 1 + MemberNesting(ms)
  {
  }

  lemma SetFacts(ms: Members, name: string, n: Name, v: Value)
    requires Good(ms) && Clear(ms, n) && Single(ms, n) && Usable(ms, n) && Writable(name, n) && NewOk(v)
             && Get(ms, n).Some?
             && (n.Whole? ==> n.id == name)
    requires Nesting(v) < 30 && Nesting(Obj(ms)) < 32
    ensures var w := With(ms, name, n, v);
            SpotReady(Without(ms, n), name, n, v, SpotOf(ms, n), w) && Good(w) && Nesting(Obj(w)) < 32
  {
    hide *;
    NestingOf(ms);
    NestingOf(With(ms, name, n, v));
    WritableName(name, n);
    SpotSet(ms, name, n, v);
    GoodWith(ms, name, n, v);
    MaxBelow(MemberNesting(ms), 1 + Nesting(v), 31);
  }

  lemma WritableKey(name: string, n: Name)
    requires Writable(name, n)
    ensures n.Two? ==> n.id2 == Suffix(name) && '\0' !in Suffix(name)
  {
  }

  lemma WritableName(name: string, n: Name)
    requires Writable(name, n)
    ensures StringOk(name)
  {
  }

  lemma MaxBelow(a: nat, b: nat, c: nat)
    requires a < c && b < c
    ensures Max(a, b) < c
  {
  }

  lemma GoodParses(ms: Members)
    requires Good(ms)
    ensures ShapedMembers(ms) && MembersOk(ms) && Shaped(Obj(ms)) && ValueOk(Obj(ms))
  {
    MemberWords(ms);
    hide Layout, MembersOk, ShapedMembers, HasKey;
  }

  lemma GoodTokens(ms: Members)
    requires Good(ms)
    ensures Parse(Render(Obj(ms)), Parser(0, [], -1)) == Tokenized(Tokens(Obj(ms), 0))
  {
    GoodParses(ms);
    assert Blank("");
    hide *;
    ParseRender(Obj(ms), "", "");
    assert "" + Render(Obj(ms)) + "" == Render(Obj(ms));
  }

  class Config {
    var json: array<char>
    var tokens: seq<Token>
    ghost var ms: Members

    /** The buffer holds the text of the document, and the tokens are those of the text. */
    ghost predicate Valid()
      reads this, json
    {
      && Good(ms) && Nesting(Obj(ms)) < 32
      && Buffered(json, Render(Obj(ms))) && tokens == Tokens(Obj(ms), 0)
    }

    /** `jsmn_parse` on the buffer. */
    method Tokenize(ghost t: string) returns (r: Outcome)
      requires Buffered(json, t)
      ensures r == Parse(t, Parser(0, [], -1))
    {
      var len := Strlen(json, t);
      var js := json[..len];
      assert js == t;
      var p := Parser(0, [], -1);
      while p.pos < len
        invariant Jsmn.Valid(t, p) && Parse(t, p) == Parse(t, Parser(0, [], -1))
        decreases |t| - p.pos
      {
        var turn := Turn(js, p);
        if turn.Stop? { return Failed(turn.code); }
        p := turn.p;
      }
      r := if LastOpen(p.toks, |p.toks|, true) != -1 then Failed(Part) else Tokenized(p.toks);
    }

    /** `_cfg_parse_json` on edited text; false stands for a panic. */
    method Retokenize(ghost t: string) returns (ok: bool)
      requires Buffered(json, t)
      modifies this`tokens
      ensures var r := Parse(t, Parser(0, [], -1)); ok == r.Tokenized? && (ok ==> tokens == r.toks)
    {
      hide Parse;
      var r := Tokenize(t);
      ok := r.Tokenized?;
      if ok { tokens := r.toks; }
    }

    /** The same on text shaped like a document, whose words are primitives or not. */
    method Reparse() returns (ok: bool)
      requires ShapedMembers(ms) && Buffered(json, Render(Obj(ms)))
      modifies this`tokens
      ensures ok == MembersOk(ms) && (ok ==> tokens == Tokens(Obj(ms), 0))
    {
      ParseRender(Obj(ms), "", "");
      assert "" + Render(Obj(ms)) + "" == Render(Obj(ms));
      hide Parse, Render, Tokens;
      ok := Retokenize(Render(Obj(ms)));
    }

    /** `_cfg_realloc_json` with copying. */
    method Realloc(size: nat, ghost t: string)
      requires Buffered(json, t)
      modifies this`json
      ensures Buffered(json, t) && json.Length >= size && json.Length >= old(json.Length)
      ensures json == old(json) || fresh(json)
    {
      if json.Length < size {
        var prev := json;
        BufferedAt(prev, t);
        var a := new char[size];
        var i := 0;
        while prev[i] != '\0'
          invariant i <= |t| && (forall k :: 0 <= k < i ==> a[k] == t[k]) && unchanged(prev)
          decreases |t| - i
        {
          a[i] := prev[i];
          i := i + 1;
        }
        a[i] := '\0';
        assert a[..|t|] == t;
        json := a;
      }
    }

    /** `_cfg_lookup_json`. */
    method LookupName(name: string, noDot: bool, id1Only: bool) returns (r: Lookup)
      requires Valid()
      ensures r == LookupIn(Obj(ms), NameOf(name, noDot), id1Only)
    {
      var text := json[..];
      ghost var t := Render(Obj(ms));
      assert At(text, 0, t) by { BufferedAt(json, t); }
      ItemsOfValue(text, Obj(ms), 0);
      r := LookupJson(json, tokens, name, noDot, id1Only, Obj(ms));
    }

    /** The tests of the remove branch on the first characters of the value: how many quotes
        belong to it, or none if it may not be replaced. */
    method CheckKind(jt: Token, setter: Setter, ghost t: string, ghost v: Value, ghost p: nat)
        returns (skip: Option<nat>)
      requires Buffered(json, t) && ValueHere(t, p, v) && jt == Tokens(v, p)[0]
      ensures skip == if Replaceable(setter, v) then Some(if v.Str? then 2 else 0) else None
    {
      BufferedAt(json, t);
      HereHead(t, p, v);
      if v.Prim? { NullHere(t, p, v); }
      hide StartsNull;
      var c := json[jt.start];
      var own, kind, quotes := false, Primitive, 0;
      match setter {
        case SetInt => own := IsDigit(c) || c == '-';
        case SetFloat => own := IsDigit(c) || c == '-' || c == '.';
        case SetBool => own := c == 't' || c == 'f';
        case SetString => own := json[jt.start - 1] == '"'; kind := String; quotes := 2;
        case SetObject => own := c == '{'; kind := Object;
      }
      if own {
        skip := if jt.kind == kind then Some(quotes) else None;
      } else if json[jt.start] == 'n' && json[jt.start + 1] == 'u' && json[jt.start + 2] == 'l'
          && json[jt.start + 3] == 'l' {
        skip := if jt.kind == Primitive then Some(0) else None;
      } else {
        skip := None;
      }
    }

    /** `_cfg_cut` at a spot. */
    method CutAt(jt: nat, skip: nat, ghost s: Spot) returns (pos: nat)
      requires s.b.Member? && Editable(s.b) && Buffered(json, Text(s, Join(s.f, s.b)))
      requires Marks(tokens, jt, s.b, |s.l| + 1 + |FrontText(s.f)|) && skip == if s.b.value.Str? then 2 else 0
      modifies json
      ensures Buffered(json, Text(s, Join(s.f, Trim(s.b.more)))) && pos == InsertPos(s.l, s.f, Trim(s.b.more))
    {
      ghost var site := SiteOf(s.l, s.f, s.b, s.r);
      SiteIsText(s.l, s.f, s.b, s.r);
      CutIsRemoval(s.l, s.f, s.b, s.r);
      CutPos(s);
      TokenSize(s.b.value, ValuePos(s.b, |s.l| + 1 + |FrontText(s.f)|));
      hide SiteOk, Render, RenderMembers, FrontText, Join, Trim, Tokens, LeftKept, Editable;
      pos := Cut(json, tokens[jt - 1].start, tokens[jt - 1].end, tokens[jt].start, tokens[jt].end, skip, site);
    }

    /** `"key":value` at a spot: the buffer grows to hold it, and `_cfg_ins` puts it in. */
    method InsertAt(pos: nat, key: string, v: Value, ghost l: string, ghost f: Members, ghost m: Members,
        ghost r: string)
      requires Buffered(json, ObjectText(l, Join(f, m), r)) && Editable(f) && Editable(m) && pos == InsertPos(l, f, m)
      requires '\0' !in key && '\0' !in Render(v)
      modifies this`json, json
      ensures Buffered(json, ObjectText(l, Join(f, First(m, key, v)), r)) && (json == old(json) || fresh(json))
    {
      InsertText(l, f, m, r, key, v);
      ghost var t := ObjectText(l, Join(f, m), r);
      assert 0 < pos < |t| && Inserted(t, pos, NewText(key, v)) == ObjectText(l, Join(f, First(m, key, v)), r);
      hide ObjectText, NewText, Join, First, Editable, InsertPos, Inserted, Buffered;
      Insert(pos, key, v, t);
    }

    method Insert(pos: nat, key: string, v: Value, ghost t: string)
      requires Buffered(json, t) && 0 < pos < |t| && '\0' !in key && '\0' !in Render(v)
      modifies this`json, json
      ensures Buffered(json, Inserted(t, pos, NewText(key, v))) && (json == old(json) || fresh(json))
    {
      var sval := NewText(key, v);
      assert '\0' !in sval;
      hide NewText, Inserted, Buffered;
      BufferedLength(json, t);
      Realloc(json.Length + (|sval| + 1) + 1, t);
      Ins(json, pos, sval, t);
    }

    /** The remove branch of a setter: cuts the named member out, and returns where it was;
        none stands for a panic, when the value is of another kind. A name that stands for
        nothing leaves all as it is. */
    method RemoveName(name: string, noDot: bool, setter: Setter) returns (pos: Option<nat>)
      requires Valid() && Searchable(ms, NameOf(name, noDot))
      modifies this`tokens, this`ms, json
      ensures var n := Target(old(ms), NameOf(name, noDot));
              if Get(old(ms), n).None? then pos == Some(0) && ms == old(ms) && Valid()
              else if Replaceable(setter, Get(old(ms), n).value) then Removed(old(ms), n, pos)
              else pos.None? && ms == old(ms)
    {
      TargetLookup(ms, NameOf(name, noDot));
      assert Clear(ms, Target(ms, NameOf(name, noDot)));
      hide Target, LookupIn, Get, Usable, Searchable, Clear;
      var jt := LookupName(name, noDot, false);
      if !jt.Found? { return Some(0); }
      pos := RemoveFound(jt.jt, Target(ms, NameOf(name, noDot)), setter);
    }

    /** The document is `m` without `n`, whose place is `pos`. */
    ghost predicate Removed(m: Members, n: Name, pos: Option<nat>)
      reads this, json
    {
      Get(m, n).Some? && Usable(m, n) &&
      var s := SpotOf(m, n);
      Valid() && ms == Without(m, n) && s.b.Member? && pos == Some(InsertPos(s.l, s.f, Trim(s.b.more)))
    }

    lemma RemovedIs(m: Members, n: Name, pos: Option<nat>)
      requires Removed(m, n, pos)
      ensures Valid() && ms == Without(m, n) && pos.Some?
    {
    }

    method RemoveFound(jt: nat, ghost n: Name, setter: Setter) returns (pos: Option<nat>)
      requires Valid() && Clear(ms, n) && Usable(ms, n) && Get(ms, n).Some?
      requires LookupIn(Obj(ms), n, false) == Found(jt)
      modifies this`tokens, this`ms, json
      ensures if Replaceable(setter, Get(old(ms), n).value) then Removed(old(ms), n, pos)
              else pos.None? && ms == old(ms)
    {
      CutReady(jt, n);
      hide Get, SpotOf, Without, CanCut, Replaceable, Clear, LookupIn, Good, Tokens, Render, Buffered, Usable;
      pos := CutOut(jt, setter, SpotOf(ms, n), Without(ms, n));
    }

    /** At token `jt` stands the value of the member at the spot; without it the document is `w`. */
    ghost predicate CanCut(jt: nat, s: Spot, w: Members)
      reads this, json
    {
      && s.b.Member? && Editable(s.b) && Buffered(json, Text(s, Join(s.f, s.b))) && Good(w) && Nesting(Obj(w)) < 32
      && Marks(tokens, jt, s.b, |s.l| + 1 + |FrontText(s.f)|)
      && ValueHere(Text(s, Join(s.f, s.b)), ValuePos(s.b, |s.l| + 1 + |FrontText(s.f)|), s.b.value)
      && Render(Obj(w)) == Text(s, Join(s.f, Trim(s.b.more)))
    }

    lemma CutReady(jt: nat, n: Name)
      requires Valid() && Clear(ms, n) && Usable(ms, n) && Get(ms, n).Some? && LookupIn(Obj(ms), n, false) == Found(jt)
      ensures var s := SpotOf(ms, n); CanCut(jt, s, Without(ms, n)) && s.b.Member? && s.b.value == Get(ms, n).value
    {
      assert Nesting(Obj(ms)) < 32;
      CutFacts(ms, n, jt);
      hide Get, SpotOf, Without, Clear, LookupIn, Good, Tokens, Render, Usable, Text, Join, Marks, ValueHere, Editable,
           FrontText, Trim, Nesting;
    }

    /** Cuts the member at the spot out, if the setter may. */
    method CutOut(jt: nat, setter: Setter, ghost s: Spot, ghost w: Members) returns (pos: Option<nat>)
      requires CanCut(jt, s, w)
      modifies this`tokens, this`ms, json
      ensures if Replaceable(setter, s.b.value)
              then Valid() && ms == w && pos == Some(InsertPos(s.l, s.f, Trim(s.b.more)))
              else pos.None? && ms == old(ms)
    {
      hide Render, Text, Join, Good, ValueHere, Editable, Replaceable, Trim, FrontText, InsertPos;
      ghost var t, p := Text(s, Join(s.f, s.b)), ValuePos(s.b, |s.l| + 1 + |FrontText(s.f)|);
      var skip := CheckKind(tokens[jt], setter, t, s.b.value, p);
      if skip.None? { return None; }
      var at := CutAt(jt, skip.value, s);
      ms := w;
      GoodParses(w);
      var ok := Reparse();
      pos := Some(at);
    }

    /** The change branch, after the removal: the new member goes where the old one was. */
    method Change(name: string, jt: Lookup, noDot: bool, v: Value, pos: nat, ghost s: Spot, ghost w: Members)
      requires jt == LookupIn(Obj(ms), NameOf(name, noDot), false)
      requires Valid() && SpotReady(ms, name, NameOf(name, noDot), v, s, w)
               && pos == InsertPos(s.l, s.f, Trim(s.b.more))
      requires Good(w) && Nesting(Obj(w)) < 32 && '\0' !in Render(v) && Writable(name, NameOf(name, noDot))
      modifies this, json
      ensures Valid() && ms == w && (json == old(json) || fresh(json))
    {
      hide Good, Editable, Join, Render, ObjectText, InsertPos, LookupIn, NameOf, Nesting;
      var id := if jt == OnlyId1 then Suffix(name) else name;
      PutIn(pos, id, v, s.l, s.f, Trim(s.b.more), s.r, w);
    }

    /** Inserts at a spot and tokenizes the new text. */
    method PutIn(pos: nat, key: string, v: Value, ghost l: string, ghost f: Members, ghost m: Members, ghost r: string,
        ghost w: Members)
      requires Buffered(json, ObjectText(l, Join(f, m), r)) && Editable(f) && Editable(m) && pos == InsertPos(l, f, m)
      requires '\0' !in key && '\0' !in Render(v) && Good(w) && Nesting(Obj(w)) < 32
      requires Render(Obj(w)) == ObjectText(l, Join(f, First(m, key, v)), r)
      modifies this, json
      ensures Valid() && ms == w && (json == old(json) || fresh(json))
    {
      hide Render, ObjectText, Good, Editable, Join, First, InsertPos;
      InsertAt(pos, key, v, l, f, m, r);
      ms := w;
      GoodParses(w);
      var ok := Reparse();
    }

    /** The buffer holds the document with the member written into the value of `id1`; a panic unless
        the tokenizer takes it. */
    ghost predicate Broken(m: Members, n: Name, v: Value, ok: bool)
      reads this, json
    {
      && n.Two? && MembersOk(m) && HasKey(m, n.id1)
      && var r := Parse(Into(m, n.id1, n.id2, v), Parser(0, [], -1));
      && Buffered(json, Into(m, n.id1, n.id2, v)) && ok == r.Tokenized? && (ok ==> tokens == r.toks)
      && (Tame(m, n.id1, n.id2, v) ==> ok == Takes(From(m, n.id1).value))
    }

    /** A name that stands for nothing: to the end of the document, or one character into the
        value of `id1`: first in an object. False stands for a panic. */
    method Create(name: string, noDot: bool, v: Value, jt: Lookup) returns (ok: bool)
      requires var n := NameOf(name, noDot);
               Valid() && Clear(ms, n) && Get(ms, n).None? && !(n.Two? && Strays(ms, n.id1, n.id2)) && Writable(name, n)
                   && jt == LookupIn(Obj(ms), n, false)
      requires NewOk(v) && '\0' !in Render(v) && Nesting(v) < 30
      modifies this, json
      ensures var n := NameOf(name, noDot);
              if Lost(old(ms), n) then Broken(old(ms), n, v, ok)
              else ok && Valid() && Usable(old(ms), n) && ms == With(old(ms), name, n, v)
    {
      ghost var n := NameOf(name, noDot);
      WholeName(name, noDot);
      CreateFacts(ms, name, n, v);
      hide *;
      if jt == OnlyId1 {
        ok := CreateInto(name, noDot, v, if Lost(ms, n) then ms else With(ms, name, n, v));
      } else {
        CreateLast(name, v, With(ms, name, n, v));
        ok := true;
      }
    }

    method CreateLast(name: string, v: Value, ghost w: Members)
      requires Valid() && '\0' !in name && '\0' !in Render(v) && Good(w) && Nesting(Obj(w)) < 32
      requires Render(Obj(w)) == ObjectText("", Join(ms, First(NoMember, name, v)), "")
      modifies this, json
      ensures Valid() && ms == w && (json == old(json) || fresh(json))
    {
      RenderObj(ms);
      JoinNothing(ms);
      assert Editable(NoMember) && Editable(ms);
      assert |Render(Obj(ms))| - 1 == InsertPos("", ms, NoMember);
      hide Render, ObjectText, Join, Good, InsertPos, Editable, First;
      var len := Strlen(json, Render(Obj(ms)));
      PutIn(len - 1, name, v, "", ms, NoMember, "", w);
    }

    /** One character into the value of `id1`. */
    method CreateInto(name: string, noDot: bool, v: Value, ghost w: Members) returns (ok: bool)
      requires Valid() && CanEnter(ms, NameOf(name, noDot), w, v) && Writable(name, NameOf(name, noDot))
               && '\0' !in Render(v)
      modifies this, json
      ensures var n := NameOf(name, noDot);
              if From(old(ms), n.id1).value.Obj? then ok && Valid() && ms == w else Broken(old(ms), n, v, ok)
    {
      ghost var n, m := NameOf(name, noDot), ms;
      hide *;
      WritableKey(name, n);
      EnterToken(ms, n, w, v);
      if From(ms, n.id1).value.Obj? { GoodTokens(w); }
      ok := WriteInto(name, noDot, v, Into(m, n.id1, n.id2, v));
      if From(m, n.id1).value.Obj? {
        ms := w;
        NowValid();
      } else {
        NowBroken(m, n, v, ok);
      }
    }

    /** Writes the member, and makes the tokens of the new text `t`. */
    method WriteInto(name: string, noDot: bool, v: Value, ghost t: string) returns (ok: bool)
      requires var n := NameOf(name, noDot);
               && Valid() && n.Two? && HasKey(ms, n.id1) && n.id2 == Suffix(name)
               && 0 < IntoPos(ms, n.id1) < |Render(Obj(ms))|
               && t == Inserted(Render(Obj(ms)), IntoPos(ms, n.id1), NewText(n.id2, v))
      requires '\0' !in Suffix(name) && '\0' !in Render(v)
      modifies this`json, this`tokens, json
      ensures var r := Parse(t, Parser(0, [], -1)); Buffered(json, t) && ok == r.Tokenized? && (ok ==> tokens == r.toks)
    {
      ghost var n := NameOf(name, noDot);
      IntoToken(ms, n.id1, n.id2);
      hide Render, Inserted, NewText, LookupIn, Tokens, NameOf, Parse, IntoPos, Good, Nesting;
      var jt := LookupName(name, noDot, true);
      Insert(tokens[jt.jt].start + 1, Suffix(name), v, Render(Obj(ms)));
      ok := Retokenize(t);
    }

    lemma NowValid()
      requires Good(ms) && Nesting(Obj(ms)) < 32 && Buffered(json, Render(Obj(ms))) && tokens == Tokens(Obj(ms), 0)
      ensures Valid()
    {
    }

    lemma NowBroken(m: Members, n: Name, v: Value, ok: bool)
      requires n.Two? && MembersOk(m) && HasKey(m, n.id1) && !From(m, n.id1).value.Obj?
      requires var r := Parse(Into(m, n.id1, n.id2, v), Parser(0, [], -1));
               Buffered(json, Into(m, n.id1, n.id2, v)) && ok == r.Tokenized? && (ok ==> tokens == r.toks)
      ensures Broken(m, n, v, ok)
    {
      hide Tame, Takes, Parse, Into;
      if Tame(m, n.id1, n.id2, v) { IntoTokenizes(m, n.id1, n.id2, v); }
    }

    method ChangeRemoved(name: string, jt: Lookup, noDot: bool, v: Value, pos: nat, ghost m: Members, ghost t: Name)
      requires jt == LookupIn(Obj(ms), NameOf(name, noDot), false)
      requires Get(m, t).Some? && Usable(m, t) && Removed(m, t, Some(pos))
      requires SpotReady(Without(m, t), name, NameOf(name, noDot), v, SpotOf(m, t), With(m, name, t, v))
      requires Good(With(m, name, t, v)) && Nesting(Obj(With(m, name, t, v))) < 32
      requires '\0' !in Render(v) && Writable(name, NameOf(name, noDot))
      modifies this, json
      ensures Valid() && ms == With(m, name, t, v)
    {
      hide Good, Render, Nesting, NameOf, With, Without, Get, Usable, SpotReady, Writable, SpotOf, InsertPos;
      Change(name, jt, noDot, v, pos, SpotOf(m, t), With(m, name, t, v));
    }

    /** A value that is there: remove, then change, or the same again if the name is repeated. */
    method Update(name: string, noDot: bool, setter: Setter, v: Value) returns (ok: bool)
      requires Valid() && Searchable(ms, NameOf(name, noDot)) && Writable(name, NameOf(name, noDot))
      requires NewOk(v) && '\0' !in Render(v) && Nesting(v) < 30 && Get(ms, Target(ms, NameOf(name, noDot))).Some?
      modifies this, json
      ensures var t := Target(old(ms), NameOf(name, noDot));
              && ok == MayReplace(old(ms), t, setter)
              && (ok ==> Valid() && Usable(old(ms), t) && ms == Put(old(ms), name, t, v))
      decreases |Entries(ms)|
    {
      ghost var n, m := NameOf(name, noDot), ms;
      ghost var t := Target(m, n);
      WholeName(name, noDot);
      assert Good(ms) && Nesting(Obj(ms)) < 32;
      hide *;
      if Single(m, n) {
        UpdateFacts(m, name, n, v);
        OnceUpdated(m, name, n, v, setter);
      } else {
        RepeatedFacts(m, name, n, v, setter);
      }
      var pos := RemoveName(name, noDot, setter);
      if pos.None? { return false; }
      RemovedIs(m, t, pos);
      var jt := LookupName(name, noDot, false);
      if jt.Found? {
        ok := Update(name, noDot, setter, v);
      } else {
        ChangeRemoved(name, jt, noDot, v, pos.value, m, t);
        ok := true;
      }
    }

    /** Setting a value; false stands for a panic: a value of another kind is there, or the new
        text cannot be tokenized. */
    method Set(name: string, noDot: bool, setter: Setter, v: Value) returns (ok: bool)
      requires Valid() && Searchable(ms, NameOf(name, noDot)) && Writable(name, NameOf(name, noDot))
      requires NewOk(v) && '\0' !in Render(v) && Nesting(v) < 30
      modifies this, json
      ensures var n := NameOf(name, noDot);
              var t := Target(old(ms), n);
              if Lost(old(ms), n) then Broken(old(ms), n, v, ok)
              else
                && ok == MayReplace(old(ms), t, setter)
                && (ok ==> Valid() && Usable(old(ms), t) && ms == Put(old(ms), name, t, v))
    {
      TargetLookup(ms, NameOf(name, noDot));
      assert Clear(ms, NameOf(name, noDot));
      hide *;
      var jt := LookupName(name, noDot, false);
      if !jt.Found? {
        PutNew(ms, name, NameOf(name, noDot), v, setter);
        ok := Create(name, noDot, v, jt);
      } else {
        ok := Update(name, noDot, setter, v);
      }
    }
  }
}
