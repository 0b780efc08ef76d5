/**
 Lookup of `id` or `id1.id2` in a parsed configuration: the walk over the token array with
 its fixed stack, and what the result means in the JSON tree.
 */
module CfgLookup {
  import opened Optional
  import opened Json
  import opened CfgWalk

  // ---- every walk follows the nesting ----------------------------------------------

  lemma {:induction false} TraceGrows(q: Query, st: State, ts: seq<Item>)
    ensures st.trace <= Run(q, st, ts).trace && st.deep <= Run(q, st, ts).deep
    decreases |ts|
  {
    if ts != [] && st.found.None? { TraceGrows(q, Step(q, st, ts[0]), ts[1..]); }
  }

  lemma CloseStack(stk: Stack, h1: int, h2: int)
    ensures Close(stk, h1).0 == Close(stk, h2).0
  {
  }

  /** What a walk looks for has no influence on where it is. */
  lemma {:induction false} Blind(q: Query, st: State, blank: State, ts: seq<Item>)
    requires st.found.None? && Run(Nothing, blank, ts).found.None?
    requires st.stk == blank.stk && st.trace == blank.trace && st.deep == blank.deep
    ensures var r, b := Run(q, st, ts), Run(Nothing, blank, ts);
            r.trace <= b.trace && r.deep <= b.deep && (r.found.None? ==> r.stk == b.stk && r.trace == b.trace)
    decreases |ts|
  {
    if ts != [] {
      var t := ts[0];
      var st1, blank1 := Step(q, st, t), Step(Nothing, blank, t);
      CloseStack(Push(st.stk, t), Hit(q, st.hit, Depth(Push(st.stk, t)), t),
          Hit(Nothing, blank.hit, Depth(Push(st.stk, t)), t));
      hide Step, Push, Close;
      if st1.found.None? { Blind(q, st1, blank1, ts[1..]); } else { TraceGrows(Nothing, blank1, ts[1..]); }
    }
  }

  /** Any search of any document: tokens are visited in order, each at its true depth; if
      nothing stops it, the walk visits all and ends at level 0. */
  lemma WalkFollowsNesting(q: Query, v: Value)
    ensures var r := Run(q, Start, Flatten(v));
            r.trace <= Levels(v, 0) && r.deep <= Nesting(v)
                && (r.found.None? ==> r.stk == Empty && r.trace == Levels(v, 0))
  {
    QuietRoot(v);
    Blind(q, Start, Start, Flatten(v));
  }

  // ---- results of the two searches -------------------------------------------------

  function TopMembers(v: Value): Members {
    if v.Obj? then v.members else NoMember
  }

  /** `jt` of the value token, or none. */
  function Top(v: Value, id: string): Option<nat> { Shift(Index(TopMembers(v), id), 1) }

  function Scoped(v: Value, id1: string, id2: string): Option<nat> {
    Shift(ScopedIndex(TopMembers(v), id1, id2, false), 1)
  }

  lemma {:induction false} NothingInElems(q: Query, v: Value)
    requires v.Arr? && (q.scope.None? ==> q.lvl <= 1)
    ensures Run(q, Start, Flatten(v)).found.None?
  {
    if v.elems.NoElem? { RootAlone(q, v); } else {
      RootOpens(q, v, CountElems(v.elems));
      QuietElems(q, v.elems, RootOpened(CountElems(v.elems)));
    }
  }

  lemma TopRun(v: Value, id: string)
    ensures Run(Query(None, id, 1), Start, Flatten(v)).found == Top(v, id)
  {
    var q := Query(None, id, 1);
    if v.Arr? {
      NothingInElems(q, v);
    } else if v.Obj? && v.members.Member? {
      RootOpens(q, v, CountMembers(v.members));
      FindRun(q, v.members, RootOpened(CountMembers(v.members)));
    } else {
      RootAlone(q, v);
    }
  }

  lemma ScopedTop(v: Value, id1: string, id2: string)
    ensures Run(Query(Some(id1), id2, 2), Start, Flatten(v)).found == Scoped(v, id1, id2)
  {
    var q := Query(Some(id1), id2, 2);
    if v.Arr? {
      NothingInElems(q, v);
    } else if v.Obj? && v.members.Member? {
      RootOpens(q, v, CountMembers(v.members));
      ScopedRun(q, v.members, RootOpened(CountMembers(v.members)), false);
    } else {
      RootAlone(q, v);
    }
  }

  // ---- what is found ---------------------------------------------------------------

  /** At `i` in `ts` the tokens of `v` begin. */
  predicate Holds(ts: seq<Item>, i: nat, v: Value) {
    i + |Flatten(v)| <= |ts| && ts[i..i + |Flatten(v)|] == Flatten(v)
  }

  lemma HoldsShift(pre: seq<Item>, ts: seq<Item>, i: nat, v: Value)
    requires Holds(ts, i, v)
    ensures Holds(pre + ts, |pre| + i, v)
  {
    assert (pre + ts)[|pre| + i..|pre| + i + |Flatten(v)|] == ts[i..i + |Flatten(v)|];
  }

  lemma HoldsMore(ms: Members, i: nat, v: Value)
    requires ms.Member? && Holds(FlattenMembers(ms.more), i, v)
    ensures Holds(FlattenMembers(ms), 1 + |Flatten(ms.value)| + i, v)
  {
    FlattenSplits(ms);
    var k, val, more := [Item(String, 1, ms.key)], Flatten(ms.value), FlattenMembers(ms.more);
    HoldsShift(k + val, more, i, v);
    assert k + val + more == FlattenMembers(ms);
  }

  /** `i` is where `v` begins, or both are missing. */
  predicate Points(ts: seq<Item>, i: Option<nat>, v: Option<Value>) {
    (i.Some? <==> v.Some?) && (i.Some? ==> Holds(ts, i.value, v.value))
  }

  lemma PointsMore(ms: Members, i: Option<nat>, v: Option<Value>)
    requires ms.Member? && Points(FlattenMembers(ms.more), i, v)
    ensures Points(FlattenMembers(ms), Shift(i, 1 + |Flatten(ms.value)|), v)
  {
    if i.Some? { HoldsMore(ms, i.value, v.value); }
  }

  /** A member is found if and only if there is one, and then its own value is found. */
  lemma {:induction false} IndexIsValue(ms: Members, key: string)
    ensures Points(FlattenMembers(ms), Index(ms, key), Find(ms, key))
    decreases ms
  {
    if ms.Member? {
      if ms.key == key {
        FlattenSplits(ms);
        assert FlattenMembers(ms)[1..1 + |Flatten(ms.value)|] == Flatten(ms.value);
      } else {
        IndexIsValue(ms.more, key);
        PointsMore(ms, Index(ms.more, key), Find(ms.more, key));
      }
    }
  }

  function ScopedFind(ms: Members, id1: string, id2: string, armed: bool): Option<Value> {
    if ms.NoMember? then None
    else
      var a := armed || ms.key == id1;
      var inner := if a && ms.value.Obj? then Find(ms.value.members, id2) else None;
      if inner.Some? then inner else ScopedFind(ms.more, id1, id2, a && IsScalar(ms.value))
  }

  lemma InnerHolds(ms: Members, i: nat, v: Value)
    requires ms.Member? && ms.value.Obj? && Holds(FlattenMembers(ms.value.members), i, v)
    ensures Holds(FlattenMembers(ms), 2 + i, v)
  {
    FlattenSplits(ms);
    var k, o, body, more := Item(String, 1, ms.key), Flatten(ms.value)[0], FlattenMembers(ms.value.members),
        FlattenMembers(ms.more);
    assert Flatten(ms.value) == [o] + body;
    hide Flatten, FlattenMembers, Holds;
    HoldsShift([k, o], body, i, v);
    HoldsBefore([k, o] + body, more, 2 + i, v);
    Regroup(k, o, body, more);
  }

  lemma Regroup<T>(k: T, o: T, body: seq<T>, more: seq<T>)
    ensures [k] + (([o] + body) + more) == [k, o] + body + more
  {
  }

  lemma HoldsBefore(ts: seq<Item>, more: seq<Item>, i: nat, v: Value)
    requires Holds(ts, i, v)
    ensures Holds(ts + more, i, v)
  {
    assert (ts + more)[i..i + |Flatten(v)|] == ts[i..i + |Flatten(v)|];
  }

  lemma {:induction false} ScopedIsValue(ms: Members, id1: string, id2: string, armed: bool)
    ensures Points(FlattenMembers(ms), ScopedIndex(ms, id1, id2, armed), ScopedFind(ms, id1, id2, armed))
    decreases ms
  {
    hide Holds, Flatten, FlattenMembers, Index, Find;
    if ms.Member? {
      var a := armed || ms.key == id1;
      if a && ms.value.Obj? { IndexIsValue(ms.value.members, id2); }
      if a && ms.value.Obj? && Index(ms.value.members, id2).Some? {
        InnerHolds(ms, Index(ms.value.members, id2).value, Find(ms.value.members, id2).value);
      } else {
        var b := a && IsScalar(ms.value);
        ScopedIsValue(ms.more, id1, id2, b);
        PointsMore(ms, ScopedIndex(ms.more, id1, id2, b), ScopedFind(ms.more, id1, id2, b));
      }
    }
  }

  // ---- the scope outlives a scalar ---------------------------------------------------

  predicate HasKey(ms: Members, key: string) {
    ms.Member? && (ms.key == key || HasKey(ms.more, key))
  }

  predicate Unique(ms: Members) {
    ms.Member? ==> !HasKey(ms.more, ms.key) && Unique(ms.more)
  }

  /** The key is not repeated. */
  predicate Once(ms: Members, key: string) {
    ms.Member? ==> if ms.key == key then !HasKey(ms.more, key) else Once(ms.more, key)
  }

  lemma {:induction false} AbsentIsOnce(ms: Members, key: string)
    requires !HasKey(ms, key)
    ensures Once(ms, key)
  {
    if ms.Member? { AbsentIsOnce(ms.more, key); }
  }

  lemma {:induction false} UniqueIsOnce(ms: Members, key: string)
    requires Unique(ms)
    ensures Once(ms, key)
  {
    if ms.Member? && ms.key != key { UniqueIsOnce(ms.more, key); }
  }

  /** The first object or array among these members is an object with a member `id2`. */
  predicate NextHolds(ms: Members, id2: string) {
    ms.Member? && if IsScalar(ms.value) then NextHolds(ms.more, id2) else ms.value.Obj? && HasKey(ms.value.members, id2)
  }

  /** `id1` is a scalar, and the next object or array after it is an object with `id2`. */
  predicate Strays(ms: Members, id1: string, id2: string) {
    ms.Member? && if ms.key == id1 then IsScalar(ms.value) && NextHolds(ms.more, id2) else Strays(ms.more, id1, id2)
  }

  lemma {:induction false} FindHas(ms: Members, key: string)
    ensures Find(ms, key).Some? <==> HasKey(ms, key)
    decreases ms
  {
    if ms.Member? { FindHas(ms.more, key); }
  }

  lemma {:induction false} OutOfScope(ms: Members, id1: string, id2: string)
    requires !HasKey(ms, id1)
    ensures ScopedFind(ms, id1, id2, false).None?
    decreases ms
  {
    if ms.Member? { OutOfScope(ms.more, id1, id2); }
  }

  lemma {:induction false} ArmedFinds(ms: Members, id1: string, id2: string)
    requires !HasKey(ms, id1)
    ensures ScopedFind(ms, id1, id2, true).Some? <==> NextHolds(ms, id2)
    decreases ms
  {
    if ms.Member? {
      if ms.value.Obj? { FindHas(ms.value.members, id2); }
      if IsScalar(ms.value) { ArmedFinds(ms.more, id1, id2); } else { OutOfScope(ms.more, id1, id2); }
    }
  }

  /** The search finds what `id1.id2` names, exactly when it does not stray into the object
      after a scalar `id1`. */
  lemma {:induction false} ScopedIsFind2(ms: Members, id1: string, id2: string)
    requires Once(ms, id1)
    ensures ScopedFind(ms, id1, id2, false) == Find2(ms, id1, id2) <==> !Strays(ms, id1, id2)
    decreases ms
  {
    if ms.Member? {
      if ms.key == id1 {
        if IsScalar(ms.value) { ArmedFinds(ms.more, id1, id2); } else { OutOfScope(ms.more, id1, id2); }
      } else {
        ScopedIsFind2(ms.more, id1, id2);
      }
    }
  }

  /** `{"a":1,"b":{"x":2}}` has no `a.x`, but the search finds one. */
  lemma ScopedCanStray()
    ensures var ms := Member("", "a", "", Prim("1"), "",
            Member("", "b", "", Obj(Member("", "x", "", Prim("2"), "", NoMember)), "", NoMember));
            Unique(ms) && Find2(ms, "a", "x") == None && ScopedFind(ms, "a", "x", false) == Some(Prim("2"))
  {
  }

  // ---- the code ----------------------------------------------------------------------

  predicate InText(json: string, t: Token) { 0 <= t.start <= t.end <= |json| }

  function ItemOf(json: string, t: Token): Item {
    Item(t.kind, t.size, if InText(json, t) then json[t.start..t.end] else "")
  }

  function Items(json: string, ts: seq<Token>): (r: seq<Item>)
    ensures |r| == |ts|
  {
    seq(|ts|, i requires 0 <= i < |ts| => ItemOf(json, ts[i]))
  }

  /** `remstk[1..lvl]` are the counts of the stack. */
  predicate Stacked(rem: seq<int>, lvl: nat, stk: Stack) {
    if stk.Empty? then lvl == 0 else 0 < lvl < |rem| && rem[lvl] == stk.rem && Stacked(rem, lvl - 1, stk.below)
  }

  lemma {:induction false} StackedDepth(rem: seq<int>, lvl: nat, stk: Stack)
    requires Stacked(rem, lvl, stk)
    ensures Depth(stk) == lvl
  {
    if stk.Level? { StackedDepth(rem, lvl - 1, stk.below); }
  }

  /** What is above the stack does not matter. */
  lemma {:induction false} StackedKept(rem: seq<int>, lvl: nat, stk: Stack, i: nat, x: int)
    requires Stacked(rem, lvl, stk) && lvl < i < |rem|
    ensures Stacked(rem[i := x], lvl, stk)
  {
    if stk.Level? { StackedKept(rem, lvl - 1, stk.below, i, x); }
  }

  lemma StackedPush(rem: seq<int>, lvl: nat, stk: Stack, x: int)
    requires Stacked(rem, lvl, stk) && lvl + 1 < |rem|
    ensures Stacked(rem[lvl + 1 := x], lvl + 1, Level(x, stk))
  {
    StackedKept(rem, lvl, stk, lvl + 1, x);
  }

  lemma StackedTop(rem: seq<int>, lvl: nat, stk: Stack, x: int)
    requires Stacked(rem, lvl, stk) && stk.Level?
    ensures Stacked(rem[lvl := x], lvl, Level(x, stk.below))
  {
    StackedKept(rem, lvl - 1, stk.below, lvl, x);
  }

  /** The counting part of one turn of the loop of `_cfg_walk`. */
  method Count(t: Token, remstk: array<int>, lvl: nat, ghost stk: Stack, ghost it: Item) returns (up: nat)
    requires Stacked(remstk[..], lvl, stk) && it.kind == t.kind && it.size == t.size
    requires Depth(Push(stk, it)) < remstk.Length
    modifies remstk
    ensures Stacked(remstk[..], up, Push(stk, it))
  {
    StackedDepth(remstk[..], lvl, stk);
    up := lvl;
    ghost var s := stk;
    if lvl > 0 && (t.kind != String || t.size == 0) {
      StackedTop(remstk[..], lvl, stk, remstk[lvl] - 1);
      s := Level(stk.rem - 1, stk.below);
      remstk[lvl] := remstk[lvl] - 1;
    }
    if t.kind == Object || t.kind == Array {
      StackedPush(remstk[..], lvl, s, t.size);
      up := lvl + 1;
      remstk[up] := t.size;
    }
  }

  /** The closing loop. */
  method Unwind(remstk: array<int>, lvl0: nat, hit0: int, ghost stk0: Stack) returns (lvl: nat, hit: int)
    requires Stacked(remstk[..], lvl0, stk0)
    ensures Stacked(remstk[..], lvl, Close(stk0, hit0).0) && hit == Close(stk0, hit0).1
  {
    lvl, hit := lvl0, hit0;
    ghost var stk := stk0;
    StackedDepth(remstk[..], lvl, stk);
    while lvl > 0 && remstk[lvl] == 0
      invariant Stacked(remstk[..], lvl, stk) && Close(stk, hit) == Close(stk0, hit0) && Depth(stk) == lvl
    {
      lvl := lvl - 1;
      if hit != -1 && lvl < hit { hit := -1; }
      stk := stk.below;
    }
  }

  /** `_cfg_lookup_json_cb`, for a key at one level. */
  predicate Matches(q: Query, lvl: nat, t: Item) {
    IsKey(t) && lvl == q.lvl && t.text == q.id
  }

  /** One turn of the loop of `_cfg_walk`. */
  method Visit(t: Token, it: Item, q: Query, remstk: array<int>, lvl0: nat, hit0: int, ghost st: State)
    returns (lvl: nat, hit: int, fires: bool)
    requires Stacked(remstk[..], lvl0, st.stk) && hit0 == st.hit && it.kind == t.kind && it.size == t.size
    requires Step(q, st, it).deep < remstk.Length
    modifies remstk
    ensures var st1 := Step(q, st, it);
            Stacked(remstk[..], lvl, st1.stk) && hit == st1.hit && (fires <==> st1.found.Some?)
  {
    StackedDepth(remstk[..], lvl0, st.stk);
    fires := (q.scope.None? || lvl0 == hit0) && Matches(q, lvl0, it);
    lvl := Count(t, remstk, lvl0, st.stk, it);
    hit := hit0;
    StackedDepth(remstk[..], lvl, Push(st.stk, it));
    if hit == -1 && lvl == 1 && IsId(t) && q.scope == Some(it.text) { hit := lvl + 1; }
    lvl, hit := Unwind(remstk, lvl, hit, Push(st.stk, it));
  }

  /** One more token. */
  lemma RunStep(q: Query, st: State, items: seq<Item>, i: nat)
    requires i < |items| && st.found.None?
    ensures var st1 := Step(q, st, items[i]);
            && Run(q, st1, items[i + 1..]) == Run(q, st, items[i..]) && st1.deep <= Run(q, st, items[i..]).deep
            && |st1.trace| == |st.trace| + 1 && (st1.found.Some? ==> st1.found.value == |st.trace| + 1)
  {
    assert items[i..][0] == items[i] && items[i..][1..] == items[i + 1..];
    TraceGrows(q, Step(q, st, items[i]), items[i + 1..]);
  }

  /** `_cfg_walk` with the lookup callback: the token after the key found. */
  method Walk(json: array<char>, tokens: seq<Token>, q: Query) returns (r: Option<nat>)
    requires Run(q, Start, Items(json[..], tokens)).deep < 32
    ensures r == Run(q, Start, Items(json[..], tokens)).found
  {
    var remstk := new int[32](_ => 0);
    var lvl, hit, i, stop := 0, -1, 0, false;
    r := None;
    ghost var items, st := Items(json[..], tokens), Start;
    hide Step;
    while i < |tokens| && !stop
      invariant i <= |tokens| && Stacked(remstk[..], lvl, st.stk) && Run(q, st, items[i..]) == Run(q, Start, items)
      invariant hit == st.hit && stop == st.found.Some? && r == st.found && |st.trace| == i
    {
      var t := tokens[i];
      var it := ItemOf(json[..], t);
      RunStep(q, st, items, i);
      lvl, hit, stop := Visit(t, it, q, remstk, lvl, hit, st);
      if stop { r := Some(i + 1); }
      st := Step(q, st, it);
      i := i + 1;
    }
  }

  // ---- names -------------------------------------------------------------------------

  function Strchr(s: string, c: char): (i: nat)
    ensures i <= |s| && (forall k :: 0 <= k < i ==> s[k] != c) && (i < |s| ==> s[i] == c)
  {
    if s == [] || s[0] == c then 0 else 1 + Strchr(s[1..], c)
  }

  predicate IsBlank(c: char) { c == ' ' || '\t' <= c <= '\r' }

  /** What `%ms` scans: a word without blanks, after any blanks. */
  function Word(s: string): string {
    if s != [] && IsBlank(s[0]) then Word(s[1..]) else UpToBlank(s)
  }

  function UpToBlank(s: string): string {
    if s == [] || IsBlank(s[0]) then "" else [s[0]] + UpToBlank(s[1..])
  }

  datatype Name = Whole(id: string) | Two(id1: string, id2: string) | Bad

  /** One dot splits a name in two scopes, unless this is turned off; more dots do not. */
  function NameOf(name: string, noDot: bool): Name {
    var d := Strchr(name, '.');
    if noDot || d == |name| || '.' in name[d + 1..] then Whole(name)
    else if d == 0 || Word(name[d + 1..]) == "" then Bad
    else Two(name[..d], Word(name[d + 1..]))
  }

  /** A null pointer, the mark that only `id1` exists, or a token. */
  datatype Lookup = Missing | OnlyId1 | Found(jt: nat)

  function Jt(i: Option<nat>): Lookup { if i.Some? then Found(i.value) else Missing }

  /** The lookup on the tree. */
  function LookupIn(v: Value, name: Name, id1Only: bool): Lookup {
    match name
    case Whole(id) => Jt(Top(v, id))
    case Bad => Missing
    case Two(id1, id2) =>
      if id1Only then Jt(Top(v, id1))
      else if Scoped(v, id1, id2).Some? then Jt(Scoped(v, id1, id2))
      else if Top(v, id1).Some? then OnlyId1
      else Missing
  }

  /** `_cfg_lookup_json` on a document that has been tokenized. */
  method LookupJson(json: array<char>, tokens: seq<Token>, name: string, noDot: bool, id1Only: bool, ghost v: Value)
    returns (r: Lookup)
    requires Items(json[..], tokens) == Flatten(v) && Nesting(v) < 32
    ensures r == LookupIn(v, NameOf(name, noDot), id1Only)
  {
    hide Run, Flatten, Scoped, Top;
    var n := NameOf(name, noDot);
    match n
    case Whole(id) =>
      var i := Search(json, tokens, None, id, v);
      r := Jt(i);
    case Bad => r := Missing;
    case Two(id1, id2) =>
      if id1Only {
        var i := Search(json, tokens, None, id1, v);
        r := Jt(i);
      } else {
        var i := Search(json, tokens, Some(id1), id2, v);
        r := Jt(i);
        if i.None? {
          i := Search(json, tokens, None, id1, v);
          if i.Some? { r := OnlyId1; }
        }
      }
  }

  /** A walk for `id` at level 1, or at level 2 within `scope`. */
  method Search(json: array<char>, tokens: seq<Token>, scope: Option<string>, id: string, ghost v: Value)
      returns (i: Option<nat>)
    requires Items(json[..], tokens) == Flatten(v) && Nesting(v) < 32
    ensures i == if scope.None? then Top(v, id) else Scoped(v, scope.value, id)
  {
    var q := Query(scope, id, if scope.None? then 1 else 2);
    WalkFollowsNesting(q, v);
    if scope.None? { TopRun(v, id); } else { ScopedTop(v, scope.value, id); }
    hide Run, Flatten, Items;
    i := Walk(json, tokens, q);
  }
}
