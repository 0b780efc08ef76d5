/**
 `_cfg_walk`: one pass over the flat token list with a stack of remaining counts. The stack
 is shown to follow the nesting of the JSON tree, and the search to find what a search of
 the tree finds.
 */
module CfgWalk {
  import opened Optional
  import opened Json

  /** What the walk looks at in a token: its kind, size and text. */
  datatype Item = Item(kind: Kind, size: int, text: string)

  predicate IsKey(t: Item) { t.kind == String && t.size == 1 }

  function Flatten(v: Value): (ts: seq<Item>) {
    match v
    case Prim(text) => [Item(Primitive, 0, text)]
    case Str(text) => [Item(String, 0, text)]
    case Arr(es) => [Item(Array, CountElems(es), Render(v))] + FlattenElems(es)
    case Obj(ms) => [Item(Object, CountMembers(ms), Render(v))] + FlattenMembers(ms)
  }

  function FlattenElems(es: Elems): seq<Item> {
    if es.NoElem? then [] else Flatten(es.value) + FlattenElems(es.more)
  }

  function FlattenMembers(ms: Members): seq<Item> {
    if ms.NoMember? then []
    else [Item(String, 1, ms.key)] + Flatten(ms.value) + FlattenMembers(ms.more)
  }

  /** How deeply each token of a value at depth `d` is nested. */
  function Levels(v: Value, d: nat): (ls: seq<nat>)
    ensures |ls| == |Flatten(v)|
  {
    match v
    case Prim(_) => [d]
    case Str(_) => [d]
    case Arr(es) => [d] + ElemLevels(es, d + 1)
    case Obj(ms) => [d] + MemberLevels(ms, d + 1)
  }

  function ElemLevels(es: Elems, d: nat): (ls: seq<nat>)
    ensures |ls| == |FlattenElems(es)|
  {
    if es.NoElem? then [] else Levels(es.value, d) + ElemLevels(es.more, d)
  }

  function MemberLevels(ms: Members, d: nat): (ls: seq<nat>)
    ensures |ls| == |FlattenMembers(ms)|
  {
    if ms.NoMember? then [] else [d] + Levels(ms.value, d) + MemberLevels(ms.more, d)
  }

  // ---- the walk as a function -------------------------------------------------------

  /** How many elements remain in the open objects and arrays, innermost first. */
  datatype Stack = Empty | Level(rem: int, below: Stack)

  function Depth(s: Stack): nat {
    if s.Empty? then 0 else 1 + Depth(s.below)
  }

  /** Only look inside `scope`, for the key `id` at level `lvl`. */
  datatype Query = Query(scope: Option<string>, id: string, lvl: int)

  /** `trace` holds the levels of the tokens visited, `deep` is the highest level. */
  datatype State = State(stk: Stack, hit: int, found: Option<nat>, trace: seq<nat>, deep: nat)

  const Start := State(Empty, -1, None, [], 0)

  predicate IsContainer(t: Item) { t.kind == Object || t.kind == Array }

  function Push(stk: Stack, t: Item): Stack {
    var s := if stk.Level? && (t.kind != String || t.size == 0) then Level(stk.rem - 1, stk.below) else stk;
    if IsContainer(t) then Level(t.size, s) else s
  }

  predicate Fires(q: Query, lvl: nat, hit: int, t: Item) {
    (q.scope.None? || lvl == hit) && IsKey(t) && lvl == q.lvl && t.text == q.id
  }

  function Hit(q: Query, hit: int, lvl: nat, t: Item): int {
    if hit == -1 && lvl == 1 && IsKey(t) && q.scope == Some(t.text) then lvl + 1 else hit
  }

  /** Objects and arrays without remaining elements end. */
  function Close(stk: Stack, hit: int): (Stack, int) {
    if stk.Level? && stk.rem == 0 then Close(stk.below, if hit != -1 && Depth(stk.below) < hit then -1 else hit)
    else (stk, hit)
  }

  function Step(q: Query, st: State, t: Item): State {
    var lvl, stk := Depth(st.stk), Push(st.stk, t);
    var (closed, hit) := Close(stk, Hit(q, st.hit, Depth(stk), t));
    State(closed, hit, if Fires(q, lvl, st.hit, t) then Some(|st.trace| + 1) else None,
          st.trace + [lvl], Max(st.deep, Depth(stk)))
  }

  function Run(q: Query, st: State, ts: seq<Item>): State
    decreases |ts|
  {
    if ts == [] || st.found.Some? then st else Run(q, Step(q, st, ts[0]), ts[1..])
  }

  lemma {:induction false} RunAppend(q: Query, st: State, a: seq<Item>, b: seq<Item>)
    ensures Run(q, st, a + b) == Run(q, Run(q, st, a), b)
    decreases |a|
  {
    if a == [] {
      assert a + b == b;
    } else if st.found.None? {
      assert (a + b)[0] == a[0] && (a + b)[1..] == a[1..] + b;
      RunAppend(q, Step(q, st, a[0]), a[1..], b);
    }
  }

  lemma RunOne(q: Query, st: State, t: Item, b: seq<Item>)
    requires st.found.None?
    ensures Run(q, st, [t] + b) == Run(q, Step(q, st, t), b)
  {
    assert ([t] + b)[1..] == b;
  }

  // ---- parts of the tree where nothing can match ------------------------------------

  /** No key above level `lvl` can match, and no scope begins or ends there. */
  predicate Quiet(q: Query, hit: int, lvl: nat) {
    hit <= lvl && (q.scope.None? ==> q.lvl <= lvl)
  }

  /** The state after one element of the innermost container, a value `v`. */
  function Passed(st: State, v: Value): State
    requires st.stk.Level?
  {
    var (s, h) := Close(Level(st.stk.rem - 1, st.stk.below), st.hit);
    State(s, h, None, st.trace + Levels(v, Depth(st.stk)), Max(st.deep, Depth(st.stk) + Nesting(v)))
  }

  function PassedMembers(st: State, ms: Members): State
    requires st.stk.Level?
  {
    var (s, h) := Close(Level(0, st.stk.below), st.hit);
    State(s, h, None, st.trace + MemberLevels(ms, Depth(st.stk)), Max(st.deep, Depth(st.stk) + MemberNesting(ms)))
  }

  function PassedElems(st: State, es: Elems): State
    requires st.stk.Level?
  {
    var (s, h) := Close(Level(0, st.stk.below), st.hit);
    State(s, h, None, st.trace + ElemLevels(es, Depth(st.stk)), Max(st.deep, Depth(st.stk) + ElemNesting(es)))
  }

  lemma KeyPasses(q: Query, st: State, t: Item)
    requires st.found.None? && st.stk.Level? && st.stk.rem > 0 && IsKey(t)
    requires !Fires(q, Depth(st.stk), st.hit, t) && Hit(q, st.hit, Depth(st.stk), t) == st.hit
    ensures Step(q, st, t) == Keyed(st)
  {
  }

  lemma ScalarPasses(q: Query, v: Value, st: State)
    requires st.found.None? && st.stk.Level? && !v.Arr? && !v.Obj?
    ensures Step(q, st, Flatten(v)[0]) == Passed(st, v)
  {
  }

  lemma ContainerOpens(q: Query, v: Value, st: State, n: nat)
    requires st.found.None? && st.stk.Level?
    requires (v.Arr? && n == CountElems(v.elems)) || (v.Obj? && n == CountMembers(v.members))
    ensures var stk, lvl := Level(n, Level(st.stk.rem - 1, st.stk.below)), Depth(st.stk);
            var (s, h) := Close(stk, st.hit);
            Step(q, st, Flatten(v)[0]) == State(s, h, None, st.trace + [lvl], Max(st.deep, lvl + 1))
  {
  }

  lemma EmptyPasses(q: Query, v: Value, st: State)
    requires st.found.None? && st.stk.Level? && (v == Arr(NoElem) || v == Obj(NoMember)) && st.hit <= Depth(st.stk)
    ensures Step(q, st, Flatten(v)[0]) == Passed(st, v)
  {
    ContainerOpens(q, v, st, 0);
  }

  /** Closing a container that is not the scope does not end the scope. */
  lemma CloseInner(rem: int, below: Stack, hit: int)
    requires hit <= 1 + Depth(below)
    ensures Close(Level(0, Level(rem, below)), hit) == Close(Level(rem, below), hit)
  {
  }

  predicate ReadyFor(q: Query, st: State) {
    st.found.None? && st.stk.Level? && Quiet(q, st.hit, Depth(st.stk))
  }

  /** The innermost container has `n` elements to come. */
  predicate Inside(q: Query, st: State, n: nat) {
    st.found.None? && st.stk.Level? && st.stk.rem == n && Depth(st.stk) >= 2 && Quiet(q, st.hit, Depth(st.stk) - 1)
  }

  predicate Among(q: Query, st: State, n: nat) {
    ReadyFor(q, st) && st.stk.rem == n
  }

  lemma Opens(q: Query, v: Value, st: State, n: nat)
    requires st.found.None? && st.stk.Level? && n > 0
    requires (v.Arr? && n == CountElems(v.elems)) || (v.Obj? && n == CountMembers(v.members))
    ensures ReadyFor(q, st) ==> Inside(q, Opened(st, n), n) && Among(q, Opened(st, n), n)
    ensures Run(q, st, Flatten(v))
            == Run(q, Opened(st, n), if v.Arr? then FlattenElems(v.elems) else FlattenMembers(v.members))
  {
    ContainerOpens(q, v, st, n);
    RunOne(q, st, Flatten(v)[0], Flatten(v)[1..]);
    assert [Flatten(v)[0]] + Flatten(v)[1..] == Flatten(v);
  }

  function Opened(st: State, n: nat): State
    requires st.stk.Level?
  {
    State(Level(n, Level(st.stk.rem - 1, st.stk.below)), st.hit, None, st.trace + [Depth(st.stk)],
        Max(st.deep, Depth(st.stk) + 1))
  }

  lemma OpenedElems(q: Query, st: State, es: Elems)
    requires ReadyFor(q, st) && es.Elem?
    ensures PassedElems(Opened(st, CountElems(es)), es) == Passed(st, Arr(es))
  {
    hide CountElems, ElemLevels, ElemNesting;
    CloseInner(st.stk.rem - 1, st.stk.below, st.hit);
  }

  lemma OpenedMembers(q: Query, st: State, ms: Members)
    requires ReadyFor(q, st) && ms.Member?
    ensures PassedMembers(Opened(st, CountMembers(ms)), ms) == Passed(st, Obj(ms))
  {
    hide CountMembers, MemberLevels, MemberNesting;
    CloseInner(st.stk.rem - 1, st.stk.below, st.hit);
  }

  lemma ThenElems(st: State, es: Elems)
    requires es.Elem? && st.stk.Level? && st.stk.rem == CountElems(es)
    ensures es.more.NoElem? ==> Passed(st, es.value) == PassedElems(st, es)
    ensures es.more.Elem? ==> var st1 := Passed(st, es.value);
                              st1.found.None? && st1.stk == Level(CountElems(es.more), st.stk.below)
                                  && st1.hit == st.hit
                              && PassedElems(st1, es.more) == PassedElems(st, es)
  {
    var d := Depth(st.stk);
    var l, m := Levels(es.value, d), ElemLevels(es.more, d);
    assert ElemLevels(es, d) == l + m;
    assert es.more.NoElem? ==> m == [] && ElemNesting(es.more) == 0;
    assert ElemNesting(es) == Max(Nesting(es.value), ElemNesting(es.more));
    assert es.more.Elem? ==> Depth(Level(CountElems(es.more), st.stk.below)) == d;
    assert (st.trace + l) + m == st.trace + (l + m) && l + [] == l;
    DeepElems(st.deep, d, Nesting(es.value), ElemNesting(es.more));
    hide Levels, ElemLevels, Depth, Nesting, ElemNesting, Max;
  }

  lemma DeepElems(x: nat, d: nat, a: nat, b: nat)
    ensures Max(Max(x, d + a), d + b) == Max(x, d + Max(a, b)) && Max(x, d + a) == Max(x, d + Max(a, 0))
  {
  }

  lemma ReadyAgain(q: Query, st: State, rem: int, st1: State)
    requires ReadyFor(q, st) && st1.found.None? && st1.stk == Level(rem, st.stk.below) && st1.hit == st.hit
    ensures ReadyFor(q, st1) && st1.stk.rem == rem
  {
  }

  lemma ThenMembers(st: State, ms: Members)
    requires ms.Member? && st.stk.Level? && st.stk.rem == CountMembers(ms)
    ensures ms.more.NoMember? ==> Passed(Keyed(st), ms.value) == PassedMembers(st, ms)
    ensures ms.more.Member? ==> var st1 := Passed(Keyed(st), ms.value);
                                st1.found.None? && st1.stk == Level(CountMembers(ms.more), st.stk.below)
                                    && st1.hit == st.hit
                                && PassedMembers(st1, ms.more) == PassedMembers(st, ms)
  {
    var d := Depth(st.stk);
    var l, m := Levels(ms.value, d), MemberLevels(ms.more, d);
    assert MemberLevels(ms, d) == [d] + l + m;
    assert ms.more.NoMember? ==> m == [];
    assert MemberNesting(ms) == Max(Nesting(ms.value), MemberNesting(ms.more));
    assert ms.more.NoMember? ==> MemberNesting(ms.more) == 0;
    Traced(st.trace, d, l, m);
    DeepJoins(st.deep, d, Nesting(ms.value), MemberNesting(ms.more));
    assert ms.more.Member? ==> Depth(Level(CountMembers(ms.more), st.stk.below)) == d;
    hide Levels, MemberLevels, Depth, Nesting, MemberNesting, Max;
  }

  lemma DeepJoins(x: nat, d: nat, a: nat, b: nat)
    ensures Max(Max(Max(x, d), d + a), d + b) == Max(x, d + Max(a, b)) && Max(Max(x, d), d + a) == Max(x, d + Max(a, 0))
  {
  }

  lemma Traced(t: seq<nat>, d: nat, l: seq<nat>, m: seq<nat>)
    ensures t + [d] + l + m == t + ([d] + l + m) && (m == [] ==> t + [d] + l == t + ([d] + l + m))
  {
  }

  function Keyed(st: State): State {
    State(st.stk, st.hit, None, st.trace + [Depth(st.stk)], Max(st.deep, Depth(st.stk)))
  }

  /** A value that cannot match takes one element off the stack, whatever it contains. */
  lemma {:induction false} QuietValue(q: Query, v: Value, st: State)
    requires ReadyFor(q, st)
    ensures Run(q, st, Flatten(v)) == Passed(st, v)
    decreases v
  {
    hide Step;
    match v
    case Prim(_) => ScalarPasses(q, v, st);
    case Str(_) => ScalarPasses(q, v, st);
    case Arr(es) =>
      if es.NoElem? { EmptyPasses(q, v, st); } else { QuietArray(q, es, st); }
    case Obj(ms) =>
      if ms.NoMember? { EmptyPasses(q, v, st); } else { QuietObject(q, ms, st); }
  }

  lemma {:induction false} QuietArray(q: Query, es: Elems, st: State)
    requires ReadyFor(q, st) && es.Elem?
    ensures Run(q, st, Flatten(Arr(es))) == Passed(st, Arr(es))
    decreases es, 1
  {
    hide Run, Flatten, FlattenElems, Passed, PassedElems, Inside, Among;
    Opens(q, Arr(es), st, CountElems(es));
    OpenedElems(q, st, es);
    QuietElems(q, es, Opened(st, CountElems(es)));
  }

  lemma {:induction false} QuietObject(q: Query, ms: Members, st: State)
    requires ReadyFor(q, st) && ms.Member?
    ensures Run(q, st, Flatten(Obj(ms))) == Passed(st, Obj(ms))
    decreases ms, 1
  {
    hide Run, Flatten, FlattenMembers, Passed, PassedMembers, Inside;
    Opens(q, Obj(ms), st, CountMembers(ms));
    OpenedMembers(q, st, ms);
    QuietMembers(q, ms, Opened(st, CountMembers(ms)));
  }

  lemma {:induction false} QuietMembers(q: Query, ms: Members, st: State)
    requires ms.Member? && Inside(q, st, CountMembers(ms))
    ensures Run(q, st, FlattenMembers(ms)) == PassedMembers(st, ms)
    decreases ms, 0
  {
    var key, val, more := Item(String, 1, ms.key), Flatten(ms.value), FlattenMembers(ms.more);
    assert FlattenMembers(ms) == [key] + (val + more);
    RunOne(q, st, key, val + more);
    KeyPasses(q, st, key);
    ThenMembers(st, ms);
    assert ReadyFor(q, Keyed(st));
    RunAppend(q, Keyed(st), val, more);
    hide Step, Flatten, FlattenMembers, Passed, PassedMembers, Keyed;
    QuietValue(q, ms.value, Keyed(st));
    if ms.more.Member? { QuietMembers(q, ms.more, Passed(Keyed(st), ms.value)); }
  }

  lemma {:induction false} QuietElems(q: Query, es: Elems, st: State)
    requires es.Elem? && Among(q, st, CountElems(es))
    ensures Run(q, st, FlattenElems(es)) == PassedElems(st, es)
    decreases es, 0
  {
    RunAppend(q, st, Flatten(es.value), FlattenElems(es.more));
    assert FlattenElems(es) == Flatten(es.value) + FlattenElems(es.more);
    ThenElems(st, es);
    hide Step, Flatten, FlattenElems, Passed, PassedElems, ReadyFor, CountElems;
    QuietValue(q, es.value, st);
    if es.more.Elem? {
      ReadyAgain(q, st, CountElems(es.more), Passed(st, es.value));
      QuietElems(q, es.more, Passed(st, es.value));
    }
  }

  // ---- whole documents --------------------------------------------------------------

  /** A walk that looks for nothing. */
  const Nothing := Query(None, "", 0)

  lemma RootOpens(q: Query, v: Value, n: nat)
    requires n > 0 && ((v.Arr? && n == CountElems(v.elems)) || (v.Obj? && n == CountMembers(v.members)))
    ensures Run(q, Start, Flatten(v))
            == Run(q, RootOpened(n), if v.Arr? then FlattenElems(v.elems) else FlattenMembers(v.members))
  {
    var t, body := Flatten(v)[0], if v.Arr? then FlattenElems(v.elems) else FlattenMembers(v.members);
    assert Flatten(v) == [t] + body;
    RunOne(q, Start, t, body);
    assert Step(q, Start, t) == RootOpened(n);
  }

  /** A document without members is visited, if at all, as one token. */
  lemma RootAlone(q: Query, v: Value)
    requires (!v.Arr? && !v.Obj?) || v == Arr(NoElem) || v == Obj(NoMember)
    ensures Run(q, Start, Flatten(v)) == State(Empty, -1, None, Levels(v, 0), Nesting(v))
  {
    RunOne(q, Start, Flatten(v)[0], []);
    assert Flatten(v) == [Flatten(v)[0]] + [];
  }

  /** The walk visits every token at its true depth and ends at level 0. */
  lemma {:induction false} QuietRoot(v: Value)
    ensures Run(Nothing, Start, Flatten(v)) == State(Empty, -1, None, Levels(v, 0), Nesting(v))
  {
    if v.Arr? && v.elems.Elem? {
      RootOpens(Nothing, v, CountElems(v.elems));
      QuietElems(Nothing, v.elems, RootOpened(CountElems(v.elems)));
    } else if v.Obj? && v.members.Member? {
      RootOpens(Nothing, v, CountMembers(v.members));
      RootMembers(Nothing, v.members, RootOpened(CountMembers(v.members)));
    } else {
      RootAlone(Nothing, v);
    }
  }

  function RootOpened(n: nat): State { State(Level(n, Empty), -1, None, [0], 1) }

  /** Members of the outermost object, none of which is found or opens the scope. */
  lemma {:induction false} RootMembers(q: Query, ms: Members, st: State)
    requires ms.Member? && st.found.None? && st.stk == Level(CountMembers(ms), Empty) && st.hit == -1
    requires q.scope.None? && q.lvl <= 1
    requires q.lvl == 1 ==> Find(ms, q.id).None?
    ensures Run(q, st, FlattenMembers(ms)) == PassedMembers(st, ms)
    decreases ms
  {
    var key, val, more := Item(String, 1, ms.key), Flatten(ms.value), FlattenMembers(ms.more);
    assert FlattenMembers(ms) == [key] + (val + more);
    RunOne(q, st, key, val + more);
    KeyPasses(q, st, key);
    RunAppend(q, Keyed(st), val, more);
    QuietValue(q, ms.value, Keyed(st));
    ThenMembers(st, ms);
    hide Step, Flatten, FlattenMembers, Passed, PassedMembers, Keyed, Levels;
    if ms.more.Member? { RootMembers(q, ms.more, Passed(Keyed(st), ms.value)); }
  }

  // ---- searching --------------------------------------------------------------------

  function Shift(i: Option<nat>, n: nat): Option<nat> {
    if i.Some? then Some(i.value + n) else None
  }

  /** Where in `FlattenMembers(ms)` the value of the first member called `key` is. */
  function Index(ms: Members, key: string): Option<nat> {
    if ms.NoMember? then None
    else if ms.key == key then Some(1)
    else Shift(Index(ms.more, key), 1 + |Flatten(ms.value)|)
  }

  /** The first `id2` in the object that `id1` names, as the walk searches for it: `armed`
      says that `id1` has been seen and the scope has not ended. */
  function ScopedIndex(ms: Members, id1: string, id2: string, armed: bool): Option<nat> {
    if ms.NoMember? then None
    else
      var a := armed || ms.key == id1;
      var inner := if a && ms.value.Obj? then Index(ms.value.members, id2) else None;
      if inner.Some? then Some(2 + inner.value)
      else Shift(ScopedIndex(ms.more, id1, id2, a && IsScalar(ms.value)), 1 + |Flatten(ms.value)|)
  }

  lemma FlattenSplits(ms: Members)
    requires ms.Member?
    ensures FlattenMembers(ms) == [Item(String, 1, ms.key)] + (Flatten(ms.value) + FlattenMembers(ms.more))
  {
  }

  lemma {:induction false} Stops(q: Query, st: State, ts: seq<Item>)
    requires st.found.Some?
    ensures Run(q, st, ts) == st
  {
  }

  /** A member that does not match is passed by. */
  lemma PastMember(q: Query, ms: Members, st: State)
    requires ms.Member? && st.found.None? && st.stk.Level? && st.stk.rem == CountMembers(ms)
    requires Step(q, st, Item(String, 1, ms.key)) == Keyed(st) && ReadyFor(q, Keyed(st))
    ensures var st1 := Passed(Keyed(st), ms.value);
            && Run(q, st, FlattenMembers(ms)) == Run(q, st1, FlattenMembers(ms.more))
            && |st1.trace| == |st.trace| + 1 + |Flatten(ms.value)| && st1.found.None?
            && (if ms.more.Member? then
                  st1.stk == Level(CountMembers(ms.more), st.stk.below) && st1.hit == st.hit
                  && PassedMembers(st1, ms.more) == PassedMembers(st, ms)
                else st1 == PassedMembers(st, ms))
  {
    var key, val, more := Item(String, 1, ms.key), Flatten(ms.value), FlattenMembers(ms.more);
    FlattenSplits(ms);
    hide Step, Run, Flatten, FlattenMembers, Levels;
    RunOne(q, st, key, val + more);
    RunAppend(q, Keyed(st), val, more);
    QuietValue(q, ms.value, Keyed(st));
    ThenMembers(st, ms);
  }

  lemma NoneLeft(q: Query, ms: Members, st: State)
    requires ms.NoMember?
    ensures Run(q, st, FlattenMembers(ms)) == st
  {
  }

  /** Search for a member of the outermost object. */
  lemma {:induction false} FindRun(q: Query, ms: Members, st: State)
    requires ms.Member? && st.found.None? && st.stk == Level(CountMembers(ms), Empty) && st.hit == -1
    requires q.scope.None? && q.lvl == 1
    ensures Run(q, st, FlattenMembers(ms)).found == Shift(Index(ms, q.id), |st.trace|)
    decreases ms
  {
    var key, val, more := Item(String, 1, ms.key), Flatten(ms.value), FlattenMembers(ms.more);
    FlattenSplits(ms);
    RunOne(q, st, key, val + more);
    if ms.key == q.id {
      Stops(q, Step(q, st, key), val + more);
    } else {
      KeyPasses(q, st, key);
      assert ReadyFor(q, Keyed(st));
      hide Step, Run, Flatten, FlattenMembers, Passed, Keyed, Levels, ReadyFor;
      PastMember(q, ms, st);
      if ms.more.Member? {
        FindRun(q, ms.more, Passed(Keyed(st), ms.value));
      } else {
        NoneLeft(q, ms.more, Passed(Keyed(st), ms.value));
      }
    }
  }

  /** Search for a member of the object that is the scope. */
  lemma {:induction false} InnerRun(q: Query, ms: Members, st: State)
    requires ms.Member? && st.found.None? && st.stk.Level? && st.stk.rem == CountMembers(ms)
    requires Depth(st.stk) == 2 && st.hit == 2 && q.scope.Some? && q.lvl == 2
    ensures var i := Index(ms, q.id);
            var r := Run(q, st, FlattenMembers(ms));
            if i.Some? then r.found == Shift(i, |st.trace|) else r == PassedMembers(st, ms)
    decreases ms
  {
    var key, val, more := Item(String, 1, ms.key), Flatten(ms.value), FlattenMembers(ms.more);
    FlattenSplits(ms);
    RunOne(q, st, key, val + more);
    if ms.key == q.id {
      Stops(q, Step(q, st, key), val + more);
    } else {
      KeyPasses(q, st, key);
      assert ReadyFor(q, Keyed(st));
      hide Step, Run, Flatten, FlattenMembers, Passed, PassedMembers, Keyed, Levels, ReadyFor;
      PastMember(q, ms, st);
      if ms.more.Member? {
        InnerRun(q, ms.more, Passed(Keyed(st), ms.value));
      } else {
        NoneLeft(q, ms.more, Passed(Keyed(st), ms.value));
      }
    }
  }

  /** After a value in scope, if nothing was found: a scalar leaves the scope open. */
  predicate AfterArmed(st: State, v: Value, r: State)
    requires st.stk.Level?
  {
    && r.found.None? && |r.trace| == |st.trace| + |Flatten(v)|
    && (st.stk.rem > 1 ==> r.stk == Level(st.stk.rem - 1, Empty) && r.hit == if IsScalar(v) then 2 else -1)
  }

  lemma ArmedEmpty(q: Query, v: Value, st: State)
    requires st.found.None? && st.stk.Level? && st.stk.rem > 0 && st.stk.below == Empty && st.hit == 2
    requires v == Arr(NoElem) || v == Obj(NoMember)
    ensures AfterArmed(st, v, Run(q, st, Flatten(v)))
  {
    ContainerOpens(q, v, st, 0);
  }

  lemma ArmedScalar(q: Query, v: Value, st: State)
    requires st.found.None? && st.stk.Level? && st.stk.rem > 0 && st.stk.below == Empty && st.hit == 2 && IsScalar(v)
    ensures AfterArmed(st, v, Run(q, st, Flatten(v)))
  {
    ScalarPasses(q, v, st);
  }

  /** Closing the scope itself ends it. */
  lemma CloseScope(rem: int)
    ensures var (s, h) := Close(Level(0, Level(rem, Empty)), 2);
            if rem == 0 then s == Empty else s == Level(rem, Empty) && h == -1
  {
    assert Depth(Level(rem, Empty)) == 1;
  }

  lemma ArmedArray(q: Query, es: Elems, st: State)
    requires st.found.None? && st.stk.Level? && st.stk.rem > 0 && st.stk.below == Empty && st.hit == 2 && es.Elem?
             && q.scope.Some?
    ensures AfterArmed(st, Arr(es), Run(q, st, Flatten(Arr(es))))
  {
    var st1 := Opened(st, CountElems(es));
    CloseScope(st.stk.rem - 1);
    assert Depth(st.stk) == 1 && Depth(st1.stk) == 2;
    Opens(q, Arr(es), st, CountElems(es));
    assert |Flatten(Arr(es))| == 1 + |FlattenElems(es)|;
    hide Step, Run, CountElems, Close, Depth, Flatten, FlattenElems;
    QuietElems(q, es, st1);
  }

  lemma ArmedObject(q: Query, ms: Members, st: State)
    requires st.found.None? && st.stk.Level? && st.stk.rem > 0 && st.stk.below == Empty && st.hit == 2
    requires ms.Member? && q.scope.Some? && q.lvl == 2
    ensures var r, i := Run(q, st, Flatten(Obj(ms))), Index(ms, q.id);
            if i.Some? then r.found == Shift(i, |st.trace| + 1) else AfterArmed(st, Obj(ms), r)
  {
    var st1 := Opened(st, CountMembers(ms));
    assert Depth(st.stk) == 1 && Depth(st1.stk) == 2;
    Opens(q, Obj(ms), st, CountMembers(ms));
    hide Step, Run, CountMembers, Index, Close, Depth, Flatten, FlattenMembers, IsScalar, AfterArmed, PassedMembers;
    InnerRun(q, ms, st1);
    if Index(ms, q.id).None? { ObjectPassed(ms, st); }
  }

  lemma ObjectPassed(ms: Members, st: State)
    requires st.stk.Level? && st.stk.rem > 0 && st.stk.below == Empty && st.hit == 2
    ensures AfterArmed(st, Obj(ms), PassedMembers(Opened(st, CountMembers(ms)), ms))
  {
    hide CountMembers;
    CloseScope(st.stk.rem - 1);
    assert |Flatten(Obj(ms))| == 1 + |FlattenMembers(ms)|;
  }

  lemma ArmedValue(q: Query, v: Value, st: State)
    requires st.found.None? && st.stk.Level? && st.stk.rem > 0 && st.stk.below == Empty
    requires st.hit == 2 && q.scope.Some? && q.lvl == 2
    ensures var r := Run(q, st, Flatten(v));
            var i := if v.Obj? then Index(v.members, q.id) else None;
            if i.Some? then r.found == Shift(i, |st.trace| + 1) else AfterArmed(st, v, r)
  {
    hide Run, Step, Flatten, AfterArmed;
    if IsScalar(v) { ArmedScalar(q, v, st); }
    else if v == Arr(NoElem) || v == Obj(NoMember) { ArmedEmpty(q, v, st); }
    else if v.Arr? { ArmedArray(q, v.elems, st); }
    else { ArmedObject(q, v.members, st); }
  }

  lemma ScopedKey(q: Query, st: State, key: string, armed: bool)
    requires st.found.None? && st.stk.Level? && st.stk.rem > 0 && st.stk.below == Empty
    requires st.hit == (if armed then 2 else -1) && q.scope.Some? && q.lvl == 2
    ensures Step(q, st, Item(String, 1, key)) == Keyed(st).(hit := if armed || key == q.scope.value then 2 else -1)
  {
    assert Depth(st.stk) == 1;
  }

  lemma ScopedValue(q: Query, v: Value, st: State, a: bool)
    requires st.found.None? && st.stk.Level? && st.stk.rem > 0 && st.stk.below == Empty
    requires st.hit == (if a then 2 else -1) && q.scope.Some? && q.lvl == 2
    ensures var r := Run(q, st, Flatten(v));
            var i := if a && v.Obj? then Index(v.members, q.id) else None;
            && (i.Some? ==> r.found == Shift(i, |st.trace| + 1))
            && (i.None? ==> r.found.None? && |r.trace| == |st.trace| + |Flatten(v)|)
            && (i.None? && st.stk.rem > 1 ==>
                  r.stk == Level(st.stk.rem - 1, Empty) && r.hit == if a && IsScalar(v) then 2 else -1)
  {
    hide Run, Levels, Index;
    if a { ArmedValue(q, v, st); } else { QuietValue(q, v, st); }
  }

  /** Search for a member of a member. */
  lemma {:induction false} ScopedRun(q: Query, ms: Members, st: State, armed: bool)
    requires ms.Member? && st.found.None? && st.stk == Level(CountMembers(ms), Empty)
    requires st.hit == (if armed then 2 else -1) && q.scope.Some? && q.lvl == 2
    ensures Run(q, st, FlattenMembers(ms)).found == Shift(ScopedIndex(ms, q.scope.value, q.id, armed), |st.trace|)
    decreases ms, 1
  {
    var key, val, more := Item(String, 1, ms.key), Flatten(ms.value), FlattenMembers(ms.more);
    FlattenSplits(ms);
    RunOne(q, st, key, val + more);
    var a := armed || ms.key == q.scope.value;
    ScopedKey(q, st, ms.key, armed);
    var st1 := Keyed(st).(hit := if a then 2 else -1);
    RunAppend(q, st1, val, more);
    ScopedValue(q, ms.value, st1, a);
    ScopedRest(q, ms, st1, Run(q, st1, val), a);
  }

  lemma {:induction false} ScopedRest(q: Query, ms: Members, st: State, st2: State, a: bool)
    requires ms.Member? && q.scope.Some? && q.lvl == 2
    requires var i := if a && ms.value.Obj? then Index(ms.value.members, q.id) else None;
             && (i.Some? ==> st2.found == Shift(i, |st.trace| + 1))
             && (i.None? ==> st2.found.None? && |st2.trace| == |st.trace| + |Flatten(ms.value)|)
             && (i.None? && ms.more.Member? ==>
                   && st2.stk == Level(CountMembers(ms.more), Empty)
                   && st2.hit == if a && IsScalar(ms.value) then 2 else -1)
    requires |st.trace| > 0 && (ms.key == q.scope.value ==> a)
    ensures Run(q, st2, FlattenMembers(ms.more)).found == Shift(ScopedIndex(ms, q.scope.value, q.id, a), |st.trace| - 1)
    decreases ms, 0
  {
    hide Step, Flatten, Index, Levels;
    if st2.found.Some? {
      Stops(q, st2, FlattenMembers(ms.more));
    } else if ms.more.Member? {
      hide Run, FlattenMembers;
      ScopedRun(q, ms.more, st2, a && IsScalar(ms.value));
    }
  }
}
