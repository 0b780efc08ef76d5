/**
 Whole runs of the setters: which keys are never repeated, and that what was set stays until it
 is set again.
 */
module CfgRun {
  import opened Optional
  import opened Json
  import opened CfgLookup
  import opened CfgTree
  import opened CfgDoc
  import opened CfgInto
  import opened Cfg

  /** A set appends its whole name where the name has no place to go to. */
  predicate GoesAstray(ms: Members, n: Name) { n.Bad? || (n.Two? && !HasKey(ms, n.id1)) }

  lemma OnceReplaced(ms: Members, key: string, v: Value, k: string)
    requires HasKey(ms, key)
    ensures Once(Replace(ms, key, v), k) <==> Once(ms, k)
  {
    var f, b := Ahead(ms, key), From(ms, key);
    Parts(ms, key);
    OnceJoin(f, b, k);
    OnceJoin(f, First(Trim(b.more), key, v), k);
    TrimFind(b.more, k);
    OnceTrim(b.more, k);
  }

  lemma OnceTrim(ms: Members, k: string)
    ensures Once(Trim(ms), k) <==> Once(ms, k)
  {
  }

  lemma OnceAppended(ms: Members, key: string, v: Value, k: string)
    ensures Once(Append(ms, key, v), k) <==> Once(ms, k) && !(k == key && HasKey(ms, key))
  {
    OnceJoin(ms, One(key, v), k);
    AbsentIsOnce(NoMember, k);
    assert Once(One(key, v), k) && (HasKey(One(key, v), k) <==> k == key);
  }

  // ---- repeated names ------------------------------------------------------------------------

  lemma RemoveOther(ms: Members, key: string, k: string)
    requires k != key && HasKey(ms, key)
    ensures Find(Remove(ms, key), k) == Find(ms, k) && (Once(Remove(ms, key), k) <==> Once(ms, k))
  {
    var f, b := Ahead(ms, key), From(ms, key);
    Parts(ms, key);
    JoinFind(f, b, k); JoinFind(f, Trim(b.more), k);
    OnceJoin(f, b, k); OnceJoin(f, Trim(b.more), k);
    TrimFind(b.more, k);
    OnceTrim(b.more, k);
  }

  /** Of a repeated name one occurrence is left, with the value; nothing happens to other keys. */
  lemma {:induction false} PutWhole(ms: Members, id: string, v: Value, k: string)
    requires HasKey(ms, id)
    ensures var w := Put(ms, id, Whole(id), v);
            if k == id then Find(w, k) == Some(v) && Once(w, k)
            else Find(w, k) == Find(ms, k) && (Once(w, k) <==> Once(ms, k))
    decreases |Entries(ms)|
  {
    RemoveOnce(ms, id);
    if HasKey(Remove(ms, id), id) {
      RemoveEntries(ms, id);
      if k != id { RemoveOther(ms, id, k); }
      hide Entries, Remove, Once, Find;
      PutWhole(Remove(ms, id), id, v, k);
    } else {
      ReplaceFind(ms, id, v, k);
      OnceReplaced(ms, id, v, k);
    }
  }

  function Others(es: seq<(string, Value)>, id: string): seq<(string, Value)> {
    if es == [] then [] else (if es[0].0 == id then [] else [es[0]]) + Others(es[1..], id)
  }

  lemma {:induction false} OthersWithout(a: seq<(string, Value)>, id: string, j: nat)
    requires j < |a| && a[j].0 == id
    ensures Others(a[..j] + a[j + 1..], id) == Others(a, id)
  {
    if j == 0 {
      assert a[..j] + a[j + 1..] == a[1..];
    } else {
      var b := a[..j] + a[j + 1..];
      assert b[0] == a[0] && b[1..] == a[1..][..j - 1] + a[1..][j..];
      OthersWithout(a[1..], id, j - 1);
    }
  }

  /** It is the last one, at its place. */
  lemma {:induction false} PutEntries(ms: Members, id: string, v: Value, i: nat)
    requires i < |Entries(ms)| && Entries(ms)[i].0 == id && HasKey(ms, id)
    requires forall j :: i < j < |Entries(ms)| ==> Entries(ms)[j].0 != id
    ensures var es := Entries(ms);
            Entries(Put(ms, id, Whole(id), v)) == Others(es[..i], id) + [(id, v)] + es[i + 1..]
    decreases |Entries(ms)|
  {
    hide *;
    var es, j := Entries(ms), |Entries(Ahead(ms, id))|;
    RemoveEntries(ms, id);
    PutCases(ms, id, v);
    if j < i {
      OneTaken(es, id, j, i);
      HasEntry(Remove(ms, id), id, i - 1);
      PutEntries(Remove(ms, id), id, v, i - 1);
    } else {
      LastPut(ms, id, v, i);
    }
  }

  lemma LastPut(ms: Members, id: string, v: Value, i: nat)
    requires HasKey(ms, id) && i <= |Entries(Ahead(ms, id))| && i < |Entries(ms)| && Entries(ms)[i].0 == id
    requires forall j :: i < j < |Entries(ms)| ==> Entries(ms)[j].0 != id
    ensures var es := Entries(ms);
            Entries(Put(ms, id, Whole(id), v)) == Others(es[..i], id) + [(id, v)] + es[i + 1..]
  {
    hide *;
    var es := Entries(ms);
    RemoveEntries(ms, id);
    ReplaceEntries(ms, id, v);
    FirstEntry(ms, id);
    PutCases(ms, id, v);
    NoEntry(Remove(ms, id), id, es, i);
    OthersNone(es[..i], id);
    assert es[i := (id, v)] == es[..i] + [(id, v)] + es[i + 1..];
  }

  lemma PutCases(ms: Members, id: string, v: Value)
    requires HasKey(ms, id)
    ensures Put(ms, id, Whole(id), v)
            == if HasKey(Remove(ms, id), id) then Put(Remove(ms, id), id, Whole(id), v) else Replace(ms, id, v)
  {
  }

  lemma HasEntry(ms: Members, id: string, i: nat)
    requires i < |Entries(ms)| && Entries(ms)[i].0 == id
    ensures HasKey(ms, id)
  {
    EntryKeys(ms, id);
  }

  lemma NoEntry(ms: Members, id: string, es: seq<(string, Value)>, j: nat)
    requires j < |es| && Entries(ms) == es[..j] + es[j + 1..] && forall k :: 0 <= k < |es| && k != j ==> es[k].0 != id
    ensures !HasKey(ms, id)
  {
    EntryKeys(ms, id);
    hide Entries, HasKey;
    assert forall k :: 0 <= k < |Entries(ms)| ==> Entries(ms)[k] == if k < j then es[k] else es[k + 1];
  }

  /** Taking out an earlier entry of the key. */
  lemma OneTaken(es: seq<(string, Value)>, id: string, j: nat, i: nat)
    requires j < i < |es| && es[j].0 == id
    ensures var rest := es[..j] + es[j + 1..];
            && |rest| == |es| - 1 && rest[i - 1] == es[i] && Others(rest[..i - 1], id) == Others(es[..i], id)
            && rest[i..] == es[i + 1..] && forall k :: i <= k < |rest| ==> rest[k] == es[k + 1]
  {
    var rest := es[..j] + es[j + 1..];
    OthersWithout(es[..i], id, j);
    assert rest[..i - 1] == es[..i][..j] + es[..i][j + 1..];
  }

  /** The first entry of a key is the first. */
  lemma FirstEntry(ms: Members, id: string)
    requires HasKey(ms, id)
    ensures var j := |Entries(Ahead(ms, id))|;
            j < |Entries(ms)| && forall k :: 0 <= k < j ==> Entries(ms)[k].0 != id
  {
    var f, b := Ahead(ms, id), From(ms, id);
    Parts(ms, id);
    JoinEntries(f, b);
    EntryKeys(f, id);
    assert Entries(b) == [(b.key, b.value)] + Entries(b.more);
  }

  lemma {:induction false} OthersNone(es: seq<(string, Value)>, id: string)
    requires forall k :: 0 <= k < |es| ==> es[k].0 != id
    ensures Others(es, id) == es
  {
    if es != [] { OthersNone(es[1..], id); }
  }

  // ---- what one set does ---------------------------------------------------------------------

  /** A set leaves its own name once, and repeats a key exactly when it goes astray for the second
      time. */
  lemma SetKeepsOnce(ms: Members, name: string, n: Name, v: Value, k: string)
    requires Usable(ms, n) && (n.Whole? ==> n.id == name)
    ensures Once(Put(ms, name, n, v), k) <==>
            if n == Whole(k) then true else Once(ms, k) && !(k == name && HasKey(ms, name) && GoesAstray(ms, n))
  {
    hide Once, Replace, Append, SetInner, WithInner;
    match n
    case Bad => OnceAppended(ms, name, v, k);
    case Whole(id) =>
      if HasKey(ms, id) {
        PutWhole(ms, id, v, k);
      } else {
        AbsentIsOnce(ms, id);
        OnceAppended(ms, id, v, k);
      }
    case Two(id1, id2) =>
      if HasKey(ms, id1) {
        OnceInner(ms, id1, SetInner(From(ms, id1).value.members, id2, v), k);
      } else {
        OnceAppended(ms, name, v, k);
      }
  }

  /** A value set can be read back exactly when the set does not go astray. */
  lemma PutThenGet(ms: Members, name: string, n: Name, v: Value)
    requires Usable(ms, n) && (n.Whole? ==> n.id == name) && (n.Two? && !HasKey(ms, n.id1) ==> n.id1 != name)
    ensures Get(Put(ms, name, n, v), n) == Some(v) <==> !GoesAstray(ms, n)
  {
    hide With;
    SetThenGet(ms, name, n, v);
    if n.Whole? && HasKey(ms, n.id) { PutWhole(ms, n.id, v, n.id); }
  }

  // ---- runs -------------------------------------------------------------------------------

  datatype Op = Op(name: string, noDot: bool, setter: Setter, v: Value)

  function TargetOf(ms: Members, op: Op): Name { Target(ms, NameOf(op.name, op.noDot)) }

  /** The setter neither panics nor breaks the text. */
  predicate Sets(ms: Members, op: Op) {
    var n, t := NameOf(op.name, op.noDot), TargetOf(ms, op);
    !Lost(ms, n) && Usable(ms, t) && MayReplace(ms, t, op.setter)
  }

  function SetOne(ms: Members, op: Op): Members
    requires Sets(ms, op)
  {
    Put(ms, op.name, TargetOf(ms, op), op.v)
  }

  predicate AllSet(ms: Members, ops: seq<Op>)
    decreases |ops|
  {
    ops == [] || (Sets(ms, ops[0]) && AllSet(SetOne(ms, ops[0]), ops[1..]))
  }

  function SetAll(ms: Members, ops: seq<Op>): Members
    requires AllSet(ms, ops)
    decreases |ops|
  {
    if ops == [] then ms else SetAll(SetOne(ms, ops[0]), ops[1..])
  }

  /** Keys without a dot are not repeated. */
  ghost predicate Plain(ms: Members) { forall k :: '.' !in k ==> Once(ms, k) }

  lemma NameDots(name: string, noDot: bool)
    ensures var n := NameOf(name, noDot);
            && (n.Whole? ==> n.id == name) && (!n.Whole? ==> '.' in name) && (n.Two? ==> '.' !in n.id1)
  {
  }

  /** In no run is a key without a dot repeated. */
  lemma {:induction false} RunKeepsPlain(ms: Members, ops: seq<Op>)
    requires Plain(ms) && AllSet(ms, ops)
    ensures Plain(SetAll(ms, ops))
    decreases |ops|
  {
    if ops != [] {
      var op := ops[0];
      NameDots(op.name, op.noDot);
      forall k | '.' !in k ensures Once(SetOne(ms, op), k) {
        SetKeepsOnce(ms, op.name, TargetOf(ms, op), op.v, k);
      }
      RunKeepsPlain(SetOne(ms, op), ops[1..]);
    }
  }

  /** So after any run a setter meets the documents it is meant for, unless its name has two parts
      and strays into an object with a dot in its key. */
  lemma RunIsSearchable(ms: Members, ops: seq<Op>, name: string, noDot: bool)
    requires Unique(ms) && AllSet(ms, ops)
    requires var n := NameOf(name, noDot);
             n.Two? && Strays(SetAll(ms, ops), n.id1, n.id2) ==> '.' !in StrayKey(SetAll(ms, ops), n.id1, n.id2)
    ensures Searchable(SetAll(ms, ops), NameOf(name, noDot))
  {
    forall k | '.' !in k ensures Once(ms, k) { UniqueIsOnce(ms, k); }
    RunKeepsPlain(ms, ops);
    NameDots(name, noDot);
  }

  // ---- the last set wins --------------------------------------------------------------------

  /** A set of `t`, or of the whole name if it goes astray, can change what `m` stands for. */
  predicate Touches(t: Name, name: string, m: Name) {
    match m
    case Bad => false
    case Whole(k) => k == name || (t.Whole? && t.id == k) || (t.Two? && t.id1 == k)
    case Two(a, b) => a == name || (t.Whole? && t.id == a) || t == m
  }

  lemma SetKeepsGet(ms: Members, name: string, t: Name, v: Value, m: Name)
    requires Usable(ms, t) && (t.Whole? ==> t.id == name) && !Touches(t, name, m)
    ensures Get(Put(ms, name, t, v), m) == Get(ms, m)
  {
    if t.Whole? && HasKey(ms, t.id) {
      if m.Whole? { PutWhole(ms, t.id, v, m.id); }
      if m.Two? { PutWhole(ms, t.id, v, m.id1); }
    } else {
      WithKeepsGet(ms, name, t, v, m);
    }
  }

  lemma WithKeepsGet(ms: Members, name: string, t: Name, v: Value, m: Name)
    requires Usable(ms, t) && (t.Whole? ==> t.id == name) && !Touches(t, name, m)
    ensures Get(With(ms, name, t, v), m) == Get(ms, m)
  {
    match m
    case Bad =>
    case Whole(k) => SetKeepsOthers(ms, name, t, v, k);
    case Two(a, b) =>
      if t.Two? && t.id1 == a {
        if HasKey(ms, a) {
          SetKeepsInner(ms, name, a, t.id2, v, b);
        } else {
          JoinFind(ms, One(name, v), a);
          FindHas(ms, a);
        }
      } else {
        SetKeepsOthers(ms, name, t, v, a);
      }
  }

  /** No setter of the run touches `m`. */
  predicate Untouched(ms: Members, ops: seq<Op>, m: Name)
    requires AllSet(ms, ops)
    decreases |ops|
  {
    ops == [] || (!Touches(TargetOf(ms, ops[0]), ops[0].name, m) && Untouched(SetOne(ms, ops[0]), ops[1..], m))
  }

  lemma {:induction false} RunKeepsGet(ms: Members, ops: seq<Op>, m: Name)
    requires AllSet(ms, ops) && Untouched(ms, ops, m)
    ensures Get(SetAll(ms, ops), m) == Get(ms, m)
    decreases |ops|
  {
    if ops != [] {
      NameDots(ops[0].name, ops[0].noDot);
      SetKeepsGet(ms, ops[0].name, TargetOf(ms, ops[0]), ops[0].v, m);
      RunKeepsGet(SetOne(ms, ops[0]), ops[1..], m);
    }
  }

  /** What was set, and not astray, is what its name stands for until a setter touches it. */
  lemma LastSetWins(ms: Members, op: Op, ops: seq<Op>)
    requires Sets(ms, op) && AllSet(SetOne(ms, op), ops)
    requires var t := TargetOf(ms, op); !GoesAstray(ms, t) && Untouched(SetOne(ms, op), ops, t)
    ensures Get(SetAll(SetOne(ms, op), ops), TargetOf(ms, op)) == Some(op.v)
  {
    NameDots(op.name, op.noDot);
    PutThenGet(ms, op.name, TargetOf(ms, op), op.v);
    RunKeepsGet(SetOne(ms, op), ops, TargetOf(ms, op));
  }
}
