/**
 The line of the label file that holds an entry: its text, the tokens made of it, and reading
 an entry from tokens. Reading looks at tokens one after another, also behind the last one of
 the line, where those of earlier lines are left.
 */
module DxLine {
  import opened Optional
  import opened Json
  import opened Jsmn
  import opened JsmnCut
  import opened CfgWalk
  import opened CfgLookup
  import CfgDoc
  import opened DxList
  import opened DxText
  import opened DxFile

  type Option_ = (string, DxFile.Value)

  // ---- the text ------------------------------------------------------------------------

  function Abs(n: int): nat { if n < 0 then -n else n }

  function Sign(n: int): string { if n < 0 then "-" else "" }

  /** `%d`. */
  function IntText(n: int): string { Sign(n) + Decimal(Abs(n)) }

  /** `%.2f`, of so many hundredths. */
  function FreqText(centi: int): string {
    var c := Abs(centi);
    Sign(centi) + Decimal(c / 100) + "." + [Digit(c / 10 % 10), Digit(c % 10)]
  }

  function ValueText(v: DxFile.Value): string {
    match v case Num(n) => IntText(n) case Text(s) => "\"" + s + "\""
  }

  function OptionsText(os: seq<Option_>): string {
    if os == [] then ""
    else "\"" + os[0].0 + "\":" + ValueText(os[0].1) + if |os| == 1 then "" else ", " + OptionsText(os[1..])
  }

  function TextField(s: string): string { ", \"" + s + "\"" }

  function OptionsField(s: Saved): string {
    if s.options.Some? then ", {" + OptionsText(s.options.value) + "}" else ""
  }

  /** The element that `dx_save_as_json` prints for an entry. */
  function ElementText(s: Saved): string {
    "[" + FreqText(s.centi) + TextField(s.mode) + TextField(s.ident) + TextField(s.notes) + OptionsField(s) + "]"
  }

  // ---- the value -----------------------------------------------------------------------

  function OptionValue(v: DxFile.Value): Json.Value {
    match v case Num(n) => Prim(IntText(n)) case Text(s) => Str(s)
  }

  function Members(os: seq<Option_>, pre: string): Json.Members {
    if os == [] then NoMember else Member(pre, os[0].0, "", OptionValue(os[0].1), "", Members(os[1..], " "))
  }

  function Options_(s: Saved): Elems {
    if s.options.Some? then Elem(" ", Obj(Members(s.options.value, "")), "", NoElem) else NoElem
  }

  function Element(s: Saved): Json.Value {
    Arr(Elem("", Prim(FreqText(s.centi)), "", Elem(" ", Str(s.mode), "", Elem(" ", Str(s.ident), "",
        Elem(" ", Str(s.notes), "", Options_(s))))))
  }

  lemma {:induction false} OptionsRender(os: seq<Option_>, pre: string)
    ensures RenderMembers(Members(os, pre)) == (if os == [] then "" else pre) + OptionsText(os)
    decreases |os|
  {
    if os != [] {
      var v, more := ValueText(os[0].1), if |os| == 1 then "" else ", " + OptionsText(os[1..]);
      assert Render(OptionValue(os[0].1)) == v;
      OptionsRender(os[1..], " ");
      hide Render, ValueText, OptionValue;
      assert RenderMembers(Members(os, pre)) == pre + "\"" + os[0].0 + "\":" + "" + v + "" + more by {
        if |os| > 1 { assert "," + (" " + OptionsText(os[1..])) == more; }
      }
      hide RenderMembers;
      Keyed(pre, os[0].0, v, more);
    }
  }

  lemma Keyed(pre: string, key: string, v: string, more: string)
    ensures pre + "\"" + key + "\":" + "" + v + "" + more == pre + ("\"" + key + "\":" + v + more)
  {
  }

  /** What follows an element. */
  function More(es: Elems): string { if es.NoElem? then "" else "," + RenderElems(es) }

  lemma OneElem(pre: string, v: Json.Value, more: Elems)
    ensures RenderElems(Elem(pre, v, "", more)) == pre + Render(v) + More(more)
  {
    hide Render;
    assert pre + Render(v) + "" == pre + Render(v);
  }

  lemma RenderIs(s: string, es: Elems, ms: Json.Members)
    ensures Render(Prim(s)) == s && Render(Str(s)) == "\"" + s + "\""
    ensures Render(Arr(es)) == "[" + RenderElems(es) + "]" && Render(Obj(ms)) == "{" + RenderMembers(ms) + "}"
  {
  }

  lemma MoreField(s: string, es: Elems)
    ensures More(Elem(" ", Str(s), "", es)) == TextField(s) + More(es)
  {
    RenderIs(s, NoElem, NoMember);
    OneElem(" ", Str(s), es);
    hide Render, RenderElems;
    var q := "\"" + s + "\"";
    assert "," + (" " + q + More(es)) == (", " + q) + More(es);
    assert TextField(s) == ", " + q;
  }

  lemma OptionsIsRender(s: Saved)
    requires s.options.Some? ==> s.options.value != []
    ensures More(Options_(s)) == OptionsField(s)
  {
    if s.options.Some? {
      var os := s.options.value;
      OptionsRender(os, "");
      RenderIs("", NoElem, Members(os, ""));
      OneElem(" ", Obj(Members(os, "")), NoElem);
      hide Render, RenderElems, RenderMembers, OptionsText, Members;
      Braced(OptionsText(os));
    }
  }

  lemma Braced(x: string)
    ensures "," + (" " + ("{" + x + "}") + "") == ", {" + x + "}"
  {
  }

  lemma ElementIsRender(s: Saved)
    requires s.options.Some? ==> s.options.value != []
    ensures Render(Element(s)) == ElementText(s)
  {
    var o := Options_(s);
    var n := Elem(" ", Str(s.notes), "", o);
    var i := Elem(" ", Str(s.ident), "", n);
    var m := Elem(" ", Str(s.mode), "", i);
    var f := FreqText(s.centi);
    OptionsIsRender(s);
    MoreField(s.notes, o); MoreField(s.ident, n); MoreField(s.mode, i);
    OneElem("", Prim(f), m);
    RenderIs(f, Elem("", Prim(f), "", m), NoMember);
    hide More, TextField, OptionsField, FreqText, RenderElems, Render, Options_;
    assert "" + f == f;
    Grouped(f, TextField(s.mode), TextField(s.ident), TextField(s.notes), OptionsField(s));
  }

  lemma Grouped(f: string, m: string, i: string, n: string, o: string)
    ensures "[" + (f + (m + (i + (n + o)))) + "]" == "[" + f + m + i + n + o + "]"
  {
  }

  // ---- numbers -------------------------------------------------------------------------

  predicate IsDigit(c: char) { '0' <= c <= '9' }

  predicate Digits(s: string) { forall i :: 0 <= i < |s| ==> IsDigit(s[i]) }

  function AfterDigits(s: string): string { if s != "" && IsDigit(s[0]) then AfterDigits(s[1..]) else s }

  /** `strtol` with base 10. */
  function IntOf(t: string): int { if t != "" && t[0] == '-' then 0 - ReadDigits(t[1..], 0) else ReadDigits(t, 0) }

  /** Digits behind the point. */
  function Fraction(s: string): real {
    if s == "" || !IsDigit(s[0]) then 0.0 else ((s[0] as int - '0' as int) as real + Fraction(s[1..])) / 10.0
  }

  function Unsigned(t: string): real {
    var r := AfterDigits(t);
    ReadDigits(t, 0) as real + if r != "" && r[0] == '.' then Fraction(r[1..]) else 0.0
  }

  /** `strtod`, without exponents. */
  function FloatOf(t: string): real { if t != "" && t[0] == '-' then -Unsigned(t[1..]) else Unsigned(t) }

  lemma {:induction false} ScanOn(a: string, b: string, acc: nat)
    requires Digits(a) && (b == "" || !IsDigit(b[0]))
    ensures ReadDigits(a + b, acc) == ReadDigits(a, acc) && AfterDigits(a + b) == b
    decreases |a|
  {
    if a == "" {
      assert a + b == b;
    } else {
      assert (a + b)[1..] == a[1..] + b;
      ScanOn(a[1..], b, 10 * acc + (a[0] as nat - '0' as nat));
    }
  }

  lemma DecimalIs(n: nat)
    ensures Digits(Decimal(n)) && ReadDigits(Decimal(n), 0) == n
  {
    ScanDecimal(n);
  }

  /** A number printed is read back. */
  lemma IntReads(n: int)
    ensures IntOf(IntText(n)) == n && NumberText(IntText(n)) && PrimitiveOk(IntText(n))
  {
    var d := Decimal(Abs(n));
    DecimalIs(Abs(n));
    assert n < 0 ==> IntText(n)[1..] == d;
    assert n >= 0 ==> IntText(n) == d;
    hide ReadDigits, Decimal;
  }

  /** What `_cfg_int_json` and `_cfg_float_json` take for a number. */
  predicate NumberText(t: string) { t != "" && (t[0] == '-' || IsDigit(t[0])) }

  lemma TwoDigits(a: nat, b: nat)
    requires a < 10 && b < 10
    ensures Fraction([Digit(a), Digit(b)]) == (10 * a + b) as real / 100.0
  {
    DigitIs(a); DigitIs(b);
    var s := [Digit(a), Digit(b)];
    assert s[1..] == [Digit(b)] && [Digit(b)][1..] == "";
    hide Digit;
    assert Fraction("") == 0.0;
    assert Fraction([Digit(b)]) == (b as real + 0.0) / 10.0;
    assert Fraction(s) == (a as real + b as real / 10.0) / 10.0;
  }

  lemma UnsignedReads(c: nat)
    ensures var t := Decimal(c / 100) + "." + [Digit(c / 10 % 10), Digit(c % 10)]; Unsigned(t) == c as real / 100.0
  {
    var x, y := c / 10 % 10, c % 10;
    DecimalIs(c / 100);
    hide *;
    WithFraction(Decimal(c / 100), [Digit(x), Digit(y)]);
    TwoDigits(x, y);
    Hundredths(c);
  }

  lemma WithFraction(a: string, f: string)
    requires Digits(a)
    ensures Unsigned(a + "." + f) == ReadDigits(a, 0) as real + Fraction(f)
  {
    ScanOn(a, "." + f, 0);
    assert a + "." + f == a + ("." + f) && ("." + f)[1..] == f;
    hide ReadDigits, AfterDigits, Fraction;
  }

  lemma Hundredths(c: nat)
    ensures (c / 100) as real + (10 * (c / 10 % 10) + c % 10) as real / 100.0 == c as real / 100.0
  {
    var a, b := c / 100, 10 * (c / 10 % 10) + c % 10;
    assert c == 100 * a + b;
    assert c as real == 100.0 * a as real + b as real;
  }

  lemma FractionOk(a: string, x: nat, y: nat)
    requires a != "" && Digits(a) && x < 10 && y < 10
    ensures var t := a + "." + [Digit(x), Digit(y)];
            PrimitiveOk(t) && PrimitiveOk("-" + t) && NumberText(t) && t[0] != '-'
  {
    DigitIs(x); DigitIs(y);
    hide Digit;
  }

  lemma FreqReads(centi: int)
    ensures FloatOf(FreqText(centi)) == centi as real / 100.0 && NumberText(FreqText(centi))
            && PrimitiveOk(FreqText(centi))
  {
    var c := Abs(centi);
    UnsignedReads(c);
    DecimalIs(c / 100);
    FractionOk(Decimal(c / 100), c / 10 % 10, c % 10);
    var t := Decimal(c / 100) + "." + [Digit(c / 10 % 10), Digit(c % 10)];
    assert FreqText(centi) == Sign(centi) + t;
    assert centi < 0 ==> FreqText(centi)[1..] == t;
    assert centi >= 0 ==> FreqText(centi) == t;
    hide FreqText, Decimal, Digit, Unsigned, Digits, PrimitiveOk;
  }

  // ---- reading an entry ------------------------------------------------------------------

  /** The outcome of `dx_reload_element`: the entry, or what a refusal leaves of the slot; and
      the frequency that the next entry must reach. */
  datatype Got = Got(ok: bool, d: Dx, last: real)

  function KindAt(ts: seq<Item>, i: nat): Kind { if i < |ts| then ts[i].kind else Undefined }

  predicate IsInt(ts: seq<Item>, i: nat) { KindAt(ts, i) == Primitive && NumberText(ts[i].text) }

  predicate IsFloat(ts: seq<Item>, i: nat) {
    KindAt(ts, i) == Primitive && (NumberText(ts[i].text) || "." <= ts[i].text)
  }

  /** `dx_reload_element` on the tokens, of which the first `n` are those of the line. */
  function ReadElement(ts: seq<Item>, n: nat, slot: Dx, last: real): Got {
    if KindAt(ts, 0) != Array || !IsFloat(ts, 1) then Got(false, slot, last)
    else
      var freq := FloatOf(ts[1].text);
      var d := slot.(freq := freq);
      if freq < last then Got(false, d, 0.0) else ReadTexts(ts, n, d, freq)
  }

  /** Mode, ident and notes. */
  function ReadTexts(ts: seq<Item>, n: nat, d: Dx, last: real): Got {
    if KindAt(ts, 2) != String then Got(false, d, last)
    else
      var m := d.(mode := ModeOf(CString(Decode(ts[2].text)), 0), typ := 0, dow := 0);
      if KindAt(ts, 3) != String then Got(false, m, last)
      else
        var i := m.(ident := LoadedText(ts[3].text));
        if KindAt(ts, 4) != String then Got(false, i, last)
        else ReadRest(ts, n, i.(notes := LoadedText(ts[4].text)), last)
  }

  /** Two numbers of old files are skipped. */
  function Skip(ts: seq<Item>, j: nat): nat { if IsInt(ts, j) then j + 1 else j }

  function ReadRest(ts: seq<Item>, n: nat, d: Dx, last: real): Got {
    var j := Skip(ts, Skip(ts, 5));
    if j != n && KindAt(ts, j) == Object then
      var (ok, e, dow) := ReadOptions(ts, n, j + 1, d, ALL_DAYS);
      Got(ok, if ok then Finished(e, dow) else e, last)
    else Got(true, Finished(d, ALL_DAYS), last)
  }

  function ReadOptions(ts: seq<Item>, n: nat, j: nat, d: Dx, dow: nat): (bool, Dx, nat)
    decreases if j < |ts| then |ts| - j else 0
  {
    if j == n || KindAt(ts, j) == Array then (true, d, dow)
    else if j >= |ts| || !IsKey(ts[j]) then (false, d, dow)
    else
      var id := CString(Decode(ts[j].text));
      var (e, w) := if IsInt(ts, j + 1) then LoadOption(d, dow, (id, Num(IntOf(ts[j + 1].text))))
                    else if KindAt(ts, j + 1) == String then LoadOption(d, dow, (id, Text(ts[j + 1].text)))
                    else (d, dow);
      ReadOptions(ts, n, j + 2, e, w)
  }

  // ---- reading what was saved --------------------------------------------------------------

  predicate Plain(s: string) { '%' !in s && '\0' !in s }

  lemma {:induction false} PlainDecodes(s: string)
    requires Plain(s)
    ensures CString(Decode(s)) == s && Decode(s) == s
  {
    if s != "" {
      assert s[0] in s && forall c :: c in s[1..] ==> c in s;
      PlainDecodes(s[1..]);
    }
  }

  function OptionItem(v: DxFile.Value): Item {
    match v case Num(n) => Item(Primitive, 0, IntText(n)) case Text(s) => Item(String, 0, s)
  }

  function OptionItems(os: seq<Option_>): (ts: seq<Item>)
    ensures |ts| == 2 * |os|
  {
    if os == [] then [] else [Item(String, 1, os[0].0), OptionItem(os[0].1)] + OptionItems(os[1..])
  }

  lemma {:induction false} FlattenOptions(os: seq<Option_>, pre: string)
    ensures FlattenMembers(Members(os, pre)) == OptionItems(os)
    decreases |os|
  {
    if os != [] {
      FlattenOptions(os[1..], " ");
      assert Flatten(OptionValue(os[0].1)) == [OptionItem(os[0].1)];
    }
  }

  predicate PlainKeys(os: seq<Option_>) { forall i :: 0 <= i < |os| ==> Plain(os[i].0) }

  lemma {:induction false} OptionsRead(ts: seq<Item>, n: nat, j: nat, os: seq<Option_>, d: Dx, dow: nat)
    requires j + 2 * |os| == n <= |ts| && ts[j..n] == OptionItems(os) && PlainKeys(os)
    ensures ReadOptions(ts, n, j, d, dow) == (true, LoadOptions(d, dow, os).0, LoadOptions(d, dow, os).1)
    decreases |os|
  {
    if os != [] {
      var o := os[0];
      OptionsFirst(ts, n, j, os);
      PlainDecodes(o.0);
      if o.1.Num? { IntReads(o.1.n); }
      var (e, w) := LoadOption(d, dow, o);
      hide LoadOption, CString, Decode, IntOf, IntText, OptionItems, NumberText, PrimitiveOk;
      assert ReadOptions(ts, n, j, d, dow) == ReadOptions(ts, n, j + 2, e, w);
      OptionsRead(ts, n, j + 2, os[1..], e, w);
    }
  }

  lemma OptionsFirst(ts: seq<Item>, n: nat, j: nat, os: seq<Option_>)
    requires os != [] && j + 2 * |os| == n <= |ts| && ts[j..n] == OptionItems(os)
    ensures ts[j] == Item(String, 1, os[0].0) && ts[j + 1] == OptionItem(os[0].1)
    ensures ts[j + 2..n] == OptionItems(os[1..])
  {
    assert ts[j] == ts[j..n][0] && ts[j + 1] == ts[j..n][1];
    assert ts[j + 2..n] == ts[j..n][2..];
  }

  /** An empty slot. */
  const NoDx := Dx(0.0, 0, 0, 0, 0, 0, 0, 0, 0, 0, "", "", "", 0)

  /** What saving makes of modes and options: at most nine of them. */
  predicate SavedOk(s: Saved) {
    Plain(s.mode) && (s.options.Some? ==> 0 < |s.options.value| <= 9 && PlainKeys(s.options.value))
  }

  function Fields(s: Saved): seq<Item> {
    [Item(Array, if s.options.Some? then 5 else 4, Render(Element(s))), Item(Primitive, 0, FreqText(s.centi)),
     Item(String, 0, s.mode), Item(String, 0, s.ident), Item(String, 0, s.notes)]
  }

  function OptionFields(s: Saved): seq<Item> {
    if s.options.Some? then
      var v := Obj(Members(s.options.value, ""));
      [Item(Object, CountMembers(v.members), Render(v))] + OptionItems(s.options.value)
    else []
  }

  lemma ElementItems(s: Saved)
    ensures Flatten(Element(s)) == Fields(s) + OptionFields(s)
  {
    if s.options.Some? { FlattenOptions(s.options.value, ""); }
    OptionsFlat(s);
    var n := Elem(" ", Str(s.notes), "", Options_(s));
    var i := Elem(" ", Str(s.ident), "", n);
    var m := Elem(" ", Str(s.mode), "", i);
    var f := Elem("", Prim(FreqText(s.centi)), "", m);
    hide Render, FreqText, Options_, OptionFields;
    OneFlat("", Prim(FreqText(s.centi)), m); OneFlat(" ", Str(s.mode), i); OneFlat(" ", Str(s.ident), n);
    OneFlat(" ", Str(s.notes), Options_(s));
    CountFields(s);
    ArrayFlat(f);
    hide FlattenElems, Flatten, CountElems;
  }

  lemma ArrayFlat(es: Elems)
    ensures Flatten(Arr(es)) == [Item(Array, CountElems(es), Render(Arr(es)))] + FlattenElems(es)
  {
    hide Render;
  }

  lemma OneFlat(pre: string, v: Json.Value, more: Elems)
    requires IsScalar(v)
    ensures FlattenElems(Elem(pre, v, "", more))
            == [Item(if v.Prim? then Primitive else String, 0, v.text)] + FlattenElems(more)
  {
    assert Flatten(v) == [Item(if v.Prim? then Primitive else String, 0, v.text)];
  }

  lemma CountFields(s: Saved)
    ensures CountElems(Element(s).elems) == if s.options.Some? then 5 else 4
  {
    var o := Options_(s);
    assert CountElems(o) == if s.options.Some? then 1 else 0;
    hide Options_, FreqText;
    var n := Elem(" ", Str(s.notes), "", o);
    var i := Elem(" ", Str(s.ident), "", n);
    assert CountElems(i) == 2 + CountElems(o);
    assert CountElems(Elem(" ", Str(s.mode), "", i)) == 3 + CountElems(o);
  }

  lemma OptionsFlat(s: Saved)
    ensures FlattenElems(Options_(s)) == OptionFields(s)
  {
    if s.options.Some? {
      FlattenOptions(s.options.value, "");
      hide OptionItems, FlattenMembers, Members, CountMembers, Render;
      var v := Obj(Members(s.options.value, ""));
      assert Flatten(v) == OptionFields(s);
      assert FlattenElems(Options_(s)) == Flatten(v) + FlattenElems(NoElem);
      assert FlattenElems(NoElem) == [];
    }
  }

  /** The entry in a saved element is read, whatever earlier lines left behind its tokens: but
      if it has no options, no object may stand there where two numbers would be skipped. */
  lemma ReadSaved(ts: seq<Item>, n: nat, s: Saved, last: real)
    requires SavedOk(s) && n <= |ts| && ts[..n] == Flatten(Element(s)) && last <= s.centi as real / 100.0
    requires s.options.None? ==> KindAt(ts, 6) != Object && KindAt(ts, 7) != Object
    ensures ReadElement(ts, n, NoDx, last) == Got(true, Read(s), s.centi as real / 100.0)
  {
    hide Flatten, Element, FlattenElems, Fields, OptionFields, FreqText, FloatOf, ReadRest, Read, OptionItems,
         ReadTexts, PlainKeys, DxFile.Blank, PrimitiveOk;
    ElementItems(s);
    FieldsAt(ts, n, s);
    FreqReads(s.centi);
    RestRead(ts, n, s, s.centi as real / 100.0);
    TextsRead(ts, n, s, s.centi as real / 100.0);
  }

  lemma TextsRead(ts: seq<Item>, n: nat, s: Saved, freq: real)
    requires 5 <= |ts| && ts[2] == Item(String, 0, s.mode) && ts[3] == Item(String, 0, s.ident)
             && ts[4] == Item(String, 0, s.notes) && Plain(s.mode)
    ensures ReadTexts(ts, n, NoDx.(freq := freq), freq) == ReadRest(ts, n, DxFile.Blank(freq, s), freq)
  {
    PlainDecodes(s.mode);
    hide Decode, CString, LoadedText, ModeOf, ReadRest;
  }

  lemma RestRead(ts: seq<Item>, n: nat, s: Saved, freq: real)
    requires SavedOk(s) && freq == s.centi as real / 100.0 && 5 <= n <= |ts|
    requires if s.options.Some? then n == 6 + 2 * |s.options.value| && ts[5].kind == Object
                                    && ts[6..n] == OptionItems(s.options.value)
             else n == 5 && KindAt(ts, 6) != Object && KindAt(ts, 7) != Object
    ensures ReadRest(ts, n, DxFile.Blank(freq, s), freq) == Got(true, Read(s), freq)
  {
    hide DxFile.Blank, OptionItems;
    var d := DxFile.Blank(freq, s);
    if s.options.Some? {
      OptionsRead(ts, n, 6, s.options.value, d, ALL_DAYS);
    } else {
      assert LoadOptions(d, ALL_DAYS, []) == (d, ALL_DAYS);
    }
    hide ReadOptions, LoadOptions;
  }

  lemma FieldsAt(ts: seq<Item>, n: nat, s: Saved)
    requires n <= |ts| && ts[..n] == Fields(s) + OptionFields(s)
    ensures n == 5 + |OptionFields(s)| && ts[0].kind == Array
    ensures ts[1] == Item(Primitive, 0, FreqText(s.centi)) && ts[2] == Item(String, 0, s.mode)
    ensures ts[3] == Item(String, 0, s.ident) && ts[4] == Item(String, 0, s.notes)
    ensures if s.options.Some? then ts[5].kind == Object && n == 6 + 2 * |s.options.value|
                                    && ts[6..n] == OptionItems(s.options.value)
            else n == 5
  {
    hide FreqText;
    assert forall i :: 0 <= i < n ==> ts[i] == ts[..n][i];
    if s.options.Some? {
      assert OptionFields(s)[1..] == OptionItems(s.options.value);
      assert ts[6..n] == ts[..n][5..][1..] == OptionFields(s)[1..];
    }
  }

  // ---- what is saved can be written and tokenized -----------------------------------------

  predicate Clean(s: string) { forall c :: c in s ==> !Breaks(c) }

  predicate OptionOk(o: Option_) { Plain(o.0) && Clean(o.0) && (o.1.Text? ==> Clean(o.1.s)) }

  predicate OptionsOk(os: seq<Option_>) { forall i :: 0 <= i < |os| ==> OptionOk(os[i]) }

  predicate CleanSaved(s: Saved) {
    Clean(s.mode) && Clean(s.ident) && Clean(s.notes) && (s.options.Some? ==> OptionsOk(s.options.value))
  }

  lemma CleanString(s: string)
    requires Clean(s)
    ensures StringOk(s) && '\n' !in s
  {
    NoQuotes(s);
  }

  lemma {:induction false} OptionsValueOk(os: seq<Option_>, pre: string)
    requires OptionsOk(os) && Jsmn.Blank(pre)
    ensures MembersOk(Members(os, pre))
    decreases |os|
  {
    if os != [] {
      assert OptionOk(os[0]);
      CleanString(os[0].0);
      if os[0].1.Num? { IntReads(os[0].1.n); } else { CleanString(os[0].1.s); }
      hide Clean, StringOk, PrimitiveOk, IntText;
      OptionsValueOk(os[1..], " ");
    }
  }

  lemma ElementOk(s: Saved)
    requires CleanSaved(s)
    ensures ValueOk(Element(s))
  {
    var o := Options_(s);
    var n := Elem(" ", Str(s.notes), "", o);
    var i := Elem(" ", Str(s.ident), "", n);
    var m := Elem(" ", Str(s.mode), "", i);
    FreqReads(s.centi);
    CleanString(s.mode); CleanString(s.ident); CleanString(s.notes);
    OptionsElemOk(s);
    hide *;
    StringElem(s.notes, o); StringElem(s.ident, n); StringElem(s.mode, i);
    FirstElem(FreqText(s.centi), m);
    ElementParts(s, m);
  }

  lemma ElementParts(s: Saved, m: Elems)
    requires m == Elem(" ", Str(s.mode), "", Elem(" ", Str(s.ident), "", Elem(" ", Str(s.notes), "", Options_(s))))
    ensures Element(s) == Arr(Elem("", Prim(FreqText(s.centi)), "", m))
  {
  }

  lemma OptionsElemOk(s: Saved)
    requires s.options.Some? ==> OptionsOk(s.options.value)
    ensures ElemsOk(Options_(s))
  {
    if s.options.Some? { OptionsValueOk(s.options.value, ""); }
    hide MembersOk, Members, OptionsOk;
  }

  lemma StringElem(s: string, es: Elems)
    requires StringOk(s) && ElemsOk(es)
    ensures ElemsOk(Elem(" ", Str(s), "", es))
  {
    hide StringOk;
  }

  lemma FirstElem(p: string, es: Elems)
    requires PrimitiveOk(p) && ElemsOk(es)
    ensures ValueOk(Arr(Elem("", Prim(p), "", es)))
  {
    hide PrimitiveOk;
    assert Jsmn.Blank("") && ValueOk(Prim(p));
    assert ElemsOk(Elem("", Prim(p), "", es));
  }

  lemma NoBreakInNumber(n: int)
    ensures '\n' !in IntText(n) && '\n' !in FreqText(n)
  {
    IntReads(n);
    FreqReads(n);
    hide *;
    PrimitiveOneLine(IntText(n));
    PrimitiveOneLine(FreqText(n));
  }

  lemma PrimitiveOneLine(s: string)
    requires PrimitiveOk(s)
    ensures '\n' !in s
  {
    if i :| 0 <= i < |s| && s[i] == '\n' { assert EndsPrimitive(s[i]); }
  }

  lemma {:induction false} OptionsOneLine(os: seq<Option_>)
    requires OptionsOk(os)
    ensures '\n' !in OptionsText(os)
    decreases |os|
  {
    if os != [] {
      assert OptionOk(os[0]);
      CleanString(os[0].0);
      if os[0].1.Num? { NoBreakInNumber(os[0].1.n); } else { CleanString(os[0].1.s); }
      hide Clean, StringOk, IntText, FreqText;
      OptionsOneLine(os[1..]);
    }
  }

  /** The element is on one line. */
  lemma OneLine(s: Saved)
    requires CleanSaved(s)
    ensures '\n' !in ElementText(s)
  {
    NoBreakInNumber(s.centi);
    CleanString(s.mode); CleanString(s.ident); CleanString(s.notes);
    OptionsFieldOneLine(s);
    hide *;
    FieldOneLine(s.mode); FieldOneLine(s.ident); FieldOneLine(s.notes);
    ElementOneLine(s);
  }

  lemma FieldOneLine(t: string)
    requires '\n' !in t
    ensures '\n' !in TextField(t)
  {
  }

  lemma OptionsFieldOneLine(s: Saved)
    requires s.options.Some? ==> OptionsOk(s.options.value)
    ensures '\n' !in OptionsField(s)
  {
    if s.options.Some? { OptionsOneLine(s.options.value); }
    hide OptionsText, OptionsOk;
  }

  lemma ElementOneLine(s: Saved)
    requires '\n' !in FreqText(s.centi) && '\n' !in TextField(s.mode) && '\n' !in TextField(s.ident)
    requires '\n' !in TextField(s.notes) && '\n' !in OptionsField(s)
    ensures '\n' !in ElementText(s)
  {
    hide FreqText, TextField, OptionsField;
  }

  lemma OptIs(write: bool, key: string, v: DxFile.Value)
    requires write ==> OptionOk((key, v))
    ensures OptionsOk(Opt(write, key, v)) && |Opt(write, key, v)| <= 1
  {
  }

  lemma SaveClean(d: Dx)
    requires InRange(d)
    ensures SavedOk(Save(d)) && CleanSaved(Save(d))
  {
    ModeClean(d.mode);
    SelectiveKeeps(d.ident); SelectiveKeeps(d.notes);
    SaveIs(d);
    OptionsClean(d);
    WritesSome(d);
    hide Selective, Options, Proper, Centi, ModeName;
  }

  lemma ModeClean(m: nat)
    requires m < MODES
    ensures Plain(ModeName(m)) && Clean(ModeName(m))
  {
  }

  lemma WritesSome(d: Dx)
    ensures WritesOptions(d) ==> Options(d) != []
  {
    hide Decimal, Selective;
  }

  lemma OptionsJoin(a: seq<Option_>, b: seq<Option_>)
    requires OptionsOk(a) && OptionsOk(b)
    ensures OptionsOk(a + b)
  {
    hide OptionOk;
  }

  lemma Options1Clean(d: Dx)
    requires InRange(d)
    ensures OptionsOk(Options1(d)) && |Options1(d)| <= 5
  {
    hide ReadDigits, Decimal, Proper, Opt, OptionsOk;
    DecimalIs(d.typ);
    var t := "T" + Decimal(d.typ);
    OptIs(d.typ != 0, t, Num(1));
    OptIs(d.low != 0, "lo", Num(d.low));
    OptIs(d.high != 0, "hi", Num(d.high));
    OptIs(d.offset != 0, "o", Num(d.offset));
    OptIs(d.sigBw != 0, "s", Num(d.sigBw));
    hide OptionOk;
    var o1, o2, o3 := Opt(d.typ != 0, t, Num(1)), Opt(d.low != 0, "lo", Num(d.low)),
        Opt(d.high != 0, "hi", Num(d.high));
    var o4 := Opt(d.offset != 0, "o", Num(d.offset));
    OptionsJoin(o1, o2); OptionsJoin(o1 + o2, o3); OptionsJoin(o1 + o2 + o3, o4);
    OptionsJoin(o1 + o2 + o3 + o4, Opt(d.sigBw != 0, "s", Num(d.sigBw)));
  }

  lemma OptionsClean(d: Dx)
    requires InRange(d)
    ensures OptionsOk(Options(d)) && |Options(d)| <= 9
  {
    hide Options1, Selective, Opt, OptionsOk, Options;
    Options1Clean(d);
    OptionsAre(d);
    SelectiveKeeps(d.params);
    hide Proper;
    OptIs(d.dow != 0 && d.dow != ALL_DAYS, "d0", Num(d.dow));
    OptIs(HasTimes(d), "b0", Num(d.begin));
    OptIs(HasTimes(d), "e0", Num(SavedEnd(d)));
    OptIs(d.params != "", "p", Text(Selective(d.params)));
    hide OptionOk, HasTimes, SavedEnd;
    var o6 := Opt(d.dow != 0 && d.dow != ALL_DAYS, "d0", Num(d.dow));
    var o7, o8 := Opt(HasTimes(d), "b0", Num(d.begin)), Opt(HasTimes(d), "e0", Num(SavedEnd(d)));
    OptionsJoin(Options1(d), o6); OptionsJoin(o7, o8); OptionsJoin(Options1(d) + o6, o7 + o8);
    OptionsJoin(Options1(d) + o6 + (o7 + o8), Opt(d.params != "", "p", Text(Selective(d.params))));
  }

  lemma KeysPlain(os: seq<Option_>)
    requires OptionsOk(os)
    ensures PlainKeys(os)
  {
    assert forall i :: 0 <= i < |os| ==> OptionOk(os[i]);
  }
}
