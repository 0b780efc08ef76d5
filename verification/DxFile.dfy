/**
 What is written for a label, and what is read from it. An entry is an array of frequency,
 mode, ident and notes, followed, if it has some, by an object of options.
 */
module DxFile {
  import opened Optional
  import opened DxList
  import opened DxText

  datatype Value = Num(n: int) | Text(s: string)

  /** What is written for an entry: frequencies in hundredths of a kHz. */
  datatype Saved = Saved(centi: int, mode: string, ident: string, notes: string, options: Option<seq<(string, Value)>>)

  /** `%.2f`: rounding to hundredths. */
  function Centi(freq: real): int { (freq * 100.0 + 0.5).Floor }

  // ---- modes ---------------------------------------------------------------------------

  const MODE_LC: seq<string> := ["am", "amn", "usb", "lsb", "cw", "cwn", "nbfm", "iq", "drm", "usn", "lsn", "sam",
                                 "sau", "sal", "sas", "qam", "nnfm"]

  const MODE_UC: seq<string> := ["AM", "AMN", "USB", "LSB", "CW", "CWN", "NBFM", "IQ", "DRM", "USN", "LSN", "SAM",
                                 "SAU", "SAL", "SAS", "QAM", "NNFM"]

  /** Number of modes. */
  const MODES: nat := 17

  function ModeName(m: nat): string
    requires m < MODES
  {
    MODE_UC[m]
  }

  function LowerChar(c: char): char { if 'A' <= c <= 'Z' then (c as nat + 32) as char else c }

  function Lower(s: string): string { seq(|s|, i requires 0 <= i < |s| => LowerChar(s[i])) }

  /** `rx_mode2enum`, from place `i` on; a name that is not found stands for AM. */
  function ModeOf(s: string, i: nat): nat
    requires i <= |MODE_LC|
    decreases |MODE_LC| - i
  {
    if i == |MODE_LC| then 0 else if Lower(s) == Lower(MODE_LC[i]) then i else ModeOf(s, i + 1)
  }

  lemma ModeNames(m: nat)
    requires m < MODES
    ensures |MODE_LC| == MODES && Lower(ModeName(m)) == MODE_LC[m] && Lower(MODE_LC[m]) == MODE_LC[m]
  {
  }

  lemma ModesDiffer(i: nat, m: nat)
    requires i < m < |MODE_LC|
    ensures MODE_LC[i] != MODE_LC[m]
  {
  }

  lemma {:induction false} ModeIsFound(m: nat, i: nat)
    requires i <= m < MODES
    ensures ModeOf(ModeName(m), i) == m
    decreases m - i
  {
    ModeNames(m); ModeNames(i);
    if i < m {
      ModesDiffer(i, m);
      ModeIsFound(m, i + 1);
    }
  }

  // ---- decimal numbers -----------------------------------------------------------------

  function Digit(n: nat): char
    requires n < 10
  {
    "0123456789"[n]
  }

  function Decimal(n: nat): (s: string)
    ensures |s| > 0
  {
    if n < 10 then [Digit(n)] else Decimal(n / 10) + [Digit(n % 10)]
  }

  /** `%d` reads the digits from here on. */
  function ReadDigits(s: string, acc: nat): nat
    decreases |s|
  {
    if s == "" || !('0' <= s[0] <= '9') then acc else ReadDigits(s[1..], 10 * acc + (s[0] as nat - '0' as nat))
  }

  lemma {:induction false} ScanAppend(s: string, acc: nat, c: char)
    requires '0' <= c <= '9' && forall i :: 0 <= i < |s| ==> '0' <= s[i] <= '9'
    ensures ReadDigits(s + [c], acc) == 10 * ReadDigits(s, acc) + (c as nat - '0' as nat)
    decreases |s|
  {
    if s == "" {
      assert [c][1..] == "";
    } else {
      assert (s + [c])[1..] == s[1..] + [c];
      ScanAppend(s[1..], 10 * acc + (s[0] as nat - '0' as nat), c);
    }
  }

  lemma DigitIs(n: nat)
    requires n < 10
    ensures '0' <= Digit(n) <= '9' && Digit(n) as nat - '0' as nat == n
  {
    assert n == 0 || n == 1 || n == 2 || n == 3 || n == 4 || n == 5 || n == 6 || n == 7 || n == 8 || n == 9;
  }

  /** A number that was printed is read back. */
  lemma {:induction false} ScanDecimal(n: nat)
    ensures ReadDigits(Decimal(n), 0) == n && forall i :: 0 <= i < |Decimal(n)| ==> '0' <= Decimal(n)[i] <= '9'
    decreases n
  {
    DigitIs(n % 10);
    if n < 10 {
      assert Decimal(n) == [Digit(n)] && [Digit(n)][1..] == "";
    } else {
      ScanDecimal(n / 10);
      ScanAppend(Decimal(n / 10), 0, Digit(n % 10));
    }
  }

  // ---- saving --------------------------------------------------------------------------

  function Opt(write: bool, key: string, v: Value): seq<(string, Value)> { if write then [(key, v)] else [] }

  /** Whether the options object is written at all. */
  predicate WritesOptions(d: Dx) { d.typ != 0 || d.low != 0 || d.high != 0 || d.offset != 0 || d.params != "" }

  function SavedEnd(d: Dx): nat { if d.begin == 0 && d.end == 2400 then 0 else d.end }

  function Options(d: Dx): seq<(string, Value)> {
    var times := d.begin != 0 || SavedEnd(d) != 0;
    Opt(d.typ != 0, "T" + Decimal(d.typ), Num(1)) + Opt(d.low != 0, "lo", Num(d.low))
        + Opt(d.high != 0, "hi", Num(d.high))
    + Opt(d.offset != 0, "o", Num(d.offset)) + Opt(d.sigBw != 0, "s", Num(d.sigBw))
    + Opt(d.dow != 0 && d.dow != ALL_DAYS, "d0", Num(d.dow))
    + Opt(times, "b0", Num(d.begin)) + Opt(times, "e0", Num(SavedEnd(d)))
    + Opt(d.params != "", "p", Text(Selective(d.params)))
  }

  function Save(d: Dx): Saved
    requires d.mode < MODES
  {
    Saved(Centi(d.freq), ModeName(d.mode), Selective(d.ident), Selective(d.notes),
          if WritesOptions(d) then Some(Options(d)) else None)
  }

  // ---- loading -------------------------------------------------------------------------

  /** `dx_flag`: the old names of types, and the new. */
  function TypeOf(flag: string): Option<nat> {
    if flag == "WL" then Some(1)
    else if flag == "SB" then Some(2)
    else if flag == "DG" then Some(3)
    else if flag == "NoN" || flag == "SE" then Some(4)
    else if flag == "XX" then Some(5)
    else if flag == "PB" then Some(0)
    else if flag == "MK" then Some(MASKED)
    else if |flag| > 1 && flag[0] == 'T' && '0' <= flag[1] <= '9' then Some(ReadDigits(flag[1..], 0) % 32)
    else None
  }

  /** The bits of both. */
  function Or(a: nat, b: nat): nat
    decreases a
  {
    if a == 0 then b else 2 * Or(a / 2, b / 2) + (if a % 2 == 1 || b % 2 == 1 then 1 else 0)
  }

  /** One option of the object. The days are kept aside until the end. */
  function LoadOption(d: Dx, dow: nat, o: (string, Value)): (Dx, nat) {
    match o.1
    case Num(n) =>
      if o.0 == "lo" then (d.(low := n), dow)
      else if o.0 == "hi" then (d.(high := n), dow)
      else if o.0 == "o" then (d.(offset := n), dow)
      else if o.0 == "s" then (d.(sigBw := n), dow)
      else if o.0 == "d0" then (d, if n % 128 == 0 then ALL_DAYS else n % 128)
      else if o.0 == "b0" then (d.(begin := n % 65536), dow)
      else if o.0 == "e0" then (d.(end := n % 65536), dow)
      else
        var t := TypeOf(o.0);
        if n != 0 && t.Some? then (d.(typ := Or(d.typ, t.value)), dow) else (d, dow)
    case Text(s) => if o.0 == "p" then (d.(params := LoadedText(s)), dow) else (d, dow)
  }

  function LoadOptions(d: Dx, dow: nat, os: seq<(string, Value)>): (Dx, nat)
    decreases |os|
  {
    if os == [] then (d, dow)
    else
      var (e, w) := LoadOption(d, dow, os[0]);
      LoadOptions(e, w, os[1..])
  }

  /** An entry before its options are read. */
  function Blank(freq: real, s: Saved): Dx {
    Dx(freq, ModeOf(s.mode, 0), 0, 0, 0, 0, 0, 0, 0, 0, LoadedText(s.ident), LoadedText(s.notes), "", 0)
  }

  /** The entry that a saved element holds. */
  function Read(s: Saved): Dx {
    var (e, dow) := LoadOptions(Blank(s.centi as real / 100.0, s), ALL_DAYS,
                                if s.options.Some? then s.options.value else []);
    Finished(e, dow)
  }

  function Finished(e: Dx, dow: nat): Dx {
    e.(dow := dow, end := if e.begin == 0 && e.end == 0 then 2400 else e.end)
  }

  // ---- the round trip ------------------------------------------------------------------

  lemma {:induction false} LoadAppend(d: Dx, dow: nat, a: seq<(string, Value)>, b: seq<(string, Value)>)
    ensures LoadOptions(d, dow, a + b) == var (e, w) := LoadOptions(d, dow, a); LoadOptions(e, w, b)
    decreases |a|
  {
    if a == [] {
      assert a + b == b;
    } else {
      assert (a + b)[1..] == a[1..] + b;
      var (e, w) := LoadOption(d, dow, a[0]);
      LoadAppend(e, w, a[1..], b);
    }
  }

  lemma LoadOne(d: Dx, dow: nat, write: bool, key: string, v: Value, r: Dx, w: nat)
    requires if write then LoadOption(d, dow, (key, v)) == (r, w) else r == d && w == dow
    ensures LoadOptions(d, dow, Opt(write, key, v)) == (r, w)
  {
    if write { assert [(key, v)][1..] == []; }
  }

  lemma TypeLoads(t: nat)
    requires 0 < t < 32
    ensures TypeOf("T" + Decimal(t)) == Some(t)
    ensures var k := "T" + Decimal(t);
            k != "lo" && k != "hi" && k != "o" && k != "s" && k != "d0" && k != "b0" && k != "e0"
  {
    ScanDecimal(t);
    TypeKey(Decimal(t), t);
  }

  lemma TypeKey(s: string, t: nat)
    requires s != "" && '0' <= s[0] <= '9' && ReadDigits(s, 0) % 32 == t
    ensures TypeOf("T" + s) == Some(t)
    ensures var k := "T" + s;
            k != "lo" && k != "hi" && k != "o" && k != "s" && k != "d0" && k != "b0" && k != "e0"
  {
    var k := "T" + s;
    hide ReadDigits;
    assert |k| > 1 && k[0] == 'T' && k[1..] == s && k[1] == s[0];
    FirstDiffers(k, "WL"); FirstDiffers(k, "SB"); FirstDiffers(k, "DG"); FirstDiffers(k, "NoN"); FirstDiffers(k, "SE");
    FirstDiffers(k, "XX"); FirstDiffers(k, "PB"); FirstDiffers(k, "MK"); FirstDiffers(k, "lo"); FirstDiffers(k, "hi");
    FirstDiffers(k, "o"); FirstDiffers(k, "s"); FirstDiffers(k, "d0"); FirstDiffers(k, "b0"); FirstDiffers(k, "e0");
  }

  lemma FirstDiffers(a: string, b: string)
    requires a != "" && b != "" && a[0] != b[0]
    ensures a != b
  {
  }

  /** The file keeps hundredths of a kHz; no day means all days, and 0 to 0 the whole day.
      Texts are encoded afresh. */
  function Normal(d: Dx): Dx {
    d.(freq := Centi(d.freq) as real / 100.0, dow := if d.dow == 0 then ALL_DAYS else d.dow,
       end := if d.begin == 0 && d.end == 0 then 2400 else d.end, idx := 0,
       ident := Encode(Shown(d.ident)), notes := Encode(Shown(d.notes)), params := Encode(Shown(d.params)))
  }

  predicate InRange(d: Dx) {
    && d.mode < MODES && d.typ < 32 && d.dow < 128 && d.begin < 65536 && d.end < 65536
    && Proper(d.ident) && Proper(d.notes) && Proper(d.params)
  }

  /** No text has a backslash directly before a quote. */
  predicate TextsSurvive(d: Dx) {
    !QuotesEscaped(Shown(d.ident)) && !QuotesEscaped(Shown(d.notes)) && !QuotesEscaped(Shown(d.params))
  }

  /** A field other than those that cause the options to be written has something to say. */
  predicate NeedsOptions(d: Dx) {
    d.sigBw != 0 || (d.dow != 0 && d.dow != ALL_DAYS) || d.begin != 0 || SavedEnd(d) != 0
  }

  lemma Then(e: Dx, dow: nat, a: seq<(string, Value)>, e1: Dx, dow1: nat, b: seq<(string, Value)>, e2: Dx, dow2: nat)
    requires LoadOptions(e, dow, a) == (e1, dow1) && LoadOptions(e1, dow1, b) == (e2, dow2)
    ensures LoadOptions(e, dow, a + b) == (e2, dow2)
  {
    LoadAppend(e, dow, a, b);
  }

  /** Type, cuts, offset and width. */
  function Options1(d: Dx): seq<(string, Value)> {
    Opt(d.typ != 0, "T" + Decimal(d.typ), Num(1)) + Opt(d.low != 0, "lo", Num(d.low))
        + Opt(d.high != 0, "hi", Num(d.high))
    + Opt(d.offset != 0, "o", Num(d.offset)) + Opt(d.sigBw != 0, "s", Num(d.sigBw))
  }

  function Loaded1(d: Dx, e: Dx): Dx {
    e.(typ := d.typ, low := d.low, high := d.high, offset := d.offset, sigBw := d.sigBw)
  }

  lemma TypeOption(d: Dx, e: Dx)
    requires d.typ < 32 && e.typ == 0
    ensures LoadOptions(e, ALL_DAYS, Opt(d.typ != 0, "T" + Decimal(d.typ), Num(1))) == (e.(typ := d.typ), ALL_DAYS)
  {
    if d.typ != 0 { TypeLoads(d.typ); }
    LoadOne(e, ALL_DAYS, d.typ != 0, "T" + Decimal(d.typ), Num(1), e.(typ := d.typ), ALL_DAYS);
  }

  lemma Options1Load(d: Dx, e: Dx)
    requires d.typ < 32 && e.typ == 0 && e.low == 0 && e.high == 0 && e.offset == 0 && e.sigBw == 0
    ensures LoadOptions(e, ALL_DAYS, Options1(d)) == (Loaded1(d, e), ALL_DAYS)
  {
    var o1, o2, o3 := Opt(d.typ != 0, "T" + Decimal(d.typ), Num(1)), Opt(d.low != 0, "lo", Num(d.low)),
        Opt(d.high != 0, "hi", Num(d.high));
    var o4, o5 := Opt(d.offset != 0, "o", Num(d.offset)), Opt(d.sigBw != 0, "s", Num(d.sigBw));
    var e1 := e.(typ := d.typ);
    var e2 := e1.(low := d.low);
    var e3 := e2.(high := d.high);
    var e4 := e3.(offset := d.offset);
    var e5 := e4.(sigBw := d.sigBw);
    TypeOption(d, e);
    LoadOne(e1, ALL_DAYS, d.low != 0, "lo", Num(d.low), e2, ALL_DAYS);
    LoadOne(e2, ALL_DAYS, d.high != 0, "hi", Num(d.high), e3, ALL_DAYS);
    LoadOne(e3, ALL_DAYS, d.offset != 0, "o", Num(d.offset), e4, ALL_DAYS);
    LoadOne(e4, ALL_DAYS, d.sigBw != 0, "s", Num(d.sigBw), e5, ALL_DAYS);
    hide LoadOption, LoadOptions, Opt;
    Then(e, ALL_DAYS, o1, e1, ALL_DAYS, o2, e2, ALL_DAYS);
    Then(e, ALL_DAYS, o1 + o2, e2, ALL_DAYS, o3, e3, ALL_DAYS);
    Then(e, ALL_DAYS, o1 + o2 + o3, e3, ALL_DAYS, o4, e4, ALL_DAYS);
    Then(e, ALL_DAYS, o1 + o2 + o3 + o4, e4, ALL_DAYS, o5, e5, ALL_DAYS);
  }

  /** Days, times and parameters. */
  function Days(d: Dx): nat { if d.dow == 0 then ALL_DAYS else d.dow }

  predicate HasTimes(d: Dx) { d.begin != 0 || SavedEnd(d) != 0 }

  /** A text saved and loaded. */
  function Reloaded(e: string): string { LoadedText(Selective(e)) }

  lemma NoText()
    ensures Reloaded("") == ""
  {
  }

  lemma ParamsOption(d: Dx, e: Dx, dow: nat)
    requires e.params == ""
    ensures LoadOptions(e, dow, Opt(d.params != "", "p", Text(Selective(d.params))))
            == (e.(params := Reloaded(d.params)), dow)
  {
    NoText();
    hide Selective, LoadedText;
    LoadOne(e, dow, d.params != "", "p", Text(Selective(d.params)), e.(params := Reloaded(d.params)), dow);
  }

  lemma DaysOption(d: Dx, e: Dx)
    requires InRange(d)
    ensures LoadOptions(e, ALL_DAYS, Opt(d.dow != 0 && d.dow != ALL_DAYS, "d0", Num(d.dow))) == (e, Days(d))
  {
    hide Proper;
    LoadOne(e, ALL_DAYS, d.dow != 0 && d.dow != ALL_DAYS, "d0", Num(d.dow), e, Days(d));
  }

  lemma TimeOptions(d: Dx, e: Dx, dow: nat)
    requires InRange(d) && e.begin == 0 && e.end == 0
    ensures var o, p := Opt(HasTimes(d), "b0", Num(d.begin)), Opt(HasTimes(d), "e0", Num(SavedEnd(d)));
            LoadOptions(e, dow, o + p) == (e.(begin := d.begin, end := SavedEnd(d)), dow)
  {
    hide Proper;
    var times, f := HasTimes(d), e.(begin := d.begin);
    LoadOne(e, dow, times, "b0", Num(d.begin), f, dow);
    LoadOne(f, dow, times, "e0", Num(SavedEnd(d)), f.(end := SavedEnd(d)), dow);
    Then(e, dow, Opt(times, "b0", Num(d.begin)), f, dow, Opt(times, "e0", Num(SavedEnd(d))), f.(end := SavedEnd(d)),
        dow);
  }

  lemma OptionsLoad(d: Dx, e: Dx)
    requires InRange(d)
    requires e.typ == 0 && e.low == 0 && e.high == 0 && e.offset == 0 && e.sigBw == 0 && e.begin == 0 && e.end == 0
             && e.params == ""
    ensures LoadOptions(e, ALL_DAYS, Options(d))
            == (Loaded1(d, e).(begin := d.begin, end := SavedEnd(d), params := Reloaded(d.params)), Days(d))
  {
    hide LoadOption, LoadOptions, Opt, Options1, Reloaded, Selective, Proper, Days, SavedEnd;
    var times, dow, e5 := HasTimes(d), Days(d), Loaded1(d, e);
    var o, o6 := Options1(d), Opt(d.dow != 0 && d.dow != ALL_DAYS, "d0", Num(d.dow));
    var o7, o8, o9 := Opt(times, "b0", Num(d.begin)), Opt(times, "e0", Num(SavedEnd(d))),
        Opt(d.params != "", "p", Text(Selective(d.params)));
    var e8 := e5.(begin := d.begin, end := SavedEnd(d));
    assert Options(d) == o + o6 + (o7 + o8) + o9 by { OptionsAre(d); }
    Options1Load(d, e);
    DaysOption(d, e5);
    TimeOptions(d, e5, dow);
    ParamsOption(d, e8, dow);
    hide Options, HasTimes, Loaded1;
    Then(e, ALL_DAYS, o, e5, ALL_DAYS, o6, e5, dow);
    Then(e, ALL_DAYS, o + o6, e5, dow, o7 + o8, e8, dow);
    Then(e, ALL_DAYS, o + o6 + (o7 + o8), e8, dow, o9, e8.(params := Reloaded(d.params)), dow);
  }

  lemma OptionsAre(d: Dx)
    ensures Options(d) ==
            Options1(d) + Opt(d.dow != 0 && d.dow != ALL_DAYS, "d0", Num(d.dow))
            + (Opt(HasTimes(d), "b0", Num(d.begin)) + Opt(HasTimes(d), "e0", Num(SavedEnd(d))))
            + Opt(d.params != "", "p", Text(Selective(d.params)))
  {
    hide Opt, Selective, Decimal;
  }

  /** What is read, whether or not options were written. */
  function Reread(d: Dx): Dx {
    var f := Centi(d.freq) as real / 100.0;
    if WritesOptions(d) then
      Dx(f, d.mode, d.typ, Days(d), d.low, d.high, d.offset, d.sigBw, d.begin,
         if d.begin == 0 && d.end == 0 then 2400 else d.end,
         Reloaded(d.ident), Reloaded(d.notes), Reloaded(d.params), 0)
    else
      Dx(f, d.mode, 0, ALL_DAYS, 0, 0, 0, 0, 0, 2400, Reloaded(d.ident), Reloaded(d.notes), "", 0)
  }

  lemma ReadIs(d: Dx)
    requires InRange(d)
    ensures Read(Save(d)) == Reread(d)
  {
    var f := Centi(d.freq) as real / 100.0;
    var e := Dx(f, d.mode, 0, 0, 0, 0, 0, 0, 0, 0, Reloaded(d.ident), Reloaded(d.notes), "", 0);
    SaveIs(d);
    BlankIs(d);
    assert LoadOptions(e, ALL_DAYS, []) == (e, ALL_DAYS);
    hide *;
    if WritesOptions(d) { WrittenRead(d, f, e); } else { UnwrittenRead(d, f, e); }
  }

  lemma SaveIs(d: Dx)
    requires d.mode < MODES
    ensures Save(d).centi == Centi(d.freq)
    ensures Save(d).options == if WritesOptions(d) then Some(Options(d)) else None
  {
  }

  lemma WrittenRead(d: Dx, f: real, e: Dx)
    requires InRange(d) && WritesOptions(d) && f == Centi(d.freq) as real / 100.0
    requires e == Dx(f, d.mode, 0, 0, 0, 0, 0, 0, 0, 0, Reloaded(d.ident), Reloaded(d.notes), "", 0)
    requires e == Blank(f, Save(d)) && Save(d).centi == Centi(d.freq) && Save(d).options == Some(Options(d))
    ensures Read(Save(d)) == Reread(d)
  {
    hide LoadOptions, Options, Reloaded, Blank, Centi, Save, WritesOptions, Days, Finished, Reread, SavedEnd, Loaded1,
      Proper;
    OptionsLoad(d, e);
    WrittenFinished(d, f, e);
  }

  lemma WrittenFinished(d: Dx, f: real, e: Dx)
    requires WritesOptions(d) && f == Centi(d.freq) as real / 100.0
    requires e == Dx(f, d.mode, 0, 0, 0, 0, 0, 0, 0, 0, Reloaded(d.ident), Reloaded(d.notes), "", 0)
    ensures Finished(Loaded1(d, e).(begin := d.begin, end := SavedEnd(d), params := Reloaded(d.params)), Days(d))
            == Reread(d)
  {
    hide Reloaded, Centi, WritesOptions, Days;
  }

  lemma UnwrittenRead(d: Dx, f: real, e: Dx)
    requires InRange(d) && !WritesOptions(d) && f == Centi(d.freq) as real / 100.0
    requires e == Dx(f, d.mode, 0, 0, 0, 0, 0, 0, 0, 0, Reloaded(d.ident), Reloaded(d.notes), "", 0)
    requires e == Blank(f, Save(d)) && Save(d).centi == Centi(d.freq) && Save(d).options.None?
    requires LoadOptions(e, ALL_DAYS, []) == (e, ALL_DAYS)
    ensures Read(Save(d)) == Reread(d)
  {
    hide LoadOptions, Options, Reloaded, Blank, InRange, Centi, Save, WritesOptions, Days;
  }

  lemma BlankIs(d: Dx)
    requires InRange(d)
    ensures Blank(Centi(d.freq) as real / 100.0, Save(d)) ==
            Dx(Centi(d.freq) as real / 100.0, d.mode, 0, 0, 0, 0, 0, 0, 0, 0, Reloaded(d.ident), Reloaded(d.notes), "",
                0)
  {
    ModeIsFound(d.mode, 0);
    hide ModeOf, ModeName, LoadedText, Selective, Centi, Proper;
  }

  predicate FieldsSurvive(d: Dx) { (WritesOptions(d) || !NeedsOptions(d)) && TextsSurvive(d) }

  /** An entry read from what was saved is as it was, up to the stated normal form, exactly when
      its options are written or it does not need them, and its texts survive: days, times and
      signal width alone do not cause options to be written, and are lost; so are backslashes
      before quotes. */
  lemma RereadIsNormal(d: Dx)
    requires InRange(d)
    ensures Reread(d) == Normal(d) <==> FieldsSurvive(d)
  {
    TextSurvives(d.ident); TextSurvives(d.notes); TextSurvives(d.params);
    NoText();
    hide LoadedText, Encode, Shown, QuotesEscaped, Selective, Proper, Centi;
  }

  // ---- frequencies ---------------------------------------------------------------------

  lemma CentiMonotone(a: real, b: real)
    requires a <= b
    ensures Centi(a) as real / 100.0 <= Centi(b) as real / 100.0
  {
    assert a * 100.0 + 0.5 <= b * 100.0 + 0.5;
  }
}
