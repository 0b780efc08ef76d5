/** Labels that are too long for the loader: one that is lost, and one whose text is loaded as a
    label of its own. */
module DxLong {
  import opened Optional
  import opened Json
  import opened Jsmn
  import opened JsmnCut
  import opened CfgWalk
  import opened CfgLookup
  import opened DxList
  import opened DxText
  import opened DxFile
  import opened DxLine
  import opened DxLoad

  /** A label with an ident and nothing else. */
  function Labelled(freq: real, ident: string): Dx {
    Dx(freq, 0, 0, ALL_DAYS, 0, 0, 0, 0, 0, 2400, ident, "", "", 0)
  }

  lemma LabelText(freq: real, ident: string)
    requires Proper(ident)
    ensures InRange(Labelled(freq, ident)) && Labelled(freq, ident).mode < MODES
    ensures ElementText(Save(Labelled(freq, ident)))
            == "[" + FreqText(Centi(freq)) + ", \"AM\", \"" + Selective(ident) + "\", \"\"]"
  {
    hide Proper, FreqText, Centi;
    assert Selective("") == "" && Proper("") by { EmptyText(); }
    var d := Labelled(freq, ident);
    assert Save(d) == Saved(Centi(freq), "AM", Selective(ident), "", None);
    hide Selective, Save;
    assert TextField("AM") == ", \"AM\"" && TextField("") == ", \"\"";
    Joined("[" + FreqText(Centi(freq)), Selective(ident));
  }

  lemma EmptyText()
    ensures Selective("") == "" && Proper("")
  {
  }

  lemma Joined(a: string, t: string)
    ensures a + ", \"AM\"" + (", \"" + t + "\"") + ", \"\"" + "" + "]" == a + ", \"AM\", \"" + t + "\", \"\"]"
  {
  }

  // ---- a long text -----------------------------------------------------------------------------

  lemma {:induction false} LettersProper(n: nat)
    ensures Proper(Repeat('A', n)) && Selective(Repeat('A', n)) == Repeat('A', n)
  {
    if n > 0 {
      LettersProper(n - 1);
      assert Repeat('A', n)[1..] == Repeat('A', n - 1);
    }
  }

  lemma Hundred()
    ensures FreqText(10000) == "100.00"
  {
    assert Decimal(1) == "1" && Decimal(10) == "10" && Decimal(100) == "100";
  }

  /** With 496 letters or more in its ident, a label saved alone is gone after loading. */
  lemma LettersVanish(n: nat)
    requires 496 <= n <= 999
    ensures var r := LoadFile(FileText([Labelled(100.0, Repeat('A', n))])); r.running && r.labels == []
  {
    var d, a := Labelled(100.0, Repeat('A', n)), Repeat('A', n);
    assert Centi(100.0) == 10000 && d.freq == 100.0;
    hide *;
    LettersProper(n);
    LabelText(100.0, a);
    Hundred();
    LettersTail(d, n);
    TooLong(d, n);
    OneLongEntry(d);
  }

  lemma TooLong(d: Dx, n: nat)
    requires 496 <= n && d.mode < MODES
    requires ElementText(Save(d)) == "[100.00, \"AM\", \"" + Repeat('A', n) + "\", \"\"]"
    ensures !Short(d)
  {
    hide ElementText, Save, Repeat;
  }

  /** A long entry alone, with a harmless tail. */
  lemma OneLongEntry(d: Dx)
    requires InRange(d) && d.mode < MODES && !Short(d) && QuietTail(d, true) && 0.0 <= Centi(d.freq) as real / 100.0
    ensures var r := LoadFile(FileText([d])); r.running && r.labels == []
  {
    hide InRange, Short, QuietTail, LoadFile, FileText, Centi;
    assert [d][1..] == [] && Kept([d]) == [];
    SortedListLoads([d]);
  }

  lemma LettersTail(d: Dx, n: nat)
    requires 496 <= n <= 999 && InRange(d) && d.mode < MODES
    requires ElementText(Save(d)) == "[100.00, \"AM\", \"" + Repeat('A', n) + "\", \"\"]"
    ensures QuietTail(d, true)
  {
    hide Pieces, ElementText, Save, InRange, Harmless, Line;
    var b := DxLoad.Body(d, true);
    BodyOneLine(d, true);
    LettersCut(b, n);
    hide Repeat, DxLoad.Body;
    var first, rest := b[..LBUF - 1], b[LBUF - 1..];
    CutPiece(first, rest);
    OnePiece(rest);
    WordIsHarmless(rest + "\n");
  }

  lemma LettersCut(b: string, n: nat)
    requires 496 <= n <= 999 && b == "[100.00, \"AM\", \"" + Repeat('A', n) + "\", \"\"]" && '\n' !in b
    ensures var first, rest := b[..LBUF - 1], b[LBUF - 1..];
            && b == first + rest && '\n' !in first && '\n' !in rest && rest[0] == 'A' && 2 <= |rest| < LBUF - 1
  {
    hide Repeat;
    Halves(b, LBUF - 1);
  }

  // ---- a text that is loaded ----------------------------------------------------------------------

  /** Behind 511 characters of its line there is an array. */
  function Crafted(): string { Repeat('A', 497) + "[5]" + Repeat(' ', 508) + "A" }

  lemma CraftedShows()
    ensures forall c :: c in Crafted() ==> !Stays(c)
  {
    hide Repeat;
    assert forall c :: c in Repeat('A', 497) ==> c == 'A';
    assert forall c :: c in Repeat(' ', 508) ==> c == ' ';
    assert forall c :: c in "[5]" ==> !Stays(c);
  }

  lemma TwoKilohertz()
    ensures Centi(2.0) == 200 && FreqText(200) == "2.00"
  {
    assert Decimal(2) == "2";
  }

  lemma CraftedLine(d: Dx)
    requires d == Labelled(2.0, Encode(Crafted()))
    ensures InRange(d) && d.mode < MODES
    ensures ElementText(Save(d)) == "[2.00, \"AM\", \"" + Crafted() + "\", \"\"]"
  {
    hide *;
    TwoKilohertz();
    CraftedShows();
    SelectiveEncode(Crafted());
    EncodeKeeps(Crafted());
    LabelText(2.0, Encode(Crafted()));
    assert "[" + "2.00" == "[2.00";
    Headed(Crafted());
  }

  lemma Headed(t: string)
    ensures "[2.00" + ", \"AM\", \"" + t + "\", \"\"]" == "[2.00, \"AM\", \"" + t + "\", \"\"]"
  {
  }

  lemma ThreePieces(h: string, p: string, q: string)
    requires |h| == |p| == LBUF - 1 && |q| < LBUF - 1 && '\n' !in h && '\n' !in p && '\n' !in q
    ensures Pieces(h + p + q + "\n") == [h, p, q + "\n"]
  {
    hide Pieces;
    assert h + (p + q) + "\n" == h + p + q + "\n";
    CutPiece(h, p + q);
    CutPiece(p, q);
    OnePiece(q);
  }

  function Middle(): string { "[5]" + Repeat(' ', 508) }

  lemma CraftedPieces(d: Dx)
    requires InRange(d) && d.mode < MODES
    requires ElementText(Save(d)) == "[2.00, \"AM\", \"" + Crafted() + "\", \"\"]"
    ensures Pieces(Line(d, true)) == [ElementText(Save(d))[..LBUF - 1], Middle(), "A\", \"\"]\n"] && !Short(d)
  {
    hide Pieces, ElementText, Save, InRange, Repeat;
    var a, q := Repeat('A', 497), "A\", \"\"]";
    BodyOneLine(d, true);
    CraftedParts(a, Repeat(' ', 508), d);
    ThreePieces("[2.00, \"AM\", \"" + a, Middle(), q);
    assert q + "\n" == "A\", \"\"]\n";
  }

  lemma CraftedParts(a: string, b: string, d: Dx)
    requires |a| == 497 && |b| == 508 && d.mode < MODES
    requires forall c :: c in a ==> c == 'A'
    requires forall c :: c in b ==> c == ' '
    requires ElementText(Save(d)) == "[2.00, \"AM\", \"" + (a + "[5]" + b + "A") + "\", \"\"]"
    ensures var h, p, q := "[2.00, \"AM\", \"" + a, "[5]" + b, "A\", \"\"]";
            && DxLoad.Body(d, true) == h + p + q && |h| == |p| == LBUF - 1 && !Short(d)
            && '\n' !in h && '\n' !in p && '\n' !in q && ElementText(Save(d))[..LBUF - 1] == h
  {
    hide ElementText, Save;
  }

  /** The tokens of an element with its texts. */
  predicate Texts(mem: seq<Token>) {
    |mem| == 5 && mem[2].kind == String && mem[3].kind == String && mem[4].kind == String
  }

  lemma SavedTexts(s: Saved)
    requires SavedOk(s) && CleanSaved(s) && s.options.None?
    ensures Texts(Tokens(Element(s), 0))
  {
    ElementKinds(s);
    ElementTokens(s);
    hide Tokens, Render, ElementText, Flatten, OptionItems;
    ElementItems(s);
  }

  /** After a line without options the texts are in memory. */
  lemma SavedMem(l: Loader, d: Dx, piece: string)
    requires DxLoad.Ready(l) && l.mem == [] && InRange(d) && Strip(piece) == ElementText(Save(d))
             && Save(d).options.None?
    ensures Texts(TakePiece(l, piece).mem)
  {
    var s, t := Save(d), Strip(piece);
    var ts := Tokens(Element(s), 0);
    SaveClean(d);
    assert l.running;
    assert Over(ts, []) == ts;
    hide *;
    ElementTokens(s);
    SavedTexts(s);
    OpensArray(s);
    ParsedMade(t);
    PieceTaken(l, piece, ts);
    SameMem(l.(buf := Filled(l.buf, piece, t), mem := Over(ts, l.mem)), |ts|);
  }

  lemma SameMem(l: Loader, n: nat)
    ensures TakeElement(l, n).mem == l.mem
  {
    hide ReadElement, Items;
  }

  /** They stay when the next line is too long. */
  lemma LongMem(l: Loader, d: Dx, piece: string)
    requires DxLoad.Ready(l) && Texts(l.mem) && InRange(d) && Save(d).options.None?
    requires LBUF - 1 <= |ElementText(Save(d))| && piece == ElementText(Save(d))[..LBUF - 1]
    ensures Texts(TakePiece(l, piece).mem)
  {
    var s, t := Save(d), Strip(piece);
    var ts := Tokens(Element(s), 0);
    SaveClean(d);
    assert l.running && |l.buf| == LBUF;
    hide *;
    StrippedPart(ElementText(s), piece);
    ElementTokens(s);
    SavedTexts(s);
    OpensArray(s);
    FromElement(s, t);
    TruncatedIsPart(Element(s), |t|);
    PartMade(t, ts);
    PieceIgnored(l, piece);
    TextsOver(Made(t, Begin), ts, l.mem);
  }

  lemma FromElement(s: Saved, t: string)
    requires Render(Element(s)) == ElementText(s) && LBUF - 3 <= |t| < |ElementText(s)| && t == ElementText(s)[..|t|]
    requires ElementText(s) != "" && ElementText(s)[0] == '['
    ensures Element(s).Arr? && 0 < |t| < |Render(Element(s))| && t == Render(Element(s))[..|t|] && !("//" <= t)
  {
    hide Render, ElementText;
  }

  lemma TextsOver(made: seq<Token>, ts: seq<Token>, mem: seq<Token>)
    requires Extends(made, ts) && Texts(ts) && Texts(mem)
    ensures Texts(Over(made, mem))
  {
  }

  lemma FiveAlone()
    ensures Strip(Middle()) == "[5]" + Repeat(' ', 507)
    ensures var t := Strip(Middle());
            Parse(t, Begin) == Tokenized([Token(Array, 0, 3, 1), Token(Primitive, 1, 2, 0)]) && t[..3] == "[5]"
  {
    assert Repeat(' ', 508)[..507] == Repeat(' ', 507);
    var v := Arr(Elem("", Prim("5"), "", NoElem));
    assert Render(v) == "[5]";
    assert ValueOk(v) && Jsmn.Blank(Repeat(' ', 507)) && Jsmn.Blank("");
    assert Tokens(v, 0) == [Token(Array, 0, 3, 1), Token(Primitive, 1, 2, 0)];
    hide Repeat, Render, Tokens, ValueOk, Parse;
    PrimitivesAreWords(v);
    ParseRender(v, "", Repeat(' ', 507));
    assert "" + "[5]" + Repeat(' ', 507) == "[5]" + Repeat(' ', 507);
  }

  lemma FiveReads()
    ensures FloatOf("5") == 5.0 && NumberText("5")
  {
    assert "5"[1..] == "";
    assert AfterDigits("5") == "" && ReadDigits("5", 0) == 5;
  }

  /** With the texts of an earlier line in memory, the piece is loaded as a label. */
  lemma MiddleTaken(l: Loader) returns (x: Dx)
    requires DxLoad.Ready(l) && Texts(l.mem) && l.last <= 5.0
    ensures var r := TakePiece(l, Middle()); DxLoad.Ready(r) && r.labels == l.labels + [x] && x.freq == 5.0
  {
    var t, ts := Strip(Middle()), [Token(Array, 0, 3, 1), Token(Primitive, 1, 2, 0)];
    var buf := Filled(l.buf, Middle(), t);
    FiveAlone();
    FiveReads();
    FilledAt(l.buf, Middle(), t);
    assert t[0] == t[..3][0] && t[1] == t[..3][1];
    assert buf[1..2] == "5";
    ParsedMade(t);
    hide Strip, Filled, Made, Parsed, Parse, Repeat, Middle, FloatOf, NumberText;
    PieceTaken(l, Middle(), ts);
    ItemsOver(buf, ts, l.mem);
    x := FiveRead(buf, Over(ts, l.mem), l.last);
    hide ReadElement, Items;
  }

  lemma FiveRead(buf: string, mem: seq<Token>, last: real) returns (x: Dx)
    requires |buf| == LBUF && buf[1..2] == "5" && Texts(mem) && last <= 5.0
    requires mem[0].kind == Array && mem[1] == Token(Primitive, 1, 2, 0)
    ensures ReadElement(Items(buf, mem), 2, NoDx, last) == Got(true, x, 5.0) && x.freq == 5.0
  {
    FiveReads();
    var items := Items(buf, mem);
    assert items[1] == Item(Primitive, 0, "5");
    hide FloatOf, NumberText, LoadedText, ModeOf, Decode, CString, ItemOf;
    x := ReadElement(items, 2, NoDx, last).d;
  }

  lemma ShortLine(d: Dx, last: bool)
    requires InRange(d) && d.mode < MODES && |DxLoad.Body(d, last)| < LBUF - 1
    ensures var p := DxLoad.Body(d, last) + "\n"; Pieces(Line(d, last)) == [p] && Strip(p) == ElementText(Save(d))
  {
    var b := DxLoad.Body(d, last);
    hide Pieces, Strip, ElementText, Save, InRange;
    BodyOneLine(d, last);
    EndsArray(Save(d));
    Stripped(ElementText(Save(d)));
    OnePiece(b);
  }

  lemma OneKilohertz()
    ensures Centi(1.0) == 100 && FreqText(100) == "1.00"
  {
    assert Decimal(1) == "1";
  }

  lemma FirstTaken(e: Dx)
    requires e == Labelled(1.0, "")
    ensures InRange(e) && e.mode < MODES && Short(e)
    ensures var r := TakeAll(NewLoader(), Pieces(Line(e, false)));
            DxLoad.Ready(r) && r.labels == [Reread(e)] && r.last == 1.0 && Texts(r.mem)
  {
    var l, p := NewLoader(), DxLoad.Body(e, false) + "\n";
    ShortLabel(e);
    NewIsReady();
    OneKilohertz();
    assert Save(e).options.None? && l.mem == [] && l.labels == [] && l.last == 0.0;
    assert TakeAll(l, [p]) == TakePiece(l, p);
    hide *;
    EntryTaken(l, e, false);
    ShortLine(e, false);
    SavedMem(l, e, p);
  }

  lemma SecondTaken(l: Loader, d: Dx) returns (x: Dx)
    requires DxLoad.Ready(l) && Texts(l.mem) && l.last <= 5.0 && d == Labelled(2.0, Encode(Crafted()))
    ensures InRange(d) && d.mode < MODES && !Short(d)
    ensures var r := TakeAll(l, Pieces(Line(d, true)));
            DxLoad.Ready(r) && r.labels == l.labels + [x] && x.freq == 5.0
  {
    hide *;
    CraftedLine(d);
    LabelIs(2.0, Encode(Crafted()));
    CraftedPieces(d);
    var ps := Pieces(Line(d, true));
    Longer(d);
    LongPiece(l, d, ps[0]);
    LongMem(l, d, ps[0]);
    var m := TakePiece(l, ps[0]);
    x := MiddleTaken(m);
    BeginsWithLetter(ps[2]);
    WordIsHarmless(ps[2]);
    HarmlessKeeps(TakePiece(m, Middle()), ps[2]);
    Three(l, ps);
    UnchangedIs(TakePiece(m, Middle()), TakePiece(TakePiece(m, Middle()), ps[2]));
  }

  lemma UnchangedIs(l: Loader, r: Loader)
    requires Unchanged(l, r)
    ensures DxLoad.Ready(r) && r.labels == l.labels && r.last == l.last
  {
  }

  lemma BeginsWithLetter(p: string)
    requires p == "A\", \"\"]\n"
    ensures 3 <= |p| < LBUF && BeginsNothing(p[0])
  {
  }

  lemma LabelIs(freq: real, ident: string)
    ensures var d := Labelled(freq, ident); d.freq == freq && d.mode < MODES && Save(d).options.None?
  {
    hide Selective, Centi;
  }

  lemma Longer(d: Dx)
    requires d.mode < MODES && !Short(d)
    ensures LBUF - 1 <= |ElementText(Save(d))|
  {
    hide ElementText, Save;
  }

  lemma Three(l: Loader, ps: seq<string>)
    requires |ps| == 3
    ensures TakeAll(l, ps) == TakePiece(TakePiece(TakePiece(l, ps[0]), ps[1]), ps[2])
  {
    hide TakePiece;
    assert ps[1..][1..] == [ps[2]] && [ps[2]][1..] == [];
    assert TakeAll(l, ps) == TakeAll(TakePiece(l, ps[0]), ps[1..]);
    assert TakeAll(TakePiece(l, ps[0]), ps[1..]) == TakeAll(TakePiece(TakePiece(l, ps[0]), ps[1]), [ps[2]]);
  }

  lemma TwoLines(l: Loader, e: Dx, d: Dx)
    requires InRange(e) && InRange(d) && e.mode < MODES && d.mode < MODES
    ensures Modes([e, d])
    ensures TakeAll(l, Pieces(Lines([e, d])))
            == TakeAll(TakeAll(l, Pieces(Line(e, false))), Pieces(Line(d, true)))
  {
    hide Pieces, TakePiece, Line, InRange, Lines;
    assert [e, d][1..] == [d] && [d][1..] == [];
    LineThenLines(l, [e, d]);
    LineThenLines(TakeAll(l, Pieces(Line(e, false))), [d]);
    NoLines(TakeAll(TakeAll(l, Pieces(Line(e, false))), Pieces(Line(d, true))));
  }

  lemma FileTaken(list: seq<Dx>)
    requires Modes(list) && AllInRange(list)
    ensures var r := TakeAll(NewLoader(), Pieces(Lines(list)));
            DxLoad.Ready(r) ==> LoadFile(FileText(list)).running && LoadFile(FileText(list)).labels == r.labels
  {
    var r := TakeAll(NewLoader(), Pieces(Lines(list)));
    hide Pieces, TakePiece, DxLoad.Ready, Harmless, Lines, AllInRange, FileText, Repeat, Modes;
    FilePieces(list);
    EndIsHarmless();
    TakeBoth(NewLoader(), Pieces(Lines(list)), ["]}\n"]);
    if DxLoad.Ready(r) {
      HarmlessAll(r, ["]}\n"]);
      ReadyRuns(TakeAll(r, ["]}\n"]));
    }
  }

  /** Two labels are saved, the second one too long: it comes back as one on 5 kHz that nobody
      entered. */
  lemma TailIsLoaded(e: Dx, d: Dx) returns (x: Dx)
    requires e == Labelled(1.0, "") && d == Labelled(2.0, Encode(Crafted()))
    ensures AllInRange([e, d]) && Modes([e, d]) && Sorted([e, d]) && Kept([e, d]) == [Reread(e)]
    ensures var r := LoadFile(FileText([e, d])); r.running && r.labels == [Reread(e), x] && x.freq == 5.0
  {
    hide *;
    LabelIs(1.0, "");
    LabelIs(2.0, Encode(Crafted()));
    FirstTaken(e);
    var l := TakeAll(NewLoader(), Pieces(Line(e, false)));
    x := SecondTaken(l, d);
    TwoLines(NewLoader(), e, d);
    BothInRange(e, d);
    FileTaken([e, d]);
    assert [Reread(e)] + [x] == [Reread(e), x];
  }

  lemma BothInRange(e: Dx, d: Dx)
    requires InRange(e) && InRange(d) && e.mode < MODES && d.mode < MODES && e.freq <= d.freq && Short(e) && !Short(d)
    ensures AllInRange([e, d]) && Modes([e, d]) && Sorted([e, d]) && Kept([e, d]) == [Reread(e)]
  {
    hide InRange, Short, Reread;
    assert [e, d][1..] == [d] && [d][1..] == [];
    assert Kept([d]) == [] + Kept([]);
  }

  lemma ShortLabel(e: Dx)
    requires e == Labelled(1.0, "")
    ensures InRange(e) && e.mode < MODES && |DxLoad.Body(e, false)| < LBUF - 1 && Short(e)
  {
    OneKilohertz();
    EmptyText();
    hide *;
    LabelText(1.0, "");
    EmptyBody(e);
  }

  lemma EmptyBody(e: Dx)
    requires e.mode < MODES && Selective("") == "" && FreqText(100) == "1.00"
    requires ElementText(Save(e)) == "[" + FreqText(100) + ", \"AM\", \"" + Selective("") + "\", \"\"]"
    ensures |DxLoad.Body(e, false)| < LBUF - 1 && Short(e)
  {
    hide ElementText, Save, FreqText, Selective;
  }
}
