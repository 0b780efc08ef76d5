/**
 Loading the label file (`_dx_reload_file`). The file is read in pieces of at most 511
 characters, which are lines unless a line is longer. Each piece is tokenized for itself; the
 tokens of earlier pieces stay in memory behind those of the last one.
 */
module DxLoad {
  import opened Optional
  import opened Json
  import opened Jsmn
  import opened JsmnCut
  import opened CfgWalk
  import opened CfgLookup
  import CfgDoc
  import opened DxList
  import opened DxText
  import opened DxFile
  import opened DxLine

  const LBUF := 512
  const NTOK := 32

  // ---- the file --------------------------------------------------------------------------

  /** The line of an entry, of which only the last has no comma. */
  function Line(d: Dx, last: bool): string
    requires d.mode < MODES
  {
    ElementText(Save(d)) + (if last then "" else ",") + "\n"
  }

  predicate Modes(list: seq<Dx>) { forall i :: 0 <= i < |list| ==> list[i].mode < MODES }

  function Lines(list: seq<Dx>): string
    requires Modes(list)
  {
    if list == [] then "" else Line(list[0], |list| == 1) + Lines(list[1..])
  }

  function FileText(list: seq<Dx>): string
    requires Modes(list)
  {
    "{\"dx\":[\n" + Lines(list) + "]}\n"
  }

  // ---- pieces ----------------------------------------------------------------------------

  /** How much `fgets` reads: up to a line break, but less than the buffer. */
  function Fgets(text: string, room: nat): (n: nat)
    ensures n <= |text| && n <= room && (text != "" && room > 0 ==> n > 0)
  {
    if text == "" || room == 0 then 0 else if text[0] == '\n' then 1 else 1 + Fgets(text[1..], room - 1)
  }

  function Pieces(text: string): seq<string> {
    if text == "" then []
    else var n := Fgets(text, LBUF - 1); [text[..n]] + Pieces(text[n..])
  }

  /** The last character goes, taken for the line break, and then a comma. */
  function Strip(piece: string): string {
    if piece == "" then ""
    else
      var s := piece[..|piece| - 1];
      if s != "" && s[|s| - 1] == ',' then s[..|s| - 1] else s
  }

  // ---- loading ---------------------------------------------------------------------------

  /** The tokens and the line buffer in memory, the slot for the next entry, the frequency it
      must reach, and the entries so far. The program stops on exactly 32 tokens. */
  datatype Loader = Loader(mem: seq<Token>, buf: string, slot: Dx, last: real, labels: seq<Dx>, running: bool)

  function Repeat(c: char, n: nat): (s: string)
    ensures |s| == n && forall i :: 0 <= i < n ==> s[i] == c
  {
    if n == 0 then "" else [c] + Repeat(c, n - 1)
  }

  function NewLoader(): Loader { Loader([], Repeat('\0', LBUF), NoDx, 0.0, [], true) }

  /** The tokens when the tokenizer stops, at an error or for lack of memory. */
  function Made(js: string, p: Parser): (ts: seq<Token>)
    requires Jsmn.Valid(js, p)
    decreases |js| - p.pos
  {
    if p.pos == |js| then p.toks
    else
      var r := Turn(js, p);
      if r.Stop? || |r.p.toks| > NTOK then p.toks else Made(js, r.p)
  }

  /** The tokens of a piece, none on an error. */
  function Parsed(t: string): seq<Token> {
    var r := Parse(t, Begin);
    if r.Tokenized? && |r.toks| <= NTOK then r.toks else []
  }

  function Over(ts: seq<Token>, mem: seq<Token>): seq<Token> { ts + if |ts| <= |mem| then mem[|ts|..] else [] }

  /** The buffer with a piece and its stripped text in front, each followed by a zero. */
  function Filled(buf: string, piece: string, t: string): string {
    var b := piece + "\0" + if |piece| < |buf| then buf[|piece| + 1..] else "";
    t + "\0" + if |t| < |b| then b[|t| + 1..] else ""
  }

  function TakePiece(l: Loader, piece: string): Loader {
    var t := Strip(piece);
    var b := l.(buf := Filled(l.buf, piece, t));
    if !l.running then l
    else if "//" <= t then b
    else
      var ts := Parsed(t);
      var m := b.(mem := Over(Made(t, Begin), l.mem));
      if ts == [] then m else if |ts| == NTOK then m.(running := false) else TakeElement(m, |ts|)
  }

  /** A refused element leaves its slot to the next one. */
  function TakeElement(l: Loader, n: nat): Loader {
    var r := ReadElement(Items(l.buf, l.mem), n, l.slot, l.last);
    if r.ok then l.(slot := NoDx, last := r.last, labels := l.labels + [r.d]) else l.(slot := r.d, last := r.last)
  }

  function TakeAll(l: Loader, pieces: seq<string>): Loader
    decreases |pieces|
  {
    if pieces == [] then l else TakeAll(TakePiece(l, pieces[0]), pieces[1..])
  }

  /** The first line is skipped. */
  function LoadFile(text: string): Loader {
    var ps := Pieces(text);
    TakeAll(NewLoader(), if ps == [] then [] else ps[1..])
  }

  // ---- one piece -------------------------------------------------------------------------

  function MemKind(mem: seq<Token>, i: nat): Kind { if i < |mem| then mem[i].kind else Undefined }

  /** No object in memory where an entry without options skips numbers. */
  predicate Quiet(mem: seq<Token>) { MemKind(mem, 6) != Object && MemKind(mem, 7) != Object }

  /** Ready for the next entry. */
  predicate Ready(l: Loader) { l.running && l.slot == NoDx && Quiet(l.mem) && |l.buf| == LBUF }

  lemma MadeIs(js: string, p: Parser)
    requires Jsmn.Valid(js, p) && |Stopped(js, p).toks| <= NTOK
    ensures Made(js, p) == Stopped(js, p).toks
    decreases |js| - p.pos
  {
    hide Turn;
    if p.pos < |js| && Turn(js, p).Go? {
      var q := Turn(js, p).p;
      MadeIs(js, q);
      StoppedGrows(js, q);
    }
  }

  lemma {:induction false} StoppedGrows(js: string, p: Parser)
    requires Jsmn.Valid(js, p)
    ensures |p.toks| <= |Stopped(js, p).toks|
    decreases |js| - p.pos
  {
    if p.pos < |js| && Turn(js, p).Go? {
      TurnExtends(js, p);
      hide Turn;
      StoppedGrows(js, Turn(js, p).p);
    }
  }

  /** A tokenizer that comes to the end made the tokens it returns. */
  lemma ParsedMade(t: string)
    requires Parse(t, Begin).Tokenized? && |Parse(t, Begin).toks| <= NTOK
    ensures Made(t, Begin) == Parse(t, Begin).toks == Parsed(t)
  {
    ParseStopped(t, Begin);
    hide Turn;
    MadeIs(t, Begin);
  }

  // ---- a whole line ----------------------------------------------------------------------

  lemma ElementTokens(s: Saved)
    requires SavedOk(s) && CleanSaved(s)
    ensures var v := Element(s);
            Render(v) == ElementText(s) && ValueOk(v) && Parse(ElementText(s), Begin) == Tokenized(Tokens(v, 0))
    ensures |Tokens(Element(s), 0)| == |Flatten(Element(s))| <= 24
  {
    hide *;
    ElementSize(s);
    ElementOk(s);
    ElementIs(s);
    WholeValue(Element(s));
    SameSize(Element(s));
  }

  lemma ElementIs(s: Saved)
    requires SavedOk(s)
    ensures Render(Element(s)) == ElementText(s) && Element(s).Arr?
  {
    hide PlainKeys, Plain, Render, ElementText;
    ElementIsRender(s);
  }

  lemma ElementSize(s: Saved)
    requires SavedOk(s)
    ensures |Flatten(Element(s))| <= 24
  {
    hide Plain, PlainKeys, Flatten, Element, Render, OptionItems;
    ElementItems(s);
  }

  lemma SameSize(v: Json.Value)
    ensures |Tokens(v, 0)| == |Flatten(v)|
  {
    assert At(Render(v), 0, Render(v));
    CfgDoc.ItemsOfValue(Render(v), v, 0);
  }

  /** The kinds of the tokens of an element. */
  lemma ElementKinds(s: Saved)
    requires SavedOk(s) && CleanSaved(s)
    ensures var ts := Tokens(Element(s), 0);
            && MemKind(ts, 6) != Object && MemKind(ts, 7) != Object && (s.options.Some? <==> |ts| > 5)
            && ts[0].kind == Array && ts[0].start == 0 && ts[0].end == |ElementText(s)|
            && |ts| >= 5 && ts[2].kind == String && ts[3].kind == String && ts[4].kind == String
  {
    ElementTokens(s);
    var v := Element(s);
    var ts := Tokens(v, 0);
    assert At(Render(v), 0, Render(v));
    CfgDoc.ItemsOfValue(Render(v), v, 0);
    SameKinds(Render(v), ts);
    FlatKinds(s);
    hide Flatten, Render, ElementText, FreqText, IntText, Items;
  }

  lemma SameKinds(js: string, ts: seq<Token>)
    ensures |Items(js, ts)| == |ts| && forall i :: 0 <= i < |ts| ==> Items(js, ts)[i].kind == ts[i].kind
  {
  }

  lemma FlatKinds(s: Saved)
    requires SavedOk(s) && CleanSaved(s)
    ensures var fs := Flatten(Element(s));
            && |fs| >= 5 && fs[0].kind == Array && fs[2].kind == fs[3].kind == fs[4].kind == String
            && (s.options.Some? <==> |fs| > 5) && (|fs| > 6 ==> fs[6].kind != Object)
            && (|fs| > 7 ==> fs[7].kind != Object)
  {
    ElementItems(s);
    hide Flatten, Render, ElementText, FreqText, IntText;
    if s.options.Some? {
      var os := s.options.value;
      assert OptionItems(os)[0].kind == String && OptionItems(os)[1] == OptionItem(os[0].1);
    }
  }

  // ---- one piece taken -------------------------------------------------------------------

  lemma FilledAt(buf: string, piece: string, t: string)
    requires t == Strip(piece) && |piece| < |buf| == LBUF
    ensures At(Filled(buf, piece, t), 0, t) && |Filled(buf, piece, t)| == LBUF
  {
  }

  lemma ItemsOver(buf: string, ts: seq<Token>, mem: seq<Token>)
    ensures var m := Over(ts, mem); |ts| <= |m| && Items(buf, m)[..|ts|] == Items(buf, ts)
    ensures forall i :: |ts| <= i ==> MemKind(Over(ts, mem), i) == MemKind(mem, i)
    ensures forall i :: 0 <= i < |ts| ==> MemKind(Over(ts, mem), i) == ts[i].kind
    ensures forall i: nat :: KindAt(Items(buf, Over(ts, mem)), i) == MemKind(Over(ts, mem), i)
  {
  }

  /** A piece that holds an element adds its entry. */
  lemma SavedPiece(l: Loader, d: Dx, piece: string)
    requires Ready(l) && InRange(d) && Strip(piece) == ElementText(Save(d)) && |piece| < LBUF
    requires l.last <= Centi(d.freq) as real / 100.0
    ensures var r := TakePiece(l, piece);
            Ready(r) && r.last == Centi(d.freq) as real / 100.0 && r.labels == l.labels + [Reread(d)]
  {
    var s, t := Save(d), Strip(piece);
    var ts := Tokens(Element(s), 0);
    SaveClean(d);
    hide *;
    ElementTokens(s);
    ElementKinds(s);
    OpensArray(s);
    ParsedMade(t);
    PieceTaken(l, piece, ts);
    var m := l.(buf := Filled(l.buf, piece, t), mem := Over(ts, l.mem));
    ElementTaken(l, m, s, ts);
    ReadIs(d);
    SaveIs(d);
  }

  lemma OpensArray(s: Saved)
    ensures ElementText(s) != "" && ElementText(s)[0] == '['
  {
  }

  lemma PieceTaken(l: Loader, piece: string, ts: seq<Token>)
    requires l.running && Strip(piece) != "" && Strip(piece)[0] == '[' && 0 < |ts| <= 24
    requires Parsed(Strip(piece)) == ts == Made(Strip(piece), Begin)
    ensures TakePiece(l, piece)
            == TakeElement(l.(buf := Filled(l.buf, piece, Strip(piece)), mem := Over(ts, l.mem)), |ts|)
  {
    hide Strip, Parsed, Made, Filled, Over, TakeElement;
  }

  lemma ElementTaken(l: Loader, m: Loader, s: Saved, ts: seq<Token>)
    requires Ready(l) && SavedOk(s) && CleanSaved(s) && ts == Tokens(Element(s), 0)
    requires |m.buf| == LBUF && At(m.buf, 0, ElementText(s)) && m == l.(buf := m.buf, mem := Over(ts, l.mem))
    requires l.last <= s.centi as real / 100.0
    ensures var r := TakeElement(m, |ts|);
            Ready(r) && r.last == s.centi as real / 100.0 && r.labels == l.labels + [Read(s)]
  {
    var items := Items(m.buf, m.mem);
    assert Quiet(l.mem) && l.slot == NoDx;
    assert MemKind(l.mem, 6) != Object && MemKind(l.mem, 7) != Object;
    hide *;
    ElementTokens(s);
    ElementKinds(s);
    ItemsOver(m.buf, ts, l.mem);
    assert m.mem == Over(ts, l.mem);
    CfgDoc.ItemsOfValue(m.buf, Element(s), 0);
    assert items[..|ts|] == Flatten(Element(s));
    assert s.options.None? ==> KindAt(items, 6) == MemKind(m.mem, 6) == MemKind(l.mem, 6);
    assert s.options.None? ==> KindAt(items, 7) == MemKind(m.mem, 7) == MemKind(l.mem, 7);
    ReadSaved(items, |ts|, s, l.last);
    Taken(l, m, s, ts);
  }

  lemma Taken(l: Loader, m: Loader, s: Saved, ts: seq<Token>)
    requires Ready(l) && |m.buf| == LBUF && m == l.(buf := m.buf, mem := Over(ts, l.mem))
    requires ReadElement(Items(m.buf, m.mem), |ts|, NoDx, l.last) == Got(true, Read(s), s.centi as real / 100.0)
    requires MemKind(ts, 6) != Object && MemKind(ts, 7) != Object
    requires forall i :: |ts| <= i ==> MemKind(m.mem, i) == MemKind(l.mem, i)
    requires forall i :: 0 <= i < |ts| ==> MemKind(m.mem, i) == ts[i].kind
    ensures var r := TakeElement(m, |ts|);
            Ready(r) && r.last == s.centi as real / 100.0 && r.labels == l.labels + [Read(s)]
  {
    hide ReadElement, Items, Over, Read;
  }

  // ---- the first piece of a line that is too long --------------------------------------------

  /** It is never taken for an entry. */
  lemma LongPiece(l: Loader, d: Dx, piece: string)
    requires Ready(l) && InRange(d)
    requires LBUF - 1 <= |ElementText(Save(d))| && piece == ElementText(Save(d))[..LBUF - 1]
    ensures var r := TakePiece(l, piece); Ready(r) && r.labels == l.labels && r.last == l.last
  {
    var s, t := Save(d), Strip(piece);
    SaveClean(d);
    hide ElementText, Save, SavedOk, CleanSaved, Quiet, Filled, Made, Parsed, Parse, MemKind, Tokens, Element, Stopped,
      Extends, Render;
    StrippedPart(ElementText(s), piece);
    ElementTokens(s);
    ElementKinds(s);
    OpensArray(s);
    TruncatedIsPart(Element(s), |t|);
    PartMade(t, Tokens(Element(s), 0));
    PieceIgnored(l, piece);
    QuietOver(Made(t, Begin), l.mem, Tokens(Element(s), 0));
  }

  lemma StrippedPart(text: string, piece: string)
    requires LBUF - 1 <= |text| && piece == text[..LBUF - 1]
    ensures var t := Strip(piece); LBUF - 3 <= |t| < |text| && t == text[..|t|]
  {
  }

  lemma PartMade(t: string, ts: seq<Token>)
    requires Parse(t, Begin) == Failed(Part) && Extends(Stopped(t, Begin).toks, ts) && |ts| <= 24
    ensures Parsed(t) == [] && Made(t, Begin) == Stopped(t, Begin).toks && Extends(Made(t, Begin), ts)
  {
    hide Parse, Stopped, Made;
    MadeIs(t, Begin);
  }

  lemma PieceIgnored(l: Loader, piece: string)
    requires l.running && Parsed(Strip(piece)) == [] && |piece| < |l.buf| == LBUF && !("//" <= Strip(piece))
    ensures var t := Strip(piece);
            TakePiece(l, piece) == l.(buf := Filled(l.buf, piece, t), mem := Over(Made(t, Begin), l.mem))
    ensures |Filled(l.buf, piece, Strip(piece))| == LBUF
  {
    hide Strip, Parsed, Made, Over, Filled;
    FilledAt(l.buf, piece, Strip(piece));
  }

  /** Tokens of the kinds of an element put no object where it would matter. */
  lemma QuietOver(made: seq<Token>, mem: seq<Token>, ts: seq<Token>)
    requires Extends(made, ts) && MemKind(ts, 6) != Object && MemKind(ts, 7) != Object && Quiet(mem)
    ensures Quiet(Over(made, mem))
  {
  }

  // ---- the other pieces ----------------------------------------------------------------------

  /** The first token is an array and the second may be a frequency. */
  predicate StartsElement(t: string, ts: seq<Token>) {
    && ts != [] && ts[0].kind == Array && (|ts| == 1 || IsFloat(Items(t, ts), 1))
  }

  /** A piece from the middle of a text changes nothing that matters: it is a comment, or it does
      not stop the program, does not begin like an element, and has no object as its seventh or
      eighth token. */
  predicate Harmless(piece: string) {
    var t := Strip(piece);
    var ts, made := Parsed(t), Made(t, Begin);
    "//" <= t || (|ts| != NTOK && !StartsElement(t, ts) && MemKind(made, 6) != Object && MemKind(made, 7) != Object)
  }

  predicate Unchanged(l: Loader, r: Loader) { Ready(r) && r.labels == l.labels && r.last == l.last }

  lemma ParsedIsMade(t: string)
    ensures Parsed(t) == [] || Parsed(t) == Made(t, Begin)
  {
    hide Made, Parse;
    if Parsed(t) != [] { ParsedMade(t); }
  }

  lemma HarmlessKeeps(l: Loader, piece: string)
    requires Ready(l) && |piece| < LBUF && Harmless(piece)
    ensures Unchanged(l, TakePiece(l, piece))
  {
    var t := Strip(piece);
    FilledAt(l.buf, piece, t);
    hide Strip, Filled, Made, Parsed, Items, LieIn;
    if !("//" <= t) {
      var ts, made := Parsed(t), Made(t, Begin);
      ParsedIsMade(t);
      ParsedInside(t);
      ItemsOver(Filled(l.buf, piece, t), made, l.mem);
      if ts != [] { Refused(Filled(l.buf, piece, t), t, ts, l.mem, NoDx, l.last); }
      hide Over, StartsElement, ReadElement, MemKind;
    }
  }

  /** What does not begin like an element is refused. */
  lemma Refused(buf: string, t: string, ts: seq<Token>, mem: seq<Token>, slot: Dx, last: real)
    requires ts != [] && !StartsElement(t, ts) && At(buf, 0, t) && LieIn(ts, |t|)
    ensures ReadElement(Items(buf, Over(ts, mem)), |ts|, slot, last) == Got(false, slot, last)
  {
    var items := Items(buf, Over(ts, mem));
    assert items[0].kind == ts[0].kind;
    if |ts| > 1 { SameItem(buf, t, ts[1]); }
    hide ReadTexts;
  }

  lemma SameItem(buf: string, t: string, x: Token)
    requires At(buf, 0, t) && LieIn([x], |t|)
    ensures ItemOf(buf, x) == ItemOf(t, x)
  {
    assert [x][0] == x;
    if x.end != -1 { assert buf[x.start..x.end] == t[x.start..x.end]; }
  }

  lemma ParsedInside(t: string)
    ensures LieIn(Parsed(t), |t|)
  {
    hide Parse;
    if Parsed(t) != [] { RunInside(t, Begin); }
  }

  // ---- cutting the file into pieces ------------------------------------------------------------

  lemma {:induction false} FgetsLine(body: string, rest: string, room: nat)
    requires '\n' !in body
    ensures Fgets(body + "\n" + rest, room) == if |body| < room then |body| + 1 else room
    decreases |body|
  {
    var text := body + "\n" + rest;
    if body != "" && room > 0 {
      assert body[0] in body && forall c :: c in body[1..] ==> c in body;
      assert text[1..] == body[1..] + "\n" + rest;
      FgetsLine(body[1..], rest, room - 1);
    }
  }

  lemma FirstPiece(body: string, rest: string)
    requires '\n' !in body
    ensures var text, n := body + "\n" + rest, LBUF - 1;
            Pieces(text) == if |body| < n then [body + "\n"] + Pieces(rest)
                            else [body[..n]] + Pieces(body[n..] + "\n" + rest)
  {
    var text, n := body + "\n" + rest, LBUF - 1;
    FgetsLine(body, rest, n);
    if |body| < n {
      assert text[..|body| + 1] == body + "\n" && text[|body| + 1..] == rest;
    } else {
      assert text[..n] == body[..n] && text[n..] == body[n..] + "\n" + rest;
    }
  }

  lemma OnePiece(body: string)
    requires '\n' !in body && |body| < LBUF - 1
    ensures Pieces(body + "\n") == [body + "\n"]
  {
    assert Pieces("") == [];
    hide Pieces;
    FirstPiece(body, "");
    assert body + "\n" + "" == body + "\n";
  }

  /** A long line is cut. */
  lemma CutPiece(a: string, b: string)
    requires '\n' !in a && '\n' !in b && |a| == LBUF - 1
    ensures Pieces(a + b + "\n") == [a] + Pieces(b + "\n")
  {
    hide Pieces;
    FirstPiece(a + b, "");
    assert (a + b)[..LBUF - 1] == a && (a + b)[LBUF - 1..] == b;
    assert a + b + "\n" + "" == a + b + "\n" && b + "\n" + "" == b + "\n";
  }

  /** The pieces of a line do not depend on what follows it. */
  lemma {:induction false} LinePieces(body: string, rest: string)
    requires '\n' !in body
    ensures Pieces(body + "\n" + rest) == Pieces(body + "\n") + Pieces(rest)
    ensures forall i :: 0 <= i < |Pieces(body + "\n")| ==> |Pieces(body + "\n")[i]| < LBUF
    decreases |body|
  {
    var n := LBUF - 1;
    hide Pieces;
    FirstPiece(body, rest);
    if |body| >= n {
      var a, b := body[..n], body[n..];
      Halves(body, n);
      hide *;
      CutPiece(a, b);
      LinePieces(b, rest);
      OneMore(a, Pieces(b + "\n"), Pieces(rest));
    } else {
      OnePiece(body);
    }
  }

  lemma Halves(body: string, n: nat)
    requires n <= |body| && '\n' !in body
    ensures body == body[..n] + body[n..] && '\n' !in body[..n] && '\n' !in body[n..]
  {
    assert forall c :: c in body[n..] ==> c in body;
    assert forall c :: c in body[..n] ==> c in body;
  }

  lemma OneMore(p: string, a: seq<string>, b: seq<string>)
    requires |p| < LBUF && forall i :: 0 <= i < |a| ==> |a[i]| < LBUF
    ensures [p] + (a + b) == ([p] + a) + b && forall i :: 0 <= i < |[p] + a| ==> |([p] + a)[i]| < LBUF
  {
  }

  lemma {:induction false} TakeBoth(l: Loader, a: seq<string>, b: seq<string>)
    ensures TakeAll(l, a + b) == TakeAll(TakeAll(l, a), b)
    decreases |a|
  {
    if a == [] {
      assert a + b == b;
    } else {
      assert (a + b)[0] == a[0] && (a + b)[1..] == a[1..] + b;
      hide TakePiece;
      TakeBoth(TakePiece(l, a[0]), a[1..], b);
    }
  }

  lemma {:induction false} HarmlessAll(l: Loader, ps: seq<string>)
    requires Ready(l) && forall i :: 0 <= i < |ps| ==> |ps[i]| < LBUF && Harmless(ps[i])
    ensures Unchanged(l, TakeAll(l, ps))
    decreases |ps|
  {
    if ps != [] {
      HarmlessKeeps(l, ps[0]);
      hide TakePiece, Harmless, Ready;
      HarmlessAll(TakePiece(l, ps[0]), ps[1..]);
    }
  }

  // ---- one entry --------------------------------------------------------------------------------

  /** The element fits the buffer: with its comma and line break it may be one more. */
  predicate Short(d: Dx)
    requires d.mode < MODES
  {
    |ElementText(Save(d))| <= LBUF - 2
  }

  /** The pieces of a line after the first one do no harm. */
  predicate QuietTail(d: Dx, last: bool)
    requires d.mode < MODES
  {
    var ps := Pieces(Line(d, last)); forall i :: 1 <= i < |ps| ==> Harmless(ps[i])
  }

  function Body(d: Dx, last: bool): string
    requires d.mode < MODES
  {
    ElementText(Save(d)) + if last then "" else ","
  }

  lemma BodyOneLine(d: Dx, last: bool)
    requires InRange(d)
    ensures '\n' !in Body(d, last) && Line(d, last) == Body(d, last) + "\n"
  {
    SaveClean(d);
    hide ElementText, Save;
    OneLine(Save(d));
  }

  lemma Stripped(t: string)
    requires t != "" && t[|t| - 1] == ']'
    ensures Strip(t + "\n") == t && Strip(t + ",") == t && Strip(t + "," + "\n") == t
  {
    assert (t + "," + "\n")[..|t| + 1] == t + "," && (t + ",")[..|t|] == t && (t + "\n")[..|t|] == t;
  }

  lemma EndsArray(s: Saved)
    ensures ElementText(s) != "" && ElementText(s)[|ElementText(s)| - 1] == ']'
  {
  }

  lemma ElementPieces(t: string, b: string)
    requires t != "" && t[|t| - 1] == ']' && |t| <= LBUF - 2 && (b == t || b == t + ",") && '\n' !in b
    ensures var ps := Pieces(b + "\n");
            && ps != [] && Strip(ps[0]) == t && |ps[0]| < LBUF && (ps == [ps[0]] || ps == [ps[0], "\n"])
  {
    hide Pieces, Strip;
    Stripped(t);
    if |b| < LBUF - 1 {
      OnePiece(b);
    } else {
      assert b + "" == b && "" + "\n" == "\n";
      CutPiece(b, "");
      LineBreakAlone();
    }
  }

  lemma BodyForms(d: Dx, last: bool)
    requires d.mode < MODES
    ensures Body(d, last) == ElementText(Save(d)) || Body(d, last) == ElementText(Save(d)) + ","
    ensures Short(d) ==> |ElementText(Save(d))| <= LBUF - 2
  {
    hide ElementText, Save;
    if last { assert ElementText(Save(d)) + "" == ElementText(Save(d)); }
  }

  lemma ShortPieces(d: Dx, last: bool)
    requires InRange(d) && d.mode < MODES && Short(d)
    ensures var ps := Pieces(Line(d, last));
            && ps != [] && Strip(ps[0]) == ElementText(Save(d)) && |ps[0]| < LBUF
            && forall i :: 1 <= i < |ps| ==> |ps[i]| < LBUF && Harmless(ps[i])
  {
    hide *;
    BodyOneLine(d, last);
    BodyForms(d, last);
    EndsArray(Save(d));
    ElementPieces(ElementText(Save(d)), Body(d, last));
    LineBreakAlone();
  }

  lemma LongPieces(d: Dx, last: bool)
    requires InRange(d) && !Short(d)
    ensures var ps := Pieces(Line(d, last));
            && ps != [] && ps[0] == ElementText(Save(d))[..LBUF - 1]
            && forall i :: 1 <= i < |ps| ==> |ps[i]| < LBUF
  {
    var b := Body(d, last);
    hide Pieces, ElementText, Save, InRange;
    BodyOneLine(d, last);
    FirstPiece(b, "");
    LinePieces(b, "");
    assert b + "\n" + "" == b + "\n";
    assert b[..LBUF - 1] == ElementText(Save(d))[..LBUF - 1];
  }

  /** What becomes of an entry on its line. */
  lemma EntryTaken(l: Loader, d: Dx, last: bool)
    requires Ready(l) && InRange(d) && l.last <= Centi(d.freq) as real / 100.0 && (Short(d) || QuietTail(d, last))
    ensures var r := TakeAll(l, Pieces(Line(d, last)));
            && Ready(r) && r.last == (if Short(d) then Centi(d.freq) as real / 100.0 else l.last)
            && r.labels == l.labels + if Short(d) then [Reread(d)] else []
  {
    assert d.mode < MODES;
    hide TakePiece, Strip, Centi, Ready, Save, InRange, Reread, Harmless, Pieces, Line, ElementText;
    var ps := Pieces(Line(d, last));
    if Short(d) {
      ShortPieces(d, last);
      SavedPiece(l, d, ps[0]);
    } else {
      LongPieces(d, last);
      LongPiece(l, d, ps[0]);
    }
    hide Short;
    HarmlessAll(TakePiece(l, ps[0]), ps[1..]);
  }

  lemma LineBreakAlone()
    ensures Pieces("\n") == ["\n"] && Harmless("\n") && Harmless(",\n")
  {
    OnePiece("");
    assert "" + "\n" == "\n";
    NothingLeft("\n");
    NothingLeft(",\n");
  }

  lemma NothingLeft(piece: string)
    requires Strip(piece) == ""
    ensures Harmless(piece)
  {
    assert Parse("", Begin) == Tokenized([]) && Made("", Begin) == [];
  }

  // ---- the whole list ------------------------------------------------------------------------

  predicate AllInRange(list: seq<Dx>) { forall i :: 0 <= i < |list| ==> InRange(list[i]) }

  /** Lines that are too long leave nothing harmful behind. */
  predicate QuietTails(list: seq<Dx>)
    requires Modes(list)
  {
    forall i {:trigger list[i]} :: 0 <= i < |list| ==> Short(list[i]) || QuietTail(list[i], i == |list| - 1)
  }

  /** The entries that fit, as they are read. */
  function Kept(list: seq<Dx>): seq<Dx>
    requires Modes(list)
  {
    if list == [] then [] else (if Short(list[0]) then [Reread(list[0])] else []) + Kept(list[1..])
  }

  lemma {:induction false} LinesTaken(l: Loader, list: seq<Dx>)
    requires Ready(l) && AllInRange(list) && Modes(list) && Sorted(list) && QuietTails(list)
    requires list != [] ==> l.last <= Centi(list[0].freq) as real / 100.0
    ensures var r := TakeAll(l, Pieces(Lines(list))); Ready(r) && r.labels == l.labels + Kept(list)
    decreases |list|
  {
    hide *;
    if list != [] {
      var d, more := list[0], list[1..];
      RestOfList(list);
      EntryTaken(l, d, |list| == 1);
      LineThenLines(l, list);
      if more != [] { CentiMonotone(d.freq, more[0].freq); }
      LinesTaken(TakeAll(l, Pieces(Line(d, |list| == 1))), more);
      KeptFirst(l.labels, list);
    } else {
      NoLines(l);
    }
  }

  lemma KeptFirst(labels: seq<Dx>, list: seq<Dx>)
    requires list != [] && Modes(list)
    ensures Modes(list[1..])
    ensures labels + Kept(list) == labels + (if Short(list[0]) then [Reread(list[0])] else []) + Kept(list[1..])
  {
    hide Short, Reread;
  }

  lemma NoLines(l: Loader)
    ensures TakeAll(l, Pieces(Lines([]))) == l && l.labels + Kept([]) == l.labels
  {
    assert Pieces("") == [];
  }

  lemma RestOfList(list: seq<Dx>)
    requires list != [] && AllInRange(list) && Modes(list) && Sorted(list) && QuietTails(list)
    ensures InRange(list[0]) && list[0].mode < MODES && (Short(list[0]) || QuietTail(list[0], |list| == 1))
    ensures AllInRange(list[1..]) && Modes(list[1..]) && Sorted(list[1..]) && QuietTails(list[1..])
    ensures |list| > 1 ==> list[0].freq <= list[1].freq
  {
    hide InRange, Short, QuietTail;
    assert forall i :: 0 <= i < |list[1..]| ==> list[1..][i] == list[i + 1];
  }

  lemma LineThenLines(l: Loader, list: seq<Dx>)
    requires list != [] && Modes(list) && InRange(list[0])
    ensures TakeAll(l, Pieces(Lines(list)))
            == TakeAll(TakeAll(l, Pieces(Line(list[0], |list| == 1))), Pieces(Lines(list[1..])))
  {
    var b := Body(list[0], |list| == 1);
    hide Pieces, TakePiece, TakeAll, InRange, Line;
    BodyOneLine(list[0], |list| == 1);
    LinePieces(b, Lines(list[1..]));
    TakeBoth(l, Pieces(b + "\n"), Pieces(Lines(list[1..])));
  }

  lemma {:induction false} LinesPieces(list: seq<Dx>, rest: string)
    requires Modes(list) && AllInRange(list)
    ensures Pieces(Lines(list) + rest) == Pieces(Lines(list)) + Pieces(rest)
    decreases |list|
  {
    assert Pieces("") == [];
    hide Pieces, Line, InRange, ElementText, Save;
    if list == [] {
      assert Lines(list) + rest == rest;
    } else {
      var b, more := Body(list[0], |list| == 1), Lines(list[1..]);
      BodyOneLine(list[0], |list| == 1);
      LinesPieces(list[1..], rest);
      hide Lines, Body, AllInRange, Modes;
      LinePieces(b, more);
      LinePieces(b, more + rest);
      Regroup(b, more, rest);
      RegroupPieces(Pieces(b + "\n"), Pieces(more), Pieces(rest));
    }
  }

  lemma Regroup(b: string, more: string, rest: string)
    ensures b + "\n" + (more + rest) == b + "\n" + more + rest
  {
  }

  lemma RegroupPieces(a: seq<string>, b: seq<string>, c: seq<string>)
    ensures a + (b + c) == a + b + c
  {
  }

  lemma FilePieces(list: seq<Dx>)
    requires Modes(list) && AllInRange(list)
    ensures var ps := Pieces(FileText(list)); ps != [] && ps[1..] == Pieces(Lines(list)) + ["]}\n"]
  {
    hide Pieces, Lines, AllInRange, Modes;
    HeadPieces(Lines(list));
    LinesPieces(list, "]}\n");
    EndPieces();
  }

  lemma HeadPieces(lines: string)
    ensures Pieces("{\"dx\":[\n" + lines + "]}\n") == ["{\"dx\":[\n"] + Pieces(lines + "]}\n")
  {
    hide Pieces;
    FirstPiece("{\"dx\":[", lines + "]}\n");
    Regroup("{\"dx\":[", lines, "]}\n");
    assert "{\"dx\":[" + "\n" == "{\"dx\":[\n";
  }

  lemma EndPieces()
    ensures Pieces("]}\n") == ["]}\n"]
  {
    hide Pieces;
    OnePiece("]}");
    assert "]}" + "\n" == "]}\n";
  }

  lemma EndIsHarmless()
    ensures Harmless("]}\n")
  {
    assert Strip("]}\n") == "]}";
    var p := Begin;
    assert CloseToken(']', p) == Stop(Inval);
    assert Turn("]}", p) == Stop(Inval);
    hide Turn;
    assert Parse("]}", p) == Failed(Inval) && Made("]}", p) == [];
  }

  lemma NewIsReady()
    ensures Ready(NewLoader())
  {
  }

  /** The list is loaded in order without the entries whose elements have more than 510
      characters, as long as what follows the first 511 characters of such a line does no harm. */
  lemma SortedListLoads(list: seq<Dx>)
    requires AllInRange(list) && Modes(list) && Sorted(list) && QuietTails(list)
    requires list != [] ==> 0.0 <= Centi(list[0].freq) as real / 100.0
    ensures var r := LoadFile(FileText(list)); r.running && r.labels == Kept(list)
  {
    var ps := Pieces(FileText(list));
    FilePieces(list);
    NewIsReady();
    EndIsHarmless();
    hide Pieces, TakePiece, Ready, Harmless, Lines, AllInRange, QuietTails, Sorted, Kept, FileText, Centi, Repeat;
    LinesTaken(NewLoader(), list);
    TakeBoth(NewLoader(), Pieces(Lines(list)), ["]}\n"]);
    var r := TakeAll(NewLoader(), Pieces(Lines(list)));
    HarmlessAll(r, ["]}\n"]);
    ReadyRuns(TakeAll(r, ["]}\n"]));
    assert [] + Kept(list) == Kept(list);
  }

  lemma ReadyRuns(l: Loader)
    requires Ready(l)
    ensures l.running
  {
  }

  /** What comes back unchanged: the fields survive, and the element fits. */
  predicate Survives(d: Dx)
    requires d.mode < MODES
  {
    FieldsSurvive(d) && Short(d)
  }

  /** The line of an entry brings it back as it was, up to the normal form, exactly if its fields
      survive and its element has at most 510 characters; a longer one brings back nothing. */
  lemma SaveThenLoad(l: Loader, d: Dx, last: bool)
    requires Ready(l) && InRange(d) && l.last <= Centi(d.freq) as real / 100.0 && (Short(d) || QuietTail(d, last))
    ensures var r := TakeAll(l, Pieces(Line(d, last))); r.labels == l.labels + [Normal(d)] <==> Survives(d)
    ensures !Short(d) ==> TakeAll(l, Pieces(Line(d, last))).labels == l.labels
  {
    EntryTaken(l, d, last);
    RereadIsNormal(d);
    hide Pieces, TakeAll, Line, QuietTail, Short, Ready, InRange, Centi, Reread, Normal, FieldsSurvive;
    assert (l.labels + [Reread(d)])[|l.labels|] == Reread(d) && (l.labels + [Normal(d)])[|l.labels|] == Normal(d);
  }

  /** A list of entries that fit is loaded completely, whatever their texts. */
  lemma {:induction false} AllKept(list: seq<Dx>)
    requires Modes(list) && AllInRange(list) && forall i :: 0 <= i < |list| ==> Short(list[i])
    ensures QuietTails(list) && |Kept(list)| == |list|
    ensures forall i :: 0 <= i < |list| ==>
              Kept(list)[i] == Reread(list[i]) && (FieldsSurvive(list[i]) ==> Kept(list)[i] == Normal(list[i]))
    decreases |list|
  {
    hide InRange, Short, Reread, Normal, FieldsSurvive, QuietTail;
    if list != [] {
      RereadIsNormal(list[0]);
      AllKept(list[1..]);
    }
  }

  // ---- what pieces can do ----------------------------------------------------------------------

  /** A piece does no harm to any loader exactly if it is harmless. (For arrays without elements
      it depends on what the buffer held.) */
  lemma HarmlessIff(piece: string)
    requires |piece| < LBUF && |Parsed(Strip(piece))| != 1
    ensures Harmless(piece) <==> forall l :: Ready(l) ==> Unchanged(l, TakePiece(l, piece))
  {
    if Harmless(piece) {
      hide Harmless, TakePiece;
      forall l | Ready(l) ensures Unchanged(l, TakePiece(l, piece)) { HarmlessKeeps(l, piece); }
    } else {
      var l := HarmfulTo(piece);
    }
  }

  /** A loader that a piece does harm to. */
  lemma HarmfulTo(piece: string) returns (l: Loader)
    requires |piece| < LBUF && |Parsed(Strip(piece))| != 1 && !Harmless(piece)
    ensures Ready(l) && !Unchanged(l, TakePiece(l, piece))
  {
    var t := Strip(piece);
    var ts, made := Parsed(t), Made(t, Begin);
    NewIsReady();
    l := NewLoader();
    var f := Filled(l.buf, piece, t);
    FilledAt(l.buf, piece, t);
    ParsedIsMade(t);
    ParsedInside(t);
    ItemsOver(f, made, l.mem);
    hide Strip, Filled, Made, Parsed, Repeat, Items, LieIn;
    if StartsElement(t, ts) {
      SameItem(f, t, ts[1]);
      var freq := FloatOf(ItemOf(t, ts[1]).text);
      l := l.(last := if freq + 1.0 == 0.0 then freq + 2.0 else freq + 1.0);
      assert Items(f, Over(made, l.mem))[1] == ItemOf(f, ts[1]);
      hide ReadTexts, FloatOf, ItemOf;
    } else {
      hide StartsElement, ReadElement;
    }
  }

  predicate BeginsNothing(c: char) {
    && !IsSpace(c) && !StartsPrimitive(c) && c != '[' && c != ']' && c != '{' && c != '}' && c != '"' && c != ':'
    && c != ','
  }

  /** A piece that begins with a letter of a word, say, is harmless. */
  lemma WordIsHarmless(piece: string)
    requires |piece| >= 3 && BeginsNothing(piece[0])
    ensures Harmless(piece)
  {
    var t := Strip(piece);
    assert t != "" && t[0] == piece[0];
    hide Strip;
    assert Turn(t, Begin) == Stop(Inval);
    hide Turn;
    assert Parse(t, Begin) == Failed(Inval) && Made(t, Begin) == [];
  }

  // ---- the loops ---------------------------------------------------------------------------------

  /** `dx_save_as_json`: prints the elements, then puts the file together. */
  method SaveAll(list: seq<Dx>) returns (text: string)
    requires Modes(list)
    ensures text == FileText(list)
  {
    var lines: seq<string> := [];
    hide Line, Lines;
    for i := 0 to |list|
      invariant |lines| == i && forall k :: 0 <= k < i ==> lines[k] == Line(list[k], k == |list| - 1)
    {
      lines := lines + [Line(list[i], i == |list| - 1)];
    }
    text := "{\"dx\":[\n";
    assert list[0..] == list;
    for i := 0 to |list|
      invariant text + Lines(list[i..]) == "{\"dx\":[\n" + Lines(list)
    {
      MoreLines(list, i);
      assert text + (lines[i] + Lines(list[i + 1..])) == text + lines[i] + Lines(list[i + 1..]);
      text := text + lines[i];
    }
    assert Lines(list[|list|..]) == "" by { EmptyLines(); }
    text := text + "]}\n";
  }

  lemma EmptyLines()
    ensures Lines([]) == ""
  {
  }

  lemma MoreLines(list: seq<Dx>, i: nat)
    requires Modes(list) && i < |list|
    ensures Lines(list[i..]) == Line(list[i], i == |list| - 1) + Lines(list[i + 1..])
  {
    assert list[i..][1..] == list[i + 1..] && list[i..][0] == list[i];
    hide Line;
  }

  /** `_dx_reload_file`. */
  method Reload(text: string) returns (l: Loader)
    ensures l == LoadFile(text)
  {
    var rest := text[Fgets(text, LBUF - 1)..];     // the first line
    l := NewLoader();
    hide TakePiece, Fgets, NewLoader;
    while rest != ""
      invariant TakeAll(l, Pieces(rest)) == LoadFile(text)
      decreases |rest|
    {
      var n := Fgets(rest, LBUF - 1);
      l := TakePiece(l, rest[..n]);
      rest := rest[n..];
    }
  }
}
