/**
 The tokenizer `jsmn_parse` (in strict mode, without parent links): one pass over the text
 that keeps only the token list and the index of the token whose size counts the next one.
 On the text of a JSON value it yields the value's tokens, or fails on its primitives.
 */
module Jsmn {
  import opened Json

  /** `super` is -1 when there is no superior token. */
  datatype Parser = Parser(pos: nat, toks: seq<Token>, super: int)

  datatype Code = Inval | Part

  datatype Scan = End(pos: nat) | Bad(code: Code)

  datatype Outcome = Tokenized(toks: seq<Token>) | Failed(code: Code)

  predicate IsSpace(c: char) { c == ' ' || c == '\t' || c == '\r' || c == '\n' }

  predicate EndsPrimitive(c: char) { IsSpace(c) || c == ',' || c == ']' || c == '}' }

  /** Numbers, booleans and null. */
  predicate StartsPrimitive(c: char) { '0' <= c <= '9' || c == '-' || c == 't' || c == 'f' || c == 'n' }

  predicate Printable(c: char) { ' ' <= c < '\U{7f}' }

  predicate IsHex(c: char) { '0' <= c <= '9' || 'A' <= c <= 'F' || 'a' <= c <= 'f' }

  predicate IsEscape(c: char) {
    c == '"' || c == '/' || c == '\\' || c == 'b' || c == 'f' || c == 'r' || c == 'n' || c == 't'
  }

  // ---- scanning ----------------------------------------------------------------------

  /** From inside a string at `i`: the position of the closing quote. */
  function StringEnd(js: string, i: nat): (r: Scan)
    requires i <= |js|
    ensures r.End? ==> i <= r.pos < |js|
    decreases |js| - i
  {
    if i == |js| then Bad(Part)
    else if js[i] == '"' then End(i)
    else if js[i] == '\\' && i + 1 < |js| then
      if IsEscape(js[i + 1]) then StringEnd(js, i + 2)
      else if js[i + 1] == 'u' then
        var h := HexEnd(js, i + 2, 4);
        if h.Bad? then h else StringEnd(js, h.pos)
      else Bad(Inval)
    else StringEnd(js, i + 1)
  }

  /** Skips `n` hexadecimal digits; the text may end before. */
  function HexEnd(js: string, i: nat, n: nat): (r: Scan)
    requires i <= |js|
    ensures r.End? ==> i <= r.pos <= |js|
    decreases n
  {
    if n == 0 || i == |js| then End(i) else if IsHex(js[i]) then HexEnd(js, i + 1, n - 1) else Bad(Inval)
  }

  /** The end of a primitive, which must consist of printable characters, and must not be
      the end of the text. */
  function PrimitiveEnd(js: string, i: nat): (r: Scan)
    requires i <= |js|
    ensures r.End? ==> i <= r.pos < |js| && (!EndsPrimitive(js[i]) ==> i < r.pos)
    decreases |js| - i
  {
    if i == |js| then Bad(Part)
    else if EndsPrimitive(js[i]) then End(i)
    else if !Printable(js[i]) then Bad(Inval)
    else PrimitiveEnd(js, i + 1)
  }

  // ---- the token list ----------------------------------------------------------------

  predicate IsOpen(t: Token) { t.start != -1 && t.end == -1 }

  predicate IsContainer(t: Token) { t.kind == Array || t.kind == Object }

  /** The last open token (or open object or array) among the first `n`; -1 if there is none. */
  function LastOpen(toks: seq<Token>, n: nat, anyKind: bool): (i: int)
    requires n <= |toks|
    ensures -1 <= i < n && (i >= 0 ==> IsOpen(toks[i]))
  {
    if n == 0 then -1
    else if IsOpen(toks[n - 1]) && (anyKind || IsContainer(toks[n - 1])) then n - 1
    else LastOpen(toks, n - 1, anyKind)
  }

  /** One more token belongs to the superior one. */
  function Bump(toks: seq<Token>, super: int): (r: seq<Token>)
    ensures |r| == |toks|
  {
    if 0 <= super < |toks| then toks[super := toks[super].(size := toks[super].size + 1)] else toks
  }

  // ---- one turn of the loop ----------------------------------------------------------

  datatype Result = Go(p: Parser) | Stop(code: Code)

  predicate Valid(js: string, p: Parser) { p.pos <= |js| && -1 <= p.super < |p.toks| }

  function OpenToken(c: char, p: Parser): Parser {
    Parser(p.pos + 1, Bump(p.toks, p.super) + [Token(if c == '{' then Object else Array, p.pos, -1, 0)], |p.toks|)
  }

  function CloseToken(c: char, p: Parser): Result {
    var i := LastOpen(p.toks, |p.toks|, true);
    if i == -1 || p.toks[i].kind != (if c == '}' then Object else Array) then Stop(Inval)
    else
      var toks := p.toks[i := p.toks[i].(end := p.pos + 1)];
      Go(Parser(p.pos + 1, toks, LastOpen(toks, i + 1, true)))
  }

  function Comma(p: Parser): Parser
    requires -1 <= p.super < |p.toks|
  {
    var i := LastOpen(p.toks, |p.toks|, false);
    Parser(p.pos + 1, p.toks, if p.super != -1 && !IsContainer(p.toks[p.super]) && i != -1 then i else p.super)
  }

  function Leaf(kind: Kind, start: nat, end: nat, next: nat, p: Parser): Parser {
    Parser(next, Bump(p.toks + [Token(kind, start, end, 0)], p.super), p.super)
  }

  /** A primitive may not stand where a key must, nor after a value of the same key. */
  predicate Accepts(p: Parser)
    requires -1 <= p.super < |p.toks|
  {
    p.super == -1 || (var t := p.toks[p.super]; t.kind != Object && (t.kind == String ==> t.size == 0))
  }

  function Turn(js: string, p: Parser): (r: Result)
    requires Valid(js, p) && p.pos < |js|
    ensures r.Go? ==> Valid(js, r.p) && p.pos < r.p.pos
  {
    var c := js[p.pos];
    if c == '{' || c == '[' then Go(OpenToken(c, p))
    else if c == '}' || c == ']' then CloseToken(c, p)
    else if c == '"' then
      var e := StringEnd(js, p.pos + 1);
      if e.Bad? then Stop(e.code) else Go(Leaf(String, p.pos + 1, e.pos, e.pos + 1, p))
    else if IsSpace(c) then Go(p.(pos := p.pos + 1))
    else if c == ':' then Go(Parser(p.pos + 1, p.toks, |p.toks| - 1))
    else if c == ',' then Go(Comma(p))
    else if !StartsPrimitive(c) || !Accepts(p) then Stop(Inval)
    else
      var e := PrimitiveEnd(js, p.pos);
      if e.Bad? then Stop(e.code) else Go(Leaf(Primitive, p.pos, e.pos, e.pos, p))
  }

  function Parse(js: string, p: Parser): Outcome
    requires Valid(js, p)
    decreases |js| - p.pos
  {
    if p.pos == |js| then if LastOpen(p.toks, |p.toks|, true) != -1 then Failed(Part) else Tokenized(p.toks)
    else
      var r := Turn(js, p);
      if r.Stop? then Failed(r.code) else Parse(js, r.p)
  }

  // ---- texts of values ---------------------------------------------------------------

  predicate Blank(s: string) { forall i :: 0 <= i < |s| ==> IsSpace(s[i]) }

  /** The inside of a string literal: quotes only escaped, escapes complete. */
  predicate StringOk(s: string) {
    || s == ""
    || (s[0] != '"' && s[0] != '\\' && StringOk(s[1..]))
    || (|s| >= 2 && s[0] == '\\' && IsEscape(s[1]) && StringOk(s[2..]))
    || (|s| >= 6 && s[0] == '\\' && s[1] == 'u' && IsHex(s[2]) && IsHex(s[3]) && IsHex(s[4]) && IsHex(s[5])
        && StringOk(s[6..]))
  }

  predicate PrimitiveOk(s: string) {
    s != "" && StartsPrimitive(s[0]) && forall i :: 0 <= i < |s| ==> Printable(s[i]) && !EndsPrimitive(s[i])
  }

  predicate ValueOk(v: Value) {
    match v
    case Prim(text) => PrimitiveOk(text)
    case Str(text) => StringOk(text)
    case Arr(es) => ElemsOk(es)
    case Obj(ms) => MembersOk(ms)
  }

  predicate ElemsOk(es: Elems) {
    es.Elem? ==> Blank(es.pre) && ValueOk(es.value) && Blank(es.post) && ElemsOk(es.more)
  }

  predicate MembersOk(ms: Members) {
    ms.Member? ==>
      && Blank(ms.pre) && StringOk(ms.key) && Blank(ms.mid) && ValueOk(ms.value) && Blank(ms.post)
      && MembersOk(ms.more)
  }

  /** Text shaped like a value, with any words for primitives. */
  predicate BareWord(s: string) {
    && s != "" && s[0] != '{' && s[0] != '[' && s[0] != '"' && s[0] != ':'
    && forall i :: 0 <= i < |s| ==> !EndsPrimitive(s[i])
  }

  predicate Shaped(v: Value) {
    match v
    case Prim(text) => BareWord(text)
    case Str(text) => StringOk(text)
    case Arr(es) => ShapedElems(es)
    case Obj(ms) => ShapedMembers(ms)
  }

  predicate ShapedElems(es: Elems) {
    es.Elem? ==> Blank(es.pre) && Shaped(es.value) && Blank(es.post) && ShapedElems(es.more)
  }

  predicate ShapedMembers(ms: Members) {
    ms.Member? ==>
      && Blank(ms.pre) && StringOk(ms.key) && Blank(ms.mid) && Shaped(ms.value) && Blank(ms.post)
      && ShapedMembers(ms.more)
  }

  lemma {:induction false} PrimitivesAreWords(v: Value)
    ensures ValueOk(v) ==> Shaped(v)
    decreases v
  {
    match v
    case Prim(_) =>
    case Str(_) =>
    case Arr(es) => ElemWords(es);
    case Obj(ms) => MemberWords(ms);
  }

  lemma {:induction false} ElemWords(es: Elems)
    ensures ElemsOk(es) ==> ShapedElems(es)
    decreases es
  {
    if es.Elem? {
      PrimitivesAreWords(es.value);
      ElemWords(es.more);
    }
  }

  lemma {:induction false} MemberWords(ms: Members)
    ensures MembersOk(ms) ==> ShapedMembers(ms)
    decreases ms
  {
    if ms.Member? {
      PrimitivesAreWords(ms.value);
      MemberWords(ms.more);
    }
  }

  /** `s` stands in `js` at `p`. */
  predicate At(js: string, p: nat, s: string) {
    p + |s| <= |js| && forall i :: 0 <= i < |s| ==> js[p + i] == s[i]
  }

  lemma AtSplit(js: string, p: nat, a: string, b: string)
    requires At(js, p, a + b)
    ensures At(js, p, a) && At(js, p + |a|, b)
  {
    forall i | 0 <= i < |a| ensures js[p + i] == a[i] { assert (a + b)[i] == a[i]; }
    forall i | 0 <= i < |b| ensures js[p + |a| + i] == b[i] { assert (a + b)[|a| + i] == b[i]; }
  }

  lemma {:induction false} ScanString(js: string, p: nat, s: string)
    requires At(js, p, s + "\"") && StringOk(s)
    ensures StringEnd(js, p) == End(p + |s|)
    decreases |s|
  {
    AtSplit(js, p, s, "\"");
    assert js[p + |s|] == "\""[0];
    if s != "" {
      var n := if s[0] != '\\' then 1 else if IsEscape(s[1]) then 2 else 6;
      AtRest(js, p, s, n);
      ScanString(js, p + n, s[n..]);
      if n == 6 { assert forall i :: 2 <= i < 6 ==> js[p + i] == s[i]; HexSkip(js, p + 2); }
    }
  }

  lemma AtRest(js: string, p: nat, s: string, n: nat)
    requires At(js, p, s + "\"") && n <= |s|
    ensures At(js, p + n, s[n..] + "\"")
  {
    assert s + "\"" == s[..n] + (s[n..] + "\"");
    AtSplit(js, p, s[..n], s[n..] + "\"");
  }

  lemma HexSkip(js: string, i: nat)
    requires i + 4 <= |js| && IsHex(js[i]) && IsHex(js[i + 1]) && IsHex(js[i + 2]) && IsHex(js[i + 3])
    ensures HexEnd(js, i, 4) == End(i + 4)
  {
    assert HexEnd(js, i + 3, 1) == End(i + 4);
    assert HexEnd(js, i + 2, 2) == End(i + 4);
    assert HexEnd(js, i + 1, 3) == End(i + 4);
  }

  predicate EndsAt(js: string, q: nat) { q < |js| && EndsPrimitive(js[q]) }

  /** A word that goes on to `q` is a primitive exactly if it is printable and something follows. */
  lemma {:induction false} ScanPrimitive(js: string, p: nat, q: nat)
    requires p <= q <= |js| && (q == |js| || EndsAt(js, q)) && forall i :: p <= i < q ==> !EndsPrimitive(js[i])
    ensures PrimitiveEnd(js, p) ==
            if exists i :: p <= i < q && !Printable(js[i]) then Bad(Inval) else if q == |js| then Bad(Part) else End(q)
    decreases q - p
  {
    if p < q { ScanPrimitive(js, p + 1, q); }
  }

  // ---- steps on these texts ----------------------------------------------------------

  lemma {:induction false} SkipBlank(js: string, p: Parser, s: string)
    requires Valid(js, p) && Blank(s) && At(js, p.pos, s)
    ensures Valid(js, p.(pos := p.pos + |s|)) && Parse(js, p) == Parse(js, p.(pos := p.pos + |s|))
    decreases |s|
  {
    if s != "" {
      assert js[p.pos] == s[0];
      var p1 := p.(pos := p.pos + 1);
      assert Turn(js, p) == Go(p1);
      assert forall i :: 0 <= i < |s[1..]| ==> s[1..][i] == s[i + 1] && js[p1.pos + i] == js[p.pos + (i + 1)];
      SkipBlank(js, p1, s[1..]);
    }
  }

  predicate Closed(ts: seq<Token>) { forall i :: 0 <= i < |ts| ==> !IsOpen(ts[i]) }

  lemma {:induction false} TokensClosed(v: Value, pos: nat)
    ensures Closed(Tokens(v, pos))
    decreases v
  {
    match v
    case Prim(_) =>
    case Str(_) =>
    case Arr(es) => ElemsClosed(es, pos + 1);
    case Obj(ms) => MembersClosed(ms, pos + 1);
  }

  lemma {:induction false} ElemsClosed(es: Elems, pos: nat)
    ensures Closed(ElemTokens(es, pos))
    decreases es
  {
    if es.Elem? {
      TokensClosed(es.value, pos + |es.pre|);
      ElemsClosed(es.more, pos + |es.pre| + |Render(es.value)| + |es.post| + 1);
    }
  }

  lemma {:induction false} MembersClosed(ms: Members, pos: nat)
    ensures Closed(MemberTokens(ms, pos))
    decreases ms
  {
    if ms.Member? {
      TokensClosed(ms.value, ValuePos(ms, pos));
      MembersClosed(ms.more, MorePos(ms, pos));
    }
  }

  /** Closed tokens at the end do not count, and what lies beyond `n` does not matter. */
  lemma {:induction false} LastOpenSkips(toks: seq<Token>, n: nat, base: seq<Token>, anyKind: bool)
    requires |base| <= n <= |toks| && toks[..|base|] == base && forall i :: |base| <= i < n ==> !IsOpen(toks[i])
    ensures LastOpen(toks, n, anyKind) == LastOpen(base, |base|, anyKind)
    decreases n
  {
    if n > |base| {
      LastOpenSkips(toks, n - 1, base, anyKind);
    } else if n > 0 {
      assert toks[n - 1] == toks[..n][n - 1];
      LastOpenPrefix(toks, base, n, anyKind);
    }
  }

  lemma {:induction false} LastOpenPrefix(a: seq<Token>, b: seq<Token>, n: nat, anyKind: bool)
    requires n <= |a| && n <= |b| && forall i :: 0 <= i < n ==> a[i] == b[i]
    ensures LastOpen(a, n, anyKind) == LastOpen(b, n, anyKind)
  {
    if n > 0 { LastOpenPrefix(a, b, n - 1, anyKind); }
  }

  /** The tokens before an open container, the container, and what has been read of it. */
  function Within(base: seq<Token>, c: Token, done: seq<Token>): seq<Token> { base + [c] + done }

  lemma OpenIsLast(base: seq<Token>, c: Token, done: seq<Token>, anyKind: bool)
    requires IsOpen(c) && IsContainer(c) && Closed(done)
    ensures var toks := Within(base, c, done); LastOpen(toks, |toks|, anyKind) == |base|
  {
    var toks := Within(base, c, done);
    LastOpenSkips(toks, |toks|, base + [c], anyKind);
  }

  lemma WithinSet(base: seq<Token>, c: Token, done: seq<Token>, d: Token)
    ensures Within(base, c, done)[|base| := d] == Within(base, d, done)
    ensures |Within(base, c, done)| > |base| && Within(base, c, done)[|base|] == c
            && Within(base, c, done)[..|base|] == base
  {
  }

  lemma OuterOpen(base: seq<Token>, d: Token, done: seq<Token>)
    requires !IsOpen(d)
    ensures |base| < |Within(base, d, done)|
            && LastOpen(Within(base, d, done), |base| + 1, true) == LastOpen(base, |base|, true)
  {
    WithinSet(base, d, done, d);
    LastOpenSkips(Within(base, d, done), |base| + 1, base, true);
  }

  lemma CloseAt(ch: char, p: Parser, base: seq<Token>, c: Token, done: seq<Token>)
    requires p.toks == Within(base, c, done) && IsOpen(c) && IsContainer(c) && Closed(done)
    requires c.kind == if ch == '}' then Object else Array
    ensures CloseToken(ch, p)
            == Go(Parser(p.pos + 1, Within(base, c.(end := p.pos + 1), done), LastOpen(base, |base|, true)))
  {
    hide LastOpen, Within;
    OpenIsLast(base, c, done, true);
    WithinSet(base, c, done, c.(end := p.pos + 1));
    OuterOpen(base, c.(end := p.pos + 1), done);
  }

  lemma CommaAt(p: Parser, base: seq<Token>, c: Token, done: seq<Token>)
    requires p.toks == Within(base, c, done) && IsOpen(c) && IsContainer(c) && Closed(done)
    requires p.super == |base| || (|base| < p.super < |p.toks| && !IsContainer(p.toks[p.super]))
    ensures Comma(p) == Parser(p.pos + 1, p.toks, |base|)
  {
    OpenIsLast(base, c, done, false);
  }

  // ---- values ------------------------------------------------------------------------

  /** The parser after a value `v`: its tokens are added, the superior one counts it. */
  function After(p: Parser, v: Value): (r: Parser) {
    var base := Bump(p.toks, p.super);
    Parser(p.pos + |Render(v)|, base + Tokens(v, p.pos), if IsScalar(v) then p.super else LastOpen(base, |base|, true))
  }

  lemma BumpLeaf(toks: seq<Token>, t: Token, super: int)
    requires super < |toks|
    ensures Bump(toks + [t], super) == Bump(toks, super) + [t]
  {
  }

  /** A word where a value is expected. */
  lemma TurnWord(js: string, p: Parser, s: string)
    requires Valid(js, p) && Accepts(p) && BareWord(s) && At(js, p.pos, s)
    requires p.pos + |s| == |js| || EndsAt(js, p.pos + |s|)
    ensures Turn(js, p) ==
            if !PrimitiveOk(s) then Stop(Inval)
            else if p.pos + |s| == |js| then Stop(Part)
            else Go(Leaf(Primitive, p.pos, p.pos + |s|, p.pos + |s|, p))
  {
    var q := p.pos + |s|;
    assert js[p.pos] == s[0];
    assert forall i :: p.pos <= i < q ==> js[i] == s[i - p.pos];
    hide StringEnd, PrimitiveEnd, Accepts, Leaf;
    ScanPrimitive(js, p.pos, q);
    assert PrimitiveOk(s) ==> forall i :: p.pos <= i < q ==> Printable(js[i]);
    if i :| 0 <= i < |s| && !Printable(s[i]) { assert !Printable(js[p.pos + i]); }
  }

  lemma ParsePrim(js: string, v: Value, p: Parser)
    requires Valid(js, p) && Accepts(p) && v.Prim? && At(js, p.pos, v.text) && PrimitiveOk(v.text)
    requires EndsAt(js, p.pos + |v.text|)
    ensures Turn(js, p) == Go(After(p, v))
  {
    hide Turn, Accepts, At, Bump;
    TurnWord(js, p, v.text);
    BumpLeaf(p.toks, Token(Primitive, p.pos, p.pos + |v.text|, 0), p.super);
  }

  lemma ParseStr(js: string, v: Value, p: Parser)
    requires Valid(js, p) && v.Str? && At(js, p.pos, "\"" + v.text + "\"") && StringOk(v.text)
    ensures p.pos < |js| && Turn(js, p) == Go(After(p, v))
  {
    assert "\"" + v.text + "\"" == "\"" + (v.text + "\"");
    AtSplit(js, p.pos, "\"", v.text + "\"");
    assert js[p.pos] == "\""[0];
    hide StringOk, Turn, LastOpen, Bump, StringEnd;
    ScanString(js, p.pos + 1, v.text);
    TurnString(js, p, |v.text|);
  }

  lemma ParseScalar(js: string, v: Value, p: Parser)
    requires Valid(js, p) && At(js, p.pos, Render(v)) && ValueOk(v) && IsScalar(v)
    requires v.Prim? ==> EndsAt(js, p.pos + |Render(v)|) && Accepts(p)
    ensures p.pos < |js| && Turn(js, p) == Go(After(p, v))
  {
    hide Turn, After, At, EndsAt, PrimitiveOk, StringOk, Accepts;
    if v.Prim? { ParsePrim(js, v, p); } else { ParseStr(js, v, p); }
  }

  function Head(ms: Members): string
    requires ms.Member?
  {
    ms.pre + "\"" + ms.key + "\":" + ms.mid
  }

  function Tail(ms: Members): string
    requires ms.Member?
  {
    if ms.more.NoMember? then "" else "," + RenderMembers(ms.more)
  }

  /** Four texts in a row, at these positions. */
  lemma AtParts(js: string, pos: nat, a: string, b: string, c: string, d: string, p1: nat, p2: nat, p3: nat)
    requires At(js, pos, a + b + c + d) && p1 == pos + |a| && p2 == p1 + |b| && p3 == p2 + |c|
    ensures At(js, pos, a) && At(js, p1, b) && At(js, p2, c) && At(js, p3, d)
    ensures p3 + |d| == pos + |a + b + c + d|
  {
    hide At;
    assert |a + b + c| == p3 - pos && |a + b| == p2 - pos;
    AtSplit(js, pos, a + b + c, d);
    AtSplit(js, pos, a + b, c);
    AtSplit(js, pos, a, b);
  }

  lemma MemberParts(ms: Members)
    requires ms.Member?
    ensures RenderMembers(ms) == Head(ms) + Render(ms.value) + ms.post + Tail(ms)
    ensures |Head(ms)| == |ms.pre| + |ms.key| + 3 + |ms.mid|
    ensures Tail(ms) == "" || Tail(ms)[0] == ','
  {
  }

  lemma MemberText(js: string, pos: nat, ms: Members)
    requires ms.Member? && At(js, pos, RenderMembers(ms)) && Blank(ms.post) && EndsAt(js, pos + |RenderMembers(ms)|)
    ensures var v := ValuePos(ms, pos);
            var e := v + |Render(ms.value)|;
            && At(js, pos, Head(ms)) && At(js, v, Render(ms.value)) && EndsAt(js, e) && At(js, e, ms.post)
            && At(js, e + |ms.post|, Tail(ms))
            && e + |ms.post| + |Tail(ms)| == pos + |RenderMembers(ms)|
  {
    hide Render, RenderMembers, Head, Tail, At, Blank, EndsAt;
    MemberParts(ms);
    var v := ValuePos(ms, pos);
    var e := v + |Render(ms.value)|;
    AtParts(js, pos, Head(ms), Render(ms.value), ms.post, Tail(ms), v, e, e + |ms.post|);
    EndsBefore(js, e, ms.post, Tail(ms), pos + |RenderMembers(ms)|);
  }

  lemma EndsBefore(js: string, e: nat, post: string, tail: string, end: nat)
    requires At(js, e, post) && At(js, e + |post|, tail) && Blank(post) && (tail == "" || tail[0] == ',')
    requires EndsAt(js, end) && end == e + |post| + |tail|
    ensures EndsAt(js, e)
  {
    if post != "" { assert js[e] == post[0]; } else if tail != "" { assert js[e] == tail[0]; }
  }

  /** A key is read, with its colon and the blanks around. */
  function AfterKey(ms: Members, p: Parser): Parser
    requires ms.Member?
  {
    var key := KeyToken(ms, p.pos).(size := 0);
    Parser(ValuePos(ms, p.pos), Bump(p.toks, p.super) + [key], |p.toks|)
  }

  lemma ParseKey(js: string, ms: Members, p: Parser)
    requires ms.Member? && Valid(js, p) && At(js, p.pos, Head(ms)) && Blank(ms.pre) && Blank(ms.mid) && StringOk(ms.key)
    ensures Valid(js, AfterKey(ms, p)) && Parse(js, p) == Parse(js, AfterKey(ms, p))
    ensures Accepts(AfterKey(ms, p))
  {
    var a := p.pos + |ms.pre|;
    var p1 := Parser(a, p.toks, p.super);
    var q := a + 2 + |ms.key|;
    hide *;
    AfterKeyIs(ms, p, a, q);
    KeyParts(js, p.pos, ms, a, q);
    SkipBlank(js, p, ms.pre);
    assert p1 == p.(pos := a);
    AfterQuote(js, p1, |ms.key|, q, ms.mid);
  }

  lemma AfterKeyIs(ms: Members, p: Parser, a: nat, q: nat)
    requires ms.Member? && a == p.pos + |ms.pre| && q == a + 2 + |ms.key| && -1 <= p.super < |p.toks|
    ensures AfterKey(ms, p) == KeyRead(p, a, |ms.key|, q + 1 + |ms.mid|)
    ensures AfterKey(ms, p).super < |AfterKey(ms, p).toks| && Accepts(AfterKey(ms, p))
  {
  }

  /** The parser at `pos`, after a key of `n` characters in quotes from `a` on. */
  function KeyRead(p: Parser, a: nat, n: nat, pos: nat): Parser {
    Parser(pos, Bump(p.toks, p.super) + [Token(String, a + 1, a + 1 + n, 0)], |p.toks|)
  }

  lemma KeyParts(js: string, pos: nat, ms: Members, a: nat, q: nat)
    requires ms.Member? && At(js, pos, Head(ms)) && StringOk(ms.key) && a == pos + |ms.pre| && q == a + 2 + |ms.key|
    ensures At(js, pos, ms.pre) && a < |js| && js[a] == '"' && StringEnd(js, a + 1) == End(a + 1 + |ms.key|)
    ensures q < |js| && js[q] == ':' && q + 1 + |ms.mid| <= |js| && At(js, q + 1, ms.mid)
  {
    var k := ms.key + "\"";
    assert Head(ms) == ms.pre + "\"" + k + (":" + ms.mid);
    AtParts(js, pos, ms.pre, "\"", k, ":" + ms.mid, a, a + 1, q) by { hide At; }
    AtSplit(js, q, ":", ms.mid);
    assert js[a] == "\""[0] && js[q] == ":"[0];
    hide StringOk, Head;
    ScanString(js, a + 1, ms.key);
  }

  lemma TurnString(js: string, p: Parser, n: nat)
    requires Valid(js, p) && p.pos < |js| && js[p.pos] == '"' && StringEnd(js, p.pos + 1) == End(p.pos + 1 + n)
    ensures Turn(js, p) == Go(Parser(p.pos + 2 + n,
            Bump(p.toks, p.super) + [Token(String, p.pos + 1, p.pos + 1 + n, 0)], p.super))
  {
    BumpLeaf(p.toks, Token(String, p.pos + 1, p.pos + 1 + n, 0), p.super);
  }

  lemma TurnColon(js: string, p: Parser)
    requires Valid(js, p) && p.pos < |js| && js[p.pos] == ':'
    ensures Turn(js, p) == Go(Parser(p.pos + 1, p.toks, |p.toks| - 1))
  {
  }

  lemma StepTo(js: string, p: Parser, q: Parser)
    requires Valid(js, p) && p.pos < |js| && Turn(js, p) == Go(q)
    ensures Valid(js, q) && Parse(js, p) == Parse(js, q)
  {
  }

  /** From the quote before a key of `n` characters to the end of the blanks after its colon. */
  lemma AfterQuote(js: string, p: Parser, n: nat, q: nat, mid: string)
    requires Valid(js, p) && p.pos < |js| && js[p.pos] == '"' && StringEnd(js, p.pos + 1) == End(p.pos + 1 + n)
    requires q == p.pos + 2 + n < |js| && js[q] == ':' && q + 1 + |mid| <= |js| && At(js, q + 1, mid) && Blank(mid)
    ensures var r := KeyRead(p, p.pos, n, q + 1 + |mid|); Valid(js, r) && Parse(js, p) == Parse(js, r)
  {
    hide StringEnd, Blank, Turn, At, Parse;
    TurnString(js, p, n);
    var toks := Bump(p.toks, p.super) + [Token(String, p.pos + 1, p.pos + 1 + n, 0)];
    assert |toks| == |p.toks| + 1;
    hide Bump;
    var p2 := Parser(q, toks, p.super);
    StepTo(js, p, p2);
    TurnColon(js, p2);
    var p3 := Parser(q + 1, toks, |p.toks|);
    StepTo(js, p2, p3);
    SkipBlank(js, p3, mid);
  }

  /** Where a value of the container `c` leaves the parser. */
  lemma AfterMemberValue(ms: Members, p: Parser, base: seq<Token>, c: Token, done: seq<Token>)
    requires ms.Member? && p.toks == Within(base, c, done) && p.super == |base| && IsOpen(c) && IsContainer(c)
             && Closed(done)
    ensures var q := After(AfterKey(ms, p), ms.value);
            var d := done + ([KeyToken(ms, p.pos)] + Tokens(ms.value, ValuePos(ms, p.pos)));
            && q.pos == ValuePos(ms, p.pos) + |Render(ms.value)| && q.toks == Within(base, c.(size := c.size + 1), d)
            && Closed(d)
            && (q.super == |base| || (|base| < q.super < |q.toks| && !IsContainer(q.toks[q.super])))
  {
    var key, ts := KeyToken(ms, p.pos), Tokens(ms.value, ValuePos(ms, p.pos));
    var c1 := c.(size := c.size + 1);
    KeyBumps(ms, p, base, c, done);
    WithinMore(base, c1, done, key, ts);
    TokensClosed(ms.value, ValuePos(ms, p.pos));
    ClosedMore(done, key, ts);
    hide Within, Tokens, Render, LastOpen, Bump, Closed, AfterKey;
    OpenIsLast(base, c1, done + [key], true);
  }

  lemma ClosedMore(done: seq<Token>, key: Token, ts: seq<Token>)
    requires Closed(done) && Closed(ts) && !IsOpen(key)
    ensures Closed(done + [key]) && Closed(done + ([key] + ts))
  {
  }

  lemma KeyBumps(ms: Members, p: Parser, base: seq<Token>, c: Token, done: seq<Token>)
    requires ms.Member? && p.toks == Within(base, c, done) && p.super == |base|
    ensures var q := AfterKey(ms, p);
            && q.pos == ValuePos(ms, p.pos) && q.super == |p.toks| == |base| + 1 + |done|
            && Bump(q.toks, q.super) == Within(base, c.(size := c.size + 1), done + [KeyToken(ms, p.pos)])
  {
    WithinSet(base, c, done, c.(size := c.size + 1));
    BumpKey(base, c.(size := c.size + 1), done, KeyToken(ms, p.pos));
  }

  lemma WithinMore(base: seq<Token>, c: Token, done: seq<Token>, key: Token, ts: seq<Token>)
    ensures Within(base, c, done + [key]) + ts == Within(base, c, done + ([key] + ts))
    ensures var all := Within(base, c, done + ([key] + ts)); var i := |base| + 1 + |done|; i < |all| && all[i] == key
    ensures |Within(base, c, done)| == |base| + 1 + |done|
  {
  }

  lemma BumpKey(base: seq<Token>, c: Token, done: seq<Token>, key: Token)
    requires key.size == 1
    ensures var toks := Within(base, c, done);
            Bump(toks + [key.(size := 0)], |toks|) == Within(base, c, done + [key])
  {
  }

  lemma {:induction false} ParseValue(js: string, v: Value, p: Parser)
    requires Valid(js, p) && At(js, p.pos, Render(v)) && ValueOk(v)
    requires v.Prim? ==> EndsAt(js, p.pos + |Render(v)|) && Accepts(p)
    ensures Valid(js, After(p, v)) && Parse(js, p) == Parse(js, After(p, v))
    decreases v, 2
  {
    if IsScalar(v) {
      ParseScalar(js, v, p);
    } else {
      ContainerText(js, v, p.pos);
      hide Parse, At, Render, Body, After;
      ParseContainer(js, v, p);
    }
  }

  lemma ContainerText(js: string, v: Value, pos: nat)
    requires !IsScalar(v) && At(js, pos, Render(v))
    ensures pos + 1 + |Body(v)| < |js| && js[pos] == Left(v) && At(js, pos + 1, Body(v))
            && js[pos + 1 + |Body(v)|] == Right(v)
  {
    var l, r := [Left(v)], [Right(v)];
    assert Render(v) == l + Body(v) + r;
    hide Render, Body;
    AtSplit(js, pos, l + Body(v), r);
    AtSplit(js, pos, l, Body(v));
    assert js[pos] == l[0] && js[pos + 1 + |Body(v)|] == r[0];
  }

  function Left(v: Value): char { if v.Obj? then '{' else '[' }

  function Right(v: Value): char { if v.Obj? then '}' else ']' }

  /** The text, the tokens and the number of the elements of an object or array. */
  function Body(v: Value): string {
    match v case Arr(es) => RenderElems(es) case Obj(ms) => RenderMembers(ms) case _ => ""
  }

  function Inner(v: Value, pos: nat): seq<Token> {
    match v case Arr(es) => ElemTokens(es, pos + 1) case Obj(ms) => MemberTokens(ms, pos + 1) case _ => []
  }

  function Size(v: Value): nat {
    match v case Arr(es) => CountElems(es) case Obj(ms) => CountMembers(ms) case _ => 0
  }

  function Opener(v: Value, pos: nat): Token { Token(if v.Obj? then Object else Array, pos, -1, 0) }

  lemma OpenTurn(js: string, v: Value, p: Parser)
    requires Valid(js, p) && !IsScalar(v) && p.pos < |js| && js[p.pos] == Left(v)
    ensures var base := Bump(p.toks, p.super);
            var p1 := Parser(p.pos + 1, Within(base, Opener(v, p.pos), []), |base|);
            Turn(js, p) == Go(p1) && Ready(js, p1, base, Opener(v, p.pos), [])
  {
    assert Bump(p.toks, p.super) + [Opener(v, p.pos)] == Within(Bump(p.toks, p.super), Opener(v, p.pos), []);
  }

  lemma CloseTurn(js: string, v: Value, p: Parser, q: Parser)
    requires Valid(js, q) && !IsScalar(v) && q.pos < |js| && js[q.pos] == Right(v) && q.pos == p.pos + 1 + |Body(v)|
    requires q.toks == Within(Bump(p.toks, p.super), Opener(v, p.pos).(size := Size(v)), Inner(v, p.pos))
    ensures Turn(js, q) == Go(After(p, v))
  {
    hide Inner, Tokens, Render, Body, LastOpen, Within, Bump, Closed, Size;
    InnerClosed(v, p.pos);
    var base := Bump(p.toks, p.super);
    OpenerEnds(base, v, p.pos);
    CloseAt(js[q.pos], q, base, Opener(v, p.pos).(size := Size(v)), Inner(v, p.pos));
  }

  lemma InnerClosed(v: Value, pos: nat)
    ensures Closed(Inner(v, pos))
  {
    match v
    case Arr(es) => ElemsClosed(es, pos + 1);
    case Obj(ms) => MembersClosed(ms, pos + 1);
    case _ =>
  }

  lemma OpenerEnds(base: seq<Token>, v: Value, pos: nat)
    requires !IsScalar(v)
    ensures |Render(v)| == |Body(v)| + 2
    ensures Within(base, Opener(v, pos).(size := Size(v)).(end := pos + |Body(v)| + 2), Inner(v, pos))
            == base + Tokens(v, pos)
  {
    var t := Opener(v, pos).(size := Size(v)).(end := pos + |Body(v)| + 2);
    assert Render(v) == [Left(v)] + Body(v) + [Right(v)];
    assert Tokens(v, pos) == [t] + Inner(v, pos);
    hide Tokens, Inner, Render, Body, Size;
    Joined(base, t, Inner(v, pos));
  }

  lemma Joined(base: seq<Token>, t: Token, inner: seq<Token>)
    ensures Within(base, t, inner) == base + ([t] + inner)
  {
  }

  lemma {:induction false} ParseContainer(js: string, v: Value, p: Parser)
    requires Valid(js, p) && !IsScalar(v) && p.pos + 1 + |Body(v)| < |js|
    requires js[p.pos] == Left(v) && At(js, p.pos + 1, Body(v)) && js[p.pos + 1 + |Body(v)|] == Right(v) && ValueOk(v)
    ensures Valid(js, After(p, v)) && Parse(js, p) == Parse(js, After(p, v))
    decreases v, 1
  {
    hide Left, Body, Inner, Size, ValueOk, Turn, Bump, Within, After;
    OpenTurn(js, v, p);
    var base, c := Bump(p.toks, p.super), Opener(v, p.pos);
    assert EndsAt(js, p.pos + 1 + |Body(v)|);
    var p1 := Parser(p.pos + 1, Within(base, c, []), |base|);
    var k := ParseInner(js, v, p1, base, c);
    var q := Parser(p.pos + 1 + |Body(v)|, Within(base, c.(size := Size(v)), Inner(v, p.pos)), k);
    CloseTurn(js, v, p, q);
  }

  lemma {:induction false} ParseInner(js: string, v: Value, p: Parser, base: seq<Token>, c: Token) returns (k: int)
    requires !IsScalar(v) && Ready(js, p, base, c, []) && p.pos > 0 && c.size == 0 && (v.Arr? ==> c.kind == Array)
             && ValueOk(v)
    requires At(js, p.pos, Body(v)) && EndsAt(js, p.pos + |Body(v)|)
    ensures var q := Parser(p.pos + |Body(v)|, Within(base, c.(size := Size(v)), Inner(v, p.pos - 1)), k);
            Valid(js, q) && Parse(js, p) == Parse(js, q)
    decreases v, 0
  {
    hide *;
    InnerParts(v, p.pos, c);
    ReadyIs(js, p, base, c, []);
    k := |base|;
    if v.Arr? && v.elems.Elem? {
      ParseElems(js, v.elems, p, base, c, []);
    } else if v.Obj? && v.members.Member? {
      k := ParseMembers(js, v.members, p, base, c, []);
    }
  }

  lemma InnerParts(v: Value, pos: nat, c: Token)
    requires pos > 0 && ValueOk(v) && c.size == 0
    ensures IsScalar(v) || v.Arr? || v.Obj?
    ensures v.Arr? ==>
              && Body(v) == RenderElems(v.elems) && ElemsOk(v.elems) && Size(v) == CountElems(v.elems)
              && [] + ElemTokens(v.elems, pos) == Inner(v, pos - 1)
    ensures v.Obj? ==>
              && Body(v) == RenderMembers(v.members) && MembersOk(v.members) && Size(v) == CountMembers(v.members)
              && [] + MemberTokens(v.members, pos) == Inner(v, pos - 1)
    ensures c.size + Size(v) == Size(v)
    ensures (v.Arr? && v.elems.NoElem?) || (v.Obj? && v.members.NoMember?) ==>
              Body(v) == "" && Inner(v, pos - 1) == [] && c.(size := Size(v)) == c
  {
  }

  /** The tokens of the first member. */
  function MemberDone(ms: Members, pos: nat): seq<Token>
    requires ms.Member?
  {
    [KeyToken(ms, pos)] + Tokens(ms.value, ValuePos(ms, pos))
  }

  /** Inside the container `c` at index `i`, after a value. */
  predicate AfterValue(q: Parser, i: nat) {
    q.super == i || (i < q.super < |q.toks| && !IsContainer(q.toks[q.super]))
  }

  /** The parser is inside `c`, and a member or element comes next. */
  predicate Ready(js: string, p: Parser, base: seq<Token>, c: Token, done: seq<Token>) {
    Valid(js, p) && p.toks == Within(base, c, done) && p.super == |base| && IsOpen(c) && IsContainer(c) && Closed(done)
  }

  /** The first member can be read. */
  predicate MemberOk(ms: Members)
    requires ms.Member?
  {
    Blank(ms.pre) && StringOk(ms.key) && Blank(ms.mid) && ValueOk(ms.value) && Blank(ms.post)
  }

  lemma MemberBlanks(ms: Members)
    requires ms.Member? && MemberOk(ms)
    ensures Blank(ms.pre) && StringOk(ms.key) && Blank(ms.mid) && ValueOk(ms.value) && Blank(ms.post)
  {
  }

  lemma AfterAt(ms: Members, p: Parser, v: Value)
    requires ms.Member?
    ensures AfterKey(ms, p).pos == ValuePos(ms, p.pos) && After(p, v).pos == p.pos + |Render(v)|
  {
  }

  lemma {:induction false} ReadText(js: string, ms: Members, p: Parser) returns (q: Parser)
    requires ms.Member? && Valid(js, p)
    requires At(js, p.pos, RenderMembers(ms)) && MemberOk(ms) && EndsAt(js, p.pos + |RenderMembers(ms)|)
    ensures var p2 := After(AfterKey(ms, p), ms.value); q == p2.(pos := p2.pos + |ms.post|)
    ensures At(js, q.pos, Tail(ms)) && q.pos + |Tail(ms)| == p.pos + |RenderMembers(ms)|
    ensures Valid(js, q) && Parse(js, p) == Parse(js, q)
    decreases ms, 0
  {
    hide *;
    MemberBlanks(ms);
    var p1 := AfterKey(ms, p);
    var p2 := After(p1, ms.value);
    AfterAt(ms, p, ms.value);
    AfterAt(ms, p1, ms.value);
    MemberText(js, p.pos, ms);
    ParseKey(js, ms, p);
    ParseValue(js, ms.value, p1);
    SkipBlank(js, p2, ms.post);
    q := p2.(pos := p2.pos + |ms.post|);
  }

  lemma {:induction false} ReadMember(js: string, ms: Members, p: Parser, base: seq<Token>, c: Token, done: seq<Token>)
      returns (q: Parser)
    requires ms.Member? && Ready(js, p, base, c, done)
    requires At(js, p.pos, RenderMembers(ms)) && MemberOk(ms) && EndsAt(js, p.pos + |RenderMembers(ms)|)
    ensures q.pos == ValuePos(ms, p.pos) + |Render(ms.value)| + |ms.post| && At(js, q.pos, Tail(ms))
    ensures q.pos + |Tail(ms)| == p.pos + |RenderMembers(ms)|
    ensures q.toks == Within(base, c.(size := c.size + 1), done + MemberDone(ms, p.pos)) && AfterValue(q, |base|)
    ensures Closed(done + MemberDone(ms, p.pos)) && Valid(js, q) && Parse(js, p) == Parse(js, q)
    decreases ms, 1
  {
    AfterMemberValue(ms, p, base, c, done);
    hide Parse, Render, RenderMembers, Tail, At, EndsAt, MemberOk, After, AfterKey, Tokens, Within, Closed;
    q := ReadText(js, ms, p);
  }

  /** The comma before the next member or element. */
  lemma ReadComma(js: string, q: Parser, more: string, base: seq<Token>, c: Token, done: seq<Token>)
    requires Valid(js, q) && q.toks == Within(base, c, done) && IsOpen(c) && IsContainer(c) && Closed(done)
             && AfterValue(q, |base|)
    requires At(js, q.pos, "," + more)
    ensures var p := Parser(q.pos + 1, q.toks, |base|);
            Ready(js, p, base, c, done) && At(js, p.pos, more) && Parse(js, q) == Parse(js, p)
  {
    AtSplit(js, q.pos, ",", more);
    assert js[q.pos] == ","[0];
    CommaAt(q, base, c, done);
  }

  lemma {:induction false} ParseMembers(js: string, ms: Members, p: Parser, base: seq<Token>, c: Token,
      done: seq<Token>) returns (k: int)
    requires ms.Member? && Ready(js, p, base, c, done)
    requires At(js, p.pos, RenderMembers(ms)) && MembersOk(ms) && EndsAt(js, p.pos + |RenderMembers(ms)|)
    ensures var q := Parser(p.pos + |RenderMembers(ms)|,
            Within(base, c.(size := c.size + CountMembers(ms)), done + MemberTokens(ms, p.pos)), k);
            Valid(js, q) && Parse(js, p) == Parse(js, q)
    decreases ms, 2
  {
    hide Parse, Render, RenderMembers, Tokens, MemberTokens, Within, Tail, MembersOk, MemberOk, MemberDone, At, EndsAt,
         CountMembers, Closed;
    MemberThenMore(ms, p.pos, c, done);
    var q := ReadMember(js, ms, p, base, c, done);
    k := q.super;
    var c1, d := c.(size := c.size + 1), done + MemberDone(ms, p.pos);
    if ms.more.Member? {
      ReadComma(js, q, RenderMembers(ms.more), base, c1, d);
      k := ParseMembers(js, ms.more, Parser(q.pos + 1, q.toks, |base|), base, c1, d);
    }
  }

  lemma MemberThenMore(ms: Members, pos: nat, c: Token, done: seq<Token>)
    requires ms.Member?
    ensures MembersOk(ms) <==> MemberOk(ms) && MembersOk(ms.more)
    ensures ShapedMembers(ms) ==> ShapedMembers(ms.more) && Shaped(ms.value)
    ensures ShapedMembers(ms) ==> Blank(ms.pre) && StringOk(ms.key) && Blank(ms.mid) && Blank(ms.post)
    ensures ShapedMembers(ms) && !MembersOk(ms) && ValueOk(ms.value) ==> MemberOk(ms) && ms.more.Member?
    ensures var c1, d := c.(size := c.size + 1), done + MemberDone(ms, pos);
            && IsOpen(c) == IsOpen(c1) && IsContainer(c) == IsContainer(c1)
            && c1.(size := c1.size + CountMembers(ms.more)) == c.(size := c.size + CountMembers(ms))
            && d + MemberTokens(ms.more, MorePos(ms, pos)) == done + MemberTokens(ms, pos)
            && (ms.more.NoMember? ==> d == done + MemberTokens(ms, pos) && CountMembers(ms) == 1 && Tail(ms) == "")
            && (ms.more.Member? ==> Tail(ms) == "," + RenderMembers(ms.more))
            && MorePos(ms, pos) == ValuePos(ms, pos) + |Render(ms.value)| + |ms.post| + 1
  {
  }

  function MoreElems(es: Elems): string
    requires es.Elem?
  {
    if es.more.NoElem? then "" else "," + RenderElems(es.more)
  }

  lemma ElemParts(es: Elems)
    requires es.Elem?
    ensures RenderElems(es) == es.pre + Render(es.value) + es.post + MoreElems(es)
    ensures MoreElems(es) == "" || MoreElems(es)[0] == ','
  {
  }

  lemma ElemText(js: string, pos: nat, es: Elems)
    requires es.Elem? && At(js, pos, RenderElems(es)) && Blank(es.post) && EndsAt(js, pos + |RenderElems(es)|)
    ensures var v := pos + |es.pre|;
            var e := v + |Render(es.value)|;
            && At(js, pos, es.pre) && At(js, v, Render(es.value)) && EndsAt(js, e) && At(js, e, es.post)
            && At(js, e + |es.post|, MoreElems(es))
            && e + |es.post| + |MoreElems(es)| == pos + |RenderElems(es)|
  {
    hide *;
    ElemParts(es);
    var v := pos + |es.pre|;
    var e := v + |Render(es.value)|;
    AtParts(js, pos, es.pre, Render(es.value), es.post, MoreElems(es), v, e, e + |es.post|);
    EndsBefore(js, e, es.post, MoreElems(es), pos + |RenderElems(es)|);
  }

  lemma AfterElem(v: Value, p: Parser, base: seq<Token>, c: Token, done: seq<Token>)
    requires p.toks == Within(base, c, done) && p.super == |base| && IsOpen(c) && IsContainer(c) && Closed(done)
    ensures var d := done + Tokens(v, p.pos);
            After(p, v) == Parser(p.pos + |Render(v)|, Within(base, c.(size := c.size + 1), d), |base|) && Closed(d)
  {
    var c1 := c.(size := c.size + 1);
    WithinSet(base, c, done, c1);
    TokensClosed(v, p.pos);
    OpenIsLast(base, c1, done, true);
    assert Within(base, c1, done) + Tokens(v, p.pos) == Within(base, c1, done + Tokens(v, p.pos));
  }

  lemma ElemThenMore(es: Elems, pos: nat, c: Token, done: seq<Token>)
    requires es.Elem?
    ensures ElemsOk(es) <==> ElemOk(es) && ElemsOk(es.more)
    ensures ShapedElems(es) ==> ShapedElems(es.more) && Shaped(es.value) && Blank(es.pre) && Blank(es.post)
    ensures ShapedElems(es) && !ElemsOk(es) && ValueOk(es.value) ==> ElemOk(es) && es.more.Elem?
    ensures var v := pos + |es.pre|;
            var c1, d := c.(size := c.size + 1), done + Tokens(es.value, v);
            && IsOpen(c) == IsOpen(c1) && IsContainer(c) == IsContainer(c1)
            && c1.(size := c1.size + CountElems(es.more)) == c.(size := c.size + CountElems(es))
            && d + ElemTokens(es.more, v + |Render(es.value)| + |es.post| + 1) == done + ElemTokens(es, pos)
            && (es.more.NoElem? ==> d == done + ElemTokens(es, pos) && CountElems(es) == 1 && MoreElems(es) == "")
            && (es.more.Elem? ==> MoreElems(es) == "," + RenderElems(es.more))
  {
  }

  lemma {:induction false} ReadElem(js: string, es: Elems, p: Parser, base: seq<Token>, c: Token, done: seq<Token>)
      returns (q: Parser)
    requires es.Elem? && Ready(js, p, base, c, done) && c.kind == Array
    requires At(js, p.pos, RenderElems(es)) && ElemOk(es) && EndsAt(js, p.pos + |RenderElems(es)|)
    ensures var v := p.pos + |es.pre|;
            var d := done + Tokens(es.value, v);
            && q == Parser(v + |Render(es.value)| + |es.post|, Within(base, c.(size := c.size + 1), d), |base|)
            && At(js, q.pos, MoreElems(es)) && q.pos + |MoreElems(es)| == p.pos + |RenderElems(es)|
            && Closed(d) && Valid(js, q) && Parse(js, p) == Parse(js, q)
    decreases es, 0
  {
    hide *;
    ElemBlanks(es);
    var p1 := p.(pos := p.pos + |es.pre|);
    ReadyIs(js, p, base, c, done);
    InArray(p1, base, c, done);
    AfterElem(es.value, p1, base, c, done);
    ElemText(js, p.pos, es);
    SkipBlank(js, p, es.pre);
    ParseValue(js, es.value, p1);
    var p2 := After(p1, es.value);
    SkipBlank(js, p2, es.post);
    q := p2.(pos := p2.pos + |es.post|);
  }

  /** The first element can be read. */
  predicate ElemOk(es: Elems)
    requires es.Elem?
  {
    Blank(es.pre) && ValueOk(es.value) && Blank(es.post)
  }

  lemma ElemBlanks(es: Elems)
    requires es.Elem? && ElemOk(es)
    ensures Blank(es.pre) && ValueOk(es.value) && Blank(es.post)
  {
  }

  lemma InArray(p: Parser, base: seq<Token>, c: Token, done: seq<Token>)
    requires p.toks == Within(base, c, done) && p.super == |base| && c.kind == Array
    ensures p.super < |p.toks| && Accepts(p)
  {
  }

  lemma ReadyIs(js: string, p: Parser, base: seq<Token>, c: Token, done: seq<Token>)
    requires Ready(js, p, base, c, done)
    ensures Valid(js, p) && p.toks == Within(base, c, done) && p.super == |base| && IsOpen(c) && IsContainer(c)
            && Closed(done)
  {
  }

  lemma {:induction false} ParseElems(js: string, es: Elems, p: Parser, base: seq<Token>, c: Token, done: seq<Token>)
    requires es.Elem? && Ready(js, p, base, c, done) && c.kind == Array
    requires At(js, p.pos, RenderElems(es)) && ElemsOk(es) && EndsAt(js, p.pos + |RenderElems(es)|)
    ensures var q := Parser(p.pos + |RenderElems(es)|,
            Within(base, c.(size := c.size + CountElems(es)), done + ElemTokens(es, p.pos)), |base|);
            Valid(js, q) && Parse(js, p) == Parse(js, q)
    decreases es, 1
  {
    hide Parse, Render, RenderElems, Tokens, ElemTokens, Within, MoreElems, ElemsOk, ElemOk, At, EndsAt, CountElems,
         Closed;
    ElemThenMore(es, p.pos, c, done);
    var q := ReadElem(js, es, p, base, c, done);
    if es.more.Elem? {
      var c1, d := c.(size := c.size + 1), done + Tokens(es.value, p.pos + |es.pre|);
      ReadComma(js, q, RenderElems(es.more), base, c1, d);
      ParseElems(js, es.more, Parser(q.pos + 1, q.toks, |base|), base, c1, d);
    }
  }

  // ---- words that are no primitives --------------------------------------------------

  lemma {:induction false} ValueFails(js: string, v: Value, p: Parser)
    requires Valid(js, p) && At(js, p.pos, Render(v)) && Shaped(v) && !ValueOk(v)
    requires v.Prim? ==> Accepts(p) && (p.pos + |Render(v)| == |js| || EndsAt(js, p.pos + |Render(v)|))
    ensures Parse(js, p) == Failed(Inval)
    decreases v, 0
  {
    hide *;
    if v.Prim? {
      WordFails(js, v, p);
    } else {
      ContainerParts(v);
      ContainerText(js, v, p.pos);
      ClosesAt(js, v, p.pos);
      OpenTurn(js, v, p);
      var base, c := Bump(p.toks, p.super), Opener(v, p.pos);
      var p1 := Parser(p.pos + 1, Within(base, c, []), |base|);
      OpenerKind(v, p.pos);
      StepTo(js, p, p1);
      if v.Arr? { ElemsFail(js, v.elems, p1, base, c, []); } else { MembersFail(js, v.members, p1, base, c, []); }
    }
  }

  lemma WordFails(js: string, v: Value, p: Parser)
    requires Valid(js, p) && At(js, p.pos, Render(v)) && Shaped(v) && !ValueOk(v) && v.Prim? && Accepts(p)
    requires p.pos + |Render(v)| == |js| || EndsAt(js, p.pos + |Render(v)|)
    ensures Parse(js, p) == Failed(Inval)
  {
    assert p.pos < |js|;
    hide At, Turn, Accepts, EndsAt, PrimitiveOk;
    TurnWord(js, p, v.text);
  }

  lemma ContainerParts(v: Value)
    requires Shaped(v) && !ValueOk(v) && !v.Prim?
    ensures !IsScalar(v) && (v.Arr? || v.Obj?)
    ensures v.Arr? ==> Body(v) == RenderElems(v.elems) && ShapedElems(v.elems) && !ElemsOk(v.elems) && v.elems.Elem?
    ensures v.Obj? ==>
              && Body(v) == RenderMembers(v.members) && ShapedMembers(v.members) && !MembersOk(v.members)
              && v.members.Member?
  {
  }

  lemma ClosesAt(js: string, v: Value, pos: nat)
    requires pos + 1 + |Body(v)| < |js| && js[pos + 1 + |Body(v)|] == Right(v)
    ensures EndsAt(js, pos + 1 + |Body(v)|)
  {
  }

  lemma OpenerKind(v: Value, pos: nat)
    ensures v.Arr? ==> Opener(v, pos).kind == Array
  {
  }

  lemma {:induction false} ElemsFail(js: string, es: Elems, p: Parser, base: seq<Token>, c: Token, done: seq<Token>)
    requires Ready(js, p, base, c, done) && c.kind == Array && es.Elem?
    requires At(js, p.pos, RenderElems(es)) && EndsAt(js, p.pos + |RenderElems(es)|) && ShapedElems(es) && !ElemsOk(es)
    ensures Parse(js, p) == Failed(Inval)
    decreases es, 1
  {
    hide *;
    ElemThenMore(es, p.pos, c, done);
    if !ValueOk(es.value) {
      var p1 := p.(pos := p.pos + |es.pre|);
      ReadyIs(js, p, base, c, done);
      InArray(p1, base, c, done);
      ElemText(js, p.pos, es);
      SkipBlank(js, p, es.pre);
      ValueFails(js, es.value, p1);
    } else {
      ReadyIs(js, p, base, c, done);
      var q := ReadElem(js, es, p, base, c, done);
      var c1, d := c.(size := c.size + 1), done + Tokens(es.value, p.pos + |es.pre|);
      ReadComma(js, q, RenderElems(es.more), base, c1, d);
      ElemsFail(js, es.more, Parser(q.pos + 1, q.toks, |base|), base, c1, d);
    }
  }

  lemma {:induction false} MembersFail(js: string, ms: Members, p: Parser, base: seq<Token>, c: Token, done: seq<Token>)
    requires Ready(js, p, base, c, done) && ms.Member?
    requires At(js, p.pos, RenderMembers(ms)) && EndsAt(js, p.pos + |RenderMembers(ms)|)
    requires ShapedMembers(ms) && !MembersOk(ms)
    ensures Parse(js, p) == Failed(Inval)
    decreases ms, 1
  {
    hide *;
    MemberThenMore(ms, p.pos, c, done);
    ReadyIs(js, p, base, c, done);
    if !ValueOk(ms.value) {
      MemberText(js, p.pos, ms);
      ParseKey(js, ms, p);
      AfterAt(ms, p, ms.value);
      ValueFails(js, ms.value, AfterKey(ms, p));
    } else {
      var q := ReadMember(js, ms, p, base, c, done);
      var c1, d := c.(size := c.size + 1), done + MemberDone(ms, p.pos);
      ReadComma(js, q, RenderMembers(ms.more), base, c1, d);
      MembersFail(js, ms.more, Parser(q.pos + 1, q.toks, |base|), base, c1, d);
    }
  }

  /** Tokenizing text shaped like a value, with blanks around it, gives the tokens of the
      value exactly if all its words are primitives and the text does not end with one. */
  lemma ParseRender(v: Value, before: string, after: string)
    requires Shaped(v) && Blank(before) && Blank(after)
    ensures Parse(before + Render(v) + after, Parser(0, [], -1)) ==
            if !ValueOk(v) then Failed(Inval)
            else if v.Prim? && after == "" then Failed(Part)
            else Tokenized(Tokens(v, |before|))
  {
    hide *;
    var js := before + Render(v) + after;
    TextParts(js, before, Render(v), after);
    if ValueOk(v) && !(v.Prim? && after == "") {
      ParseText(js, v, before, after, |before| + |Render(v)|);
    } else {
      ParseNot(js, v, before);
    }
  }

  lemma ParseNot(js: string, v: Value, before: string)
    requires Blank(before) && At(js, 0, before) && At(js, |before|, Render(v)) && Shaped(v)
    requires var e := |before| + |Render(v)|; if ValueOk(v) then v.Prim? && e == |js| else e == |js| || EndsAt(js, e)
    ensures Parse(js, Parser(0, [], -1)) == Failed(if ValueOk(v) then Part else Inval)
  {
    hide *;
    var p := Parser(0, [], -1);
    var p1 := p.(pos := p.pos + |before|);
    AtInside(js, |before|, Render(v));
    StartValid(js, |before|);
    SkipBlank(js, p, before);
    if ValueOk(v) { WordAtEnd(js, v, p1); } else { ValueFails(js, v, p1); }
  }

  lemma AtInside(js: string, p: nat, s: string)
    requires At(js, p, s)
    ensures p + |s| <= |js|
  {
  }

  lemma WordAtEnd(js: string, v: Value, p: Parser)
    requires Valid(js, p) && Accepts(p) && v.Prim? && ValueOk(v) && Shaped(v) && At(js, p.pos, Render(v))
    requires p.pos + |Render(v)| == |js|
    ensures Parse(js, p) == Failed(Part)
  {
    hide Turn, Accepts, At, PrimitiveOk;
    TurnWord(js, p, v.text);
  }

  lemma ParseText(js: string, v: Value, before: string, after: string, e: nat)
    requires ValueOk(v) && Blank(before) && Blank(after) && e == |before| + |Render(v)| && |js| == e + |after|
    requires At(js, 0, before) && At(js, |before|, Render(v)) && At(js, e, after) && (v.Prim? ==> EndsAt(js, e))
    ensures Parse(js, Parser(0, [], -1)) == Tokenized(Tokens(v, |before|))
  {
    hide *;
    var p := Parser(0, [], -1);
    var p1 := p.(pos := p.pos + |before|);
    var p2 := After(p1, v);
    StartValid(js, |before|);
    AfterRoot(p1, v);
    SkipBlank(js, p, before);
    ParseValue(js, v, p1);
    SkipBlank(js, p2, after);
    Ends(js, p2.(pos := p2.pos + |after|));
  }

  lemma StartValid(js: string, pos: nat)
    requires pos <= |js|
    ensures Valid(js, Parser(0, [], -1)) && Valid(js, Parser(pos, [], -1)) && Accepts(Parser(pos, [], -1))
  {
  }

  lemma Ends(js: string, p: Parser)
    requires Valid(js, p) && p.pos == |js| && LastOpen(p.toks, |p.toks|, true) == -1
    ensures Parse(js, p) == Tokenized(p.toks)
  {
  }

  lemma TextParts(js: string, a: string, b: string, c: string)
    requires js == a + b + c && Blank(c)
    ensures |js| == |a| + |b| + |c| && At(js, 0, a) && At(js, |a|, b) && At(js, |a| + |b|, c)
    ensures if c == "" then |a| + |b| == |js| else EndsAt(js, |a| + |b|)
  {
    if c != "" { assert js[|a| + |b|] == c[0]; }
  }

  lemma AfterRoot(p: Parser, v: Value)
    requires p.toks == [] && p.super == -1
    ensures var q := After(p, v);
            q.pos == p.pos + |Render(v)| && q.toks == Tokens(v, p.pos) && LastOpen(q.toks, |q.toks|, true) == -1
  {
    TokensClosed(v, p.pos);
    LastOpenSkips(Tokens(v, p.pos), |Tokens(v, p.pos)|, [], true);
    assert [] + Tokens(v, p.pos) == Tokens(v, p.pos);
  }
}
