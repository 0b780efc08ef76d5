/**
 The tokenizer on text that has been cut off: it does on it what it does on the whole text, as
 far as it goes, and never takes the part for the whole.
 */
module JsmnCut {
  import opened Json
  import opened Jsmn

  const Begin := Parser(0, [], -1)

  /** The parser where the text ends or a turn fails. */
  function Stopped(js: string, p: Parser): (s: Parser)
    requires Valid(js, p)
    ensures Valid(js, s) && p.pos <= s.pos
    decreases |js| - p.pos
  {
    if p.pos == |js| then p
    else
      var r := Turn(js, p);
      if r.Stop? then p else Stopped(js, r.p)
  }

  // ---- the scanners --------------------------------------------------------------------

  lemma {:induction false} StringCut(js: string, n: nat, i: nat)
    requires i <= n <= |js|
    ensures var r := StringEnd(js[..n], i); (r.End? || r.code == Inval) ==> StringEnd(js, i) == r
    decreases n - i
  {
    if i < n && js[i] != '"' {
      if js[i] == '\\' && i + 1 < n {
        if IsEscape(js[i + 1]) {
          StringCut(js, n, i + 2);
        } else if js[i + 1] == 'u' {
          HexCut(js, n, i + 2, 4);
          var h := HexEnd(js[..n], i + 2, 4);
          if h.End? { StringCut(js, n, h.pos); }
        }
      } else {
        StringCut(js, n, i + 1);
      }
    }
  }

  /** Skipping digits either ends in the same way or at the end of the part. */
  lemma {:induction false} HexCut(js: string, n: nat, i: nat, k: nat)
    requires i <= n <= |js|
    ensures var h := HexEnd(js[..n], i, k); h == HexEnd(js, i, k) || h == End(n)
    decreases k
  {
    if k > 0 && i < n && Jsmn.IsHex(js[i]) { HexCut(js, n, i + 1, k - 1); }
  }

  lemma {:induction false} PrimitiveCut(js: string, n: nat, i: nat)
    requires i <= n <= |js|
    ensures var r := PrimitiveEnd(js[..n], i); (r.End? || r.code == Inval) ==> PrimitiveEnd(js, i) == r
    decreases n - i
  {
    if i < n && !EndsPrimitive(js[i]) && Printable(js[i]) { PrimitiveCut(js, n, i + 1); }
  }

  /** A turn on the part is the turn on the whole, unless the part is too short for it. */
  lemma TurnCut(js: string, n: nat, p: Parser)
    requires n <= |js| && Valid(js[..n], p) && p.pos < n
    ensures var r := Turn(js[..n], p); (r.Go? || r.code == Inval) ==> Turn(js, p) == r
  {
    var c := js[p.pos];
    assert js[..n][p.pos] == c;
    if c == '"' { StringCut(js, n, p.pos + 1); } else { PrimitiveCut(js, n, p.pos); }
    hide StringEnd, PrimitiveEnd, Accepts, CloseToken, Comma, OpenToken, Leaf;
  }

  // ---- the tokens so far ---------------------------------------------------------------

  /** `b` has the tokens of `a`, of the same kinds at the same places; ends once known stay. */
  predicate Extends(a: seq<Token>, b: seq<Token>) {
    |a| <= |b| && forall i :: 0 <= i < |a| ==>
      b[i].kind == a[i].kind && b[i].start == a[i].start && (a[i].end != -1 ==> b[i].end == a[i].end)
  }

  /** Tokens end before `pos`. */
  predicate EndBy(ts: seq<Token>, pos: nat) { forall i :: 0 <= i < |ts| ==> ts[i].end <= pos }

  /** Tokens from the `n`th on start at `pos` or later. */
  predicate StartFrom(ts: seq<Token>, n: nat, pos: nat) { forall i :: n <= i < |ts| ==> ts[i].start >= pos }

  lemma TurnExtends(js: string, p: Parser)
    requires Valid(js, p) && p.pos < |js| && Turn(js, p).Go?
    ensures var q := Turn(js, p).p;
            && Extends(p.toks, q.toks) && StartFrom(q.toks, |p.toks|, p.pos)
            && (EndBy(p.toks, p.pos) ==> EndBy(q.toks, q.pos))
  {
    hide StringEnd, PrimitiveEnd, Accepts, LastOpen;
    var i := LastOpen(p.toks, |p.toks|, true);
    assert i >= 0 ==> IsOpen(p.toks[i]);
  }

  lemma ExtendsTrans(a: seq<Token>, b: seq<Token>, c: seq<Token>, pos: nat, q: nat)
    requires Extends(a, b) && Extends(b, c) && StartFrom(b, |a|, pos) && StartFrom(c, |b|, q) && pos <= q
    ensures Extends(a, c) && StartFrom(c, |a|, pos)
  {
    forall i | |a| <= i < |c| ensures c[i].start >= pos { if i < |b| { assert c[i].start == b[i].start; } }
  }

  /** A run that succeeds keeps the tokens, and starts new ones where it is or later. */
  lemma {:induction false} RunExtends(js: string, p: Parser)
    requires Valid(js, p) && Parse(js, p).Tokenized?
    ensures var ts := Parse(js, p).toks; Extends(p.toks, ts) && StartFrom(ts, |p.toks|, p.pos)
    decreases |js| - p.pos
  {
    if p.pos < |js| {
      var q := Turn(js, p).p;
      TurnExtends(js, p);
      hide Turn, Extends, StartFrom;
      RunExtends(js, q);
      ExtendsTrans(p.toks, q.toks, Parse(js, q).toks, p.pos, q.pos);
    }
  }

  /** Tokens lie in the text before `pos`, as far as their ends are known. */
  predicate LieIn(ts: seq<Token>, pos: nat) {
    forall i :: 0 <= i < |ts| ==> 0 <= ts[i].start && (ts[i].end == -1 || ts[i].start <= ts[i].end <= pos)
  }

  lemma TurnInside(js: string, p: Parser)
    requires Valid(js, p) && p.pos < |js| && Turn(js, p).Go? && LieIn(p.toks, p.pos)
    requires forall i :: 0 <= i < |p.toks| ==> p.toks[i].start <= p.pos
    ensures var q := Turn(js, p).p; LieIn(q.toks, q.pos) && forall i :: 0 <= i < |q.toks| ==> q.toks[i].start <= q.pos
  {
    hide StringEnd, PrimitiveEnd, Accepts, LastOpen;
  }

  lemma {:induction false} RunInside(js: string, p: Parser)
    requires Valid(js, p) && Parse(js, p).Tokenized? && LieIn(p.toks, p.pos)
    requires forall i :: 0 <= i < |p.toks| ==> p.toks[i].start <= p.pos
    ensures LieIn(Parse(js, p).toks, |js|)
    decreases |js| - p.pos
  {
    if p.pos < |js| {
      TurnInside(js, p);
      hide Turn, LieIn;
      RunInside(js, Turn(js, p).p);
    }
  }

  // ---- cutting the text ----------------------------------------------------------------

  /** Where the run on the part stops, the run on the whole comes along. */
  lemma {:induction false} StoppedCut(js: string, n: nat, p: Parser)
    requires n <= |js| && Valid(js[..n], p)
    ensures var s := Stopped(js[..n], p); s.pos <= n && Valid(js, s) && Parse(js, p) == Parse(js, s)
    ensures EndBy(p.toks, p.pos) ==> var s := Stopped(js[..n], p); EndBy(s.toks, s.pos)
    decreases n - p.pos
  {
    if p.pos < n {
      TurnCut(js, n, p);
      var r := Turn(js[..n], p);
      if r.Go? {
        TurnExtends(js[..n], p);
        hide Turn, Extends;
        StoppedCut(js, n, r.p);
      }
    }
  }

  lemma {:induction false} ParseStopped(js: string, p: Parser)
    requires Valid(js, p)
    ensures var s := Stopped(js, p);
            if s.pos == |js| then Parse(js, p) == Parse(js, s)
            else Turn(js, s).Stop? && Parse(js, p) == Failed(Turn(js, s).code)
    decreases |js| - p.pos
  {
    if p.pos < |js| && Turn(js, p).Go? { ParseStopped(js, Turn(js, p).p); }
  }

  /** Text that is tokenized is not if it is cut off inside its first object or array: that
      is always noticed, as the end of the text. Until then the tokens are the same. */
  lemma CutIsPart(js: string, n: nat)
    requires n <= |js| && Parse(js, Begin).Tokenized?
    requires var ts := Parse(js, Begin).toks; ts != [] && IsContainer(ts[0]) && 0 <= ts[0].start < n < ts[0].end
    ensures Parse(js[..n], Begin) == Failed(Part)
    ensures Extends(Stopped(js[..n], Begin).toks, Parse(js, Begin).toks)
  {
    var part, s := js[..n], Stopped(js[..n], Begin);
    StoppedCut(js, n, Begin);
    ParseStopped(part, Begin);
    RunExtends(js, s);
    if s.pos < n {
      TurnCut(js, n, s);
      hide Turn;
    } else {
      hide Turn;
      assert s.toks != [] && s.toks[0].end == -1;
      OpenFound(s.toks);
    }
  }

  lemma {:induction false} OpenFoundBy(ts: seq<Token>, n: nat)
    requires 0 < n <= |ts| && IsOpen(ts[0])
    ensures LastOpen(ts, n, true) != -1
  {
    if n > 1 { OpenFoundBy(ts, n - 1); }
  }

  lemma OpenFound(ts: seq<Token>)
    requires ts != [] && IsOpen(ts[0])
    ensures LastOpen(ts, |ts|, true) != -1
  {
    OpenFoundBy(ts, |ts|);
  }

  /** The same for the text of a value: no proper part of it, cut off at the end, is taken for
      a value. */
  lemma TruncatedIsPart(v: Value, n: nat)
    requires ValueOk(v) && 0 < n < |Render(v)|
    ensures Parse(Render(v)[..n], Begin) == Failed(Part)
    ensures !v.Prim? ==> Extends(Stopped(Render(v)[..n], Begin).toks, Tokens(v, 0))
  {
    var js := Render(v);
    if v.Prim? {
      PrimPart(v.text, n);
    } else {
      WholeValue(v);
      if v.Str? { StringPart(v.text, n); } else { assert Tokens(v, 0)[0].end == |js|; CutIsPart(js, n); }
    }
  }

  lemma WholeValue(v: Value)
    requires ValueOk(v) && !v.Prim?
    ensures Parse(Render(v), Begin) == Tokenized(Tokens(v, 0))
  {
    PrimitivesAreWords(v);
    assert Blank("") && "" + Render(v) + "" == Render(v);
    hide *;
    ParseRender(v, "", "");
  }

  lemma PrimPart(text: string, n: nat)
    requires PrimitiveOk(text) && 0 < n < |text|
    ensures Parse(text[..n], Begin) == Failed(Part)
  {
    var v := Prim(text[..n]);
    assert v.text[0] == text[0] && PrimitiveOk(v.text);
    PrimitivesAreWords(v);
    assert Blank("") && "" + Render(v) + "" == text[..n];
    hide *;
    ParseRender(v, "", "");
  }

  lemma StringPart(text: string, n: nat)
    requires StringOk(text) && 0 < n < |text| + 2
    ensures var part := Render(Str(text))[..n]; Parse(part, Begin) == Failed(Part) && Stopped(part, Begin) == Begin
  {
    var js := Render(Str(text));
    assert At(js, 1, text + "\"");
    ScanString(js, 1, text);
    StringCut(js, n, 1);
    QuotePart(js[..n]);
  }

  lemma QuotePart(part: string)
    requires part != "" && part[0] == '"' && StringEnd(part, 1) == Bad(Part)
    ensures Parse(part, Begin) == Failed(Part) && Stopped(part, Begin) == Begin
  {
    hide StringEnd, PrimitiveEnd, CloseToken, OpenToken, Comma, Leaf, Accepts;
  }
}
