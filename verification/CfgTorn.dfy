/**
 Text written into a value that is no object: when the tokenizer takes what comes of it, so that
 the setter does not panic.
 */
module CfgTorn {
  import opened Json
  import opened Jsmn
  import opened JsmnCut
  import opened CfgLookup
  import opened CfgEdit
  import opened CfgTree
  import opened CfgDoc
  import opened CfgInto

  // ---- inside a container ------------------------------------------------------------------

  /** The token `n` is the innermost open one; the next token counts for it or for a token in it. */
  predicate InC(js: string, p: Parser, n: nat, kind: Kind) {
    && Jsmn.Valid(js, p) && n < |p.toks| && IsOpen(p.toks[n]) && p.toks[n].kind == kind
    && IsContainer(p.toks[n]) && (forall i :: n < i < |p.toks| ==> !IsOpen(p.toks[i]))
    && (p.super == n || (n < p.super && !IsContainer(p.toks[p.super])))
  }

  lemma InnermostOpen(toks: seq<Token>, n: nat, anyKind: bool)
    requires n < |toks| && IsOpen(toks[n]) && IsContainer(toks[n]) && forall i :: n < i < |toks| ==> !IsOpen(toks[i])
    ensures LastOpen(toks, |toks|, anyKind) == n
  {
    LastOpenSkips(toks, |toks|, toks[..n + 1], anyKind);
  }

  lemma AsReady(js: string, p: Parser, n: nat, kind: Kind)
    requires InC(js, p, n, kind) && p.super == n
    ensures Jsmn.Ready(js, p, p.toks[..n], p.toks[n], p.toks[n + 1..])
  {
  }

  lemma FromReady(js: string, p: Parser, base: seq<Token>, c: Token, done: seq<Token>)
    requires Jsmn.Valid(js, p) && p.toks == Within(base, c, done) && IsOpen(c) && IsContainer(c) && Closed(done)
    requires AfterValue(p, |base|)
    ensures InC(js, p, |base|, c.kind)
  {
  }

  lemma CommaStep(js: string, p: Parser, n: nat, kind: Kind)
    requires InC(js, p, n, kind) && p.pos < |js| && js[p.pos] == ','
    ensures var q := Parser(p.pos + 1, p.toks, n); InC(js, q, n, kind) && Parse(js, p) == Parse(js, q)
  {
    InnermostOpen(p.toks, n, false);
  }

  lemma StringStep(js: string, p: Parser, n: nat, kind: Kind, len: nat)
    requires InC(js, p, n, kind) && p.pos < |js| && js[p.pos] == '"'
    requires StringEnd(js, p.pos + 1) == End(p.pos + 1 + len)
    ensures var q := Parser(p.pos + 2 + len, Bump(p.toks, p.super) + [Token(String, p.pos + 1, p.pos + 1 + len, 0)],
            p.super);
            && InC(js, q, n, kind) && Parse(js, p) == Parse(js, q) && n < |q.toks| - 1
            && q.toks[|q.toks| - 1].kind == String && q.toks[|q.toks| - 1].size == 0 && q.toks[..n] == p.toks[..n]
  {
    hide StringEnd, Turn, Parse, Bump;
    TurnString(js, p, len);
    var q := Parser(p.pos + 2 + len, Bump(p.toks, p.super) + [Token(String, p.pos + 1, p.pos + 1 + len, 0)], p.super);
    StringIn(js, p, n, kind, len);
    StepTo(js, p, q);
  }

  lemma StringIn(js: string, p: Parser, n: nat, kind: Kind, len: nat)
    requires InC(js, p, n, kind) && p.pos + 2 + len <= |js|
    ensures InC(js, Parser(p.pos + 2 + len, Bump(p.toks, p.super) + [Token(String, p.pos + 1, p.pos + 1 + len, 0)],
                p.super), n, kind)
    ensures |Bump(p.toks, p.super)| > n && Bump(p.toks, p.super)[..n] == p.toks[..n]
  {
  }

  lemma ColonStep(js: string, p: Parser, n: nat, kind: Kind)
    requires InC(js, p, n, kind) && p.pos < |js| && js[p.pos] == ':'
    requires |p.toks| - 1 > n && p.toks[|p.toks| - 1].kind == String && p.toks[|p.toks| - 1].size == 0
    ensures var q := Parser(p.pos + 1, p.toks, |p.toks| - 1);
            InC(js, q, n, kind) && Accepts(q) && Parse(js, p) == Parse(js, q)
  {
    hide LastOpen, StringEnd, PrimitiveEnd;
  }

  lemma ValueStep(js: string, p: Parser, n: nat, kind: Kind, v: Value)
    requires InC(js, p, n, kind) && At(js, p.pos, Render(v)) && ValueOk(v)
    requires v.Prim? ==> EndsAt(js, p.pos + |Render(v)|) && Accepts(p)
    ensures InC(js, After(p, v), n, kind) && Parse(js, p) == Parse(js, After(p, v))
    ensures After(p, v).pos == p.pos + |Render(v)| && n < |After(p, v).toks| && After(p, v).toks[..n] == p.toks[..n]
  {
    hide Parse, At, EndsAt, ValueOk, Accepts;
    ParseValue(js, v, p);
    TokensClosed(v, p.pos);
    hide Render, Tokens;
    var base := Bump(p.toks, p.super);
    InnermostOpen(base, n, true);
  }

  lemma KeyStep(js: string, b: Members, p: Parser, n: nat, kind: Kind)
    requires b.Member? && InC(js, p, n, kind) && HeadAt(js, p.pos, b)
    ensures var q := AfterKey(b, p);
            InC(js, q, n, kind) && Accepts(q) && Parse(js, p) == Parse(js, q) && q.pos == ValuePos(b, p.pos)
    ensures var q := AfterKey(b, p);
            n < q.super < |q.toks| && q.toks[q.super].kind == String && q.toks[q.super].size == 0
  {
    hide Parse, At, Blank, StringOk;
    ParseKey(js, b, p);
  }

  // ---- before and after the value ------------------------------------------------------------

  lemma {:induction false} Front(js: string, f: Members, p: Parser) returns (q: Parser)
    requires InC(js, p, 0, Object) && p.super == 0 && At(js, p.pos, FrontText(f)) && MembersOk(f)
    ensures InC(js, q, 0, Object) && q.super == 0 && q.pos == p.pos + |FrontText(f)| && Parse(js, p) == Parse(js, q)
    decreases f
  {
    hide *;
    if f.NoMember? {
      NoFront(f);
      q := p;
    } else {
      var r := FrontOne(js, f, p);
      q := Front(js, f.more, r);
    }
  }

  lemma NoFront(f: Members)
    requires f.NoMember?
    ensures FrontText(f) == ""
  {
  }

  /** One member and its comma. */
  lemma FrontOne(js: string, f: Members, p: Parser) returns (q: Parser)
    requires f.Member? && InC(js, p, 0, Object) && p.super == 0 && At(js, p.pos, FrontText(f)) && MembersOk(f)
    ensures InC(js, q, 0, Object) && q.super == 0 && Parse(js, p) == Parse(js, q) && MembersOk(f.more)
    ensures At(js, q.pos, FrontText(f.more)) && q.pos + |FrontText(f.more)| == p.pos + |FrontText(f)|
  {
    hide *;
    FrontParts(js, f, p.pos);
    InBounds(js, p, 0, Object);
    var r := OneMember(js, f, p);
    FrontNext(js, f, p.pos, r.pos);
    CommaStep(js, r, 0, Object);
    q := Parser(r.pos + 1, r.toks, 0);
  }

  lemma OneMember(js: string, f: Members, p: Parser) returns (r: Parser)
    requires f.Member? && InC(js, p, 0, Object) && p.super == 0 && At(js, p.pos, RenderMembers(f))
    requires EndsAt(js, p.pos + |RenderMembers(f)|) && MemberOk(f)
    ensures InC(js, r, 0, Object) && Parse(js, p) == Parse(js, r)
    ensures At(js, r.pos, Tail(f)) && r.pos + |Tail(f)| == p.pos + |RenderMembers(f)|
  {
    hide *;
    InBounds(js, p, 0, Object);
    var base, c, done := p.toks[..0], p.toks[0], p.toks[1..];
    AsReady(js, p, 0, Object);
    r := ReadMember(js, f, p, base, c, done);
    MemberThenMore(f, p.pos, c, done);
    var c1, d := c.(size := c.size + 1), done + MemberDone(f, p.pos);
    OpenObject(js, p, c1);
    FromReady(js, r, base, c1, d);
  }

  lemma OpenObject(js: string, p: Parser, c: Token)
    requires InC(js, p, 0, Object) && c == p.toks[0].(size := p.toks[0].size + 1)
    ensures IsOpen(c) && IsContainer(c) && c.kind == Object && |p.toks[..0]| == 0
  {
  }

  lemma FrontParts(js: string, f: Members, pos: nat)
    requires f.Member? && At(js, pos, FrontText(f)) && MembersOk(f)
    ensures At(js, pos, RenderMembers(f)) && EndsAt(js, pos + |RenderMembers(f)|) && MemberOk(f) && MembersOk(f.more)
  {
    hide Render, RenderMembers, ValueOk, StringOk, Blank;
    AtSplit(js, pos, RenderMembers(f), ",");
    assert js[pos + |RenderMembers(f)|] == ","[0];
  }

  lemma FrontNext(js: string, f: Members, pos: nat, r: nat)
    requires f.Member? && At(js, pos, FrontText(f)) && At(js, r, Tail(f)) && r + |Tail(f)| == pos + |RenderMembers(f)|
    ensures r < |js| && js[r] == ',' && At(js, r + 1, FrontText(f.more))
            && r + 1 + |FrontText(f.more)| == pos + |FrontText(f)|
  {
    hide Render, RenderMembers;
    AtSplit(js, pos, RenderMembers(f), ",");
    assert js[pos + |RenderMembers(f)|] == ","[0];
    if f.more.Member? {
      AtSplit(js, r, ",", RenderMembers(f.more));
      assert js[r] == ","[0];
      AtJoin(js, r + 1, RenderMembers(f.more), ",");
    }
  }

  lemma AtJoin(js: string, p: nat, a: string, b: string)
    requires At(js, p, a) && At(js, p + |a|, b)
    ensures At(js, p, a + b)
  {
  }

  /** The rest of the document after a value: blanks, other members, and the brace. */
  predicate RestAt(js: string, p: nat, b: Members)
    requires b.Member?
  {
    var m := p + |b.post|;
    && At(js, p, b.post) && Blank(b.post) && m < |js|
    && if b.more.NoMember? then js[m] == '}' && m + 1 == |js|
       else js[m] == ',' && MembersAt(js, m + 1, b.more) && m + 2 + |RenderMembers(b.more)| == |js|
  }

  lemma Rest(js: string, p: Parser, b: Members)
    requires b.Member? && InC(js, p, 0, Object) && p.super == 0 && RestAt(js, p.pos, b)
    ensures Parse(js, p).Tokenized?
  {
    var q := p.(pos := p.pos + |b.post|);
    hide Parse, At, Blank, RenderMembers;
    SkipBlank(js, p, b.post);
    if b.more.Member? {
      CommaStep(js, q, 0, Object);
      var r := Parser(q.pos + 1, q.toks, 0);
      AsReady(js, r, 0, Object);
      MoreMembers(js, r, b.more);
    } else {
      CloseDocument(js, q);
    }
  }

  lemma MoreMembers(js: string, p: Parser, ms: Members)
    requires ms.Member? && InC(js, p, 0, Object) && p.super == 0 && MembersAt(js, p.pos, ms)
    requires p.pos + |RenderMembers(ms)| + 1 == |js|
    ensures Parse(js, p).Tokenized?
  {
    hide *;
    ObjectFirst(js, p);
    var c, done := p.toks[0], p.toks[1..];
    MembersClosed(ms, p.pos);
    MembersEnd(js, p.pos, ms);
    JoinClosed(done, MemberTokens(ms, p.pos), c, c.(size := c.size + CountMembers(ms)));
    var k := ParseMembers(js, ms, p, [], c, done);
    var c1, d := c.(size := c.size + CountMembers(ms)), done + MemberTokens(ms, p.pos);
    var q := Parser(p.pos + |RenderMembers(ms)|, Within([], c1, d), k);
    CloseAll(js, q, c1, d);
  }

  lemma ObjectFirst(js: string, p: Parser)
    requires InC(js, p, 0, Object) && p.super == 0
    ensures p.toks != [] && p.toks[0].kind == Object && IsOpen(p.toks[0])
    ensures Closed(p.toks[1..]) && Jsmn.Ready(js, p, [], p.toks[0], p.toks[1..])
  {
  }

  lemma JoinClosed(a: seq<Token>, b: seq<Token>, c: Token, d: Token)
    requires Closed(a) && Closed(b) && IsOpen(c) && d == c.(size := d.size)
    ensures Closed(a + b) && IsOpen(d)
  {
  }

  lemma MembersEnd(js: string, p: nat, ms: Members)
    requires MembersAt(js, p, ms)
    ensures At(js, p, RenderMembers(ms)) && MembersOk(ms) && EndsAt(js, p + |RenderMembers(ms)|)
            && js[p + |RenderMembers(ms)|] == '}'
  {
  }

  /** The brace at the end of the text closes the document. */
  lemma CloseAll(js: string, q: Parser, c: Token, d: seq<Token>)
    requires Jsmn.Valid(js, q) && q.pos + 1 == |js| && js[q.pos] == '}' && q.toks == Within([], c, d)
    requires IsOpen(c) && c.kind == Object && Closed(d)
    ensures Parse(js, q).Tokenized?
  {
    CloseAt('}', q, [], c, d);
    var toks := Within([], c.(end := q.pos + 1), d);
    var r := Parser(q.pos + 1, toks, LastOpen([], 0, true));
    assert Turn(js, q) == Go(r);
    assert Closed(toks);
    LastOpenSkips(toks, |toks|, [], true);
  }

  lemma CloseDocument(js: string, q: Parser)
    requires InC(js, q, 0, Object) && q.pos + 1 == |js| && js[q.pos] == '}'
    ensures Parse(js, q).Tokenized?
  {
    assert q.toks == Within([], q.toks[0], q.toks[1..]);
    CloseAll(js, q, q.toks[0], q.toks[1..]);
  }

  // ---- the text ------------------------------------------------------------------------------

  /** The text from `pos` on stands `s` characters later. */
  predicate Moved(t: string, js: string, pos: nat, s: nat) {
    |js| == |t| + s && forall i :: pos <= i < |t| ==> js[i + s] == t[i]
  }

  lemma TornText(t: string, pos: nat, key: string, v: Value)
    requires 0 < pos < |t| && t[pos] != '}'
    ensures var js, n := Inserted(t, pos, NewText(key, v)), |NewText(key, v)|;
            && At(js, pos, NewText(key, v)) && pos + n < |js| && js[pos + n] == ',' && Moved(t, js, pos, n + 1)
            && js[..pos] == t[..pos]
  {
    var js, x := Inserted(t, pos, NewText(key, v)), NewText(key, v);
    assert js == t[..pos] + x + "," + t[pos..];
    hide NewText, Inserted;
  }

  lemma NewParts(js: string, p: nat, key: string, v: Value)
    requires At(js, p, NewText(key, v)) && StringOk(key)
    ensures var k := p + 2 + |key|;
            && k < |js| && js[p] == '"' && StringEnd(js, p + 1) == End(p + 1 + |key|) && js[k] == ':'
            && At(js, k + 1, Render(v)) && k + 1 + |Render(v)| == p + |NewText(key, v)|
  {
    var k := key + "\"";
    assert NewText(key, v) == "\"" + k + ":" + Render(v);
    AtParts(js, p, "\"", k, ":", Render(v), p + 1, p + 2 + |key|, p + 3 + |key|) by { hide At; }
    assert js[p] == "\""[0] && js[p + 2 + |key|] == ":"[0];
    hide StringOk;
    ScanString(js, p + 1, key);
  }

  lemma RestInText(t: string, k: nat, b: Members)
    requires b.Member? && MembersAt(t, k, b) && k + |RenderMembers(b)| + 1 == |t|
    ensures RestAt(t, ValuePos(b, k) + |Render(b.value)|, b)
  {
    hide MembersAt, Render, RenderMembers, HeadAt, ValueOk, EndsAt, At, Blank;
    FirstMember(t, k, b);
    OneLength(b, k);
  }

  lemma OneLength(b: Members, k: nat)
    requires b.Member?
    ensures k + |RenderMembers(b)| == ValuePos(b, k) + |Render(b.value)| + |b.post|
                                      + if b.more.Member? then 1 + |RenderMembers(b.more)| else 0
  {
    MemberParts(b);
    hide Render, RenderMembers, Head;
  }

  lemma RestMoved(t: string, js: string, pos: nat, s: nat, p: nat, b: Members)
    requires Moved(t, js, pos, s) && pos <= p && b.Member? && RestAt(t, p, b)
    ensures RestAt(js, p + s, b)
  {
    AtMoved(t, js, pos, s, p, b.post);
    if b.more.Member? { AtMoved(t, js, pos, s, p + |b.post| + 1, RenderMembers(b.more)); }
    hide RenderMembers, MembersOk, Blank;
  }

  lemma AtMoved(t: string, js: string, pos: nat, s: nat, p: nat, x: string)
    requires Moved(t, js, pos, s) && pos <= p && At(t, p, x)
    ensures At(js, p + s, x)
  {
    forall i | 0 <= i < |x| ensures js[p + s + i] == x[i] { assert js[(p + i) + s] == t[p + i]; }
  }

  // ---- up to the value -------------------------------------------------------------------------

  lemma Opened(js: string)
    requires js != "" && js[0] == '{'
    ensures var p := Parser(1, [Token(Object, 0, -1, 0)], 0); InC(js, p, 0, Object) && Parse(js, Begin) == Parse(js, p)
  {
    var p := Parser(1, [Token(Object, 0, -1, 0)], 0);
    assert Turn(js, Begin) == Go(p);
    hide Turn;
  }

  /** The tokenizer gets to the value as in the text it had before. */
  lemma ToValue(js: string, ms: Members, id1: string) returns (q: Parser)
    requires MembersOk(ms) && HasKey(ms, id1) && IntoPos(ms, id1) <= |js| && IntoPos(ms, id1) < |Render(Obj(ms))|
    requires js[..IntoPos(ms, id1)] == Render(Obj(ms))[..IntoPos(ms, id1)]
    ensures InC(js, q, 0, Object) && Accepts(q) && q.pos == ValueOf(ms, id1) && Parse(js, Begin) == Parse(js, q)
    ensures 0 < q.super < |q.toks| && q.toks[q.super].kind == String && q.toks[q.super].size == 0
  {
    hide *;
    var k, f, b := 1 + |FrontText(Ahead(ms, id1))|, Ahead(ms, id1), From(ms, id1);
    SameUpTo(ms, id1, js);
    Opened(js);
    var p := Front(js, f, Parser(1, [Token(Object, 0, -1, 0)], 0));
    KeyStep(js, b, p, 0, Object);
    q := AfterKey(b, p);
  }

  lemma SameUpTo(ms: Members, id1: string, js: string)
    requires MembersOk(ms) && HasKey(ms, id1) && IntoPos(ms, id1) <= |js| && IntoPos(ms, id1) < |Render(Obj(ms))|
    requires js[..IntoPos(ms, id1)] == Render(Obj(ms))[..IntoPos(ms, id1)]
    ensures var k, f, b := 1 + |FrontText(Ahead(ms, id1))|, Ahead(ms, id1), From(ms, id1);
            && js != "" && js[0] == '{' && At(js, 1, FrontText(f)) && MembersOk(f) && b.Member? && HeadAt(js, k, b)
            && ValuePos(b, k) == ValueOf(ms, id1)
  {
    var t, k, f, b := Render(Obj(ms)), 1 + |FrontText(Ahead(ms, id1))|, Ahead(ms, id1), From(ms, id1);
    assert t[0] == '{';
    hide *;
    Placed(ms, id1);
    PlaceOf(ms, id1);
    FrontAt(t, 1, f, b);
    OneParts(t, k, b);
    SameStart(t, js, IntoPos(ms, id1));
    AtPrefix(t, js, IntoPos(ms, id1), 1, FrontText(f));
    HeadPrefix(t, js, IntoPos(ms, id1), k, b);
  }

  lemma SameStart(t: string, js: string, pos: nat)
    requires 0 < pos <= |t| && pos <= |js| && js[..pos] == t[..pos]
    ensures js != "" && js[0] == t[0]
  {
    assert js[..pos][0] == t[..pos][0];
  }

  lemma AtPrefix(t: string, js: string, pos: nat, p: nat, x: string)
    requires pos <= |t| && pos <= |js| && js[..pos] == t[..pos] && At(t, p, x) && p + |x| <= pos
    ensures At(js, p, x)
  {
    forall i | 0 <= i < |x| ensures js[p + i] == x[i] { assert js[..pos][p + i] == t[..pos][p + i]; }
  }

  lemma HeadPrefix(t: string, js: string, pos: nat, k: nat, b: Members)
    requires pos <= |t| && pos <= |js| && js[..pos] == t[..pos] && b.Member? && HeadAt(t, k, b) && ValuePos(b, k) <= pos
    ensures HeadAt(js, k, b)
  {
    assert |Head(b)| == |b.pre| + |b.key| + 3 + |b.mid|;
    hide Blank, StringOk, Head;
    AtPrefix(t, js, pos, k, Head(b));
  }

  // ---- the four kinds of values ------------------------------------------------------------------

  /** After the new member, its comma and the rest of the value: what is left is the rest of the
      document. */
  lemma AfterComma(t: string, js: string, pos: nat, s: nat, e: nat, p: Parser, b: Members)
    requires Moved(t, js, pos, s) && pos <= e && b.Member? && RestAt(t, e, b)
    requires InC(js, p, 0, Object) && p.super == 0 && p.pos == e + s
    ensures Parse(js, p).Tokenized?
  {
    hide *;
    RestMoved(t, js, pos, s, e, b);
    Rest(js, p, b);
  }

  /** The new member inside a container: key, colon, value and comma. */
  lemma NewRead(js: string, p: Parser, n: nat, kind: Kind, key: string, v: Value) returns (q: Parser)
    requires InC(js, p, n, kind) && At(js, p.pos, NewText(key, v)) && StringOk(key) && ValueOk(v)
    requires p.pos + |NewText(key, v)| < |js| && js[p.pos + |NewText(key, v)|] == ','
    ensures InC(js, q, n, kind) && q.super == n && q.pos == p.pos + |NewText(key, v)| + 1
            && Parse(js, p) == Parse(js, q)
    ensures n < |p.toks| && n < |q.toks| && q.toks[..n] == p.toks[..n]
  {
    hide *;
    InBounds(js, p, n, kind);
    var toks := Bump(p.toks, p.super) + [Token(String, p.pos + 1, p.pos + 1 + |key|, 0)];
    CommaEnds(js, p.pos + |NewText(key, v)|);
    NewParts(js, p.pos, key, v);
    StringStep(js, p, n, kind, |key|);
    var r := Parser(p.pos + 2 + |key|, toks, p.super);
    ColonStep(js, r, n, kind);
    var x := Parser(r.pos + 1, toks, |toks| - 1);
    ValueStep(js, x, n, kind, v);
    CommaStep(js, After(x, v), n, kind);
    q := Parser(After(x, v).pos + 1, After(x, v).toks, n);
  }

  lemma InBounds(js: string, p: Parser, n: nat, kind: Kind)
    requires InC(js, p, n, kind)
    ensures n < |p.toks|
  {
  }

  lemma CommaEnds(js: string, e: nat)
    requires e < |js| && js[e] == ','
    ensures EndsAt(js, e)
  {
  }

  predicate Smooth(s: string) { forall i :: 0 <= i < |s| ==> Printable(s[i]) && !EndsPrimitive(s[i]) }

  /** A primitive and the new member run together. */
  lemma WordRuns(c: string, key: string, v: Value)
    requires PrimitiveOk(c) && Smooth(key) && Smooth(Render(v))
    ensures PrimitiveOk(c + NewText(key, v))
  {
    hide Render;
    var x := NewText(key, v);
    assert Smooth(x) by { assert Smooth("\"") && Smooth("\":"); }
    hide NewText;
  }

  lemma WordRead(js: string, p: Parser, c: string, key: string, v: Value) returns (q: Parser)
    requires InC(js, p, 0, Object) && Accepts(p) && At(js, p.pos, c) && At(js, p.pos + |c|, NewText(key, v))
    requires PrimitiveOk(c) && Smooth(key) && Smooth(Render(v))
    requires var e := p.pos + |c| + |NewText(key, v)|; e < |js| && js[e] == ','
    ensures InC(js, q, 0, Object) && q.super == 0 && q.pos == p.pos + |c| + |NewText(key, v)| + 1
            && Parse(js, p) == Parse(js, q)
  {
    var w := Prim(c + NewText(key, v));
    assert Render(w) == c + NewText(key, v) && EndsAt(js, p.pos + |Render(w)|);
    WordRuns(c, key, v);
    assert ValueOk(w);
    hide *;
    AtJoin(js, p.pos, c, NewText(key, v));
    ValueStep(js, p, 0, Object, w);
    var r := After(p, w);
    CommaStep(js, r, 0, Object);
    q := Parser(r.pos + 1, r.toks, 0);
  }

  /** Where a value or the rest of a word cannot stand. */
  lemma Stops(js: string, p: Parser)
    requires Jsmn.Valid(js, p) && p.pos < |js| && Ordinary(js[p.pos]) && !Accepts(p)
    ensures Parse(js, p) == Failed(Inval)
  {
    hide Accepts;
  }

  /** A character that may begin a word, but nothing else. */
  predicate Ordinary(c: char) {
    !IsSpace(c) && c != '[' && c != ']' && c != '{' && c != '}' && c != '"' && c != ':' && c != ','
  }

  lemma RootLength(ms: Members, id1: string)
    requires MembersOk(ms) && HasKey(ms, id1)
    ensures 1 + |FrontText(Ahead(ms, id1))| + |RenderMembers(From(ms, id1))| + 1 == |Render(Obj(ms))|
  {
    Parts(ms, id1);
    JoinText(Ahead(ms, id1), From(ms, id1));
    RenderObj(ms);
    hide Render, RenderMembers, FrontText;
  }

  /** What is known of the value and of what follows it. */
  lemma ValueIs(ms: Members, id1: string)
    requires MembersOk(ms) && HasKey(ms, id1)
    ensures var t, p, b := Render(Obj(ms)), ValueOf(ms, id1), From(ms, id1);
            && b.Member? && At(t, p, Render(b.value)) && ValueOk(b.value) && EndsAt(t, p + |Render(b.value)|)
            && RestAt(t, p + |Render(b.value)|, b) && 0 < IntoPos(ms, id1) < |t|
            && IntoPos(ms, id1) == p + if b.value.Str? then 2 else 1
  {
    hide *;
    var k, b := 1 + |FrontText(Ahead(ms, id1))|, From(ms, id1);
    Parts(ms, id1);
    Placed(ms, id1);
    PlaceOf(ms, id1);
    OneParts(Render(Obj(ms)), k, b);
    RootLength(ms, id1);
    RestInText(Render(Obj(ms)), k, b);
  }

  lemma PrimTorn(ms: Members, id1: string, id2: string, v: Value)
    requires MembersOk(ms) && HasKey(ms, id1) && From(ms, id1).value.Prim? && Proper(From(ms, id1).value)
    requires StringOk(id2) && Smooth(id2) && Smooth(Render(v))
    requires IntoPos(ms, id1) < |Render(Obj(ms))| && Render(Obj(ms))[IntoPos(ms, id1)] != '}'
    ensures Parse(Into(ms, id1, id2, v), Begin).Tokenized? <==> |From(ms, id1).value.text| == 1
  {
    hide *;
    var u := From(ms, id1).value;
    var js, t, pos, p, b := Into(ms, id1, id2, v), Render(Obj(ms)), IntoPos(ms, id1), ValueOf(ms, id1), From(ms, id1);
    var n := |NewText(id2, v)|;
    ValueIs(ms, id1);
    IsInserted(ms, id1, id2, v);
    TornText(t, pos, id2, v);
    var q := ToValue(js, ms, id1);
    FirstOfWord(t, p, u);
    AtPrefix(t, js, pos, p, u.text[..1]);
    var r := WordRead(js, q, u.text[..1], id2, v);
    MovedAt(t, js, pos, n + 1);
    if |u.text| == 1 {
      AfterComma(t, js, pos, n + 1, pos, r, b);
    } else {
      NotInObject(js, r);
      Stops(js, r);
    }
  }

  lemma FirstOfWord(t: string, p: nat, u: Value)
    requires u.Prim? && At(t, p, Render(u)) && ValueOk(u) && Proper(u)
    ensures u.text != "" && At(t, p, u.text[..1]) && PrimitiveOk(u.text[..1]) && |u.text[..1]| == 1
    ensures |u.text| > 1 ==> Ordinary(t[p + 1])
    ensures |u.text| == 1 ==> |Render(u)| == 1
  {
    assert u.text[..1][0] == u.text[0];
    if |u.text| > 1 { assert t[p + 1] == u.text[1]; }
  }

  lemma MovedAt(t: string, js: string, pos: nat, s: nat)
    requires Moved(t, js, pos, s) && pos < |t|
    ensures pos + s < |js| && js[pos + s] == t[pos]
  {
  }

  lemma NotInObject(js: string, p: Parser)
    requires InC(js, p, 0, Object) && p.super == 0
    ensures Jsmn.Valid(js, p) && !Accepts(p)
  {
  }

  lemma EmptyTorn(ms: Members, id1: string, id2: string, v: Value)
    requires MembersOk(ms) && HasKey(ms, id1) && From(ms, id1).value == Str("") && StringOk(id2) && ValueOk(v)
    requires IntoPos(ms, id1) < |Render(Obj(ms))| && Render(Obj(ms))[IntoPos(ms, id1)] != '}'
    ensures Parse(Into(ms, id1, id2, v), Begin).Tokenized?
  {
    hide *;
    var js, t, pos, p, b := Into(ms, id1, id2, v), Render(Obj(ms)), IntoPos(ms, id1), ValueOf(ms, id1), From(ms, id1);
    var n := |NewText(id2, v)|;
    ValueIs(ms, id1);
    IsInserted(ms, id1, id2, v);
    TornText(t, pos, id2, v);
    EmptyString();
    var q := ToValue(js, ms, id1);
    AtPrefix(t, js, pos, p, Render(Str("")));
    ValueStep(js, q, 0, Object, Str(""));
    var r := NewRead(js, After(q, Str("")), 0, Object, id2, v);
    AfterComma(t, js, pos, n + 1, pos, r, b);
  }

  lemma EmptyString()
    ensures |Render(Str(""))| == 2 && ValueOk(Str(""))
  {
  }

  lemma ArrayTorn(ms: Members, id1: string, id2: string, v: Value)
    requires MembersOk(ms) && HasKey(ms, id1) && From(ms, id1).value.Arr? && StringOk(id2) && ValueOk(v)
    requires IntoPos(ms, id1) < |Render(Obj(ms))| && Render(Obj(ms))[IntoPos(ms, id1)] != '}'
    ensures Parse(Into(ms, id1, id2, v), Begin).Tokenized?
  {
    hide *;
    var js, t, pos, p, b := Into(ms, id1, id2, v), Render(Obj(ms)), IntoPos(ms, id1), ValueOf(ms, id1), From(ms, id1);
    var n, u := |NewText(id2, v)|, b.value;
    ValueIs(ms, id1);
    IsInserted(ms, id1, id2, v);
    TornText(t, pos, id2, v);
    var q := ToValue(js, ms, id1);
    ArrayText(t, p, u);
    PrefixAt(t, js, pos, p);
    var p1 := OpenArray(js, q, u);
    var i := |Bump(q.toks, q.super)|;
    var p2 := NewRead(js, p1, i, Array, id2, v);
    AtMoved(t, js, pos, n + 1, pos, RenderElems(u.elems));
    MovedAt(t, js, pos + |RenderElems(u.elems)|,
        n + 1) by { MovedLater(t, js, pos, n + 1, pos + |RenderElems(u.elems)|); }
    var p3 := Elements(js, p2, i, u.elems);
    var p4 := CloseArray(js, p3, i);
    AfterComma(t, js, pos, n + 1, p + |Render(u)|, p4, b);
  }

  lemma MovedLater(t: string, js: string, pos: nat, s: nat, p: nat)
    requires Moved(t, js, pos, s) && pos <= p
    ensures Moved(t, js, p, s)
  {
  }

  lemma ArrayText(t: string, p: nat, u: Value)
    requires u.Arr? && At(t, p, Render(u)) && ValueOk(u)
    ensures ElemsOk(u.elems) && |Render(u)| == |RenderElems(u.elems)| + 2
    ensures p + 1 + |RenderElems(u.elems)| < |t| && t[p] == '[' && At(t, p + 1, RenderElems(u.elems))
            && t[p + 1 + |RenderElems(u.elems)|] == ']'
  {
    ContainerText(t, u, p);
  }

  lemma OpenArray(js: string, p: Parser, u: Value) returns (q: Parser)
    requires InC(js, p, 0, Object) && u.Arr? && p.pos < |js| && js[p.pos] == '['
    ensures var base := Bump(p.toks, p.super);
            && InC(js, q, |base|, Array) && |base| < |q.toks| && q.toks[..|base|] == base && q.pos == p.pos + 1
            && Parse(js, p) == Parse(js, q) && Outer(base)
  {
    var base := Bump(p.toks, p.super);
    q := Parser(p.pos + 1, Within(base, Opener(u, p.pos), []), |base|);
    assert OpenToken('[', p).toks == q.toks;
    assert Turn(js, p) == Go(q);
    hide Turn;
  }

  /** Only the first token is open, an object. */
  predicate Outer(base: seq<Token>) {
    base != [] && IsOpen(base[0]) && base[0].kind == Object && forall i :: 0 < i < |base| ==> !IsOpen(base[i])
  }

  lemma Elements(js: string, p: Parser, n: nat, es: Elems) returns (q: Parser)
    requires InC(js, p, n, Array) && p.super == n && ElemsOk(es) && At(js, p.pos, RenderElems(es))
    requires p.pos + |RenderElems(es)| < |js| && js[p.pos + |RenderElems(es)|] == ']'
    ensures InC(js, q, n, Array) && q.pos == p.pos + |RenderElems(es)| && Parse(js, p) == Parse(js, q)
    ensures n < |p.toks| && n < |q.toks| && q.toks[..n] == p.toks[..n]
  {
    InBounds(js, p, n, Array);
    if es.NoElem? {
      q := p;
    } else {
      var base, c, done := p.toks[..n], p.toks[n], p.toks[n + 1..];
      hide *;
      AsReady(js, p, n, Array);
      InArrayNow(js, p, n);
      BracketEnds(js, p.pos + |RenderElems(es)|);
      ElemsClosed(es, p.pos);
      ParseElems(js, es, p, base, c, done);
      var c1, d := c.(size := c.size + CountElems(es)), done + ElemTokens(es, p.pos);
      JoinClosed(done, ElemTokens(es, p.pos), c, c1);
      q := Parser(p.pos + |RenderElems(es)|, Within(base, c1, d), |base|);
      ArrayAgain(js, q, base, c1, d);
    }
  }

  lemma InArrayNow(js: string, p: Parser, n: nat)
    requires InC(js, p, n, Array)
    ensures n < |p.toks| && p.toks[n].kind == Array && IsOpen(p.toks[n]) && Closed(p.toks[n + 1..])
  {
  }

  lemma BracketEnds(js: string, e: nat)
    requires e < |js| && js[e] == ']'
    ensures EndsAt(js, e)
  {
  }

  lemma ArrayAgain(js: string, q: Parser, base: seq<Token>, c: Token, d: seq<Token>)
    requires Jsmn.Valid(js, q) && q.toks == Within(base, c, d) && IsOpen(c) && c.kind == Array && Closed(d)
             && q.super == |base|
    ensures InC(js, q, |base|, Array) && |base| < |q.toks| && q.toks[..|base|] == base
  {
  }

  lemma CloseArray(js: string, p: Parser, n: nat) returns (q: Parser)
    requires InC(js, p, n, Array) && n < |p.toks| && Outer(p.toks[..n]) && p.pos < |js| && js[p.pos] == ']'
    ensures InC(js, q, 0, Object) && q.super == 0 && q.pos == p.pos + 1 && Parse(js, p) == Parse(js, q)
  {
    var base, c, done := p.toks[..n], p.toks[n], p.toks[n + 1..];
    assert p.toks == Within(base, c, done);
    CloseAt(']', p, base, c, done);
    InnermostOpen(base, 0, true);
    q := Parser(p.pos + 1, Within(base, c.(end := p.pos + 1), done), 0);
    assert Turn(js, p) == Go(q);
    hide Turn, LastOpen;
  }

  // ---- strings ---------------------------------------------------------------------------------

  lemma QuoteStep(js: string, p: Parser, n: nat, len: nat) returns (q: Parser)
    requires InC(js, p, n, Object) && p.pos < |js| && js[p.pos] == '"' && n < p.super
    requires StringEnd(js, p.pos + 1) == End(p.pos + 1 + len)
    requires p.super < |p.toks| && p.toks[p.super].kind == String && p.toks[p.super].size == 0
    ensures InC(js, q, n, Object) && q.pos == p.pos + 2 + len && Parse(js, p) == Parse(js, q) && !Accepts(q)
    ensures n < |q.toks| - 1 && q.toks[|q.toks| - 1].kind == String && q.toks[|q.toks| - 1].size == 0
  {
    hide StringEnd, Parse;
    StringStep(js, p, n, Object, len);
    q := Parser(p.pos + 2 + len, Bump(p.toks, p.super) + [Token(String, p.pos + 1, p.pos + 1 + len, 0)], p.super);
  }

  lemma StopsIn(js: string, p: Parser, kind: Kind)
    requires InC(js, p, 0, kind) && !Accepts(p) && p.pos < |js| && Ordinary(js[p.pos])
    ensures Parse(js, p) == Failed(Inval)
  {
    Stops(js, p);
  }

  /** The quote of the new name ends a string that does not begin with a backslash; the name is then
      a word where none can stand. */
  lemma PlainTorn(ms: Members, id1: string, id2: string, v: Value)
    requires MembersOk(ms) && HasKey(ms, id1) && From(ms, id1).value.Str? && From(ms, id1).value.text != ""
    requires From(ms, id1).value.text[0] != '\\' && StringOk(id2) && id2 != "" && Ordinary(id2[0])
    ensures Parse(Into(ms, id1, id2, v), Begin) == Failed(Inval)
  {
    hide *;
    var js, t, pos, p, b := Into(ms, id1, id2, v), Render(Obj(ms)), IntoPos(ms, id1), ValueOf(ms, id1), From(ms, id1);
    ValueIs(ms, id1);
    IsInserted(ms, id1, id2, v);
    IntoPrefix(ms, id1, id2, v);
    NewAt(t, pos, id2, v);
    SecondChar(t, p, b.value);
    ValueHead(t, p, b.value);
    PrefixAt(t, js, pos, p);
    PrefixAt(t, js, pos, p + 1);
    var q := if t[pos] == '}' && t[pos - 1] != '{' then p + 3 else p + 2;
    NewString(js, p, q, id2);
    var r := ToValue(js, ms, id1);
    var x := QuoteStep(js, r, 0, q - p - 1);
    StopsIn(js, x, Object);
  }

  /** A string that begins with a backslash: the quote of the new name becomes part of it. */
  lemma EscapedRead(js: string, p: Parser, key: string, v: Value) returns (q: Parser)
    requires InC(js, p, 0, Object) && 0 < p.super < |p.toks|
    requires p.toks[p.super].kind == String && p.toks[p.super].size == 0
    requires p.pos + 2 < |js| && js[p.pos] == '"' && js[p.pos + 1] == '\\'
    requires At(js, p.pos + 2, NewText(key, v)) && StringOk(key) && ValueOk(v)
    requires StringEnd(js, p.pos + 1) == End(p.pos + 3 + |key|)
    requires p.pos + 2 + |NewText(key, v)| < |js| && js[p.pos + 2 + |NewText(key, v)|] == ','
    ensures InC(js, q, 0, Object) && q.super == 0 && q.pos == p.pos + 3 + |NewText(key, v)|
            && Parse(js, p) == Parse(js, q)
  {
    hide *;
    NewParts(js, p.pos + 2, key, v);
    CommaEnds(js, p.pos + 2 + |NewText(key, v)|);
    var r := QuoteStep(js, p, 0, |key| + 2);
    ColonStep(js, r, 0, Object);
    var x := Parser(r.pos + 1, r.toks, |r.toks| - 1);
    ValueStep(js, x, 0, Object, v);
    CommaStep(js, After(x, v), 0, Object);
    q := Parser(After(x, v).pos + 1, After(x, v).toks, 0);
  }

  /** The escaped character, and a string after an escaped quote. */
  lemma EscapedText(t: string, p: nat, u: Value)
    requires u.Str? && u.text != "" && u.text[0] == '\\' && At(t, p, Render(u)) && ValueOk(u)
    ensures |u.text| > 1 && p + |Render(u)| <= |t| && |Render(u)| == |u.text| + 2 && t[p] == '"' && t[p + 1] == '\\'
    ensures t[p + 2] == u.text[1] && (u.text[1] == '"' || Ordinary(u.text[1]))
    ensures u.text[1] == '"' ==> StringOk(u.text[2..]) && At(t, p + 2, Render(Str(u.text[2..])))
  {
    var a := u.text;
    assert Render(u)[1] == a[0] && Render(u)[2] == a[1];
    assert t[p + 1] == Render(u)[1] && t[p + 2] == Render(u)[2] && t[p] == Render(u)[0];
    if a[1] == '"' {
      var r := Render(Str(a[2..]));
      forall i | 0 <= i < |r| ensures t[p + 2 + i] == r[i] { assert t[p + (i + 2)] == Render(u)[i + 2]; }
    }
  }

  lemma StringStops(js: string, q: Parser, u: Value)
    requires InC(js, q, 0, Object) && q.super == 0 && q.pos < |js| && u.Str? && |u.text| > 1
    requires js[q.pos] == u.text[1] && Ordinary(u.text[1])
    ensures Parse(js, q) == Failed(Inval) && u.text[1] != '"'
  {
    NotInObject(js, q);
    Stops(js, q);
  }

  lemma EscapedTorn(ms: Members, id1: string, id2: string, v: Value)
    requires MembersOk(ms) && HasKey(ms, id1) && From(ms, id1).value.Str? && From(ms, id1).value.text != ""
    requires From(ms, id1).value.text[0] == '\\' && StringOk(id2) && id2 != "" && ValueOk(v)
    ensures |From(ms, id1).value.text| > 1
    ensures Parse(Into(ms, id1, id2, v), Begin).Tokenized? <==> From(ms, id1).value.text[1] == '"'
  {
    hide *;
    var js, t, pos, p, b := Into(ms, id1, id2, v), Render(Obj(ms)), IntoPos(ms, id1), ValueOf(ms, id1), From(ms, id1);
    var n, u := |NewText(id2, v)|, b.value;
    ValueIs(ms, id1);
    IsInserted(ms, id1, id2, v);
    EscapedText(t, p, u);
    OrdinaryIs(t[pos]);
    TornText(t, pos, id2, v);
    NewAt(t, pos, id2, v);
    SameTwo(t, js, pos, p);
    NewString(js, p, pos, id2);
    var q := ToValue(js, ms, id1);
    var r := EscapedRead(js, q, id2, v);
    MovedAt(t, js, pos, n + 1);
    if u.text[1] == '"' {
      var w := Str(u.text[2..]);
      AtMoved(t, js, pos, n + 1, pos, Render(w));
      StringIsOk(w);
      StringIsOk(u);
      ValueStep(js, r, 0, Object, w);
      KeyAlone(js, r, w);
      AfterComma(t, js, pos, n + 1, p + |Render(u)|, After(r, w), b);
    } else {
      StringStops(js, r, u);
    }
  }

  lemma OrdinaryIs(c: char)
    requires c == '"' || Ordinary(c)
    ensures c != '}'
  {
  }

  lemma SameTwo(t: string, js: string, pos: nat, p: nat)
    requires pos == p + 2 < |t| && pos <= |js| && js[..pos] == t[..pos]
    ensures js[p] == t[p] && js[p + 1] == t[p + 1]
  {
    assert js[..pos][p] == t[..pos][p] && js[..pos][p + 1] == t[..pos][p + 1];
  }

  lemma StringIsOk(w: Value)
    requires w.Str?
    ensures ValueOk(w) <==> StringOk(w.text)
    ensures |Render(w)| == |w.text| + 2
  {
  }

  /** A string that stands where a key is expected leaves the object as it was. */
  lemma KeyAlone(js: string, p: Parser, w: Value)
    requires InC(js, p, 0, Object) && p.super == 0 && w.Str?
    ensures After(p, w).super == 0
  {
  }

  // ---- all together ----------------------------------------------------------------------------

  /** What the tokenizer makes of a new member one character into this value. */
  predicate Takes(u: Value) {
    match u
    case Arr(_) => true
    case Str(text) => text == "" || (|text| > 1 && text[0] == '\\' && text[1] == '"')
    case Prim(text) => |text| == 1
    case Obj(_) => true
  }

  lemma SpareTorn(ms: Members, id1: string, id2: string, v: Value)
    requires Good(ms) && ProperMembers(ms) && HasKey(ms, id1) && !From(ms, id1).value.Obj? && Spare(ms, id1)
    requires ValueOk(v) && Proper(v) && StringOk(id2) && id2 != "" && Ordinary(id2[0])
    ensures Parse(Into(ms, id1, id2, v), Begin).Tokenized?
  {
    hide IsText, Into, Spare, Append, Render, Parse;
    IntoIsDocument(ms, id1, id2, v);
    var w := Append(ms, id2, v);
    TextOf(Into(ms, id1, id2, v), w);
    WholeValue(Obj(w));
  }

  /** The value ends where the new member goes. */
  lemma BraceIsSpare(ms: Members, id1: string)
    requires MembersOk(ms) && HasKey(ms, id1) && Proper(From(ms, id1).value) && !From(ms, id1).value.Obj?
    requires From(ms, id1).value.Str? ==> From(ms, id1).value.text == ""
    requires IntoPos(ms, id1) < |Render(Obj(ms))| && Render(Obj(ms))[IntoPos(ms, id1)] == '}'
    ensures Spare(ms, id1)
  {
    hide *;
    var t, p, b, k := Render(Obj(ms)), ValueOf(ms, id1), From(ms, id1), 1 + |FrontText(Ahead(ms, id1))|;
    ValueIs(ms, id1);
    Placed(ms, id1);
    PlaceOf(ms, id1);
    SecondChar(t, p, b.value);
    LastValue(t, k, b);
    ScalarLength(b.value);
    SpareIf(ms, id1);
    FourKinds(b.value);
    if b.value.Arr? {
      ArrayAt(t, p, b.value);
      ElemFirst(t, p + 1, b.value.elems);
    }
  }

  lemma SpareTakes(ms: Members, id1: string)
    requires HasKey(ms, id1) && Spare(ms, id1)
    ensures Takes(From(ms, id1).value)
  {
  }

  lemma FromProper(ms: Members, id1: string)
    requires MembersOk(ms) && ProperMembers(ms) && HasKey(ms, id1)
    ensures Proper(From(ms, id1).value)
  {
    Parts(ms, id1);
    ProperJoin(Ahead(ms, id1), From(ms, id1));
  }

  /** The texts at hand are plain words and strings, the new name begins with a letter, say. A name
      and value that are written into a primitive make one word with it. */
  predicate Tame(ms: Members, id1: string, id2: string, v: Value)
    requires HasKey(ms, id1)
  {
    && Good(ms) && ProperMembers(ms) && ValueOk(v) && Proper(v) && StringOk(id2) && id2 != "" && Ordinary(id2[0])
    && (From(ms, id1).value.Prim? && !Spare(ms, id1) ==> Smooth(id2) && Smooth(Render(v)))
  }

  /** The new text is tokenized exactly when the value of `id1` is an array, the empty string, a
      string that begins with an escaped quote, or a primitive of one character. */
  lemma IntoTokenizes(ms: Members, id1: string, id2: string, v: Value)
    requires MembersOk(ms) && HasKey(ms, id1) && !From(ms, id1).value.Obj? && Tame(ms, id1, id2, v)
    ensures Parse(Into(ms, id1, id2, v), Begin).Tokenized? <==> Takes(From(ms, id1).value)
  {
    hide *;
    var u := From(ms, id1).value;
    TameIs(ms, id1, id2, v);
    Where(ms, id1);
    FourKinds(u);
    TakesIs(u);
    if u.Str? && u.text != "" {
      if u.text[0] == '\\' { EscapedTorn(ms, id1, id2, v); } else { PlainTorn(ms, id1, id2, v); }
    } else if Render(Obj(ms))[IntoPos(ms, id1)] == '}' {
      BraceIsSpare(ms, id1);
      SpareTakes(ms, id1);
      SpareTorn(ms, id1, id2, v);
    } else {
      OtherTorn(ms, id1, id2, v);
    }
  }

  lemma TameIs(ms: Members, id1: string, id2: string, v: Value)
    requires HasKey(ms, id1) && Tame(ms, id1, id2, v)
    ensures Good(ms) && ProperMembers(ms) && ValueOk(v) && Proper(v) && StringOk(id2) && id2 != "" && Ordinary(id2[0])
    ensures From(ms, id1).value.Prim? && !Spare(ms, id1) ==> Smooth(id2) && Smooth(Render(v))
  {
  }

  lemma OtherTorn(ms: Members, id1: string, id2: string, v: Value)
    requires MembersOk(ms) && HasKey(ms, id1) && Proper(From(ms, id1).value) && !From(ms, id1).value.Obj?
    requires From(ms, id1).value.Str? ==> From(ms, id1).value.text == ""
    requires ValueOk(v) && StringOk(id2)
    requires From(ms, id1).value.Prim? && !Spare(ms, id1) ==> Smooth(id2) && Smooth(Render(v))
    requires IntoPos(ms, id1) < |Render(Obj(ms))| && Render(Obj(ms))[IntoPos(ms, id1)] != '}'
    ensures Parse(Into(ms, id1, id2, v), Begin).Tokenized? <==> Takes(From(ms, id1).value)
  {
    hide *;
    var u := From(ms, id1).value;
    FourKinds(u);
    TakesIs(u);
    if u.Str? {
      EmptyIs(u);
      EmptyTorn(ms, id1, id2, v);
    } else if u.Arr? {
      ArrayTorn(ms, id1, id2, v);
    } else {
      if Spare(ms, id1) { SpareBrace(ms, id1); }
      PrimTorn(ms, id1, id2, v);
    }
  }

  lemma Where(ms: Members, id1: string)
    requires Good(ms) && ProperMembers(ms) && HasKey(ms, id1)
    ensures MembersOk(ms) && IntoPos(ms, id1) < |Render(Obj(ms))| && Proper(From(ms, id1).value)
  {
    Placed(ms, id1);
    FromProper(ms, id1);
  }

  lemma EmptyIs(u: Value)
    requires u.Str? && u.text == ""
    ensures u == Str("")
  {
  }

  lemma TakesIs(u: Value)
    ensures u.Arr? ==> Takes(u)
    ensures u.Prim? ==> (Takes(u) <==> |u.text| == 1)
    ensures u.Str? && u.text == "" ==> Takes(u)
    ensures u.Str? && u.text != "" && u.text[0] != '\\' ==> !Takes(u)
    ensures u.Str? && |u.text| > 1 && u.text[0] == '\\' ==> (Takes(u) <==> u.text[1] == '"')
  {
  }

  lemma SpareBrace(ms: Members, id1: string)
    requires MembersOk(ms) && HasKey(ms, id1) && IntoPos(ms, id1) < |Render(Obj(ms))| && Spare(ms, id1)
    ensures Render(Obj(ms))[IntoPos(ms, id1)] == '}'
  {
    SpareEnds(ms, id1);
    RenderObj(ms);
  }
}
