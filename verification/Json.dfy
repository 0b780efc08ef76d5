/**
 JSON values (section 3 of RFC 8259) together with the blanks around them, as text and as
 the token list that the tokenizer makes of the text.
 */
module Json {
  import opened Optional

  datatype Value = Prim(text: string) | Str(text: string) | Arr(elems: Elems) | Obj(members: Members)

  datatype Elems = NoElem | Elem(pre: string, value: Value, post: string, more: Elems)

  /** `pre "key": mid value post`, with commas between members. */
  datatype Members = NoMember | Member(pre: string, key: string, mid: string, value: Value, post: string, more: Members)

  // ---- text -------------------------------------------------------------------------

  function Render(v: Value): string {
    match v
    case Prim(text) => text
    case Str(text) => "\"" + text + "\""
    case Arr(es) => "[" + RenderElems(es) + "]"
    case Obj(ms) => "{" + RenderMembers(ms) + "}"
  }

  function RenderElems(es: Elems): string {
    match es
    case NoElem => ""
    case Elem(pre, v, post, more) => pre + Render(v) + post + (if more.NoElem? then "" else "," + RenderElems(more))
  }

  function RenderMembers(ms: Members): string {
    match ms
    case NoMember => ""
    case Member(pre, key, mid, v, post, more) =>
      pre + "\"" + key + "\":" + mid + Render(v) + post + (if more.NoMember? then "" else "," + RenderMembers(more))
  }

  // ---- tokens -----------------------------------------------------------------------

  datatype Kind = Undefined | Object | Array | String | Primitive

  /** `jsmntok_t`: `end` is exclusive, quotes of strings are outside; `size` is the number
      of members or elements, and 1 for a key. */
  datatype Token = Token(kind: Kind, start: int, end: int, size: int)

  predicate IsId(t: Token) { t.kind == String && t.size == 1 }

  function CountMembers(ms: Members): nat {
    if ms.NoMember? then 0 else 1 + CountMembers(ms.more)
  }

  function CountElems(es: Elems): nat {
    if es.NoElem? then 0 else 1 + CountElems(es.more)
  }

  function Tokens(v: Value, pos: nat): (ts: seq<Token>)
    ensures |ts| >= 1
  {
    match v
    case Prim(text) => [Token(Primitive, pos, pos + |text|, 0)]
    case Str(text) => [Token(String, pos + 1, pos + 1 + |text|, 0)]
    case Arr(es) => [Token(Array, pos, pos + |Render(v)|, CountElems(es))] + ElemTokens(es, pos + 1)
    case Obj(ms) => [Token(Object, pos, pos + |Render(v)|, CountMembers(ms))] + MemberTokens(ms, pos + 1)
  }

  function ElemTokens(es: Elems, pos: nat): seq<Token> {
    match es
    case NoElem => []
    case Elem(pre, v, post, more) =>
      Tokens(v, pos + |pre|) + ElemTokens(more, pos + |pre| + |Render(v)| + |post| + 1)
  }

  /** Where the value of the first member is. */
  function ValuePos(ms: Members, pos: nat): nat
    requires ms.Member?
  {
    pos + |ms.pre| + |ms.key| + 3 + |ms.mid|
  }

  function MorePos(ms: Members, pos: nat): nat
    requires ms.Member?
  {
    ValuePos(ms, pos) + |Render(ms.value)| + |ms.post| + 1
  }

  function KeyToken(ms: Members, pos: nat): Token
    requires ms.Member?
  {
    Token(String, pos + |ms.pre| + 1, pos + |ms.pre| + 1 + |ms.key|, 1)
  }

  function MemberTokens(ms: Members, pos: nat): seq<Token> {
    if ms.NoMember? then []
    else [KeyToken(ms, pos)] + Tokens(ms.value, ValuePos(ms, pos)) + MemberTokens(ms.more, MorePos(ms, pos))
  }

  predicate IsScalar(v: Value) { v.Prim? || v.Str? }

  // ---- nesting and members ----------------------------------------------------------

  function Max(a: nat, b: nat): nat { if a > b then a else b }

  /** How many objects and arrays are open at most. */
  function Nesting(v: Value): nat {
    match v
    case Prim(_) => 0
    case Str(_) => 0
    case Arr(es) => 1 + ElemNesting(es)
    case Obj(ms) => 1 + MemberNesting(ms)
  }

  function ElemNesting(es: Elems): nat {
    if es.NoElem? then 0 else Max(Nesting(es.value), ElemNesting(es.more))
  }

  function MemberNesting(ms: Members): nat {
    if ms.NoMember? then 0 else Max(Nesting(ms.value), MemberNesting(ms.more))
  }

  /** The value of the first member with this key. */
  function Find(ms: Members, key: string): Option<Value> {
    match ms
    case NoMember => None
    case Member(_, k, _, v, _, more) => if k == key then Some(v) else Find(more, key)
  }

  /** `id1.id2`: the member `id2` of the object that `id1` names. */
  function Find2(ms: Members, id1: string, id2: string): Option<Value> {
    var v := Find(ms, id1);
    if v.Some? && v.value.Obj? then Find(v.value.members, id2) else None
  }
}
