/**
 The texts of a label. In memory they are percent-encoded; in the file, characters that make
 no trouble in JSON stand for themselves; loading decodes and encodes them again.
 */
module DxText {
  import Jsmn

  predicate IsHex(c: char) { '0' <= c <= '9' || 'a' <= c <= 'f' || 'A' <= c <= 'F' }

  /** `HEXTOI` of the lower-case digit. */
  function HexValue(c: char): (v: nat)
    requires IsHex(c)
    ensures v < 16
  {
    if c <= '9' then c as nat - '0' as nat else if c >= 'a' then c as nat - 'W' as nat else c as nat - '7' as nat
  }

  /** A percent sign and two digits. */
  predicate Escape(s: string) { |s| >= 3 && s[0] == '%' && IsHex(s[1]) && IsHex(s[2]) }

  function Escaped(s: string): (c: char)
    requires Escape(s)
    ensures c as nat < 256
  {
    (16 * HexValue(s[1]) + HexValue(s[2])) as char
  }

  /** `mg_url_decode`. */
  function Decode(s: string): string {
    if s == "" then "" else if Escape(s) then [Escaped(s)] + Decode(s[3..]) else [s[0]] + Decode(s[1..])
  }

  /** Control characters, `"`, `%`, `\`, and all from `DEL` on stay encoded in the file. */
  predicate Stays(c: char) { c < ' ' || c == '"' || c == '%' || c == '\\' || c as nat >= 0x7f }

  /** `kiwi_url_decode_selective`, decoding as much as it may. */
  function Selective(s: string): string {
    if s == "" then ""
    else if Escape(s) && !Stays(Escaped(s)) then [Escaped(s)] + Selective(s[3..])
    else [s[0]] + Selective(s[1..])
  }

  predicate Unreserved(c: char) {
    '0' <= c <= '9' || 'a' <= c <= 'z' || 'A' <= c <= 'Z' || c in "._-$,;~()"
  }

  function Hex(n: nat): char
    requires n < 16
  {
    "0123456789abcdef"[n]
  }

  /** `mg_url_encode`. */
  function Encode(s: string): string {
    if s == "" then ""
    else if Unreserved(s[0]) then [s[0]] + Encode(s[1..])
    else ['%', Hex(s[0] as nat / 16 % 16), Hex(s[0] as nat % 16)] + Encode(s[1..])
  }

  predicate Bytes(s: string) { forall i :: 0 <= i < |s| ==> s[i] as nat < 256 }

  /** A string of C ends at the first zero. */
  function CString(s: string): (t: string)
    ensures '\0' !in t && ('\0' !in s ==> t == s) && (Bytes(s) ==> Bytes(t))
  {
    if s == "" || s[0] == '\0' then "" else [s[0]] + CString(s[1..])
  }

  /** A backslash directly before a quote. */
  predicate QuotesEscaped(s: string) {
    exists i :: 0 <= i < |s| - 1 && s[i] == '\\' && IsQuote(s[i + 1])
  }

  predicate IsQuote(c: char) { c == '"' || c == '\'' }

  /** `kiwi_str_unescape_quotes`. */
  function Unescape(s: string): (t: string)
    ensures |t| <= |s| && (Bytes(s) ==> Bytes(t)) && ('\0' !in s ==> '\0' !in t)
  {
    if |s| < 2 then s
    else if s[0] == '\\' && IsQuote(s[1]) then [s[1]] + Unescape(s[2..])
    else [s[0]] + Unescape(s[1..])
  }

  lemma {:induction false} UnescapeKeeps(s: string)
    ensures |Unescape(s)| == |s| <==> !QuotesEscaped(s)
    ensures Unescape(s) == s <==> !QuotesEscaped(s)
  {
    if |s| >= 2 {
      if s[0] == '\\' && IsQuote(s[1]) {
        assert |Unescape(s)| == 1 + |Unescape(s[2..])|;
      } else {
        UnescapeKeeps(s[1..]);
        LaterQuotes(s);
      }
    }
  }

  lemma LaterQuotes(s: string)
    requires |s| >= 2 && !(s[0] == '\\' && IsQuote(s[1]))
    ensures QuotesEscaped(s) <==> QuotesEscaped(s[1..])
  {
    if QuotesEscaped(s) {
      var i :| 0 <= i < |s| - 1 && s[i] == '\\' && IsQuote(s[i + 1]);
      assert s[1..][i - 1] == '\\' && s[1..][i - 1 + 1] == s[i + 1];
    }
    if QuotesEscaped(s[1..]) {
      var i :| 0 <= i < |s[1..]| - 1 && s[1..][i] == '\\' && IsQuote(s[1..][i + 1]);
      assert s[i + 1] == '\\' && s[i + 1 + 1] == s[1..][i + 1];
    }
  }

  // ---- what the encodings keep -----------------------------------------------------------

  /** What `encodeURIComponent` and `mg_url_encode` make: every percent sign begins an escape,
      and quotes, backslashes and line breaks are escaped. */
  predicate Proper(s: string) {
    s == "" || if s[0] == '%' then Escape(s) && Proper(s[3..])
               else !Breaks(s[0]) && s[0] as nat < 256 && Proper(s[1..])
  }

  predicate Breaks(c: char) { c == '"' || c == '\\' || c == '\n' || c == '\0' }

  lemma HexIs(n: nat)
    requires n < 16
    ensures IsHex(Hex(n)) && HexValue(Hex(n)) == n
  {
  }

  lemma EncodedChar(c: char, more: string)
    requires c as nat < 256 && Proper(more)
    ensures var r := ['%', Hex(c as nat / 16 % 16), Hex(c as nat % 16)] + more;
            Proper(r) && Decode(r) == [c] + Decode(more)
  {
    HexIs(c as nat / 16); HexIs(c as nat % 16);
    assert c as nat / 16 % 16 == c as nat / 16;
    var r := ['%', Hex(c as nat / 16), Hex(c as nat % 16)] + more;
    hide Hex, HexValue, IsHex;
    assert r[3..] == more && Escape(r) && Escaped(r) == c;
  }

  lemma {:induction false} EncodeKeeps(s: string)
    requires Bytes(s)
    ensures Proper(Encode(s)) && Decode(Encode(s)) == s
  {
    if s != "" {
      var c, more := s[0], Encode(s[1..]);
      EncodeKeeps(s[1..]);
      if Unreserved(c) {
        assert ([c] + more)[1..] == more;
      } else {
        EncodedChar(c, more);
      }
      assert [c] + s[1..] == s;
    }
  }

  /** Decoding some escapes early changes nothing: what stays encoded includes the percent sign. */
  lemma {:induction false} SelectiveKeeps(s: string)
    requires Proper(s)
    ensures Decode(Selective(s)) == Decode(s)
    ensures forall c :: c in Selective(s) ==> !Breaks(c)
  {
    if s != "" {
      if s[0] == '%' {
        var more := Selective(s[3..]);
        SelectiveKeeps(s[3..]);
        if Stays(Escaped(s)) { KeptEscape(s); } else { PlainStep(Escaped(s), more); }
      } else {
        SelectiveKeeps(s[1..]);
        PlainStep(s[0], Selective(s[1..]));
      }
    }
  }

  /** Text of harmless characters stands for itself in the file. */
  lemma {:induction false} SelectiveEncode(s: string)
    requires forall c :: c in s ==> !Stays(c)
    ensures Selective(Encode(s)) == s && Bytes(s)
  {
    if s != "" {
      assert s[0] in s && forall c :: c in s[1..] ==> c in s;
      SelectiveEncode(s[1..]);
      var c, more := s[0], Encode(s[1..]);
      assert [c] + s[1..] == s;
      if Unreserved(c) { assert ([c] + more)[1..] == more; } else { EscapeDecodes(c, more); }
    }
  }

  lemma EscapeDecodes(c: char, more: string)
    requires !Stays(c)
    ensures Selective(['%', Hex(c as nat / 16 % 16), Hex(c as nat % 16)] + more) == [c] + Selective(more)
  {
    HexIs(c as nat / 16); HexIs(c as nat % 16);
    assert c as nat / 16 % 16 == c as nat / 16;
    var r := ['%', Hex(c as nat / 16), Hex(c as nat % 16)] + more;
    hide Hex, HexValue, IsHex;
    assert r[3..] == more && Escape(r) && Escaped(r) == c;
  }

  lemma PlainStep(c: char, more: string)
    requires c != '%'
    ensures Decode([c] + more) == [c] + Decode(more)
  {
    assert ([c] + more)[1..] == more;
  }

  lemma KeptEscape(s: string)
    requires Escape(s) && Stays(Escaped(s))
    ensures Selective(s) == s[..3] + Selective(s[3..])
    ensures Decode(Selective(s)) == [Escaped(s)] + Decode(Selective(s[3..]))
  {
    var more := Selective(s[3..]);
    assert s[1..][1..] == s[2..] && s[2..][1..] == s[3..];
    assert !Escape(s[1..]) && !Escape(s[2..]);
    assert Selective(s[2..]) == [s[2]] + more;
    assert Selective(s[1..]) == [s[1]] + Selective(s[2..]);
    assert Selective(s) == [s[0]] + Selective(s[1..]) == s[..3] + more;
    assert (s[..3] + more)[3..] == more && Escape(s[..3] + more);
  }

  lemma {:induction false} NoQuotes(s: string)
    requires forall c :: c in s ==> c != '"' && c != '\\'
    ensures Jsmn.StringOk(s)
  {
    if s != "" {
      assert s[0] in s && forall c :: c in s[1..] ==> c in s;
      NoQuotes(s[1..]);
    }
  }

  lemma {:induction false} DecodeBytes(s: string)
    requires Proper(s)
    ensures Bytes(Decode(s))
  {
    if s != "" { if s[0] == '%' { DecodeBytes(s[3..]); } else { DecodeBytes(s[1..]); } }
  }

  // ---- a label text in the file ------------------------------------------------------------

  /** What a user reads. */
  function Shown(e: string): (t: string) { CString(Decode(e)) }

  /** What loading makes of the string in the file. */
  function LoadedText(s: string): string { Encode(Unescape(CString(Decode(s)))) }

  /** A text saved is a JSON string that ends at its own quote; loaded, it reads the same
      exactly if no backslash stands directly before a quote, and is shorter otherwise. */
  lemma TextSurvives(e: string)
    requires Proper(e)
    ensures Jsmn.StringOk(Selective(e))
    ensures var r := LoadedText(Selective(e));
            && Proper(r) && Shown(r) == Unescape(Shown(e))
            && (Shown(r) == Shown(e) <==> !QuotesEscaped(Shown(e)))
            && (r == Encode(Shown(e)) <==> !QuotesEscaped(Shown(e)))
            && (QuotesEscaped(Shown(e)) ==> |Shown(r)| < |Shown(e)|)
  {
    SelectiveKeeps(e);
    NoQuotes(Selective(e));
    DecodeBytes(e);
    var t := Unescape(Shown(e));
    UnescapeKeeps(Shown(e));
    EncodeKeeps(t);
    EncodeKeeps(Shown(e));
  }
}
