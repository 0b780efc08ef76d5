/**
 Subframes of the L1 C/A message: ten chained words behind a preamble. `Verdict` says what
 the channel must make of 300 raw bits; `EncodeSubframe` is the transmitter of
 IS-GPS-200 sections 20.3.3 and 20.3.5.
 */
module NavFrame {
  import opened NavParity

  const SUBFRAME := 300
  const PREAMBLE: Bits := [1, 0, 0, 0, 1, 0, 1, 1]
  const INVERSE: Bits := [0, 1, 1, 1, 0, 1, 0, 0]

  function Word(raw: Bits, i: nat): (w: Bits)
    requires WORD * i + WORD <= |raw|
    ensures |w| == WORD
  {
    raw[WORD * i..WORD * i + WORD]
  }

  /** The last two bits sent before word `i`; `p` stands for both before word 0. */
  function D29(raw: Bits, i: nat, p: Bit): Bit
    requires WORD * i <= |raw|
  {
    if i == 0 then p else raw[WORD * i - 2]
  }

  function D30(raw: Bits, i: nat, p: Bit): Bit
    requires WORD * i <= |raw|
  {
    if i == 0 then p else raw[WORD * i - 1]
  }

  predicate GoodWord(raw: Bits, i: nat, p: Bit)
    requires WORD * i + WORD <= |raw|
  {
    WordOk(Word(raw, i), D29(raw, i, p), D30(raw, i, p))
  }

  /** Word `i` as the parity check leaves it in the buffer. */
  function Unmasked(raw: Bits, i: nat, p: Bit): (w: Bits)
    requires WORD * i + WORD <= |raw|
    ensures |w| == WORD
  {
    Unmask(Word(raw, i), D30(raw, i, p))
  }

  /** The first `n` words, unmasked. */
  function Decoded(raw: Bits, n: nat, p: Bit): (d: Bits)
    requires WORD * n <= |raw|
    ensures |d| == WORD * n
  {
    if n == 0 then [] else Decoded(raw, n - 1, p) + Unmasked(raw, n - 1, p)
  }

  /** Index of the first bad word at or after `i`, or 10. */
  function FirstBad(raw: Bits, i: nat, p: Bit): (b: nat)
    requires |raw| == SUBFRAME && i <= 10
    ensures i <= b <= 10
    decreases 10 - i
  {
    if i == 10 || !GoodWord(raw, i, p) then i else FirstBad(raw, i + 1, p)
  }

  lemma {:induction false} FirstBadIsFirst(raw: Bits, i: nat, p: Bit, k: nat)
    requires |raw| == SUBFRAME && i <= k < 10 && FirstBad(raw, i, p) >= k
    ensures GoodWord(raw, k, p) <==> FirstBad(raw, i, p) > k
    decreases k - i
  {
    if i < k { FirstBadIsFirst(raw, i + 1, p, k); }
  }

  lemma {:induction false} NoneBad(raw: Bits, i: nat, p: Bit)
    requires |raw| == SUBFRAME && i <= 10
    requires forall k :: i <= k < 10 ==> GoodWord(raw, k, p)
    ensures FirstBad(raw, i, p) == 10
    decreases 10 - i
  {
    if i < 10 { NoneBad(raw, i + 1, p); }
  }

  type WordIndex = i: nat | i < 10
  type SubframeBits = d: Bits | |d| == SUBFRAME witness seq(SUBFRAME, _ => 0)

  datatype Verdict =
    | NoPreamble
    | BadWord(word: WordIndex)      // first word whose parity is wrong
    | Good(data: SubframeBits)      // all 300 bits, unmasked

  predicate HasPreamble(raw: Bits)
    requires 8 <= |raw|
  {
    raw[..8] == PREAMBLE || raw[..8] == INVERSE
  }

  /** The parity bits assumed before the first word resolve the phase ambiguity. */
  function Phase(raw: Bits): Bit
    requires 8 <= |raw|
  {
    if raw[..8] == PREAMBLE then 0 else 1
  }

  function Judge(raw: Bits): (v: Verdict)
    requires |raw| == SUBFRAME
  {
    if !HasPreamble(raw) then NoPreamble
    else
      var b := FirstBad(raw, 0, Phase(raw));
      if b < 10 then BadWord(b) else Good(Decoded(raw, b, Phase(raw)))
  }

  /** The 24 data bits of word `i` of 300 unmasked bits. */
  function DataWord(d: Bits, i: nat): (w: Bits)
    requires WORD * i + WORD <= |d|
    ensures |w| == DATA
  {
    d[WORD * i..WORD * i + DATA]
  }

  lemma {:induction false} DecodedWord(raw: Bits, n: nat, p: Bit, i: nat)
    requires i < n && WORD * n <= |raw|
    ensures Word(Decoded(raw, n, p), i) == Unmasked(raw, i, p)
    ensures DataWord(Decoded(raw, n, p), i) == Unmasked(raw, i, p)[..DATA]
  {
    var d := Decoded(raw, n, p);
    if i < n - 1 {
      DecodedWord(raw, n - 1, p, i);
      assert Word(d, i) == Word(Decoded(raw, n - 1, p), i);
    } else {
      assert Word(d, i) == Unmasked(raw, i, p);
    }
    assert DataWord(d, i) == Word(d, i)[..DATA];
  }

  // ---- the transmitter --------------------------------------------------------------

  predicate DataWords(ws: seq<Bits>)
  {
    |ws| == 10 && (forall i :: 0 <= i < 10 ==> |ws[i]| == DATA) && ws[0][..8] == PREAMBLE
  }

  /** The first `n` words sent; before word 0 both carried bits are 0. */
  function Sent(ws: seq<Bits>, n: nat): (raw: Bits)
    requires DataWords(ws) && n <= 10
    ensures |raw| == WORD * n
  {
    if n == 0 then []
    else
      var s := Sent(ws, n - 1);
      s + EncodeWord(ws[n - 1], D29(s, n - 1, 0), D30(s, n - 1, 0))
  }

  function EncodeSubframe(ws: seq<Bits>): (raw: Bits)
    requires DataWords(ws)
    ensures |raw| == SUBFRAME
  {
    Sent(ws, 10)
  }

  lemma {:induction false} SentWord(ws: seq<Bits>, n: nat, i: nat)
    requires DataWords(ws) && i < n <= 10
    ensures GoodWord(Sent(ws, n), i, 0)
    ensures Unmasked(Sent(ws, n), i, 0)[..DATA] == ws[i]
  {
    var s, r := Sent(ws, n - 1), Sent(ws, n);
    assert r == s + EncodeWord(ws[n - 1], D29(s, n - 1, 0), D30(s, n - 1, 0));
    assert D29(s, i, 0) == D29(r, i, 0) && D30(s, i, 0) == D30(r, i, 0);
    hide WordOk, EncodeWord, Unmask, Sent, D29, D30;
    if i < n - 1 {
      SentWord(ws, n - 1, i);
      assert Word(r, i) == Word(s, i);
    } else {
      EncodedWordAccepted(ws[i], D29(s, i, 0), D30(s, i, 0));
      assert Word(r, i) == EncodeWord(ws[i], D29(s, i, 0), D30(s, i, 0));
    }
  }

  lemma {:induction false} SentPrefix(ws: seq<Bits>, n: nat)
    requires DataWords(ws) && 1 <= n <= 10
    ensures Sent(ws, n)[..8] == PREAMBLE
  {
    if n > 1 {
      SentPrefix(ws, n - 1);
      assert Sent(ws, n)[..8] == Sent(ws, n - 1)[..8];
    } else {
      assert Sent(ws, 1)[..8] == Flip(ws[0], 0)[..8] == ws[0][..8];
    }
  }

  /** Whatever ten data words are sent, they are accepted and recovered. */
  lemma SentSubframeAccepted(ws: seq<Bits>)
    requires DataWords(ws)
    ensures var v := Judge(EncodeSubframe(ws));
            v.Good? && forall i :: 0 <= i < 10 ==> DataWord(v.data, i) == ws[i]
  {
    var raw := EncodeSubframe(ws);
    SentPrefix(ws, 10);
    forall i | 0 <= i < 10
      ensures GoodWord(raw, i, 0) && DataWord(Decoded(raw, 10, 0), i) == ws[i]
    {
      SentWord(ws, 10, i);
      DecodedWord(raw, 10, 0, i);
    }
    NoneBad(raw, 0, 0);
  }

  // ---- phase ambiguity --------------------------------------------------------------

  lemma InvertedGoodWord(raw: Bits, i: nat, p: Bit)
    requires WORD * i + WORD <= |raw|
    ensures GoodWord(Flip(raw, 1), i, 1 - p) == GoodWord(raw, i, p)
    ensures Unmasked(Flip(raw, 1), i, 1 - p)[..DATA] == Unmasked(raw, i, p)[..DATA]
  {
    InvertedWord(Word(raw, i), D29(raw, i, p), D30(raw, i, p));
    assert Word(Flip(raw, 1), i) == Flip(Word(raw, i), 1);
  }

  lemma {:induction false} InvertedFirstBad(raw: Bits, i: nat, p: Bit)
    requires |raw| == SUBFRAME && i <= 10
    ensures FirstBad(Flip(raw, 1), i, 1 - p) == FirstBad(raw, i, p)
    decreases 10 - i
  {
    if i < 10 {
      InvertedGoodWord(raw, i, p);
      InvertedFirstBad(raw, i + 1, p);
    }
  }

  /** Two judgements that agree on everything but the unmasked parity bits. */
  predicate SameJudgement(u: Verdict, v: Verdict)
  {
    if u.Good? then v.Good? && forall i :: 0 <= i < 10 ==> DataWord(u.data, i) == DataWord(v.data, i)
    else u == v
  }

  /** A receiver that sees every bit inverted reaches the same judgement. */
  lemma InvertedSubframe(raw: Bits)
    requires |raw| == SUBFRAME
    ensures SameJudgement(Judge(raw), Judge(Flip(raw, 1)))
  {
    var inv := Flip(raw, 1);
    assert inv[..8] == Flip(raw[..8], 1);
    assert Flip(PREAMBLE, 1) == INVERSE && Flip(INVERSE, 1) == PREAMBLE;
    assert Flip(Flip(raw[..8], 1), 1) == raw[..8];
    if HasPreamble(raw) {
      var p := Phase(raw);
      assert Phase(inv) == 1 - p;
      InvertedFirstBad(raw, 0, p);
      forall i | 0 <= i < 10
        ensures DataWord(Decoded(raw, 10, p), i) == DataWord(Decoded(inv, 10, 1 - p), i)
      {
        InvertedGoodWord(raw, i, p);
        DecodedWord(raw, 10, p, i);
        DecodedWord(inv, 10, 1 - p, i);
      }
    }
  }

  // ---- nothing else is accepted -----------------------------------------------------

  /** The data words of 300 accepted bits. */
  function Payload(raw: Bits, p: Bit): (ws: seq<Bits>)
    requires |raw| == SUBFRAME
    ensures |ws| == 10 && forall i :: 0 <= i < 10 ==> |ws[i]| == DATA && ws[i] == Unmasked(raw, i, p)[..DATA]
  {
    seq(10, i requires 0 <= i < 10 => Unmasked(raw, i, p)[..DATA])
  }

  lemma {:induction false} ResentPrefix(raw: Bits, n: nat)
    requires |raw| == SUBFRAME && n <= 10 && raw[..8] == PREAMBLE
    requires forall i :: 0 <= i < 10 ==> GoodWord(raw, i, 0)
    ensures DataWords(Payload(raw, 0))
    ensures Sent(Payload(raw, 0), n) == raw[..WORD * n]
  {
    var ws := Payload(raw, 0);
    assert ws[0][..8] == PREAMBLE by {
      assert Flip(Word(raw, 0)[..DATA], 0) == Word(raw, 0)[..DATA];
      assert ws[0][..8] == raw[..8];
    }
    if n > 0 {
      ResentPrefix(raw, n - 1);
      var i := n - 1;
      assert GoodWord(raw, i, 0);
      assert D29(raw, i, 0) == D29(raw[..WORD * i], i, 0) && D30(raw, i, 0) == D30(raw[..WORD * i], i, 0);
      AcceptedWordEncodes(Word(raw, i), D29(raw, i, 0), D30(raw, i, 0));
      assert raw[..WORD * n] == raw[..WORD * i] + Word(raw, i);
    }
  }

  lemma UprightAcceptedIsSent(raw: Bits)
    requires |raw| == SUBFRAME && Judge(raw).Good? && raw[..8] == PREAMBLE
    ensures DataWords(Payload(raw, 0)) && raw == EncodeSubframe(Payload(raw, 0))
  {
    forall k | 0 <= k < 10
      ensures GoodWord(raw, k, 0)
    {
      FirstBadIsFirst(raw, 0, 0, k);
    }
    ResentPrefix(raw, 10);
    assert raw[..WORD * 10] == raw;
  }

  /** The accepted bit strings are exactly the subframes a transmitter can send, upright or
      inverted. */
  lemma AcceptedIffSent(raw: Bits)
    requires |raw| == SUBFRAME
    ensures Judge(raw).Good? <==>
            exists ws :: DataWords(ws) && (raw == EncodeSubframe(ws) || raw == Flip(EncodeSubframe(ws), 1))
  {
    if Judge(raw).Good? {
      if raw[..8] == PREAMBLE {
        UprightAcceptedIsSent(raw);
      } else {
        var inv := Flip(raw, 1);
        InvertedSubframe(raw);
        assert inv[..8] == Flip(raw[..8], 1) == PREAMBLE;
        UprightAcceptedIsSent(inv);
        assert raw == Flip(inv, 1);
      }
    }
    if ws :| DataWords(ws) && (raw == EncodeSubframe(ws) || raw == Flip(EncodeSubframe(ws), 1)) {
      SentSubframeAccepted(ws);
      InvertedSubframe(EncodeSubframe(ws));
    }
  }
}
