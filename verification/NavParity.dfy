/**
 The 30-bit words of the GPS L1 C/A navigation message: the parity equations of
 `L1_parity` against the generator table of IS-GPS-200 section 20.3.5.2.
 */
module NavParity {

  /** One NAV bit, kept as the source keeps it: a `char` that is 0 or 1. */
  type Bit = b: int | b == 0 || b == 1
  type Bits = seq<Bit>

  const WORD := 30
  const DATA := 24

  function Xor(a: Bit, b: Bit): Bit { if a == b then 0 else 1 }

  /** Every bit XORed with `k`. */
  function Flip(s: Bits, k: Bit): (r: Bits)
    ensures |r| == |s|
    ensures forall i :: 0 <= i < |s| ==> r[i] == Xor(s[i], k)
  {
    seq(|s|, i requires 0 <= i < |s| => Xor(s[i], k))
  }

  // ---- the reference: the generator table -------------------------------------------

  /** Whether bit `i` of a word takes part in the equation of parity bit D(25+r): bits 0 to
      23 are d1 to d24, bits 24 to 29 the parity bits themselves. */
  predicate Tap(r: nat, i: nat)
    requires r < 6 && i < WORD
  {
    if r == 0 then i in {0, 1, 2, 4, 5, 9, 10, 11, 12, 13, 16, 17, 19, 22, 24}
    else if r == 1 then i in {1, 2, 3, 5, 6, 10, 11, 12, 13, 14, 17, 18, 20, 23, 25}
    else if r == 2 then i in {0, 2, 3, 4, 6, 7, 11, 12, 13, 14, 15, 18, 19, 21, 26}
    else if r == 3 then i in {1, 3, 4, 5, 7, 8, 12, 13, 14, 15, 16, 19, 20, 22, 27}
    else if r == 4 then i in {0, 2, 4, 5, 6, 8, 9, 13, 14, 15, 16, 17, 20, 21, 23, 28}
    else i in {2, 4, 5, 7, 8, 9, 10, 12, 14, 18, 21, 22, 23, 29}
  }

  /** The bit of the previous word that starts the equation of D(25+r). */
  function Carry(r: nat, D29: Bit, D30: Bit): Bit
    requires r < 6
  {
    if r == 0 || r == 2 || r == 5 then D29 else D30
  }

  /** XOR of `c` and the first `n` bits of `e` that take part in equation `r`. */
  function Row(e: Bits, c: Bit, r: nat, n: nat): Bit
    requires n <= |e| <= WORD && r < 6
    decreases n
  {
    if n == 0 then c
    else if Tap(r, n - 1) then Xor(Row(e, c, r, n - 1), e[n - 1])
   
    else Row(e, c, r, n - 1)
  }

  /** The six parity bits of 24 source bits. */
  function Parity(d: Bits, D29: Bit, D30: Bit): (p: Bits)
    requires |d| == DATA
    ensures |p| == 6
  {
    seq(6, r requires 0 <= r < 6 => Row(d, Carry(r, D29, D30), r, |d|))
  }

  /** The transmitter: 24 source bits and the last two bits sent before make a word. */
  function EncodeWord(d: Bits, D29: Bit, D30: Bit): (w: Bits)
    requires |d| == DATA
    ensures |w| == WORD
  {
    Flip(d, D30) + Parity(d, D29, D30)
  }

  /** A received word with D30 taken off its data bits: what the code leaves in its buffer. */
  function Unmask(w: Bits, D30: Bit): (e: Bits)
    requires |w| == WORD
    ensures |e| == WORD
  {
    Flip(w[..DATA], D30) + w[DATA..]
  }

  /** A word is acceptable when its parity bits are those of the source bits it carries. */
  predicate WordOk(w: Bits, D29: Bit, D30: Bit)
    requires |w| == WORD
  {
    w[DATA..] == Parity(Unmask(w, D30)[..DATA], D29, D30)
  }

  // ---- properties of the table ------------------------------------------------------

  /** What is sent is accepted, and only the sent parity bits are accepted for its data. */
  lemma EncodedWordAccepted(d: Bits, D29: Bit, D30: Bit)
    requires |d| == DATA
    ensures WordOk(EncodeWord(d, D29, D30), D29, D30)
    ensures Unmask(EncodeWord(d, D29, D30), D30)[..DATA] == d
  {
    assert Unmask(EncodeWord(d, D29, D30), D30)[..DATA] == d;
  }

  lemma AcceptedWordEncodes(w: Bits, D29: Bit, D30: Bit)
    requires |w| == WORD && WordOk(w, D29, D30)
    ensures w == EncodeWord(Unmask(w, D30)[..DATA], D29, D30)
  {
  }

  lemma {:induction false} FlipCarry(e: Bits, c: Bit, r: nat, n: nat)
    requires n <= |e| <= WORD && r < 6
    ensures Row(e, 1 - c, r, n) == 1 - Row(e, c, r, n)
  {
    if n > 0 { FlipCarry(e, c, r, n - 1); }
  }

  /** Inverting a word and the two bits before it changes neither verdict nor data. */
  lemma InvertedWord(w: Bits, D29: Bit, D30: Bit)
    requires |w| == WORD
    ensures WordOk(Flip(w, 1), 1 - D29, 1 - D30) == WordOk(w, D29, D30)
    ensures Unmask(Flip(w, 1), 1 - D30)[..DATA] == Unmask(w, D30)[..DATA]
  {
    var v, d := Flip(w, 1), Unmask(w, D30)[..DATA];
    assert Unmask(v, 1 - D30)[..DATA] == d;
    forall r | 0 <= r < 6
      ensures Parity(d, 1 - D29, 1 - D30)[r] == 1 - Parity(d, D29, D30)[r]
      ensures v[DATA..][r] == 1 - w[DATA..][r]
    {
      FlipCarry(d, Carry(r, D29, D30), r, DATA);
    }
    if WordOk(w, D29, D30) {
      assert v[DATA..] == Parity(d, 1 - D29, 1 - D30);
    }
    if WordOk(v, 1 - D29, 1 - D30) {
      assert w[DATA..] == Parity(d, D29, D30);
    }
  }

  // ---- error detection --------------------------------------------------------------

  function FlipAt(w: Bits, i: nat): (v: Bits)
    requires i < |w|
    ensures |v| == |w|
  {
    w[i := 1 - w[i]]
  }

  lemma {:induction false} RowPrefix(d: Bits, e: Bits, c: Bit, r: nat, n: nat)
    requires n <= |d| <= WORD && n <= |e| <= WORD && r < 6 && d[..n] == e[..n]
    ensures Row(d, c, r, n) == Row(e, c, r, n)
  {
    if n > 0 {
      assert d[..n - 1] == d[..n][..n - 1] == e[..n - 1];
      assert d[n - 1] == d[..n][n - 1] == e[n - 1];
      RowPrefix(d, e, c, r, n - 1);
    }
  }

  /** Equation `r` with its own parity bit moved to the other side. */
  function Syndrome(w: Bits, r: nat, D29: Bit, D30: Bit): Bit
    requires |w| == WORD && r < 6
  {
    Row(Unmask(w, D30), Carry(r, D29, D30), r, WORD)
  }

  lemma {:induction false} NoTap(e: Bits, c: Bit, r: nat, lo: nat, hi: nat)
    requires lo <= hi <= |e| <= WORD && r < 6
    requires forall i :: lo <= i < hi ==> !Tap(r, i)
    ensures Row(e, c, r, hi) == Row(e, c, r, lo)
  {
    if lo < hi { NoTap(e, c, r, lo, hi - 1); }
  }

  lemma SyndromeZero(w: Bits, r: nat, D29: Bit, D30: Bit)
    requires |w| == WORD && r < 6
    ensures Syndrome(w, r, D29, D30) == 0 <==> w[DATA..][r] == Parity(Unmask(w, D30)[..DATA], D29, D30)[r]
  {
    var e, c := Unmask(w, D30), Carry(r, D29, D30);
    RowPrefix(e[..DATA], e, c, r, DATA);
    NoTap(e, c, r, DATA, DATA + r);
    NoTap(e, c, r, DATA + r + 1, WORD);
  }

  lemma OkIsZero(w: Bits, D29: Bit, D30: Bit)
    requires |w| == WORD
    ensures WordOk(w, D29, D30) <==> forall r :: 0 <= r < 6 ==> Syndrome(w, r, D29, D30) == 0
  {
    forall r | 0 <= r < 6
      ensures Syndrome(w, r, D29, D30) == 0 <==> w[DATA..][r] == Parity(Unmask(w, D30)[..DATA], D29, D30)[r]
    {
      SyndromeZero(w, r, D29, D30);
    }
  }

  lemma {:induction false} FlipInRow(e: Bits, i: nat, c: Bit, r: nat, n: nat)
    requires i < |e| && n <= |e| <= WORD && r < 6
    ensures Row(FlipAt(e, i), c, r, n) == if i < n && Tap(r, i) then 1 - Row(e, c, r, n) else Row(e, c, r, n)
  {
    if n > 0 { FlipInRow(e, i, c, r, n - 1); }
  }

  lemma FlipMovesSyndrome(w: Bits, i: nat, r: nat, D29: Bit, D30: Bit)
    requires |w| == WORD && i < WORD && r < 6
    ensures Syndrome(FlipAt(w, i), r, D29, D30) ==
            if Tap(r, i) then 1 - Syndrome(w, r, D29, D30) else Syndrome(w, r, D29, D30)
  {
    assert Unmask(FlipAt(w, i), D30) == FlipAt(Unmask(w, D30), i);
    FlipInRow(Unmask(w, D30), i, Carry(r, D29, D30), r, WORD);
  }

  /** Which of the six equations fail. */
  function Failing(w: Bits, D29: Bit, D30: Bit): (f: seq<bool>)
    requires |w| == WORD
    ensures |f| == 6
  {
    seq(6, r requires 0 <= r < 6 => Syndrome(w, r, D29, D30) == 1)
  }

  /** The effect of flipping bit `i` on the failing equations: its column of the table. */
  function Toggle(f: seq<bool>, i: nat): (g: seq<bool>)
    requires |f| == 6 && i < WORD
    ensures |g| == 6
  {
    seq(6, r requires 0 <= r < 6 => f[r] != Tap(r, i))
  }

  predicate Odd(f: seq<bool>)
    requires |f| == 6
  {
    ((f[0] != f[1]) != (f[2] != f[3])) != (f[4] != f[5])
  }

  lemma FlipToggles(w: Bits, i: nat, D29: Bit, D30: Bit)
    requires |w| == WORD && i < WORD
    ensures Failing(FlipAt(w, i), D29, D30) == Toggle(Failing(w, D29, D30), i)
  {
    forall r | 0 <= r < 6
      ensures Failing(FlipAt(w, i), D29, D30)[r] == Toggle(Failing(w, D29, D30), i)[r]
    {
      FlipMovesSyndrome(w, i, r, D29, D30);
    }
  }

  /** Every column of the table has an odd number of entries. */
  lemma OddColumns(f: seq<bool>, i: nat)
    requires |f| == 6 && i < WORD
    ensures Odd(Toggle(f, i)) == !Odd(f)
  {
    var a := Toggle(f, i);
    assert Odd([Tap(0, i), Tap(1, i), Tap(2, i), Tap(3, i), Tap(4, i), Tap(5, i)]);
  }

  /** No two columns are equal. */
  lemma DistinctColumns(i: nat, j: nat)
    requires i < WORD && j < WORD && i != j
    ensures Tap(0, i) != Tap(0, j) || Tap(1, i) != Tap(1, j) || Tap(2, i) != Tap(2, j) ||
            Tap(3, i) != Tap(3, j) || Tap(4, i) != Tap(4, j) || Tap(5, i) != Tap(5, j)
  {
  }

  lemma FailingRejects(w: Bits, D29: Bit, D30: Bit)
    requires |w| == WORD
    ensures WordOk(w, D29, D30) <==> Failing(w, D29, D30) == [false, false, false, false, false, false]
  {
    OkIsZero(w, D29, D30);
    if WordOk(w, D29, D30) {
      assert Failing(w, D29, D30) == [false, false, false, false, false, false];
    } else {
      var r :| 0 <= r < 6 && Syndrome(w, r, D29, D30) != 0;
      assert Failing(w, D29, D30)[r];
    }
  }

  /** The code has distance four: one, two or three wrong bits in a word never pass. */
  lemma ErrorsDetected(w: Bits, D29: Bit, D30: Bit, i: nat, j: nat, k: nat)
    requires |w| == WORD && WordOk(w, D29, D30)
    requires i < WORD && j < WORD && k < WORD
    ensures !WordOk(FlipAt(w, i), D29, D30)
    ensures i != j ==> !WordOk(FlipAt(FlipAt(w, i), j), D29, D30)
    ensures i != j && i != k && j != k ==> !WordOk(FlipAt(FlipAt(FlipAt(w, i), j), k), D29, D30)
  {
    var w1 := FlipAt(w, i);
    var w2 := FlipAt(w1, j);
    var w3 := FlipAt(w2, k);
    var f := Failing(w, D29, D30);
    var f1 := Toggle(f, i);
    var f2 := Toggle(f1, j);
    FailingRejects(w, D29, D30); FailingRejects(w1, D29, D30); FailingRejects(w2, D29, D30);
    FailingRejects(w3, D29, D30);
    FlipToggles(w, i, D29, D30); FlipToggles(w1, j, D29, D30); FlipToggles(w2, k, D29, D30);
    OddColumns(f, i); OddColumns(f1, j); OddColumns(f2, k);
    if i != j {
      DistinctColumns(i, j);
    }
    assert i != j ==> f2[0] || f2[1] || f2[2] || f2[3] || f2[4] || f2[5];
  }

  // The six equations as the code spells them, on d[1..24] (0-based here), each with the
  // proof that it is its row of the table.

  method Equation0(d: Bits, D29: Bit) returns (p: Bit)
    requires |d| == DATA
    ensures p == Row(d, D29, 0, |d|)
  {
    assert Row(d, D29, 0, 4) == Xor(Xor(Xor(D29, d[0]), d[1]), d[2]);
    assert Row(d, D29, 0, 8) == Xor(Xor(Xor(Xor(Xor(D29, d[0]), d[1]), d[2]), d[4]), d[5]);
    assert Row(d, D29, 0, 12)
           == Xor(Xor(Xor(Xor(Xor(Xor(Xor(Xor(D29, d[0]), d[1]), d[2]), d[4]), d[5]), d[9]), d[10]), d[11]);
    assert Row(d, D29, 0, 16)
           == Xor(Xor(Xor(Xor(Xor(Xor(Xor(Xor(Xor(Xor(D29, d[0]), d[1]), d[2]), d[4]), d[5]), d[9]), d[10]), d[11]),
           d[12]), d[13]);
    assert Row(d, D29, 0, 20)
           == Xor(Xor(Xor(Xor(Xor(Xor(Xor(Xor(Xor(Xor(Xor(Xor(Xor(D29, d[0]), d[1]), d[2]), d[4]), d[5]), d[9]), d[10]),
           d[11]), d[12]), d[13]), d[16]), d[17]), d[19]);
    p := Xor(Xor(Xor(Xor(Xor(Xor(Xor(Xor(Xor(Xor(Xor(Xor(Xor(Xor(D29, d[0]), d[1]), d[2]), d[4]), d[5]), d[9]), d[10]),
        d[11]), d[12]), d[13]), d[16]), d[17]), d[19]), d[22]);
  }

  method Equation1(d: Bits, D30: Bit) returns (p: Bit)
    requires |d| == DATA
    ensures p == Row(d, D30, 1, |d|)
  {
    assert Row(d, D30, 1, 4) == Xor(Xor(Xor(D30, d[1]), d[2]), d[3]);
    assert Row(d, D30, 1, 8) == Xor(Xor(Xor(Xor(Xor(D30, d[1]), d[2]), d[3]), d[5]), d[6]);
    assert Row(d, D30, 1, 12) == Xor(Xor(Xor(Xor(Xor(Xor(Xor(D30, d[1]), d[2]), d[3]), d[5]), d[6]), d[10]), d[11]);
    assert Row(d, D30, 1, 16)
           == Xor(Xor(Xor(Xor(Xor(Xor(Xor(Xor(Xor(Xor(D30, d[1]), d[2]), d[3]), d[5]), d[6]), d[10]), d[11]), d[12]),
           d[13]), d[14]);
    assert Row(d, D30, 1, 20)
           == Xor(Xor(Xor(Xor(Xor(Xor(Xor(Xor(Xor(Xor(Xor(Xor(D30, d[1]), d[2]), d[3]), d[5]), d[6]), d[10]), d[11]),
           d[12]), d[13]), d[14]), d[17]), d[18]);
    p := Xor(Xor(Xor(Xor(Xor(Xor(Xor(Xor(Xor(Xor(Xor(Xor(Xor(Xor(D30, d[1]), d[2]), d[3]), d[5]), d[6]), d[10]), d[11]),
        d[12]), d[13]), d[14]), d[17]), d[18]), d[20]), d[23]);
  }

  method Equation2(d: Bits, D29: Bit) returns (p: Bit)
    requires |d| == DATA
    ensures p == Row(d, D29, 2, |d|)
  {
    assert Row(d, D29, 2, 4) == Xor(Xor(Xor(D29, d[0]), d[2]), d[3]);
    assert Row(d, D29, 2, 8) == Xor(Xor(Xor(Xor(Xor(Xor(D29, d[0]), d[2]), d[3]), d[4]), d[6]), d[7]);
    assert Row(d, D29, 2, 12) == Xor(Xor(Xor(Xor(Xor(Xor(Xor(D29, d[0]), d[2]), d[3]), d[4]), d[6]), d[7]), d[11]);
    assert Row(d, D29, 2, 16)
           == Xor(Xor(Xor(Xor(Xor(Xor(Xor(Xor(Xor(Xor(Xor(D29, d[0]), d[2]), d[3]), d[4]), d[6]), d[7]), d[11]), d[12]),
           d[13]), d[14]), d[15]);
    assert Row(d, D29, 2, 20)
           == Xor(Xor(Xor(Xor(Xor(Xor(Xor(Xor(Xor(Xor(Xor(Xor(Xor(D29, d[0]), d[2]), d[3]), d[4]), d[6]), d[7]), d[11]),
           d[12]), d[13]), d[14]), d[15]), d[18]), d[19]);
    p := Xor(Xor(Xor(Xor(Xor(Xor(Xor(Xor(Xor(Xor(Xor(Xor(Xor(Xor(D29, d[0]), d[2]), d[3]), d[4]), d[6]), d[7]), d[11]),
        d[12]), d[13]), d[14]), d[15]), d[18]), d[19]), d[21]);
  }

  method Equation3(d: Bits, D30: Bit) returns (p: Bit)
    requires |d| == DATA
    ensures p == Row(d, D30, 3, |d|)
  {
    assert Row(d, D30, 3, 4) == Xor(Xor(D30, d[1]), d[3]);
    assert Row(d, D30, 3, 8) == Xor(Xor(Xor(Xor(Xor(D30, d[1]), d[3]), d[4]), d[5]), d[7]);
    assert Row(d, D30, 3, 12) == Xor(Xor(Xor(Xor(Xor(Xor(D30, d[1]), d[3]), d[4]), d[5]), d[7]), d[8]);
    assert Row(d, D30, 3, 16)
           == Xor(Xor(Xor(Xor(Xor(Xor(Xor(Xor(Xor(Xor(D30, d[1]), d[3]), d[4]), d[5]), d[7]), d[8]), d[12]), d[13]),
           d[14]), d[15]);
    assert Row(d, D30, 3, 20)
           == Xor(Xor(Xor(Xor(Xor(Xor(Xor(Xor(Xor(Xor(Xor(Xor(D30, d[1]), d[3]), d[4]), d[5]), d[7]), d[8]), d[12]),
           d[13]), d[14]), d[15]), d[16]), d[19]);
    p := Xor(Xor(Xor(Xor(Xor(Xor(Xor(Xor(Xor(Xor(Xor(Xor(Xor(Xor(D30, d[1]), d[3]), d[4]), d[5]), d[7]), d[8]), d[12]),
        d[13]), d[14]), d[15]), d[16]), d[19]), d[20]), d[22]);
  }

  method Equation4(d: Bits, D30: Bit) returns (p: Bit)
    requires |d| == DATA
    ensures p == Row(d, D30, 4, |d|)
  {
    assert Row(d, D30, 4, 4) == Xor(Xor(D30, d[0]), d[2]);
    assert Row(d, D30, 4, 8) == Xor(Xor(Xor(Xor(Xor(D30, d[0]), d[2]), d[4]), d[5]), d[6]);
    assert Row(d, D30, 4, 12) == Xor(Xor(Xor(Xor(Xor(Xor(Xor(D30, d[0]), d[2]), d[4]), d[5]), d[6]), d[8]), d[9]);
    assert Row(d, D30, 4, 16)
           == Xor(Xor(Xor(Xor(Xor(Xor(Xor(Xor(Xor(Xor(D30, d[0]), d[2]), d[4]), d[5]), d[6]), d[8]), d[9]), d[13]),
           d[14]), d[15]);
    assert Row(d, D30, 4, 20)
           == Xor(Xor(Xor(Xor(Xor(Xor(Xor(Xor(Xor(Xor(Xor(Xor(D30, d[0]), d[2]), d[4]), d[5]), d[6]), d[8]), d[9]),
           d[13]), d[14]), d[15]), d[16]), d[17]);
    p := Xor(Xor(Xor(Xor(Xor(Xor(Xor(Xor(Xor(Xor(Xor(Xor(Xor(Xor(Xor(D30, d[0]), d[2]), d[4]), d[5]), d[6]), d[8]),
        d[9]), d[13]), d[14]), d[15]), d[16]), d[17]), d[20]), d[21]), d[23]);
  }

  method Equation5(d: Bits, D29: Bit) returns (p: Bit)
    requires |d| == DATA
    ensures p == Row(d, D29, 5, |d|)
  {
    assert Row(d, D29, 5, 4) == Xor(D29, d[2]);
    assert Row(d, D29, 5, 8) == Xor(Xor(Xor(Xor(D29, d[2]), d[4]), d[5]), d[7]);
    assert Row(d, D29, 5, 12) == Xor(Xor(Xor(Xor(Xor(Xor(Xor(D29, d[2]), d[4]), d[5]), d[7]), d[8]), d[9]), d[10]);
    assert Row(d, D29, 5, 16)
           == Xor(Xor(Xor(Xor(Xor(Xor(Xor(Xor(Xor(D29, d[2]), d[4]), d[5]), d[7]), d[8]), d[9]), d[10]), d[12]), d[14]);
    assert Row(d, D29, 5, 20)
           == Xor(Xor(Xor(Xor(Xor(Xor(Xor(Xor(Xor(Xor(D29, d[2]), d[4]), d[5]), d[7]), d[8]), d[9]), d[10]), d[12]),
           d[14]), d[18]);
    p := Xor(Xor(Xor(Xor(Xor(Xor(Xor(Xor(Xor(Xor(Xor(Xor(Xor(D29, d[2]), d[4]), d[5]), d[7]), d[8]), d[9]), d[10]),
        d[12]), d[14]), d[18]), d[21]), d[22]), d[23]);
  }

  /** `p[0]` to `p[5]` as the code computes them. */
  method Equations(d: Bits, D29: Bit, D30: Bit) returns (p: Bits)
    requires |d| == DATA
    ensures p == Parity(d, D29, D30)
  {
    var p0 := Equation0(d, D29);
    var p1 := Equation1(d, D30);
    var p2 := Equation2(d, D29);
    var p3 := Equation3(d, D30);
    var p4 := Equation4(d, D30);
    var p5 := Equation5(d, D29);
    p := [p0, p1, p2, p3, p4, p5];
  }
}
