/** MSB-first bit gathering (`bin`), and the byte packing of the ephemeris decoder (`PACK`). */
module NavBin {
  import opened NavParity

  /** The `n` bits from `a` on as an unsigned number, most significant first. */
  function Get(s: Bits, a: nat, n: nat): (v: nat)
    requires a + n <= |s|
  {
    if n == 0 then 0 else 2 * Get(s, a, n - 1) + s[a + n - 1]
  }

  /** The same bits as a two's complement number. */
  function Signed(s: Bits, a: nat, n: nat): int
    requires 1 <= n && a + n <= |s|
  {
    Get(s, a, n) - (if s[a] == 1 then Pow2(n) else 0)
  }

  function Pow2(n: nat): (p: nat)
    ensures p > 0
  {
    if n == 0 then 1 else 2 * Pow2(n - 1)
  }

  lemma Pow2Is()
    ensures Pow2(8) == 0x100 && Pow2(16) == 0x1_0000 && Pow2(24) == 0x100_0000 && Pow2(32) == 0x1_0000_0000
  {
    assert Pow2(12) == 0x1000;
    assert Pow2(16) == 0x1_0000;
    assert Pow2(20) == 0x10_0000;
    assert Pow2(24) == 0x100_0000;
    assert Pow2(28) == 0x1000_0000;
  }

  lemma {:induction false} GetBound(s: Bits, a: nat, n: nat)
    requires a + n <= |s|
    ensures Get(s, a, n) < Pow2(n)
  {
    if n > 0 { GetBound(s, a, n - 1); }
  }

  lemma Doubled(x: int, p: nat)
    ensures x * (2 * p) == 2 * (x * p)
  {
  }

  lemma {:induction false} GetSplit(s: Bits, a: nat, m: nat, n: nat)
    requires a + m + n <= |s|
    ensures Get(s, a, m + n) == Get(s, a, m) * Pow2(n) + Get(s, a + m, n)
  {
    if n > 0 {
      GetSplit(s, a, m, n - 1);
      Doubled(Get(s, a, m), Pow2(n - 1));
    }
  }

  /** Equal bits, equal numbers. */
  lemma {:induction false} GetSame(s: Bits, a: nat, t: Bits, b: nat, n: nat)
    requires a + n <= |s| && b + n <= |t|
    requires s[a..a + n] == t[b..b + n]
    ensures Get(s, a, n) == Get(t, b, n)
  {
    if n > 0 {
      assert s[a..a + n - 1] == s[a..a + n][..n - 1] == t[b..b + n - 1];
      assert s[a + n - 1] == s[a..a + n][n - 1] == t[b + n - 1];
      GetSame(s, a, t, b, n - 1);
    }
  }

  /** `bin`: the loop adds each bit to twice the sum so far; 32 bits fit its `unsigned`. */
  method Bin(s: array<Bit>, off: nat, n: nat) returns (u: nat)
    requires 1 <= n <= 32 && off + n <= s.Length
    ensures u == Get(s[..], off, n) && u < Pow2(n)
  {
    u := s[off];
    var k := 1;
    while k < n
      invariant 1 <= k <= n && u == Get(s[..], off, k)
    {
      u := u + u + s[off + k];
      k := k + 1;
    }
    GetBound(s[..], off, n);
  }

  // ---- PACK -------------------------------------------------------------------------

  type Byte = b: nat | b < 256

  /** The 32-bit word whose most significant byte is `a`. */
  function Pack(a: Byte, b: Byte, c: Byte, d: Byte): (w: nat)
    ensures w < 0x1_0000_0000
  {
    a * 0x100_0000 + b * 0x1_0000 + c * 0x100 + d
  }

  /** Arithmetic shift right: `k` halvings, rounding down. */
  function Shr(v: int, k: nat): int
    decreases k
  {
    if k == 0 then v else Shr(v / 2, k - 1)
  }

  /** The word as a 32-bit signed number. */
  function AsSigned(w: nat): int
    requires w < 0x1_0000_0000
  {
    if w < 0x8000_0000 then w else w - 0x1_0000_0000
  }

  function ByteAt(s: Bits, i: nat): (b: Byte)
    requires 8 * i + 8 <= |s|
  {
    GetBound(s, 8 * i, 8);
    Pow2Is();
    Get(s, 8 * i, 8)
  }

  lemma NextByte(s: Bits, i: nat, k: nat)
    requires 8 * (i + k + 1) <= |s|
    ensures Get(s, 8 * i, 8 * k + 8) == Get(s, 8 * i, 8 * k) * 0x100 + ByteAt(s, i + k)
  {
    GetSplit(s, 8 * i, 8 * k, 8);
    Pow2Is();
  }

  /** `k` bytes packed hold their 8k bits, left-aligned in the word. */
  lemma PackedBits(s: Bits, i: nat, k: nat)
    requires 1 <= k <= 4 && 8 * (i + k) <= |s|
    ensures Pack(ByteAt(s, i), if k > 1 then ByteAt(s, i + 1) else 0, if k > 2 then ByteAt(s, i + 2) else 0,
                 if k > 3 then ByteAt(s, i + 3) else 0) == Get(s, 8 * i, 8 * k) * Pow2(32 - 8 * k)
  {
    Pow2Is();
    assert Pow2(0) == 1;
    if k > 1 { NextByte(s, i, 1); }
    if k > 2 { NextByte(s, i, 2); }
    if k > 3 { NextByte(s, i, 3); }
    assert ByteAt(s, i) == Get(s, 8 * i, 8);
    hide Get, Pow2, ByteAt;
    if k == 1 {
    } else if k == 2 {
    } else if k == 3 {
    }
  }

  lemma {:induction false} ShrPadding(v: int, j: nat, k: nat)
    ensures Shr(v * Pow2(j), j + k) == Shr(v, k)
    decreases j
  {
    if j > 0 {
      Doubled(v, Pow2(j - 1));
      ShrPadding(v, j - 1, k);
    }
  }

  /** Shifting out `k` bits keeps the value of the others, unsigned and signed. */
  lemma {:induction false} ShiftedOut(s: Bits, a: nat, n: nat, k: nat)
    requires a + n <= |s| && k < n
    ensures Shr(Get(s, a, n), k) == Get(s, a, n - k)
    ensures Shr(Signed(s, a, n), k) == Signed(s, a, n - k)
    decreases k
  {
    if k > 0 {
      assert Get(s, a, n) / 2 == Get(s, a, n - 1) && Signed(s, a, n) / 2 == Signed(s, a, n - 1);
      ShiftedOut(s, a, n - 1, k - 1);
    }
  }

  lemma SignBit(s: Bits, a: nat, n: nat)
    requires 1 <= n && a + n <= |s|
    ensures Get(s, a, n) < Pow2(n - 1) <==> s[a] == 0
  {
    GetSplit(s, a, 1, n - 1);
    GetBound(s, a + 1, n - 1);
    assert Get(s, a, 1) == s[a];
  }

  /** `PACK(nav[i], ...)` over `k` consecutive bytes; the bytes not given are 0. */
  method PackBytes(nav: array<Byte>, i: nat, k: nat, ghost s: Bits) returns (w: nat)
    requires 1 <= k <= 4 && i + k <= nav.Length && 8 * (i + k) <= |s|
    requires forall j :: i <= j < i + k ==> nav[j] == ByteAt(s, j)
    ensures w == Get(s, 8 * i, 8 * k) * Pow2(32 - 8 * k) && w < 0x1_0000_0000
    ensures AsSigned(w) == Signed(s, 8 * i, 8 * k) * Pow2(32 - 8 * k)
  {
    w := Pack(nav[i], if k > 1 then nav[i + 1] else 0, if k > 2 then nav[i + 2] else 0,
              if k > 3 then nav[i + 3] else 0);
    PackedBits(s, i, k);
    SignOfPacked(s, 8 * i, 8 * k, w);
  }

  lemma SignOfPacked(s: Bits, a: nat, n: nat, w: nat)
    requires n == 8 || n == 16 || n == 24 || n == 32
    requires a + n <= |s| && w == Get(s, a, n) * Pow2(32 - n) && w < 0x1_0000_0000
    ensures AsSigned(w) == Signed(s, a, n) * Pow2(32 - n)
  {
    SignBit(s, a, n);
    Pow2Is();
    HalfOfPow2(n);
    GetBound(s, a, n);
    assert Pow2(0) == 1;
    hide Get, Pow2;
    if n == 8 {
    } else if n == 16 {
    } else if n == 24 {
    }
  }

  lemma HalfOfPow2(n: nat)
    requires n > 0
    ensures Pow2(n) == 2 * Pow2(n - 1)
  {
  }

  /** `PACK(...).u(n)`: the `n` bits from byte `i` on, as an unsigned number. */
  method PackU(nav: array<Byte>, i: nat, k: nat, n: nat, ghost s: Bits) returns (v: int)
    requires 1 <= k <= 4 && i + k <= nav.Length && 8 * (i + k) <= |s| && 1 <= n <= 8 * k
    requires forall j :: i <= j < i + k ==> nav[j] == ByteAt(s, j)
    ensures v == Get(s, 8 * i, n)
  {
    var w := PackBytes(nav, i, k, s);
    v := Shr(w, 32 - n);
    ShrPadding(Get(s, 8 * i, 8 * k), 32 - 8 * k, 8 * k - n);
    ShiftedOut(s, 8 * i, 8 * k, 8 * k - n);
  }

  /** `PACK(...).s(n)`: the same bits as a signed number. */
  method PackS(nav: array<Byte>, i: nat, k: nat, n: nat, ghost s: Bits) returns (v: int)
    requires 1 <= k <= 4 && i + k <= nav.Length && 8 * (i + k) <= |s| && 1 <= n <= 8 * k
    requires forall j :: i <= j < i + k ==> nav[j] == ByteAt(s, j)
    ensures v == Signed(s, 8 * i, n)
  {
    var w := PackBytes(nav, i, k, s);
    v := Shr(AsSigned(w), 32 - n);
    ShrPadding(Signed(s, 8 * i, 8 * k), 32 - 8 * k, 8 * k - n);
    ShiftedOut(s, 8 * i, 8 * k, 8 * k - n);
  }
}
