/**
 Broadcast ephemerides: what an accepted subframe says about its satellite. Bit positions are
 those of IS-GPS-200 figure 20-1, counted from 1 there and from 0 here.
 */
module Ephemeris {
  import opened NavParity
  import opened NavFrame
  import opened NavBin

  // The scale factors: `pow(2, -n) * v` for the exponents in use.
  function Scaled5(v: int): real { v as real / 32.0 }
  function Scaled19(v: int): real { v as real / 524288.0 }
  function Scaled24(v: int): real { v as real / 16777216.0 }
  function Scaled27(v: int): real { v as real / 134217728.0 }
  function Scaled29(v: int): real { v as real / 536870912.0 }
  function Scaled30(v: int): real { v as real / 1073741824.0 }
  function Scaled31(v: int): real { v as real / 2147483648.0 }
  function Scaled33(v: int): real { v as real / 8589934592.0 }
  function Scaled43(v: int): real { v as real / 8796093022208.0 }
  function Scaled55(v: int): real { v as real / 36028797018963968.0 }

  /** An angle transmitted in semicircles, times `PI`. */
  function Radians(x: real): real { x * 3.1415926535898 }

  // ---- bytes of the data words ------------------------------------------------------

  /** The 240 data bits of a subframe, parity bits left out. */
  function DataStream(d: SubframeBits): (s: Bits)
    ensures |s| == 240
  {
    seq(240, i requires 0 <= i < 240 => d[WORD * (i / DATA) + i % DATA])
  }

  /** Where byte `i` of the data stands in the subframe. */
  function Place(i: nat): nat { WORD * (i / 3) + 8 * (i % 3) }

  /** A field inside one word reads the same with the parity bits left out. */
  lemma InWord(d: SubframeBits, i: nat, n: nat)
    requires i < 30 && n <= DATA - 8 * (i % 3)
    ensures Get(DataStream(d), 8 * i, n) == Get(d, Place(i), n)
  {
    var s, t := DataStream(d)[8 * i..8 * i + n], d[Place(i)..Place(i) + n];
    forall k | 0 <= k < n
      ensures s[k] == t[k]
    {
      assert 8 * i + k == DATA * (i / 3) + (8 * (i % 3) + k);
      assert (8 * i + k) / DATA == i / 3 && (8 * i + k) % DATA == 8 * (i % 3) + k;
    }
    assert s == t;
    GetSame(DataStream(d), 8 * i, d, Place(i), n);
  }

  // The fields of a 32-bit number split over two words: 8 bits at `a`, 24 bits six parity
  // bits further on.
  function Wide(d: SubframeBits, a: nat): nat
    requires a + 38 <= SUBFRAME
  {
    Get(d, a, 8) * 0x100_0000 + Get(d, a + 14, 24)
  }

  function WideSigned(d: SubframeBits, a: nat): int
    requires a + 38 <= SUBFRAME
  {
    Wide(d, a) - (if d[a] == 1 then 0x1_0000_0000 else 0)
  }

  lemma AcrossWords(d: SubframeBits, i: nat)
    requires i < 27 && i % 3 == 2
    ensures Get(DataStream(d), 8 * i, 32) == Wide(d, Place(i))
    ensures Signed(DataStream(d), 8 * i, 32) == WideSigned(d, Place(i))
  {
    InWord(d, i, 8); InWord(d, i + 1, 24); Pow2Is();
    assert Place(i + 1) == Place(i) + 14;
    GetSplit(DataStream(d), 8 * i, 8, 24);
    SameBit(d, i);
  }

  lemma SameBit(d: SubframeBits, i: nat)
    requires i < 30
    ensures DataStream(d)[8 * i] == d[Place(i)]
  {
    assert 8 * i == DATA * (i / 3) + 8 * (i % 3);
    assert (8 * i) / DATA == i / 3 && (8 * i) % DATA == 8 * (i % 3);
  }

  /** `nav` holds the data bytes of the subframe. */
  ghost predicate HoldsBytes(nav: array<Byte>, d: SubframeBits)
    reads nav
  {
    nav.Length == 30 && forall i :: 0 <= i < 30 ==> nav[i] == ByteAt(DataStream(d), i)
  }

  method FieldU(nav: array<Byte>, i: nat, k: nat, n: nat, ghost d: SubframeBits) returns (v: int)
    requires HoldsBytes(nav, d) && 1 <= n <= 8 * k <= DATA - 8 * (i % 3) && i < 30
    ensures v == Get(d, Place(i), n)
  {
    InWord(d, i, n);
    v := PackU(nav, i, k, n, DataStream(d));
  }

  method FieldS(nav: array<Byte>, i: nat, k: nat, n: nat, ghost d: SubframeBits) returns (v: int)
    requires HoldsBytes(nav, d) && 1 <= n <= 8 * k <= DATA - 8 * (i % 3) && i < 30
    ensures v == Signed(d, Place(i), n)
  {
    InWord(d, i, n);
    SameBit(d, i);
    v := PackS(nav, i, k, n, DataStream(d));
  }

  /** The last byte of a word and the three of the next one. */
  method WideFieldU(nav: array<Byte>, i: nat, ghost d: SubframeBits) returns (v: int)
    requires HoldsBytes(nav, d) && i < 27 && i % 3 == 2
    ensures v == Wide(d, Place(i))
  {
    AcrossWords(d, i);
    v := PackU(nav, i, 4, 32, DataStream(d));
  }

  method WideFieldS(nav: array<Byte>, i: nat, ghost d: SubframeBits) returns (v: int)
    requires HoldsBytes(nav, d) && i < 27 && i % 3 == 2
    ensures v == WideSigned(d, Place(i))
  {
    AcrossWords(d, i);
    v := PackS(nav, i, 4, 32, DataStream(d));
  }

  // ---- what a subframe transmits ----------------------------------------------------

  /** Time of week at the end of the subframe, in seconds: bits 31 to 47 count six-second units. */
  function Tow(d: SubframeBits): nat { 6 * Get(d, 30, 17) }

  function SubframeId(d: SubframeBits): nat { Get(d, 49, 3) }

  datatype Sub1 = Sub1(week: nat, t_gd: real, IODC: nat, t_oc: nat, a_f: seq<real>)

  datatype Sub2 = Sub2(IODE2: nat, C_rs: real, dn: real, M_0: real, C_uc: real, e: real, C_us: real, sqrtA: real,
    t_oe: nat)

  datatype Sub3 = Sub3(C_ic: real, OMEGA_0: real, C_is: real, i_0: real, C_rc: real, omega: real, OMEGA_dot: real,
    IODE3: nat, IDOT: real)

  datatype Iono = Iono(alpha: seq<real>, beta: seq<real>)

  /** GPS time less UTC, now and in future. */
  datatype Leap = NoLeap | Leap(delta_tLS: int, delta_tLSF: int)

  /** All that has been heard from a satellite. */
  datatype Broadcast = Broadcast(sub: nat, tow: nat, one: Sub1, two: Sub2, three: Sub3, iono: Iono,
    leap: Leap)

  function Sub1Of(d: SubframeBits): Sub1 {
    Sub1(Get(d, 60, 10), Scaled31(Signed(d, 196, 8)), Get(d, 210, 8), 16 * Get(d, 218, 16),
         [Scaled31(Signed(d, 270, 22)), Scaled43(Signed(d, 248, 16)), Scaled55(Signed(d, 240, 8))])
  }

  function Sub2Of(d: SubframeBits): Sub2 {
    Sub2(Get(d, 60, 8), Scaled5(Signed(d, 68, 16)), Radians(Scaled43(Signed(d, 90, 16))),
         Radians(Scaled31(WideSigned(d, 106))), Scaled29(Signed(d, 150, 16)), Scaled33(Wide(d, 166)),
         Scaled29(Signed(d, 210, 16)), Scaled19(Wide(d, 226)), 16 * Get(d, 270, 16))
  }

  function Sub3Of(d: SubframeBits): Sub3 {
    Sub3(Scaled29(Signed(d, 60, 16)), Radians(Scaled31(WideSigned(d, 76))), Scaled29(Signed(d, 120, 16)),
         Radians(Scaled31(WideSigned(d, 136))), Scaled5(Signed(d, 180, 16)), Radians(Scaled31(WideSigned(d, 196))),
         Radians(Scaled43(Signed(d, 240, 24))), Get(d, 270, 8), Radians(Scaled43(Signed(d, 278, 14))))
  }

  /** Subframe 4 is page 18: data id 1 and page id 56. */
  predicate IsPage18(d: SubframeBits) { Get(d, 60, 8) == 120 }

  function IonoOf(d: SubframeBits): Iono {
    Iono([Scaled30(Signed(d, 68, 8)), Scaled27(Signed(d, 76, 8)), Scaled24(Signed(d, 90, 8)),
          Scaled24(Signed(d, 98, 8))],
         [Signed(d, 106, 8) as real * 2048.0, Signed(d, 120, 8) as real * 16384.0,
          Signed(d, 128, 8) as real * 65536.0, Signed(d, 136, 8) as real * 65536.0])
  }

  function LeapOf(d: SubframeBits): Leap { Leap(Signed(d, 240, 8), Signed(d, 270, 8)) }

  /** One subframe more. Leap seconds are taken from Navstar satellites only. */
  function Heard(b: Broadcast, d: SubframeBits, navstar: bool): Broadcast {
    var id := SubframeId(d);
    Broadcast(id, Tow(d),
              if id == 1 then Sub1Of(d) else b.one,
              if id == 2 then Sub2Of(d) else b.two,
              if id == 3 then Sub3Of(d) else b.three,
              if id == 4 && IsPage18(d) then IonoOf(d) else b.iono,
              if id == 4 && IsPage18(d) && navstar then LeapOf(d) else b.leap)
  }

  /** `EPHEM::Valid` for L1 satellites: subframes 1, 2 and 3 are there and of the same issue. */
  predicate OneIssue(b: Broadcast) {
    b.one.IODC != 0 && b.one.IODC == b.two.IODE2 && b.one.IODC == b.three.IODE3
  }

  class Ephem {
    const navstar: bool          // `is_Navstar(sat)`
    var sub: nat
    var tow: nat
    // Subframe 1
    var week: nat
    var t_gd: real
    var IODC: nat
    var t_oc: nat
    var a_f: seq<real>
    // Subframe 2
    var IODE2: nat
    var C_rs: real
    var dn: real
    var M_0: real
    var C_uc: real
    var e: real
    var C_us: real
    var sqrtA: real
    var t_oe: nat
    // Subframe 3
    var C_ic: real
    var OMEGA_0: real
    var C_is: real
    var i_0: real
    var C_rc: real
    var omega: real
    var OMEGA_dot: real
    var IODE3: nat
    var IDOT: real
    // Subframe 4, page 18
    var alpha: seq<real>
    var beta: seq<real>
    var leap: Leap               // what it passes on to all satellites' common data

    constructor (navstar: bool)
      ensures this.navstar == navstar && leap == NoLeap
    {
      this.navstar, leap := navstar, NoLeap;
    }

    function View(): Broadcast
      reads this
    {
      Broadcast(sub, tow, One(), Two(), Three(), Four(), leap)
    }

    function One(): Sub1
      reads this`week, this`t_gd, this`IODC, this`t_oc, this`a_f
    {
      Sub1(week, t_gd, IODC, t_oc, a_f)
    }

    function Two(): Sub2
      reads this`IODE2, this`C_rs, this`dn, this`M_0, this`C_uc, this`e, this`C_us, this`sqrtA, this`t_oe
    {
      Sub2(IODE2, C_rs, dn, M_0, C_uc, e, C_us, sqrtA, t_oe)
    }

    function Three(): Sub3
      reads this`C_ic, this`OMEGA_0, this`C_is, this`i_0, this`C_rc, this`omega, this`OMEGA_dot, this`IODE3, this`IDOT
    {
      Sub3(C_ic, OMEGA_0, C_is, i_0, C_rc, omega, OMEGA_dot, IODE3, IDOT)
    }

    function Four(): Iono
      reads this`alpha, this`beta
    {
      Iono(alpha, beta)
    }

    predicate Valid()
      reads this
      ensures Valid() <==> OneIssue(View())
    {
      IODC != 0 && IODC == IODE2 && IODC == IODE3
    }

    method Subframe1(nav: array<Byte>, ghost d: SubframeBits)
      requires HoldsBytes(nav, d)
      modifies this`week, this`t_gd, this`IODC, this`t_oc, this`a_f
      ensures One() == Sub1Of(d)
    {
      hide HoldsBytes, Get, Signed, Scaled31, Scaled43, Scaled55;
      var wn := FieldU(nav, 6, 2, 10, d);
      var tgd := FieldS(nav, 20, 1, 8, d);
      var iodc := FieldU(nav, 21, 1, 8, d);
      var toc := FieldU(nav, 22, 2, 16, d);
      var f2 := FieldS(nav, 24, 1, 8, d);
      var f1 := FieldS(nav, 25, 2, 16, d);
      var f0 := FieldS(nav, 27, 3, 22, d);
      week, t_gd, IODC, t_oc, a_f := wn, Scaled31(tgd), iodc, 16 * toc, [Scaled31(f0), Scaled43(f1), Scaled55(f2)];
    }

    method Subframe2(nav: array<Byte>, ghost d: SubframeBits)
      requires HoldsBytes(nav, d)
      modifies this`IODE2, this`C_rs, this`dn, this`M_0, this`C_uc, this`e, this`C_us, this`sqrtA, this`t_oe
      ensures Two() == Sub2Of(d)
    {
      hide HoldsBytes, Get, Signed, Wide, WideSigned, Radians, Scaled5, Scaled19, Scaled29, Scaled31, Scaled33,
           Scaled43;
      var iode := FieldU(nav, 6, 1, 8, d);
      var crs := FieldS(nav, 7, 2, 16, d);
      var deltaN := FieldS(nav, 9, 2, 16, d);
      var m0 := WideFieldS(nav, 11, d);
      var cuc := FieldS(nav, 15, 2, 16, d);
      var ecc := WideFieldU(nav, 17, d);
      var cus := FieldS(nav, 21, 2, 16, d);
      var root := WideFieldU(nav, 23, d);
      var toe := FieldU(nav, 27, 2, 16, d);
      IODE2, C_rs, dn, M_0, C_uc :=
        iode, Scaled5(crs), Radians(Scaled43(deltaN)), Radians(Scaled31(m0)), Scaled29(cuc);
      e, C_us, sqrtA, t_oe := Scaled33(ecc), Scaled29(cus), Scaled19(root), 16 * toe;
    }

    method Subframe3(nav: array<Byte>, ghost d: SubframeBits)
      requires HoldsBytes(nav, d)
      modifies this`C_ic, this`OMEGA_0, this`C_is, this`i_0, this`C_rc, this`omega, this`OMEGA_dot, this`IODE3,
               this`IDOT
      ensures Three() == Sub3Of(d)
    {
      hide HoldsBytes, Get, Signed, Wide, WideSigned, Radians, Scaled5, Scaled29, Scaled31, Scaled43;
      var cic := FieldS(nav, 6, 2, 16, d);
      var node := WideFieldS(nav, 8, d);
      var cis := FieldS(nav, 12, 2, 16, d);
      var incl := WideFieldS(nav, 14, d);
      var crc := FieldS(nav, 18, 2, 16, d);
      var perigee := WideFieldS(nav, 20, d);
      var rate := FieldS(nav, 24, 3, 24, d);
      var iode := FieldU(nav, 27, 1, 8, d);
      var idot := FieldS(nav, 28, 2, 14, d);
      C_ic, OMEGA_0, C_is, i_0 := Scaled29(cic), Radians(Scaled31(node)), Scaled29(cis), Radians(Scaled31(incl));
      C_rc, omega, OMEGA_dot := Scaled5(crc), Radians(Scaled31(perigee)), Radians(Scaled43(rate));
      IODE3, IDOT := iode, Radians(Scaled43(idot));
    }

    method LoadPage18(nav: array<Byte>, ghost d: SubframeBits)
      requires HoldsBytes(nav, d)
      modifies this`alpha, this`beta, this`leap
      ensures Four() == IonoOf(d) && leap == if navstar then LeapOf(d) else old(leap)
    {
      hide HoldsBytes, Get, Signed, Scaled24, Scaled27, Scaled30;
      var a0 := FieldS(nav, 7, 1, 8, d);
      var a1 := FieldS(nav, 8, 1, 8, d);
      var a2 := FieldS(nav, 9, 1, 8, d);
      var a3 := FieldS(nav, 10, 1, 8, d);
      var b0 := FieldS(nav, 11, 1, 8, d);
      var b1 := FieldS(nav, 12, 1, 8, d);
      var b2 := FieldS(nav, 13, 1, 8, d);
      var b3 := FieldS(nav, 14, 1, 8, d);
      alpha := [Scaled30(a0), Scaled27(a1), Scaled24(a2), Scaled24(a3)];
      beta := [b0 as real * 2048.0, b1 as real * 16384.0, b2 as real * 65536.0, b3 as real * 65536.0];
      if navstar {
        var tls := FieldS(nav, 24, 1, 8, d);
        var tlsf := FieldS(nav, 27, 1, 8, d);
        leap := Leap(tls, tlsf);
      }
    }

    method Subframe4(nav: array<Byte>, ghost d: SubframeBits)
      requires HoldsBytes(nav, d)
      modifies this`alpha, this`beta, this`leap
      ensures Four() == if IsPage18(d) then IonoOf(d) else old(Four())
      ensures leap == if IsPage18(d) && navstar then LeapOf(d) else old(leap)
    {
      var page := FieldU(nav, 6, 1, 8, d);
      if page == 120 { LoadPage18(nav, d); }
    }

    /** Called with 300 unmasked bits at the start of `buf`. */
    method Subframe(buf: array<Bit>, ghost d: SubframeBits)
      requires buf.Length >= SUBFRAME && buf[..SUBFRAME] == d
      modifies this
      ensures View() == Heard(old(View()), d, navstar)
    {
      var id := Bin(buf, 49, 3);
      BufferBits(buf[..], d, 49, 3);
      var nav := Gather(buf, d);
      var t := FieldU(nav, 3, 3, 17, d);
      hide HoldsBytes, Get, Heard;
      Told(nav, id, t * 6, d);
    }

    /** Number and time of week, and the fields of the subframe. */
    method Told(nav: array<Byte>, id: nat, t: nat, ghost d: SubframeBits)
      requires HoldsBytes(nav, d) && id == SubframeId(d) && t == Tow(d)
      modifies this
      ensures View() == Heard(old(View()), d, navstar)
    {
      hide HoldsBytes, SubframeId, Tow, Sub1Of, Sub2Of, Sub3Of, IonoOf, LeapOf, IsPage18, One, Two, Three, Four;
      sub, tow := id, t;
      if id == 1 { Subframe1(nav, d); }
      else if id == 2 { Subframe2(nav, d); }
      else if id == 3 { Subframe3(nav, d); }
      else if id == 4 { Subframe4(nav, d); }
    }
  }

  /** The 30 data bytes, parity bits skipped. */
  method Gather(buf: array<Bit>, ghost d: SubframeBits) returns (nav: array<Byte>)
    requires buf.Length >= SUBFRAME && buf[..SUBFRAME] == d
    ensures fresh(nav) && HoldsBytes(nav, d)
  {
    nav := new Byte[30];
    var i, p := 0, 0;
    for w := 0 to 10
      invariant i == 3 * w && p == WORD * w
      invariant forall k :: 0 <= k < i ==> nav[k] == ByteAt(DataStream(d), k)
    {
      for j := 0 to 3
        invariant i == 3 * w + j && p == WORD * w + 8 * j
        invariant forall k :: 0 <= k < i ==> nav[k] == ByteAt(DataStream(d), k)
      {
        var b := Bin(buf, p, 8);
        BufferBits(buf[..], d, p, 8);
        InWord(d, i, 8);
        nav[i] := b;
        i, p := i + 1, p + 8;
      }
      p := p + 6;
    }
  }

  lemma BufferBits(buf: Bits, d: SubframeBits, a: nat, n: nat)
    requires SUBFRAME <= |buf| && buf[..SUBFRAME] == d && a + n <= SUBFRAME
    ensures Get(buf, a, n) == Get(d, a, n)
  {
    assert buf[a..a + n] == buf[..SUBFRAME][a..a + n] == d[a..a + n];
    GetSame(buf, a, d, a, n);
  }
}
