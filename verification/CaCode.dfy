/**
 The C/A code generator (section 3.3.2.3 of IS-GPS-200): two shift registers of ten stages,
 stage `i` in bit `i - 1`.
 */
module CaCode {

  const Ones: bv10 := 0x3ff

  /** 1 + x^3 + x^10. */
  function Step1(s: bv10): bv10 { (s << 1) | (((s >> 2) ^ (s >> 9)) & 1) }

  /** 1 + x^2 + x^3 + x^6 + x^8 + x^9 + x^10. */
  function Step2(s: bv10): bv10 { (s << 1) | (((s >> 1) ^ (s >> 2) ^ (s >> 5) ^ (s >> 7) ^ (s >> 8) ^ (s >> 9)) & 1) }

  function Run1(s: bv10, n: nat): bv10
    decreases n
  {
    if n == 0 then s else Step1(Run1(s, n - 1))
  }

  function Run2(s: bv10, n: nat): bv10
    decreases n
  {
    if n == 0 then s else Step2(Run2(s, n - 1))
  }

  predicate Stage(s: bv10, i: nat)
    requires 1 <= i <= 10
  {
    (s >> (i - 1) as bv4) & 1 == 1
  }

  // ---- taps and initial states -------------------------------------------------------

  /** The chip of the form with two taps, after `n` clocks. */
  predicate TapChip(t0: nat, t1: nat, n: nat)
    requires 1 <= t0 <= 10 && 1 <= t1 <= 10
  {
    (Stage(Run1(Ones, n), 10) != Stage(Run2(Ones, n), t0)) != Stage(Run2(Ones, n), t1)
  }

  /** The chip of the form without taps, whose second register starts from `init`. */
  predicate InitChip(init: bv10, n: nat) {
    Stage(Run1(Ones, n), 10) != Stage(Run2(init, n), 10)
  }

  /** The sum of two register states, stage by stage. */
  function Sum(a: bv10, b: bv10): bv10 { a ^ b }

  lemma {:induction false} Linear(a: bv10, b: bv10, n: nat)
    ensures Run2(Sum(a, b), n) == Sum(Run2(a, n), Run2(b, n))
    decreases n
  {
    if n > 0 {
      hide Step2, Sum;
      Linear(a, b, n - 1);
      StepLinear(Run2(a, n - 1), Run2(b, n - 1));
    }
  }

  lemma StepLinear(a: bv10, b: bv10)
    ensures Step2(Sum(a, b)) == Sum(Step2(a), Step2(b))
  {
  }

  lemma {:induction false} Later(s: bv10, m: nat, n: nat)
    ensures Run2(s, m + n) == Run2(Run2(s, m), n) && Run1(s, m + n) == Run1(Run1(s, m), n)
    decreases n
  {
    if n > 0 { Later(s, m, n - 1); }
  }

  lemma Moves(s: bv10, i: nat)
    requires 1 <= i < 10
    ensures Stage(Step2(s), i + 1) == Stage(s, i)
  {
    assert 1 as bv4 + (i - 1) as bv4 == i as bv4;
  }

  /** What is in stage `i` reaches stage 10 after `10 - i` clocks. */
  lemma {:induction false} StageIsLast(s: bv10, n: nat, i: nat)
    requires 1 <= i <= 10
    ensures Stage(Run2(s, n), i) == Stage(Run2(s, n + (10 - i)), 10)
    decreases 10 - i
  {
    if i < 10 {
      Moves(Run2(s, n), i);
      StageIsLast(s, n + 1, i + 1);
    }
  }

  lemma StageXor(a: bv10, b: bv10)
    ensures Stage(Sum(a, b), 10) == (Stage(a, 10) != Stage(b, 10))
  {
  }

  /** Two taps are one initial state: the sum of two advanced states of the register. */
  lemma TapsAreInit(t0: nat, t1: nat, n: nat)
    requires 1 <= t0 <= 10 && 1 <= t1 <= 10
    ensures TapChip(t0, t1, n) == InitChip(Sum(Run2(Ones, 10 - t0), Run2(Ones, 10 - t1)), n)
  {
    hide Stage, Run1, Run2, Step1, Step2, Sum;
    var a, b := Run2(Ones, 10 - t0), Run2(Ones, 10 - t1);
    Linear(a, b, n);
    StageXor(Run2(a, n), Run2(b, n));
    Later(Ones, 10 - t0, n);
    Later(Ones, 10 - t1, n);
    StageIsLast(Ones, n, t0);
    StageIsLast(Ones, n, t1);
  }

  // ---- the period --------------------------------------------------------------------

  function Three1(s: bv10): bv10 { Step1(Step1(Step1(s))) }

  function Three2(s: bv10): bv10 { Step2(Step2(Step2(s))) }

  function Nine1(s: bv10): bv10 { Three1(Three1(Three1(s))) }

  function Nine2(s: bv10): bv10 { Three2(Three2(Three2(s))) }

  function Many1(s: bv10): bv10 { Nine1(Nine1(Nine1(s))) }

  function Many2(s: bv10): bv10 { Nine2(Nine2(Nine2(s))) }

  /** 73 clocks; 1023 is 14 times 73, and one more. */
  function Block1(s: bv10): bv10 { Step1(Nine1(Nine1(Many1(Many1(s))))) }

  function Block2(s: bv10): bv10 { Step2(Nine2(Nine2(Many2(Many2(s))))) }

  lemma OneClock(s: bv10)
    ensures Run1(s, 1) == Step1(s) && Run2(s, 1) == Step2(s)
  {
  }

  lemma ThreeClocks(s: bv10)
    ensures Three1(s) == Run1(s, 3) && Three2(s) == Run2(s, 3)
  {
    hide Step1, Step2;
    OneClock(s);
    assert Run1(s, 2) == Step1(Step1(s)) && Run2(s, 2) == Step2(Step2(s));
  }

  lemma NineClocks(s: bv10)
    ensures Nine1(s) == Run1(s, 9) && Nine2(s) == Run2(s, 9)
  {
    hide Three1, Three2, Run1, Run2;
    ThreeClocks(s);
    ThreeClocks(Three1(s));
    ThreeClocks(Three1(Three1(s)));
    ThreeClocks(Three2(s));
    ThreeClocks(Three2(Three2(s)));
    Later(s, 3, 3);
    Later(s, 6, 3);
  }

  lemma ManyClocks(s: bv10)
    ensures Many1(s) == Run1(s, 27) && Many2(s) == Run2(s, 27)
  {
    hide Nine1, Nine2, Run1, Run2;
    NineClocks(s);
    NineClocks(Nine1(s));
    NineClocks(Nine1(Nine1(s)));
    NineClocks(Nine2(s));
    NineClocks(Nine2(Nine2(s)));
    Later(s, 9, 9);
    Later(s, 18, 9);
  }

  lemma BlockClocks(s: bv10)
    ensures Block1(s) == Run1(s, 73) && Block2(s) == Run2(s, 73)
  {
    hide Many1, Many2, Nine1, Nine2, Step1, Step2, Run1, Run2;
    var u, w := Many1(Many1(s)), Many2(Many2(s));
    ManyClocks(s);
    ManyClocks(Many1(s));
    ManyClocks(Many2(s));
    NineClocks(u);
    NineClocks(Nine1(u));
    NineClocks(w);
    NineClocks(Nine2(w));
    OneClock(Nine1(Nine1(u)));
    OneClock(Nine2(Nine2(w)));
    Later(s, 27, 27);
    Later(s, 54, 9);
    Later(s, 63, 9);
    Later(s, 72, 1);
  }

  lemma Table1a()
    ensures Block1(1023) == 981 && Block1(981) == 681 && Block1(681) == 460 && Block1(460) == 616 && Block1(616) == 443
            && Block1(443) == 530 && Block1(530) == 961
  {
  }

  lemma Table1b()
    ensures Block1(961) == 87 && Block1(87) == 633 && Block1(633) == 709 && Block1(709) == 439 && Block1(439) == 109
            && Block1(109) == 4 && Block1(4) == 511
  {
  }

  lemma Table2a()
    ensures Block2(1023) == 52 && Block2(52) == 301 && Block2(301) == 585 && Block2(585) == 43 && Block2(43) == 743
            && Block2(743) == 780 && Block2(780) == 57
  {
  }

  lemma Table2b()
    ensures Block2(57) == 607 && Block2(607) == 445 && Block2(445) == 762 && Block2(762) == 127 && Block2(127) == 913
            && Block2(913) == 1016 && Block2(1016) == 511
  {
  }

  lemma Next1(m: nat, s: bv10, t: bv10)
    requires Run1(Ones, m) == s && Block1(s) == t
    ensures Run1(Ones, m + 73) == t
  {
    hide Block1, Run1;
    BlockClocks(s);
    Later(Ones, m, 73);
  }

  lemma Next2(m: nat, s: bv10, t: bv10)
    requires Run2(Ones, m) == s && Block2(s) == t
    ensures Run2(Ones, m + 73) == t
  {
    hide Block2, Run2;
    BlockClocks(s);
    Later(Ones, m, 73);
  }

  lemma Half1a()
    ensures Run1(Ones, 511) == 961 && Run1(Ones, 73) == 981 && Run1(Ones, 292) == 616
  {
    Table1a();
    assert Run1(Ones, 0) == Ones;
    hide Block1, Run1, Step1;
    Next1(0, 1023, 981); Next1(73, 981, 681); Next1(146, 681, 460); Next1(219, 460, 616); Next1(292, 616, 443);
    Next1(365, 443, 530); Next1(438, 530, 961);
  }

  lemma Half1b()
    requires Run1(Ones, 511) == 961
    ensures Run1(Ones, 1022) == 511
  {
    Table1b();
    hide Block1, Run1, Step1;
    Next1(511, 961, 87); Next1(584, 87, 633); Next1(657, 633, 709); Next1(730, 709, 439); Next1(803, 439, 109);
    Next1(876, 109, 4); Next1(949, 4, 511);
  }

  /** The register is all ones again after 1023 clocks. */
  lemma Register1()
    ensures Run1(Ones, 1023) == Ones
  {
    Half1a();
    Half1b();
    Last1();
    hide Run1, Step1;
    Later(Ones, 1022, 1);
    OneClock(511);
  }

  lemma Last1()
    ensures Step1(511) == Ones
  {
  }

  lemma Half2a()
    ensures Run2(Ones, 511) == 57
  {
    Table2a();
    assert Run2(Ones, 0) == Ones;
    hide Block2, Run2, Step2;
    Next2(0, 1023, 52); Next2(73, 52, 301); Next2(146, 301, 585); Next2(219, 585, 43); Next2(292, 43, 743);
    Next2(365, 743, 780); Next2(438, 780, 57);
  }

  lemma Half2b()
    requires Run2(Ones, 511) == 57
    ensures Run2(Ones, 1022) == 511
  {
    Table2b();
    hide Block2, Run2, Step2;
    Next2(511, 57, 607); Next2(584, 607, 445); Next2(657, 445, 762); Next2(730, 762, 127); Next2(803, 127, 913);
    Next2(876, 913, 1016); Next2(949, 1016, 511);
  }

  /** The register is all ones again after 1023 clocks. */
  lemma Register2()
    ensures Run2(Ones, 1023) == Ones
  {
    Half2a();
    Half2b();
    Last2();
    hide Run2, Step2;
    Later(Ones, 1022, 1);
    OneClock(511);
  }

  lemma Last2()
    ensures Step2(511) == Ones
  {
  }

  // ---- no shorter period ---------------------------------------------------------------

  predicate Period1(n: nat) { Run1(Ones, n) == Ones }

  lemma PeriodAdds(a: nat, b: nat)
    requires Period1(a)
    ensures Period1(a + b) <==> Period1(b)
  {
    Later(Ones, a, b);
  }

  lemma {:induction false} PeriodTimes(a: nat, k: nat)
    requires Period1(a)
    ensures Period1(a * k)
    decreases k
  {
    if k > 0 {
      PeriodTimes(a, k - 1);
      PeriodAdds(a, a * (k - 1));
      assert a + a * (k - 1) == a * k;
    }
  }

  lemma Distributes(g: nat, x: nat, y: nat)
    ensures g * (x + y) == g * x + g * y
  {
  }

  /** Two periods have a common divisor that is a period. */
  lemma {:induction false} PeriodGcd(a: nat, b: nat) returns (g: nat, x: nat, y: nat)
    requires a > 0 && b > 0 && Period1(a) && Period1(b)
    ensures 0 < g <= a && Period1(g) && a == g * x && b == g * y
    decreases a + b
  {
    if a == b {
      g, x, y := a, 1, 1;
    } else if a < b {
      PeriodAdds(a, b - a);
      g, x, y := PeriodGcd(a, b - a);
      Distributes(g, x, y);
      y := x + y;
    } else {
      PeriodAdds(b, a - b);
      g, y, x := PeriodGcd(b, a - b);
      Distributes(g, x, y);
      x := x + y;
    }
  }

  lemma SmallFactors(y: nat, g: nat)
    requires y * g == 1023 && y <= 33
    ensures y == 1 || y == 3 || y == 11 || y == 31 || y == 33
  {
    assert y != 0;
    assert y == 1 || y == 2 || y == 3 || y == 4 || y == 5 || y == 6 || y == 7 || y == 8 || y == 9 || y == 10 || y == 11
           || y == 12 || y == 13 || y == 14 || y == 15 || y == 16 || y == 17 || y == 18 || y == 19 || y == 20 || y == 21
           || y == 22 || y == 23 || y == 24 || y == 25 || y == 26 || y == 27 || y == 28 || y == 29 || y == 30 || y == 31
           || y == 32 || y == 33;
  }

  /** 1023 is 3 times 11 times 31. */
  lemma FactorsOf1023(g: nat, y: nat) returns (k: nat)
    requires g * y == 1023 && g < 1023
    ensures g * k == 341 || g * k == 93 || g * k == 33
  {
    if y <= 33 {
      SmallFactors(y, g);
      k := if y == 33 then 11 else 1;
    } else {
      assert g <= 33 by { if g > 33 { Product(g, y); } }
      SmallFactors(g, y);
      k := if g == 1 then 341 else 31;
    }
  }

  lemma Product(a: nat, b: nat)
    requires a > 33 && b > 33
    ensures a * b > 1023
  {
    assert a * b >= 34 * b;
  }

  lemma Not33()
    ensures !Period1(33)
  {
    assert Three1(Three1(Many1(Ones))) != Ones;
    hide Run1, Many1, Three1;
    ManyClocks(Ones);
    ThreeClocks(Many1(Ones));
    ThreeClocks(Three1(Many1(Ones)));
    Later(Ones, 27, 3);
    Later(Ones, 30, 3);
  }

  lemma Not93()
    ensures !Period1(93)
  {
    Half1a();
    assert Step1(Step1(Nine1(Nine1(981)))) != Ones;
    hide Run1, Nine1, Step1;
    NineClocks(981);
    NineClocks(Nine1(981));
    OneClock(Nine1(Nine1(981)));
    OneClock(Step1(Nine1(Nine1(981))));
    Later(Ones, 73, 9);
    Later(Ones, 82, 9);
    Later(Ones, 91, 1);
    Later(Ones, 92, 1);
  }

  lemma Literals341()
    ensures Many1(616) == 305 && Nine1(305) == 704 && Nine1(704) == 329 && Three1(329) == 587 && Step1(587) != Ones
  {
  }

  lemma Not341()
    ensures !Period1(341)
  {
    Half1a();
    Literals341();
    hide Run1, Many1, Nine1, Three1, Step1;
    ManyClocks(616);
    NineClocks(305);
    NineClocks(704);
    ThreeClocks(329);
    OneClock(587);
    Later(Ones, 292, 27);
    Later(Ones, 319, 9);
    Later(Ones, 328, 9);
    Later(Ones, 337, 3);
    Later(Ones, 340, 1);
  }

  /** The first register is all ones after `n` clocks exactly when `n` is a multiple of 1023. */
  lemma EpochIsPeriod(n: nat)
    ensures Period1(n) <==> n % 1023 == 0
  {
    Register1();
    var q, r := n / 1023, n % 1023;
    PeriodTimes(1023, q);
    PeriodAdds(1023 * q, r);
    if r == 0 {
      assert Run1(Ones, 0) == Ones;
    } else if Period1(r) {
      var g, x, y := PeriodGcd(r, 1023);
      var k := FactorsOf1023(g, y);
      PeriodTimes(g, k);
      Not33();
      Not93();
      Not341();
    }
  }

  /** States to which the second register returns after 1023 clocks. */
  predicate Returns(s: bv10) { Run2(s, 1023) == s }

  lemma SumReturns(a: bv10, b: bv10)
    requires Returns(a) && Returns(b)
    ensures Returns(Sum(a, b))
  {
    hide Run2, Sum;
    Linear(a, b, 1023);
  }

  lemma StepReturns(s: bv10)
    requires Returns(s)
    ensures Returns(Step2(s))
  {
    hide Run2, Step2;
    OneClock(s);
    Later(s, 1, 1023);
    Later(s, 1023, 1);
  }

  lemma OneReturns()
    ensures Returns(1) && Returns(0)
  {
    Register2();
    assert Step2(Ones) == 0x3fe && Sum(Ones, 0x3fe) == 1 && Sum(Ones, Ones) == 0;
    hide Run2, Step2, Sum;
    StepReturns(Ones);
    SumReturns(Ones, 0x3fe);
    SumReturns(Ones, Ones);
  }

  lemma StepIsShift(s: bv10)
    ensures Step2(s) == s << 1 || Sum(Step2(s), 1) == s << 1
  {
  }

  lemma LowestStage(s: bv10)
    ensures (s >> 1) << 1 == s || Sum((s >> 1) << 1, 1) == s
  {
  }

  /** One more stage. */
  lemma ShiftReturns(s: bv10)
    requires Returns(s >> 1)
    ensures Returns(s)
  {
    var h := (s >> 1) << 1;
    hide Returns, Step2, Sum, Run2;
    LowestStage(s);
    OneReturns();
    StepIsShift(s >> 1);
    StepReturns(s >> 1);
    SumReturns(Step2(s >> 1), 1);
    SumReturns(h, 1);
  }

  lemma Halves(s: bv10)
    ensures (s >> 9 == 0 || s >> 9 == 1) && (s >> 8) >> 1 == s >> 9 && (s >> 7) >> 1 == s >> 8
            && (s >> 6) >> 1 == s >> 7
    ensures (s >> 5) >> 1 == s >> 6 && (s >> 4) >> 1 == s >> 5 && (s >> 3) >> 1 == s >> 4 && (s >> 2) >> 1 == s >> 3
    ensures (s >> 1) >> 1 == s >> 2
  {
  }

  /** From every initial state the second register returns after 1023 clocks. */
  lemma AllReturn(s: bv10)
    ensures Run2(s, 1023) == s
  {
    hide Returns;
    OneReturns();
    Halves(s);
    ShiftReturns(s >> 8);
    ShiftReturns(s >> 7);
    ShiftReturns(s >> 6);
    ShiftReturns(s >> 5);
    ShiftReturns(s >> 4);
    ShiftReturns(s >> 3);
    ShiftReturns(s >> 2);
    ShiftReturns(s >> 1);
    ShiftReturns(s);
    ReturnsIs(s);
  }

  lemma ReturnsIs(s: bv10)
    requires Returns(s)
    ensures Run2(s, 1023) == s
  {
  }

  /** Chips repeat every 1023 clocks, for all taps, and for all initial states without taps. */
  lemma ChipsRepeat(t0: nat, t1: nat, init: bv10, n: nat)
    requires 1 <= t0 <= 10 && 1 <= t1 <= 10
    ensures TapChip(t0, t1, n + 1023) == TapChip(t0, t1, n)
    ensures InitChip(init, n + 1023) == InitChip(init, n)
  {
    Register1();
    Register2();
    AllReturn(init);
    hide Run1, Run2, Stage;
    Later(Ones, 1023, n);
    Later(init, 1023, n);
  }

  // ---- the code ------------------------------------------------------------------------

  function Bit(b: bool): bv10 { if b then 1 else 0 }

  function Ten(b1: bool, b2: bool, b3: bool, b4: bool, b5: bool, b6: bool, b7: bool, b8: bool, b9: bool,
      b10: bool): bv10 {
    Bit(b1) | (Bit(b2) << 1) | (Bit(b3) << 2) | (Bit(b4) << 3) | (Bit(b5) << 4)
    | (Bit(b6) << 5) | (Bit(b7) << 6) | (Bit(b8) << 7) | (Bit(b9) << 8) | (Bit(b10) << 9)
  }

  /** A register held in elements 1 to 10 of an array. */
  function Pack(b: seq<bool>): bv10
    requires |b| == 11
  {
    Ten(b[1], b[2], b[3], b[4], b[5], b[6], b[7], b[8], b[9], b[10])
  }

  lemma LowStages(b: seq<bool>)
    requires |b| == 11
    ensures Stage(Pack(b), 1) == b[1] && Stage(Pack(b), 2) == b[2] && Stage(Pack(b), 3) == b[3]
            && Stage(Pack(b), 4) == b[4] && Stage(Pack(b), 5) == b[5]
  {
  }

  lemma HighStages(b: seq<bool>)
    requires |b| == 11
    ensures Stage(Pack(b), 6) == b[6] && Stage(Pack(b), 7) == b[7] && Stage(Pack(b), 8) == b[8]
            && Stage(Pack(b), 9) == b[9] && Stage(Pack(b), 10) == b[10]
  {
  }

  lemma PackStages(b: seq<bool>)
    requires |b| == 11
    ensures forall i :: 1 <= i <= 10 ==> Stage(Pack(b), i) == b[i]
  {
    LowStages(b);
    HighStages(b);
    hide Pack, Stage;
    forall i | 1 <= i <= 10 ensures Stage(Pack(b), i) == b[i] {
      assert i == 1 || i == 2 || i == 3 || i == 4 || i == 5 || i == 6 || i == 7 || i == 8 || i == 9 || i == 10;
    }
  }

  lemma TenSteps1(b1: bool, b2: bool, b3: bool, b4: bool, b5: bool, b6: bool, b7: bool, b8: bool, b9: bool, b10: bool)
    ensures Ten(b3 != b10, b1, b2, b3, b4, b5, b6, b7, b8, b9) == Step1(Ten(b1, b2, b3, b4, b5, b6, b7, b8, b9, b10))
  {
  }

  lemma TenSteps2(b1: bool, b2: bool, b3: bool, b4: bool, b5: bool, b6: bool, b7: bool, b8: bool, b9: bool, b10: bool)
    ensures Ten(((((b2 != b3) != b6) != b8) != b9) != b10, b1, b2, b3, b4, b5, b6, b7, b8, b9)
            == Step2(Ten(b1, b2, b3, b4, b5, b6, b7, b8, b9, b10))
  {
  }

  lemma TenOnes(b1: bool, b2: bool, b3: bool, b4: bool, b5: bool, b6: bool, b7: bool, b8: bool, b9: bool, b10: bool)
    ensures Ten(b1, b2, b3, b4, b5, b6, b7, b8, b9, b10) == Ones <==>
            b1 && b2 && b3 && b4 && b5 && b6 && b7 && b8 && b9 && b10
  {
  }

  class Cacode {
    const g1: array<bool>
    const g2: array<bool>
    const t0: nat
    const t1: nat
    const g2_init: bool
    ghost var n: nat       // clocks so far
    ghost var init: bv10   // where the second register started

    ghost predicate Valid()
      reads this, g1, g2
    {
      && g1.Length == g2.Length == 11 && g1 != g2
      && (!g2_init ==> 1 <= t0 <= 10 && 1 <= t1 <= 10 && init == Ones)
      && Pack(g1[..]) == Run1(Ones, n) && Pack(g2[..]) == Run2(init, n)
    }

    /** Taps 1 to 10; if one is above 10, `t1` gives the initial state of the second register. */
    constructor (t0: nat, t1: nat)
      requires t0 <= 10 && t1 <= 10 ==> 1 <= t0 && 1 <= t1
      ensures Valid() && n == 0 && g2_init == (t0 > 10 || t1 > 10) && fresh(g1) && fresh(g2)
      ensures !g2_init ==> this.t0 == t0 && this.t1 == t1
      ensures g2_init ==> forall i :: 1 <= i <= 10 ==> Stage(init, i) == Odd(Down(t1, i - 1))
    {
      var a, b := new bool[11](_ => true), new bool[11](_ => true);
      var tapless := t0 > 10 || t1 > 10;
      TenOnes(true, true, true, true, true, true, true, true, true, true);
      if tapless { Load(b, t1); }
      PackStages(b[..]);
      g1, g2, this.t0, this.t1, g2_init := a, b, t0, t1, tapless;
      n, init := 0, Pack(b[..]);
      new;
      assert Run1(Ones, 0) == Ones && Run2(init, 0) == init;
    }

    /** A register moves up one stage, and `b` comes in. */
    method Move(a: array<bool>, b: bool)
      requires a.Length == 11
      modifies a
      ensures a[1] == b && forall i :: 2 <= i <= 10 ==> a[i] == old(a[i - 1])
    {
      a[0] := b;
      var i := 10;
      while i > 0
        invariant 0 <= i <= 10
        invariant forall k :: 0 < k <= i ==> a[k] == old(a[k])
        invariant a[0] == b
        invariant forall k :: i < k <= 10 ==> a[k] == if k == 1 then b else old(a[k - 1])
      {
        a[i] := a[i - 1];
        i := i - 1;
      }
    }

    method Clock()
      requires Valid()
      modifies g1, g2, this`n
      ensures Valid() && n == old(n) + 1 && init == old(init)
    {
      var a, b := g1[3] != g1[10], ((((g2[2] != g2[3]) != g2[6]) != g2[8]) != g2[9]) != g2[10];
      Clock1(a);
      Clock2(b);
      assert Pack(g1[..]) == Step1(old(Pack(g1[..])));
      hide Step1, Step2, Pack;
      n := n + 1;
    }

    method Clock1(a: bool)
      requires g1.Length == 11 && a == (g1[3] != g1[10])
      modifies g1
      ensures Pack(g1[..]) == Step1(old(Pack(g1[..])))
    {
      TenSteps1(g1[1], g1[2], g1[3], g1[4], g1[5], g1[6], g1[7], g1[8], g1[9], g1[10]);
      hide Step1, Ten;
      Move(g1, a);
    }

    method Clock2(b: bool)
      requires g2.Length == 11 && b == (((((g2[2] != g2[3]) != g2[6]) != g2[8]) != g2[9]) != g2[10])
      modifies g2
      ensures Pack(g2[..]) == Step2(old(Pack(g2[..])))
    {
      TenSteps2(g2[1], g2[2], g2[3], g2[4], g2[5], g2[6], g2[7], g2[8], g2[9], g2[10]);
      hide Step2, Ten;
      Move(g2, b);
    }

    method Chip() returns (c: bool)
      requires Valid()
      ensures c == if g2_init then InitChip(init, n) else TapChip(t0, t1, n)
    {
      PackStages(g1[..]);
      PackStages(g2[..]);
      hide Stage, Pack, Run1, Run2;
      c := if g2_init then g1[10] != g2[10] else (g1[10] != g2[t0]) != g2[t1];
    }

    method Epoch() returns (e: bool)
      requires Valid()
      ensures e <==> n % 1023 == 0
    {
      TenOnes(g1[1], g1[2], g1[3], g1[4], g1[5], g1[6], g1[7], g1[8], g1[9], g1[10]);
      EpochIsPeriod(n);
      hide Ten, Run1, Run2;
      e := g1[10] && g1[9] && g1[8] && g1[7] && g1[6] && g1[5] && g1[4] && g1[3] && g1[2] && g1[1];
    }
  }

  /** A number shifted down `i` times, and its lowest bit. */
  function Down(w: nat, i: nat): nat {
    if i == 0 then w else Down(w, i - 1) / 2
  }

  predicate Odd(w: nat) { w % 2 == 1 }

  /** The low ten bits of a number. */
  method Load(b: array<bool>, t1: nat)
    requires b.Length == 11
    modifies b
    ensures forall k :: 1 <= k <= 10 ==> b[k] == Odd(Down(t1, k - 1))
  {
    hide Odd;
    var w := t1;
    for i := 1 to 11
      invariant w == Down(t1, i - 1)
      invariant forall k :: 1 <= k < i ==> b[k] == Odd(Down(t1, k - 1))
    {
      b[i] := Odd(w);
      w := w / 2;
    }
  }
}
