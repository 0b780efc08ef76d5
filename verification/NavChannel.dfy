/**
 A tracking channel (`CHANNEL`) receiving L1 C/A bits: polling the ring buffer of the
 embedded CPU, parity checking in place, and the bit counts the satellite clock is built
 from. The ghost fields relate it to the stream of bits received since tracking began.
 */
module NavChannel {
  import opened NavParity
  import opened NavFrame
  import opened NavBin
  import opened Ephemeris
  import opened NavParser

  const MAX_NAV_BITS := 128
  const E1B_TSYM_PW := 500

  /** What a poll uploads: the write position and the ring of 16-bit words. */
  datatype Upload = Upload(navBits: nat, navBuf: seq<nat>)

  /** Bit `j` of a word, most significant first. */
  function WordBit(w: nat, j: nat): Bit
    requires j < 16
  {
    Shr(w, 15 - j) % 2
  }

  /** Place of stream position `n` in the ring: `n` modulo its size. */
  function RingIndex(n: nat): (i: nat)
    ensures i < MAX_NAV_BITS
  {
    if n < MAX_NAV_BITS then n else RingIndex(n - MAX_NAV_BITS)
  }

  lemma {:induction false} RingIndexIsMod(n: nat)
    ensures RingIndex(n) == n % MAX_NAV_BITS
  {
    if n >= MAX_NAV_BITS {
      RingIndexIsMod(n - MAX_NAV_BITS);
      assert n % MAX_NAV_BITS == (n - MAX_NAV_BITS) % MAX_NAV_BITS;
    }
  }

  /** The upload shows a stream of bits of which `read` have been read: counting starts at
      ring position `base`, unread bits fit the ring, and all complete words are in place. */
  ghost predicate Shows(u: Upload, base: nat, hw: Bits, read: nat) {
    && |u.navBuf| == MAX_NAV_BITS / 16
    && RingIndex(u.navBits) == RingIndex(base + |hw|)
    && read <= |hw| < read + MAX_NAV_BITS
    && forall k :: read <= k < read + (|hw| - read) / 16 * 16 ==>
         hw[k] == WordBit(u.navBuf[RingIndex(base + k) / 16], RingIndex(base + k) % 16)
  }

  /** `b` is `all` with its first `i` words unmasked. */
  ghost predicate UnmaskedTo(b: Bits, all: Bits, i: nat, phase: Bit) {
    SUBFRAME <= |all| && i <= 10 && b == Decoded(all[..SUBFRAME], i, phase) + all[WORD * i..]
  }

  /** Words before `i` are good and unmasked, and `p4`, `p5` are the bits the next one needs. */
  ghost predicate Progress(b: Bits, all: Bits, i: nat, phase: Bit, p4: Bit, p5: Bit) {
    && UnmaskedTo(b, all, i, phase)
    && p4 == NavFrame.D29(all[..SUBFRAME], i, phase) && p5 == NavFrame.D30(all[..SUBFRAME], i, phase)
    && FirstBad(all[..SUBFRAME], 0, phase) == FirstBad(all[..SUBFRAME], i, phase)
  }

  /** A buffer whose first `i` words have been replaced. */
  lemma SplitAtWord(b: Bits, done: Bits, all: Bits, i: nat)
    requires i < 10 && |done| == WORD * i && SUBFRAME <= |all| && b == done + all[WORD * i..]
    ensures |b| == |all| && b[..WORD * i] == done
    ensures b[WORD * i..WORD * i + WORD] == Word(all[..SUBFRAME], i)
    ensures b[WORD * i + WORD..] == all[WORD * i + WORD..]
  {
    assert b[WORD * i..] == all[WORD * i..];
    assert b[WORD * i..WORD * i + WORD] == b[WORD * i..][..WORD];
    assert Word(all[..SUBFRAME], i) == all[WORD * i..][..WORD];
    assert b[WORD * i + WORD..] == b[WORD * i..][WORD..];
  }

  /** One word more. */
  lemma ProgressStep(b: Bits, c: Bits, all: Bits, i: nat, phase: Bit, p4: Bit, p5: Bit, p: Bits, wrong: bool)
    requires i < 10 && Progress(b, all, i, phase, p4, p5) && WORD * i + WORD <= |b|
    requires c == b[..WORD * i] + Unmask(b[WORD * i..WORD * i + WORD], p5) + b[WORD * i + WORD..]
    requires p == Parity(Unmask(b[WORD * i..WORD * i + WORD], p5)[..DATA], p4, p5)
    requires wrong <==> !WordOk(b[WORD * i..WORD * i + WORD], p4, p5)
    ensures wrong ==> FirstBad(all[..SUBFRAME], 0, phase) == i && UnmaskedTo(c, all, i + 1, phase)
    ensures !wrong ==> Progress(c, all, i + 1, phase, p[4], p[5])
  {
    var raw := all[..SUBFRAME];
    SplitAtWord(b, Decoded(raw, i, phase), all, i);
    ProgressText(b, c, all, i, phase, p4, p5);
    hide UnmaskedTo, Decoded, Unmask, WordOk, Parity, Word, FirstBad;
    FirstBadStep(raw, i, phase);
    if !wrong { CarriedOn(raw, i, phase, p4, p5, p); }
  }

  lemma FirstBadStep(raw: Bits, i: nat, phase: Bit)
    requires |raw| == SUBFRAME && i < 10
    ensures FirstBad(raw, i, phase) ==
            if WordOk(Word(raw, i), NavFrame.D29(raw, i, phase), NavFrame.D30(raw, i, phase))
            then FirstBad(raw, i + 1, phase) else i
  {
  }

  lemma CarriedOn(raw: Bits, i: nat, phase: Bit, p4: Bit, p5: Bit, p: Bits)
    requires |raw| == SUBFRAME && i < 10 && WordOk(Word(raw, i), p4, p5)
    requires p == Parity(Unmask(Word(raw, i), p5)[..DATA], p4, p5)
    ensures p[4] == NavFrame.D29(raw, i + 1, phase) && p[5] == NavFrame.D30(raw, i + 1, phase)
  {
    var w := Word(raw, i);
    hide Parity, Unmask;
    assert p == w[DATA..];
    assert w[DATA + 4] == p[4] && w[DATA + 5] == p[5];
  }

  lemma ProgressText(b: Bits, c: Bits, all: Bits, i: nat, phase: Bit, p4: Bit, p5: Bit)
    requires i < 10 && Progress(b, all, i, phase, p4, p5) && WORD * i + WORD <= |b|
    requires c == b[..WORD * i] + Unmask(b[WORD * i..WORD * i + WORD], p5) + b[WORD * i + WORD..]
    ensures UnmaskedTo(c, all, i + 1, phase)
  {
    SplitAtWord(b, Decoded(all[..SUBFRAME], i, phase), all, i);
    hide Unmask;
  }

  lemma DecodeOutcome(b: Bits, all: Bits, bad: nat, phase: Bit)
    requires SUBFRAME <= |all| && HasPreamble(all[..SUBFRAME]) && phase == Phase(all[..SUBFRAME])
    requires bad == FirstBad(all[..SUBFRAME], 0, phase) && UnmaskedTo(b, all, if bad < 10 then bad + 1 else bad, phase)
    ensures |b| == |all|
    ensures bad < 10 ==> Judge(all[..SUBFRAME]) == BadWord(bad) && b[WORD * bad + WORD..] == all[WORD * bad + WORD..]
    ensures bad == 10 ==>
            Judge(all[..SUBFRAME]).Good? && b[..SUBFRAME] == Judge(all[..SUBFRAME]).data
            && b[SUBFRAME..] == all[SUBFRAME..]
  {
  }

  /** What has been heard after these frames. */
  function HeardAll(start: Broadcast, frames: seq<Frame>, navstar: bool): Broadcast {
    if frames == [] then start
    else Heard(HeardAll(start, frames[..|frames| - 1], navstar), frames[|frames| - 1].data, navstar)
  }

  /** The latest frame with this subframe number, or -1. */
  function Latest(frames: seq<Frame>, id: nat): (k: int)
    ensures -1 <= k < |frames|
    ensures k >= 0 ==> SubframeId(frames[k].data) == id
    ensures forall j :: k < j < |frames| ==> SubframeId(frames[j].data) != id
  {
    if frames == [] then -1
    else if SubframeId(frames[|frames| - 1].data) == id then |frames| - 1
    else Latest(frames[..|frames| - 1], id)
  }

  /** The terms of each of the subframes 1 to 3 are those of the latest one accepted, or from
      before the session. */
  lemma {:induction false} HeardIsLatest(start: Broadcast, frames: seq<Frame>, navstar: bool)
    ensures var b := HeardAll(start, frames, navstar);
            && b.one == (var k := Latest(frames, 1); if k < 0 then start.one else Sub1Of(frames[k].data))
            && b.two == (var k := Latest(frames, 2); if k < 0 then start.two else Sub2Of(frames[k].data))
            && b.three == (var k := Latest(frames, 3); if k < 0 then start.three else Sub3Of(frames[k].data))
  {
    hide SubframeId, Sub1Of, Sub2Of, Sub3Of, IonoOf, IsPage18, Tow;
    if frames != [] { HeardIsLatest(start, frames[..|frames| - 1], navstar); }
  }

  /** The issue number that subframes 1, 2 and 3 carry. */
  function Issue(d: SubframeBits): nat {
    if SubframeId(d) == 1 then Get(d, 210, 8) else if SubframeId(d) == 2 then Get(d, 60, 8) else Get(d, 270, 8)
  }

  /** Once subframes 1, 2 and 3 have been accepted, the ephemeris is valid exactly when the
      latest of each carry one issue number, not zero. */
  lemma ValidIsOneIssue(start: Broadcast, frames: seq<Frame>, navstar: bool)
    requires Latest(frames, 1) >= 0 && Latest(frames, 2) >= 0 && Latest(frames, 3) >= 0
    ensures OneIssue(HeardAll(start, frames, navstar)) <==>
            var i := Issue(frames[Latest(frames, 1)].data);
            i != 0 && i == Issue(frames[Latest(frames, 2)].data) == Issue(frames[Latest(frames, 3)].data)
  {
    HeardIsLatest(start, frames, navstar);
    hide Latest, HeardAll, Get;
  }

  /** `bits_tow` counts the bits, of `n` read, since the end of the last accepted subframe,
      and the ephemeris holds what the accepted ones said. */
  ghost predicate TowCounted(bits_tow: int, heard: Broadcast, start: Broadcast, n: nat, frames: seq<Frame>,
      navstar: bool)
  {
    && heard == HeardAll(start, frames, navstar)
    && (frames != [] ==> bits_tow == n - frames[|frames| - 1].end)
  }

  /** A round without error adds its frame, any other none. */
  ghost predicate FramesAfter(p: Parser, q: Parser, v: Verdict, err: nat) {
    if err == 0 then
      v.Good? && q.frames == p.frames + [Frame(p.pos + SUBFRAME, v.data)] && q.lastSub == SubframeId(v.data)
          && q.pos == p.pos + SUBFRAME
    else q.frames == p.frames
  }

  lemma SameFramesAfter(p: Parser, p': Parser, q: Parser, v: Verdict, err: nat)
    requires p'.frames == p.frames && p'.pos == p.pos && FramesAfter(p', q, v, err)
    ensures FramesAfter(p, q, v, err)
  {
  }

  /** `b1` is what is left of `b0`, which held the stream from `pos` on, once the first `n`
      bits have served; the rest is untouched. */
  ghost predicate Served(b0: Bits, b1: Bits, r: Bits, pos: nat, held: nat, n: nat) {
    && |b0| == |b1| && n <= held <= |b0| && pos + held == |r|
    && b0[..held] == r[pos..] && b1[n..] == b0[n..]
  }

  lemma MovedDown(b0: Bits, b1: Bits, b2: Bits, r: Bits, pos: nat, held: nat, n: nat)
    requires Served(b0, b1, r, pos, held, n) && held - n <= |b2| && b2[..held - n] == b1[n..held]
    ensures b2[..held - n] == r[pos + n..]
  {
    assert b1[n..held] == b1[n..][..held - n] == b0[n..][..held - n] == b0[..held][n..];
  }

  class Channel {
    const drop: bool             // debugging option: simulate lost preambles
    const buf: array<Bit>
    const ephemeris: Ephem
    var holding: nat
    var rd_pos: nat
    var bits_tow: int
    var probation: nat
    var alert: bool
    var LASTsub: nat
    var drop_seq: nat

    ghost var base: nat          // ring position of the first bit of the session
    ghost var read: Bits         // bits read from the ring since then
    ghost var parser: Parser     // what the reference parser knows
    ghost var before: Broadcast  // what the ephemeris held when the session began

    /** Between two rounds of the inner loop: the fields agree with the parser. */
    ghost predicate Consistent()
      reads this, buf, ephemeris
    {
      && Buffered(read, parser.pos) && Holds(parser, 1) && CountsBits(read, parser.frames)
      && PROBATION <= parser.probation + |parser.frames|
    }

    /** The buffer holds the bits read from the ring and not yet shifted out. */
    ghost predicate Buffered(read: Bits, pos: nat)
      reads this, buf
    {
      InRing(|read|) && pos + holding == |read| && holding <= buf.Length && buf[..holding] == read[pos..]
    }

    /** The read position is that of stream bit `n`, on a word boundary. */
    ghost predicate InRing(n: nat)
      reads this`rd_pos, this`base
    {
      buf.Length == E1B_TSYM_PW + MAX_NAV_BITS - 1 && rd_pos == RingIndex(base + n) && rd_pos % 16 == 0
    }

    ghost predicate CountsBits(read: Bits, frames: seq<Frame>)
      reads this, ephemeris
    {
      TowCounted(bits_tow, ephemeris.View(), before, |read|, frames, ephemeris.navstar)
    }

    /** Between two polls: everything read has been parsed. */
    ghost predicate Valid()
      reads this, buf, ephemeris
    {
      Consistent() && holding < SUBFRAME
    }

    constructor (drop: bool, ephemeris: Ephem)
      ensures this.drop == drop && this.ephemeris == ephemeris && rd_pos == 0 && fresh(buf)
      ensures buf.Length == E1B_TSYM_PW + MAX_NAV_BITS - 1
    {
      this.drop, this.ephemeris, rd_pos, holding := drop, ephemeris, 0, 0;
      buf := new Bit[E1B_TSYM_PW + MAX_NAV_BITS - 1];
    }

    /** `Reset` and the start of `Tracking`; the ring is taken from where it was left. */
    method Begin()
      requires buf.Length == E1B_TSYM_PW + MAX_NAV_BITS - 1 && rd_pos < MAX_NAV_BITS && rd_pos % 16 == 0
      modifies this
      ensures Valid() && read == [] && Fresh(parser) && base == rd_pos == old(rd_pos) && before == ephemeris.View()
    {
      probation, alert := PROBATION, false;
      holding, drop_seq := 0, 0;
      base, read, before := rd_pos, [], ephemeris.View();

      parser := Parser(0, PROBATION, false, LASTsub, 0, []);
    }

    /** The first loop of `L1_parity`, on the word at `off`. */
    method Unscramble(off: nat, D30: Bit, ghost b: Bits)
      requires off + WORD <= buf.Length && b == buf[..]
      modifies buf
      ensures buf[..] == b[..off] + Unmask(b[off..off + WORD], D30) + b[off + WORD..]
    {
      for i := 1 to 25
        invariant forall k :: off <= k < off + i - 1 ==> buf[k] == Xor(b[k], D30)
        invariant forall k :: 0 <= k < off || off + i - 1 <= k < buf.Length ==> buf[k] == b[k]
      {
        buf[off - 1 + i] := Xor(buf[off - 1 + i], D30);
      }
      Unscrambled(b, buf[..], off, D30);
    }

    /** `L1_parity` on the word at `off`. */
    method L1Parity(off: nat, D29: Bit, D30: Bit, ghost b: Bits) returns (p: Bits, bad: bool)
      requires off + WORD <= buf.Length && b == buf[..]
      modifies buf
      ensures buf[..] == b[..off] + Unmask(b[off..off + WORD], D30) + b[off + WORD..]
      ensures p == Parity(Unmask(b[off..off + WORD], D30)[..DATA], D29, D30)
      ensures bad <==> !WordOk(b[off..off + WORD], D29, D30)
    {
      ghost var w := b[off..off + WORD];
      Unscramble(off, D30, b);
      var d := buf[off..off + DATA];
      assert d == Unmask(w, D30)[..DATA];
      p := Equations(d, D29, D30);
      assert buf[off + DATA..off + WORD] == w[DATA..];
      bad := buf[off + DATA..off + WORD] != p;
    }

    /** Word `i`, when the words before it have been unmasked. */
    method CheckWord(i: nat, p4: Bit, p5: Bit, ghost phase: Bit, ghost all: Bits)
        returns (q4: Bit, q5: Bit, wrong: bool)
      requires i < 10 && |all| == buf.Length && Progress(buf[..], all, i, phase, p4, p5)
      modifies buf
      ensures if wrong then Checked(buf[..], all, phase, i) else Progress(buf[..], all, i + 1, phase, q4, q5)
    {
      ghost var b := buf[..];
      var p;
      p, wrong := L1Parity(WORD * i, p4, p5, b);
      q4, q5 := p[4], p[5];
      ProgressStep(b, buf[..], all, i, phase, p4, p5, p, wrong);
    }

    lemma ProgressStart(all: Bits, phase: Bit)
      requires SUBFRAME <= |all|
      ensures Progress(all, all, 0, phase, phase, phase)
    {
    }

    lemma ProgressEnd(b: Bits, all: Bits, phase: Bit, p4: Bit, p5: Bit)
      requires Progress(b, all, 10, phase, p4, p5)
      ensures Checked(b, all, phase, 10)
    {
    }

    /** Word `bad` is the first bad one, and the buffer is unmasked up to it. */
    ghost predicate Checked(b: Bits, all: Bits, phase: Bit, bad: nat) {
      SUBFRAME <= |all| && bad == FirstBad(all[..SUBFRAME], 0, phase)
          && UnmaskedTo(b, all, if bad < 10 then bad + 1 else bad, phase)
    }

    /** The word loop of `ParityCheck`: index of the first bad word, or 10. */
    method CheckWords(phase: Bit, ghost all: Bits) returns (bad: nat)
      requires SUBFRAME <= |all| == buf.Length && buf[..] == all
      modifies buf
      ensures Checked(buf[..], all, phase, bad)
    {
      var p4, p5, wrong := phase, phase, false;
      bad := 0;
      ProgressStart(all, phase);
      hide Progress, Checked;
      while bad < 10
        invariant bad <= 10 && Progress(buf[..], all, bad, phase, p4, p5)
      {
        p4, p5, wrong := CheckWord(bad, p4, p5, phase, all);
        if wrong { return; }
        bad := bad + 1;
      }
      ProgressEnd(buf[..], all, phase, p4, p5);
    }

    /** The preamble test, which also settles the phase. */
    method FindPreamble() returns (found: bool, phase: Bit)
      requires SUBFRAME <= buf.Length
      ensures found <==> HasPreamble(buf[..][..SUBFRAME])
      ensures found ==> phase == Phase(buf[..][..SUBFRAME])
    {
      assert buf[..8] == buf[..][..SUBFRAME][..8];
      found, phase := true, 0;
      if buf[..8] == PREAMBLE {
        phase := 0;
      } else if buf[..8] == INVERSE {
        phase := 1;
      } else {
        found := false;
      }
    }

    /** The words behind a preamble; `v` is the judgement on them. */
    method Decode(phase: Bit, ghost v: Verdict) returns (bad: nat)
      requires SUBFRAME <= buf.Length && HasPreamble(buf[..][..SUBFRAME]) && phase == Phase(buf[..][..SUBFRAME])
      requires v == Judge(buf[..][..SUBFRAME])
      modifies buf
      ensures bad <= 10 && (bad < 10 ==> v == BadWord(bad)) && (bad == 10 ==> v.Good? && buf[..SUBFRAME] == v.data)
      ensures var n := if bad < 10 then WORD * bad + WORD else SUBFRAME; buf[n..] == old(buf[..])[n..]
    {
      ghost var all := buf[..];
      bad := CheckWords(phase, all);
      DecodeOutcome(buf[..], all, bad, phase);
      assert buf[..SUBFRAME] == buf[..][..SUBFRAME];
    }

    /** The outcome `q` of a round is in the fields; the caller still sets `LASTsub` on success. */
    ghost predicate Holds(q: Parser, err: nat)
      reads this
    {
      (probation, alert, drop_seq) == (q.probation, q.alert, q.dropSeq) && (err != 0 ==> LASTsub == q.lastSub)
    }

    /** `ParityCheck` behind the preamble. */
    method CheckSubframe(phase: Bit, ghost p: Parser, ghost v: Verdict) returns (err: nat, nbits: nat)
      requires SUBFRAME <= holding <= buf.Length && HasPreamble(buf[..][..SUBFRAME])
               && phase == Phase(buf[..][..SUBFRAME])
      requires v == Judge(buf[..][..SUBFRAME]) && Holds(p, 1)
      modifies this`probation, this`alert, this`bits_tow, buf, ephemeris
      ensures !v.NoPreamble? && Holds(Check(p, v, drop), err) && FramesAfter(p, Check(p, v, drop), v, err)
      ensures nbits == Check(p, v, drop).pos - p.pos <= SUBFRAME
      ensures err == 0 ==>
                bits_tow == holding - SUBFRAME
                    && ephemeris.View() == Heard(old(ephemeris.View()), v.data, ephemeris.navstar)
      ensures err != 0 ==> bits_tow == old(bits_tow) && ephemeris.View() == old(ephemeris.View())
      ensures buf[nbits..] == old(buf[..])[nbits..]
    {
      var bad := Decode(phase, v);
      if bad < 10 {
        if !(drop && LASTsub == 4) { probation := PROBATION; }
        nbits := WORD * bad + WORD;
        err := nbits;
      } else {
        Accept(p, v.data);
        nbits := SUBFRAME;
        err := 0;
      }
    }

    /** `ParityCheck` on at least 300 held bits: how many to shift out, and 0 or that number.
        `v` is the judgement on the first 300, `p` the parser before. */
    method ParityCheck(ghost p: Parser, ghost v: Verdict) returns (err: nat, nbits: nat)
      requires SUBFRAME <= holding <= buf.Length && v == Judge(buf[..][..SUBFRAME]) && Holds(p, 1)
      modifies this`probation, this`alert, this`LASTsub, this`drop_seq, this`bits_tow, buf, ephemeris
      ensures Holds(Advance(p, v, drop), err) && FramesAfter(p, Advance(p, v, drop), v, err)
      ensures nbits == Advance(p, v, drop).pos - p.pos <= SUBFRAME
      ensures err == 0 ==>
                bits_tow == holding - SUBFRAME
                    && ephemeris.View() == Heard(old(ephemeris.View()), v.data, ephemeris.navstar)
      ensures err != 0 ==> bits_tow == old(bits_tow) && ephemeris.View() == old(ephemeris.View())
      ensures buf[nbits..] == old(buf[..])[nbits..]
    {
      hide Heard, Check;
      var found, phase := FindPreamble();
      hide Judge, HasPreamble;
      if !found { return 1, 1; }
      if drop && LASTsub == 3 {
        drop_seq, LASTsub := drop_seq + 1, 4;
        if drop_seq % 2 == 1 { return 1, 1; }
        ghost var p' := p.(lastSub := 4, dropSeq := p.dropSeq + 1);
        err, nbits := CheckSubframe(phase, p', v);
        assert Advance(p, v, drop) == Check(p', v, drop);
        SameFramesAfter(p, p', Check(p', v, drop), v, err);
      } else {
        err, nbits := CheckSubframe(phase, p, v);
        assert Advance(p, v, drop) == Check(p, v, drop);
      }
    }

    /** A subframe without parity errors, unmasked at the start of the buffer. */
    method Accept(ghost p: Parser, ghost d: SubframeBits)
      requires SUBFRAME <= buf.Length && buf[..SUBFRAME] == d && Holds(p, 1)
      modifies this`probation, this`alert, this`bits_tow, ephemeris
      ensures Holds(Check(p, Good(d), drop), 0)
      ensures bits_tow == holding - SUBFRAME && ephemeris.View() == Heard(old(ephemeris.View()), d, ephemeris.navstar)
    {
      hide Heard, SubframeId;
      var a := Bin(buf, 47, 1);
      assert a == buf[47] == d[47];
      hide Get;
      alert := a == 1;
      ephemeris.Subframe(buf, d);
      if probation > 0 { probation := probation - 1; }
      bits_tow := holding - SUBFRAME;
    }

    /** One round of the inner loop of `Tracking`, on the fields: from `p` to `q`. */
    method ParseAndShift(ghost r: Bits, ghost p: Parser, ghost v: Verdict) returns (ghost q: Parser)
      requires holding >= SUBFRAME && Buffered(r, p.pos) && Holds(p, 1) && CountsBits(r, p.frames)
      requires v == Judge(Next(r, p.pos))
      modifies this`holding, this`probation, this`alert, this`LASTsub, this`drop_seq, this`bits_tow, buf, ephemeris
      ensures q == Advance(p, v, drop) && Buffered(r, q.pos) && Holds(q, 1) && CountsBits(r, q.frames)
    {
      ghost var b0 := buf[..];
      assert b0[..SUBFRAME] == buf[..holding][..SUBFRAME] == Next(r, p.pos);
      hide Ephem.View, Heard;
      ghost var heard := ephemeris.View();
      var err, nbits := ParityCheck(p, v);
      q := Advance(p, v, drop);
      Shift(err, nbits, b0, r, p, q, v, heard);
    }

    /** The rest of the round, once `ParityCheck` has answered. */
    method Shift(err: nat, nbits: nat, ghost b0: Bits, ghost r: Bits, ghost p: Parser, ghost q: Parser,
        ghost v: Verdict, ghost heard: Broadcast)
      requires Holds(q, err) && FramesAfter(p, q, v, err) && InRing(|r|)
      requires nbits == q.pos - p.pos && Served(b0, buf[..], r, p.pos, holding, nbits)
      requires if err == 0 then bits_tow == holding - SUBFRAME
               && ephemeris.View() == Heard(heard, v.data, ephemeris.navstar)
                                && heard == HeardAll(before, p.frames, ephemeris.navstar)
               else CountsBits(r, p.frames)
      modifies this`holding, this`LASTsub, buf
      ensures Buffered(r, q.pos) && Holds(q, 1) && CountsBits(r, q.frames)
    {
      ghost var b1, held := buf[..], holding;
      if err == 0 { LASTsub := ephemeris.sub; }
      MoveDown(nbits);
      MovedDown(b0, b1, buf[..], r, p.pos, held, nbits);
      assert buf[..][..holding] == buf[..holding];
    }

    /** `memmove(buf, buf+nbits, holding-=nbits)`. */
    method MoveDown(nbits: nat)
      requires nbits <= holding <= buf.Length
      modifies buf, this`holding
      ensures holding == old(holding) - nbits && buf[..holding] == old(buf[..])[nbits..old(holding)]
    {
      holding := holding - nbits;
      forall k | 0 <= k < holding {
        buf[k] := buf[k + nbits];
      }
    }

    method Round()
      requires Consistent() && holding >= SUBFRAME
      modifies this`holding, this`probation, this`alert, this`LASTsub, this`drop_seq, this`bits_tow, this`parser, buf,
               ephemeris
      ensures Consistent() && parser == Step(read, old(parser), drop)
    {
      ProbationFrames(parser, Judge(Next(read, parser.pos)), drop);
      parser := ParseAndShift(read, parser, Judge(Next(read, parser.pos)));
    }

    /** `RemoteBits`: bits written to the ring and not read. (`&` with a power of two less one
        is the remainder, also of a negative difference.) */
    method RemoteBits(wr_pos: nat, ghost n: nat, ghost m: nat) returns (remote: nat)
      requires InRing(n) && RingIndex(wr_pos) == RingIndex(base + m) && n <= m < n + MAX_NAV_BITS
      ensures remote == m - n
    {
      RingIndexIsMod(base + n); RingIndexIsMod(base + m); RingIndexIsMod(wr_pos);
      Unread(wr_pos, base, rd_pos, n, m);
      remote := (wr_pos - rd_pos) % MAX_NAV_BITS;
    }

    /** One ring word into the buffer, most significant bit first. */
    method ReadWord(ring: nat, ghost bits: Bits)
      requires holding + 16 <= buf.Length
      requires |bits| == 16 && forall j :: 0 <= j < 16 ==> bits[j] == WordBit(ring, j)
      modifies this`holding, this`rd_pos, this`bits_tow, buf
      ensures holding == old(holding) + 16 && buf[..holding] == old(buf[..holding]) + bits
      ensures rd_pos == (old(rd_pos) + 16) % MAX_NAV_BITS && bits_tow == old(bits_tow) + 16
    {
      var word := ring;
      ghost var held := buf[..holding];
      assert Pow2(0) == 1;
      for i := 0 to 16
        invariant holding == old(holding) + i && buf[..holding] == held + bits[..i]
        invariant word == ring * Pow2(i) && rd_pos == old(rd_pos) && bits_tow == old(bits_tow)
      {
        word := word * 2;
        Doubled(ring, Pow2(i));
        ShrPadding(ring, i + 1, 15 - i);
        buf[holding] := Shr(word, 16) % 2;
        holding := holding + 1;
      }
      assert bits[..16] == bits;
      rd_pos := (rd_pos + 16) % MAX_NAV_BITS;
      bits_tow := bits_tow + 16;
    }

    /** One word of the ring, the next 16 bits of the stream. */
    method ReadNext(ring: nat, ghost pos: nat, ghost hw: Bits)
      requires Buffered(read, pos) && read <= hw && |read| + 16 <= |hw| && holding + 16 <= buf.Length
      requires forall j :: 0 <= j < 16 ==> hw[|read| + j] == WordBit(ring, j)
      modifies this`holding, this`rd_pos, this`bits_tow, this`read, buf
      ensures Buffered(read, pos) && read <= hw && |read| == old(|read|) + 16
      ensures bits_tow == old(bits_tow) + 16
    {
      ghost var bits, r, b := hw[|read|..|read| + 16], read, buf[..holding];
      ReadWord(ring, bits);
      read := read + bits;
      assert (b + bits) == read[pos..];
      NextIndex(base + |r|);
    }

    /** `avail` bits of the words unread at first, when `r0` had been read, are left. */
    ghost predicate Reading(r0: Bits, pos: nat, hw: Bits, avail: nat, delta: int)
      reads this, buf
    {
      && Buffered(read, pos) && r0 <= read <= hw && bits_tow - |read| == delta
      && Left(avail, |r0|, |read|, |hw|) && |r0| < pos + SUBFRAME
    }

    method ReadOne(u: Upload, avail: nat, ghost r0: Bits, ghost pos: nat, ghost hw: Bits, ghost delta: int)
      requires Reading(r0, pos, hw, avail, delta) && avail > 0 && Shows(u, base, hw, |r0|)
      modifies this`holding, this`rd_pos, this`bits_tow, this`read, buf
      ensures avail >= 16 && Reading(r0, pos, hw, avail - 16, delta)
    {
      NextWord(u, base, hw, |r0|, |read|, rd_pos, avail);
      ReadNext(u.navBuf[rd_pos / 16], pos, hw);
    }

    /** The reading loop of one poll: all complete words of the ring. */
    method ReadRing(u: Upload, ghost pos: nat, ghost hw: Bits)
      requires Buffered(read, pos) && holding < SUBFRAME && read <= hw && Shows(u, base, hw, |read|)
      modifies this`holding, this`rd_pos, this`bits_tow, this`read, buf
      ensures Buffered(read, pos) && ReadWords(old(read), read, hw)
      ensures bits_tow - |read| == old(bits_tow - |read|)
    {
      ghost var r0, delta := read, bits_tow - |read|;
      var remote := RemoteBits(u.navBits, |read|, |hw|);
      var avail: nat := remote / 16 * 16;
      while avail > 0
        invariant Reading(r0, pos, hw, avail, delta)
      {
        ReadOne(u, avail, r0, pos, hw, delta);
        avail := avail - 16;
      }
    }

    /** The inner loop: parse as far as the bits go. */
    method ParseAll()
      requires Consistent()
      modifies this`holding, this`probation, this`alert, this`LASTsub, this`drop_seq, this`bits_tow, this`parser, buf,
               ephemeris
      ensures Valid() && parser == Run(read, old(parser), drop)
    {
      ghost var p := parser;
      while holding >= SUBFRAME
        invariant Consistent() && Run(read, parser, drop) == Run(read, p, drop)
        decreases |read| - parser.pos
      {
        Round();
      }
    }

    /** One poll: take all complete words of the ring, then parse. */
    method Poll(u: Upload, ghost hw: Bits)
      requires Valid() && read <= hw && Shows(u, base, hw, |read|)
      modifies this`holding, this`rd_pos, this`bits_tow, this`read, this`probation, this`alert, this`LASTsub,
               this`drop_seq, this`parser, buf, ephemeris
      ensures Valid() && ReadWords(old(read), read, hw)
      ensures parser == Run(read, old(parser), drop)
    {
      ReadRing(u, parser.pos, hw);
      ParseAll();
    }

    /** A whole session: reset, then any number of polls. Poll `i` shows the stream `hws[i]`;
        whole words only have been read before it. */
    method Tracking(us: seq<Upload>, ghost hws: seq<Bits>)
      returns (ghost start: Parser)
      requires buf.Length == E1B_TSYM_PW + MAX_NAV_BITS - 1 && rd_pos < MAX_NAV_BITS && rd_pos % 16 == 0
      requires |us| == |hws| && Session(us, hws, rd_pos)
      modifies this, buf, ephemeris
      ensures Valid() && Fresh(start) && parser == Run(read, start, drop)
      ensures read == if us == [] then [] else WholeWords(hws[|us| - 1])
      ensures ephemeris.View() == HeardAll(old(ephemeris.View()), parser.frames, ephemeris.navstar)
    {
      Begin();
      start := parser;
      for i := 0 to |us|
        invariant Valid() && base == old(rd_pos) && parser == Run(read, start, drop)
        invariant before == old(ephemeris.View())
        invariant read == if i == 0 then [] else WholeWords(hws[i - 1])
      {
        ghost var r := read;
        SessionAt(us, hws, base, i);
        Poll(us[i], hws[i]);
        RunResumes(r, read, start, drop);
        AllWordsRead(r, read, hws[i]);
      }
    }

    /** What the position solver gets: all bits not shifted out, here and in the ring, and
        those since the end of the last accepted subframe; nothing on probation or alert. */
    method GetSnapshot(wr_pos: nat, include_alert: bool, ghost hw: Bits) returns (s: Snapshot)
      requires Consistent() && read <= hw && |hw| < |read| + MAX_NAV_BITS
      requires RingIndex(wr_pos) == RingIndex(base + |hw|)
      ensures s.NotReady? <==> (alert && !include_alert) || probation > 0
      ensures s.Ready? ==> |parser.frames| >= 2 &&
                           s.bits == |hw| - parser.pos && s.bits_tow == |hw| - parser.frames[|parser.frames| - 1].end
    {
      if alert && !include_alert { return NotReady; }
      if probation > 0 { return NotReady; }
      var remote := RemoteBits(wr_pos, |read|, |hw|);
      s := Ready(holding + remote, bits_tow + remote);
    }
  }

  datatype Snapshot = NotReady | Ready(bits: int, bits_tow: int)

  /** Reading went from `r` to `s`: every complete word of `hw` behind `r`. */
  ghost predicate ReadWords(r: Bits, s: Bits, hw: Bits) {
    r <= s <= hw && |s| == |r| + (|hw| - |r|) / 16 * 16
  }

  function WholeWords(hw: Bits): (r: Bits)
    ensures r <= hw && |r| % 16 == 0 && |hw| < |r| + 16
  {
    hw[..|hw| / 16 * 16]
  }

  lemma AllWordsRead(r: Bits, s: Bits, hw: Bits)
    requires ReadWords(r, s, hw) && |r| % 16 == 0
    ensures s == WholeWords(hw)
  {
  }

  ghost predicate Session(us: seq<Upload>, hws: seq<Bits>, base: nat)
    requires |us| == |hws|
  {
    forall i {:trigger us[i]} :: 0 <= i < |us| ==>
      var before := if i == 0 then [] else hws[i - 1];
      before <= hws[i] && Shows(us[i], base, hws[i], |WholeWords(before)|)
  }

  lemma Unscrambled(b: Bits, c: Bits, off: nat, D30: Bit)
    requires |c| == |b| && off + WORD <= |b|
    requires forall k :: off <= k < off + 24 ==> c[k] == Xor(b[k], D30)
    requires forall k :: 0 <= k < off || off + 24 <= k < |b| ==> c[k] == b[k]
    ensures c == b[..off] + Unmask(b[off..off + WORD], D30) + b[off + WORD..]
  {
    var w := Unmask(b[off..off + WORD], D30);
    assert |w| == WORD;
    forall j | 0 <= j < WORD ensures w[j] == c[off + j] {}
    assert c[off..off + WORD] == w;
    assert c[..off] == b[..off] && c[off + WORD..] == b[off + WORD..];
  }

  lemma SessionAt(us: seq<Upload>, hws: seq<Bits>, base: nat, i: nat)
    requires |us| == |hws| && i < |us| && Session(us, hws, base)
    ensures var r := if i == 0 then [] else WholeWords(hws[i - 1]);
            r <= hws[i] && Shows(us[i], base, hws[i], |r|)
  {
    var u := us[i];
  }

  /** Of the complete words unread at first, those after stream bit `n` are left. */
  ghost predicate Left(avail: nat, n0: nat, n: nat, m: nat) {
    avail % 16 == 0 && n0 <= n <= m < n0 + MAX_NAV_BITS && n + avail == n0 + (m - n0) / 16 * 16
  }

  lemma InRingWord(x: nat, rd: nat, j: nat)
    requires RingIndex(x) == rd && rd % 16 == 0 && j < 16
    ensures RingIndex(x + j) / 16 == rd / 16 && RingIndex(x + j) % 16 == j
  {
    RingIndexIsMod(x); RingIndexIsMod(x + j);
    var q, h := x / MAX_NAV_BITS, rd / 16;
    assert x == MAX_NAV_BITS * q + 16 * h && h < 8;
    assert (x + j) / MAX_NAV_BITS == q;
  }

  lemma ModIs(a: nat, q: nat, r: nat)
    requires a == MAX_NAV_BITS * q + r && r < MAX_NAV_BITS
    ensures a % MAX_NAV_BITS == r
  {
  }

  lemma NextIndex(x: nat)
    requires RingIndex(x) % 16 == 0
    ensures RingIndex(x + 16) == (RingIndex(x) + 16) % MAX_NAV_BITS && RingIndex(x + 16) % 16 == 0
  {
    RingIndexIsMod(x);
    RingIndexIsMod(x + 16);
    hide RingIndex;
    var q, r := x / MAX_NAV_BITS, x % MAX_NAV_BITS;
    if r + 16 < MAX_NAV_BITS { ModIs(x + 16, q, r + 16); } else { ModIs(x + 16, q + 1, 0); }
  }

  lemma NextWord(u: Upload, base: nat, hw: Bits, n0: nat, n: nat, rd: nat, avail: nat)
    requires Shows(u, base, hw, n0) && Left(avail, n0, n, |hw|) && avail > 0
    requires rd == RingIndex(base + n) && rd % 16 == 0
    ensures n + 16 <= |hw| && rd / 16 < |u.navBuf|
    ensures forall j :: 0 <= j < 16 ==> hw[n + j] == WordBit(u.navBuf[rd / 16], j)
    ensures Left(avail - 16, n0, n + 16, |hw|)
  {
    forall j | 0 <= j < 16
      ensures hw[n + j] == WordBit(u.navBuf[rd / 16], j)
    {
      InRingWord(base + n, rd, j);
      assert hw[n + j] == WordBit(u.navBuf[RingIndex(base + (n + j)) / 16], RingIndex(base + (n + j)) % 16);
    }
  }

  lemma Unread(wr: nat, base: nat, rd: nat, n: nat, m: nat)
    requires rd == (base + n) % MAX_NAV_BITS && wr % MAX_NAV_BITS == (base + m) % MAX_NAV_BITS
             && n <= m < n + MAX_NAV_BITS
    ensures (wr - rd) % MAX_NAV_BITS == m - n
  {
  }
}
