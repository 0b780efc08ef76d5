/**
 What a channel must make of the whole bit stream it receives, however the bits arrive: the
 specification of the tracking loop as a function of the stream.
 */
module NavParser {
  import opened NavParity
  import opened NavFrame
  import opened Ephemeris

  const PROBATION := 2

  /** An accepted subframe: the stream index just after it, and its 300 bits unmasked. */
  datatype Frame = Frame(end: nat, data: SubframeBits)

  /** `pos` is the stream index of the first bit not yet shifted out. */
  datatype Parser = Parser(pos: nat, probation: nat, alert: bool, lastSub: nat, dropSeq: nat, frames: seq<Frame>)

  /** The fate of a subframe whose preamble was recognised. `drop` is the debugging option
      that simulates lost preambles. */
  function Check(p: Parser, v: Verdict, drop: bool): (q: Parser)
    requires !v.NoPreamble?
  {
    match v
    case BadWord(i) =>
      p.(pos := p.pos + WORD * i + WORD,
         probation := if drop && p.lastSub == 4 then p.probation else PROBATION)
    case Good(d) =>
      p.(pos := p.pos + SUBFRAME,
         probation := if p.probation > 0 then p.probation - 1 else 0,
         alert := d[47] == 1,
         lastSub := SubframeId(d),
         frames := p.frames + [Frame(p.pos + SUBFRAME, d)])
  }

  /** One round of the inner loop, given the judgement on the next 300 bits: consume 1, 30 to
      300, or 300 bits. */
  function Advance(p: Parser, v: Verdict, drop: bool): (q: Parser) {
    if v.NoPreamble? then p.(pos := p.pos + 1)
    else if drop && p.lastSub == 3 then
      var p' := p.(lastSub := 4, dropSeq := p.dropSeq + 1);
      if p'.dropSeq % 2 == 1 then p'.(pos := p.pos + 1) else Check(p', v, drop)
    else Check(p, v, drop)
  }

  function Next(s: Bits, pos: nat): (raw: Bits)
    requires pos + SUBFRAME <= |s|
    ensures |raw| == SUBFRAME
  {
    s[pos..pos + SUBFRAME]
  }

  function Step(s: Bits, p: Parser, drop: bool): (q: Parser)
    requires p.pos + SUBFRAME <= |s|
    ensures p.pos < q.pos <= p.pos + SUBFRAME
  {
    Advance(p, Judge(Next(s, p.pos)), drop)
  }

  /** Rounds until less than a subframe is left. */
  function Run(s: Bits, p: Parser, drop: bool): (q: Parser)
    requires p.pos <= |s|
    ensures q.pos <= |s| < q.pos + SUBFRAME
    decreases |s| - p.pos
  {
    if p.pos + SUBFRAME <= |s| then Run(s, Step(s, p, drop), drop) else p
  }

  /** Parsing is insensitive to how the stream is cut: stopping for lack of bits and going
      on when more have come is the same as having had them from the start. */
  lemma {:induction false} RunResumes(s: Bits, t: Bits, p: Parser, drop: bool)
    requires p.pos <= |s| && s <= t
    ensures Run(t, Run(s, p, drop), drop) == Run(t, p, drop)
    decreases |s| - p.pos
  {
    if p.pos + SUBFRAME <= |s| {
      assert Next(s, p.pos) == Next(t, p.pos);
      RunResumes(s, t, Step(s, p, drop), drop);
    }
  }

  // ---- what holds of every run ------------------------------------------------------

  /** Disjoint frames in order, all of them satisfying `ok` and consumed before `pos`. */
  ghost predicate InOrder(ok: Frame -> bool, fs: seq<Frame>, pos: nat) {
    && (forall k :: 0 <= k < |fs| ==> ok(fs[k]) && fs[k].end <= pos)
    && (forall j, k :: 0 <= j < k < |fs| ==> fs[j].end + SUBFRAME <= fs[k].end)
  }

  /** Leaving probation takes two frames. */
  ghost predicate Coherent(ok: Frame -> bool, p: Parser) {
    p.probation <= PROBATION <= p.probation + |p.frames| && InOrder(ok, p.frames, p.pos)
  }

  lemma CheckCoherent(ok: Frame -> bool, p: Parser, v: Verdict, drop: bool)
    requires Coherent(ok, p) && !v.NoPreamble?
    requires v.Good? ==> ok(Frame(p.pos + SUBFRAME, v.data))
    ensures Coherent(ok, Check(p, v, drop))
    ensures p.frames <= Check(p, v, drop).frames
  {
  }

  lemma AdvanceCoherent(ok: Frame -> bool, p: Parser, v: Verdict, drop: bool)
    requires Coherent(ok, p)
    requires v.Good? ==> ok(Frame(p.pos + SUBFRAME, v.data))
    ensures Coherent(ok, Advance(p, v, drop))
    ensures p.frames <= Advance(p, v, drop).frames
  {
    if !v.NoPreamble? {
      CheckCoherent(ok, p, v, drop);
      CheckCoherent(ok, p.(lastSub := 4, dropSeq := p.dropSeq + 1), v, drop);
    }
  }

  /** `f` is an accepted stretch of the stream. */
  ghost predicate Accepted(s: Bits, f: Frame) {
    SUBFRAME <= f.end <= |s| && Judge(Next(s, f.end - SUBFRAME)) == Good(f.data)
  }

  /** The frames are disjoint accepted stretches of the stream, in order, all consumed. */
  ghost predicate Sound(s: Bits, p: Parser) {
    p.pos <= |s| && Coherent(f => Accepted(s, f), p)
  }

  lemma StepSound(s: Bits, p: Parser, drop: bool)
    requires Sound(s, p) && p.pos + SUBFRAME <= |s|
    ensures Sound(s, Step(s, p, drop))
    ensures p.frames <= Step(s, p, drop).frames
  {
    AdvanceCoherent(f => Accepted(s, f), p, Judge(Next(s, p.pos)), drop);
  }

  lemma {:induction false} RunKeepsFrames(s: Bits, p: Parser, drop: bool)
    requires p.pos <= |s|
    ensures p.frames <= Run(s, p, drop).frames
    decreases |s| - p.pos
  {
    if p.pos + SUBFRAME <= |s| {
      RunKeepsFrames(s, Step(s, p, drop), drop);
    }
  }

  lemma {:induction false} RunSound(s: Bits, p: Parser, drop: bool)
    requires Sound(s, p)
    ensures Sound(s, Run(s, p, drop))
    decreases |s| - p.pos
  {
    if p.pos + SUBFRAME <= |s| {
      StepSound(s, p, drop);
      RunSound(s, Step(s, p, drop), drop);
    }
  }

  // ---- no subframe is lost once in step ---------------------------------------------

  /** From `pos` on the stream carries the subframes `subs`, all inverted when `inv` is 1. */
  ghost predicate Carries(s: Bits, pos: nat, subs: seq<seq<Bits>>, inv: Bit) {
    && pos + SUBFRAME * |subs| <= |s|
    && forall k {:trigger subs[k]} :: 0 <= k < |subs| ==>
         && DataWords(subs[k])
         && Next(s, pos + SUBFRAME * k) == Flip(EncodeSubframe(subs[k]), inv)
  }

  /** A frame recovers ten data words, wherever it is. */
  predicate Recovers(f: Frame, ws: seq<Bits>) {
    |ws| == 10 && forall i :: 0 <= i < 10 ==> DataWord(f.data, i) == ws[i]
  }

  lemma InStepAccepts(s: Bits, p: Parser, ws: seq<Bits>, inv: Bit) returns (q: Parser, f: Frame)
    requires DataWords(ws) && p.pos + SUBFRAME <= |s|
    requires Next(s, p.pos) == Flip(EncodeSubframe(ws), inv)
    ensures q.pos == f.end == p.pos + SUBFRAME && q.frames == p.frames + [f] && Recovers(f, ws)
    ensures Run(s, q, false) == Run(s, p, false)
  {
    var raw := EncodeSubframe(ws);
    SentSubframeAccepted(ws);
    InvertedSubframe(raw);
    if inv == 0 { assert Flip(raw, 0) == raw; }
    var v := Judge(Next(s, p.pos));
    q, f := Step(s, p, false), Frame(p.pos + SUBFRAME, v.data);
  }

  lemma CarriesRest(s: Bits, pos: nat, subs: seq<seq<Bits>>, inv: Bit)
    requires Carries(s, pos, subs, inv) && subs != []
    ensures Carries(s, pos + SUBFRAME, subs[1..], inv)
    ensures DataWords(subs[0]) && Next(s, pos) == Flip(EncodeSubframe(subs[0]), inv)
  {
    assert Next(s, pos + SUBFRAME * 0) == Flip(EncodeSubframe(subs[0]), inv);
    forall k | 0 <= k < |subs[1..]|
      ensures DataWords(subs[1..][k])
      ensures Next(s, pos + SUBFRAME + SUBFRAME * k) == Flip(EncodeSubframe(subs[1..][k]), inv)
    {
      assert subs[1..][k] == subs[k + 1];
    }
  }

  /** From index `n` on, the frames recover `subs`, sent back to back from `pos`. */
  ghost predicate Delivered(fs: seq<Frame>, n: nat, pos: nat, subs: seq<seq<Bits>>) {
    && n + |subs| <= |fs|
    && forall k :: 0 <= k < |subs| ==>
         fs[n + k].end == pos + SUBFRAME * k + SUBFRAME && Recovers(fs[n + k], subs[k])
  }

  lemma OneMoreDelivered(fs: seq<Frame>, n: nat, pos: nat, subs: seq<seq<Bits>>)
    requires subs != [] && n < |fs| && fs[n].end == pos + SUBFRAME && Recovers(fs[n], subs[0])
    requires Delivered(fs, n + 1, pos + SUBFRAME, subs[1..])
    ensures Delivered(fs, n, pos, subs)
  {
    forall k | 0 < k < |subs|
      ensures fs[n + k].end == pos + SUBFRAME * k + SUBFRAME && Recovers(fs[n + k], subs[k])
    {
      assert fs[n + 1 + (k - 1)] == fs[n + k] && subs[k] == subs[1..][k - 1];
    }
  }

  /** A parser that stands at the first of any number of consecutive subframes, upright or
      inverted, accepts every one of them and recovers all their data words. */
  lemma {:induction false} NothingLost(s: Bits, p: Parser, subs: seq<seq<Bits>>, inv: Bit)
    requires p.pos <= |s| && Carries(s, p.pos, subs, inv)
    ensures Delivered(Run(s, p, false).frames, |p.frames|, p.pos, subs)
    decreases |subs|
  {
    if subs == [] {
      RunKeepsFrames(s, p, false);
    } else {
      CarriesRest(s, p.pos, subs, inv);
      var q, f := InStepAccepts(s, p, subs[0], inv);
      NothingLost(s, q, subs[1..], inv);
      RunKeepsFrames(s, q, false);
      var fs := Run(s, q, false).frames;
      assert fs[|p.frames|] == q.frames[|p.frames|] == f;
      OneMoreDelivered(fs, |p.frames|, p.pos, subs);
    }
  }

  /** A parser that has consumed nothing. */
  predicate Fresh(p: Parser) {
    p.pos == 0 && p.frames == [] && p.probation == PROBATION
  }

  /** Every run from a fresh parser is sound. */
  lemma FreshRunSound(s: Bits, p: Parser, drop: bool)
    requires Fresh(p)
    ensures Sound(s, Run(s, p, drop))
  {
    RunSound(s, p, drop);
  }

  lemma ProbationFrames(p: Parser, v: Verdict, drop: bool)
    requires PROBATION <= p.probation + |p.frames|
    ensures PROBATION <= Advance(p, v, drop).probation + |Advance(p, v, drop).frames|
  {
  }
}
