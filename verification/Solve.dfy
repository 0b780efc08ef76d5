/**
 The clock replica of a satellite (`SNAPSHOT`): its time of transmission, rebuilt from the
 time of week, the NAV bits since, and the code phase. L1 C/A channels.
 */
module Solve {
  import opened NavParity
  import opened NavFrame
  import opened Ephemeris
  import opened NavParser
  import opened NavChannel

  const MAX_TOW_DELAY := 2500       // 5*500 bits
  const L1_CODE_PERIOD := 1         // milliseconds
  const L1_BPS: real := 50.0
  const CPS: real := 1023000.0

  /** Milliseconds, chips and code phase since the start of the current NAV bit, in seconds. */
  function Fine(ms: nat, chips: nat, cg_phase: nat): real {
    ms as real * 0.001 + chips as real / CPS + cg_phase as real * 0.015625 / CPS
  }

  /** The bit count that enters the clock: the TOW counter unless it is too large. */
  function UsedBits(bits: int, bits_tow: int): int {
    if bits_tow < MAX_TOW_DELAY then bits_tow else bits
  }

  datatype Reading = Unusable | Time(clock: real)

  class Replica {
    var eph: Broadcast
    var bits: int
    var bits_tow: int
    var ms: nat
    var chips: nat
    var cg_phase: nat
    var tow_delayed: bool

    /** `LoadAtomic`, given the registers of the clock replica. */
    method LoadAtomic(ch: Channel, include_alert: bool, up0: nat, up1: nat, dn0: nat, dn1: nat, srq: bool,
        ghost hw: Bits)
      returns (ok: bool)
      requires ch.Consistent() && ch.read <= hw && |hw| < |ch.read| + MAX_NAV_BITS
      requires RingIndex(up1) == RingIndex(ch.base + |hw|)
      modifies this
      ensures ok <==> !(ch.alert && !include_alert) && ch.probation == 0
                      && OneIssue(HeardAll(ch.before, ch.parser.frames, ch.ephemeris.navstar))
      ensures ok ==> |ch.parser.frames| >= 2 && eph == HeardAll(ch.before, ch.parser.frames, ch.ephemeris.navstar) &&
                     var f := ch.parser.frames[|ch.parser.frames| - 1];
                     eph.tow == Tow(f.data) && bits_tow == |hw| - f.end && bits == |hw| - ch.parser.pos
      ensures ok ==> Fine(ms, chips, cg_phase) ==
                     Fine(up0 + (if srq then 1 else 0), dn0 % 4 * 1024 + dn1 % 1024, dn1 / 1024)
    {
      var s := ch.GetSnapshot(up1, include_alert, hw);
      match s
      case NotReady =>
        return false;
      case Ready(b, t) =>
        if !ch.ephemeris.Valid() { return false; }
        bits, bits_tow := b, t;
        ms := up0;
        if srq { ms := ms + L1_CODE_PERIOD; }
        chips := dn0 % 4 * 1024 + dn1 % 1024;
        cg_phase := dn1 / 1024;
        eph := ch.ephemeris.View();
        ok := true;
    }

    /** `GetClock`: replaces `bits` in place when it differs from a usable TOW counter. */
    method GetClock() returns (clock: real)
      modifies this`bits, this`tow_delayed
      ensures bits == UsedBits(old(bits), bits_tow)
      ensures tow_delayed <==> old(bits) != bits_tow && bits_tow < MAX_TOW_DELAY
      ensures clock == eph.tow as real + bits as real / L1_BPS + Fine(ms, chips, cg_phase)
    {
      tow_delayed := false;
      if bits != bits_tow && bits_tow < MAX_TOW_DELAY {
        bits := bits_tow;
        tow_delayed := true;
      }
      clock := eph.tow as real + bits as real / L1_BPS + ms as real * 0.001 + chips as real / CPS
          + cg_phase as real * 0.015625 / CPS;
    }
  }

  /** The satellite's time: time of week at the end of the last accepted subframe, plus 20 ms
      for every bit received since, whether read, shifted out or still in the ring. */
  function TrueTime(f: Frame, received: nat, fine: real): real {
    Tow(f.data) as real + (received - f.end) as real / L1_BPS + fine
  }

  /** The rebuilt clock is the satellite's time exactly when the last subframe is less than
      2500 bits ago or no bit has been shifted out since; otherwise it is behind by the bits
      shifted out. */
  method TimeOfTransmission(ch: Channel, include_alert: bool, up0: nat, up1: nat, dn0: nat, dn1: nat, srq: bool,
      ghost hw: Bits)
    returns (r: Reading)
    requires ch.Consistent() && ch.read <= hw && |hw| < |ch.read| + MAX_NAV_BITS
    requires RingIndex(up1) == RingIndex(ch.base + |hw|)
    ensures r.Time? <==> !(ch.alert && !include_alert) && ch.probation == 0
                         && OneIssue(HeardAll(ch.before, ch.parser.frames, ch.ephemeris.navstar))
    ensures r.Time? ==>
              |ch.parser.frames| >= 2 &&
              var f := ch.parser.frames[|ch.parser.frames| - 1];
              var t := TrueTime(f, |hw|, Fine(up0 + (if srq then 1 else 0), dn0 % 4 * 1024 + dn1 % 1024, dn1 / 1024));
              && (r.clock == t <==> |hw| - f.end < MAX_TOW_DELAY || ch.parser.pos == f.end)
              && (r.clock != t ==> r.clock == t - (ch.parser.pos - f.end) as real / L1_BPS)
  {
    var s := new Replica;
    var ok := s.LoadAtomic(ch, include_alert, up0, up1, dn0, dn1, srq, hw);
    if !ok { return Unusable; }
    var c := s.GetClock();
    r := Time(c);
  }
}
