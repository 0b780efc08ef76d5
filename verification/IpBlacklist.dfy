/**
 The address blacklist: entries with netmasks, newest first; the first match decides.
 */
module IpBlacklist {

  const N_IP_BLACKLIST := 512

  // ---- netmasks ----------------------------------------------------------------------

  function Twice(a: bv32): bv32 { a << 1 }

  function Half(a: bv32): bv32 { a >> 1 }

  function And(a: bv32, m: bv32): bv32 { a & m }

  /** `1 << n`, and a word shifted down by `n`. */
  function Bit(n: nat): bv32 { if n == 0 then 1 else Twice(Bit(n - 1)) }

  function Down(a: bv32, n: nat): bv32
    decreases n
  {
    if n == 0 then a else Down(Half(a), n - 1)
  }

  /** The mask of a network with `host` host bits. */
  function Netmask(host: nat): bv32 { NotBelow(Bit(host)) }

  function NotBelow(p: bv32): bv32 { !(p - 1) }

  /** Two addresses agree in all but the lowest `host` bits. */
  predicate SameNet(a: bv32, b: bv32, host: nat) { Down(a, host) == Down(b, host) }

  lemma NetmaskDoubles(n: nat)
    ensures Netmask(n + 1) == Twice(Netmask(n))
  {
    hide Twice, NotBelow;
    Negated(Bit(n));
  }

  lemma Negated(p: bv32)
    ensures NotBelow(Twice(p)) == Twice(NotBelow(p))
  {
  }

  lemma AndShift(a: bv32, m: bv32)
    ensures And(a, Twice(m)) == Twice(And(Half(a), m)) && And(Half(a), m) < 0x80000000
  {
  }

  lemma TwiceInjective(x: bv32, y: bv32)
    requires x < 0x80000000 && y < 0x80000000
    ensures Twice(x) == Twice(y) <==> x == y
  {
  }

  lemma WholeMask(a: bv32)
    ensures And(a, Netmask(0)) == a
  {
  }

  /** Comparing under the mask compares the networks. */
  lemma {:induction false} MaskIsNet(a: bv32, b: bv32, host: nat)
    ensures And(a, Netmask(host)) == And(b, Netmask(host)) <==> SameNet(a, b, host)
    decreases host
  {
    hide And, Netmask, Twice, Half;
    if host == 0 {
      WholeMask(a);
      WholeMask(b);
    } else {
      var m := Netmask(host - 1);
      NetmaskDoubles(host - 1);
      AndShift(a, m);
      AndShift(b, m);
      TwiceInjective(And(Half(a), m), And(Half(b), m));
      MaskIsNet(Half(a), Half(b), host - 1);
    }
  }

  // ---- the bits of a netmask -----------------------------------------------------------

  lemma BitSet(n: nat)
    requires n < 32
    ensures Bit(n) != 0
  {
    assert Bit(1) == 0x2 && Bit(2) == 0x4 && Bit(3) == 0x8 && Bit(4) == 0x10 && Bit(5) == 0x20 && Bit(6) == 0x40
           && Bit(7) == 0x80 && Bit(8) == 0x100;
    assert Bit(9) == 0x200 && Bit(10) == 0x400 && Bit(11) == 0x800 && Bit(12) == 0x1000 && Bit(13) == 0x2000
           && Bit(14) == 0x4000 && Bit(15) == 0x8000 && Bit(16) == 0x10000;
    assert Bit(17) == 0x20000 && Bit(18) == 0x40000 && Bit(19) == 0x80000 && Bit(20) == 0x100000 && Bit(21) == 0x200000
           && Bit(22) == 0x400000 && Bit(23) == 0x800000 && Bit(24) == 0x1000000;
    assert Bit(25) == 0x2000000 && Bit(26) == 0x4000000 && Bit(27) == 0x8000000 && Bit(28) == 0x10000000
           && Bit(29) == 0x20000000 && Bit(30) == 0x40000000 && Bit(31) == 0x80000000;
    assert Bit(0) == 1;
  }

  lemma OwnBit(p: bv32)
    ensures p != 0 ==> (!(p - 1) & p) != 0
  {
  }

  lemma {:induction false} LowBits(host: nat, i: nat)
    requires i < host
    ensures And(Netmask(host), Bit(i)) == 0
    decreases host
  {
    NetmaskDoubles(host - 1);
    if i == 0 { Lowest(Netmask(host - 1)); } else {
      LowBits(host - 1, i - 1);
      Both(Netmask(host - 1), Bit(i - 1));
    }
  }

  lemma Lowest(m: bv32)
    ensures And(Twice(m), 1) == 0
  {
  }

  lemma Both(m: bv32, b: bv32)
    ensures And(Twice(m), Twice(b)) == Twice(And(m, b))
  {
  }

  /** `inet_nm_bits` recovers the length of the prefix from the mask, also from the empty one. */
  method NetmaskBits(nm: bv32, ghost host: nat) returns (bits: nat)
    requires host <= 32 && nm == Netmask(host)
    ensures bits == 32 - host
  {
    var i := 0;
    if host < 32 {
      BitSet(host);
      OwnBit(Bit(host));
    }
    while i < 32
      invariant i <= host
    {
      if And(nm, Bit(i)) != 0 { break; }
      LowBits(host, i);
      i := i + 1;
    }
    if i < host { LowBits(host, i); }
    bits := 32 - i;
  }

  // ---- the list ------------------------------------------------------------------------

  datatype Entry = Entry(ip: bv32, cidr: nat, nm: bv32, whitelist: bool, dropped: nat, lastDropped: bv32)

  /** What an administrator asked for. */
  datatype Rule = Rule(ip: bv32, cidr: nat, whitelist: bool)

  /** The rule matches the addresses that agree with it in the first `cidr` bits. */
  predicate Covers(r: Rule, ip: bv32)
    requires r.cidr <= 32
  {
    SameNet(ip, r.ip, 32 - r.cidr)
  }

  /** The verdict of the most recent rule that covers the address; `rules` are newest first. */
  predicate Blocked(rules: seq<Rule>, ip: bv32)
    requires forall i :: 0 <= i < |rules| ==> rules[i].cidr <= 32
  {
    rules != [] && if Covers(rules[0], ip) then !rules[0].whitelist else Blocked(rules[1..], ip)
  }

  predicate RulesOk(rules: seq<Rule>, home: bv32) {
    forall i :: 0 <= i < |rules| ==> 1 <= rules[i].cidr <= 32 && !Covers(rules[i], home)
  }

  /** No rule covers the home address, so it is never blocked. */
  lemma {:induction false} HomeIsFree(rules: seq<Rule>, home: bv32)
    requires RulesOk(rules, home)
    ensures !Blocked(rules, home)
    decreases |rules|
  {
    if rules != [] { HomeIsFree(rules[1..], home); }
  }

  class Blacklist {
    const entries: array<Entry>
    var len: nat
    const home: bv32            // kiwisdr.com
    ghost var rules: seq<Rule>  // newest first

    /** Entry and rule agree, and the mask has been applied to the address. */
    ghost predicate Matches(e: Entry, r: Rule) {
      1 <= r.cidr <= 32 && e.cidr == r.cidr && e.nm == Netmask(32 - r.cidr) && e.ip == And(r.ip, e.nm)
          && e.whitelist == r.whitelist
    }

    ghost predicate Valid()
      reads this, entries
    {
      && entries.Length == N_IP_BLACKLIST && len == |rules| <= N_IP_BLACKLIST && RulesOk(rules, home)
      && forall i :: 0 <= i < len ==> Matches(entries[i], rules[i])
    }

    constructor (home: bv32)
      ensures Valid() && rules == [] && this.home == home && fresh(entries)
    {
      entries := new Entry[N_IP_BLACKLIST](_ => Entry(0, 0, 0, false, 0, 0));
      len, this.home, rules := 0, home, [];
    }

    /** `ip_blacklist_add`, on an address and prefix length that have been read: refused if the
        length is not 1 to 32, the network has the home address, or the list is full. */
    method Add(ip: bv32, cidr: nat, whitelist: bool) returns (ok: bool)
      requires Valid()
      modifies this`len, this`rules, entries
      ensures Valid()
      ensures ok == (1 <= cidr <= 32 && !Covers(Rule(ip, cidr, whitelist), home) && |old(rules)| < N_IP_BLACKLIST)
      ensures rules == if ok then [Rule(ip, cidr, whitelist)] + old(rules) else old(rules)
    {
      if cidr < 1 || cidr > 32 { return false; }
      var nm := Netmask(32 - cidr);
      ghost var r := Rule(ip, cidr, whitelist);
      MaskIsNet(home, ip, 32 - cidr);
      hide And, Netmask, SameNet;
      if And(ip, nm) == And(home, nm) { return false; }
      if len >= N_IP_BLACKLIST { return false; }
      MoveUp();
      entries[0] := Entry(And(ip, nm), cidr, nm, whitelist, 0, 0);
      len := len + 1;
      rules := [r] + rules;
      ok := true;
    }

    /** `memmove` of the entries by one place. */
    method MoveUp()
      requires len < entries.Length
      modifies entries
      ensures forall i :: 0 <= i < len ==> entries[i + 1] == old(entries[i])
    {
      var i := len;
      while i > 0
        invariant 0 <= i <= len
        invariant forall k :: 0 <= k < i ==> entries[k] == old(entries[k])
        invariant forall k :: i <= k < len ==> entries[k + 1] == old(entries[k])
      {
        entries[i] := entries[i - 1];
        i := i - 1;
      }
    }

    /** `check_ip_blacklist`: the first entry that matches decides, and is counted. */
    method Check(ip: bv32) returns (blocked: bool)
      requires Valid()
      modifies entries
      ensures Valid() && blocked == Blocked(rules, ip)
    {
      hide And, Netmask, SameNet;
      var i := 0;
      while i < len
        invariant i <= len && Valid() && Blocked(rules[i..], ip) == Blocked(rules, ip)
      {
        var bl := entries[i];
        assert Matches(bl, rules[i]) && rules[i..][1..] == rules[i + 1..];
        MaskIsNet(ip, rules[i].ip, 32 - rules[i].cidr);
        if And(ip, bl.nm) == bl.ip {
          entries[i] := bl.(dropped := bl.dropped + 1);
          if bl.whitelist { return false; }
          entries[i] := entries[i].(lastDropped := ip);
          return true;
        }
        i := i + 1;
      }
      blocked := false;
    }
  }
}
