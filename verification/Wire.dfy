/**
 Frames judged by their bytes on the wire, where numbers are most significant byte first: what is
 sent has the layout and checksum of the standards, and what is received is delivered exactly if
 it has.
 */
module Wire {
  import opened Wrappers
  import opened NetModel

  /** A 16-bit and a 32-bit number in network byte order. */
  ghost function Be16(b: Bytes, i: nat): (v: nat)
    requires i + 2 <= |b|
    ensures v < 0x1_0000
  {
    var hi: int, lo: int := b[i], b[i + 1];
    256 * hi + lo
  }

  ghost function Be32(b: Bytes, i: nat): (v: nat)
    requires i + 4 <= |b|
  {
    0x1_0000 * Be16(b, i) + Be16(b, i + 2)
  }

  /** The sum of the first n numbers of 16 bits, in network byte order. */
  ghost function BeSum(b: Bytes, n: nat): nat
    requires 2 * n <= |b|
  {
    if n == 0 then 0 else BeSum(b, n - 1) + Be16(b, 2 * n - 2)
  }

  /** The Internet checksum of an even number of bytes, in network byte order. */
  ghost function WireChecksum(b: Bytes): nat { 65535 - Ones(BeSum(b, |b| / 2)) }

  // ----- byte order does not matter to the checksum -----

  ghost function HighBytes(b: Bytes, n: nat): nat
    requires 2 * n <= |b|
  {
    if n == 0 then 0 else HighBytes(b, n - 1) + b[2 * n - 1]
  }

  lemma {:induction false} SumsAgree(b: Bytes, n: nat)
    requires 2 * n <= |b|
    ensures 256 * WordSum(b, n) == BeSum(b, n) + 65535 * HighBytes(b, n)
    ensures BeSum(b, n) == 0 <==> WordSum(b, n) == 0
  {
    if n > 0 { SumsAgree(b, n - 1); }
  }

  /** A number between 1 and 65535 is the ones' complement sum of everything congruent to it. */
  lemma OnesUnique(s: nat, r: nat, k: int)
    requires s > 0 && 0 < r <= 65535 && s == r + 65535 * k
    ensures Ones(s) == r
  {
    assert k >= 0;
    Residue(s, k, r);
  }

  /** Section 2 (B) of RFC 1071: summing swapped words gives the swapped sum. */
  lemma ByteOrderIndependent(b: Bytes)
    requires |b| % 2 == 0
    ensures Ones(BeSum(b, |b| / 2)) == Bswaps(Ones(WordSum(b, |b| / 2)))
  {
    hide BeSum, WordSum, HighBytes;
    var n := |b| / 2;
    var be, w, h := BeSum(b, n), WordSum(b, n), HighBytes(b, n);
    SumsAgree(b, n);
    if w > 0 {
      var r, k := Ones(w), (w - 1) / 65535;
      assert w == r + 65535 * k;
      var s := Bswaps(r);
      assert 256 * r == s + 65535 * (r / 256);
      OnesUnique(be, s, r / 256 + 256 * k - h);
    }
  }

  lemma ChecksumOnWire(b: Bytes)
    requires |b| % 2 == 0
    ensures Bswaps(Checksum(b)) == WireChecksum(b)
    ensures Checksum(b) == 0 <==> WireChecksum(b) == 0
  {
    hide BeSum, WordSum, Ones;
    ByteOrderIndependent(b);
    SwapComplement(Ones(WordSum(b, |b| / 2)));
  }

  lemma SwapComplement(v: nat)
    requires v < 0x1_0000
    ensures Bswaps(65535 - v) == 65535 - Bswaps(v) && (v == 65535 <==> Bswaps(v) == 65535)
  {
    assert 65535 - v == 256 * (255 - v / 256) + (255 - v % 256);
  }

  // ----- fields -----

  lemma Loaded16(b: Bytes, i: nat)
    requires i + 2 <= |b|
    ensures Bswaps(Load16(b, i)) == Be16(b, i)
  {
  }

  lemma Loaded32(b: Bytes, i: nat)
    requires i + 4 <= |b|
    ensures Bswapl(Load32(b, i)) == Be32(b, i)
  {
    hide Digits;
    DigitsOf(b[i], b[i + 1], b[i + 2], b[i + 3]);
    DigitsValue(b[i + 3], b[i + 2], b[i + 1], b[i]);
  }

  lemma DigitsValue(a: nat, b: nat, c: nat, d: nat)
    requires a < 256 && b < 256 && c < 256 && d < 256
    ensures Digits(a, b, c, d) == 0x1_0000 * (256 * d + c) + (256 * b + a)
  {
  }

  lemma Stored16(b: Bytes, i: nat, v: nat)
    requires i + 2 <= |b| && v < 0x1_0000 && b[i..i + 2] == Store16(Bswaps(v))
    ensures Be16(b, i) == v
  {
    hide Bswaps, Store16, Load16, Be16;
    Field16(b, i, v);
    Loaded16(b, i);
  }

  lemma Stored32(b: Bytes, i: nat, v: nat)
    requires i + 4 <= |b| && v < 0x1_0000_0000 && b[i..i + 4] == Store32(Bswapl(v))
    ensures Be32(b, i) == v
  {
    hide Bswapl, Store32, Load32, Be32;
    Field32(b, i, v);
    Loaded32(b, i);
  }

  // ----- what is sent -----

  lemma EthOnWire(kind: nat)
    requires kind < 0x1_0000
    ensures var h := EthHeader(kind); h[..6] == BROADCAST && h[6..12] == LOCALMAC && Be16(h, 12) == kind
  {
    hide Bswaps, Store16, Be16;
    var h := EthHeader(kind);
    assert h[12..14] == Store16(Bswaps(kind));
    Stored16(h, 12, kind);
  }

  lemma UdpOnWire(sport: nat, dport: nat, ulen: nat)
    requires sport < 0x1_0000 && dport < 0x1_0000 && ulen < 0x1_0000
    ensures var h := UdpHeader(sport, dport, ulen);
            Be16(h, 0) == sport && Be16(h, 2) == dport && Be16(h, 4) == ulen && Be16(h, 6) == 0
  {
    hide Bswaps, Store16, Be16;
    var h := UdpHeader(sport, dport, ulen);
    assert h[0..2] == Store16(Bswaps(sport)) && h[2..4] == Store16(Bswaps(dport)) && h[4..6] == Store16(Bswaps(ulen));
    ZeroSwap();
    assert h[6..8] == Store16(Bswaps(0));
    Stored16(h, 0, sport);
    Stored16(h, 2, dport);
    Stored16(h, 4, ulen);
    Stored16(h, 6, 0);
  }

  /** A header with its checksum field zero. */
  ghost function Blanked(h: Bytes): Bytes
    requires |h| == IPLEN
  {
    h[10 := 0][11 := 0]
  }

  lemma IpOnWire(len: nat, dip: nat)
    requires len < 0x1_0000 && dip < 0x1_0000_0000
    ensures var h := IpHeader(len, dip);
            && h[0] == 0x45 && h[1] == 0 && Be16(h, 2) == len && h[4..8] == [0, 0, 0, 0] && h[8] == 100 && h[9] == 17
            && Be32(h, 12) == LOCALIP && Be32(h, 16) == dip
            && Be16(h, 10) == WireChecksum(Blanked(h)) && WireChecksum(h) == 0
  {
    hide Bswaps, Bswapl, Store16, Store32, Checksum, WireChecksum, Be16, Be32;
    var h, blank := IpHeader(len, dip), IpBlank(len, dip);
    assert h[2..4] == Store16(Bswaps(len)) && h[4..8] == [0, 0, 0, 0];
    assert h[12..16] == Store32(Bswapl(LOCALIP)) && h[16..20] == Store32(Bswapl(dip));
    Stored16(h, 2, len);
    Stored32(h, 12, LOCALIP);
    Stored32(h, 16, dip);
    HeaderChecksumsToZero(len, dip);
    ChecksumOnWire(h);
    BlankIs(len, dip);
    ChecksumOnWire(blank);
    CheckField(h, Checksum(blank));
  }

  lemma BlankIs(len: nat, dip: nat)
    requires len < 0x1_0000 && dip < 0x1_0000_0000
    ensures Blanked(IpHeader(len, dip)) == IpBlank(len, dip)
  {
    hide Bswaps, Bswapl, Store16, Store32, Checksum;
    var blank := IpBlank(len, dip);
    assert blank[10] == 0 && blank[11] == 0;
  }

  lemma CheckField(h: Bytes, c: nat)
    requires |h| == IPLEN && c < 0x1_0000 && h[10] == c % 256 && h[11] == c / 256
    ensures Be16(h, 10) == Bswaps(c)
  {
  }

  /** A frame's bytes, for any destination, ports and payload: the layout of RFC 894, RFC 791 and RFC 768. */
  lemma FrameOnWire(payload: Bytes, dip: nat, sport: nat, dport: nat)
    requires |payload| + IPLEN + UDPLEN < 0x1_0000 && dip < 0x1_0000_0000 && sport < 0x1_0000 && dport < 0x1_0000
    ensures var f := Frame(payload, dip, sport, dport);
            && |f| == 42 + |payload| && f[..6] == BROADCAST && f[6..12] == LOCALMAC && Be16(f, 12) == 0x0800
            && f[14] == 0x45 && f[15] == 0 && Be16(f, 16) == |payload| + 28 && f[18..22] == [0, 0, 0, 0] && f[22] == 100
            && f[23] == 17 && Be32(f, 26) == LOCALIP && Be32(f, 30) == dip
            && Be16(f, 24) == WireChecksum(Blanked(f[14..34])) && WireChecksum(f[14..34]) == 0
            && Be16(f, 34) == sport && Be16(f, 36) == dport && Be16(f, 38) == |payload| + 8 && Be16(f, 40) == 0
            && f[42..] == payload
  {
    hide EthHeader, IpHeader, UdpHeader, WireChecksum;
    var len := |payload| + UDPLEN;
    var e, i, u := EthHeader(ETHIP), IpHeader(len + IPLEN, dip), UdpHeader(sport, dport, len);
    var f := Frame(payload, dip, sport, dport);
    EthOnWire(ETHIP);
    IpOnWire(len + IPLEN, dip);
    UdpOnWire(sport, dport, len);
    assert f[..14] == e && f[14..34] == i && f[34..42] == u;
    assert f[..6] == f[..14][..6] && f[6..12] == f[..14][6..12] && f[18..22] == f[14..34][4..8];
    Part(f, 0, 14);
    Part(f, 14, 34);
    Part(f, 34, 42);
  }

  lemma Part(f: Bytes, lo: nat, hi: nat)
    requires lo <= hi <= |f|
    ensures forall k: nat :: k < hi - lo ==> f[lo..hi][k] == f[lo + k]
  {
  }

  /** An ARP packet's bytes: the layout of RFC 826. */
  lemma ArpOnWire(a: Arp)
    requires ValidArp(a)
    ensures var b := ArpBytes(a);
            && Be16(b, 0) == 1 && Be16(b, 2) == 0x0800 && b[4] == 6 && b[5] == 4 && Be16(b, 6) == a.op
            && b[8..14] == a.sha && Be32(b, 14) == a.sip && b[18..24] == a.tha && Be32(b, 24) == a.tip
  {
    hide Bswaps, Bswapl, Store16, Store32, Be16, Be32;
    var b := ArpBytes(a);
    assert b[0..2] == Store16(Bswaps(ARPETHER)) && b[2..4] == Store16(Bswaps(ETHIP)) && b[4] == 6 && b[5] == 4;
    assert b[6..8] == Store16(Bswaps(a.op)) && b[8..14] == a.sha && b[14..18] == Store32(Bswapl(a.sip));
    assert b[18..24] == a.tha && b[24..28] == Store32(Bswapl(a.tip));
    Stored16(b, 0, ARPETHER);
    Stored16(b, 2, ETHIP);
    Stored16(b, 6, a.op);
    Stored32(b, 14, a.sip);
    Stored32(b, 24, a.tip);
  }

  // ----- what is received -----

  /** The lengths in the IP and UDP headers fit the frame. */
  ghost predicate LengthsOk(b: Bytes)
    requires |b| >= 42
  {
    && Be16(b, 38) == (Be16(b, 16) + 0x1_0000 - 20) % 0x1_0000
    && (Be16(b, 38) + 0x1_0000 - 8) % 0x1_0000 <= |b| - 42
  }

  /** An unfragmented UDP datagram for this host, with a right header checksum. */
  ghost predicate ForUs(b: Bytes) {
    && |b| >= 42 && Be16(b, 12) == 0x0800 && b[14] == 0x45 && b[23] == 17 && Be16(b, 20) == 0
    && WireChecksum(b[14..34]) == 0 && Be32(b, 30) == LOCALIP && LengthsOk(b)
  }

  /**
   A frame from any host delivers something exactly if it is a datagram for this host: the payload,
   the sender's address and the ports its bytes give.
   */
  lemma DeliveredIff(b: Bytes)
    ensures Deliver(b).Some? <==> ForUs(b)
    ensures ForUs(b) ==>
              var n := (Be16(b, 38) + 0x1_0000 - 8) % 0x1_0000;
              Deliver(b).value == Datagram(b[42..42 + n], Be32(b, 26), Be16(b, 36), Be16(b, 34))
  {
    hide Bswaps, Bswapl, Load16, Load32, Checksum, WireChecksum, Be16, Be32, Store16, Store32, DeliverIp;
    if |b| >= ETHLEN {
      Loaded16(b, 12);
      IpDeliveredIff(b);
    }
  }

  lemma IpDeliveredIff(b: Bytes)
    requires |b| >= ETHLEN
    ensures DeliverIp(b[ETHLEN..]).Some? && Be16(b, 12) == 0x0800 <==> ForUs(b)
    ensures ForUs(b) ==>
              var n := (Be16(b, 38) + 0x1_0000 - 8) % 0x1_0000;
              DeliverIp(b[ETHLEN..]).value == Datagram(b[42..42 + n], Be32(b, 26), Be16(b, 36), Be16(b, 34))
  {
    hide Bswaps, Bswapl, Load16, Load32, Checksum, WireChecksum, Be16, Be32;
    var ip := b[ETHLEN..];
    if |ip| >= IPLEN {
      var udp := ip[IPLEN..];
      assert ip[..IPLEN] == b[14..34];
      ChecksumOnWire(b[14..34]);
      Shift16(b, ETHLEN, 2);
      Shift16(b, ETHLEN, 6);
      Shift32(b, ETHLEN, 12);
      Shift32(b, ETHLEN, 16);
      assert udp == b[34..];
      if |udp| >= UDPLEN {
        Shift16(b, 34, 0);
        Shift16(b, 34, 2);
        Shift16(b, 34, 4);
        var n := Minus16(Bswaps(Load16(udp, 4)), UDPLEN);
        if n <= |udp| - UDPLEN { assert udp[UDPLEN..UDPLEN + n] == b[42..42 + n]; }
      }
    }
  }

  lemma Shift16(b: Bytes, lo: nat, i: nat)
    requires lo + i + 2 <= |b|
    ensures Bswaps(Load16(b[lo..], i)) == Be16(b, lo + i)
  {
    Loaded16(b[lo..], i);
  }

  lemma Shift32(b: Bytes, lo: nat, i: nat)
    requires lo + i + 4 <= |b|
    ensures Bswapl(Load32(b[lo..], i)) == Be32(b, lo + i)
  {
    hide Bswapl, Load32;
    Loaded32(b[lo..], i);
  }
}
