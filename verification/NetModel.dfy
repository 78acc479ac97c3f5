/** Bytes on the wire: byte order, the Internet checksum, headers, and what a frame delivers. */
module NetModel {
  import opened Wrappers

  type Byte = b: int | 0 <= b < 256
  type Bytes = seq<Byte>

  const UDPLEN: nat := 8
  const IPLEN: nat := 20
  const ETHLEN: nat := 14
  const LOCALIP: nat := 0x0A00020F        // 10.0.2.15
  const LOCALMAC: Bytes := [0x52, 0x54, 0x00, 0x12, 0x34, 0x56]
  const BROADCAST: Bytes := [0xFF, 0xFF, 0xFF, 0xFF, 0xFF, 0xFF]
  const ETHIP: nat := 0x0800
  const ETHARP: nat := 0x0806
  const ARPLEN: nat := 28
  const ARPETHER: nat := 1
  const ARPREQUEST: nat := 1
  const ARPREPLY: nat := 2
  const PROTOUDP: Byte := 17
  const VHL: Byte := 0x45

  // ----- byte order -----

  /** bswaps, which is htons and ntohs on this little-endian machine. */
  function Bswaps(v: nat): (r: nat)
    requires v < 0x1_0000
    ensures r < 0x1_0000
  {
    v % 256 * 256 + v / 256
  }

  function Bswapl(v: nat): (r: nat)
    requires v < 0x1_0000_0000
    ensures r < 0x1_0000_0000
  {
    Digits(v / 256 / 256 / 256, v / 256 / 256 % 256, v / 256 % 256, v % 256)
  }

  /** The number with these base-256 digits, least significant first. */
  function Digits(a: nat, b: nat, c: nat, d: nat): (v: nat)
    requires a < 256 && b < 256 && c < 256 && d < 256
    ensures v < 0x1_0000_0000
  {
    a + 256 * (b + 256 * (c + 256 * d))
  }

  lemma DigitsOf(a: nat, b: nat, c: nat, d: nat)
    requires a < 256 && b < 256 && c < 256 && d < 256
    ensures var v := Digits(a, b, c, d);
            v % 256 == a && v / 256 % 256 == b && v / 256 / 256 % 256 == c && v / 256 / 256 / 256 == d
  {
    assert Digits(a, b, c, d) / 256 == b + 256 * (c + 256 * d);
    assert (b + 256 * (c + 256 * d)) / 256 == c + 256 * d;
  }

  lemma FromDigits(v: nat)
    requires v < 0x1_0000_0000
    ensures v == Digits(v % 256, v / 256 % 256, v / 256 / 256 % 256, v / 256 / 256 / 256)
  {
  }

  /** A 16-bit and a 32-bit field in memory, least significant byte first. */
  function Store16(v: nat): (b: Bytes)
    requires v < 0x1_0000
    ensures |b| == 2
  {
    [v % 256, v / 256]
  }

  function Store32(v: nat): (b: Bytes)
    requires v < 0x1_0000_0000
    ensures |b| == 4
  {
    [v % 256, v / 256 % 256, v / 256 / 256 % 256, v / 256 / 256 / 256]
  }

  function Load16(b: Bytes, i: nat): (v: nat)
    requires i + 2 <= |b|
    ensures v < 0x1_0000
  {
    var lo: int, hi: int := b[i], b[i + 1];
    lo + 256 * hi
  }

  function Load32(b: Bytes, i: nat): (v: nat)
    requires i + 4 <= |b|
    ensures v < 0x1_0000_0000
  {
    Digits(b[i], b[i + 1], b[i + 2], b[i + 3])
  }

  lemma Swap16(v: nat)
    requires v < 0x1_0000
    ensures Bswaps(Load16(Store16(Bswaps(v)), 0)) == v
  {
  }

  lemma Swap32(v: nat)
    requires v < 0x1_0000_0000
    ensures Bswapl(Load32(Store32(Bswapl(v)), 0)) == v
  {
    hide Digits;
    FromDigits(v);
    DigitsOf(v / 256 / 256 / 256, v / 256 / 256 % 256, v / 256 % 256, v % 256);
    FromDigits(Bswapl(v));
  }

  // ----- the Internet checksum -----

  /** The sum of the first n 16-bit words. */
  function WordSum(b: Bytes, n: nat): (s: nat)
    requires 2 * n <= |b|
    ensures s <= n * 65535
  {
    if n == 0 then 0 else WordSum(b, n - 1) + Load16(b, 2 * n - 2)
  }

  /** All bytes, an odd last one as a word of its own. */
  function Sum(b: Bytes): nat {
    WordSum(b, |b| / 2) + if |b| % 2 == 1 then b[|b| - 1] else 0
  }

  /** A sum in ones' complement arithmetic of 16 bits: carries come back in at the bottom. */
  function Ones(s: nat): (r: nat)
    ensures r < 0x1_0000
  {
    if s == 0 then 0 else (s - 1) % 65535 + 1
  }

  function Checksum(b: Bytes): (c: nat)
    ensures c < 0x1_0000
  {
    65535 - Ones(Sum(b))
  }

  /** Two folds bring every carry back in, for any 32-bit sum. */
  function Folded(s: nat): nat { var t := s % 0x1_0000 + s / 0x1_0000; (t + t / 0x1_0000) % 0x1_0000 }

  lemma TwoFoldsSuffice(s: nat)
    requires s < 0x1_0000_0000
    ensures Folded(s) == Ones(s)
  {
    var q, r := s / 0x1_0000, s % 0x1_0000;
    var t := r + q;
    assert s == q * 65535 + t;
    if s > 0 { Residue(s, q, t); }
  }

  lemma SumBound(b: Bytes)
    ensures Sum(b) <= (|b| / 2 + 1) * 65535
    ensures |b| <= 0x2_0000 ==> Sum(b) < 0x1_0000_0000
  {
  }

  /** A block of nothing but 0xFF sums to 65535 times its words. */
  lemma {:induction false} AllOnesSum(b: Bytes, k: nat)
    requires 2 * k <= |b| && forall i :: 0 <= i < |b| ==> b[i] == 0xFF
    ensures WordSum(b, k) == k * 65535
  {
    if k > 0 { AllOnesSum(b, k - 1); }
  }

  /** Losing the carries out of 32 bits, of which there are fewer than 65535, always shows. */
  lemma WrapIff(s: nat)
    requires s / 0x1_0000_0000 < 65535
    ensures Ones(s % 0x1_0000_0000) == Ones(s) <==> s < 0x1_0000_0000
  {
    var q, r := s / 0x1_0000_0000, s % 0x1_0000_0000;
    if q > 0 && r > 0 {
      var u, v := (r - 1) / 65535, (r - 1) % 65535;
      assert s - 1 == (q * 65537 + u) * 65535 + (q + v);
      Mod(q * 65537 + u, q + v);
    }
  }

  lemma Residue(s: nat, q: nat, t: nat)
    requires s > 0 && s == q * 65535 + t && t <= 2 * 65535 && (t == 0 ==> q == 0)
    ensures Ones(s) == (if t <= 65535 then t else t - 65535)
  {
    Mod(q, t - 1);
  }

  lemma {:induction false} Mod(q: nat, t: int)
    requires 0 <= t
    ensures (q * 65535 + t) % 65535 == t % 65535
  {
    if q > 0 {
      Mod(q - 1, t);
      assert q * 65535 + t == 65535 + ((q - 1) * 65535 + t);
    }
  }

  /** Storing the checksum in a zero field makes the whole sum to 65535, the other zero. */
  lemma OnesFills(s: nat)
    ensures Ones(s + (65535 - Ones(s))) == 65535
  {
    if s > 0 {
      var q := (s - 1) / 65535;
      Mod(q, 65534);
      assert s + (65535 - Ones(s)) - 1 == q * 65535 + 65534;
    }
  }

  lemma {:induction false} WordSumUpdate(b: Bytes, n: nat, k: nat, v: nat)
    requires 2 * n <= |b| && k < n && v < 0x1_0000 && Load16(b, 2 * k) == 0
    ensures WordSum(b[2 * k := v % 256][2 * k + 1 := v / 256], n) == WordSum(b, n) + v
  {
    var b' := b[2 * k := v % 256][2 * k + 1 := v / 256];
    if k < n - 1 {
      WordSumUpdate(b, n - 1, k, v);
    } else {
      WordSumSame(b, b', n - 1);
    }
  }

  lemma {:induction false} WordSumSame(b: Bytes, b': Bytes, n: nat)
    requires 2 * n <= |b| && 2 * n <= |b'| && forall i :: 0 <= i < 2 * n ==> b[i] == b'[i]
    ensures WordSum(b, n) == WordSum(b', n)
  {
    if n > 0 { WordSumSame(b, b', n - 1); }
  }

  /** Any block of even length with its checksum stored in a zero word checksums to 0. */
  lemma ChecksumsToZero(b: Bytes, k: nat)
    requires |b| % 2 == 0 && 2 * k + 2 <= |b| && Load16(b, 2 * k) == 0
    ensures Checksum(b[2 * k := Checksum(b) % 256][2 * k + 1 := Checksum(b) / 256]) == 0
  {
    hide WordSum, Ones;
    WordSumUpdate(b, |b| / 2, k, Checksum(b));
    OnesFills(Sum(b));
  }

  // ----- headers -----

  function UdpHeader(sport: nat, dport: nat, ulen: nat): (h: Bytes)
    requires sport < 0x1_0000 && dport < 0x1_0000 && ulen < 0x1_0000
    ensures |h| == UDPLEN
  {
    Store16(Bswaps(sport)) + Store16(Bswaps(dport)) + Store16(Bswaps(ulen)) + Store16(0)
  }

  /** The IP header before its checksum is stored. */
  function IpBlank(len: nat, dip: nat): (h: Bytes)
    requires len < 0x1_0000 && dip < 0x1_0000_0000
    ensures |h| == IPLEN
  {
    var addresses := Store32(Bswapl(LOCALIP)) + Store32(Bswapl(dip));
    [VHL, 0] + Store16(Bswaps(len)) + [0, 0, 0, 0, 100, PROTOUDP, 0, 0] + addresses
  }

  function IpHeader(len: nat, dip: nat): (h: Bytes)
    requires len < 0x1_0000 && dip < 0x1_0000_0000
    ensures |h| == IPLEN
  {
    var c := Checksum(IpBlank(len, dip));
    IpBlank(len, dip)[10 := c % 256][11 := c / 256]
  }

  function EthHeader(kind: nat): (h: Bytes)
    requires kind < 0x1_0000
    ensures |h| == ETHLEN
  {
    BROADCAST + LOCALMAC + Store16(Bswaps(kind))
  }

  function Frame(payload: Bytes, dip: nat, sport: nat, dport: nat): Bytes
    requires |payload| + IPLEN + UDPLEN < 0x1_0000 && dip < 0x1_0000_0000 && sport < 0x1_0000 && dport < 0x1_0000
  {
    var len := |payload| + UDPLEN;
    EthHeader(ETHIP) + (IpHeader(len + IPLEN, dip) + (UdpHeader(sport, dport, len) + payload))
  }

  // ----- what the receiving side makes of a frame -----

  datatype Datagram = Datagram(payload: Bytes, sip: nat, dport: nat, sport: nat)

  function Minus16(a: nat, b: nat): nat
    requires a < 0x1_0000 && b < 0x1_0000
  {
    (a + 0x1_0000 - b) % 0x1_0000
  }

  function DeliverUdp(b: Bytes, len: nat, sip: nat): Option<Datagram>
    requires len < 0x1_0000
  {
    if |b| < UDPLEN || Bswaps(Load16(b, 4)) != len || Minus16(len, UDPLEN) > |b| - UDPLEN then None
    else Some(Datagram(b[UDPLEN..UDPLEN + Minus16(len, UDPLEN)], sip, Bswaps(Load16(b, 2)), Bswaps(Load16(b, 0))))
  }

  function DeliverIp(b: Bytes): Option<Datagram> {
    if |b| < IPLEN || b[0] != VHL || Checksum(b[..IPLEN]) != 0 || Bswaps(Load16(b, 6)) != 0
       || Bswapl(Load32(b, 16)) != LOCALIP || b[9] != PROTOUDP then None
    else DeliverUdp(b[IPLEN..], Minus16(Bswaps(Load16(b, 2)), IPLEN), Bswapl(Load32(b, 12)))
  }

  function Deliver(b: Bytes): Option<Datagram> {
    if |b| < ETHLEN || Bswaps(Load16(b, 12)) != ETHIP then None else DeliverIp(b[ETHLEN..])
  }

  lemma IpFields(len: nat, dip: nat)
    requires len < 0x1_0000 && dip < 0x1_0000_0000
    ensures var h := IpHeader(len, dip);
            && h[0] == VHL && h[9] == PROTOUDP && Bswaps(Load16(h, 2)) == len && Bswaps(Load16(h, 6)) == 0
            && Bswapl(Load32(h, 12)) == LOCALIP && Bswapl(Load32(h, 16)) == dip
  {
    hide Bswaps, Bswapl, Store16, Store32, Checksum, Digits;
    var h, l, sip, d := IpHeader(len, dip), Store16(Bswaps(len)), Store32(Bswapl(LOCALIP)), Store32(Bswapl(dip));
    Swap16(len);
    Swap32(dip);
    Swap32(LOCALIP);
    ZeroSwap();
    assert h[2] == l[0] && h[3] == l[1];
    assert h[12] == sip[0] && h[13] == sip[1] && h[14] == sip[2] && h[15] == sip[3];
    assert h[16] == d[0] && h[17] == d[1] && h[18] == d[2] && h[19] == d[3];
  }

  lemma ZeroSwap()
    ensures Bswaps(0) == 0
  {
  }

  /** Every header net_tx_ip makes checksums to 0. */
  lemma HeaderChecksumsToZero(len: nat, dip: nat)
    requires len < 0x1_0000 && dip < 0x1_0000_0000
    ensures Checksum(IpHeader(len, dip)) == 0
  {
    hide IpBlank, Checksum;
    BlankSum(len, dip);
    ChecksumsToZero(IpBlank(len, dip), 5);
  }

  lemma BlankSum(len: nat, dip: nat)
    requires len < 0x1_0000 && dip < 0x1_0000_0000
    ensures Load16(IpBlank(len, dip), 10) == 0
  {
    hide Bswaps, Bswapl, Store16, Store32, Digits;
    var h := IpBlank(len, dip);
    assert h[10] == 0 && h[11] == 0;
  }

  lemma UdpFields(sport: nat, dport: nat, ulen: nat)
    requires sport < 0x1_0000 && dport < 0x1_0000 && ulen < 0x1_0000
    ensures var h := UdpHeader(sport, dport, ulen);
            Bswaps(Load16(h, 0)) == sport && Bswaps(Load16(h, 2)) == dport && Bswaps(Load16(h, 4)) == ulen
  {
    Swap16(sport);
    Swap16(dport);
    Swap16(ulen);
  }

  lemma UdpRoundTrip(payload: Bytes, pad: Bytes, sport: nat, dport: nat, sip: nat)
    requires |payload| + UDPLEN < 0x1_0000 && sport < 0x1_0000 && dport < 0x1_0000
    ensures var b := UdpHeader(sport, dport, |payload| + UDPLEN) + payload + pad;
            DeliverUdp(b, |payload| + UDPLEN, sip) == Some(Datagram(payload, sip, dport, sport))
  {
    var h := UdpHeader(sport, dport, |payload| + UDPLEN);
    var b := h + payload + pad;
    UdpFields(sport, dport, |payload| + UDPLEN);
    assert forall i :: 0 <= i < UDPLEN ==> b[i] == h[i];
    assert b[UDPLEN..UDPLEN + |payload|] == payload;
  }

  lemma IpRoundTrip(payload: Bytes, rest: Bytes)
    requires |payload| + IPLEN + UDPLEN < 0x1_0000
    ensures var len := |payload| + UDPLEN;
            DeliverIp(IpHeader(len + IPLEN, LOCALIP) + rest) == DeliverUdp(rest, len, LOCALIP)
  {
    hide IpHeader, Bswaps, Bswapl, Checksum, DeliverUdp, Digits;
    var len := |payload| + UDPLEN + IPLEN;
    var i := IpHeader(len, LOCALIP);
    var ip := i + rest;
    IpFields(len, LOCALIP);
    HeaderChecksumsToZero(len, LOCALIP);
    assert ip[..IPLEN] == i && ip[IPLEN..] == rest;
    assert forall k :: 0 <= k < IPLEN ==> ip[k] == i[k];
  }

  /** A datagram sent to this host, with any padding behind it, is delivered unchanged. */
  lemma FrameRoundTrip(payload: Bytes, pad: Bytes, sport: nat, dport: nat)
    requires |payload| + IPLEN + UDPLEN < 0x1_0000 && sport < 0x1_0000 && dport < 0x1_0000
    ensures Deliver(Frame(payload, LOCALIP, sport, dport) + pad) == Some(Datagram(payload, LOCALIP, dport, sport))
  {
    hide IpHeader, UdpHeader, DeliverIp, DeliverUdp;
    var len := |payload| + UDPLEN;
    var e, i, u := EthHeader(ETHIP), IpHeader(len + IPLEN, LOCALIP), UdpHeader(sport, dport, len);
    var f, rest := Frame(payload, LOCALIP, sport, dport) + pad, u + payload + pad;
    assert f == e + (i + rest);
    assert f[ETHLEN..] == i + rest && f[12] == e[12] && f[13] == e[13];
    IpRoundTrip(payload, rest);
    UdpRoundTrip(payload, pad, sport, dport, LOCALIP);
  }

  // ----- ARP -----

  datatype Arp = Arp(op: nat, sha: Bytes, sip: nat, tha: Bytes, tip: nat)

  predicate ValidArp(a: Arp) {
    a.op < 0x1_0000 && |a.sha| == 6 && a.sip < 0x1_0000_0000 && |a.tha| == 6 && a.tip < 0x1_0000_0000
  }

  /** The packet for Ethernet and IP addresses. */
  function ArpBytes(a: Arp): (b: Bytes)
    requires ValidArp(a)
    ensures |b| == ARPLEN
  {
    var kinds := Store16(Bswaps(ARPETHER)) + Store16(Bswaps(ETHIP)) + [6, 4] + Store16(Bswaps(a.op));
    kinds + (a.sha + Store32(Bswapl(a.sip))) + (a.tha + Store32(Bswapl(a.tip)))
  }

  function ParseArp(b: Bytes): (r: Option<Arp>)
    ensures r.Some? ==> ValidArp(r.value)
  {
    if |b| < ARPLEN || Bswaps(Load16(b, 0)) != ARPETHER || Bswaps(Load16(b, 2)) != ETHIP || b[4] != 6 || b[5] != 4
    then None
    else Some(Arp(Bswaps(Load16(b, 6)), b[8..14], Bswapl(Load32(b, 14)), b[18..24], Bswapl(Load32(b, 24))))
  }

  /** The frame net_rx sends in answer to one it receives, if any. */
  function Answer(b: Bytes): Option<Bytes> {
    if |b| < ETHLEN || Bswaps(Load16(b, 12)) != ETHARP then None else AnswerArp(b[ETHLEN..])
  }

  function AnswerArp(b: Bytes): Option<Bytes> {
    var a := ParseArp(b);
    if a.None? || a.value.op != ARPREQUEST || a.value.tip != LOCALIP then None
    else Some(ArpReply(a.value.sha, a.value.sip))
  }

  function ArpReply(mac: Bytes, ip: nat): Bytes
    requires |mac| == 6 && ip < 0x1_0000_0000
  {
    EthHeader(ETHARP) + ArpBytes(Arp(ARPREPLY, LOCALMAC, LOCALIP, mac, ip))
  }

  lemma Field16(b: Bytes, i: nat, v: nat)
    requires i + 2 <= |b| && v < 0x1_0000 && b[i..i + 2] == Store16(Bswaps(v))
    ensures Bswaps(Load16(b, i)) == v
  {
    hide Bswaps;
    Swap16(v);
    var f := b[i..i + 2];
    assert f[0] == b[i] && f[1] == b[i + 1];
  }

  lemma Field32(b: Bytes, i: nat, v: nat)
    requires i + 4 <= |b| && v < 0x1_0000_0000 && b[i..i + 4] == Store32(Bswapl(v))
    ensures Bswapl(Load32(b, i)) == v
  {
    hide Bswapl, Digits;
    Swap32(v);
    var f := b[i..i + 4];
    assert f[0] == b[i] && f[1] == b[i + 1] && f[2] == b[i + 2] && f[3] == b[i + 3];
  }

  /** Reading inverts writing, whatever follows the packet. */
  lemma ArpRoundTrip(a: Arp, pad: Bytes)
    requires ValidArp(a)
    ensures ParseArp(ArpBytes(a) + pad) == Some(a)
  {
    hide Bswaps, Bswapl, Digits, Store16, Store32, Load16, Load32;
    var b := ArpBytes(a) + pad;
    assert b[0..2] == Store16(Bswaps(ARPETHER)) && b[2..4] == Store16(Bswaps(ETHIP)) && b[4] == 6 && b[5] == 4;
    assert b[6..8] == Store16(Bswaps(a.op)) && b[8..14] == a.sha && b[14..18] == Store32(Bswapl(a.sip));
    assert b[18..24] == a.tha && b[24..28] == Store32(Bswapl(a.tip));
    Field16(b, 0, ARPETHER);
    Field16(b, 2, ETHIP);
    Field16(b, 6, a.op);
    Field32(b, 14, a.sip);
    Field32(b, 24, a.tip);
  }

  /** A frame with any Ethernet addresses. */
  function ArpFrame(addresses: Bytes, a: Arp): Bytes
    requires |addresses| == 12 && ValidArp(a)
  {
    addresses + Store16(Bswaps(ETHARP)) + ArpBytes(a)
  }

  lemma AnswerIs(addresses: Bytes, a: Arp, pad: Bytes)
    requires |addresses| == 12 && ValidArp(a)
    ensures Answer(ArpFrame(addresses, a) + pad) ==
            if a.op == ARPREQUEST && a.tip == LOCALIP then Some(ArpReply(a.sha, a.sip)) else None
  {
    hide Bswaps, Store16, Load16, ArpBytes, ParseArp, ArpReply;
    var f := ArpFrame(addresses, a) + pad;
    assert f[12..14] == Store16(Bswaps(ETHARP)) && f[ETHLEN..] == ArpBytes(a) + pad;
    Field16(f, 12, ETHARP);
    ArpRoundTrip(a, pad);
  }

  /**
   Whoever asks for this host's address, in a frame with any Ethernet addresses and any padding,
   is sent a frame that reads as a reply to them, with this host's addresses; and however that
   reply is padded, it is not answered in turn.
   */
  lemma ArpAnswered(addresses: Bytes, mac: Bytes, ip: nat, tha: Bytes, pad: Bytes, pad': Bytes)
    requires |addresses| == 12 && |mac| == 6 && |tha| == 6 && ip < 0x1_0000_0000
    ensures var r := Answer(ArpFrame(addresses, Arp(ARPREQUEST, mac, ip, tha, LOCALIP)) + pad);
            && r.Some? && |r.value| == ETHLEN + ARPLEN && r.value[..6] == BROADCAST && r.value[6..12] == LOCALMAC
            && ParseArp(r.value[ETHLEN..]) == Some(Arp(ARPREPLY, LOCALMAC, LOCALIP, mac, ip))
            && Answer(r.value + pad') == None
  {
    hide Answer, ParseArp, ArpBytes, Bswaps, Store16;
    AnswerIs(addresses, Arp(ARPREQUEST, mac, ip, tha, LOCALIP), pad);
    var a := Arp(ARPREPLY, LOCALMAC, LOCALIP, mac, ip);
    var r := ArpReply(mac, ip);
    assert r[..6] == BROADCAST && r[6..12] == LOCALMAC && r[ETHLEN..] == ArpBytes(a) + [];
    ArpRoundTrip(a, []);
    assert r == ArpFrame(BROADCAST + LOCALMAC, a);
    AnswerIs(BROADCAST + LOCALMAC, a, pad');
  }
}
