/** The network stack's code on packet buffers, working in place. */
module Net {
  import opened Wrappers
  import opened NetModel

  const MBUFSIZE: nat := 2048
  const UINTMOD: nat := 0x1_0000_0000
  const HEADROOM: nat := 128

  class Mbuf {
    const buf: array<Byte>
    var head: nat
    var len: nat

    ghost predicate Valid()
      reads this
    {
      buf.Length == MBUFSIZE && head + len <= MBUFSIZE
    }

    ghost function Data(): Bytes
      requires Valid()
      reads this, buf
    {
      buf[head..head + len]
    }

    /** mbufalloc, for a headroom that fits. */
    constructor (headroom: nat)
      requires headroom <= MBUFSIZE
      ensures Valid() && head == headroom && len == 0 && fresh(buf) && Data() == []
    {
      buf := new Byte[MBUFSIZE](_ => 0);
      head, len := headroom, 0;
    }

    method Pull(n: nat) returns (ok: bool)
      requires Valid()
      modifies this
      ensures Valid() && ok == (old(len) >= n)
      ensures Data() == if ok then old(Data())[n..] else old(Data())
      ensures ok ==> head == old(head) + n
    {
      ok := len >= n;
      if ok { len, head := len - n, head + n; }
    }

    /** mbufpullhdr: the bytes of a header taken off the front, and where they are. */
    method PullHeader(n: nat) returns (ok: bool, at: nat, h: Bytes)
      requires Valid()
      modifies this
      ensures Valid() && ok == (old(len) >= n)
      ensures ok ==>
                && at + n <= MBUFSIZE && |h| == n && h == buf[at..at + n] && h == old(Data())[..n]
                && Data() == old(Data())[n..]
    {
      at, h := head, [];
      ghost var d := Data();
      ok := Pull(n);
      if ok {
        h := buf[at..at + n];
        forall k | 0 <= k < n ensures h[k] == d[k] { assert h[k] == buf[at + k]; }
      }
    }

    /** mbufpush; false stands for its panic, reached exactly when the headroom is used up. */
    method Push(n: nat) returns (ok: bool)
      requires Valid()
      modifies this
      ensures Valid() && ok == (n <= old(head)) && (!ok ==> head == old(head) && len == old(len))
      ensures ok ==> head == old(head) - n && len == old(len) + n && Data()[n..] == old(Data())
    {
      ok := n <= head;
      if ok { head, len := head - n, len + n; }
    }

    /**
     mbufput, whose length is 32 bits wide. Its panic test does not count the headroom and comes
     after the addition has wrapped, so the bytes put lie inside the buffer, and count as its data,
     only if the sizes add up.
     */
    method Put(n: nat) returns (ok: bool)
      requires Valid() && n < UINTMOD
      modifies this`len
      ensures len == (old(len) + n) % UINTMOD && ok == (len <= MBUFSIZE)
      ensures Valid() && len == old(len) + n <==> old(head) + old(len) + n <= MBUFSIZE
      ensures !ok ==> old(head) + old(len) + n > MBUFSIZE
    {
      len := (len + n) % UINTMOD;
      ok := len <= MBUFSIZE;
    }

    method Trim(n: nat) returns (ok: bool)
      requires Valid()
      modifies this`len
      ensures Valid() && ok == (n <= old(len)) && head == old(head)
      ensures Data() == if ok then old(Data())[..old(len) - n] else old(Data())
    {
      ok := n <= len;
      if ok { len := len - n; }
    }

    /** memmove into the buffer. */
    method Copy(off: nat, src: Bytes)
      requires Valid() && off + |src| <= MBUFSIZE
      modifies buf
      ensures forall k :: 0 <= k < MBUFSIZE ==> buf[k] == if off <= k < off + |src| then src[k - off] else old(buf[k])
    {
      var i := 0;
      while i < |src|
        invariant 0 <= i <= |src|
        invariant forall k :: 0 <= k < MBUFSIZE ==> buf[k] == if off <= k < off + i then src[k - off] else old(buf[k])
      {
        buf[off + i] := src[i];
        i := i + 1;
      }
    }

    /** Pushing a header of known contents in front. */
    method PushBytes(h: Bytes) returns (ok: bool)
      requires Valid()
      modifies this, buf
      ensures Valid() && ok == (|h| <= old(head))
      ensures ok ==> head == old(head) - |h| && len == old(len) + |h| && Data() == h + old(Data())
    {
      ghost var d := Data();
      ok := Push(|h|);
      if ok {
        Copy(head, h);
        assert Data() == h + d;
      }
    }
  }

  /**
   A put that passes the panic test and still ends outside the buffer: one byte more than the room
   behind the headroom.
   */
  method PutOverruns() returns (m: Mbuf, ok: bool)
    ensures ok && !m.Valid() && m.head + m.len == m.buf.Length + 1
  {
    m := new Mbuf(HEADROOM);
    ok := m.Put(MBUFSIZE - HEADROOM + 1);
  }

  /** A put of nearly 4 GB that passes the test because the length wraps: the buffer seems to shrink. */
  method PutWraps() returns (m: Mbuf, ok: bool)
    ensures ok && m.Valid() && m.len == 0
  {
    m := new Mbuf(HEADROOM);
    var _ := m.Put(1);
    ok := m.Put(UINTMOD - 1);
  }

  /** in_cksum, for any length an int holds: right exactly when the sum fits its 32-bit accumulator. */
  method InCksum(b: array<Byte>, off: nat, n: nat) returns (c: nat)
    requires off + n <= b.Length && n < 0x8000_0000
    ensures c == Checksum(b[off..off + n]) <==> Sum(b[off..off + n]) < UINTMOD
    ensures n <= 0x2_0000 ==> c == Checksum(b[off..off + n])
  {
    hide Ones, Folded, Checksum, WordSum, Sum;
    ghost var s := b[off..off + n];
    var sum, k := 0, 0;
    NoWords(s);
    while n - 2 * k > 1
      invariant 0 <= 2 * k <= n && sum == WordSum(s, k) % UINTMOD
    {
      var lo: int, hi: int := b[off + 2 * k], b[off + 2 * k + 1];
      assert s[2 * k] == b[off + 2 * k] && s[2 * k + 1] == b[off + 2 * k + 1];
      assert lo + 256 * hi == Load16(s, 2 * k);
      NextWord(s, k, sum);
      sum := (sum + (lo + 256 * hi)) % UINTMOD;
      k := k + 1;
    }
    if n - 2 * k == 1 {
      var last: int := b[off + 2 * k];
      assert s[2 * k] == b[off + 2 * k];
      LastByte(s, k, sum);
      sum := (sum + last) % UINTMOD;
    }
    if n % 2 == 0 { SumEven(s); }
    SumWraps(s, sum);
    FoldedIs(sum);
    sum := sum % 0x1_0000 + sum / 0x1_0000;
    sum := sum + sum / 0x1_0000;
    c := 65535 - sum % 0x1_0000;
  }

  /** A block of 0xFF whose sum does not fit is given a wrong checksum. */
  method CarryDropped() returns (b: array<Byte>, c: nat)
    ensures b.Length == 0x2_0004 && c != Checksum(b[..])
  {
    hide Checksum, WordSum;
    b := new Byte[0x2_0004](_ => 0xFF);
    c := InCksum(b, 0, b.Length);
    assert b[0..b.Length] == b[..];
    AllOnesSum(b[..], 0x1_0002);
  }

  lemma AddWrap(a: nat, b: nat)
    ensures (a % UINTMOD + b) % UINTMOD == (a + b) % UINTMOD
  {
  }

  lemma NoWords(s: Bytes)
    ensures WordSum(s, 0) == 0
  {
  }

  lemma NextWord(s: Bytes, k: nat, sum: nat)
    requires 2 * k + 1 < |s| && sum == WordSum(s, k) % UINTMOD
    ensures (sum + Load16(s, 2 * k)) % UINTMOD == WordSum(s, k + 1) % UINTMOD
  {
    AddWrap(WordSum(s, k), Load16(s, 2 * k));
  }

  lemma LastByte(s: Bytes, k: nat, sum: nat)
    requires 2 * k + 1 == |s| && sum == WordSum(s, k) % UINTMOD
    ensures (sum + s[2 * k]) % UINTMOD == Sum(s) % UINTMOD
  {
    AddWrap(WordSum(s, k), s[2 * k]);
  }

  lemma SumEven(s: Bytes)
    requires |s| % 2 == 0
    ensures Sum(s) == WordSum(s, |s| / 2)
  {
  }

  lemma SumWraps(s: Bytes, sum: nat)
    requires sum == Sum(s) % UINTMOD && |s| < 0x8000_0000
    ensures 65535 - Folded(sum) == Checksum(s) <==> Sum(s) < UINTMOD
    ensures |s| <= 0x2_0000 ==> Sum(s) < UINTMOD
  {
    hide Sum, Ones, Folded;
    SumBound(s);
    WrapIff(Sum(s));
    TwoFoldsSuffice(sum);
  }

  lemma FoldedIs(s: nat)
    ensures var t := s % 0x1_0000 + s / 0x1_0000; Folded(s) == (t + t / 0x1_0000) % 0x1_0000
  {
  }

  method TxEth(m: Mbuf, kind: nat) returns (ok: bool)
    requires m.Valid() && kind < 0x1_0000
    modifies m, m.buf
    ensures m.Valid() && ok == (ETHLEN <= old(m.head)) && (ok ==> m.Data() == EthHeader(kind) + old(m.Data()))
  {
    hide EthHeader;
    ok := m.PushBytes(EthHeader(kind));
  }

  /** net_tx_ip: the header is written with a zero checksum field, summed, and the field filled in. */
  method TxIp(m: Mbuf, dip: nat) returns (ok: bool)
    requires m.Valid() && dip < 0x1_0000_0000
    modifies m, m.buf
    ensures m.Valid() && ok == (IPLEN + ETHLEN <= old(m.head))
    ensures ok ==> m.Data() == EthHeader(ETHIP) + (IpHeader(old(m.len) + IPLEN, dip) + old(m.Data()))
  {
    hide EthHeader, IpBlank, Checksum;
    ghost var d := m.Data();
    var blank := IpBlank(m.len + IPLEN, dip);
    ok := m.PushBytes(blank);
    if !ok { return; }
    assert m.buf[m.head..m.head + IPLEN] == m.Data()[..IPLEN] == blank;
    var c := InCksum(m.buf, m.head, IPLEN);
    StoreSum(m, c, blank, d);
    ok := TxEth(m, ETHIP);
  }

  method StoreSum(m: Mbuf, c: nat, ghost blank: Bytes, ghost d: Bytes)
    requires m.Valid() && c < 0x1_0000 && |blank| == IPLEN && m.Data() == blank + d
    modifies m.buf
    ensures m.Data() == blank[10 := c % 256][11 := c / 256] + d
  {
    m.buf[m.head + 10], m.buf[m.head + 11] := c % 256, c / 256;
  }

  /** net_tx_udp: the frame of the buffer's contents; a panic exactly when 42 bytes of headroom are lacking. */
  method TxUdp(m: Mbuf, dip: nat, sport: nat, dport: nat) returns (ok: bool)
    requires m.Valid() && dip < 0x1_0000_0000 && sport < 0x1_0000 && dport < 0x1_0000
    modifies m, m.buf
    ensures m.Valid() && ok == (UDPLEN + IPLEN + ETHLEN <= old(m.head))
    ensures ok ==> m.Data() == Frame(old(m.Data()), dip, sport, dport)
  {
    hide EthHeader, IpHeader, UdpHeader;
    ok := m.PushBytes(UdpHeader(sport, dport, m.len + UDPLEN));
    if !ok { return; }
    ok := TxIp(m, dip);
  }

  method RxUdp(m: Mbuf, len: nat, sip: nat) returns (r: Option<Datagram>)
    requires m.Valid() && len < 0x1_0000
    modifies m
    ensures m.Valid() && r == DeliverUdp(old(m.Data()), len, sip)
  {
    hide Bswaps;
    ghost var d := m.Data();
    var ok, at, h := m.PullHeader(UDPLEN);
    if !ok { return None; }
    if Bswaps(Load16(h, 4)) != len { return None; }
    var want := Minus16(len, UDPLEN);
    if want > m.len { return None; }
    ok := m.Trim(m.len - want);
    r := Some(Datagram(m.buf[m.head..m.head + m.len], sip, Bswaps(Load16(h, 2)), Bswaps(Load16(h, 0))));
    assert m.Data() == d[UDPLEN..UDPLEN + want];
  }

  method RxIp(m: Mbuf) returns (r: Option<Datagram>)
    requires m.Valid()
    modifies m
    ensures m.Valid() && r == DeliverIp(old(m.Data()))
  {
    hide Bswaps, Bswapl, Checksum, DeliverUdp, Digits;
    var ok, at, h := m.PullHeader(IPLEN);
    if !ok { return None; }
    if h[0] != VHL { return None; }
    var c := InCksum(m.buf, at, IPLEN);
    if c != 0 { return None; }
    if Bswaps(Load16(h, 6)) != 0 { return None; }
    if Bswapl(Load32(h, 16)) != LOCALIP { return None; }
    if h[9] != PROTOUDP { return None; }
    r := RxUdp(m, Minus16(Bswaps(Load16(h, 2)), IPLEN), Bswapl(Load32(h, 12)));
  }

  /** net_tx_arp of a reply; without memory for a buffer nothing is sent. */
  method TxArpReply(mac: Bytes, ip: nat, memory: bool) returns (m: Mbuf?)
    requires |mac| == 6 && ip < 0x1_0000_0000
    ensures m == null <==> !memory
    ensures m != null ==> fresh(m) && fresh(m.buf) && m.Valid() && m.Data() == ArpReply(mac, ip)
  {
    hide ArpBytes, EthHeader;
    if !memory { return null; }
    var arp := ArpBytes(Arp(ARPREPLY, LOCALMAC, LOCALIP, mac, ip));
    var b := Filled(HEADROOM, arp);
    var ok := TxEth(b, ETHARP);
    m := b;
  }

  /** net_rx_arp: the answer, if the packet asks for this host. */
  method RxArp(m: Mbuf, memory: bool) returns (reply: Mbuf?)
    requires m.Valid()
    modifies m
    ensures m.Valid() && (reply == null <==> AnswerArp(old(m.Data())).None? || !memory)
    ensures reply != null ==> fresh(reply) && reply.Valid() && Some(reply.Data()) == AnswerArp(old(m.Data()))
  {
    hide Bswaps, Bswapl, Digits, ArpReply;
    ghost var d := m.Data();
    var ok, at, h := m.PullHeader(ARPLEN);
    if !ok { return null; }
    if Bswaps(Load16(h, 0)) != ARPETHER || Bswaps(Load16(h, 2)) != ETHIP || h[4] != 6 || h[5] != 4 { return null; }
    if Bswaps(Load16(h, 6)) != ARPREQUEST || Bswapl(Load32(h, 24)) != LOCALIP { return null; }
    assert h[8..14] == d[8..14];
    reply := TxArpReply(h[8..14], Bswapl(Load32(h, 14)), memory);
  }

  /** net_rx: what the frame's bytes deliver to the sockets, and the frame sent in answer. */
  method Rx(m: Mbuf, memory: bool) returns (r: Option<Datagram>, reply: Mbuf?)
    requires m.Valid()
    modifies m
    ensures m.Valid() && r == Deliver(old(m.Data()))
    ensures reply == null <==> Answer(old(m.Data())).None? || !memory
    ensures reply != null ==> fresh(reply) && reply.Valid() && Some(reply.Data()) == Answer(old(m.Data()))
  {
    hide Bswaps, DeliverIp, AnswerArp;
    r, reply := None, null;
    var ok, at, h := m.PullHeader(ETHLEN);
    if !ok { return; }
    var kind := Bswaps(Load16(h, 12));
    if kind == ETHIP { r := RxIp(m); } else if kind == ETHARP { reply := RxArp(m, memory); }
  }

  /** A fresh buffer with the given contents. */
  method Filled(headroom: nat, data: Bytes) returns (m: Mbuf)
    requires headroom + |data| <= MBUFSIZE
    ensures fresh(m) && fresh(m.buf) && m.Valid() && m.head == headroom && m.Data() == data
  {
    m := new Mbuf(headroom);
    var ok := m.Put(|data|);
    m.Copy(m.head, data);
  }

  /**
   Sending to this host and receiving the frame, padded by the wire: any payload that fits the
   buffer arrives unchanged.
   */
  method Loopback(payload: Bytes, pad: Bytes, sport: nat, dport: nat) returns (r: Option<Datagram>)
    requires |payload| <= MBUFSIZE - HEADROOM && ETHLEN + IPLEN + UDPLEN + |payload| + |pad| <= MBUFSIZE
    requires sport < 0x1_0000 && dport < 0x1_0000
    ensures r == Some(Datagram(payload, LOCALIP, dport, sport))
  {
    hide Frame, Deliver;
    var m := Filled(HEADROOM, payload);
    var ok := TxUdp(m, LOCALIP, sport, dport);
    FrameLength(payload, LOCALIP, sport, dport);
    var n := Filled(0, m.buf[m.head..m.head + m.len] + pad);
    var reply;
    r, reply := Rx(n, true);
    FrameRoundTrip(payload, pad, sport, dport);
  }

  lemma FrameLength(payload: Bytes, dip: nat, sport: nat, dport: nat)
    requires |payload| + IPLEN + UDPLEN < 0x1_0000 && dip < 0x1_0000_0000 && sport < 0x1_0000 && dport < 0x1_0000
    ensures |Frame(payload, dip, sport, dport)| == ETHLEN + IPLEN + UDPLEN + |payload|
  {
    hide EthHeader, IpHeader, UdpHeader;
  }
}
