/**
 Received frames and what the packet classes read from them.

 A frame is the whole 4096-octet buffer of an `ETHPacket` with the size that was received; the
 header fields sit at the fixed offsets of a 14-octet Ethernet, a 20-octet IP, an 8-octet UDP and
 a 20-octet RADIUS header.  A field that the code converts with `ntohs` is read big-endian; one
 that it uses raw is read little-endian.
 */
module Frames {
  import opened Bytes

  const MAX_PACKET_SIZE := 4096
  const ETH_HEADER := 14
  const IP_HEADER := 20
  const UDP_HEADER := 8
  const RADIUS_HEADER := 20
  const RADIUS_START := ETH_HEADER + IP_HEADER + UDP_HEADER

  datatype Buffer = Buffer(data: seq<byte>, size: nat)

  type Frame = f: Buffer | |f.data| == MAX_PACKET_SIZE && f.size <= MAX_PACKET_SIZE
    witness Buffer(seq(MAX_PACKET_SIZE, _ => 0), 0)

  function Raw16(d: seq<byte>, at: nat): uint16
    requires at + 2 <= |d|
  {
    var lo: int, hi: int := d[at], d[at + 1];
    lo + 0x100 * hi
  }

  function Net16(d: seq<byte>, at: nat): uint16
    requires at + 2 <= |d|
  {
    var hi: int, lo: int := d[at], d[at + 1];
    0x100 * hi + lo
  }

  function Raw32(d: seq<byte>, at: nat): (r: nat)
    requires at + 4 <= |d|
    ensures r < TWO_32
  {
    Raw16(d, at) + TWO_16 * Raw16(d, at + 2)
  }

  // ---- Classification

  predicate IsEth(f: Frame) {
    true
  }

  predicate IsIp(f: Frame) {
    Net16(f.data, 12) == 0x0800
  }

  predicate IsUdp(f: Frame) {
    IsIp(f) && f.data[23] == 17
  }

  predicate IsTcp(f: Frame) {
    IsIp(f) && f.data[23] == 6
  }

  predicate IsRadiusPort(port: uint16) {
    port == 1812 || port == 1813
  }

  predicate IsRadius(f: Frame) {
    IsUdp(f) && (IsRadiusPort(Net16(f.data, 36)) || IsRadiusPort(Net16(f.data, 34)))
  }

  function RadiusId(f: Frame): byte {
    f.data[RADIUS_START + 1]
  }

  // ---- Sizes: every layer subtracts the header below it, in a size_t

  function IpSize(f: Frame): uint64 {
    Wrap64(f.size - ETH_HEADER)
  }

  function UdpSize(f: Frame): uint64 {
    Wrap64(IpSize(f) - IP_HEADER)
  }

  function RadiusSize(f: Frame): uint64 {
    Wrap64(UdpSize(f) - UDP_HEADER)
  }

  function RadiusLengthField(f: Frame): uint16 {
    Net16(f.data, RADIUS_START + 2)
  }

  // ---- Hashes

  /** Sum of the first `n` octets of both MAC addresses. */
  function MacSum(d: seq<byte>, n: nat): (r: nat)
    requires n <= 6 && 12 <= |d|
    ensures r <= 510 * n
  {
    if n == 0 then 0 else MacSum(d, n - 1) + d[6 + n - 1] + d[n - 1]
  }

  function EthHash(f: Frame): nat {
    MacSum(f.data, 6) + Raw16(f.data, 12)
  }

  /** The accumulating loop of `ETHPacket::getPacketSpecificHashImpl`. */
  method ComputeEthHash(f: Frame) returns (hash: uint64)
    ensures hash == EthHash(f)
  {
    hash := 0;
    for i := 0 to 6
      invariant hash == MacSum(f.data, i)
    {
      hash := Wrap64(hash + f.data[6 + i] + f.data[i]);
    }
    hash := Wrap64(hash + Raw16(f.data, 12));
  }

  /** Source and destination address are added in 32 bits before the sum is widened. */
  function IpHash(f: Frame): nat {
    (Raw32(f.data, 26) + Raw32(f.data, 30)) % TWO_32
  }

  function UdpHash(f: Frame): uint64 {
    Wrap64(Wrap64(IpHash(f) + Raw16(f.data, 36)) + Raw16(f.data, 34))
  }

  function RadiusHash(f: Frame): uint64 {
    Wrap64(UdpHash(f) + RadiusId(f))
  }

  // ---- The same on octets

  /** The octets that decide the classification: an ether type of 0x0800, an IP protocol of 17 or 6, and
      a source or destination port of 1812 or 1813. */
  lemma ClassesOnOctets(f: Frame)
    ensures var d := f.data;
            var ip := d[12] == 0x08 && d[13] == 0x00;
            var port := (d[34] == 0x07 && (d[35] == 0x14 || d[35] == 0x15)) || (d[36] == 0x07 && (d[37] == 0x14 || d[37] == 0x15));
            && (IsUdp(f) <==> ip && d[23] == 17)
            && (IsTcp(f) <==> ip && d[23] == 6)
            && (IsRadius(f) <==> ip && d[23] == 17 && port)
  {
  }

  /** The identifier and the length field of the RADIUS header, and the size that is left for the RADIUS packet. */
  lemma RadiusOnOctets(f: Frame)
    ensures RadiusId(f) == f.data[43]
    ensures RadiusLengthField(f) == 0x100 * (f.data[44] as int) + f.data[45]
    ensures f.size >= 42 ==> RadiusSize(f) == f.size - 42
    ensures f.size < 42 ==> RadiusSize(f) == TWO_64 + f.size - 42
  {
  }

  function Sum4(d: seq<byte>, at: nat): nat
    requires at + 4 <= |d|
  {
    d[at] as int + 0x100 * (d[at + 1] as int) + 0x1_0000 * (d[at + 2] as int) + 0x100_0000 * (d[at + 3] as int)
  }

  /** The Ethernet hash is a sum of octets; along the chain only the sum of the IP addresses wraps. */
  lemma HashesOnOctets(f: Frame)
    ensures var d := f.data;
            && EthHash(f) == d[0] as int + d[1] + d[2] + d[3] + d[4] + d[5] + d[6] + d[7] + d[8] + d[9] + d[10] + d[11]
                             + d[12] + 0x100 * (d[13] as int)
            && IpHash(f) == (Sum4(d, 26) + Sum4(d, 30)) % TWO_32
            && UdpHash(f) == IpHash(f) + d[34] + 0x100 * (d[35] as int) + d[36] + 0x100 * (d[37] as int)
            && RadiusHash(f) == UdpHash(f) + d[43]
  {
    MacSumUnfold(f.data);
    assert IpHash(f) < TWO_32;
  }

  // ---- Requests and their replies

  /** `g` travels the opposite way to `f`: MAC addresses, IP addresses and ports exchanged, same identifier. */
  ghost predicate Swapped(f: Frame, g: Frame) {
    && g.data[0..6] == f.data[6..12] && g.data[6..12] == f.data[0..6]
    && g.data[12..14] == f.data[12..14]
    && g.data[23] == f.data[23]
    && g.data[26..30] == f.data[30..34] && g.data[30..34] == f.data[26..30]
    && g.data[34..36] == f.data[36..38] && g.data[36..38] == f.data[34..36]
    && g.data[43] == f.data[43]
  }

  lemma Raw16Slice(d: seq<byte>, at: nat, e: seq<byte>, bt: nat)
    requires at + 2 <= |d| && bt + 2 <= |e|
    requires d[at..at + 2] == e[bt..bt + 2]
    ensures Raw16(d, at) == Raw16(e, bt) && Net16(d, at) == Net16(e, bt)
  {
    assert d[at..at + 2][0] == d[at] && d[at..at + 2][1] == d[at + 1];
    assert e[bt..bt + 2][0] == e[bt] && e[bt..bt + 2][1] == e[bt + 1];
  }

  lemma Raw32Slice(d: seq<byte>, at: nat, e: seq<byte>, bt: nat)
    requires at + 4 <= |d| && bt + 4 <= |e|
    requires d[at..at + 4] == e[bt..bt + 4]
    ensures Raw32(d, at) == Raw32(e, bt)
  {
    assert d[at..at + 2] == d[at..at + 4][..2] && d[at + 2..at + 4] == d[at..at + 4][2..];
    assert e[bt..bt + 2] == e[bt..bt + 4][..2] && e[bt + 2..bt + 4] == e[bt..bt + 4][2..];
    Raw16Slice(d, at, e, bt);
    Raw16Slice(d, at + 2, e, bt + 2);
  }

  lemma {:induction false} MacSumSwapped(d: seq<byte>, e: seq<byte>, n: nat)
    requires n <= 6 && 12 <= |d| && 12 <= |e|
    requires e[0..6] == d[6..12] && e[6..12] == d[0..6]
    ensures MacSum(d, n) == MacSum(e, n)
  {
    if n > 0 {
      MacSumSwapped(d, e, n - 1);
      assert e[0..6][n - 1] == e[n - 1] && d[6..12][n - 1] == d[6 + n - 1];
      assert e[6..12][n - 1] == e[6 + n - 1] && d[0..6][n - 1] == d[n - 1];
    }
  }

  lemma SwappedFields(f: Frame, g: Frame)
    requires Swapped(f, g)
    ensures Raw16(g.data, 12) == Raw16(f.data, 12) && Net16(g.data, 12) == Net16(f.data, 12)
    ensures Raw16(g.data, 34) == Raw16(f.data, 36) && Net16(g.data, 34) == Net16(f.data, 36)
    ensures Raw16(g.data, 36) == Raw16(f.data, 34) && Net16(g.data, 36) == Net16(f.data, 34)
    ensures Raw32(g.data, 26) == Raw32(f.data, 30) && Raw32(g.data, 30) == Raw32(f.data, 26)
  {
    Raw16Slice(g.data, 12, f.data, 12);
    Raw16Slice(g.data, 34, f.data, 36);
    Raw16Slice(g.data, 36, f.data, 34);
    Raw32Slice(g.data, 26, f.data, 30);
    Raw32Slice(g.data, 30, f.data, 26);
  }

  lemma SwappedEthHash(f: Frame, g: Frame)
    requires Swapped(f, g)
    ensures EthHash(f) == EthHash(g)
  {
    SwappedFields(f, g);
    MacSumSwapped(f.data, g.data, 6);
  }

  lemma SwappedChainHash(f: Frame, g: Frame)
    requires Swapped(f, g)
    ensures IpHash(f) == IpHash(g) && UdpHash(f) == UdpHash(g) && RadiusHash(f) == RadiusHash(g)
  {
    SwappedFields(f, g);
    assert IpHash(f) == IpHash(g) < TWO_32;
  }

  /** Worker affinity: a reply hashes like its request, with the Ethernet hash and with the
      RADIUS/UDP/IP chain alike, and is classified like it. */
  lemma SwappedHashesAgree(f: Frame, g: Frame)
    requires Swapped(f, g)
    ensures EthHash(f) == EthHash(g)
    ensures IpHash(f) == IpHash(g) && UdpHash(f) == UdpHash(g) && RadiusHash(f) == RadiusHash(g)
    ensures IsRadius(f) <==> IsRadius(g)
    ensures IsUdp(f) <==> IsUdp(g)
    ensures IsTcp(f) <==> IsTcp(g)
  {
    SwappedEthHash(f, g);
    SwappedChainHash(f, g);
    SwappedFields(f, g);
  }

  // ---- The range of the worker hash

  const MIN_IP_HASH := 8
  const MAX_IP_HASH := 3068

  /** On frames that any processor accepts, the Ethernet hash has 3061 possible values. */
  lemma IpHashRange(f: Frame)
    requires IsIp(f)
    ensures MIN_IP_HASH <= EthHash(f) <= MAX_IP_HASH
  {
  }

  /** The octet `i` of twelve octets that add up to `sum`. */
  function Spread(sum: nat, i: nat): byte {
    if sum <= 255 * i then 0 else if sum - 255 * i >= 255 then 255 else sum - 255 * i
  }

  /** A RADIUS frame without attributes, with a chosen Ethernet hash and identifier. */
  function RadiusFrame(hash: nat, id: byte): (f: Frame)
    requires MIN_IP_HASH <= hash <= MAX_IP_HASH
  {
    var zero: seq<byte> := seq(MAX_PACKET_SIZE, _ => 0);
    var macs: seq<byte> := seq(12, i requires 0 <= i < 12 => Spread(hash - MIN_IP_HASH, i));
    Buffer((macs + zero[12..])[12 := 0x08][23 := 17][36 := 0x07][37 := 0x14][RADIUS_START + 1 := id][RADIUS_START + 3 := RADIUS_HEADER], RADIUS_START + RADIUS_HEADER)
  }

  /** Every hash value in the range, with every identifier, is the hash of some RADIUS frame. */
  lemma RadiusFrameExists(hash: nat, id: byte)
    requires MIN_IP_HASH <= hash <= MAX_IP_HASH
    ensures var f := RadiusFrame(hash, id);
            IsRadius(f) && EthHash(f) == hash && RadiusId(f) == id && RadiusLengthField(f) == RadiusSize(f)
  {
    var f := RadiusFrame(hash, id);
    var sum := hash - MIN_IP_HASH;
    assert f.data[12] == 0x08 && f.data[13] == 0 && f.data[23] == 17;
    assert f.data[36] == 0x07 && f.data[37] == 0x14;
    assert f.data[RADIUS_START + 2] == 0 && f.data[RADIUS_START + 3] == RADIUS_HEADER;
    assert forall i: nat | i < 12 :: f.data[i] == Spread(sum, i);
    MacSumUnfold(f.data);
  }

  lemma MacSumUnfold(d: seq<byte>)
    requires 12 <= |d|
    ensures MacSum(d, 6) == d[0] as int + d[1] + d[2] + d[3] + d[4] + d[5] + d[6] + d[7] + d[8] + d[9] + d[10] + d[11]
  {
    assert MacSum(d, 4) == d[9] + d[3] + MacSum(d, 3);
    assert MacSum(d, 2) == d[7] + d[1] + MacSum(d, 1);
  }
}
