/** The TCP checksum of tcp_sum.c: native-endian word sums in a signed 32-bit accumulator,
    a two-step carry fold, and verification by recomputation. The reference is the one's
    complement sum of section 1 of RFC 1071, with an end-around carry after every addition. */
module Checksum {
  import opened Common

  datatype ByteOrder = Little | Big

  newtype int32 = x: int | -0x8000_0000 <= x < 0x8000_0000

  /** An IPv4 address as the four bytes held in memory (network byte order). */
  type Ipv4 = a: seq<byte> | |a| == 4 witness [0, 0, 0, 0]

  const ZERO_ADDR: Ipv4 := [0, 0, 0, 0]

  /** offsetof(struct tcphdr, th_sum) */
  const SUM_OFFSET := 16
  const SUM_WORD := 8

  /** IPPROTO_TCP */
  const PROTOCOL: byte := 6

  /** A segment of this length and its pseudo-header make 32768 words, the most that cannot
      overflow the signed accumulator whatever their values. */
  const MAX_SUMMED := 65524

  // ---------- Words as the host reads and writes them ----------

  function Word(e: ByteOrder, first: byte, second: byte): uint16 {
    if e == Little then first + 0x100 * second else 0x100 * first + second
  }

  function StoreWord(e: ByteOrder, w: uint16): seq<byte> {
    if e == Little then [w % 0x100, w / 0x100] else [w / 0x100, w % 0x100]
  }

  function Swap(w: uint16): uint16 {
    0x100 * (w % 0x100) + w / 0x100
  }

  function WordCount(s: seq<byte>): nat {
    (|s| + 1) / 2
  }

  /** The k-th word; a lone last byte is followed by a zero byte in memory. */
  function WordAt(e: ByteOrder, s: seq<byte>, k: nat): uint16
    requires k < WordCount(s)
  {
    Word(e, s[2 * k], if 2 * k + 1 < |s| then s[2 * k + 1] else 0)
  }

  function Words(e: ByteOrder, s: seq<byte>): seq<uint16> {
    seq(WordCount(s), k requires 0 <= k < WordCount(s) => WordAt(e, s, k))
  }

  /** The plain sum of the first k words. */
  function SumTo(ws: seq<uint16>, k: nat): nat
    requires k <= |ws|
  {
    if k == 0 then 0 else SumTo(ws, k - 1) + ws[k - 1]
  }

  function Sum(ws: seq<uint16>): nat {
    SumTo(ws, |ws|)
  }

  // ---------- The reference of RFC 1071 ----------

  function OnesAdd(a: uint16, b: uint16): uint16 {
    if a + b >= 0x1_0000 then a + b - 0xffff else a + b
  }

  function OnesSumTo(ws: seq<uint16>, k: nat): uint16
    requires k <= |ws|
  {
    if k == 0 then 0 else OnesAdd(OnesSumTo(ws, k - 1), ws[k - 1])
  }

  function OnesSum(ws: seq<uint16>): uint16 {
    OnesSumTo(ws, |ws|)
  }

  function PseudoHeader(src: Ipv4, dst: Ipv4, len: nat): seq<byte> {
    src + dst + [0, PROTOCOL, len / 0x100 % 0x100, len % 0x100]
  }

  /** The bytes the checksum covers: the pseudo-header, then the segment with th_sum as zero. */
  function Covered(src: Ipv4, dst: Ipv4, p: seq<byte>): seq<byte>
    requires HEADER_LEN <= |p|
  {
    PseudoHeader(src, dst, |p|) + p[SUM_OFFSET := 0][SUM_OFFSET + 1 := 0]
  }

  function RfcChecksum(e: ByteOrder, src: Ipv4, dst: Ipv4, p: seq<byte>): uint16
    requires HEADER_LEN <= |p|
  {
    0xffff - OnesSum(Words(e, Covered(src, dst, p)))
  }

  function Stored(e: ByteOrder, p: seq<byte>): uint16
    requires HEADER_LEN <= |p|
  {
    WordAt(e, p, SUM_WORD)
  }

  function WithChecksum(e: ByteOrder, src: Ipv4, dst: Ipv4, p: seq<byte>): seq<byte>
    requires HEADER_LEN <= |p|
  {
    var bytes := StoreWord(e, RfcChecksum(e, src, dst, p));
    p[SUM_OFFSET := bytes[0]][SUM_OFFSET + 1 := bytes[1]]
  }

  /** Acceptance by the code: the stored word equals the recomputed one. */
  predicate Accepts(e: ByteOrder, src: Ipv4, dst: Ipv4, p: seq<byte>)
    requires HEADER_LEN <= |p|
  {
    Stored(e, p) == RfcChecksum(e, src, dst, p)
  }

  /** Acceptance by section 1 of RFC 1071: everything, checksum included, sums to all ones. */
  predicate AllOnes(e: ByteOrder, src: Ipv4, dst: Ipv4, p: seq<byte>) {
    OnesSum(Words(e, PseudoHeader(src, dst, |p|) + p)) == 0xffff
  }

  // ---------- Deferred carries ----------

  /** The nonzero representative in 1..65535 of a positive sum. */
  function Rep(n: nat): uint16 {
    if n == 0 then 0 else 1 + (n - 1) % 0xffff
  }

  /** tcp_sum.c:63-64, on a nonnegative accumulator. */
  function Fold(sum: nat): nat {
    var once := sum / 0x1_0000 + sum % 0x1_0000;
    once + once / 0x1_0000
  }

  /** The cast (uint16_t) ~sum of tcp_sum.c:66, in two's complement. */
  function Complement(sum: int): (r: uint16)
    ensures sum >= 0 ==> r == 0xffff - sum % 0x1_0000
  {
    (-sum - 1) % 0x1_0000
  }

  lemma {:induction false} RepUnique(r: int, n: nat)
    requires 1 <= r <= 0xffff && n > 0
    ensures r == Rep(n) <==> (r - n) % 0xffff == 0
  {
  }

  lemma {:induction false} AddMultiples(x: int, y: int)
    requires x % 0xffff == 0 && y % 0xffff == 0
    ensures (x + y) % 0xffff == 0
  {
  }

  /** For every nonnegative int32 the two-step fold leaves the one's complement sum in its
      low 16 bits: congruent to the full sum, and zero only when that is zero. */
  lemma {:induction false} FoldIsRep(sum: nat)
    requires sum < 0x8000_0000
    ensures Fold(sum) % 0x1_0000 == Rep(sum)
    ensures (Fold(sum) % 0x1_0000 - sum) % 0xffff == 0
    ensures Fold(sum) % 0x1_0000 == 0 <==> sum == 0
  {
    var high, once := sum / 0x1_0000, sum / 0x1_0000 + sum % 0x1_0000;
    var low := if once < 0x1_0000 then once else once - 0xffff;
    assert Fold(sum) % 0x1_0000 == low;
    assert low - sum == -0xffff * high || low - sum == -0xffff * high - 0xffff;
    if sum > 0 {
      RepUnique(low, sum);
    }
  }

  lemma {:induction false} RepAdd(n: nat, w: uint16)
    ensures OnesAdd(Rep(n), w) == Rep(n + w)
  {
  }

  /** Carries may be deferred to the end of the sum. */
  lemma {:induction false} OnesSumIsRep(ws: seq<uint16>, k: nat)
    requires k <= |ws|
    ensures OnesSumTo(ws, k) == Rep(SumTo(ws, k))
  {
    if k > 0 {
      OnesSumIsRep(ws, k - 1);
      RepAdd(SumTo(ws, k - 1), ws[k - 1]);
    }
  }

  /** Any 32768 words fit the signed accumulator. */
  lemma {:induction false} SumBound(ws: seq<uint16>, k: nat)
    requires k <= |ws|
    ensures SumTo(ws, k) <= 0xffff * k
    ensures k <= 32768 ==> SumTo(ws, k) < 0x8000_0000
  {
    if k > 0 {
      SumBound(ws, k - 1);
    }
  }

  lemma {:induction false} SumMonotone(ws: seq<uint16>, j: nat, k: nat)
    requires j <= k <= |ws|
    ensures SumTo(ws, j) <= SumTo(ws, k)
  {
    if j < k {
      SumMonotone(ws, j, k - 1);
    }
  }

  // ---------- The checksum as arithmetic on bytes ----------

  /** Two bytes in network byte order. */
  function NetworkWord(first: byte, second: byte): uint16 {
    0x100 * first + second
  }

  /** The two words of an address. */
  function AddressSum(a: Ipv4): nat {
    NetworkWord(a[0], a[1]) + NetworkWord(a[2], a[3])
  }

  /** The first n bytes, those at even offsets counting 256 fold, without th_sum. */
  function ByteSum(p: seq<byte>, n: nat): nat
    requires n <= |p|
  {
    if n == 0 then 0
    else ByteSum(p, n - 1) + ByteValue(n - 1, p[n - 1])
  }

  function ByteValue(offset: nat, b: byte): nat {
    if offset == 16 || offset == 17 then 0 else if offset % 2 == 0 then 0x100 * b else b
  }

  /** Addresses, the protocol number of TCP, the length and the segment. */
  function Total(src: Ipv4, dst: Ipv4, p: seq<byte>): nat {
    AddressSum(src) + AddressSum(dst) + 6 + |p| + ByteSum(p, |p|)
  }

  /** The value that belongs in th_sum, in network byte order. */
  function NetworkChecksum(src: Ipv4, dst: Ipv4, p: seq<byte>): (c: uint16)
    ensures (c + Total(src, dst, p)) % 0xffff == 0 && c != 0xffff
  {
    0xfffe - (Total(src, dst, p) - 1) % 0xffff
  }

  lemma {:induction false} PseudoWords(src: Ipv4, dst: Ipv4, len: nat)
    requires len < 0x1_0000
    ensures Words(Big, PseudoHeader(src, dst, len)) ==
            [NetworkWord(src[0], src[1]), NetworkWord(src[2], src[3]),
             NetworkWord(dst[0], dst[1]), NetworkWord(dst[2], dst[3]), 6, len]
  {
    var h := PseudoHeader(src, dst, len);
    assert h[0..4] == src && h[4..8] == dst && h[8] == 0 && h[9] == 6;
    LengthWord(len);
    assert WordAt(Big, h, 5) == len;
  }

  lemma {:induction false} LengthWord(len: nat)
    requires len < 0x1_0000
    ensures Word(Big, len / 0x100 % 0x100, len % 0x100) == len
  {
  }

  lemma {:induction false} SumOfSix(a: uint16, b: uint16, c: uint16, d: uint16, e: uint16, f: uint16)
    ensures Sum([a, b, c, d, e, f]) == a + b + c + d + e + f
  {
    var ws: seq<uint16> := [a, b, c, d, e, f];
    assert SumTo(ws, 2) == SumTo(ws, 1) + b == SumTo(ws, 0) + a + b;
    assert SumTo(ws, 4) == SumTo(ws, 3) + d == SumTo(ws, 2) + c + d;
    assert SumTo(ws, 6) == SumTo(ws, 5) + f == SumTo(ws, 4) + e + f;
  }

  lemma {:induction false} WordOfBytes(p: seq<byte>, k: nat)
    requires k < WordCount(p)
    ensures ByteSum(p, Min(2 * k + 2, |p|)) ==
            ByteSum(p, 2 * k) + if k == SUM_WORD then 0 else WordAt(Big, p, k)
  {
    if 2 * k + 1 < |p| {
      assert ByteSum(p, 2 * k + 2) == ByteSum(p, 2 * k + 1) + ByteValue(2 * k + 1, p[2 * k + 1]);
    }
    assert ByteSum(p, 2 * k + 1) == ByteSum(p, 2 * k) + ByteValue(2 * k, p[2 * k]);
  }

  lemma {:induction false} SumOfBytes(p: seq<byte>, k: nat)
    requires HEADER_LEN <= |p| && k <= WordCount(p)
    ensures SumTo(Words(Big, p)[SUM_WORD := 0], k) == ByteSum(p, Min(2 * k, |p|))
  {
    if k > 0 {
      SumOfBytes(p, k - 1);
      WordOfBytes(p, k - 1);
    }
  }

  lemma {:induction false} SumOfPseudoHeader(src: Ipv4, dst: Ipv4, len: nat)
    requires len < 0x1_0000
    ensures Sum(Words(Big, PseudoHeader(src, dst, len))) == AddressSum(src) + AddressSum(dst) + 6 + len
  {
    PseudoWords(src, dst, len);
    SumOfSix(NetworkWord(src[0], src[1]), NetworkWord(src[2], src[3]),
             NetworkWord(dst[0], dst[1]), NetworkWord(dst[2], dst[3]), 6, len);
  }

  lemma {:induction false} SumIsTotal(src: Ipv4, dst: Ipv4, p: seq<byte>)
    requires HEADER_LEN <= |p| < 0x1_0000
    ensures Sum(Words(Big, Covered(src, dst, p))) == Total(src, dst, p)
  {
    var h, ws := Words(Big, PseudoHeader(src, dst, |p|)), Words(Big, p)[SUM_WORD := 0];
    CoveredWords(Big, src, dst, p);
    SumOfPseudoHeader(src, dst, |p|);
    SumConcat(h, ws, |h + ws|);
    SumOfBytes(p, WordCount(p));
  }

  /** The checksum of RFC 1071 is this arithmetic on the bytes: negated, modulo 65535, the sum of
      addresses, protocol, length and segment. */
  lemma {:induction false} ChecksumIsArithmetic(src: Ipv4, dst: Ipv4, p: seq<byte>)
    requires HEADER_LEN <= |p| < 0x1_0000
    ensures RfcChecksum(Big, src, dst, p) == NetworkChecksum(src, dst, p)
    ensures RfcChecksum(Little, src, dst, p) == Swap(NetworkChecksum(src, dst, p))
  {
    var ws := Words(Big, Covered(src, dst, p));
    SumIsTotal(src, dst, p);
    OnesSumIsRep(ws, |ws|);
    ChecksumSwap(src, dst, p);
  }

  /** A word and its bytes in network order, on either host. */
  lemma {:induction false} HostWord(e: ByteOrder, first: byte, second: byte, c: uint16)
    ensures Word(e, first, second) == (if e == Big then c else Swap(c)) <==> NetworkWord(first, second) == c
  {
    WordSwap(first, second);
    SwapFacts(c);
    SwapFacts(Word(Big, first, second));
  }

  /** What is stored in th_sum, and what is accepted there, is this number in network order. */
  lemma {:induction false} StoredIsNetworkOrder(e: ByteOrder, src: Ipv4, dst: Ipv4, p: seq<byte>)
    requires HEADER_LEN <= |p| < 0x1_0000
    ensures var q := WithChecksum(e, src, dst, p);
            NetworkWord(q[16], q[17]) == NetworkChecksum(src, dst, p)
    ensures Accepts(e, src, dst, p) <==> NetworkWord(p[16], p[17]) == NetworkChecksum(src, dst, p)
  {
    var c, q := NetworkChecksum(src, dst, p), WithChecksum(e, src, dst, p);
    ChecksumIsArithmetic(src, dst, p);
    HostWord(e, p[16], p[17], c);
    HostWord(e, q[16], q[17], c);
    StoreThenLoad(e, RfcChecksum(e, src, dst, p));
  }

  // ---------- The words of the covered bytes ----------

  /** The six words of the pseudo-header come first, and the protocol word is not zero. */
  lemma {:induction false} PrefixedWords(e: ByteOrder, src: Ipv4, dst: Ipv4, p: seq<byte>)
    ensures var h := PseudoHeader(src, dst, |p|);
            |Words(e, h)| == 6 && Words(e, h)[4] > 0 &&
            Words(e, h + p) == Words(e, h) + Words(e, p)
  {
  }

  lemma {:induction false} ZeroedWords(e: ByteOrder, p: seq<byte>)
    requires HEADER_LEN <= |p|
    ensures Words(e, p[SUM_OFFSET := 0][SUM_OFFSET + 1 := 0]) == Words(e, p)[SUM_WORD := 0]
  {
  }

  lemma {:induction false} CoveredWords(e: ByteOrder, src: Ipv4, dst: Ipv4, p: seq<byte>)
    requires HEADER_LEN <= |p|
    ensures |Words(e, PseudoHeader(src, dst, |p|))| == 6
    ensures Words(e, Covered(src, dst, p)) ==
            Words(e, PseudoHeader(src, dst, |p|)) + Words(e, p)[SUM_WORD := 0]
    ensures Sum(Words(e, Covered(src, dst, p))) > 0
  {
    var zeroed := p[SUM_OFFSET := 0][SUM_OFFSET + 1 := 0];
    PrefixedWords(e, src, dst, zeroed);
    ZeroedWords(e, p);
    var ws := Words(e, Covered(src, dst, p));
    assert ws[4] > 0;
    assert SumTo(ws, 5) > 0;
    SumMonotone(ws, 5, |ws|);
  }

  /** Only a segment of odd length has a word beyond its |p| / 2 whole ones. */
  lemma {:induction false} LastWord(e: ByteOrder, p: seq<byte>)
    ensures |p| % 2 == 0 ==> WordCount(p) == |p| / 2
    ensures |p| % 2 == 1 ==> WordCount(p) == |p| / 2 + 1 &&
                             WordAt(e, p, |p| / 2) == Word(e, p[|p| - 1], 0)
  {
  }

  // ---------- The computation ----------

  lemma {:induction false} SumConcat(a: seq<uint16>, b: seq<uint16>, k: nat)
    requires k <= |a + b|
    ensures SumTo(a + b, k) == if k <= |a| then SumTo(a, k) else Sum(a) + SumTo(b, k - |a|)
  {
    if k > 0 {
      SumConcat(a, b, k - 1);
    }
  }

  /** tcp_sum.c:41-43. */
  method SumPseudoHeader(e: ByteOrder, pseudo: seq<byte>) returns (sum: int32)
    requires |pseudo| == 12
    ensures sum as int == Sum(Words(e, pseudo)) <= 6 * 0xffff
  {
    ghost var ws := Words(e, pseudo);
    sum := 0;
    for k := 0 to 6
      invariant sum as int == SumTo(ws, k) <= 0xffff * k
    {
      sum := sum + WordAt(e, pseudo, k) as int32;
    }
  }

  /** tcp_sum.c:45-60. The accumulator is a signed 32-bit integer, so that every addition is
      checked against overflow; the skip of th_sum is the reference's zero word. */
  method SumSegment(e: ByteOrder, packet: seq<byte>, start: int32) returns (sum: int32)
    requires HEADER_LEN <= |packet| <= MAX_SUMMED
    requires 0 <= start as int <= 6 * 0xffff
    ensures sum as int == start as int + Sum(Words(e, packet)[SUM_WORD := 0])
  {
    ghost var ws := Words(e, packet)[SUM_WORD := 0];
    LastWord(e, packet);
    var half := |packet| / 2;
    sum := start;
    for k := 0 to half
      invariant sum as int == start as int + SumTo(ws, k)
    {
      SumBound(ws, k + 1);
      if k == SUM_WORD {
        continue;
      }
      sum := sum + WordAt(e, packet, k) as int32;
    }
    if |packet| % 2 == 1 {
      SumBound(ws, half + 1);
      sum := sum + Word(e, packet[|packet| - 1], 0) as int32;
    }
  }

  /** tcp_sum.c:14-67: the code computes the checksum of RFC 1071, as the host reads it, and never
      the value 0xffff. */
  method TcpChecksum(e: ByteOrder, src: Ipv4, dst: Ipv4, packet: seq<byte>) returns (c: uint16)
    requires HEADER_LEN <= |packet| <= MAX_SUMMED
    requires src != ZERO_ADDR && dst != ZERO_ADDR
    ensures c == RfcChecksum(e, src, dst, packet)
    ensures c == if e == Big then NetworkChecksum(src, dst, packet) else Swap(NetworkChecksum(src, dst, packet))
    ensures c != 0xffff
  {
    var pseudo := PseudoHeader(src, dst, |packet|);
    var sum := SumPseudoHeader(e, pseudo);
    sum := SumSegment(e, packet, sum);
    c := Complement(Fold(sum as int));
    FoldedSum(e, src, dst, packet, sum as int);
    ChecksumIsArithmetic(src, dst, packet);
  }

  lemma {:induction false} FoldedSum(e: ByteOrder, src: Ipv4, dst: Ipv4, p: seq<byte>, sum: nat)
    requires HEADER_LEN <= |p| && sum < 0x8000_0000
    requires sum == Sum(Words(e, PseudoHeader(src, dst, |p|))) + Sum(Words(e, p)[SUM_WORD := 0])
    ensures 0xffff - Fold(sum) % 0x1_0000 == RfcChecksum(e, src, dst, p) != 0xffff
  {
    var all := Words(e, Covered(src, dst, p));
    CoveredWords(e, src, dst, p);
    SumConcat(Words(e, PseudoHeader(src, dst, |p|)), Words(e, p)[SUM_WORD := 0], |all|);
    FoldIsRep(sum);
    OnesSumIsRep(all, |all|);
  }

  /** tcp_sum.c:70-84, on the first len bytes of a buffer, at an endpoint that knows its local
      and its peer address. */
  method SetChecksum(e: ByteOrder, local: Ipv4, peer: Ipv4, packet: array<byte>, len: nat)
    requires HEADER_LEN <= len <= MAX_SUMMED && len <= packet.Length
    requires local != ZERO_ADDR && peer != ZERO_ADDR
    modifies packet
    ensures packet[..len] == WithChecksum(e, local, peer, old(packet[..len]))
    ensures NetworkWord(packet[16], packet[17]) == NetworkChecksum(local, peer, old(packet[..len]))
    ensures packet[..16] == old(packet[..16]) && packet[18..] == old(packet[18..])
  {
    StoredIsNetworkOrder(e, local, peer, packet[..len]);
    var c := TcpChecksum(e, local, peer, packet[..len]);
    var bytes := StoreWord(e, c);
    packet[SUM_OFFSET] := bytes[0];
    packet[SUM_OFFSET + 1] := bytes[1];
  }

  /** tcp_sum.c:87-105: the peer is the source, the local address the destination. */
  method VerifyChecksum(e: ByteOrder, local: Ipv4, peer: Ipv4, packet: seq<byte>) returns (ok: bool)
    requires HEADER_LEN <= |packet| <= MAX_SUMMED
    requires local != ZERO_ADDR && peer != ZERO_ADDR
    ensures ok <==> Accepts(e, peer, local, packet)
    ensures ok <==> NetworkWord(packet[16], packet[17]) == NetworkChecksum(peer, local, packet)
  {
    StoredIsNetworkOrder(e, peer, local, packet);
    var mine := TcpChecksum(e, peer, local, packet);
    ok := mine == Stored(e, packet);
  }

  // ---------- Set, then verify ----------

  lemma {:induction false} StoreThenLoad(e: ByteOrder, w: uint16)
    ensures |StoreWord(e, w)| == 2 && Word(e, StoreWord(e, w)[0], StoreWord(e, w)[1]) == w
  {
  }

  /** A segment set at one end verifies at the other, where source and destination swap roles. */
  lemma {:induction false} SetThenVerify(e: ByteOrder, src: Ipv4, dst: Ipv4, p: seq<byte>)
    requires HEADER_LEN <= |p|
    ensures Accepts(e, src, dst, WithChecksum(e, src, dst, p))
    ensures forall k :: 0 <= k < |p| && k != SUM_OFFSET && k != SUM_OFFSET + 1 ==>
              WithChecksum(e, src, dst, p)[k] == p[k]
  {
    var q := WithChecksum(e, src, dst, p);
    assert Covered(src, dst, q) == Covered(src, dst, p);
    StoreThenLoad(e, RfcChecksum(e, src, dst, p));
  }

  // ---------- One word differs ----------

  lemma {:induction false} SumUpdate(ws: seq<uint16>, j: nat, w: uint16, n: nat)
    requires j < |ws| && n <= |ws|
    ensures SumTo(ws[j := w], n) == SumTo(ws, n) + if j < n then w - ws[j] else 0
  {
    if n > 0 {
      SumUpdate(ws, j, w, n - 1);
    }
  }

  lemma {:induction false} RepEqual(m: nat, n: nat)
    requires m > 0 && n > 0
    ensures Rep(m) == Rep(n) <==> (m - n) % 0xffff == 0
  {
  }

  /** One of the two words is 0x0000 and the other 0xffff. */
  predicate Exchange(v: uint16, w: uint16) {
    (v == 0 && w == 0xffff) || (v == 0xffff && w == 0)
  }

  lemma {:induction false} ExchangeOnly(v: uint16, w: uint16)
    requires v != w
    ensures (v - w) % 0xffff == 0 <==> Exchange(v, w)
  {
  }

  /** q is p with exactly its j-th word changed. */
  ghost predicate OneWordChanged(e: ByteOrder, p: seq<byte>, q: seq<byte>, j: nat) {
    && |p| == |q| && j < WordCount(p)
    && WordAt(e, p, j) != WordAt(e, q, j)
    && Words(e, q) == Words(e, p)[j := WordAt(e, q, j)]
  }

  lemma {:induction false} StoredUnlessChanged(e: ByteOrder, p: seq<byte>, q: seq<byte>, j: nat)
    requires HEADER_LEN <= |p| && OneWordChanged(e, p, q, j)
    ensures Stored(e, p) == Stored(e, q) <==> j != SUM_WORD
  {
    assert Stored(e, p) == Words(e, p)[SUM_WORD];
    assert Stored(e, q) == Words(e, q)[SUM_WORD];
  }

  lemma {:induction false} CoveredSumChanged(e: ByteOrder, src: Ipv4, dst: Ipv4, p: seq<byte>, q: seq<byte>, j: nat)
    requires HEADER_LEN <= |p| && OneWordChanged(e, p, q, j)
    ensures var c, d := Words(e, Covered(src, dst, p)), Words(e, Covered(src, dst, q));
            Sum(c) > 0 && Sum(d) > 0 &&
            Sum(d) == Sum(c) + if j == SUM_WORD then 0 else WordAt(e, q, j) - WordAt(e, p, j)
  {
    var c, d := Words(e, Covered(src, dst, p)), Words(e, Covered(src, dst, q));
    CoveredWords(e, src, dst, p);
    CoveredWords(e, src, dst, q);
    if j == SUM_WORD {
      assert d == c;
    } else {
      assert c[6 + j] == WordAt(e, p, j);
      assert d == c[6 + j := WordAt(e, q, j)];
      SumUpdate(c, 6 + j, WordAt(e, q, j), |c|);
    }
  }

  /** Change exactly one word of an accepted segment: it is still accepted precisely when the
      word lies outside th_sum and the change exchanges 0x0000 and 0xffff. */
  lemma {:induction false} OneWordError(e: ByteOrder, src: Ipv4, dst: Ipv4, p: seq<byte>, q: seq<byte>, j: nat)
    requires HEADER_LEN <= |p| && OneWordChanged(e, p, q, j)
    requires Accepts(e, src, dst, p)
    ensures Accepts(e, src, dst, q) <==>
            j != SUM_WORD && Exchange(WordAt(e, p, j), WordAt(e, q, j))
  {
    var c, d := Words(e, Covered(src, dst, p)), Words(e, Covered(src, dst, q));
    CoveredSumChanged(e, src, dst, p, q, j);
    StoredUnlessChanged(e, p, q, j);
    OnesSumIsRep(c, |c|);
    OnesSumIsRep(d, |d|);
    RepEqual(Sum(d), Sum(c));
    ExchangeOnly(WordAt(e, q, j), WordAt(e, p, j));
  }

  // ---------- Agreement with the all-ones test ----------

  lemma {:induction false} ComplementSum(n: nat, w: uint16)
    requires n > 0
    ensures w == 0xffff - Rep(n) <==> Rep(n + w) == 0xffff && w != 0xffff
  {
  }

  /** The code accepts exactly what section 1 of RFC 1071 accepts, less the stored value 0xffff,
      which the code itself never generates (TcpChecksum). */
  lemma {:induction false} AcceptsIffAllOnes(e: ByteOrder, src: Ipv4, dst: Ipv4, p: seq<byte>)
    requires HEADER_LEN <= |p|
    ensures Accepts(e, src, dst, p) <==> AllOnes(e, src, dst, p) && Stored(e, p) != 0xffff
  {
    var c, d := Words(e, Covered(src, dst, p)), Words(e, PseudoHeader(src, dst, |p|) + p);
    CoveredWords(e, src, dst, p);
    PrefixedWords(e, src, dst, p);
    assert d == c[6 + SUM_WORD := Stored(e, p)];
    SumUpdate(c, 6 + SUM_WORD, Stored(e, p), |c|);
    OnesSumIsRep(c, |c|);
    OnesSumIsRep(d, |d|);
    ComplementSum(Sum(c), Stored(e, p));
  }

  // ---------- Byte-order independence, section 2(B) of RFC 1071 ----------

  lemma {:induction false} WordSwap(first: byte, second: byte)
    ensures (Word(Little, first, second) - 0x100 * Word(Big, first, second)) % 0xffff == 0
    ensures Word(Little, first, second) == Swap(Word(Big, first, second))
  {
  }

  lemma {:induction false} SumSwap(s: seq<byte>, k: nat)
    requires k <= WordCount(s)
    ensures (SumTo(Words(Little, s), k) - 0x100 * SumTo(Words(Big, s), k)) % 0xffff == 0
    ensures SumTo(Words(Little, s), k) == 0 <==> SumTo(Words(Big, s), k) == 0
  {
    if k > 0 {
      SumSwap(s, k - 1);
      var little: int, big: int := WordAt(Little, s, k - 1), WordAt(Big, s, k - 1);
      WordSwap(s[2 * k - 2], if 2 * k - 1 < |s| then s[2 * k - 1] else 0);
      assert little == 0 <==> big == 0;
      AddMultiples(SumTo(Words(Little, s), k - 1) - 0x100 * SumTo(Words(Big, s), k - 1),
                   little - 0x100 * big);
    }
  }

  lemma {:induction false} Multiple(x: int, k: int)
    requires x == 0xffff * k
    ensures x % 0xffff == 0
  {
  }

  lemma {:induction false} RepSwap(little: nat, big: nat)
    requires (little - 0x100 * big) % 0xffff == 0
    requires little == 0 <==> big == 0
    ensures Rep(little) == Swap(Rep(big))
  {
    if big > 0 {
      var r: int := Rep(big);
      var swapped: int := Swap(r);
      var q, p, h := (little - 0x100 * big) / 0xffff, (big - 1) / 0xffff, r / 0x100;
      assert little == 0x100 * big + 0xffff * q;
      assert big == r + 0xffff * p;
      assert swapped == 0x100 * r - 0xffff * h;
      assert swapped - little == 0xffff * (-h - 0x100 * p - q);
      Multiple(swapped - little, -h - 0x100 * p - q);
      RepUnique(swapped, little);
    }
  }

  /** Summing and folding little-endian words gives the byte swap of doing so big-endian. */
  lemma {:induction false} OnesSumSwap(s: seq<byte>)
    ensures OnesSum(Words(Little, s)) == Swap(OnesSum(Words(Big, s)))
  {
    SumSwap(s, WordCount(s));
    OnesSumIsRep(Words(Little, s), WordCount(s));
    OnesSumIsRep(Words(Big, s), WordCount(s));
    RepSwap(Sum(Words(Little, s)), Sum(Words(Big, s)));
  }

  lemma {:induction false} SwapFacts(w: uint16)
    ensures 0xffff - Swap(w) == Swap(0xffff - w)
    ensures StoreWord(Little, Swap(w)) == StoreWord(Big, w)
    ensures Swap(Swap(w)) == w
  {
  }

  lemma {:induction false} ChecksumSwap(src: Ipv4, dst: Ipv4, p: seq<byte>)
    requires HEADER_LEN <= |p|
    ensures RfcChecksum(Little, src, dst, p) == Swap(RfcChecksum(Big, src, dst, p))
  {
    OnesSumSwap(Covered(src, dst, p));
    SwapFacts(OnesSum(Words(Big, Covered(src, dst, p))));
  }

  /** The bytes stored in the segment, and the verdict on a segment, do not depend on the host. */
  lemma {:induction false} HostIndependent(src: Ipv4, dst: Ipv4, p: seq<byte>)
    requires HEADER_LEN <= |p|
    ensures WithChecksum(Little, src, dst, p) == WithChecksum(Big, src, dst, p)
    ensures Accepts(Little, src, dst, p) <==> Accepts(Big, src, dst, p)
  {
    ChecksumSwap(src, dst, p);
    SwapFacts(RfcChecksum(Big, src, dst, p));
    SwapFacts(Stored(Big, p));
    WordSwap(p[SUM_OFFSET], p[SUM_OFFSET + 1]);
  }
}
