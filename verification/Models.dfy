/** The events that flow through the engine, and the key that routes them. */
module Models {
  import opened Words

  type Byte = b: nat | b < 0x100
  type Port = p: nat | p < 0x1_0000
  type Ip = i: nat | i < 0x1_0000_0000

  datatype Protocol = Tcp | Udp | Icmp

  datatype NetworkEvent = NetworkEvent(
    timestampMs: int,
    srcIp: Ip,
    dstIp: Ip,
    srcPort: Port,
    dstPort: Port,
    protocol: Protocol,
    flags: bv8,   // SYN = 1, ACK = 2, FIN = 4, RST = 8
    payloadSample: seq<Byte>)
  {
    /** SYN without ACK. */
    predicate IsSyn() {
      flags & 1 != 0 && flags & 2 == 0
    }
  }

  /** Written out: of the flags, SYN is the lowest bit and ACK the next. */
  lemma SynByFlags(event: NetworkEvent)
    ensures event.IsSyn() <==> event.flags as nat % 4 == 1
  {
    assert event.flags & 1 == event.flags % 2;
    assert event.flags & 2 == 2 * (event.flags / 2 % 2);
  }

  /** An event that carries ACK is none. */
  lemma AckIsNoSyn(event: NetworkEvent)
    requires event.flags as nat / 2 % 2 == 1
    ensures !event.IsSyn()
  {
    SynByFlags(event);
    ModuloOfFour(event.flags as nat);
  }

  lemma ModuloOfFour(x: nat)
    ensures x % 4 == x % 2 + 2 * (x / 2 % 2)
  {
  }

  // ---- The sharding key ----

  const FNV_OFFSET: nat := 1469598103934665603
  const FNV_PRIME: nat := 1099511628211

  /** The bytes of an address, most significant first. */
  function IpBytes(ip: Ip): seq<Byte> {
    [ip / 0x100_0000, ip / 0x1_0000 % 0x100, ip / 0x100 % 0x100, ip % 0x100]
  }

  /** `h ^= b`, then a wrapping multiplication by the prime. */
  function FnvStep(h: nat, b: Byte): (h': nat)
    ensures h' < WORD
  {
    BitXor(h, b) * FNV_PRIME % WORD
  }

  function FnvFold(bytes: seq<Byte>): (h: nat)
    ensures h < WORD
  {
    if bytes == [] then FNV_OFFSET else FnvStep(FnvFold(bytes[..|bytes| - 1]), bytes[|bytes| - 1])
  }

  /** The key of a source address. */
  function ShardKey(ip: Ip): nat {
    FnvFold(IpBytes(ip))
  }

  /** The sharding key of an event, as the loop computes it. */
  method ComputeShardKey(event: NetworkEvent) returns (h: nat)
    ensures h == ShardKey(event.srcIp) < WORD
  {
    h := FNV_OFFSET;
    var bytes := IpBytes(event.srcIp);
    for k := 0 to |bytes|
      invariant h == FnvFold(bytes[..k])
    {
      h := FnvStep(h, bytes[k]);
      assert bytes[..k + 1][..k] == bytes[..k];
    }
    assert bytes[..|bytes|] == bytes;
  }

  /** The worker that a source's events are routed to: a function of the source alone. */
  function ShardOf(ip: Ip, workerCount: nat): (w: nat)
    requires workerCount > 0
    ensures w < workerCount
  {
    ShardKey(ip) % workerCount
  }

  lemma TwoDigits(x: nat)
    ensures x / 0x100 * 0x100 + x % 0x100 == x
  {
  }

  /** The bytes are the address in base 256. */
  lemma BytesGiveAddress(ip: Ip)
    ensures var b := IpBytes(ip);
            |b| == 4 && b[0] as int * 0x100_0000 + b[1] as int * 0x1_0000 + b[2] as int * 0x100 + b[3] as int == ip
  {
    TwoDigits(ip);
    TwoDigits(ip / 0x100);
    TwoDigits(ip / 0x1_0000);
    assert ip / 0x100 / 0x100 == ip / 0x1_0000 && ip / 0x1_0000 / 0x100 == ip / 0x100_0000;
  }

  /** The inverse of the prime modulo 2^64. */
  const FNV_INVERSE: nat := 14886173955864302971

  lemma PrimeCancels(x: nat)
    requires x < WORD
    ensures (x * FNV_PRIME % WORD) * FNV_INVERSE % WORD == x
  {
    var product := x * FNV_PRIME;
    var q, r := product / WORD, product % WORD;
    assert FNV_PRIME * FNV_INVERSE == WORD * 887285111055 + 1;
    assert r * FNV_INVERSE == WORD * (x * 887285111055 - q * FNV_INVERSE) + x by {
      assert product == WORD * q + r;
      assert product * FNV_INVERSE == x * (FNV_PRIME * FNV_INVERSE);
      assert product * FNV_INVERSE == WORD * (q * FNV_INVERSE) + r * FNV_INVERSE;
    }
    ModuloUnique(r * FNV_INVERSE, WORD, x * 887285111055 - q * FNV_INVERSE, x);
  }

  lemma WordXor(h: nat, b: Byte)
    requires h < WORD
    ensures BitXor(h, b) < WORD
  {
    Pow2Of64();
    XorInRange(h, b, 64);
  }

  /** A step loses nothing: it tells both the keys before it and the bytes apart. */
  lemma StepsApart(h: nat, h': nat, b: Byte, b': Byte)
    requires h < WORD && h' < WORD
    ensures FnvStep(h, b) == FnvStep(h', b') ==> (h == h' <==> b == b')
  {
    WordXor(h, b);
    WordXor(h', b');
    PrimeCancels(BitXor(h, b));
    PrimeCancels(BitXor(h', b'));
    XorCancels(h, b);
    XorCancels(h', b');
    XorCommutes(h, b);
    XorCommutes(h', b');
    XorCancels(b, h);
    XorCancels(b', h');
  }

  lemma {:induction false} FoldsApart(bytes: seq<Byte>, bytes': seq<Byte>, j: nat)
    requires j < |bytes| == |bytes'| && bytes[j] != bytes'[j]
    requires forall i :: 0 <= i < |bytes| && i != j ==> bytes[i] == bytes'[i]
    ensures FnvFold(bytes) != FnvFold(bytes')
  {
    var k := |bytes| - 1;
    var before, before' := bytes[..k], bytes'[..k];
    if j < k { FoldsApart(before, before', j); } else { assert before == before'; }
    StepsApart(FnvFold(before), FnvFold(before'), bytes[k], bytes'[k]);
  }

  /** Addresses that differ in one byte have different keys. */
  lemma NeighboursHaveDifferentKeys(ip: Ip, ip': Ip, j: nat)
    requires j < 4 && IpBytes(ip)[j] != IpBytes(ip')[j]
    requires forall i :: 0 <= i < 4 && i != j ==> IpBytes(ip)[i] == IpBytes(ip')[i]
    ensures ShardKey(ip) != ShardKey(ip')
  {
    FoldsApart(IpBytes(ip), IpBytes(ip'), j);
  }

  lemma FoldGrows(bytes: seq<Byte>, b: Byte, h: nat, mixed: nat)
    requires FnvFold(bytes) == h && BitXor(h, b) == mixed
    ensures FnvFold(bytes + [b]) == mixed * FNV_PRIME % WORD
  {
    assert (bytes + [b])[..|bytes|] == bytes;
  }

  lemma FoldOfZero(bytes: seq<Byte>, h: nat)
    requires FnvFold(bytes) == h
    ensures FnvFold(bytes + [0]) == h * FNV_PRIME % WORD
  {
    FoldGrows(bytes, 0, h, h);
  }

  lemma FoldOfOne(bytes: seq<Byte>, h: nat)
    requires FnvFold(bytes) == h && h % 2 == 1
    ensures FnvFold(bytes + [1]) == (h - 1) * FNV_PRIME % WORD
  {
    XorDigits(1, 1, h / 2, 0);
    FoldGrows(bytes, 1, h, h - 1);
  }

  lemma FoldOfThreeZeros(bytes: seq<Byte>)
    requires |bytes| == 3 && bytes[0] == bytes[1] == bytes[2] == 0
    ensures FnvFold(bytes) == 12196949897413546625
  {
    FoldOfZero(bytes[..0], FNV_OFFSET);
    assert bytes[..0] + [0] == bytes[..1] && bytes[..1] + [0] == bytes[..2] && bytes[..2] + [0] == bytes;
    FoldOfZero(bytes[..1], 4953163356653287321);
    FoldOfZero(bytes[..2], 11126445248426326267);
  }

  lemma FoldOfLastOne(bytes: seq<Byte>)
    requires |bytes| == 3 && bytes[0] == bytes[1] == bytes[2] == 0
    ensures FnvFold(bytes + [1]) == 3554542561658023808
  {
    FoldOfThreeZeros(bytes);
    FoldOfOne(bytes, 12196949897413546625);
  }

  /** A key worked out: that of 0.0.0.1. */
  lemma KeyOfAddressOne()
    ensures ShardKey(1) == 3554542561658023808
  {
    var bytes := IpBytes(1);
    assert bytes == bytes[..3] + [1];
    FoldOfLastOne(bytes[..3]);
  }

  datatype Severity = Low | Medium | High | Critical

  datatype DetectorKind = Signature | Anomaly | Cep

  /** An alert; the `detail` text, which only formats other fields, is left out. */
  datatype Alert = Alert(
    id: nat, timestampMs: int, ruleName: string, severity: Severity,
    srcIp: Ip, dstIp: Ip, detector: DetectorKind)
}
