/** Helper.validate of internal/cameranetwork/network.go against the request that
    Client.Ensure writes. */
module HelperChecks {
  import opened Decimal
  import opened IPv4
  import opened AddressPool

  // ------------------------------------------------------------ Go's net.IP tests

  /** Section 3 of RFC 1918. */
  predicate IsPrivate(ip: IP) {
    ip.a == 10 || (ip.a == 172 && And(ip.b, 0xf0) == 16) || (ip.a == 192 && ip.b == 168)
  }

  predicate IsLoopback(ip: IP) { ip.a == 127 }

  predicate IsMulticast(ip: IP) { And(ip.a, 0xf0) == 0xe0 }

  predicate IsLinkLocalUnicast(ip: IP) { ip.a == 169 && ip.b == 254 }

  /** (&net.IPNet{IP: network, Mask: mask}).Contains(ip). */
  predicate Contains(network: IP, mask: IP, ip: IP) {
    Masked(network, mask) == Masked(ip, mask)
  }

  // --------------------------------------------------------------------- request

  datatype Operation = Add | Remove | OtherOperation

  /** The request file.  `macOk` stands for a camera MAC that parses and is unicast. */
  datatype Request = Request(
    id: string, operation: Operation, device: string, address: IP, prefix: int, camera: IP, macOk: bool, ttlSeconds: int)

  predicate IdChar(c: char) {
    Digit(c) || ('a' <= c <= 'z') || ('A' <= c <= 'Z') || c == '_' || c == '-'
  }

  /** ^[A-Za-z0-9_-]{1,64}$ */
  predicate ValidId(id: string) {
    1 <= |id| <= 64 && forall i :: 0 <= i < |id| ==> IdChar(id[i])
  }

  /** Helper.validate.  `deviceOk` stands for the allow list, the name pattern and the
      state of the system interface. */
  predicate Validate(r: Request, deviceOk: bool) {
    && ValidId(r.id) && deviceOk && r.macOk && !r.operation.OtherOperation?
    && IsPrivate(r.address) && !IsLoopback(r.address) && !IsMulticast(r.address) && !IsLinkLocalUnicast(r.address)
    && 1 <= r.prefix <= 30
    && 30 <= r.ttlSeconds <= 3600
    && var mask := CIDRMask(r.prefix);
    && var network := Masked(r.camera, mask);
    && Contains(network, mask, r.address)
    && r.address != r.camera && r.address != network && r.address != Broadcast(network, mask)
  }

  function ClampTTL(seconds: int): int {
    if seconds < 30 then 30 else if seconds > 3600 then 3600 else seconds
  }

  /** The request written at lines 88-95. */
  function ClientRequest(nanos: nat, device: string, camera: IP, p: nat, address: IP, macOk: bool, seconds: int): Request {
    Request(Itoa(nanos), Add, device, address, p, camera, macOk, ClampTTL(seconds))
  }

  // ------------------------------------------------------------- inside the subnet

  lemma SameAlignment(x: nat, m: nat, low: nat)
    requires m > 0 && low % m == 0 && low <= x < low + m
    ensures AlignDown(x, m) == low
  {
    hide AlignDown;
    AlignDownIs(x, m);
    var q := low / m;
    ModUnique(x, m, q, x - low);
  }

  /** An address between network and broadcast passes every subnet test of the
      helper, whose mask is the client's. */
  lemma CandidateInSubnet(camera: IP, p: nat, address: IP)
    requires 1 <= p <= 30 && Candidate(Value(address), camera, p)
    ensures var mask := CIDRMask(p); var network := Masked(camera, mask);
            Contains(network, mask, address) && address != network && address != Broadcast(network, mask)
  {
    hide Span, Value, AlignDown, Masked, Broadcast, CIDRMask;
    SpanSize(p);
    SubnetTests(camera, p, address);
  }

  // ---------------------------------------------------------------- private blocks

  lemma HighNibble(b: Byte)
    ensures And(b, 0xf0) == b - b % 16
  {
    AlignDownIs(b, 16);
    hide AlignDown;
    Pow2Values();
    assert Pow2(4) == 16;
    AndHigh(b, 8, 4);
  }

  /** The private blocks as numbers: 10/8, 172.16/12 and 192.168/16. */
  predicate InPrivateBlocks(v: nat) {
    v / 0x100_0000 == 10 || v / 0x10_0000 == 2753 || v / 0x1_0000 == 49320
  }

  lemma PrivateIsBlocks(ip: IP)
    ensures IsPrivate(ip) <==> InPrivateBlocks(Value(ip))
  {
    HighNibble(ip.b);
    var v := Value(ip);
    var low := ip.c * 0x100 + ip.d;
    ModUnique(v, 0x100_0000, ip.a, ip.b * 0x1_0000 + low);
    ModUnique(v, 0x1_0000, ip.a * 0x100 + ip.b, low);
    ModUnique(v, 0x10_0000, ip.a * 16 + ip.b / 16, (ip.b % 16) * 0x1_0000 + low);
  }

  lemma PrivateIsOrdinary(ip: IP)
    requires IsPrivate(ip)
    ensures !IsLoopback(ip) && !IsMulticast(ip) && !IsLinkLocalUnicast(ip)
  {
    HighNibble(ip.a);
  }

  lemma DivDiv(v: nat, m: nat, j: nat)
    requires m > 0 && j > 0
    ensures j * m > 0 && v / (j * m) == (v / m) / j
  {
    var q, r := v / m, v % m;
    var q2, r2 := q / j, q % j;
    MulAtLeast(j, m);
    BelowSpan(r2, j, m, r, j * m);
    NestedQuotient(v, m, j, q, r, q2, r2);
    ModUnique(v, j * m, q2, r2 * m + r);
  }

  lemma NestedQuotient(v: nat, m: nat, j: nat, q: nat, r: nat, q2: nat, r2: nat)
    requires v == q * m + r && q == q2 * j + r2
    ensures v == q2 * (j * m) + (r2 * m + r)
  {
    MulDistributes(q2 * j, r2, m);
    MulAssoc(q2, j, m);
  }

  /** Two numbers of one subnet lie in the same larger block. */
  lemma SameBlock(v: nat, c: nat, m: nat, j: nat, block: nat)
    requires m > 0 && j > 0 && block == j * m && AlignDown(v, m) == AlignDown(c, m)
    ensures block > 0 && v / block == c / block
  {
    hide AlignDown;
    DivDiv(v, m, j);
    DivDiv(c, m, j);
    AlignDownIs(v, m);
    AlignDownIs(c, m);
    assert v == (v / m) * m + v % m && c == (c / m) * m + c % m;
    DivisionUnique(m, v / m, 0, c / m, 0);
  }

  /** The last numbers of a subnet lie in its last smaller block. */
  lemma LastBlock(c: nat, m: nat, j: nat, block: nat, v: nat)
    requires block > 0 && j > 0 && m == j * block
    requires m > 0 && AlignDown(c, m) + m - block <= v < AlignDown(c, m) + m
    ensures v / block + 1 == (c / m + 1) * j
  {
    hide AlignDown;
    var q := c / m;
    AlignDownIs(c, m);
    assert c == q * m + c % m;
    var n := (q + 1) * j;
    MulAssoc(q + 1, j, block);
    MulDistributes(q, 1, m);
    MulAtLeast(q + 1, j);
    assert n * block == AlignDown(c, m) + m;
    MulDistributes(n - 1, 1, block);
    ModUnique(v, block, n - 1, v - (n - 1) * block);
  }

  lemma PowerSplit(p: nat, k: nat)
    requires 1 <= p <= 30 && k <= 32
    ensures 32 - p <= k ==> Pow2(k) == Pow2(k - (32 - p)) * Span(p)
    ensures 32 - p > k ==> Span(p) == Pow2(32 - p - k) * Pow2(k) && Pow2(32 - p - k) % 2 == 0
    ensures 32 - p > k + 1 ==> Pow2(32 - p - k) % 4 == 0
    ensures 32 - p == k + 1 ==> Pow2(32 - p - k) == 2
  {
    hide Pow2;
    if 32 - p <= k {
      Pow2Adds(k - (32 - p), 32 - p);
    } else {
      Pow2Adds(32 - p - k, k);
      Pow2Even(32 - p - k);
    }
  }

  lemma Pow2Even(n: nat)
    requires n > 0
    ensures Pow2(n) % 2 == 0 && (n > 1 ==> Pow2(n) % 4 == 0) && (n == 1 ==> Pow2(n) == 2)
  {
    if n > 1 {
      assert Pow2(n - 1) == 2 * Pow2(n - 2);
      MultipleMod(Pow2(n - 2), 4);
    }
    MultipleMod(Pow2(n - 1), 2);
  }

  /** Where the candidates of a subnet lie relative to aligned blocks of 2^k. */
  lemma CandidateBlock(camera: IP, p: nat, v: nat, k: nat)
    requires 1 <= p <= 30 && 16 <= k <= 24 && Candidate(v, camera, p)
    ensures 32 - p <= k ==> v / Pow2(k) == Value(camera) / Pow2(k)
    ensures 32 - p > k ==> v / Pow2(k) + 1 == (Value(camera) / Span(p) + 1) * Pow2(32 - p - k)
  {
    hide Value, AlignDown;
    var c, m := Value(camera), Span(p);
    SpanSize(p);
    PowerSplit(p, k);
    Pow2Values();
    Pow2Monotonic(16, k);
    AlignDownMod(c, m);
    if 32 - p <= k {
      SameAlignment(v, m, AlignDown(c, m));
      SameBlock(v, c, m, Pow2(k - (32 - p)), Pow2(k));
    } else {
      LastBlock(c, m, Pow2(32 - p - k), Pow2(k), v);
    }
  }

  /** The camera subnets whose candidates are private: those inside a private block,
      and the /11 that ends with 172.16/12. */
  predicate PrivateSubnet(camera: nat, p: nat) {
    || (p >= 8 && camera / 0x100_0000 == 10)
    || (p >= 12 && camera / 0x10_0000 == 2753)
    || (p >= 16 && camera / 0x1_0000 == 49320)
    || (p == 11 && camera / 0x20_0000 == 1376)
  }

  lemma OddProduct(x: nat, j: nat)
    requires j % 2 == 0
    ensures (x * j) % 2 == 0
  {
    var h := j / 2;
    assert j == 2 * h;
    assert x * (2 * h) == 2 * (x * h);
  }

  lemma FourProduct(x: nat, j: nat)
    requires j % 4 == 0
    ensures (x * j) % 4 == 0
  {
    var h := j / 4;
    assert j == 4 * h;
    assert x * (4 * h) == 4 * (x * h);
  }

  lemma Block10(camera: IP, p: nat, v: nat)
    requires 1 <= p <= 30 && Candidate(v, camera, p)
    ensures v / 0x100_0000 == 10 <==> p >= 8 && Value(camera) / 0x100_0000 == 10
  {
    hide Candidate, Value, Span, Pow2;
    Pow2Values();
    CandidateBlock(camera, p, v, 24);
    PowerSplit(p, 24);
    if p < 8 { OddProduct(Value(camera) / Span(p) + 1, Pow2(8 - p)); }
  }

  lemma Block192(camera: IP, p: nat, v: nat)
    requires 1 <= p <= 30 && Candidate(v, camera, p)
    ensures v / 0x1_0000 == 49320 <==> p >= 16 && Value(camera) / 0x1_0000 == 49320
  {
    hide Candidate, Value, Span, Pow2;
    Pow2Values();
    CandidateBlock(camera, p, v, 16);
    PowerSplit(p, 16);
    if p < 16 { OddProduct(Value(camera) / Span(p) + 1, Pow2(16 - p)); }
  }

  lemma Block172(camera: IP, p: nat, v: nat)
    requires 1 <= p <= 30 && Candidate(v, camera, p)
    ensures v / 0x10_0000 == 2753
            <==> (p >= 12 && Value(camera) / 0x10_0000 == 2753) || (p == 11 && Value(camera) / 0x20_0000 == 1376)
  {
    hide Candidate, Value, Span, Pow2;
    BlockSizes();
    CandidateBlock(camera, p, v, 20);
    if p < 12 {
      SpanSize(p);
      Pow2Even(12 - p);
      if p < 11 {
        Block172Short(v, Value(camera) / Span(p) + 1, Pow2(12 - p));
      } else {
        assert Span(11) == 0x20_0000 by { SpanEleven(); }
        Block172Half(v, Value(camera) / 0x20_0000);
      }
    }
  }

  lemma SpanEleven()
    ensures Span(11) == 0x20_0000
  {
    BlockSizes();
  }

  lemma Block172Short(v: nat, n: nat, j: nat)
    requires j % 4 == 0 && v / 0x10_0000 + 1 == n * j
    ensures v / 0x10_0000 != 2753
  {
    FourProduct(n, j);
  }

  lemma Block172Half(v: nat, q: nat)
    requires v / 0x10_0000 + 1 == (q + 1) * 2
    ensures v / 0x10_0000 == 2753 <==> q == 1376
  {
  }

  lemma CandidateIsPrivate(camera: IP, p: nat, v: nat)
    requires 1 <= p <= 30 && Candidate(v, camera, p)
    ensures InPrivateBlocks(v) <==> PrivateSubnet(Value(camera), p)
  {
    hide Candidate, Value;
    Block10(camera, p, v);
    Block172(camera, p, v);
    Block192(camera, p, v);
  }

  lemma BlockSizes()
    ensures Pow2(20) == 0x10_0000
  {
    Pow2Values();
    Pow2Adds(16, 4);
    assert Pow2(4) == 16;
  }

  // --------------------------------------------------------------- what is accepted

  /** The bytewise subnet tests as arithmetic: strictly between the first and the last
      number of the camera's aligned block. */
  lemma SubnetTests(camera: IP, p: nat, address: IP)
    requires 1 <= p <= 30
    ensures var mask := CIDRMask(p); var network := Masked(camera, mask); var low := Network(camera, p);
            (Contains(network, mask, address) && address != network && address != Broadcast(network, mask))
            <==> low < Value(address) < low + Span(p) - 1
  {
    hide Span, Value, AlignDown, Masked, Broadcast, CIDRMask;
    var mask := CIDRMask(p);
    var network := Masked(camera, mask);
    var m := Span(p);
    SpanSize(p);
    SubnetValues(camera, p);
    SubnetValues(network, p);
    SubnetValues(address, p);
    AlignDownMod(Value(camera), m);
    SameAlignment(Value(network), m, Network(camera, p));
    AlignDownIs(Value(address), m);
    if Network(camera, p) <= Value(address) < Network(camera, p) + m {
      SameAlignment(Value(address), m, Network(camera, p));
      ValueInjective(Masked(network, mask), Masked(address, mask));
      if Value(address) == Value(network) { ValueInjective(address, network); }
      if Value(address) == Value(Broadcast(network, mask)) { ValueInjective(address, Broadcast(network, mask)); }
    }
  }

  /** The helper accepts exactly the private addresses strictly inside the camera's
      subnet that are not the camera's own, for 30 to 3600 seconds. */
  lemma ValidateIff(r: Request, deviceOk: bool)
    ensures Validate(r, deviceOk) <==>
              && ValidId(r.id) && deviceOk && r.macOk && (r.operation == Add || r.operation == Remove)
              && 30 <= r.ttlSeconds <= 3600 && 1 <= r.prefix <= 30
              && InPrivateBlocks(Value(r.address)) && Value(r.address) != Value(r.camera)
              && Network(r.camera, r.prefix) < Value(r.address) < Network(r.camera, r.prefix) + Span(r.prefix) - 1
  {
    hide Value, Network, Span, Masked, Broadcast, CIDRMask, Contains, IsPrivate, IsLoopback, IsMulticast, IsLinkLocalUnicast, InPrivateBlocks, ValidId;
    PrivateIsBlocks(r.address);
    if IsPrivate(r.address) { PrivateIsOrdinary(r.address); }
    if 1 <= r.prefix <= 30 { SubnetTests(r.camera, r.prefix, r.address); }
    if Value(r.address) == Value(r.camera) { ValueInjective(r.address, r.camera); }
  }

  /** The client's request names the chosen address and asks for it to be added for the
      time asked for, or the nearest time the helper allows. */
  lemma ClientRequestCarries(nanos: nat, device: string, camera: IP, p: nat, address: IP, macOk: bool, seconds: int, allowed: int)
    requires 30 <= allowed <= 3600
    ensures var r := ClientRequest(nanos, device, camera, p, address, macOk, seconds);
            && r.operation == Add && r.device == device && r.address == address && r.prefix == p && r.camera == camera
            && Number(r.id) == nanos && 30 <= r.ttlSeconds <= 3600
            && (seconds <= allowed ==> seconds <= r.ttlSeconds <= allowed)
            && (allowed <= seconds ==> allowed <= r.ttlSeconds <= seconds)
  {
    NumberOfItoa(nanos);
  }

  // ---------------------------------------------------------------------- theorem

  lemma IdIsValid(nanos: nat)
    requires nanos < 0x8000_0000_0000_0000
    ensures ValidId(Itoa(nanos))
  {
    hide Itoa;
    assert Pow10(5) == 100000 && Pow10(10) == 100000 * Pow10(5) && Pow10(15) == 100000 * Pow10(10) && Pow10(20) == 100000 * Pow10(15);
    ItoaLength(nanos, 20);
  }

  /** For every camera, every contiguous mask of length 1 to 30 and every address the
      client may select, the helper accepts the client's request if and only if the
      interface and MAC are acceptable and the camera's subnet has private candidates. */
  lemma ClientRequestValid(nanos: nat, device: string, camera: IP, p: nat, address: IP, macOk: bool, seconds: int, deviceOk: bool)
    requires nanos < 0x8000_0000_0000_0000 && 1 <= p <= 30
    requires Candidate(Value(address), camera, p) && address != camera
    ensures Validate(ClientRequest(nanos, device, camera, p, address, macOk, seconds), deviceOk)
            <==> deviceOk && macOk && PrivateSubnet(Value(camera), p)
  {
    hide Candidate, Value, IsPrivate, IsLoopback, IsMulticast, IsLinkLocalUnicast, PrivateSubnet, Itoa, ValidId, Masked, CIDRMask, Broadcast, InPrivateBlocks;
    IdIsValid(nanos);
    CandidateInSubnet(camera, p, address);
    PrivateIsBlocks(address);
    CandidateIsPrivate(camera, p, Value(address));
    if IsPrivate(address) { PrivateIsOrdinary(address); }
  }

  /** A private camera address is not enough: with a /8 mask the client would pick
      an address outside 192.168/16, which the helper rejects. */
  lemma ShortMaskIsRejected(nanos: nat, device: string, address: IP, seconds: int)
    requires nanos < 0x8000_0000_0000_0000
    requires Candidate(Value(address), IP(192, 168, 1, 64), 8) && address != IP(192, 168, 1, 64)
    ensures IsPrivate(IP(192, 168, 1, 64))
    ensures !Validate(ClientRequest(nanos, device, IP(192, 168, 1, 64), 8, address, true, seconds), true)
  {
    ClientRequestValid(nanos, device, IP(192, 168, 1, 64), 8, address, true, seconds, true);
    assert Value(IP(192, 168, 1, 64)) == 192 * 0x100_0000 + 168 * 0x1_0000 + 256 + 64;
  }
}
