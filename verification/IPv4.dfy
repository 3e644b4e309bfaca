/** IPv4 addresses as net.IP holds them: four bytes, with Go's bitwise operators
    written out on naturals, and the 32-bit words of network.go. */
module IPv4 {
  import opened Decimal

  type Byte = x: nat | x < 256

  datatype IP = IP(a: Byte, b: Byte, c: Byte, d: Byte)

  const WORD: nat := 0x1_0000_0000

  // ------------------------------------------------------------ bit operators

  function And(x: nat, y: nat): nat {
    if x == 0 || y == 0 then 0 else (if x % 2 == 1 && y % 2 == 1 then 1 else 0) + 2 * And(x / 2, y / 2)
  }

  function Or(x: nat, y: nat): nat {
    if x == 0 then y else if y == 0 then x
    else (if x % 2 == 1 || y % 2 == 1 then 1 else 0) + 2 * Or(x / 2, y / 2)
  }

  function Pow2(k: nat): (r: nat)
    ensures r > 0
  {
    if k == 0 then 1 else 2 * Pow2(k - 1)
  }

  lemma {:induction false} AndBound(x: nat, y: nat)
    ensures And(x, y) <= x && And(x, y) <= y
  {
    if x != 0 && y != 0 { AndBound(x / 2, y / 2); }
  }

  lemma ModStep(x: nat, m: nat)
    requires m > 0
    ensures x % (2 * m) == 2 * ((x / 2) % m) + x % 2
  {
    var q, r := (x / 2) / m, (x / 2) % m;
    assert x / 2 == q * m + r;
    assert x == q * (2 * m) + (2 * r + x % 2);
    ModUnique(x, 2 * m, q, 2 * r + x % 2);
  }

  lemma MulAssoc(a: nat, b: nat, c: nat)
    ensures (a * b) * c == a * (b * c)
  {
  }

  lemma MulDistributes(a: nat, b: nat, c: nat)
    ensures (a + b) * c == a * c + b * c
  {
  }

  lemma MulAtLeast(a: nat, m: nat)
    requires a >= 1
    ensures a * m >= m
  {
    MulDistributes(a - 1, 1, m);
  }

  lemma DivisionUnique(m: nat, q: nat, r: nat, q': nat, r': nat)
    requires q * m + r == q' * m + r' && r < m && r' < m
    ensures q == q' && r == r'
  {
    if q < q' {
      MulDistributes(q' - q, q, m);
      MulAtLeast(q' - q, m);
    } else if q' < q {
      MulDistributes(q - q', q', m);
      MulAtLeast(q - q', m);
    }
  }

  lemma ModUnique(x: nat, m: nat, q: nat, r: nat)
    requires m > 0 && x == q * m + r && r < m
    ensures x % m == r && x / m == q
  {
    var q', r' := x / m, x % m;
    DivisionUnique(m, q, r, q', r');
  }

  lemma {:induction false} Pow2Monotonic(k: nat, n: nat)
    requires k <= n
    ensures Pow2(k) <= Pow2(n)
  {
    if k < n { Pow2Monotonic(k, n - 1); }
  }

  lemma AndStep(x: nat, y: nat)
    ensures And(x, y) == (if x % 2 == 1 && y % 2 == 1 then 1 else 0) + 2 * And(x / 2, y / 2)
  {
  }

  /** Masking with n-k leading ones over k zeros clears the low k bits. */
  lemma {:induction false} AndHigh(x: nat, n: nat, k: nat)
    requires x < Pow2(n) && k <= n
    ensures Pow2(k) <= Pow2(n)
    ensures And(x, Pow2(n) - Pow2(k)) == AlignDown(x, Pow2(k))
    decreases n
  {
    hide And, AlignDown;
    Pow2Monotonic(k, n);
    if n == 0 {
      NothingMasked(x);
    } else {
      Halved(x, Pow2(n - 1));
      AlignUnit(x);
      if k == 0 {
        AndHigh(x / 2, n - 1, 0);
        AlignUnit(x / 2);
        OddHigh(x, Pow2(n - 1) - 1);
      } else {
        AndHigh(x / 2, n - 1, k - 1);
        EvenHigh(x, Pow2(n - 1), Pow2(k - 1));
      }
    }
  }

  lemma NothingMasked(x: nat)
    requires x < 1
    ensures And(x, 0) == AlignDown(x, 1)
  {
    AlignDownIs(x, 1);
  }

  lemma Halved(x: nat, m: nat)
    requires x < 2 * m
    ensures x / 2 < m && x == 2 * (x / 2) + x % 2
  {
  }

  lemma OddHigh(x: nat, half: nat)
    requires And(x / 2, half) == x / 2
    ensures And(x, 2 * half + 1) == x
  {
    hide And;
    AndOdd(x, half);
  }

  lemma EvenHigh(x: nat, n: nat, m: nat)
    requires 0 < m <= n && And(x / 2, n - m) == AlignDown(x / 2, m)
    ensures And(x, 2 * n - 2 * m) == AlignDown(x, 2 * m)
  {
    hide And, AlignDown;
    AndEven(x, n - m);
    AlignHalf(x, m);
  }

  lemma AlignUnit(x: nat)
    ensures AlignDown(x, 1) == x
  {
    AlignDownIs(x, 1);
  }

  lemma AlignHalf(x: nat, m: nat)
    requires m > 0
    ensures AlignDown(x, 2 * m) == 2 * AlignDown(x / 2, m)
  {
    AlignDownIs(x, 2 * m);
    AlignDownIs(x / 2, m);
    ModStep(x, m);
  }

  lemma AndOdd(x: nat, half: nat)
    ensures And(x, 2 * half + 1) == x % 2 + 2 * And(x / 2, half)
  {
    hide And;
    AndStep(x, 2 * half + 1);
    assert (2 * half + 1) / 2 == half;
  }

  lemma AndEven(x: nat, half: nat)
    ensures And(x, 2 * half) == 2 * And(x / 2, half)
  {
    hide And;
    AndStep(x, 2 * half);
  }

  /** Setting bits that are zero adds them. */
  lemma {:induction false} OrAdds(x: nat, y: nat, k: nat)
    requires x % Pow2(k) == 0 && y < Pow2(k)
    ensures Or(x, y) == x + y
    decreases k
  {
    if k > 0 && x != 0 && y != 0 {
      ModStep(x, Pow2(k - 1));
      OrAdds(x / 2, y / 2, k - 1);
    }
  }

  // --------------------------------------------------------------------- words

  /** binaryIPv4. */
  function BinaryIPv4(ip: IP): nat {
    Or(Or(Or(ip.a * 0x100_0000, ip.b * 0x1_0000), ip.c * 0x100), ip.d)
  }

  /** uintIPv4. */
  function UintIPv4(v: nat): IP
    requires v < WORD
  {
    IP(v / 0x100_0000 % 256, v / 0x1_0000 % 256, v / 0x100 % 256, v % 256)
  }

  function Value(ip: IP): (v: nat)
    ensures v < WORD
  {
    ip.a * 0x100_0000 + ip.b * 0x1_0000 + ip.c * 0x100 + ip.d
  }

  lemma Pow2Values()
    ensures Pow2(8) == 0x100 && Pow2(16) == 0x1_0000 && Pow2(24) == 0x100_0000 && Pow2(32) == WORD
  {
    assert Pow2(4) == 16;
    Pow2Adds(4, 4);
    Pow2Adds(8, 8);
    Pow2Adds(16, 8);
    Pow2Adds(16, 16);
  }

  lemma {:induction false} Pow2Adds(m: nat, n: nat)
    ensures Pow2(m + n) == Pow2(m) * Pow2(n)
  {
    if n > 0 {
      Pow2Adds(m, n - 1);
      TwiceTimes(Pow2(m), Pow2(n - 1));
    }
  }

  lemma TwiceTimes(a: nat, b: nat)
    ensures a * (2 * b) == 2 * (a * b)
  {
  }

  /** The shifts and ors of binaryIPv4 compute the number the four bytes spell. */
  lemma BinaryIsValue(ip: IP)
    ensures BinaryIPv4(ip) == Value(ip)
  {
    hide Or, Pow2;
    Pow2Values();
    var ab := ip.a * 0x100 + ip.b;
    var abc := ab * 0x100 + ip.c;
    MultipleMod(ip.a, 0x100_0000);
    MultipleMod(ab, 0x1_0000);
    MultipleMod(abc, 0x100);
    OrAdds(ip.a * 0x100_0000, ip.b * 0x1_0000, 24);
    OrAdds(ab * 0x1_0000, ip.c * 0x100, 16);
    OrAdds(abc * 0x100, ip.d, 8);
  }

  lemma UintIsInverse(v: nat)
    requires v < WORD
    ensures Value(UintIPv4(v)) == v
  {
    var w := v / 0x100;
    var x := w / 0x100;
    assert v / 0x1_0000 == x && v / 0x100_0000 == x / 0x100;
    assert v == 0x100 * w + v % 256 && w == 0x100 * x + w % 256;
  }

  lemma ValueInjective(x: IP, y: IP)
    requires Value(x) == Value(y)
    ensures x == y
  {
    ByteSplit(x.a * 0x1_0000 + x.b * 0x100 + x.c, x.d, y.a * 0x1_0000 + y.b * 0x100 + y.c, y.d);
    ByteSplit(x.a * 0x100 + x.b, x.c, y.a * 0x100 + y.b, y.c);
    ByteSplit(x.a, x.b, y.a, y.b);
  }

  lemma ByteSplit(h: nat, l: nat, h': nat, l': nat)
    requires l < 256 && l' < 256 && h * 256 + l == h' * 256 + l'
    ensures h == h' && l == l'
  {
  }

  // ------------------------------------------------------------ dotted quads

  /** net.IP.String for an IPv4 address. */
  function Dotted(ip: IP): string {
    Itoa(ip.a) + "." + (Itoa(ip.b) + "." + (Itoa(ip.c) + "." + Itoa(ip.d)))
  }

  lemma ItoaInjective(m: nat, n: nat)
    requires Itoa(m) == Itoa(n)
    ensures m == n
  {
    NumberOfItoa(m);
    NumberOfItoa(n);
  }

  lemma DottedInjective(x: IP, y: IP)
    requires Dotted(x) == Dotted(y)
    ensures x == y
  {
    hide Itoa;
    SplitUnique(Itoa(x.a), Itoa(x.b) + "." + (Itoa(x.c) + "." + Itoa(x.d)), Itoa(y.a), Itoa(y.b) + "." + (Itoa(y.c) + "." + Itoa(y.d)), '.');
    SplitUnique(Itoa(x.b), Itoa(x.c) + "." + Itoa(x.d), Itoa(y.b), Itoa(y.c) + "." + Itoa(y.d), '.');
    SplitUnique(Itoa(x.c), Itoa(x.d), Itoa(y.c), Itoa(y.d), '.');
    ItoaInjective(x.a, y.a);
    ItoaInjective(x.b, y.b);
    ItoaInjective(x.c, y.c);
    ItoaInjective(x.d, y.d);
  }

  // ------------------------------------------------------------------- subnets

  /** One byte of net.CIDRMask: n leading ones. */
  function MaskByte(n: int): Byte {
    if n <= 0 then 0 else if n >= 8 then 255 else MaskBits(n)
  }

  function MaskBits(n: nat): (b: Byte)
    requires 1 <= n <= 7
  {
    Pow2Values();
    Pow2Monotonic(8 - n, 7);
    256 - Pow2(8 - n)
  }

  /** net.CIDRMask(p, 32). */
  function CIDRMask(p: nat): IP {
    IP(MaskByte(p), MaskByte(p - 8), MaskByte(p - 16), MaskByte(p - 24))
  }

  function AndByte(x: Byte, m: Byte): (r: Byte)
  {
    AndBound(x, m);
    And(x, m)
  }

  /** ip.Mask(mask). */
  function Masked(ip: IP, mask: IP): IP {
    IP(AndByte(ip.a, mask.a), AndByte(ip.b, mask.b), AndByte(ip.c, mask.c), AndByte(ip.d, mask.d))
  }

  /** ^m on a byte. */
  function Not(m: Byte): Byte { 255 - m }

  lemma {:induction false} OrBound(x: nat, y: nat, k: nat)
    requires x < Pow2(k) && y < Pow2(k)
    ensures Or(x, y) < Pow2(k)
    decreases k
  {
    if x != 0 && y != 0 { OrBound(x / 2, y / 2, k - 1); }
  }

  function OrByte(x: Byte, y: Byte): (r: Byte)
  {
    Pow2Values();
    OrBound(x, y, 8);
    Or(x, y)
  }

  /** The loop broadcast[i] |= ^mask[i]. */
  function Broadcast(network: IP, mask: IP): IP {
    IP(OrByte(network.a, Not(mask.a)), OrByte(network.b, Not(mask.b)), OrByte(network.c, Not(mask.c)), OrByte(network.d, Not(mask.d)))
  }

  /** Bits 8-n of a byte that a mask byte with n leading ones leaves free. */
  function Free(n: int): nat {
    if n <= 0 then 256 else if n >= 8 then 1 else Pow2(8 - n)
  }

  lemma MaskByteFacts(x: Byte, n: int)
    ensures 1 <= Free(n) <= 256 && 256 % Free(n) == 0
    ensures AndByte(x, MaskByte(n)) == x - x % Free(n)
    ensures OrByte(AndByte(x, MaskByte(n)), Not(MaskByte(n))) == x - x % Free(n) + Free(n) - 1
  {
    hide AndByte, OrByte, MaskByte, Pow2, Free;
    var k := if n <= 0 then 8 else if n >= 8 then 0 else 8 - n;
    FreeIs(n, k);
    AlignDownIs(x, Pow2(k));
    MaskedByte(x, MaskByte(n), k);
  }

  lemma MaskedByte(x: Byte, m: Byte, k: nat)
    requires k <= 8 && Pow2(k) <= 256 && m == 256 - Pow2(k)
    ensures AndByte(x, m) == AlignDown(x, Pow2(k)) && OrByte(AndByte(x, m), Not(m)) == AlignDown(x, Pow2(k)) + Pow2(k) - 1
  {
    hide And, Or, Pow2, AlignDown;
    Pow2Values();
    AndHigh(x, 8, k);
    AlignDownMod(x, Pow2(k));
    OrAdds(AlignDown(x, Pow2(k)), Pow2(k) - 1, k);
  }

  lemma AlignDownMod(x: nat, m: nat)
    requires m > 0
    ensures AlignDown(x, m) % m == 0
  {
    AlignDownIs(x, m);
    ClearedMod(x, m);
  }

  lemma FreeIs(n: int, k: nat)
    requires k == if n <= 0 then 8 else if n >= 8 then 0 else 8 - n
    ensures Free(n) == Pow2(k) && MaskByte(n) == 256 - Pow2(k) && 256 % Pow2(k) == 0 && 1 <= Pow2(k) <= 256
  {
    Pow2Values();
    Pow2Adds(8 - k, k);
    MultipleMod(Pow2(8 - k), Pow2(k));
    Pow2Monotonic(k, 8);
  }

  lemma ClearedMod(x: nat, m: nat)
    requires m > 0
    ensures x % m <= x && (x - x % m) % m == 0
  {
    MultipleMod(x / m, m);
  }

  lemma MultipleMod(q: nat, m: nat)
    requires m > 0
    ensures (q * m) % m == 0
  {
    ModUnique(q * m, m, q, 0);
  }

  /** The number of addresses in a subnet with prefix p. */
  function Span(p: nat): nat
    requires p <= 32
  {
    Pow2(32 - p)
  }

  /** The start of the aligned block of m numbers that holds x. */
  function AlignDown(x: nat, m: nat): nat
    requires m > 0
  {
    if x < m then 0 else AlignDown(x - m, m) + m
  }

  lemma {:induction false} AlignDownIs(x: nat, m: nat)
    requires m > 0
    ensures x % m <= x && AlignDown(x, m) == x - x % m
  {
    if x < m {
      ModUnique(x, m, 0, x);
    } else {
      AlignDownIs(x - m, m);
      var q, r := (x - m) / m, (x - m) % m;
      MulDistributes(q, 1, m);
      ModUnique(x, m, q + 1, r);
    }
  }

  /** Every bit of a byte belongs to the host, or every bit to the network. */
  lemma WholeByte(x: Byte, n: int)
    ensures n <= 0 ==> AndByte(x, MaskByte(n)) == 0 && OrByte(AndByte(x, MaskByte(n)), Not(MaskByte(n))) == 255
    ensures n >= 8 ==> AndByte(x, MaskByte(n)) == x && OrByte(AndByte(x, MaskByte(n)), Not(MaskByte(n))) == x
  {
    hide AndByte, OrByte, MaskByte, Pow2;
    MaskByteFacts(x, n);
  }

  lemma FreeSpan(p: nat, n: nat, low: nat, unit: nat)
    requires 1 <= p <= 30 && n < 8 && 8 - n + low == 32 - p && unit == Pow2(low)
    ensures Span(p) == Free(n) * unit
  {
    Pow2Values();
    hide Pow2;
    Pow2Adds(8 - n, low);
  }

  /** The client's bytewise network and broadcast are the first and last number of
      the aligned block of 2^(32-p) numbers that holds the camera. */
  ghost predicate SubnetMatches(camera: IP, p: nat)
    requires p <= 32
  {
    var network := Masked(camera, CIDRMask(p));
    && Span(p) > 0
    && Value(network) == AlignDown(Value(camera), Span(p))
    && Value(Broadcast(network, CIDRMask(p))) == Value(network) + Span(p) - 1
  }

  lemma SubnetValues(camera: IP, p: nat)
    requires 1 <= p <= 30
    ensures SubnetMatches(camera, p)
  {
    hide SubnetMatches;
    Pow2Values();
    if p < 8 {
      SubnetInA(camera, p);
    } else if p < 16 {
      SubnetInB(camera, p);
    } else if p < 24 {
      SubnetInC(camera, p);
    } else {
      SubnetInD(camera, p);
    }
  }

  lemma SubnetInA(camera: IP, p: nat)
    requires 1 <= p < 8 && Pow2(24) == 0x100_0000
    ensures SubnetMatches(camera, p)
  {
    hide AndByte, OrByte, MaskByte, Free, Span, AlignDown;
    WholeByte(camera.b, p - 8);
    WholeByte(camera.c, p - 16);
    WholeByte(camera.d, p - 24);
    MaskByteFacts(camera.a, p);
    FreeSpan(p, p, 24, 0x100_0000);
    LowBits(Value(camera), 0, camera.a, camera.b * 0x1_0000 + camera.c * 0x100 + camera.d, Free(p), 0x100_0000, Span(p));
    AlignDownIs(Value(camera), Span(p));
  }

  lemma SubnetInB(camera: IP, p: nat)
    requires 8 <= p < 16 && Pow2(16) == 0x1_0000
    ensures SubnetMatches(camera, p)
  {
    hide AndByte, OrByte, MaskByte, Free, Span, AlignDown;
    WholeByte(camera.a, p);
    WholeByte(camera.c, p - 16);
    WholeByte(camera.d, p - 24);
    MaskByteFacts(camera.b, p - 8);
    FreeSpan(p, p - 8, 16, 0x1_0000);
    LowBits(Value(camera), camera.a, camera.b, camera.c * 0x100 + camera.d, Free(p - 8), 0x1_0000, Span(p));
    AlignDownIs(Value(camera), Span(p));
  }

  lemma SubnetInC(camera: IP, p: nat)
    requires 16 <= p < 24 && Pow2(8) == 0x100
    ensures SubnetMatches(camera, p)
  {
    hide AndByte, OrByte, MaskByte, Free, Span, AlignDown;
    WholeByte(camera.a, p);
    WholeByte(camera.b, p - 8);
    WholeByte(camera.d, p - 24);
    MaskByteFacts(camera.c, p - 16);
    FreeSpan(p, p - 16, 8, 0x100);
    LowBits(Value(camera), camera.a * 0x100 + camera.b, camera.c, camera.d, Free(p - 16), 0x100, Span(p));
    AlignDownIs(Value(camera), Span(p));
  }

  lemma SubnetInD(camera: IP, p: nat)
    requires 24 <= p <= 30
    ensures SubnetMatches(camera, p)
  {
    hide AndByte, OrByte, MaskByte, Free, Span, AlignDown;
    WholeByte(camera.a, p);
    WholeByte(camera.b, p - 8);
    WholeByte(camera.c, p - 16);
    MaskByteFacts(camera.d, p - 24);
    FreeSpan(p, p - 24, 0, 1);
    LowBits(Value(camera), camera.a * 0x1_0000 + camera.b * 0x100 + camera.c, camera.d, 0, Free(p - 24), 1, Span(p));
    AlignDownIs(Value(camera), Span(p));
  }

  /** The remainder by a span that ends inside one byte. */
  lemma LowBits(value: nat, upper: nat, byte: Byte, lower: nat, free: nat, unit: nat, span: nat)
    requires value == upper * (256 * unit) + byte * unit + lower
    requires 1 <= free <= 256 && 256 % free == 0 && unit > 0 && lower < unit && span == free * unit
    ensures value % span == (byte % free) * unit + lower
  {
    var j, q, r := Factors(free, byte);
    LowBitsOf(value, upper, byte, lower, free, unit, span, j, q, r);
  }

  lemma LowBitsOf(value: nat, upper: nat, byte: nat, lower: nat, free: nat, unit: nat, span: nat, j: nat, q: nat, r: nat)
    requires value == upper * (256 * unit) + byte * unit + lower
    requires span == free * unit && lower < unit && r < free && 256 == j * free && byte == q * free + r
    ensures span > 0 && value % span == r * unit + lower
  {
    LowBitsSum(value, upper, byte, lower, free, unit, span, j, q, r);
    ModUnique(value, span, upper * j + q, r * unit + lower);
  }

  lemma LowBitsSum(value: nat, upper: nat, byte: nat, lower: nat, free: nat, unit: nat, span: nat, j: nat, q: nat, r: nat)
    requires value == upper * (256 * unit) + byte * unit + lower
    requires span == free * unit && lower < unit && r < free && 256 == j * free && byte == q * free + r
    ensures value == (upper * j + q) * span + (r * unit + lower) && r * unit + lower < span
  {
    UpperPart(upper, j, free, unit, span);
    BytePart(byte, q, free, r, unit, span);
    MulDistributes(upper * j, q, span);
    BelowSpan(r, free, unit, lower, span);
  }

  lemma Factors(free: nat, byte: nat) returns (j: nat, q: nat, r: nat)
    requires 1 <= free && 256 % free == 0
    ensures 256 == j * free && byte == q * free + r && r == byte % free && r < free
  {
    j, q, r := 256 / free, byte / free, byte % free;
  }

  lemma UpperPart(upper: nat, j: nat, free: nat, unit: nat, span: nat)
    requires 256 == j * free && span == free * unit
    ensures upper * (256 * unit) == (upper * j) * span
  {
    MulAssoc(j, free, unit);
    MulAssoc(upper, j, span);
  }

  lemma BytePart(byte: nat, q: nat, free: nat, r: nat, unit: nat, span: nat)
    requires byte == q * free + r && span == free * unit
    ensures byte * unit == q * span + r * unit
  {
    MulDistributes(q * free, r, unit);
    MulAssoc(q, free, unit);
  }

  lemma BelowSpan(r: nat, free: nat, unit: nat, lower: nat, span: nat)
    requires r < free && lower < unit && span == free * unit
    ensures r * unit + lower < span
  {
    MulDistributes(free - r, r, unit);
    MulAtLeast(free - r, unit);
  }
}
