/** The temporary address that internal/cameranetwork/network.go picks for the
    gateway in the camera's subnet, and the helper's checks on it. */
module AddressPool {
  import opened IPv4
  import opened Options

  const WINDOW: nat := 1024

  /** uint32 subtraction. */
  function Sub32(x: nat, y: nat): (r: nat)
    requires x < WORD && y < WORD
    ensures r < WORD
  {
    (x + WORD - y) % WORD
  }

  function Network(camera: IP, p: nat): nat
    requires 1 <= p <= 30
  {
    AlignDown(Value(camera), Span(p))
  }

  function Top(camera: IP, p: nat): int
    requires 1 <= p <= 30
  {
    Network(camera, p) + Span(p) - 2
  }

  /** A number taken by the camera, the gateway or the machine itself. */
  predicate Taken(v: nat, camera: IP, gateway: string, local: seq<IP>)
    requires v < WORD
  {
    var ip := UintIPv4(v);
    ip == camera || Dotted(ip) == gateway || ip in local
  }

  /** The host numbers that are tried: the top 1024 of the subnet. */
  predicate Candidate(v: int, camera: IP, p: nat)
    requires 1 <= p <= 30
  {
    Network(camera, p) < v <= Top(camera, p) && Top(camera, p) - v < WINDOW
  }

  lemma SpanSize(p: nat)
    requires 1 <= p <= 30
    ensures 4 <= Span(p) <= 0x8000_0000 && WORD == Pow2(p) * Span(p)
  {
    Pow2Values();
    Pow2Monotonic(2, 32 - p);
    Pow2Monotonic(32 - p, 31);
    assert Pow2(2) == 4 && Pow2(31) * 2 == Pow2(32);
    Pow2Adds(p, 32 - p);
  }

  lemma BlockFits(v: nat, m: nat, n: nat)
    requires m > 0 && v < n * m
    ensures AlignDown(v, m) + m <= n * m
  {
    hide AlignDown;
    var q := v / m;
    AlignDownIs(v, m);
    assert v == q * m + v % m;
    if q >= n {
      MulDistributes(q - n, n, m);
    } else {
      MulDistributes(n - q - 1, q + 1, m);
      MulDistributes(q, 1, m);
    }
  }

  lemma SpanBounds(camera: IP, p: nat)
    requires 1 <= p <= 30
    ensures 4 <= Span(p) <= 0x8000_0000
    ensures Network(camera, p) + Span(p) <= WORD
  {
    hide Span, Value, AlignDown;
    SpanSize(p);
    BlockFits(Value(camera), Span(p), Pow2(p));
  }

  /** The text keys of the `used` map say exactly which numbers are taken. */
  ghost predicate UsedTexts(used: set<string>, camera: IP, network: IP, broadcast: IP, gateway: string, local: seq<IP>) {
    used == {Dotted(camera), Dotted(network), Dotted(broadcast), gateway} + set ip | ip in local :: Dotted(ip)
  }

  lemma UsedIsTaken(used: set<string>, camera: IP, network: IP, broadcast: IP, gateway: string, local: seq<IP>, v: nat)
    requires UsedTexts(used, camera, network, broadcast, gateway, local)
    requires Value(network) < v < Value(broadcast)
    ensures Dotted(UintIPv4(v)) in used <==> Taken(v, camera, gateway, local)
  {
    hide Dotted, UintIPv4;
    var ip := UintIPv4(v);
    UintIsInverse(v);
    if Dotted(ip) in used {
      if Dotted(ip) == Dotted(camera) { DottedInjective(ip, camera); }
      else if Dotted(ip) == Dotted(network) { DottedInjective(ip, network); }
      else if Dotted(ip) == Dotted(broadcast) { DottedInjective(ip, broadcast); }
      else if Dotted(ip) != gateway {
        var a :| a in local && Dotted(a) == Dotted(ip);
        DottedInjective(ip, a);
      }
    }
  }

  method AssignedTexts(local: seq<IP>) returns (texts: set<string>)
    ensures texts == set ip | ip in local :: Dotted(ip)
  {
    hide Dotted;
    texts := {};
    for i := 0 to |local|
      invariant texts == set ip | ip in local[..i] :: Dotted(ip)
    {
      texts := texts + {Dotted(local[i])};
      assert local[..i + 1] == local[..i] + [local[i]];
    }
    assert local[..|local|] == local;
  }

  /** selectAddress: the highest free candidate, or none when all are taken, which
      needs more taken addresses than candidates.  The 32-bit loop variable never
      wraps. */
  method SelectAddress(camera: IP, mask: IP, p: nat, gateway: string, local: seq<IP>) returns (r: Option<IP>)
    requires 1 <= p <= 30 && mask == CIDRMask(p)
    ensures r.Some? ==>
              && Candidate(Value(r.value), camera, p) && !Taken(Value(r.value), camera, gateway, local)
              && forall v :: Value(r.value) < v <= Top(camera, p) ==> v < WORD && Taken(v, camera, gateway, local)
    ensures r.None? ==> forall v :: Candidate(v, camera, p) ==> 0 <= v < WORD && Taken(v, camera, gateway, local)
    ensures Hosts(p) > |local| + 2 ==> r.Some?
  {
    hide UintIPv4, Dotted, Masked, Broadcast, CIDRMask, Taken, BinaryIPv4, Span, Value, Hosts, AlignDown;
    var network := Masked(camera, mask);
    var broadcast := Broadcast(network, mask);
    var texts := AssignedTexts(local);
    var used := {Dotted(camera), Dotted(network), Dotted(broadcast), gateway} + texts;
    SubnetValues(camera, p);
    SpanBounds(camera, p);
    BinaryIsValue(network);
    BinaryIsValue(broadcast);
    var start := Sub32(BinaryIPv4(broadcast), 1);
    var end := (BinaryIPv4(network) + 1) % WORD;
    assert start == Top(camera, p) && end == Network(camera, p) + 1;
    var value := start;
    while value >= end && Sub32(start, value) < WINDOW
      invariant end - 1 <= value <= start
      invariant forall v :: value < v <= start ==> Taken(v, camera, gateway, local)
      decreases value
    {
      var candidate := UintIPv4(value);
      UintIsInverse(value);
      UsedIsTaken(used, camera, network, broadcast, gateway, local, value);
      if Dotted(candidate) !in used {
        return Some(candidate);
      }
      value := Sub32(value, 1);
    }
    assert forall v :: Candidate(v, camera, p) ==> 0 <= v < WORD && Taken(v, camera, gateway, local);
    FullPool(camera, p, gateway, local);
    return None;
  }

  // --------------------------------------------------------------- pigeonhole

  function Range(low: nat, high: nat): (s: set<nat>)
    requires low <= high
    ensures forall v :: v in s <==> low <= v < high
    ensures |s| == high - low
    decreases high
  {
    if low == high then {} else Range(low, high - 1) + {high - 1}
  }

  lemma {:induction false} ImageBound(local: seq<IP>)
    ensures |set ip | ip in local :: Value(ip)| <= |local|
  {
    hide Value;
    var s := set ip | ip in local :: Value(ip);
    if local == [] {
      assert s == {};
    } else {
      var k := |local| - 1;
      ImageBound(local[..k]);
      var t := set ip | ip in local[..k] :: Value(ip);
      assert local == local[..k] + [local[k]];
      assert s == t + {Value(local[k])};
    }
  }

  lemma SubsetSize(a: set<nat>, b: set<nat>)
    requires a <= b
    ensures |a| <= |b|
  {
    assert |b| == |b - a| + |a|;
  }

  function Hosts(p: nat): int
    requires 1 <= p <= 30
  {
    if Span(p) - 2 < WINDOW then Span(p) - 2 else WINDOW
  }

  /** With fewer local addresses than candidates minus two, some candidate is free. */
  lemma SomeCandidateFree(camera: IP, p: nat, gateway: string, local: seq<IP>)
    requires 1 <= p <= 30 && Hosts(p) > |local| + 2
    ensures exists v :: Candidate(v, camera, p) && 0 <= v < WORD && !Taken(v, camera, gateway, local)
  {
    hide Dotted, Value, UintIPv4, Span;
    SpanBounds(camera, p);
    var top := Top(camera, p);
    var all := Range(top + 1 - Hosts(p), top + 1);
    assert forall v :: v in all ==> Candidate(v, camera, p);
    if forall v :: Candidate(v, camera, p) && 0 <= v < WORD ==> Taken(v, camera, gateway, local) {
      var mine := set ip | ip in local :: Value(ip);
      ImageBound(local);
      var gates := GatewayValues(all, gateway);
      assert all <= {Value(camera)} + gates + mine by {
        forall v | v in all ensures v in {Value(camera)} + gates + mine {
          UintIsInverse(v);
          assert Candidate(v, camera, p);
        }
      }
      SubsetSize(all, {Value(camera)} + gates + mine);
      UnionSize({Value(camera)}, gates, mine);
    }
  }

  /** The selection can fail only when more addresses are taken than that. */
  lemma FullPool(camera: IP, p: nat, gateway: string, local: seq<IP>)
    requires 1 <= p <= 30
    requires forall v :: Candidate(v, camera, p) ==> 0 <= v < WORD && Taken(v, camera, gateway, local)
    ensures Hosts(p) <= |local| + 2
  {
    hide Candidate, Taken, Hosts;
    if Hosts(p) > |local| + 2 { SomeCandidateFree(camera, p, gateway, local); }
  }

  lemma UnionSize(a: set<nat>, b: set<nat>, c: set<nat>)
    ensures |a + b + c| <= |a| + |b| + |c|
  {
  }

  /** At most one number prints as the gateway's text. */
  lemma GatewayValues(all: set<nat>, gateway: string) returns (g: set<nat>)
    requires forall v :: v in all ==> v < WORD
    ensures |g| <= 1
    ensures forall v :: v in all && Dotted(UintIPv4(v)) == gateway ==> v in g
  {
    hide Dotted, UintIPv4;
    g := set v | v in all && Dotted(UintIPv4(v)) == gateway;
    if g != {} {
      var w :| w in g;
      forall v | v in g ensures v == w {
        DottedInjective(UintIPv4(v), UintIPv4(w));
        UintIsInverse(v);
        UintIsInverse(w);
      }
      assert g == {w};
    }
  }
}
