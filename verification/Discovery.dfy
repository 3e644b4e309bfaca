/** Merging the answers of the discovery backends, internal/ipcamera/discovery.go.
    Backends finish in any order, so the merge takes its input in any order.
    A MAC here is what normalizeMAC made of it: canonical, or empty when invalid. */
module Discovery {
  import opened Options

  // ------------------------------------------------------------------- string order

  /** a <= b as Go compares strings. */
  predicate Le(a: string, b: string) {
    a == "" || (b != "" && (a[0] < b[0] || (a[0] == b[0] && Le(a[1..], b[1..]))))
  }

  lemma {:induction false} LeTotal(a: string, b: string)
    ensures Le(a, b) || Le(b, a)
    ensures Le(a, b) && Le(b, a) ==> a == b
  {
    if a != "" && b != "" && a[0] == b[0] {
      LeTotal(a[1..], b[1..]);
      assert a == [a[0]] + a[1..] && b == [b[0]] + b[1..];
    }
  }

  lemma {:induction false} LeTransitive(a: string, b: string, c: string)
    requires Le(a, b) && Le(b, c)
    ensures Le(a, c)
  {
    if a != "" && a[0] == b[0] && b[0] == c[0] {
      LeTransitive(a[1..], b[1..], c[1..]);
    }
  }

  // ------------------------------------------------------------------------- sorting

  ghost predicate Ordered<T>(xs: seq<T>, key: T -> string) {
    forall i, j :: 0 <= i < j < |xs| ==> Le(key(xs[i]), key(xs[j]))
  }

  function Insert<T>(x: T, xs: seq<T>, key: T -> string): seq<T> {
    if xs == [] then [x]
    else if Le(key(xs[|xs| - 1]), key(x)) then xs + [x]
    else Insert(x, xs[..|xs| - 1], key) + [xs[|xs| - 1]]
  }

  /** sort.Slice and sort.Strings, ties in order of arrival. */
  function Sort<T>(xs: seq<T>, key: T -> string): seq<T> {
    if xs == [] then [] else Insert(xs[|xs| - 1], Sort(xs[..|xs| - 1], key), key)
  }

  lemma {:induction false} InsertPermutes<T>(x: T, xs: seq<T>, key: T -> string)
    ensures multiset(Insert(x, xs, key)) == multiset(xs) + multiset{x}
  {
    if xs != [] && !Le(key(xs[|xs| - 1]), key(x)) {
      InsertPermutes(x, xs[..|xs| - 1], key);
      assert xs == xs[..|xs| - 1] + [xs[|xs| - 1]];
    }
  }

  lemma {:induction false} SortPermutes<T>(xs: seq<T>, key: T -> string)
    ensures multiset(Sort(xs, key)) == multiset(xs)
  {
    if xs != [] {
      var init, x := xs[..|xs| - 1], xs[|xs| - 1];
      SortPermutes(init, key);
      assert Sort(xs, key) == Insert(x, Sort(init, key), key);
      hide Sort, Insert;
      InsertPermutes(x, Sort(init, key), key);
      LastApart(xs);
    }
  }

  lemma LastApart<T>(xs: seq<T>)
    requires xs != []
    ensures multiset(xs) == multiset(xs[..|xs| - 1]) + multiset{xs[|xs| - 1]}
  {
    assert xs == xs[..|xs| - 1] + [xs[|xs| - 1]];
  }

  lemma SameElements<T>(xs: seq<T>, ys: seq<T>, x: T)
    requires multiset(xs) == multiset(ys)
    ensures x in xs <==> x in ys
  {
    assert x in xs <==> x in multiset(xs);
    assert x in ys <==> x in multiset(ys);
  }

  lemma {:induction false} InsertOrdered<T>(x: T, xs: seq<T>, key: T -> string)
    requires Ordered(xs, key)
    ensures Ordered(Insert(x, xs, key), key)
  {
    hide Le;
    if xs != [] {
      var n := |xs| - 1;
      var init, last := xs[..n], xs[n];
      LeTotal(key(last), key(x));
      if Le(key(last), key(x)) {
        forall i | 0 <= i < |xs| ensures Le(key(xs[i]), key(x)) {
          if i < n { LeTransitive(key(xs[i]), key(last), key(x)); }
        }
      } else {
        InsertOrdered(x, init, key);
        InsertPermutes(x, init, key);
        var r := Insert(x, init, key);
        forall i | 0 <= i < |r| ensures Le(key(r[i]), key(last)) {
          assert r[i] in multiset(r);
          assert r[i] == x || r[i] in init;
        }
      }
    }
  }

  lemma {:induction false} SortOrdered<T>(xs: seq<T>, key: T -> string)
    ensures Ordered(Sort(xs, key), key)
  {
    if xs != [] {
      SortOrdered(xs[..|xs| - 1], key);
      InsertOrdered(xs[|xs| - 1], Sort(xs[..|xs| - 1], key), key);
    }
  }

  // ------------------------------------------------------------------- uniqueStrings

  function Self(s: string): string { s }

  ghost predicate NoRepeats<T>(xs: seq<T>) {
    forall i, j :: 0 <= i < j < |xs| ==> xs[i] != xs[j]
  }

  function Distinct(values: seq<string>): seq<string> {
    if values == [] then []
    else
      var init, v := Distinct(values[..|values| - 1]), values[|values| - 1];
      if v != "" && v !in init then init + [v] else init
  }

  function UniqueStrings(values: seq<string>): seq<string> {
    Sort(Distinct(values), Self)
  }

  method SortUnique(values: seq<string>) returns (out: seq<string>)
    ensures out == UniqueStrings(values)
  {
    var seen: set<string> := {};
    out := [];
    for i := 0 to |values|
      invariant out == Distinct(values[..i]) && forall v :: v in seen <==> v in out
    {
      var v := values[i];
      assert values[..i + 1][..i] == values[..i];
      if v != "" && v !in seen {
        seen := seen + {v};
        out := out + [v];
      }
    }
    assert values[..|values|] == values;
    out := Sort(out, Self);
  }

  lemma {:induction false} DistinctIs(values: seq<string>)
    ensures NoRepeats(Distinct(values))
    ensures forall v :: v in Distinct(values) <==> v in values && v != ""
  {
    if values != [] {
      DistinctIs(values[..|values| - 1]);
      assert values == values[..|values| - 1] + [values[|values| - 1]];
    }
  }

  lemma NoRepeatsPermuted<T>(xs: seq<T>, ys: seq<T>)
    requires multiset(xs) == multiset(ys) && NoRepeats(xs)
    ensures NoRepeats(ys)
  {
    forall i, j | 0 <= i < j < |ys| ensures ys[i] != ys[j] {
      if ys[i] == ys[j] {
        Twice(ys, i, j);
        Once(xs, ys[i]);
      }
    }
  }

  lemma Twice<T>(ys: seq<T>, i: nat, j: nat)
    requires i < j < |ys| && ys[i] == ys[j]
    ensures multiset(ys)[ys[i]] >= 2
  {
    assert ys == ys[..j] + [ys[j]] + ys[j + 1..];
    assert ys[i] in ys[..j];
  }

  lemma {:induction false} Once<T>(xs: seq<T>, x: T)
    requires NoRepeats(xs)
    ensures multiset(xs)[x] <= 1
  {
    if xs != [] {
      var n := |xs| - 1;
      Once(xs[..n], x);
      assert xs == xs[..n] + [xs[n]];
      if xs[n] == x { assert x !in xs[..n]; }
    }
  }

  ghost predicate Strict(xs: seq<string>) {
    NoRepeats(xs) && Ordered(xs, Self)
  }

  /** The result is the sorted set of the non-empty values. */
  lemma UniqueIs(values: seq<string>)
    ensures Strict(UniqueStrings(values))
    ensures forall v :: v in UniqueStrings(values) <==> v in values && v != ""
  {
    hide Sort, Distinct, NoRepeats, Ordered;
    var d := Distinct(values);
    DistinctIs(values);
    SortPermutes(d, Self);
    SortOrdered(d, Self);
    NoRepeatsPermuted(d, Sort(d, Self));
    forall v ensures v in UniqueStrings(values) <==> v in values && v != "" {
      SameElements(d, Sort(d, Self), v);
    }
  }

  /** A sorted set has one spelling. */
  lemma {:induction false} StrictUnique(xs: seq<string>, ys: seq<string>)
    requires Strict(xs) && Strict(ys) && forall v :: v in xs <==> v in ys
    ensures xs == ys
  {
    hide Le;
    assert ys != [] ==> ys[0] in ys;
    if xs != [] {
      assert xs[0] in ys && xs[0] in xs;
      assert ys[0] in xs && ys[0] in ys;
      FirstLeast(xs, ys[0]);
      FirstLeast(ys, xs[0]);
      LeTotal(xs[0], ys[0]);
      var x, y := xs[1..], ys[1..];
      assert xs == [xs[0]] + x && ys == [ys[0]] + y;
      assert Strict(x) && Strict(y);
      forall v ensures v in x <==> v in y {
        TailElements(xs, v);
        TailElements(ys, v);
      }
      StrictUnique(x, y);
    }
  }

  lemma TailElements(xs: seq<string>, v: string)
    requires xs != [] && NoRepeats(xs)
    ensures v in xs[1..] <==> v in xs && v != xs[0]
  {
    if v in xs && v != xs[0] {
      var i :| 0 <= i < |xs| && xs[i] == v;
      assert xs[1..][i - 1] == v;
    }
  }

  lemma FirstLeast(xs: seq<string>, v: string)
    requires Strict(xs) && v in xs
    ensures Le(xs[0], v)
  {
    hide Le;
    var i :| 0 <= i < |xs| && xs[i] == v;
    LeTotal(v, v);
    if i > 0 { assert Le(Self(xs[0]), Self(xs[i])); }
  }

  // ------------------------------------------------------------------------- devices

  datatype Status = UnknownStatus | Required | Completed

  /** A device as one backend saw it; `fields` are the texts filled in when missing. */
  datatype Device = Device(vendor: string, mac: string, protocols: seq<string>, confidence: string,
                           serial: string, ip: Option<string>, model: string, source: Option<string>,
                           fields: map<string, string>, status: Status)

  predicate SameDevice(a: Device, b: Device) {
    if a.vendor != b.vendor then false
    else if a.mac != "" && b.mac != "" then a.mac == b.mac
    else if a.serial != "" && b.serial != "" then a.serial == b.serial
    else if a.ip.Some? && b.ip.Some? && a.ip == b.ip && a.model != "" && b.model != "" then a.model == b.model
    else a.source.Some? && b.source.Some? && a.source == b.source
  }

  function Rank(confidence: string): nat {
    match confidence
    case "high" => 3
    case "medium" => 2
    case "low" => 1
    case _ => 0
  }

  function MergeStatus(a: Status, b: Status): Status {
    if a == UnknownStatus then b
    else if b == UnknownStatus then a
    else if a != b then UnknownStatus
    else a
  }

  function Or(a: string, b: string): string {
    if a == "" then b else a
  }

  function OrElse<T>(a: Option<T>, b: Option<T>): Option<T> {
    if a.None? then b else a
  }

  function MergeDevice(a: Device, b: Device): Device {
    Device(a.vendor, Or(a.mac, b.mac), UniqueStrings(a.protocols + b.protocols),
           if Rank(b.confidence) > Rank(a.confidence) then b.confidence else a.confidence,
           Or(a.serial, b.serial), OrElse(a.ip, b.ip), Or(a.model, b.model), OrElse(a.source, b.source),
           b.fields + a.fields, MergeStatus(a.status, b.status))
  }

  /** Where the first record of the same device is; past the end when there is none. */
  function IndexOf(m: seq<Device>, d: Device): (i: nat)
    ensures i <= |m|
  {
    if m == [] then 0 else if SameDevice(m[0], d) then 0 else 1 + IndexOf(m[1..], d)
  }

  function MergeOne(m: seq<Device>, d: Device): seq<Device> {
    var i := IndexOf(m, d);
    if i < |m| then m[i := MergeDevice(m[i], d)] else m + [d.(protocols := UniqueStrings(d.protocols))]
  }

  function MergeAll(ds: seq<Device>): seq<Device> {
    if ds == [] then [] else MergeOne(MergeAll(ds[..|ds| - 1]), ds[|ds| - 1])
  }

  function IPText(d: Device): string {
    if d.ip.Some? then d.ip.value else "<nil>"
  }

  function Merged(ds: seq<Device>): seq<Device> {
    Sort(MergeAll(ds), IPText)
  }

  method MergeDevices(devices: seq<Device>) returns (merged: seq<Device>)
    ensures merged == Merged(devices)
  {
    hide UniqueStrings, MergeDevice, SameDevice, Sort;
    merged := [];
    for k := 0 to |devices|
      invariant merged == MergeAll(devices[..k])
    {
      var device := devices[k];
      assert devices[..k + 1][..k] == devices[..k];
      var i := 0;
      while i < |merged| && !SameDevice(merged[i], device)
        invariant i <= |merged| && i + IndexOf(merged[i..], device) == IndexOf(merged, device)
      {
        assert merged[i..][1..] == merged[i + 1..];
        i := i + 1;
      }
      if i == |merged| {
        var protocols := SortUnique(device.protocols);
        merged := merged + [device.(protocols := protocols)];
      } else {
        merged := merged[i := MergeDevice(merged[i], device)];
      }
    }
    assert devices[..|devices|] == devices;
    merged := Sort(merged, IPText);
  }

  // -------------------------------------------------- devices that identify themselves

  datatype Key = ByMAC(vendor: string, mac: string) | BySerial(vendor: string, serial: string)

  function KeyOf(d: Device): Key {
    if d.mac != "" then ByMAC(d.vendor, d.mac) else BySerial(d.vendor, d.serial)
  }

  /** Both have a MAC, or neither has one and both have a serial number. */
  predicate Kindred(a: Device, b: Device) {
    (a.mac != "" && b.mac != "") || (a.mac == "" && b.mac == "" && a.serial != "" && b.serial != "")
  }

  /** The answers for one vendor all identify their device in the same way. */
  ghost predicate Identified(ds: seq<Device>) {
    forall d, e :: d in ds && e in ds && d.vendor == e.vendor ==> Kindred(d, e)
  }

  lemma MACsIdentify(ds: seq<Device>)
    requires forall d :: d in ds ==> d.mac != ""
    ensures Identified(ds)
  {
  }

  ghost predicate Offers(ds: seq<Device>, k: Key, protocol: string) {
    exists d :: d in ds && KeyOf(d) == k && protocol in d.protocols && protocol != ""
  }

  ghost predicate Known(ds: seq<Device>, k: Key) {
    exists d :: d in ds && KeyOf(d) == k
  }

  ghost predicate IsTopRank(ds: seq<Device>, k: Key, rank: nat) {
    && (forall d :: d in ds && KeyOf(d) == k ==> Rank(d.confidence) <= rank)
    && (exists d :: d in ds && KeyOf(d) == k && Rank(d.confidence) == rank)
  }

  /** A record summarizes all answers of its device. */
  ghost predicate Summary(r: Device, ds: seq<Device>) {
    && Strict(r.protocols)
    && (forall p :: p in r.protocols <==> Offers(ds, KeyOf(r), p))
    && IsTopRank(ds, KeyOf(r), Rank(r.confidence))
  }

  ghost predicate DistinctKeys(m: seq<Device>) {
    forall i, j :: 0 <= i < j < |m| ==> KeyOf(m[i]) != KeyOf(m[j])
  }

  /** Exactly one record for each device that answered. */
  ghost predicate OnePerDevice(m: seq<Device>, ds: seq<Device>) {
    && DistinctKeys(m)
    && (forall r :: r in m ==> Summary(r, ds))
    && (forall k :: Known(ds, k) ==> Known(m, k))
  }

  lemma OffersAppend(ds: seq<Device>, d: Device, k: Key, p: string)
    ensures Offers(ds + [d], k, p) <==> Offers(ds, k, p) || (KeyOf(d) == k && p in d.protocols && p != "")
  {
    if Offers(ds, k, p) {
      var e :| e in ds && KeyOf(e) == k && p in e.protocols && p != "";
      assert e in ds + [d];
    }
    assert d in ds + [d];
  }

  lemma KnownAppend(ds: seq<Device>, d: Device, k: Key)
    ensures Known(ds + [d], k) <==> Known(ds, k) || KeyOf(d) == k
  {
    if Known(ds, k) {
      var e :| e in ds && KeyOf(e) == k;
      assert e in ds + [d];
    }
    assert d in ds + [d];
  }

  lemma TopRankOther(ds: seq<Device>, d: Device, k: Key, rank: nat)
    requires IsTopRank(ds, k, rank) && KeyOf(d) != k
    ensures IsTopRank(ds + [d], k, rank)
  {
    var e :| e in ds && KeyOf(e) == k && Rank(e.confidence) == rank;
    assert e in ds + [d];
  }

  lemma TopRankSame(ds: seq<Device>, d: Device, rank: nat)
    requires IsTopRank(ds, KeyOf(d), rank)
    ensures IsTopRank(ds + [d], KeyOf(d), if Rank(d.confidence) > rank then Rank(d.confidence) else rank)
  {
    var e :| e in ds && KeyOf(e) == KeyOf(d) && Rank(e.confidence) == rank;
    assert e in ds + [d] && d in ds + [d];
  }

  lemma SummaryOther(r: Device, ds: seq<Device>, d: Device)
    requires Summary(r, ds) && KeyOf(r) != KeyOf(d)
    ensures Summary(r, ds + [d])
  {
    hide Strict, Offers, IsTopRank, Rank;
    forall p ensures p in r.protocols <==> Offers(ds + [d], KeyOf(r), p) {
      OffersAppend(ds, d, KeyOf(r), p);
    }
    TopRankOther(ds, d, KeyOf(r), Rank(r.confidence));
  }

  lemma SummarySame(r: Device, ds: seq<Device>, d: Device)
    requires Summary(r, ds) && KeyOf(r) == KeyOf(d)
    ensures Summary(MergeDevice(r, d), ds + [d]) && KeyOf(MergeDevice(r, d)) == KeyOf(d)
  {
    hide Strict, Offers, IsTopRank, Rank, UniqueStrings;
    var t := MergeDevice(r, d);
    UniqueIs(r.protocols + d.protocols);
    forall p ensures p in t.protocols <==> Offers(ds + [d], KeyOf(d), p) {
      OffersAppend(ds, d, KeyOf(d), p);
      OffersNonEmpty(ds, KeyOf(d), p);
    }
    TopRankSame(ds, d, Rank(r.confidence));
  }

  lemma OffersNonEmpty(ds: seq<Device>, k: Key, p: string)
    ensures Offers(ds, k, p) ==> p != "" && Known(ds, k)
  {
  }

  lemma SummaryFirst(ds: seq<Device>, d: Device)
    requires !Known(ds, KeyOf(d))
    ensures Summary(d.(protocols := UniqueStrings(d.protocols)), ds + [d])
  {
    hide Strict, Offers, Rank, UniqueStrings;
    var r := d.(protocols := UniqueStrings(d.protocols));
    UniqueIs(d.protocols);
    forall p ensures p in r.protocols <==> Offers(ds + [d], KeyOf(d), p) {
      OffersAppend(ds, d, KeyOf(d), p);
      OffersNonEmpty(ds, KeyOf(d), p);
    }
    assert d in ds + [d];
  }

  lemma {:induction false} IndexIsKey(m: seq<Device>, d: Device)
    requires forall r :: r in m && r.vendor == d.vendor ==> Kindred(r, d)
    ensures var i := IndexOf(m, d);
            && (forall j :: 0 <= j < i ==> KeyOf(m[j]) != KeyOf(d))
            && (i < |m| ==> KeyOf(m[i]) == KeyOf(d))
  {
    if m != [] && !SameDevice(m[0], d) {
      assert forall r :: r in m[1..] ==> r in m;
      assert m[0] in m;
      IndexIsKey(m[1..], d);
      assert forall j :: 1 <= j < |m| ==> m[j] == m[1..][j - 1];
    } else if m != [] {
      assert m[0] in m;
    }
  }

  /** Another answer of a device that has its record. */
  lemma MergeInto(m: seq<Device>, ds: seq<Device>, d: Device, i: nat)
    requires OnePerDevice(m, ds) && i < |m| && KeyOf(m[i]) == KeyOf(d)
    ensures OnePerDevice(m[i := MergeDevice(m[i], d)], ds + [d])
  {
    hide Summary, Known, MergeDevice;
    var r := m[i := MergeDevice(m[i], d)];
    assert m[i] in m;
    SummarySame(m[i], ds, d);
    forall x | x in r ensures Summary(x, ds + [d]) {
      var j :| 0 <= j < |r| && r[j] == x;
      if j != i {
        assert m[j] in m;
        SummaryOther(m[j], ds, d);
      }
    }
    forall k | Known(ds + [d], k) ensures Known(r, k) {
      KnownAppend(ds, d, k);
      KnownUpdated(m, r, i, k);
      KnownAt(r, i);
    }
  }

  lemma KnownUpdated(m: seq<Device>, r: seq<Device>, i: nat, k: Key)
    requires |m| == |r| && forall j :: 0 <= j < |m| ==> KeyOf(m[j]) == KeyOf(r[j])
    ensures Known(m, k) ==> Known(r, k)
  {
    if Known(m, k) {
      var e :| e in m && KeyOf(e) == k;
      var j :| 0 <= j < |m| && m[j] == e;
      assert r[j] in r;
    }
  }

  lemma KnownAt(m: seq<Device>, i: nat)
    requires i < |m|
    ensures Known(m, KeyOf(m[i]))
  {
    assert m[i] in m;
  }

  /** The first answer of a device. */
  lemma MergeNew(m: seq<Device>, ds: seq<Device>, d: Device)
    requires OnePerDevice(m, ds) && forall j :: 0 <= j < |m| ==> KeyOf(m[j]) != KeyOf(d)
    ensures OnePerDevice(m + [d.(protocols := UniqueStrings(d.protocols))], ds + [d])
  {
    hide Summary, Known, UniqueStrings;
    var n := d.(protocols := UniqueStrings(d.protocols));
    var r := m + [n];
    assert !Known(ds, KeyOf(d)) by {
      if Known(ds, KeyOf(d)) { NotKnown(m, KeyOf(d)); }
    }
    SummaryFirst(ds, d);
    forall x | x in r ensures Summary(x, ds + [d]) {
      if x in m {
        var j :| 0 <= j < |m| && m[j] == x;
        SummaryOther(x, ds, d);
      }
    }
    forall k | Known(ds + [d], k) ensures Known(r, k) {
      KnownAppend(ds, d, k);
      KnownAppend(m, n, k);
    }
  }

  lemma NotKnown(m: seq<Device>, k: Key)
    requires forall j :: 0 <= j < |m| ==> KeyOf(m[j]) != k
    ensures !Known(m, k)
  {
  }

  lemma {:induction false} MergeAllSummarizes(ds: seq<Device>)
    requires Identified(ds)
    ensures OnePerDevice(MergeAll(ds), ds)
  {
    hide OnePerDevice, SameDevice, MergeDevice, UniqueStrings, IndexOf;
    if ds == [] {
      assert OnePerDevice([], []) by { NothingMerged(); }
    } else {
      var init, d := ds[..|ds| - 1], ds[|ds| - 1];
      assert ds == init + [d];
      IdentifiedBefore(init, d);
      hide Identified;
      MergeAllSummarizes(init);
      var m := MergeAll(init);
      RecordsAreKindred(m, init, d);
      IndexIsKey(m, d);
      var i := IndexOf(m, d);
      if i < |m| { MergeInto(m, init, d, i); } else { MergeNew(m, init, d); }
    }
  }

  lemma NothingMerged()
    ensures OnePerDevice([], [])
  {
  }

  /** Records identify their device as its answers do. */
  lemma RecordsAreKindred(m: seq<Device>, ds: seq<Device>, d: Device)
    requires OnePerDevice(m, ds) && Identified(ds + [d])
    ensures forall r :: r in m && r.vendor == d.vendor ==> Kindred(r, d)
  {
    hide Strict, Offers, DistinctKeys, Known, Rank;
    forall r | r in m && r.vendor == d.vendor ensures Kindred(r, d) {
      assert Summary(r, ds);
      var e :| e in ds && KeyOf(e) == KeyOf(r) && Rank(e.confidence) == Rank(r.confidence);
      assert e in ds + [d] && d in ds + [d];
    }
  }

  lemma IdentifiedBefore(ds: seq<Device>, d: Device)
    requires Identified(ds + [d])
    ensures Identified(ds)
  {
    assert forall e :: e in ds ==> e in ds + [d];
  }

  lemma {:induction false} InsertKeepsKeys(x: Device, m: seq<Device>)
    requires DistinctKeys(m) && forall j :: 0 <= j < |m| ==> KeyOf(m[j]) != KeyOf(x)
    ensures DistinctKeys(Insert(x, m, IPText))
  {
    hide KeyOf, Le, IPText;
    if m != [] && !Le(IPText(m[|m| - 1]), IPText(x)) {
      var n := |m| - 1;
      var init := m[..n];
      InsertKeepsKeys(x, init);
      var r := Insert(x, init, IPText);
      assert Insert(x, m, IPText) == r + [m[n]];
      hide Insert;
      InsertPermutes(x, init, IPText);
      forall j | 0 <= j < |r| ensures KeyOf(r[j]) != KeyOf(m[n]) {
        assert r[j] in multiset(r);
        assert r[j] == x || r[j] in init;
      }
    }
  }

  lemma {:induction false} SortKeepsKeys(m: seq<Device>)
    requires DistinctKeys(m)
    ensures DistinctKeys(Sort(m, IPText))
  {
    hide Insert;
    if m != [] {
      var n := |m| - 1;
      SortKeepsKeys(m[..n]);
      SortPermutes(m[..n], IPText);
      var s := Sort(m[..n], IPText);
      forall j | 0 <= j < |s| ensures KeyOf(s[j]) != KeyOf(m[n]) {
        assert s[j] in multiset(s);
        assert s[j] in m[..n];
      }
      InsertKeepsKeys(m[n], s);
    }
  }

  /** When the answers identify their devices, as they do when every one has a MAC, the
      merge gives exactly one record for each vendor and MAC (or serial number) that
      answered, with the sorted union of its protocols and its highest confidence,
      in order of address. */
  lemma MergedSummarizes(ds: seq<Device>)
    requires Identified(ds)
    ensures OnePerDevice(Merged(ds), ds) && Ordered(Merged(ds), IPText)
  {
    hide MergeAll, Sort, Summary, DistinctKeys, Ordered;
    var m := MergeAll(ds);
    MergeAllSummarizes(ds);
    SortKeepsKeys(m);
    SortPermutes(m, IPText);
    SortOrdered(m, IPText);
    var r := Sort(m, IPText);
    forall x ensures x in r <==> x in m { SameElements(m, r, x); }
  }

  /** What does not depend on the order of arrival. */
  ghost predicate Agree(r: Device, t: Device) {
    KeyOf(r) == KeyOf(t) && r.protocols == t.protocols && Rank(r.confidence) == Rank(t.confidence)
  }

  lemma SummariesAgree(r: Device, t: Device, ds: seq<Device>, es: seq<Device>)
    requires Summary(r, ds) && Summary(t, es) && KeyOf(r) == KeyOf(t)
    requires forall d :: d in ds <==> d in es
    ensures Agree(r, t)
  {
    hide Strict, Rank;
    forall p ensures p in r.protocols <==> p in t.protocols {
      assert Offers(ds, KeyOf(r), p) <==> Offers(es, KeyOf(r), p);
    }
    StrictUnique(r.protocols, t.protocols);
  }

  lemma Counterpart(ds: seq<Device>, es: seq<Device>, r: Device) returns (t: Device)
    requires Identified(ds) && (forall d :: d in ds <==> d in es) && r in Merged(ds)
    ensures t in Merged(es) && Agree(r, t)
  {
    hide Merged, Strict, Rank, Ordered, DistinctKeys, Agree, Offers;
    MergedSummarizes(ds);
    MergedSummarizes(es);
    var d :| d in ds && KeyOf(d) == KeyOf(r) && Rank(d.confidence) == Rank(r.confidence);
    assert d in es;
    assert Known(es, KeyOf(r));
    t :| t in Merged(es) && KeyOf(t) == KeyOf(r);
    SummariesAgree(r, t, ds, es);
  }

  /** The same answers in any order, even with repeats, give the same devices with the
      same protocols and the same confidence. */
  lemma OrderIndependent(ds: seq<Device>, es: seq<Device>)
    requires Identified(ds) && forall d :: d in ds <==> d in es
    ensures |Merged(ds)| == |Merged(es)|
    ensures forall r :: r in Merged(ds) ==> exists t :: t in Merged(es) && Agree(r, t)
    ensures forall t :: t in Merged(es) ==> exists r :: r in Merged(ds) && Agree(t, r)
  {
    hide Merged, Agree, OnePerDevice;
    forall r | r in Merged(ds) ensures exists t :: t in Merged(es) && Agree(r, t) {
      var t := Counterpart(ds, es, r);
    }
    forall t | t in Merged(es) ensures exists r :: r in Merged(ds) && Agree(t, r) {
      var r := Counterpart(es, ds, t);
    }
    AtMost(ds, es);
    AtMost(es, ds);
  }

  lemma AtMost(ds: seq<Device>, es: seq<Device>)
    requires Identified(ds) && forall d :: d in ds <==> d in es
    ensures |Merged(ds)| <= |Merged(es)|
  {
    hide Merged;
    MergedSummarizes(ds);
    var m, n := Merged(ds), Merged(es);
    forall r | r in m ensures Known(n, KeyOf(r)) {
      var t := Counterpart(ds, es, r);
    }
    Pigeons(m, n);
  }

  lemma {:induction false} Pigeons(m: seq<Device>, n: seq<Device>)
    requires DistinctKeys(m) && forall r :: r in m ==> Known(n, KeyOf(r))
    ensures |m| <= |n|
  {
    if m != [] {
      var r, rest := m[0], m[1..];
      assert r in m;
      var t :| t in n && KeyOf(t) == KeyOf(r);
      var j :| 0 <= j < |n| && n[j] == t;
      var others := n[..j] + n[j + 1..];
      forall x | x in rest ensures Known(others, KeyOf(x)) {
        var i :| 0 <= i < |rest| && rest[i] == x;
        assert m[i + 1] == x && x in m;
        var y :| y in n && KeyOf(y) == KeyOf(x);
        var l :| 0 <= l < |n| && n[l] == y;
        assert l != j;
        assert y in others by {
          if l < j { assert others[l] == y; } else { assert others[l - 1] == y; }
        }
      }
      Pigeons(rest, others);
    }
  }

  // --------------------------------------------------------- texts are never invented

  datatype TextField = Serial | Model | Address | Source | Other(name: string)

  /** The text, "" when there is none. */
  function TextOf(d: Device, f: TextField): string {
    match f
    case Serial => d.serial
    case Model => d.model
    case Address => if d.ip.Some? then "=" + d.ip.value else ""
    case Source => if d.source.Some? then "=" + d.source.value else ""
    case Other(name) => if name in d.fields then "=" + d.fields[name] else ""
  }

  /** Answer i is the first one of device k that has a text, and this is it. */
  ghost predicate FirstText(ds: seq<Device>, k: Key, f: TextField, i: nat, text: string) {
    && i < |ds| && KeyOf(ds[i]) == k && TextOf(ds[i], f) == text != ""
    && forall j :: 0 <= j < i && KeyOf(ds[j]) == k ==> TextOf(ds[j], f) == ""
  }

  ghost predicate NoText(ds: seq<Device>, k: Key, f: TextField) {
    forall j :: 0 <= j < |ds| && KeyOf(ds[j]) == k ==> TextOf(ds[j], f) == ""
  }

  /** A record's text is that of the first answer of its device that has one, and
      empty only if no answer of its device has one. */
  ghost predicate Carries(r: Device, ds: seq<Device>, f: TextField) {
    if TextOf(r, f) == "" then NoText(ds, KeyOf(r), f)
    else exists i: nat :: FirstText(ds, KeyOf(r), f, i, TextOf(r, f))
  }

  lemma FirstStays(ds: seq<Device>, d: Device, k: Key, f: TextField, i: nat, text: string)
    requires FirstText(ds, k, f, i, text)
    ensures FirstText(ds + [d], k, f, i, text)
  {
    hide TextOf, KeyOf;
  }

  lemma FirstAppears(ds: seq<Device>, d: Device, k: Key, f: TextField)
    requires NoText(ds, k, f) && KeyOf(d) == k
    ensures if TextOf(d, f) == "" then NoText(ds + [d], k, f) else FirstText(ds + [d], k, f, |ds|, TextOf(d, f))
  {
    hide TextOf, KeyOf;
  }

  lemma CarriesOther(r: Device, ds: seq<Device>, d: Device, f: TextField)
    requires Carries(r, ds, f) && KeyOf(r) != KeyOf(d)
    ensures Carries(r, ds + [d], f)
  {
    hide TextOf, KeyOf, FirstText;
    if TextOf(r, f) != "" {
      var i: nat :| FirstText(ds, KeyOf(r), f, i, TextOf(r, f));
      FirstStays(ds, d, KeyOf(r), f, i, TextOf(r, f));
    }
  }

  lemma CarriesSame(r: Device, ds: seq<Device>, d: Device, f: TextField)
    requires Carries(r, ds, f) && KeyOf(r) == KeyOf(d)
    ensures Carries(MergeDevice(r, d), ds + [d], f)
  {
    var t := MergeDevice(r, d);
    MergedText(r, d, f);
    hide TextOf, KeyOf, FirstText, NoText, MergeDevice;
    if TextOf(r, f) != "" {
      var i: nat :| FirstText(ds, KeyOf(r), f, i, TextOf(r, f));
      FirstStays(ds, d, KeyOf(r), f, i, TextOf(r, f));
    } else {
      FirstAppears(ds, d, KeyOf(d), f);
    }
  }

  lemma MergedText(r: Device, d: Device, f: TextField)
    requires KeyOf(r) == KeyOf(d)
    ensures var t := MergeDevice(r, d);
            KeyOf(t) == KeyOf(r) && TextOf(t, f) == if TextOf(r, f) == "" then TextOf(d, f) else TextOf(r, f)
  {
    hide UniqueStrings, MergeStatus, Rank;
  }

  lemma CarriesFirst(ds: seq<Device>, d: Device, f: TextField)
    requires !Known(ds, KeyOf(d))
    ensures Carries(d.(protocols := UniqueStrings(d.protocols)), ds + [d], f)
  {
    hide UniqueStrings;
    assert forall e :: e in ds ==> KeyOf(e) != KeyOf(d);
    assert NoText(ds, KeyOf(d), f);
    var r := d.(protocols := UniqueStrings(d.protocols));
    assert KeyOf(r) == KeyOf(d) && TextOf(r, f) == TextOf(d, f);
    hide TextOf, NoText, FirstText;
    FirstAppears(ds, d, KeyOf(d), f);
    assert TextOf(r, f) != "" ==> FirstText(ds + [d], KeyOf(r), f, |ds|, TextOf(r, f));
  }

  ghost predicate AllCarry(m: seq<Device>, ds: seq<Device>, f: TextField) {
    forall r :: r in m ==> Carries(r, ds, f)
  }

  lemma MergeCarries(m: seq<Device>, ds: seq<Device>, d: Device, f: TextField)
    requires OnePerDevice(m, ds) && AllCarry(m, ds, f) && Identified(ds + [d])
    ensures AllCarry(MergeOne(m, d), ds + [d], f)
  {
    hide Carries, MergeDevice, UniqueStrings, Summary, SameDevice, IndexOf;
    RecordsAreKindred(m, ds, d);
    IndexIsKey(m, d);
    var i := IndexOf(m, d);
    var t := MergeOne(m, d);
    if i == |m| { NotKnown(m, KeyOf(d)); CarriesFirst(ds, d, f); }
    forall r | r in t ensures Carries(r, ds + [d], f) {
      var j :| 0 <= j < |t| && t[j] == r;
      if j < |m| {
        assert m[j] in m;
        if j == i { CarriesSame(m[j], ds, d, f); } else { CarriesOther(m[j], ds, d, f); }
      }
    }
  }

  lemma {:induction false} MergeAllCarries(ds: seq<Device>, f: TextField)
    requires Identified(ds)
    ensures AllCarry(MergeAll(ds), ds, f)
  {
    hide Carries, OnePerDevice, MergeOne, Identified;
    if ds != [] {
      var init, d := ds[..|ds| - 1], ds[|ds| - 1];
      assert ds == init + [d];
      IdentifiedBefore(init, d);
      MergeAllCarries(init, f);
      MergeAllSummarizes(init);
      MergeCarries(MergeAll(init), init, d, f);
    }
  }

  /** Whether a record has a serial number, a model, an address or another text does not
      depend on the order either; which of several does: it is the first one given. */
  lemma MergedCarries(ds: seq<Device>, f: TextField, r: Device)
    requires Identified(ds) && r in Merged(ds)
    ensures Carries(r, ds, f)
  {
    hide Carries, MergeAll, Sort;
    MergeAllCarries(ds, f);
    SortPermutes(MergeAll(ds), IPText);
    SameElements(MergeAll(ds), Merged(ds), r);
  }

  // ---------------------------------------------------------------------- confidence

  ghost predicate Rated(ds: seq<Device>, k: Key, confidence: string) {
    exists d :: d in ds && KeyOf(d) == k && d.confidence == confidence
  }

  /** A record is rated high if some answer of its device is, else medium if some is,
      else low if some is, and otherwise as one of them was. */
  lemma MergedConfidence(ds: seq<Device>, r: Device)
    requires Identified(ds) && r in Merged(ds)
    ensures var k := KeyOf(r);
            && (r.confidence == "high" <==> Rated(ds, k, "high"))
            && (r.confidence == "medium" <==> !Rated(ds, k, "high") && Rated(ds, k, "medium"))
            && (r.confidence == "low" <==> !Rated(ds, k, "high") && !Rated(ds, k, "medium") && Rated(ds, k, "low"))
  {
    MergedSummarizes(ds);
    hide Merged, KeyOf, Identified, DistinctKeys, Strict, Offers;
    assert Summary(r, ds);
  }

  // ------------------------------------------------------------ initialization status

  /** What the answers of one device said, in order. */
  function StatusesOf(ds: seq<Device>, k: Key): seq<Status> {
    if ds == [] then []
    else StatusesOf(ds[..|ds| - 1], k) + if KeyOf(ds[|ds| - 1]) == k then [ds[|ds| - 1].status] else []
  }

  function FoldStatus(sts: seq<Status>): Status {
    if sts == [] then UnknownStatus else MergeStatus(FoldStatus(sts[..|sts| - 1]), sts[|sts| - 1])
  }

  lemma StatusesAppend(ds: seq<Device>, d: Device, k: Key)
    ensures StatusesOf(ds + [d], k) == StatusesOf(ds, k) + if KeyOf(d) == k then [d.status] else []
  {
    assert (ds + [d])[..|ds|] == ds;
  }

  lemma FoldAppend(sts: seq<Status>, st: Status)
    ensures FoldStatus(sts + [st]) == MergeStatus(FoldStatus(sts), st)
  {
    assert (sts + [st])[..|sts|] == sts;
  }

  lemma {:induction false} StatusesOfUnknown(ds: seq<Device>, k: Key)
    requires !Known(ds, k)
    ensures StatusesOf(ds, k) == []
  {
    if ds != [] {
      var init, d := ds[..|ds| - 1], ds[|ds| - 1];
      assert ds == init + [d];
      KnownAppend(init, d, k);
      StatusesOfUnknown(init, k);
    }
  }

  ghost predicate Folded(m: seq<Device>, ds: seq<Device>) {
    forall r :: r in m ==> r.status == FoldStatus(StatusesOf(ds, KeyOf(r)))
  }

  lemma MergeFolds(m: seq<Device>, ds: seq<Device>, d: Device)
    requires OnePerDevice(m, ds) && Folded(m, ds) && Identified(ds + [d])
    ensures Folded(MergeOne(m, d), ds + [d])
  {
    hide UniqueStrings, Summary, SameDevice, IndexOf, StatusesOf, FoldStatus, MergeStatus, Identified, Known;
    RecordsAreKindred(m, ds, d);
    IndexIsKey(m, d);
    var i, t := IndexOf(m, d), MergeOne(m, d);
    FoldAppend(StatusesOf(ds, KeyOf(d)), d.status);
    if i == |m| {
      NotKnown(m, KeyOf(d));
      StatusesOfUnknown(ds, KeyOf(d));
      FoldFirst(d.status);
    } else {
      assert m[i] in m;
      SummarySame(m[i], ds, d);
    }
    forall r | r in t ensures r.status == FoldStatus(StatusesOf(ds + [d], KeyOf(r))) {
      var j :| 0 <= j < |t| && t[j] == r;
      StatusesAppend(ds, d, KeyOf(r));
      assert StatusesOf(ds, KeyOf(r)) + [] == StatusesOf(ds, KeyOf(r));
      if j < |m| && j != i {
        assert m[j] in m;
        assert KeyOf(m[j]) != KeyOf(d);
      }
    }
  }

  lemma FoldFirst(st: Status)
    ensures FoldStatus([] + [st]) == st
  {
    FoldAppend([], st);
  }

  lemma {:induction false} MergeAllFolds(ds: seq<Device>)
    requires Identified(ds)
    ensures Folded(MergeAll(ds), ds)
  {
    hide Folded, OnePerDevice, MergeOne, Identified;
    if ds == [] {
      assert Folded([], []) by { NothingFolded(); }
    } else {
      var init, d := ds[..|ds| - 1], ds[|ds| - 1];
      assert ds == init + [d];
      IdentifiedBefore(init, d);
      MergeAllFolds(init);
      MergeAllSummarizes(init);
      MergeFolds(MergeAll(init), init, d);
    }
  }

  lemma NothingFolded()
    ensures Folded([], [])
  {
  }

  /** A record's status is the fold of what its device's answers said. */
  lemma MergedFolds(ds: seq<Device>, r: Device)
    requires Identified(ds) && r in Merged(ds)
    ensures r.status == FoldStatus(StatusesOf(ds, KeyOf(r)))
  {
    hide MergeAll, Sort, StatusesOf, FoldStatus;
    MergeAllFolds(ds);
    SortPermutes(MergeAll(ds), IPText);
    SameElements(MergeAll(ds), Merged(ds), r);
  }

  // ------------------------------------------------------- when the status is fixed

  /** How many answers of a device say st. */
  function Tally(ds: seq<Device>, k: Key, st: Status): nat {
    multiset(StatusesOf(ds, k))[st]
  }

  ghost predicate Reordered(ds: seq<Device>, es: seq<Device>) {
    multiset(ds) == multiset(es)
  }

  lemma {:induction false} StatusesConcat(a: seq<Device>, b: seq<Device>, k: Key)
    ensures StatusesOf(a + b, k) == StatusesOf(a, k) + StatusesOf(b, k)
  {
    if b == [] {
      assert a + b == a;
    } else {
      var init, d := b[..|b| - 1], b[|b| - 1];
      assert a + b == (a + init) + [d] && b == init + [d];
      StatusesConcat(a, init, k);
      StatusesAppend(a + init, d, k);
    }
  }

  lemma OneLess(init: seq<Device>, a: seq<Device>, d: Device, b: seq<Device>)
    requires multiset(init + [d]) == multiset((a + [d]) + b)
    ensures multiset(init) == multiset(a + b)
  {
    assert multiset(init + [d]) == multiset(init) + multiset{d};
    assert multiset((a + [d]) + b) == multiset(a) + multiset{d} + multiset(b);
    assert multiset(a + b) == multiset(a) + multiset(b);
    Cancel(multiset(init), multiset(a + b), d);
  }

  lemma Cancel(m: multiset<Device>, n: multiset<Device>, d: Device)
    requires m + multiset{d} == n + multiset{d}
    ensures m == n
  {
    assert m == (m + multiset{d}) - multiset{d} && n == (n + multiset{d}) - multiset{d};
  }

  /** Reordering the answers reorders what each device's answers said. */
  lemma {:induction false} ReorderedStatuses(ds: seq<Device>, es: seq<Device>, k: Key)
    requires Reordered(ds, es)
    ensures multiset(StatusesOf(ds, k)) == multiset(StatusesOf(es, k))
  {
    if ds == [] {
      assert |es| == |multiset(es)| == 0;
    } else {
      hide StatusesOf;
      var init, d := ds[..|ds| - 1], ds[|ds| - 1];
      assert ds == init + [d];
      assert d in multiset(es);
      var j :| 0 <= j < |es| && es[j] == d;
      var a, b := es[..j], es[j + 1..];
      assert es == (a + [d]) + b;
      OneLess(init, a, d, b);
      ReorderedStatuses(init, a + b, k);
      StatusesAppend(init, d, k);
      StatusesMoved(a, d, b, k);
    }
  }

  lemma StatusesMoved(a: seq<Device>, d: Device, b: seq<Device>, k: Key)
    ensures multiset(StatusesOf((a + [d]) + b, k)) == multiset(StatusesOf(a + b, k)) + if KeyOf(d) == k then multiset{d.status} else multiset{}
  {
    hide StatusesOf;
    StatusesConcat(a + [d], b, k);
    StatusesAppend(a, d, k);
    StatusesConcat(a, b, k);
  }

  lemma {:induction false} FoldOneKind(sts: seq<Status>, st: Status)
    requires st != UnknownStatus && forall i :: 0 <= i < |sts| ==> sts[i] == st || sts[i] == UnknownStatus
    ensures FoldStatus(sts) == if multiset(sts)[st] > 0 then st else UnknownStatus
  {
    if sts != [] {
      var init, x := sts[..|sts| - 1], sts[|sts| - 1];
      FoldOneKind(init, st);
      assert sts == init + [x];
    }
  }

  lemma {:induction false} OnlyThat(sts: seq<Status>, absent: Status, st: Status)
    requires multiset(sts)[absent] == 0 && absent != UnknownStatus && st != UnknownStatus && st != absent
    ensures forall i :: 0 <= i < |sts| ==> sts[i] == st || sts[i] == UnknownStatus
  {
    forall i | 0 <= i < |sts| ensures sts[i] != absent {
      assert sts[i] in multiset(sts);
    }
  }

  lemma {:induction false} FoldOneEach(sts: seq<Status>)
    requires multiset(sts)[Required] == 1 && multiset(sts)[Completed] == 1
    ensures FoldStatus(sts) == UnknownStatus
  {
    if |sts| > 0 {
      var init, x := sts[..|sts| - 1], sts[|sts| - 1];
      assert sts == init + [x];
      assert multiset(sts) == multiset(init) + multiset{x};
      match x
      case UnknownStatus => FoldOneEach(init);
      case Required => OnlyThat(init, Required, Completed); FoldOneKind(init, Completed);
      case Completed => OnlyThat(init, Completed, Required); FoldOneKind(init, Required);
    }
  }

  /** No disagreement, or exactly one against one. */
  predicate Settled(required: nat, completed: nat) {
    required == 0 || completed == 0 || (required == 1 && completed == 1)
  }

  lemma SettledFold(sts: seq<Status>, others: seq<Status>)
    requires multiset(sts) == multiset(others) && Settled(multiset(sts)[Required], multiset(sts)[Completed])
    ensures FoldStatus(sts) == FoldStatus(others)
  {
    hide FoldStatus;
    if multiset(sts)[Required] == 0 {
      OnlyThat(sts, Required, Completed);
      OnlyThat(others, Required, Completed);
      FoldOneKind(sts, Completed);
      FoldOneKind(others, Completed);
    } else if multiset(sts)[Completed] == 0 {
      OnlyThat(sts, Completed, Required);
      OnlyThat(others, Completed, Required);
      FoldOneKind(sts, Required);
      FoldOneKind(others, Required);
    } else {
      FoldOneEach(sts);
      FoldOneEach(others);
    }
  }

  ghost predicate AllAre(sts: seq<Status>, st: Status) {
    forall i :: 0 <= i < |sts| ==> sts[i] == st
  }

  /** Folding on over a run of equal statuses. */
  lemma {:induction false} FoldRun(sts: seq<Status>, run: seq<Status>, st: Status)
    requires st != UnknownStatus && AllAre(run, st)
    ensures var f := FoldStatus(sts);
            FoldStatus(sts + run) ==
            if run == [] then f else if f == UnknownStatus || f == st || |run| > 1 then st else UnknownStatus
  {
    if run == [] {
      assert sts + run == sts;
    } else {
      var init := run[..|run| - 1];
      FoldRun(sts, init, st);
      assert sts + run == (sts + init) + [st];
      FoldAppend(sts + init, st);
    }
  }

  /** The answers of a device that say st, and all the others. */
  function Pick(ds: seq<Device>, k: Key, st: Status): seq<Device> {
    if ds == [] then []
    else
      var d := ds[|ds| - 1];
      Pick(ds[..|ds| - 1], k, st) + if KeyOf(d) == k && d.status == st then [d] else []
  }

  function Rest(ds: seq<Device>, k: Key): seq<Device> {
    if ds == [] then []
    else
      var d := ds[|ds| - 1];
      Rest(ds[..|ds| - 1], k) + if KeyOf(d) == k && d.status != UnknownStatus then [] else [d]
  }

  lemma TallyAppend(ds: seq<Device>, d: Device, k: Key, st: Status)
    ensures Tally(ds + [d], k, st) == Tally(ds, k, st) + if KeyOf(d) == k && d.status == st then 1 else 0
  {
    hide StatusesOf;
    StatusesAppend(ds, d, k);
    var sts := StatusesOf(ds, k);
    assert multiset(sts + [d.status]) == multiset(sts) + multiset{d.status};
    assert sts + [] == sts;
  }

  lemma PickAppend(ds: seq<Device>, d: Device, k: Key, st: Status)
    ensures Pick(ds + [d], k, st) == if KeyOf(d) == k && d.status == st then Pick(ds, k, st) + [d] else Pick(ds, k, st)
    ensures Rest(ds + [d], k) == if KeyOf(d) == k && d.status != UnknownStatus then Rest(ds, k) else Rest(ds, k) + [d]
  {
    hide KeyOf;
    assert (ds + [d])[..|ds|] == ds;
  }

  lemma {:induction false} PickIs(ds: seq<Device>, k: Key, st: Status)
    ensures |StatusesOf(Pick(ds, k, st), k)| == Tally(ds, k, st) && AllAre(StatusesOf(Pick(ds, k, st), k), st)
  {
    if ds != [] {
      var init, d := ds[..|ds| - 1], ds[|ds| - 1];
      PickIs(init, k, st);
      assert ds == init + [d];
      PickStep(init, d, k, st);
    }
  }

  lemma PickStep(ds: seq<Device>, d: Device, k: Key, st: Status)
    requires |StatusesOf(Pick(ds, k, st), k)| == Tally(ds, k, st) && AllAre(StatusesOf(Pick(ds, k, st), k), st)
    ensures var p := Pick(ds + [d], k, st);
            |StatusesOf(p, k)| == Tally(ds + [d], k, st) && AllAre(StatusesOf(p, k), st)
  {
    hide StatusesOf, Pick, Tally, KeyOf;
    PickAppend(ds, d, k, st);
    TallyAppend(ds, d, k, st);
    StatusesAppend(Pick(ds, k, st), d, k);
  }

  lemma {:induction false} RestIsUnknown(ds: seq<Device>, k: Key)
    ensures AllAre(StatusesOf(Rest(ds, k), k), UnknownStatus)
  {
    if ds != [] {
      var init, d := ds[..|ds| - 1], ds[|ds| - 1];
      RestIsUnknown(init, k);
      assert ds == init + [d];
      RestStep(init, d, k);
    }
  }

  lemma RestStep(ds: seq<Device>, d: Device, k: Key)
    requires AllAre(StatusesOf(Rest(ds, k), k), UnknownStatus)
    ensures AllAre(StatusesOf(Rest(ds + [d], k), k), UnknownStatus)
  {
    hide StatusesOf, Rest, KeyOf;
    PickAppend(ds, d, k, Required);
    StatusesAppend(Rest(ds, k), d, k);
  }

  lemma {:induction false} Parted(ds: seq<Device>, k: Key)
    ensures multiset(Rest(ds, k)) + multiset(Pick(ds, k, Required)) + multiset(Pick(ds, k, Completed)) == multiset(ds)
  {
    if ds != [] {
      var init, d := ds[..|ds| - 1], ds[|ds| - 1];
      Parted(init, k);
      assert ds == init + [d];
      PartedStep(init, d, k);
    }
  }

  lemma PartedStep(ds: seq<Device>, d: Device, k: Key)
    requires multiset(Rest(ds, k)) + multiset(Pick(ds, k, Required)) + multiset(Pick(ds, k, Completed)) == multiset(ds)
    ensures var e := ds + [d];
            multiset(Rest(e, k)) + multiset(Pick(e, k, Required)) + multiset(Pick(e, k, Completed)) == multiset(e)
  {
    hide Rest, Pick, KeyOf;
    PickAppend(ds, d, k, Required);
    PickAppend(ds, d, k, Completed);
    var a, b, c := Rest(ds, k), Pick(ds, k, Required), Pick(ds, k, Completed);
    LastIs(ds, d);
    OneMoreOf(multiset(a), multiset(b), multiset(c), d);
    LastIs(a, d);
    LastIs(b, d);
    LastIs(c, d);
  }

  lemma OneMoreOf(a: multiset<Device>, b: multiset<Device>, c: multiset<Device>, d: Device)
    ensures (a + multiset{d}) + b + c == a + b + c + multiset{d}
    ensures a + (b + multiset{d}) + c == a + b + c + multiset{d}
    ensures a + b + (c + multiset{d}) == a + b + c + multiset{d}
  {
  }

  lemma LastIs(ds: seq<Device>, d: Device)
    ensures multiset(ds + [d]) == multiset(ds) + multiset{d}
  {
  }

  /** All answers, with those of one device that say `first` and then `last` at the end. */
  function Arranged(ds: seq<Device>, k: Key, first: Status, last: Status): seq<Device> {
    Rest(ds, k) + Pick(ds, k, first) + Pick(ds, k, last)
  }

  lemma ArrangedFolds(ds: seq<Device>, k: Key, first: Status, last: Status)
    requires (first == Required && last == Completed) || (first == Completed && last == Required)
    requires Tally(ds, k, first) >= 1 && Tally(ds, k, last) >= 1
    ensures Reordered(ds, Arranged(ds, k, first, last))
    ensures FoldStatus(StatusesOf(Arranged(ds, k, first, last), k)) == if Tally(ds, k, last) == 1 then UnknownStatus else last
  {
    hide StatusesOf, FoldStatus, Tally, Pick, Rest, Reordered, AllAre;
    var p, q, rest := Pick(ds, k, first), Pick(ds, k, last), Rest(ds, k);
    ArrangedReorders(ds, k, first, last);
    PickIs(ds, k, first);
    PickIs(ds, k, last);
    RestIsUnknown(ds, k);
    StatusesConcat(rest + p, q, k);
    StatusesConcat(rest, p, k);
    FoldUnknown(StatusesOf(rest, k));
    FoldRun(StatusesOf(rest, k), StatusesOf(p, k), first);
    FoldRun(StatusesOf(rest, k) + StatusesOf(p, k), StatusesOf(q, k), last);
  }

  lemma ArrangedReorders(ds: seq<Device>, k: Key, first: Status, last: Status)
    requires (first == Required && last == Completed) || (first == Completed && last == Required)
    ensures Reordered(ds, Arranged(ds, k, first, last))
  {
    hide Pick, Rest;
    Parted(ds, k);
    var p, q, rest := Pick(ds, k, first), Pick(ds, k, last), Rest(ds, k);
    assert multiset(rest + p + q) == multiset(rest) + multiset(p) + multiset(q);
  }

  lemma {:induction false} FoldUnknown(sts: seq<Status>)
    requires AllAre(sts, UnknownStatus)
    ensures FoldStatus(sts) == UnknownStatus
  {
    if sts != [] { FoldUnknown(sts[..|sts| - 1]); }
  }

  ghost predicate SameStatus(ds: seq<Device>, es: seq<Device>, k: Key) {
    forall r, t :: r in Merged(ds) && t in Merged(es) && KeyOf(r) == k == KeyOf(t) ==> r.status == t.status
  }

  /** The merged status of a device does not depend on the order of arrival. */
  ghost predicate StatusFixed(ds: seq<Device>, k: Key) {
    forall es :: Reordered(ds, es) ==> SameStatus(ds, es, k)
  }

  lemma ReorderedElements(ds: seq<Device>, es: seq<Device>)
    requires Reordered(ds, es) && Identified(ds)
    ensures Identified(es) && forall d :: d in ds <==> d in es
  {
    forall d ensures d in ds <==> d in es { SameElements(ds, es, d); }
  }

  lemma RecordOf(ds: seq<Device>, k: Key) returns (r: Device)
    requires Identified(ds) && Known(ds, k)
    ensures r in Merged(ds) && KeyOf(r) == k && r.status == FoldStatus(StatusesOf(ds, k))
  {
    hide Merged, StatusesOf, FoldStatus, Identified;
    MergedSummarizes(ds);
    assert Known(Merged(ds), k);
    r :| r in Merged(ds) && KeyOf(r) == k;
    MergedFolds(ds, r);
  }

  lemma SameStatusIs(ds: seq<Device>, es: seq<Device>, k: Key)
    requires Identified(ds) && Known(ds, k) && Reordered(ds, es)
    ensures SameStatus(ds, es, k) <==> FoldStatus(StatusesOf(ds, k)) == FoldStatus(StatusesOf(es, k))
  {
    hide Merged, StatusesOf, FoldStatus, Identified, Reordered;
    ReorderedElements(ds, es);
    var r := RecordOf(ds, k);
    var t := RecordOf(es, k);
    forall x | x in Merged(ds) && KeyOf(x) == k ensures x.status == r.status { MergedFolds(ds, x); }
    forall x | x in Merged(es) && KeyOf(x) == k ensures x.status == t.status { MergedFolds(es, x); }
  }

  /** The merged initialization status of a device is the same for every order of
      arrival if and only if its answers do not disagree, or exactly one says
      Required and exactly one says Completed. */
  lemma StatusFixedIff(ds: seq<Device>, k: Key)
    requires Identified(ds) && Known(ds, k)
    ensures StatusFixed(ds, k) <==> Settled(Tally(ds, k, Required), Tally(ds, k, Completed))
  {
    hide StatusesOf, FoldStatus, Identified, Known, SameStatus, Reordered, Arranged;
    if Settled(Tally(ds, k, Required), Tally(ds, k, Completed)) {
      forall es | Reordered(ds, es) ensures SameStatus(ds, es, k) {
        SameStatusIs(ds, es, k);
        ReorderedStatuses(ds, es, k);
        SettledFold(StatusesOf(ds, k), StatusesOf(es, k));
      }
    } else {
      ArrangedFolds(ds, k, Required, Completed);
      ArrangedFolds(ds, k, Completed, Required);
      SameStatusIs(ds, Arranged(ds, k, Required, Completed), k);
      SameStatusIs(ds, Arranged(ds, k, Completed, Required), k);
    }
  }

  // -------------------------------------------------- what does depend on the order

  function Camera(status: Status): Device {
    Device("UNV", "88:26:3f:7e:7d:da", [], "", "", None, "", None, map[], status)
  }

  lemma ThreeStatuses(a: Device, b: Device, c: Device, k: Key)
    requires KeyOf(a) == k == KeyOf(b) && KeyOf(c) == k
    ensures StatusesOf([a, b, c], k) == [a.status, b.status, c.status]
  {
    hide KeyOf;
    assert [a, b, c] == [a, b] + [c] && [a, b] == [a] + [b] && [a] == [] + [a];
    StatusesAppend([], a, k);
    StatusesAppend([a], b, k);
    StatusesAppend([a, b], c, k);
  }

  lemma ThreeFolded(x: Status, y: Status, z: Status)
    ensures FoldStatus([x, y, z]) == MergeStatus(MergeStatus(x, y), z)
  {
    assert [x, y, z] == [x, y] + [z] && [x, y] == [x] + [y] && [x] == [] + [x];
    FoldAppend([], x);
    FoldAppend([x], y);
    FoldAppend([x, y], z);
  }

  lemma CameraStatuses(x: Status, y: Status, z: Status)
    ensures var ds := [Camera(x), Camera(y), Camera(z)];
            Identified(ds) && FoldStatus(StatusesOf(ds, KeyOf(Camera(Required)))) == MergeStatus(MergeStatus(x, y), z)
  {
    hide StatusesOf, FoldStatus, MergeStatus;
    ThreeStatuses(Camera(x), Camera(y), Camera(z), KeyOf(Camera(Required)));
    ThreeFolded(x, y, z);
  }

  /** Two answers of one camera say Required and one says Completed: the order decides
      between Required and Unknown. */
  lemma StatusDependsOnOrder()
    ensures var k := KeyOf(Camera(Required));
            var ds, es := [Camera(Required), Camera(Completed), Camera(Required)], [Camera(Required), Camera(Required), Camera(Completed)];
            && Reordered(ds, es) && !SameStatus(ds, es, k)
            && (exists r :: r in Merged(ds) && r.status == Required)
            && (exists t :: t in Merged(es) && t.status == UnknownStatus)
  {
    var ds, es := [Camera(Required), Camera(Completed), Camera(Required)], [Camera(Required), Camera(Required), Camera(Completed)];
    var k := KeyOf(Camera(Required));
    hide Merged, StatusesOf, FoldStatus;
    CameraStatuses(Required, Completed, Required);
    CameraStatuses(Required, Required, Completed);
    assert Known(ds, k) by { assert ds[0] in ds; }
    assert Known(es, k) by { assert es[0] in es; }
    SameStatusIs(ds, es, k);
    var r := RecordOf(ds, k);
    var t := RecordOf(es, k);
  }

  /** An answer without a MAC. */
  function Anonymous(serial: string, source: Option<string>): Device {
    Device("UNV", "", [], "", serial, None, "", source, map[], UnknownStatus)
  }

  /** Where MACs are missing and only some answers have a serial number, "the same
      device" is not transitive, and arrival order decides how many records there
      are: one with only the serial number, one with both, one with only the source. */
  lemma MissingMACsDependOnOrder(serial: string, source: string)
    requires serial != ""
    ensures var a, b, c := Anonymous(serial, None), Anonymous(serial, Some(source)), Anonymous("", Some(source));
            && SameDevice(a, b) && SameDevice(b, c) && !SameDevice(a, c) && !Identified([a, b, c])
            && |Merged([a, b, c])| == 1 && |Merged([a, c, b])| == 2
  {
    hide UniqueStrings, Merged, Rank, MergeStatus;
    var a, b, c := Anonymous(serial, None), Anonymous(serial, Some(source)), Anonymous("", Some(source));
    assert c in [a, b, c];
    MergedInTurn(a, b, c);
    MergedApart(a, c, b);
  }

  /** What tells two answers apart: the first of MAC, serial number and, at one address,
      model that both give, and the answering address where they share none of these. */
  lemma PairMerges(a: Device, b: Device)
    ensures |Merged([a, b])| == 1 || |Merged([a, b])| == 2
    ensures a.vendor != b.vendor ==> |Merged([a, b])| == 2
    ensures a.vendor == b.vendor ==>
              var macs, serials := a.mac != "" && b.mac != "", a.serial != "" && b.serial != "";
              var models := a.ip.Some? && a.ip == b.ip && a.model != "" && b.model != "";
              && (macs ==> (|Merged([a, b])| == 1 <==> a.mac == b.mac))
              && (!macs && serials ==> (|Merged([a, b])| == 1 <==> a.serial == b.serial))
              && (!macs && !serials && models ==> (|Merged([a, b])| == 1 <==> a.model == b.model))
              && (!macs && !serials && !models ==> (|Merged([a, b])| == 1 <==> a.source.Some? && a.source == b.source))
  {
    hide UniqueStrings, Sort, MergeDevice;
    SortLength(MergeAll([a, b]));
    Two(a, b);
    assert MergeOne([], a) == [a.(protocols := UniqueStrings(a.protocols))];
  }

  lemma MergedInTurn(a: Device, b: Device, c: Device)
    requires a.protocols == [] && SameDevice(a.(protocols := UniqueStrings([])), b)
    requires SameDevice(MergeDevice(a.(protocols := UniqueStrings([])), b), c)
    ensures |Merged([a, b, c])| == 1
  {
    hide UniqueStrings, Sort, SameDevice, MergeDevice;
    Three(a, b, c);
    SortLength(MergeAll([a, b, c]));
  }

  lemma MergedApart(a: Device, b: Device, c: Device)
    requires a.protocols == []
    requires var p := a.(protocols := UniqueStrings([])); !SameDevice(p, b) && SameDevice(p, c)
    ensures |Merged([a, b, c])| == 2
  {
    hide UniqueStrings, Sort, SameDevice, MergeDevice;
    Three(a, b, c);
    SortLength(MergeAll([a, b, c]));
  }

  lemma SortLength(m: seq<Device>)
    ensures |Sort(m, IPText)| == |m|
  {
    hide Sort;
    SortPermutes(m, IPText);
    assert |multiset(m)| == |m| && |multiset(Sort(m, IPText))| == |Sort(m, IPText)|;
  }

  lemma Two(a: Device, b: Device)
    ensures MergeAll([a, b]) == MergeOne(MergeOne([], a), b)
  {
    hide MergeOne;
    assert [a, b][..1] == [a] && [a][..0] == [];
    assert MergeAll([a]) == MergeOne(MergeAll([]), a);
  }

  lemma Three(a: Device, b: Device, c: Device)
    ensures MergeAll([a, b, c]) == MergeOne(MergeOne(MergeOne([], a), b), c)
  {
    hide MergeOne;
    assert [a, b, c][..2] == [a, b] && [a, b][..1] == [a] && [a][..0] == [];
    assert MergeAll([a]) == MergeOne([], a);
    assert MergeAll([a, b]) == MergeOne(MergeAll([a]), b);
  }
}
