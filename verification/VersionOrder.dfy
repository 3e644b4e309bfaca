/** Release versions of internal/updater/client.go and internal/buildinfo/buildinfo.go,
    and the update request they gate. */
module VersionOrder {
  import opened Decimal
  import opened Options

  /** strings.Split(s, "."). */
  function Split(s: string): (ps: seq<string>)
    ensures |ps| >= 1
  {
    if s == "" then [""]
    else if s[0] == '.' then [""] + Split(s[1..])
    else var rest := Split(s[1..]); [[s[0]] + rest[0]] + rest[1..]
  }

  /** The pattern `^v(0|[1-9][0-9]*)\.(0|[1-9][0-9]*)\.(0|[1-9][0-9]*)$`. */
  ghost predicate Matches(s: string) {
    exists a, b, c :: Canonical(a) && Canonical(b) && Canonical(c) && s == Spell(a, b, c)
  }

  function Spell(a: string, b: string, c: string): string {
    "v" + (a + "." + (b + "." + c))
  }

  predicate ValidVersion(s: string) {
    s != "" && s[0] == 'v' && var ps := Split(s[1..]);
    |ps| == 3 && Canonical(ps[0]) && Canonical(ps[1]) && Canonical(ps[2])
  }

  lemma {:induction false} SplitPlain(s: string)
    requires forall i :: 0 <= i < |s| ==> s[i] != '.'
    ensures Split(s) == [s]
  {
    if s != "" {
      SplitPlain(s[1..]);
      assert [s[0]] + s[1..] == s;
    }
  }

  lemma {:induction false} SplitFirst(a: string, rest: string)
    requires forall i :: 0 <= i < |a| ==> a[i] != '.'
    ensures Split(a + "." + rest) == [a] + Split(rest)
  {
    var s := a + "." + rest;
    if a == "" {
      assert s[1..] == rest;
    } else {
      SplitFirst(a[1..], rest);
      assert s[1..] == a[1..] + "." + rest;
      assert ([a[1..]] + Split(rest))[1..] == Split(rest);
      assert [a[0]] + a[1..] == a;
    }
  }

  lemma SplitSpelled(a: string, b: string, c: string)
    requires Digits(a) && Digits(b) && Digits(c)
    ensures Split(a + "." + (b + "." + c)) == [a, b, c]
  {
    SplitFirst(a, b + "." + c);
    SplitFirst(b, c);
    SplitPlain(c);
  }

  lemma {:induction false} SplitJoins(s: string)
    ensures var ps := Split(s);
            && (|ps| == 1 ==> s == ps[0])
            && (|ps| > 1 ==> exists rest :: s == ps[0] + "." + rest && Split(rest) == ps[1..])
  {
    if s != "" {
      SplitJoins(s[1..]);
      var ps, qs := Split(s), Split(s[1..]);
      if s[0] == '.' {
        assert s == ps[0] + "." + s[1..] && ps[1..] == qs;
      } else {
        assert [s[0]] + s[1..] == s;
        if |qs| > 1 {
          var rest :| s[1..] == qs[0] + "." + rest && Split(rest) == qs[1..];
          assert s == ps[0] + "." + rest && ps[1..] == qs[1..];
        }
      }
    }
  }

  /** The version is spelled by its three parts. */
  lemma ValidIsSpelled(s: string)
    requires ValidVersion(s)
    ensures var ps := Split(s[1..]); s == Spell(ps[0], ps[1], ps[2])
  {
    var t := s[1..];
    var ps := Split(t);
    SplitJoins(t);
    var r :| t == ps[0] + "." + r && Split(r) == ps[1..];
    SplitJoins(r);
    var q :| r == ps[1..][0] + "." + q && Split(q) == ps[1..][1..];
    SplitJoins(q);
    assert s == "v" + t;
  }

  lemma ValidIsMatching(s: string)
    ensures ValidVersion(s) <==> Matches(s)
  {
    if ValidVersion(s) {
      ValidIsSpelled(s);
    }
    if Matches(s) {
      var a, b, c :| Canonical(a) && Canonical(b) && Canonical(c) && s == Spell(a, b, c);
      SplitSpelled(a, b, c);
      assert s[1..] == a + "." + (b + "." + c);
    }
  }

  const MAX_INT: nat := 0x7fff_ffff_ffff_ffff

  datatype Parts = Parts(major: nat, minor: nat, patch: nat)

  function PartsOf(s: string): Parts
    requires ValidVersion(s)
  {
    var ps := Split(s[1..]);
    Parts(Number(ps[0]), Number(ps[1]), Number(ps[2]))
  }

  /** All three parts fit Go's int, so strconv.Atoi succeeds. */
  predicate Fits(s: string)
    requires ValidVersion(s)
  {
    var p := PartsOf(s);
    p.major <= MAX_INT && p.minor <= MAX_INT && p.patch <= MAX_INT
  }

  /** versionParts. */
  function VersionParts(s: string): Option<Parts> {
    if ValidVersion(s) && Fits(s) then Some(PartsOf(s)) else None
  }

  predicate Greater(p: Parts, q: Parts) {
    if p.major != q.major then p.major > q.major
    else if p.minor != q.minor then p.minor > q.minor
    else p.patch > q.patch
  }

  predicate Newer(candidate: string, current: string) {
    var left, right := VersionParts(candidate), VersionParts(current);
    left.Some? && right.Some? && Greater(left.value, right.value)
  }

  function At(p: Parts, i: nat): nat
    requires i < 3
  {
    if i == 0 then p.major else if i == 1 then p.minor else p.patch
  }

  method NewerVersion(candidate: string, current: string) returns (r: bool)
    ensures r == Newer(candidate, current)
  {
    var left, right := VersionParts(candidate), VersionParts(current);
    if left.None? || right.None? { return false; }
    for index := 0 to 3
      invariant forall i :: 0 <= i < index ==> At(left.value, i) == At(right.value, i)
    {
      assert index > 0 ==> At(left.value, 0) == At(right.value, 0);
      assert index > 1 ==> At(left.value, 1) == At(right.value, 1);
      if At(left.value, index) != At(right.value, index) {
        return At(left.value, index) > At(right.value, index);
      }
    }
    assert At(left.value, 0) == At(right.value, 0) && At(left.value, 1) == At(right.value, 1) && At(left.value, 2) == At(right.value, 2);
    return false;
  }

  /** A valid version is determined by its numbers, since no leading zeros are allowed. */
  lemma PartsDetermineVersion(s: string, t: string)
    requires ValidVersion(s) && ValidVersion(t) && PartsOf(s) == PartsOf(t)
    ensures s == t
  {
    hide Itoa, Number;
    ValidIsSpelled(s);
    ValidIsSpelled(t);
    var ps, qs := Split(s[1..]), Split(t[1..]);
    ItoaOfNumber(ps[0]);
    ItoaOfNumber(ps[1]);
    ItoaOfNumber(ps[2]);
    ItoaOfNumber(qs[0]);
    ItoaOfNumber(qs[1]);
    ItoaOfNumber(qs[2]);
  }

  /** Two valid versions are comparable if and only if they are the same string or
      all their parts fit an int; then exactly one of newer, older and identical
      holds (item 11 of Semantic Versioning 2.0.0). */
  lemma NewerIsTotal(s: string, t: string)
    requires ValidVersion(s) && ValidVersion(t)
    ensures !(Newer(s, t) && Newer(t, s)) && (s == t ==> !Newer(s, t))
    ensures s != t ==> (Newer(s, t) || Newer(t, s) <==> Fits(s) && Fits(t))
  {
    if s != t && PartsOf(s) == PartsOf(t) {
      PartsDetermineVersion(s, t);
    }
  }

  lemma NewerIsTransitive(s: string, t: string, u: string)
    requires Newer(s, t) && Newer(t, u)
    ensures Newer(s, u)
  {
  }

  /** The parts of a spelled version are the numbers it was spelled from. */
  lemma SpelledParts(major: nat, minor: nat, patch: nat)
    ensures var s := Spell(Itoa(major), Itoa(minor), Itoa(patch));
            ValidVersion(s) && PartsOf(s) == Parts(major, minor, patch)
  {
    var s := Spell(Itoa(major), Itoa(minor), Itoa(patch));
    assert s[1..] == Itoa(major) + "." + (Itoa(minor) + "." + Itoa(patch));
    SplitSpelled(Itoa(major), Itoa(minor), Itoa(patch));
    ItoaCanonical(major);
    ItoaCanonical(minor);
    ItoaCanonical(patch);
    NumberOfItoa(major);
    NumberOfItoa(minor);
    NumberOfItoa(patch);
  }

  lemma {:induction false} ItoaCanonical(n: nat)
    ensures Canonical(Itoa(n)) && (n > 0 ==> Itoa(n)[0] != '0')
  {
    if n >= 10 {
      ItoaCanonical(n / 10);
    }
  }

  /** Lexicographic order, written out. */
  ghost predicate Above(p: Parts, q: Parts) {
    p.major > q.major || (p.major == q.major && (p.minor > q.minor || (p.minor == q.minor && p.patch > q.patch)))
  }

  lemma NewerIsAbove(s: string, t: string)
    ensures Newer(s, t) <==> ValidVersion(s) && ValidVersion(t) && Fits(s) && Fits(t) && Above(PartsOf(s), PartsOf(t))
  {
  }

  lemma NewerOfParts(s: string, t: string, p: Parts, q: Parts)
    requires ValidVersion(s) && ValidVersion(t) && PartsOf(s) == p && PartsOf(t) == q
    requires p.major <= MAX_INT && p.minor <= MAX_INT && p.patch <= MAX_INT
    requires q.major <= MAX_INT && q.minor <= MAX_INT && q.patch <= MAX_INT
    ensures Newer(s, t) <==> Above(p, q)
  {
    hide PartsOf, ValidVersion, Newer;
    NewerIsAbove(s, t);
  }

  /** Newer is the lexicographic order of the three numbers: for all that fit an int. */
  lemma NewerOfNumbers(a: nat, b: nat, c: nat, d: nat, e: nat, f: nat)
    requires a <= MAX_INT && b <= MAX_INT && c <= MAX_INT && d <= MAX_INT && e <= MAX_INT && f <= MAX_INT
    ensures Newer(Spell(Itoa(a), Itoa(b), Itoa(c)), Spell(Itoa(d), Itoa(e), Itoa(f))) <==> Above(Parts(a, b, c), Parts(d, e, f))
  {
    hide *;
    var s, t := Spell(Itoa(a), Itoa(b), Itoa(c)), Spell(Itoa(d), Itoa(e), Itoa(f));
    SpelledParts(a, b, c);
    SpelledParts(d, e, f);
    NewerOfParts(s, t, Parts(a, b, c), Parts(d, e, f));
  }

  // --------------------------------------------------------------- update requests

  datatype Progress = Idle | Active | Succeeded | Failed

  /** Client, with the request file; `persisted` is the updater's status file. */
  class Client {
    const enabled: bool
    const currentVersion: string
    var requestFile: Option<string>

    constructor (enabled: bool, currentVersion: string)
      ensures this.enabled == enabled && this.currentVersion == currentVersion && requestFile == None
    {
      this.enabled, this.currentVersion, requestFile := enabled, currentVersion, None;
    }

    /** Request: `latest` is the release check's answer, `raced` a request that another
        process published after the check, `io` whether the temporary file could be
        written. */
    method Request(latest: Option<string>, persisted: Progress, raced: Option<string>, io: bool) returns (ok: bool)
      requires raced.Some? ==> requestFile.None?
      modifies this
      ensures old(requestFile).Some? ==> requestFile == old(requestFile)
      ensures raced.Some? ==> requestFile == raced
      ensures requestFile != old(requestFile) && raced.None? ==>
                latest.Some? && ValidVersion(latest.value) && Newer(latest.value, currentVersion)
                && persisted != Active && requestFile == Some(latest.value + "\n")
                && ValidVersion(currentVersion) && Above(PartsOf(latest.value), PartsOf(currentVersion))
      ensures enabled && latest.Some? && Newer(latest.value, currentVersion) && io ==>
                ok && (requestFile.Some? || persisted == Active)
    {
      hide ValidVersion, PartsOf, Newer;
      if latest.Some? { NewerIsAbove(latest.value, currentVersion); }
      var installing := requestFile.Some? || persisted == Active;
      if !enabled || installing || latest.None? {
        if raced.Some? { requestFile := raced; }
        return enabled && installing;
      }
      var newer := NewerVersion(latest.value, currentVersion);
      if raced.Some? { requestFile := raced; }
      if !newer || !ValidVersion(latest.value) { return false; }
      if !io { return false; }
      if requestFile.None? { requestFile := Some(latest.value + "\n"); }
      return true;
    }
  }
}
