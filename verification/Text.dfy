/** Go's string helpers used by the configuration editor: strings.SplitAfter on
    a newline, strings.Join, strings.TrimSpace, strings.TrimSuffix and
    strings.HasPrefix.  A Go string is modelled as a `string` of code points. */
module Text {

  const NEWLINE: char := '\n'

  /** unicode.IsSpace. */
  predicate IsSpace(c: char) {
    || c == ' ' || ('\t' <= c <= '\r') || c == '\U{0085}' || c == '\U{00A0}'
    || c == '\U{1680}' || ('\U{2000}' <= c <= '\U{200A}')
    || c == '\U{2028}' || c == '\U{2029}' || c == '\U{202F}' || c == '\U{205F}' || c == '\U{3000}'
  }

  function TrimLeft(s: string): string {
    if s != "" && IsSpace(s[0]) then TrimLeft(s[1..]) else s
  }

  function TrimRight(s: string): string {
    if s != "" && IsSpace(s[|s| - 1]) then TrimRight(s[..|s| - 1]) else s
  }

  function TrimSpace(s: string): string {
    TrimRight(TrimLeft(s))
  }

  predicate AllSpace(s: string) {
    forall i :: 0 <= i < |s| ==> IsSpace(s[i])
  }

  lemma {:induction false} TrimLeftPad(pad: string, s: string)
    requires AllSpace(pad)
    ensures TrimLeft(pad + s) == TrimLeft(s)
  {
    if pad == "" {
      assert pad + s == s;
    } else {
      assert (pad + s)[1..] == pad[1..] + s;
      TrimLeftPad(pad[1..], s);
    }
  }

  lemma {:induction false} TrimRightPad(s: string, pad: string)
    requires AllSpace(pad)
    ensures TrimRight(s + pad) == TrimRight(s)
  {
    if pad == "" {
      assert s + pad == s;
    } else {
      assert (s + pad)[..|s + pad| - 1] == s + pad[..|pad| - 1];
      TrimRightPad(s, pad[..|pad| - 1]);
    }
  }

  /** Trimming strips exactly the padding around a core that starts and ends
      with a non-space. */
  lemma TrimPadded(left: string, core: string, right: string)
    requires AllSpace(left) && AllSpace(right)
    requires core != "" && !IsSpace(core[0]) && !IsSpace(core[|core| - 1])
    ensures TrimSpace(left + core + right) == core
  {
    assert left + core + right == left + (core + right);
    TrimLeftPad(left, core + right);
    TrimRightPad(core, right);
  }

  lemma {:induction false} TrimLeftPart(s: string) returns (pad: string)
    ensures AllSpace(pad) && s == pad + TrimLeft(s)
    ensures TrimLeft(s) == "" || !IsSpace(TrimLeft(s)[0])
  {
    if s != "" && IsSpace(s[0]) {
      var rest := TrimLeftPart(s[1..]);
      pad := [s[0]] + rest;
      assert s == [s[0]] + s[1..];
    } else {
      pad := "";
    }
  }

  predicate HasPrefix(s: string, prefix: string) {
    prefix <= s
  }

  lemma NotPrefixAt(s: string, prefix: string, k: nat)
    requires k < |s| && k < |prefix| && s[k] != prefix[k]
    ensures !HasPrefix(s, prefix)
  {
  }

  /** strings.TrimSuffix(s, "\n"). */
  function Chomp(s: string): string {
    if s != "" && s[|s| - 1] == NEWLINE then s[..|s| - 1] else s
  }

  /** strings.SplitAfter(s, "\n"): the newline stays on its line, and the last
      piece, which may be empty, is whatever follows the last newline. */
  function Lines(s: string): (ls: seq<string>)
    ensures |ls| >= 1
  {
    if s == "" then [""]
    else if s[0] == NEWLINE then [[NEWLINE]] + Lines(s[1..])
    else var rest := Lines(s[1..]); [[s[0]] + rest[0]] + rest[1..]
  }

  /** strings.Join(lines, ""). */
  function Join(ls: seq<string>): string {
    if ls == [] then "" else ls[0] + Join(ls[1..])
  }

  predicate NoNewline(s: string) {
    forall i :: 0 <= i < |s| ==> s[i] != NEWLINE
  }

  /** A complete line: one newline, at its end. */
  predicate Terminated(l: string) {
    l != "" && l[|l| - 1] == NEWLINE && NoNewline(l[..|l| - 1])
  }

  predicate AllTerminated(ls: seq<string>) {
    forall i :: 0 <= i < |ls| ==> Terminated(ls[i])
  }

  /** What SplitAfter produces: complete lines and an unterminated tail. */
  predicate LineSeq(ls: seq<string>) {
    ls != [] && AllTerminated(ls[..|ls| - 1]) && NoNewline(ls[|ls| - 1])
  }

  /** A slice that starts in the first and ends in the last of three parts. */
  lemma SpliceSlice(a: seq<string>, b: seq<string>, c: seq<string>, i: nat, j: nat)
    requires i <= |a| && |a| + |b| <= j <= |a| + |b| + |c|
    ensures (a + b + c)[i..j] == a[i..] + b + c[..j - |a| - |b|]
  {
    var l, r := (a + b + c)[i..j], a[i..] + b + c[..j - |a| - |b|];
    assert |l| == |r|;
    forall k | 0 <= k < |l| ensures l[k] == r[k] {
      assert l[k] == (a + b + c)[i + k];
    }
  }

  lemma {:induction false} JoinConcat(a: seq<string>, b: seq<string>)
    ensures Join(a + b) == Join(a) + Join(b)
  {
    if a == [] {
      assert a + b == b;
    } else {
      assert (a + b)[1..] == a[1..] + b;
      JoinConcat(a[1..], b);
    }
  }

  lemma JoinOne(s: string)
    ensures Join([s]) == s
  {
    assert Join([s]) == s + Join([]);
  }

  lemma JoinAppend(ls: seq<string>, l: string)
    ensures Join(ls + [l]) == Join(ls) + l
  {
    JoinConcat(ls, [l]);
    JoinOne(l);
  }

  lemma NewlineFirst(rest: seq<string>)
    requires LineSeq(rest)
    ensures LineSeq([[NEWLINE]] + rest) && Join([[NEWLINE]] + rest) == [NEWLINE] + Join(rest)
  {
    var ls := [[NEWLINE]] + rest;
    assert ls[1..] == rest;
    assert ls[..|ls| - 1] == [[NEWLINE]] + rest[..|rest| - 1];
  }

  lemma TerminatedPrefixed(c: char, l: string)
    requires c != NEWLINE && Terminated(l)
    ensures Terminated([c] + l)
  {
    assert ([c] + l)[..|l|] == [c] + l[..|l| - 1];
  }

  lemma CharFirst(c: char, rest: seq<string>)
    requires c != NEWLINE && LineSeq(rest)
    ensures LineSeq([[c] + rest[0]] + rest[1..])
  {
    hide Terminated;
    var ls := [[c] + rest[0]] + rest[1..];
    var n := |rest| - 1;
    forall i | 0 <= i < n ensures Terminated(ls[i]) {
      assert Terminated(rest[..n][i]);
      if i == 0 { TerminatedPrefixed(c, rest[0]); }
    }
    assert ls[n] == if n == 0 then [c] + rest[0] else rest[n];
  }

  lemma CharJoins(c: char, rest: seq<string>)
    requires rest != []
    ensures Join([[c] + rest[0]] + rest[1..]) == [c] + Join(rest)
  {
    var ls := [[c] + rest[0]] + rest[1..];
    assert ls[1..] == rest[1..];
  }

  lemma {:induction false} LinesProper(s: string)
    ensures LineSeq(Lines(s)) && Join(Lines(s)) == s
  {
    if s != "" {
      LinesProper(s[1..]);
      hide LineSeq, Join;
      var rest := Lines(s[1..]);
      if s[0] == NEWLINE { NewlineFirst(rest); } else { CharFirst(s[0], rest); CharJoins(s[0], rest); }
      assert s == [s[0]] + s[1..];
    }
  }

  lemma {:induction false} LinesPlain(s: string)
    requires NoNewline(s)
    ensures Lines(s) == [s]
  {
    if s != "" {
      LinesPlain(s[1..]);
      assert [s[0]] + s[1..] == s;
    }
  }

  lemma {:induction false} LinesPrependLine(l: string, s: string)
    requires Terminated(l)
    ensures Lines(l + s) == [l] + Lines(s)
  {
    if |l| == 1 {
      assert (l + s)[1..] == s;
      assert l == [NEWLINE];
    } else {
      var t := l[1..];
      assert t[..|t| - 1] == l[..|l| - 1][1..];
      assert l[..|l| - 1][0] == l[0];
      LinesPrependLine(t, s);
      assert (l + s)[1..] == t + s;
      assert ([t] + Lines(s))[1..] == Lines(s);
      assert [l[0]] + t == l;
    }
  }

  /** Splitting inverts joining on every sequence that SplitAfter can produce,
      so a file and its lines carry the same information. */
  lemma {:induction false} LinesOfJoin(ls: seq<string>)
    requires LineSeq(ls)
    ensures Lines(Join(ls)) == ls
  {
    if |ls| == 1 {
      JoinOne(ls[0]);
      LinesPlain(ls[0]);
    } else {
      var rest := ls[1..];
      assert rest[..|rest| - 1] == ls[..|ls| - 1][1..];
      assert ls[..|ls| - 1][0] == ls[0];
      LinesOfJoin(rest);
      LinesPrependLine(ls[0], Join(rest));
      assert ls == [ls[0]] + rest;
    }
  }

  /** The first index from `from` on whose line satisfies `p`, or |ls|. */
  function FirstIndex(ls: seq<string>, from: nat, p: string -> bool): (k: nat)
    requires from <= |ls|
    ensures from <= k <= |ls|
    decreases |ls| - from
  {
    if from == |ls| || p(ls[from]) then from else FirstIndex(ls, from + 1, p)
  }

  /** `k` is that index. */
  ghost predicate IsFirst(ls: seq<string>, from: nat, p: string -> bool, k: nat) {
    && from <= k <= |ls|
    && (k < |ls| ==> p(ls[k]))
    && (forall i :: from <= i < k ==> !p(ls[i]))
  }

  lemma {:induction false} FirstIndexIs(ls: seq<string>, from: nat, p: string -> bool, k: nat)
    requires from <= |ls|
    ensures FirstIndex(ls, from, p) == k <==> IsFirst(ls, from, p, k)
    decreases |ls| - from
  {
    if from < |ls| && !p(ls[from]) {
      FirstIndexIs(ls, from + 1, p, k);
    }
  }
}
