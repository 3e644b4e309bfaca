/** Laws of the `paths` editor that hold for every file: what a spliced block
    looks like to a later edit, and when set-then-delete and set-then-set are
    exact. */
module PathsLaws {
  import opened Text
  import opened PathsEditor

  // ----------------------------------------------------------- well-formed input

  predicate NameChar(c: char) {
    ('A' <= c <= 'Z') || ('a' <= c <= 'z') || ('0' <= c <= '9') || c == '_' || c == '-'
  }

  /** managedPathNamePattern. */
  predicate ValidName(name: string) {
    1 <= |name| <= 100 && forall i :: 0 <= i < |name| ==> NameChar(name[i])
  }

  /** The fields of an update are single-line, as the URL parser and the
      analog-source patterns guarantee. */
  predicate SingleLine(u: PathUpdate) {
    NoNewline(u.source) && NoNewline(u.runOnDemand) && NoNewline(u.startTimeout) && NoNewline(u.closeAfter)
  }

  function SetText(content: string, name: string, u: PathUpdate): Replacement {
    ReplaceBlock(content, name, RenderBlock(name, u))
  }

  function Tail(ls: seq<string>): string
    requires ls != []
  {
    ls[|ls| - 1]
  }

  // ------------------------------------------------------------- single lines

  lemma ChompTerminated(l: string)
    requires NoNewline(l)
    ensures Chomp(l + "\n") == l && Chomp(l) == l && Terminated(l + "\n")
  {
    assert (l + "\n")[..|l|] == l;
  }

  lemma PathsLineEndsSection(l: string)
    ensures IsPathsLine(l) ==> EndsSection(l)
  {
    var line := Chomp(l);
    HashStays(line);
    assert TrimSpace("") == "";
  }

  lemma HashStays(s: string)
    ensures s != "" && s[0] == '#' ==> TrimSpace(s) != "" && TrimSpace(s)[0] == '#'
  {
    TrimRightPrefix(s);
  }

  lemma {:induction false} TrimRightPrefix(s: string)
    ensures TrimRight(s) <= s
    ensures s != "" && !IsSpace(s[0]) ==> TrimRight(s) != ""
  {
    if s != "" && IsSpace(s[|s| - 1]) {
      TrimRightPrefix(s[..|s| - 1]);
    }
  }

  lemma NameTrims(name: string)
    requires ValidName(name)
    ensures !IsSpace(name[0]) && !IsSpace(name[|name| - 1])
    ensures NoNewline(name)
  {
  }

  lemma CommentLineFacts(name: string)
    requires ValidName(name)
    ensures Terminated(CommentLine(name))
    ensures TrimSpace(CommentLine(name)) == ManagedComment(name)
    ensures !Names(CommentLine(name), name)
    ensures !EndsSection(CommentLine(name))
  {
    NameTrims(name);
    var c := ManagedComment(name);
    assert c[|c| - 1] == name[|name| - 1];
    TrimPadded("  ", c, "\n");
    TrimPadded("  ", c, "");
    ChompTerminated("  " + c);
    assert "  " + c + "" == "  " + c;
    assert c[0] == '#' && (name + ":")[0] == name[0];
  }

  lemma HeadLineFacts(name: string)
    requires ValidName(name)
    ensures Terminated(HeadLine(name))
    ensures Names(HeadLine(name), name)
    ensures !EndsSection(HeadLine(name))
  {
    NameTrims(name);
    TrimPadded("  ", name + ":", "");
    assert "  " + (name + ":") + "" == "  " + name + ":";
    ChompTerminated("  " + name + ":");
    assert HeadLine(name) == "  " + name + ":" + "\n";
  }

  lemma {:induction false} DoubleQuotesSingleLine(v: string)
    requires NoNewline(v)
    ensures NoNewline(DoubleQuotes(v))
  {
    if v != "" {
      DoubleQuotesSingleLine(v[1..]);
    }
  }

  predicate BodyLine(l: string) {
    Terminated(l) && !EndsBlock(l) && !EndsSection(l)
  }

  predicate CleanField(f: Field) {
    NoNewline(f.key) && NoNewline(f.value)
  }

  lemma FieldLineFacts(f: Field)
    requires CleanField(f)
    ensures BodyLine(f.Line())
  {
    var l := "    " + f.key + f.value;
    ChompTerminated(l);
    assert l[..4] == "    ";
    assert "    " <= l && "  " <= l && " " <= l;
  }

  lemma {:induction false} KeptBody(fields: seq<Field>)
    requires forall i :: 0 <= i < |fields| ==> CleanField(fields[i])
    ensures forall i :: 0 <= i < |Kept(fields)| ==> BodyLine(Kept(fields)[i])
  {
    if fields != [] {
      FieldLineFacts(fields[0]);
      KeptBody(fields[1..]);
    }
  }

  lemma CleanFields(u: PathUpdate)
    requires SingleLine(u)
    ensures forall i :: 0 <= i < |Fields(u)| ==> CleanField(Fields(u)[i])
  {
    hide YamlScalar;
    QuotedSingleLine(u.source);
    QuotedSingleLine(u.runOnDemand);
  }

  lemma QuotedSingleLine(v: string)
    requires NoNewline(v)
    ensures NoNewline(YamlScalar(v))
  {
    DoubleQuotesSingleLine(v);
  }

  lemma BodyLinesFacts(u: PathUpdate)
    requires SingleLine(u)
    ensures forall i :: 0 <= i < |BodyLines(u)| ==> BodyLine(BodyLines(u)[i])
  {
    CleanFields(u);
    hide Fields, BodyLine, CleanField;
    KeptBody(Fields(u));
  }

  /** What every rendered block looks like to the scanner. */
  ghost predicate IsBlock(b: seq<string>, name: string) {
    && |b| >= 2
    && AllTerminated(b)
    && TrimSpace(b[0]) == ManagedComment(name) && !Names(b[0], name)
    && Names(b[1], name)
    && (forall i :: 2 <= i < |b| ==> !EndsBlock(b[i]))
    && (forall i :: 0 <= i < |b| ==> !EndsSection(b[i]))
  }

  lemma RenderedIsBlock(name: string, u: PathUpdate)
    requires ValidName(name) && SingleLine(u)
    ensures IsBlock(BlockLines(name, u), name)
  {
    hide TrimSpace, Names, EndsBlock, EndsSection, Terminated, BodyLines, SingleLine, ValidName;
    CommentLineFacts(name);
    HeadLineFacts(name);
    BodyLinesFacts(u);
    var b := BlockLines(name, u);
    forall i | 2 <= i < |b| ensures BodyLine(b[i]) {
      assert b[i] == BodyLines(u)[i - 2];
    }
  }

  // ------------------------------------------------------------------ splices

  /** Replacing lines inside the section by lines that cannot end it moves the
      section's end and nothing else. */
  lemma SectionSplice(a: seq<string>, x: seq<string>, c: seq<string>, y: seq<string>, start: nat, end: nat)
    requires IsSection(a + x + c, start, end)
    requires start < |a| && |a| + |x| <= end
    requires forall i :: 0 <= i < |y| ==> !EndsSection(y[i])
    ensures IsSection(a + y + c, start, end - |x| + |y|)
  {
    hide IsPathsLine, EndsSection;
    var before, after := a + x + c, a + y + c;
    var shift := |y| - |x|;
    assert after[start] == a[start] == before[start];
    forall i | 0 <= i < |after| && i != start
      ensures !IsPathsLine(after[i])
    {
      SplicedLine(a, x, c, y, i);
      if |a| <= i < |a| + |y| { PathsLineEndsSection(after[i]); }
    }
    forall i | start < i < end + shift
      ensures !EndsSection(after[i])
    {
      SplicedLine(a, x, c, y, i);
    }
    if end + shift < |after| {
      SplicedLine(a, x, c, y, end + shift);
    }
  }

  lemma SplicedLine(a: seq<string>, x: seq<string>, c: seq<string>, y: seq<string>, i: nat)
    requires i < |a + y + c|
    ensures i < |a| ==> (a + y + c)[i] == (a + x + c)[i]
    ensures |a| <= i < |a| + |y| ==> (a + y + c)[i] == y[i - |a|]
    ensures i >= |a| + |y| ==> (a + y + c)[i] == (a + x + c)[i - |y| + |x|]
  {
  }

  lemma FindSplice(a: seq<string>, x: seq<string>, c: seq<string>, y: seq<string>, s: Section, after: seq<string>)
    requires s.Section? && FindSection(a + x + c) == s
    requires s.start < |a| && |a| + |x| <= s.end
    requires forall i :: 0 <= i < |y| ==> !EndsSection(y[i])
    requires after == a + y + c
    ensures FindSection(after) == Section(s.start, s.end - |x| + |y|)
  {
    hide FindSection, EndsSection, IsPathsLine;
    SectionFound(a + x + c, s.start, s.end);
    SectionSplice(a, x, c, y, s.start, s.end);
    SectionFound(after, s.start, s.end - |x| + |y|);
  }

  /** Block `b` sits in the section between `p` and `q`, and nothing of this
      name comes before it. */
  ghost predicate BlockInSection(p: seq<string>, b: seq<string>, q: seq<string>, r: seq<string>, name: string, s: Section) {
    && r == p + b + q
    && IsBlock(b, name)
    && FindSection(r) == s && s.Section?
    && s.start < |p| && |p| + |b| <= s.end
    && (forall i :: s.start < i < |p| ==> !Names(p[i], name))
    && (|p| + |b| < s.end ==> EndsBlock(q[0]))
  }

  lemma OwnBlockIsMatched(p: seq<string>, b: seq<string>, q: seq<string>, r: seq<string>, name: string, s: Section)
    requires BlockInSection(p, b, q, r, name, s)
    ensures MatchAt(r, s, name) == |p| + 1
  {
    hide FindSection, EndsBlock, EndsSection, TrimSpace, Names, MatchAt, AllTerminated, ManagedComment;
    assert forall i :: 0 <= i < |p| ==> r[i] == p[i];
    assert r[|p|] == b[0] && r[|p| + 1] == b[1];
    MatchAtIs(r, s, name, |p| + 1);
  }

  lemma OwnBlockEnds(p: seq<string>, b: seq<string>, q: seq<string>, r: seq<string>, name: string, s: Section)
    requires BlockInSection(p, b, q, r, name, s)
    ensures CutTo(r, s, |p| + 1) == |p| + |b|
  {
    assert forall i :: |p| + 1 < i < |p| + |b| ==> r[i] == b[i - |p|];
    if |p| + |b| < s.end {
      assert r[|p| + |b|] == q[0];
    }
    CutToIs(r, s, |p| + 1, |p| + |b|);
  }

  /** A rendered block in a section is found, and cut out whole, by the next removal. */
  lemma OwnBlockIsCut(p: seq<string>, b: seq<string>, q: seq<string>, r: seq<string>, name: string, s: Section, content: string)
    requires BlockInSection(p, b, q, r, name, s)
    requires Lines(content) == r
    ensures RemoveBlock(content, name) == Removal(Join(p + q), true)
  {
    hide MatchAt, CutTo, FindSection, Lines, Join, TrimSpace, Names, EndsBlock, EndsSection, AllTerminated, ManagedComment;
    OwnBlockIsMatched(p, b, q, r, name, s);
    OwnBlockEnds(p, b, q, r, name, s);
    assert r[|p|] == b[0];
    assert r[..|p|] == p && r[|p| + |b|..] == q;
  }

  lemma JoinThree(p: seq<string>, b: seq<string>, q: seq<string>)
    ensures Join(p + b + q) == Join(p) + Join(b) + Join(q)
  {
    JoinConcat(p + b, q);
    JoinConcat(p, b);
  }

  lemma LineSeqSplice(p: seq<string>, b: seq<string>, q: seq<string>)
    requires AllTerminated(p) && AllTerminated(b) && LineSeq(q)
    ensures LineSeq(p + b + q)
  {
    var r := p + b + q;
    assert r[|r| - 1] == q[|q| - 1];
    forall i | 0 <= i < |r| - 1 ensures Terminated(r[i]) {
      if i < |p| {
        assert r[i] == p[i];
      } else if i < |p| + |b| {
        assert r[i] == b[i - |p|];
      } else {
        assert r[i] == q[..|q| - 1][i - |p| - |b|];
      }
    }
  }

  lemma LineSeqParts(ls: seq<string>, k: nat)
    requires LineSeq(ls) && k < |ls|
    ensures AllTerminated(ls[..k]) && LineSeq(ls[k..])
  {
    var q := ls[k..];
    assert q[|q| - 1] == ls[|ls| - 1];
    forall i | 0 <= i < |q| - 1 ensures Terminated(q[i]) {
      assert q[i] == ls[..|ls| - 1][i + k];
    }
    forall i | 0 <= i < k ensures Terminated(ls[i]) {
      assert ls[i] == ls[..|ls| - 1][i];
    }
  }

  lemma {:induction false} JoinEndsWithNewline(ls: seq<string>)
    requires ls != [] && AllTerminated(ls)
    ensures EndsWithNewline(Join(ls))
  {
    if |ls| == 1 {
      JoinOne(ls[0]);
    } else {
      JoinEndsWithNewline(ls[1..]);
    }
  }

  // ------------------------------------------------------------- one deletion

  /** The lines left when x is cut out of a + x + c. */
  function Cut(a: seq<string>, c: seq<string>): seq<string> {
    if c == [] then a + [""] else a + c
  }

  lemma CutIsLineSeq(a: seq<string>, x: seq<string>, c: seq<string>)
    requires LineSeq(a + x + c) && x != []
    ensures Lines(Join(a + c)) == Cut(a, c)
  {
    hide Lines, Join, LineSeq, AllTerminated;
    var ls := a + x + c;
    assert ls[..|a|] == a;
    LineSeqParts(ls, |a|);
    BlankIsLineSeq();
    if c == [] {
      LineSeqSplice(a, [], [""]);
      assert a + [] + [""] == Cut(a, c);
      JoinAppend(a, "");
      assert a + c == a && Join(Cut(a, c)) == Join(a);
    } else {
      assert ls[|a| + |x|..] == c;
      LineSeqParts(ls, |a| + |x|);
      LineSeqSplice(a, [], c);
      assert a + [] + c == Cut(a, c);
    }
    LinesOfJoin(Cut(a, c));
  }

  lemma BlankIsLineSeq()
    ensures LineSeq([""]) && AllTerminated([])
  {
  }

  lemma CutSection(a: seq<string>, x: seq<string>, c: seq<string>, s: Section, after: seq<string>)
    requires s.Section? && FindSection(a + x + c) == s
    requires s.start < |a| && |a| + |x| <= s.end && x != []
    requires after == Cut(a, c)
    ensures FindSection(after) == Section(s.start, s.end - |x| + (if c == [] then 1 else 0))
  {
    if c == [] {
      assert a + [""] + c == after;
      FindSplice(a, x, c, [""], s, after);
    } else {
      assert a + [] + c == after;
      FindSplice(a, x, c, [], s, after);
    }
  }

  /** The run of lines that a removal cuts out. */
  ghost predicate IsCut(ls: seq<string>, s: Section, a: seq<string>, x: seq<string>, c: seq<string>) {
    && ls == a + x + c && x != []
    && s.Section? && FindSection(ls) == s && s.start < |a| && |a| + |x| <= s.end
  }

  /** The lines that belong to an entry: its managed comment, if it has one, its key
      line, and the lines behind it that do not end a block. */
  ghost predicate OwnLines(x: seq<string>, name: string) {
    exists k :: 0 <= k <= 1 && k < |x| && KeyLineAt(x, k, name)
  }

  ghost predicate KeyLineAt(x: seq<string>, k: nat, name: string)
    requires k < |x|
  {
    && Names(x[k], name)
    && (forall i :: 0 <= i < k ==> TrimSpace(x[i]) == ManagedComment(name))
    && (forall i :: k < i < |x| ==> !EndsBlock(x[i]))
  }

  lemma CutIsOwn(ls: seq<string>, s: Section, name: string, index: nat, from: nat, to: nat)
    requires s.Section? && s.start < s.end <= |ls| && index == MatchAt(ls, s, name) < s.end
    requires from == CutFrom(ls, s, name, index) && to == CutTo(ls, s, index)
    ensures OwnLines(ls[from..to], name) && (to < s.end ==> EndsBlock(ls[to]))
  {
    hide Names, EndsBlock, TrimSpace, ManagedComment, MatchAt;
    var x, k, sec := ls[from..to], index - from, ls[..s.end];
    MatchAtFirst(ls, s, name);
    FirstIndexIs(sec, index + 1, EndsBlock, to);
    forall i | k < i < |x| ensures !EndsBlock(x[i]) {
      assert x[i] == sec[from + i];
    }
    assert KeyLineAt(x, k, name);
  }

  /** A removal that found its entry cut exactly that entry's lines out of the section,
      up to the next line that ends a block, and the section of what is left starts
      at the same line. */
  lemma RemovedLines(content: string, ls: seq<string>, name: string)
    returns (s: Section, a: seq<string>, x: seq<string>, c: seq<string>, after: seq<string>)
    requires ls == Lines(content)
    requires RemoveBlock(content, name).Removal? && RemoveBlock(content, name).found
    ensures IsCut(ls, s, a, x, c)
    ensures MatchAt(ls, s, name) < s.end && |a| == CutFrom(ls, s, name, MatchAt(ls, s, name)) && |a| + |x| == CutTo(ls, s, MatchAt(ls, s, name))
    ensures OwnLines(x, name) && (|a| + |x| < s.end ==> EndsBlock(c[0]))
    ensures RemoveBlock(content, name).text == Join(a + c)
    ensures after == Cut(a, c) == Lines(RemoveBlock(content, name).text)
    ensures FindSection(after) == Section(s.start, s.end - |x| + (if c == [] then 1 else 0))
  {
    hide Lines, Join, FindSection, MatchAt, CutFrom, CutTo, Cut, LineSeq, OwnLines, EndsBlock;
    LinesProper(content);
    s := FindSection(ls);
    var index := MatchAt(ls, s, name);
    var from, to := CutFrom(ls, s, name, index), CutTo(ls, s, index);
    a, x, c := ls[..from], ls[from..to], ls[to..];
    assert ls == a + x + c;
    after := Cut(a, c);
    CutIsLineSeq(a, x, c);
    CutSection(a, x, c, s, after);
    CutIsOwn(ls, s, name, index, from, to);
  }

  lemma RemovalKeepsSection(content: string, name: string)
    requires RemoveBlock(content, name).Removal?
    ensures FindSection(Lines(RemoveBlock(content, name).text)).Section?
  {
    if RemoveBlock(content, name).found {
      var _, _, _, _, _ := RemovedLines(content, Lines(content), name);
    }
  }

  // ------------------------------------------------------------ one insertion

  /** The block would be written right after an unterminated last line. */
  predicate OpenEnded(ls: seq<string>) {
    ls != [] && Tail(ls) != "" && var s := FindSection(ls); s.Section? && InsertAt(ls, s) == |ls|
  }

  /** Where the block's lines go in the line sequence. */
  function InsertPoint(ls: seq<string>): (k: nat)
    requires ls != [] && FindSection(ls).Section?
    ensures FindSection(ls).start <= k < |ls|
  {
    var at := InsertAt(ls, FindSection(ls));
    if at == |ls| then |ls| - 1 else at
  }

  lemma SpliceText(w: seq<string>, at: nat, p: nat, b: seq<string>)
    requires w != [] && at <= |w| && p == (if at == |w| then |w| - 1 else at)
    requires at == |w| ==> Tail(w) == ""
    ensures Join(w[..at]) + Join(b) + Join(w[at..]) == Join(w[..p] + b + w[p..])
    ensures Join(w[..at]) == Join(w[..p])
  {
    JoinThree(w[..p], b, w[p..]);
    if at == |w| {
      assert w[..at] == w[..p] + [""];
      assert w[p..] == [""] && w[at..] == [];
      JoinAppend(w[..p], "");
      JoinOne("");
    }
  }

  /** The lines of a file after an insertion that does not touch its last line. */
  lemma SpliceLines(w: seq<string>, at: nat, p: nat, b: seq<string>)
    requires LineSeq(w) && AllTerminated(b)
    requires at <= |w| && p == (if at == |w| then |w| - 1 else at)
    requires at == |w| ==> Tail(w) == ""
    ensures Lines(Join(w[..at]) + Join(b) + Join(w[at..])) == w[..p] + b + w[p..]
    ensures p > 0 ==> EndsWithNewline(Join(w[..at]))
  {
    SpliceText(w, at, p, b);
    LineSeqParts(w, p);
    LineSeqSplice(w[..p], b, w[p..]);
    LinesOfJoin(w[..p] + b + w[p..]);
    if p > 0 { JoinEndsWithNewline(w[..p]); }
  }

  /** Setting a path writes exactly the rendered lines, in front of `all_others`
      or at the end of the section, and keeps every line that the removal left. */
  lemma SetLines(content: string, name: string, u: PathUpdate)
    requires ValidName(name) && SingleLine(u)
    requires RemoveBlock(content, name).Removal? && !OpenEnded(Lines(RemoveBlock(content, name).text))
    ensures SetText(content, name, u).Replacement?
    ensures var w := Lines(RemoveBlock(content, name).text);
            && FindSection(w).Section?
            && Lines(SetText(content, name, u).text) == w[..InsertPoint(w)] + BlockLines(name, u) + w[InsertPoint(w)..]
  {
    hide Lines, Join, FindSection, RemoveBlock, BlockLines, LineSeq, InsertAt;
    RemovalKeepsSection(content, name);
    RenderedLines(name, u);
    RenderedIsBlock(name, u);
    var without := RemoveBlock(content, name).text;
    var w := Lines(without);
    LinesProper(without);
    SpliceLines(w, InsertAt(w, FindSection(w)), InsertPoint(w), BlockLines(name, u));
  }

  lemma AllOthersEndsBlock(l: string)
    requires IsAllOthers(l)
    ensures EndsBlock(l)
  {
    var line := Chomp(l);
    assert line[2] == "  all_others:"[2];
    NotPrefixAt(line, "    ", 2);
    assert line[..2] == "  ";
  }

  lemma AfterPathsLine(w: seq<string>, o: Section)
    requires w != [] && FindSection(w) == o && o.Section? && Tail(w) == ""
    ensures o.start < |w| - 1
  {
    SectionFound(w, o.start, o.end);
    assert TrimSpace("") == "";
  }

  /** After such an insertion the block is the first of its name in the section. */
  lemma InsertedBlock(w: seq<string>, name: string, b: seq<string>, o: Section, p: nat, r: seq<string>) returns (s: Section)
    requires w != [] && FindSection(w) == o && o.Section? && !OpenEnded(w) && p == InsertPoint(w)
    requires IsBlock(b, name) && r == w[..p] + b + w[p..]
    requires forall i :: o.start < i < o.end ==> !Names(w[i], name)
    ensures BlockInSection(w[..p], b, w[p..], r, name, s)
  {
    hide FindSection, EndsBlock, EndsSection, Names, TrimSpace, ManagedComment, AllTerminated;
    s := Section(o.start, o.end + |b|);
    InsertPointEndsBlock(w, o, p);
    assert w == w[..p] + [] + w[p..];
    FindSplice(w[..p], [], w[p..], b, o, r);
    assert forall i :: 0 <= i < p ==> w[..p][i] == w[i];
    assert p < |w| ==> w[p..][0] == w[p];
  }

  lemma InsertPointEndsBlock(w: seq<string>, o: Section, p: nat)
    requires w != [] && FindSection(w) == o && o.Section? && !OpenEnded(w) && p == InsertPoint(w)
    ensures o.start < p && (p < o.end ==> EndsBlock(w[p]))
  {
    var at := InsertAt(w, o);
    if at == |w| {
      AfterPathsLine(w, o);
    } else if at < o.end {
      FirstIndexIs(w[..o.end], o.start + 1, IsAllOthers, at);
      AllOthersEndsBlock(w[at]);
    }
  }

  /** No line of the section trims to `name:`. */
  predicate NotNamed(content: string, name: string) {
    var ls := Lines(content);
    FindSection(ls).Section? && MatchAt(ls, FindSection(ls), name) == FindSection(ls).end
  }

  lemma InsertedThenRemoved(w: seq<string>, o: Section, p: nat, name: string, b: seq<string>, t: string)
    requires w != [] && FindSection(w) == o && o.Section? && !OpenEnded(w) && p == InsertPoint(w)
    requires MatchAt(w, o, name) == o.end
    requires IsBlock(b, name)
    requires Lines(t) == w[..p] + b + w[p..]
    ensures RemoveBlock(t, name) == Removal(Join(w), true)
  {
    hide FindSection, MatchAt, Names, IsBlock, Lines, Join, OpenEnded, InsertPoint;
    var r := w[..p] + b + w[p..];
    MatchAtFirst(w, o, name);
    var s := InsertedBlock(w, name, b, o, p, r);
    OwnBlockIsCut(w[..p], b, w[p..], r, name, s, t);
    assert w[..p] + w[p..] == w;
  }

  /** Deleting what was just set gives back the text the removal had left. */
  lemma SetThenRemove(content: string, name: string, u: PathUpdate)
    requires ValidName(name) && SingleLine(u)
    requires RemoveBlock(content, name).Removal? && !OpenEnded(Lines(RemoveBlock(content, name).text))
    requires NotNamed(RemoveBlock(content, name).text, name)
    ensures SetText(content, name, u).Replacement?
    ensures RemoveBlock(SetText(content, name, u).text, name) == Removal(RemoveBlock(content, name).text, true)
  {
    var without := RemoveBlock(content, name).text;
    SetLines(content, name, u);
    RenderedIsBlock(name, u);
    InsertedThenRemoved(Lines(without), FindSection(Lines(without)), InsertPoint(Lines(without)), name, BlockLines(name, u), SetText(content, name, u).text);
    LinesProper(without);
  }

  // ------------------------------------------------- unterminated last lines

  /** ls with its unterminated last line completed. */
  function Completed(ls: seq<string>): seq<string>
    requires ls != []
  {
    ls[..|ls| - 1] + [Tail(ls) + "\n", ""]
  }

  lemma CompletedLines(content: string, ls: seq<string>)
    requires ls == Lines(content)
    ensures Lines(content + "\n") == Completed(ls)
  {
    LinesProper(content);
    hide Lines, Join;
    var k, t := |ls| - 1, Tail(ls);
    LineSeqParts(ls, k);
    ChompTerminated(t);
    assert AllTerminated([t + "\n"]) && LineSeq([""]);
    LineSeqSplice(ls[..k], [t + "\n"], [""]);
    var c := ls[..k] + [t + "\n"] + [""];
    assert c == Completed(ls);
    LinesOfJoin(c);
    JoinThree(ls[..k], [t + "\n"], [""]);
    JoinOne(t + "\n");
    JoinOne("");
    assert ls == ls[..k] + [t];
    JoinAppend(ls[..k], t);
    assert Join(c) == content + "\n";
  }

  lemma CompletedTail(t: string)
    requires NoNewline(t)
    ensures Chomp(t + "\n") == Chomp(t) && !EndsSection("") && (EndsSection(t + "\n") <==> EndsSection(t))
  {
    ChompTerminated(t);
  }

  lemma CompletedSection(ls: seq<string>, s: Section, c: seq<string>)
    requires LineSeq(ls) && s.Section? && FindSection(ls) == s && s.start + 1 < s.end == |ls|
    requires c == Completed(ls)
    ensures FindSection(c) == Section(s.start, s.end + 1)
    ensures forall i :: s.start < i < |ls| ==> Chomp(c[i]) == Chomp(ls[i])
  {
    hide FindSection, EndsSection, IsPathsLine, Chomp, NoNewline, AllTerminated;
    var k, t := |ls| - 1, Tail(ls);
    SectionFound(ls, s.start, s.end);
    assert !EndsSection(t);
    CompletedTail(t);
    assert ls == ls[..k] + [t] + [];
    assert c == ls[..k] + [t + "\n", ""] + [];
    assert forall i :: 0 <= i < k ==> c[i] == ls[i];
    assert c[k] == t + "\n";
    FindSplice(ls[..k], [Tail(ls)], [], [Tail(ls) + "\n", ""], s, c);
  }

  lemma UnterminatedText(ls: seq<string>, content: string)
    requires LineSeq(ls) && Join(ls) == content && Tail(ls) != ""
    ensures !EndsWithNewline(content)
  {
    var k := |ls| - 1;
    assert ls == ls[..k] + [Tail(ls)];
    JoinAppend(ls[..k], Tail(ls));
    assert content[|content| - 1] == Tail(ls)[|Tail(ls)| - 1];
  }

  lemma CompletedMatch(ls: seq<string>, s: Section, c: seq<string>, s': Section, name: string)
    requires ls != [] && c == Completed(ls)
    requires s.Section? && s'.Section? && s.start == s'.start && s.start < s.end == |ls| && s'.end == |c|
    requires MatchAt(ls, s, name) == |ls|
    requires forall i :: s.start < i < |ls| ==> Chomp(c[i]) == Chomp(ls[i])
    ensures MatchAt(c, s', name) == |c|
  {
    MatchAtFirst(ls, s, name);
    assert TrimSpace(Chomp("")) == "";
    MatchAtIs(c, s', name, |c|);
  }

  /** When the name is absent and the section has lines, the separating newline
      makes the edit the same as on the completed file. */
  lemma SetCompletes(content: string, name: string, u: PathUpdate, s: Section)
    requires NotNamed(content, name) && OpenEnded(Lines(content))
    requires s == FindSection(Lines(content)) && s.start + 1 < |Lines(content)|
    ensures NotNamed(content + "\n", name) && !OpenEnded(Lines(content + "\n"))
    ensures SetText(content, name, u) == Replacement(content + "\n" + RenderBlock(name, u))
    ensures SetText(content + "\n", name, u) == SetText(content, name, u)
  {
    hide Lines, Join, FindSection, MatchAt, InsertAt, RenderBlock;
    var ls, c := Lines(content), Lines(content + "\n");
    LinesProper(content);
    LinesProper(content + "\n");
    CompletedLines(content, ls);
    CompletedSection(ls, s, c);
    UnterminatedText(ls, content);
    var s' := Section(s.start, s.end + 1);
    CompletedMatch(ls, s, c, s', name);
    CompletedInsert(ls, s, c, s');
    assert ls[..|ls|] == ls && c[..|c|] == c;
    assert Join(ls[|ls|..]) == "" && Join(c[|c|..]) == "" by { JoinNone(ls[|ls|..]); JoinNone(c[|c|..]); }
    var block := RenderBlock(name, u);
    assert content + ([NEWLINE] + block) + "" == content + "\n" + block;
  }

  lemma JoinNone(ls: seq<string>)
    requires ls == []
    ensures Join(ls) == ""
  {
  }

  lemma ChompDecides(a: string, b: string)
    requires Chomp(a) == Chomp(b)
    ensures IsAllOthers(a) == IsAllOthers(b)
  {
  }

  lemma BlankIsNotAllOthers()
    ensures !IsAllOthers("")
  {
  }

  lemma CompletedInsert(ls: seq<string>, s: Section, c: seq<string>, s': Section)
    requires ls != [] && c == Completed(ls)
    requires s.Section? && s'.Section? && s.start == s'.start && s.start < s.end == |ls| && s'.end == |c|
    requires InsertAt(ls, s) == |ls|
    requires forall i :: s.start < i < |ls| ==> Chomp(c[i]) == Chomp(ls[i])
    ensures InsertAt(c, s') == |c|
  {
    hide IsAllOthers, Chomp;
    FirstIndexIs(ls[..s.end], s.start + 1, IsAllOthers, |ls|);
    forall i | s.start < i < |c| ensures !IsAllOthers(c[i]) {
      if i < |ls| {
        assert !IsAllOthers(ls[..s.end][i]);
        ChompDecides(c[i], ls[i]);
      } else {
        BlankIsNotAllOthers();
      }
    }
    FirstIndexIs(c[..s'.end], s'.start + 1, IsAllOthers, |c|);
  }
}
