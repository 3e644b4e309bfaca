/** When does deleting undo setting, and when does a second set replace the
    first?  Exactly when the block is not written behind an unterminated line. */
module PathsRoundTrip {
  import opened Text
  import opened PathsEditor
  import opened PathsLaws

  // ----------------------------------------------------------- glued blocks

  lemma {:induction false} TrimKeepsLast(s: string)
    requires s != "" && !IsSpace(s[|s| - 1])
    ensures TrimSpace(s) != "" && TrimSpace(s)[|TrimSpace(s)| - 1] == s[|s| - 1]
  {
    var pad := TrimLeftPart(s);
    var rest := TrimLeft(s);
    assert forall i :: 0 <= i < |pad| ==> s[i] == pad[i] && IsSpace(s[i]);
    assert s[|s| - 1] == rest[|rest| - 1];
  }

  /** A comment line glued to other text is neither a `paths:` line nor a key. */
  lemma GluedLineFacts(t: string, name: string)
    requires ValidName(name) && NoNewline(t) && t != ""
    ensures var l := t + CommentLine(name);
            Terminated(l) && !IsPathsLine(l) && !Names(l, name) && (!EndsSection(t) ==> !EndsSection(l))
  {
    NameTrims(name);
    var line := t + "  " + ManagedComment(name);
    var l := t + CommentLine(name);
    assert l == line + "\n";
    ChompTerminated(line);
    ChompTerminated(t);
    assert line[|line| - 1] == name[|name| - 1];
    TrimKeepsLast(line);
    assert NameChar(TrimSpace(line)[|TrimSpace(line)| - 1]);
    assert "paths:"[5] == ':' && (name + ":")[|name|] == ':';
    assert line[0] == t[0];
  }

  /** The lines after a block is appended to an unterminated last line. */
  function Glued(w: seq<string>, b: seq<string>): seq<string>
    requires w != [] && b != []
  {
    w[..|w| - 1] + ([Tail(w) + b[0]] + b[1..] + [""])
  }

  lemma JoinCons(l: string, ls: seq<string>)
    ensures Join([l] + ls) == l + Join(ls)
  {
    assert ([l] + ls)[1..] == ls;
  }

  lemma GluedText(w: seq<string>, b: seq<string>)
    requires w != [] && b != []
    ensures Join(Glued(w, b)) == Join(w) + Join(b)
  {
    hide Join;
    var k, t := |w| - 1, Tail(w);
    JoinThree(w[..k], [t + b[0]] + b[1..], [""]);
    assert w[..k] + ([t + b[0]] + b[1..]) + [""] == Glued(w, b);
    JoinOne("");
    JoinCons(t + b[0], b[1..]);
    JoinCons(b[0], b[1..]);
    assert b == [b[0]] + b[1..] && w == w[..k] + [t];
    JoinAppend(w[..k], t);
    var x, y := Join(w[..k]), Join(b[1..]);
    assert x + (t + b[0] + y) + "" == x + t + (b[0] + y);
  }

  lemma GluedIsLines(w: seq<string>, b: seq<string>)
    requires LineSeq(w) && AllTerminated(b) && b != [] && Terminated(Tail(w) + b[0])
    ensures Lines(Join(w) + Join(b)) == Glued(w, b)
  {
    hide Lines, Terminated, Join;
    var k, m := |w| - 1, [Tail(w) + b[0]] + b[1..];
    LineSeqParts(w, k);
    assert LineSeq([""]) && AllTerminated(m);
    LineSeqSplice(w[..k], m, [""]);
    assert w[..k] + m + [""] == Glued(w, b);
    LinesOfJoin(Glued(w, b));
    GluedText(w, b);
  }

  /** Gluing to the `paths:` line itself leaves a file without a section. */
  lemma GluedToPathsLine(w: seq<string>, o: Section, name: string, u: PathUpdate)
    requires ValidName(name) && SingleLine(u) && LineSeq(w) && Tail(w) != ""
    requires o.Section? && FindSection(w) == o && o.start == |w| - 1
    ensures RemoveBlock(Join(w) + RenderBlock(name, u), name) == RemovalFailed
  {
    hide Lines, Join, RenderBlock, FindSection, IsPathsLine, Terminated, BlockLines;
    var b := BlockLines(name, u);
    RenderedLines(name, u);
    RenderedIsBlock(name, u);
    assert b[0] == CommentLine(name) by { BlockStarts(name, u); }
    GluedLineFacts(Tail(w), name);
    GluedIsLines(w, b);
    SectionFound(w, o.start, o.end);
    NoPathsLineGlued(w, b);
    NoSectionFound(Glued(w, b));
  }

  lemma BlockStarts(name: string, u: PathUpdate)
    ensures BlockLines(name, u)[0] == CommentLine(name)
  {
  }

  lemma NoPathsLineGlued(w: seq<string>, b: seq<string>)
    requires w != [] && b != []
    requires forall i :: 0 <= i < |w| - 1 ==> !IsPathsLine(w[i])
    requires !IsPathsLine(Tail(w) + b[0])
    requires forall i :: 0 <= i < |b| ==> !EndsSection(b[i])
    ensures forall i :: 0 <= i < |Glued(w, b)| ==> !IsPathsLine(Glued(w, b)[i])
  {
    hide IsPathsLine;
    var g := Glued(w, b);
    forall i | 0 <= i < |g| ensures !IsPathsLine(g[i]) {
      if |w| <= i {
        PathsLineEndsSection(g[i]);
        assert i < |g| - 1 ==> g[i] == b[i - |w| + 1];
      }
    }
  }

  /** Gluing to another line of the section changes that line for good. */
  lemma GluedToSection(w: seq<string>, o: Section, name: string, u: PathUpdate)
    requires ValidName(name) && SingleLine(u) && LineSeq(w) && Tail(w) != ""
    requires o.Section? && FindSection(w) == o && o.start + 1 < o.end == |w|
    requires MatchAt(w, o, name) == |w|
    ensures var r := RemoveBlock(Join(w) + RenderBlock(name, u), name);
            r.Removal? && r.found && |r.text| != |Join(w)|
  {
    hide Lines, Join, RenderBlock, FindSection, MatchAt, CutTo, CutFrom, BlockLines, Names, IsPathsLine, EndsSection, EndsBlock, Terminated, TrimSpace, ManagedComment, SingleLine, ValidName;
    var b := BlockLines(name, u);
    RenderedLines(name, u);
    RenderedIsBlock(name, u);
    assert b[0] == CommentLine(name) by { BlockStarts(name, u); }
    GluedLineFacts(Tail(w), name);
    GluedIsLines(w, b);
    var g := Glued(w, b);
    var s := Section(o.start, |g|);
    GluedSection(w, o, b, g);
    GluedMatch(w, o, name, b, g);
    GluedCut(w, o, name, b, g);
    GluedRemainder(w, b, g, CutFrom(g, s, name, |w|));
  }

  lemma GluedRemainder(w: seq<string>, b: seq<string>, g: seq<string>, from: nat)
    requires w != [] && b != [] && g == Glued(w, b) && Tail(w) != "" && b[0] != ""
    requires |w| - 1 <= from <= |w|
    ensures |Join(g[..from] + g[|g| - 1..])| != |Join(w)|
  {
    hide Join;
    var k := |w| - 1;
    assert w == w[..k] + [Tail(w)];
    JoinAppend(w[..k], Tail(w));
    assert g[|g| - 1..] == [""];
    JoinAppend(g[..from], "");
    if from == |w| {
      assert g[..from] == w[..k] + [Tail(w) + b[0]];
      JoinAppend(w[..k], Tail(w) + b[0]);
    } else {
      assert g[..from] == w[..k];
    }
  }

  lemma GluedSection(w: seq<string>, o: Section, b: seq<string>, g: seq<string>)
    requires w != [] && o.Section? && FindSection(w) == o && o.start + 1 < o.end == |w|
    requires b != [] && g == Glued(w, b)
    requires !EndsSection(Tail(w)) ==> !EndsSection(Tail(w) + b[0])
    requires forall i :: 0 <= i < |b| ==> !EndsSection(b[i])
    ensures FindSection(g) == Section(o.start, |g|)
  {
    SectionFound(w, o.start, o.end);
    var k := |w| - 1;
    var y := [Tail(w) + b[0]] + b[1..] + [""];
    assert w == w[..k] + [Tail(w)] + [];
    assert g == w[..k] + y + [];
    forall i | 0 <= i < |y| ensures !EndsSection(y[i]) {
      if 0 < i < |y| - 1 { assert y[i] == b[i]; }
    }
    FindSplice(w[..k], [Tail(w)], [], y, o, g);
  }

  lemma GluedMatch(w: seq<string>, o: Section, name: string, b: seq<string>, g: seq<string>)
    requires w != [] && o.Section? && o.start + 1 < o.end == |w|
    requires IsBlock(b, name) && g == Glued(w, b) && !Names(Tail(w) + b[0], name)
    requires MatchAt(w, o, name) == |w|
    ensures MatchAt(g, Section(o.start, |g|), name) == |w|
  {
    MatchAtFirst(w, o, name);
    assert g[|w|] == b[1] && g[|w| - 1] == Tail(w) + b[0];
    assert forall i :: 0 <= i < |w| - 1 ==> g[i] == w[i];
    MatchAtIs(g, Section(o.start, |g|), name, |w|);
  }

  lemma GluedCut(w: seq<string>, o: Section, name: string, b: seq<string>, g: seq<string>)
    requires w != [] && o.Section? && o.start + 1 < o.end == |w|
    requires IsBlock(b, name) && g == Glued(w, b)
    ensures CutTo(g, Section(o.start, |g|), |w|) == |g| - 1
  {
    assert forall i :: |w| < i < |g| - 1 ==> g[i] == b[i - |w| + 1];
    assert g[|g| - 1] == "";
    CutToIs(g, Section(o.start, |g|), |w|, |g| - 1);
  }

  // -------------------------------------------------------------- the two laws

  /** For every file with a `paths` section that does not have the name, deleting
      what was set restores the file byte for byte -- if and only if the block was
      not written behind an unterminated last line. */
  lemma SetDeleteRoundTrip(content: string, name: string, u: PathUpdate)
    requires ValidName(name) && SingleLine(u) && NotNamed(content, name)
    ensures SetText(content, name, u).Replacement?
    ensures RemoveBlock(SetText(content, name, u).text, name) == Removal(content, true)
            <==> !OpenEnded(Lines(content))
  {
    var w := Lines(content);
    var o := FindSection(w);
    if !OpenEnded(w) {
      SetThenRemove(content, name, u);
    } else if o.start + 1 < |w| {
      SetCompletes(content, name, u, o);
      SetThenRemove(content + "\n", name, u);
    } else {
      AppendsAtPathsLine(content, name, u);
      LinesProper(content);
      GluedToPathsLine(w, o, name, u);
    }
  }

  lemma AppendsAtPathsLine(content: string, name: string, u: PathUpdate)
    requires NotNamed(content, name) && OpenEnded(Lines(content)) && FindSection(Lines(content)).start + 1 == |Lines(content)|
    ensures SetText(content, name, u) == Replacement(content + RenderBlock(name, u))
  {
    hide Lines, Join, FindSection, MatchAt, InsertAt, RenderBlock;
    var w := Lines(content);
    LinesProper(content);
    assert w[..|w|] == w;
    JoinNone(w[|w|..]);
    assert content + RenderBlock(name, u) + "" == content + RenderBlock(name, u);
  }

  lemma AppendsWhenFound(content: string, name: string, u: PathUpdate)
    requires RemoveBlock(content, name).Removal? && RemoveBlock(content, name).found
    requires OpenEnded(Lines(RemoveBlock(content, name).text))
    ensures SetText(content, name, u) == Replacement(RemoveBlock(content, name).text + RenderBlock(name, u))
  {
    hide Lines, Join, FindSection, RemoveBlock, InsertAt, RenderBlock;
    var without := RemoveBlock(content, name).text;
    var w := Lines(without);
    LinesProper(without);
    assert w[..|w|] == w;
    JoinNone(w[|w|..]);
    assert without + RenderBlock(name, u) + "" == without + RenderBlock(name, u);
  }

  /** The edit writes behind an unterminated line without separating it: the name
      was present, or the `paths:` line itself is the unterminated one. */
  predicate Glues(content: string, name: string) {
    var r := RemoveBlock(content, name);
    && r.Removal?
    && var w := Lines(r.text);
    && OpenEnded(w)
    && (r.found || FindSection(w).start + 1 == |w|)
  }

  /** The result of a set depends on the file only through what the removal left. */
  lemma SetOfRemaining(content: string, other: string, name: string, u: PathUpdate)
    requires ValidName(name) && SingleLine(u)
    requires RemoveBlock(content, name).Removal? && RemoveBlock(other, name).Removal?
    requires RemoveBlock(content, name).text == RemoveBlock(other, name).text
    requires !OpenEnded(Lines(RemoveBlock(content, name).text))
    ensures SetText(content, name, u) == SetText(other, name, u)
  {
    hide RemoveBlock, Lines, FindSection, OpenEnded;
    SetLines(content, name, u);
    SetLines(other, name, u);
    LinesProper(SetText(content, name, u).text);
    LinesProper(SetText(other, name, u).text);
  }

  lemma ReplacedLength(content: string, name: string, block: string)
    requires RemoveBlock(content, name).Removal? && RemoveBlock(content, name).found
    requires ReplaceBlock(content, name, block).Replacement?
    ensures |ReplaceBlock(content, name, block).text| == |RemoveBlock(content, name).text| + |block|
  {
    hide RemoveBlock, Lines, FindSection, InsertAt, Join;
    var without := RemoveBlock(content, name).text;
    var w := Lines(without);
    LinesProper(without);
    var at := InsertAt(w, FindSection(w));
    JoinConcat(w[..at], w[at..]);
    assert w[..at] + w[at..] == w;
  }

  /** Two sets of one name equal the last one alone -- if and only if the first
      one does not glue its block to other text.  The name may be present once. */
  lemma SetSetIsLast(content: string, name: string, u: PathUpdate, v: PathUpdate)
    requires ValidName(name) && SingleLine(u) && SingleLine(v)
    requires RemoveBlock(content, name).Removal? && NotNamed(RemoveBlock(content, name).text, name)
    ensures SetText(content, name, u).Replacement? && SetText(content, name, v).Replacement?
    ensures SetText(SetText(content, name, u).text, name, v) == SetText(content, name, v) <==> !Glues(content, name)
  {
    var r := RemoveBlock(content, name);
    var w := Lines(r.text);
    var o := FindSection(w);
    if !OpenEnded(w) {
      SetThenRemove(content, name, u);
      SetThenRemove(content, name, v);
      SetOfRemaining(content, SetText(content, name, u).text, name, v);
    } else if r.found {
      SetSetGlued(content, name, u, v);
    } else {
      SetSetOpen(content, name, u, v);
    }
  }

  lemma SetSetOpen(content: string, name: string, u: PathUpdate, v: PathUpdate)
    requires ValidName(name) && SingleLine(u) && SingleLine(v)
    requires NotNamed(content, name) && OpenEnded(Lines(content))
    ensures SetText(content, name, u).Replacement? && SetText(content, name, v).Replacement?
    ensures SetText(SetText(content, name, u).text, name, v) == SetText(content, name, v)
            <==> FindSection(Lines(content)).start + 1 != |Lines(content)|
  {
    var w := Lines(content);
    var o := FindSection(w);
    if o.start + 1 < |w| {
      SetCompletes(content, name, u, o);
      SetCompletes(content, name, v, o);
      SetThenRemove(content + "\n", name, u);
      SetOfRemaining(content + "\n", SetText(content, name, u).text, name, v);
    } else {
      AppendsAtPathsLine(content, name, u);
      AppendsAtPathsLine(content, name, v);
      LinesProper(content);
      GluedToPathsLine(w, o, name, u);
    }
  }

  lemma SetSetGlued(content: string, name: string, u: PathUpdate, v: PathUpdate)
    requires ValidName(name) && SingleLine(u) && SingleLine(v)
    requires RemoveBlock(content, name).Removal? && RemoveBlock(content, name).found
    requires NotNamed(RemoveBlock(content, name).text, name) && OpenEnded(Lines(RemoveBlock(content, name).text))
    ensures SetText(content, name, u).Replacement? && SetText(content, name, v).Replacement?
    ensures SetText(SetText(content, name, u).text, name, v) != SetText(content, name, v)
  {
    var without := RemoveBlock(content, name).text;
    var w := Lines(without);
    LinesProper(without);
    AppendsWhenFound(content, name, u);
    AppendsWhenFound(content, name, v);
    var o := FindSection(w);
    var t := SetText(content, name, u).text;
    if o.start + 1 == |w| {
      GluedToPathsLine(w, o, name, u);
    } else {
      GluedToSection(w, o, name, u);
      if SetText(t, name, v).Replacement? {
        ReplacedLength(t, name, RenderBlock(name, v));
        ReplacedLength(content, name, RenderBlock(name, v));
      }
    }
  }
}
