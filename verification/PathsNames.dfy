/** Counting the lines that name a path: what a set and a removal do to that number. */
module PathsNames {
  import opened Text
  import opened PathsEditor
  import opened PathsLaws
  import opened PathsRoundTrip
  import opened PathsRename

  function NameCount(ls: seq<string>, name: string): nat {
    if ls == [] then 0 else (if Names(ls[0], name) then 1 else 0) + NameCount(ls[1..], name)
  }

  lemma {:induction false} NameCountConcat(a: seq<string>, b: seq<string>, name: string)
    ensures NameCount(a + b, name) == NameCount(a, name) + NameCount(b, name)
  {
    hide Names;
    if a == [] {
      assert a + b == b;
    } else {
      assert (a + b)[1..] == a[1..] + b;
      NameCountConcat(a[1..], b, name);
    }
  }

  lemma NameCountOne(l: string, name: string)
    ensures NameCount([l], name) == if Names(l, name) then 1 else 0
  {
    hide Names;
    assert [l][1..] == [];
  }

  lemma {:induction false} NameCountNone(ls: seq<string>, name: string)
    requires forall i :: 0 <= i < |ls| ==> !Names(ls[i], name)
    ensures NameCount(ls, name) == 0
  {
    hide Names;
    if ls != [] { NameCountNone(ls[1..], name); }
  }

  lemma NameCountSome(ls: seq<string>, name: string, k: nat)
    requires k < |ls| && Names(ls[k], name)
    ensures NameCount(ls, name) >= 1
  {
    hide Names, NameCount;
    assert ls == (ls[..k] + [ls[k]]) + ls[k + 1..];
    NameCountConcat(ls[..k] + [ls[k]], ls[k + 1..], name);
    NameCountConcat(ls[..k], [ls[k]], name);
    NameCountOne(ls[k], name);
  }

  lemma BlankNamesNothing(name: string)
    ensures NameCount([""], name) == 0
  {
    assert TrimSpace(Chomp("")) == "";
    NameCountOne("", name);
  }

  /** A removal that finds its entry leaves fewer lines of that name. */
  lemma RemovalLowersCount(content: string, name: string)
    requires RemoveBlock(content, name).Removal? && RemoveBlock(content, name).found
    ensures NameCount(Lines(RemoveBlock(content, name).text), name) < NameCount(Lines(content), name)
  {
    hide Lines, Join, FindSection, MatchAt, CutFrom, CutTo, RemoveBlock, NameCount, Names, EndsBlock;
    var ls := Lines(content);
    var s, a, x, c, after := RemovedLines(content, ls, name);
    NameCountConcat(a + x, c, name);
    NameCountConcat(a, x, name);
    NameCountConcat(a, c, name);
    NameCountConcat(a, [""], name);
    BlankNamesNothing(name);
    var k :| 0 <= k <= 1 && k < |x| && KeyLineAt(x, k, name);
    NameCountSome(x, name, k);
    if c == [] { NameCountNone(c, name); }
  }

  lemma BlockNamesOnce(name: string, u: PathUpdate)
    requires ValidName(name) && SingleLine(u) && PlainTimeouts(u)
    ensures NameCount(BlockLines(name, u), name) == 1 && NameCount(BlockLines(name, u)[1..], name) == 1
  {
    hide Names, NameCount, Fields;
    var b, body := BlockLines(name, u), BodyLines(u);
    FieldsNotNamed(u, name);
    KeptNotNamed(Fields(u), name);
    NameCountNone(body, name);
    CommentLineFacts(name);
    HeadLineFacts(name);
    NameCountOne(CommentLine(name), name);
    NameCountOne(HeadLine(name), name);
    assert b[1..] == [HeadLine(name)] + body && b == [CommentLine(name)] + b[1..];
    NameCountConcat([CommentLine(name)], b[1..], name);
    NameCountConcat([HeadLine(name)], body, name);
  }

  /** A block that was glued to an unterminated line still names its path once. */
  lemma GluedCount(w: seq<string>, b: seq<string>, name: string)
    requires w != [] && b != [] && NameCount(b[1..], name) == 1 && !Names(Tail(w) + b[0], name)
    ensures NameCount(Glued(w, b), name) <= NameCount(w, name) + 1
  {
    hide Names, NameCount;
    var k, line := |w| - 1, Tail(w) + b[0];
    assert Glued(w, b) == (w[..k] + [line]) + (b[1..] + [""]);
    NameCountConcat(w[..k] + [line], b[1..] + [""], name);
    NameCountConcat(w[..k], [line], name);
    NameCountOne(line, name);
    NameCountConcat(b[1..], [""], name);
    BlankNamesNothing(name);
    assert w == w[..k] + [Tail(w)];
    NameCountConcat(w[..k], [Tail(w)], name);
  }

  /** Setting a name that is present does not raise the number of its lines. */
  lemma SetCount(content: string, name: string, u: PathUpdate)
    requires ValidName(name) && SingleLine(u) && PlainTimeouts(u)
    requires RemoveBlock(content, name).Removal? && RemoveBlock(content, name).found
    ensures SetText(content, name, u).Replacement?
    ensures NameCount(Lines(SetText(content, name, u).text), name) <= NameCount(Lines(content), name)
  {
    hide Lines, Join, RemoveBlock, OpenEnded, NameCount, SetText, BlockLines, FindSection, InsertPoint, RenderBlock, Names, ValidName, SingleLine, PlainTimeouts;
    RemovalLowersCount(content, name);
    var without := RemoveBlock(content, name).text;
    var w, b := Lines(without), BlockLines(name, u);
    BlockNamesOnce(name, u);
    LinesProper(without);
    if OpenEnded(w) {
      AppendsWhenFound(content, name, u);
      GluedLines(w, name, u);
      GluedCount(w, b, name);
    } else {
      SetLines(content, name, u);
      var p := InsertPoint(w);
      NameCountConcat(w[..p] + b, w[p..], name);
      NameCountConcat(w[..p], b, name);
      NameCountConcat(w[..p], w[p..], name);
      assert w[..p] + w[p..] == w;
    }
  }

  lemma GluedLines(w: seq<string>, name: string, u: PathUpdate)
    requires ValidName(name) && SingleLine(u) && LineSeq(w) && OpenEnded(w)
    ensures var b := BlockLines(name, u);
            b != [] && Lines(Join(w) + RenderBlock(name, u)) == Glued(w, b) && !Names(Tail(w) + b[0], name)
  {
    hide Lines, Join, RenderBlock, BlockLines, Names, FindSection, InsertAt, Terminated;
    var b := BlockLines(name, u);
    RenderedLines(name, u);
    RenderedIsBlock(name, u);
    assert b[0] == CommentLine(name) by { BlockStarts(name, u); }
    GluedLineFacts(Tail(w), name);
    GluedIsLines(w, b);
  }

  /** Setting a name that is present and deleting it again never gives the old file. */
  lemma PresentIsNotRestored(content: string, name: string, u: PathUpdate)
    requires ValidName(name) && SingleLine(u) && PlainTimeouts(u)
    requires RemoveBlock(content, name).Removal? && RemoveBlock(content, name).found
    ensures SetText(content, name, u).Replacement?
    ensures var t := SetText(content, name, u).text; var r := RemoveBlock(t, name);
            (if r.Removal? && r.found then r.text else t) != content
  {
    hide Lines, RemoveBlock, NameCount, SetText;
    SetCount(content, name, u);
    var t := SetText(content, name, u).text;
    if RemoveBlock(t, name).Removal? && RemoveBlock(t, name).found {
      RemovalLowersCount(t, name);
    }
  }

  // ------------------------------------------------------------------- another name

  /** Editing one name does not bring in lines of another. */
  lemma OtherStaysAbsent(content: string, name: string, u: PathUpdate, other: string)
    requires ValidName(name) && ValidName(other) && name != other && SingleLine(u) && PlainTimeouts(u)
    requires RemoveBlock(content, name).Removal? && !OpenEnded(Lines(RemoveBlock(content, name).text))
    requires NameCount(Lines(content), other) == 0
    ensures SetText(content, name, u).Replacement? && NameCount(Lines(SetText(content, name, u).text), other) == 0
  {
    hide Lines, RemoveBlock, OpenEnded, NameCount, SetText, BlockLines, FindSection, InsertPoint, Names, ValidName, SingleLine, PlainTimeouts;
    OtherSurvives(content, name, other);
    SetLines(content, name, u);
    BlockNamesOnlyItself(name, u, other);
    var w, b := Lines(RemoveBlock(content, name).text), BlockLines(name, u);
    NameCountNone(b, other);
    var p := InsertPoint(w);
    NameCountConcat(w[..p] + b, w[p..], other);
    NameCountConcat(w[..p], b, other);
    NameCountConcat(w[..p], w[p..], other);
    assert w[..p] + w[p..] == w;
  }

  lemma OtherSurvives(content: string, name: string, other: string)
    requires RemoveBlock(content, name).Removal?
    ensures NameCount(Lines(RemoveBlock(content, name).text), other) <= NameCount(Lines(content), other)
  {
    hide Lines, FindSection, NameCount, MatchAt, CutFrom, CutTo, Join;
    if RemoveBlock(content, name).found {
      hide RemoveBlock;
      var s, a, x, c, after := RemovedLines(content, Lines(content), name);
      NameCountConcat(a + x, c, other);
      NameCountConcat(a, x, other);
      NameCountConcat(a, c, other);
      NameCountConcat(a, [""], other);
      BlankNamesNothing(other);
    }
  }

  lemma AbsentIsNotFound(content: string, name: string)
    requires NameCount(Lines(content), name) == 0 && RemoveBlock(content, name).Removal?
    ensures !RemoveBlock(content, name).found
  {
    hide Lines, RemoveBlock, NameCount;
    if RemoveBlock(content, name).found { RemovalLowersCount(content, name); }
  }
}
