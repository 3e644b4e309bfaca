/** What the line editor does to comments, which the parsed mapping does not show. */
module PathsComments {
  import opened Text
  import opened PathsEditor
  import opened PathsLaws
  import opened PathsRoundTrip
  import opened PathsMap

  predicate IsComment(l: string) {
    var t := TrimSpace(Chomp(l));
    t != "" && t[0] == '#'
  }

  /** The comment lines of a file, in order, without their newlines. */
  function Comments(ls: seq<string>): seq<string> {
    if ls == [] then []
    else (if IsComment(ls[0]) then [Chomp(ls[0])] else []) + Comments(ls[1..])
  }

  lemma {:induction false} CommentsConcat(a: seq<string>, b: seq<string>)
    ensures Comments(a + b) == Comments(a) + Comments(b)
  {
    hide IsComment;
    if a == [] {
      assert a + b == b;
    } else {
      assert (a + b)[1..] == a[1..] + b;
      CommentsConcat(a[1..], b);
    }
  }

  lemma {:induction false} NoComments(ls: seq<string>)
    ensures Comments(ls) == [] <==> forall i :: 0 <= i < |ls| ==> !IsComment(ls[i])
  {
    hide IsComment;
    if ls != [] {
      NoComments(ls[1..]);
      assert forall i :: 0 < i < |ls| ==> ls[i] == ls[1..][i - 1];
    }
  }

  lemma BlankIsNoComment()
    ensures Comments([""]) == []
  {
    assert TrimSpace(Chomp("")) == "";
    NoComments([""]);
  }

  lemma CommentsOfCut(a: seq<string>, c: seq<string>)
    ensures Comments(Cut(a, c)) == Comments(a) + Comments(c)
  {
    hide Comments;
    CommentsConcat(a, c);
    CommentsConcat(a, [""]);
    BlankIsNoComment();
    if c == [] { NoComments(c); }
  }

  lemma KeyLineIsNoComment(l: string, name: string)
    requires Names(l, name) && ValidName(name)
    ensures !IsComment(l)
  {
    assert (name + ":")[0] == name[0];
  }

  // ------------------------------------------------------------------------- removal

  /** The file without the managed comment of the entry. */
  function WithoutOwnComment(ls: seq<string>, s: Section, name: string): seq<string>
    requires s.Section? && s.start < s.end <= |ls|
  {
    var index := MatchAt(ls, s, name);
    if index == s.end then ls else ls[..CutFrom(ls, s, name, index)] + ls[index..]
  }

  /** The comments that do not belong to the editor. */
  function Unrelated(content: string, name: string): seq<string>
    requires FindSection(Lines(content)).Section?
  {
    Comments(WithoutOwnComment(Lines(content), FindSection(Lines(content)), name))
  }

  /** A comment stands behind the key, before the line at which the removal stops. */
  ghost predicate CommentInside(content: string, name: string)
    requires FindSection(Lines(content)).Section?
  {
    var ls := Lines(content);
    var s := FindSection(ls);
    var index := MatchAt(ls, s, name);
    index < s.end && exists i :: index < i < CutTo(ls, s, index) && IsComment(ls[i])
  }

  lemma CommentsOfParts(ls: seq<string>, from: nat, index: nat, to: nat, name: string)
    requires from <= index < to <= |ls| && Names(ls[index], name) && ValidName(name)
    ensures Comments(ls[..from] + ls[index..]) == Comments(ls[..from]) + Comments(ls[index + 1..to]) + Comments(ls[to..])
  {
    hide Comments, IsComment;
    CommentsConcat(ls[..from], ls[index..]);
    assert ls[index..] == [ls[index]] + (ls[index + 1..to] + ls[to..]);
    CommentsConcat([ls[index]], ls[index + 1..to] + ls[to..]);
    CommentsConcat(ls[index + 1..to], ls[to..]);
    KeyLineIsNoComment(ls[index], name);
    NoComments([ls[index]]);
  }

  lemma InsideIs(ls: seq<string>, index: nat, to: nat)
    requires index < to <= |ls|
    ensures Comments(ls[index + 1..to]) == [] <==> forall i :: index < i < to ==> !IsComment(ls[i])
  {
    hide Comments, IsComment;
    var inside := ls[index + 1..to];
    NoComments(inside);
    assert forall i :: index < i < to ==> ls[i] == inside[i - index - 1];
    assert forall i :: 0 <= i < |inside| ==> inside[i] == ls[index + 1 + i];
  }

  /** A removal loses as many comments as stand inside the entry, and no other. */
  lemma RemovalComments(content: string, name: string)
    requires ValidName(name) && RemoveBlock(content, name).Removal?
    ensures FindSection(Lines(content)).Section?
    ensures var left := Comments(Lines(RemoveBlock(content, name).text));
            && (left == Unrelated(content, name) <==> !CommentInside(content, name))
            && (CommentInside(content, name) ==> |left| < |Unrelated(content, name)|)
  {
    if RemoveBlock(content, name).found {
      hide Lines, RemoveBlock, Comments, Unrelated, CommentInside;
      var s, a, x, c, after := RemovedLines(content, Lines(content), name);
      CommentsOfCut(a, c);
      FoundComments(content, name, s, a, x, c);
    } else {
      NotFoundSame(content, name);
      AbsentComments(content, name);
    }
  }

  lemma FoundComments(content: string, name: string, s: Section, a: seq<string>, x: seq<string>, c: seq<string>)
    requires ValidName(name) && IsCut(Lines(content), s, a, x, c)
    requires var ls := Lines(content); var index := MatchAt(ls, s, name);
             index < s.end && |a| == CutFrom(ls, s, name, index) && |a| + |x| == CutTo(ls, s, index)
    ensures var left := Comments(a) + Comments(c);
            && (left == Unrelated(content, name) <==> !CommentInside(content, name))
            && (CommentInside(content, name) ==> |left| < |Unrelated(content, name)|)
  {
    hide Lines, FindSection, MatchAt, CutFrom, CutTo, Comments, IsComment, Names;
    var ls := Lines(content);
    var index, from, to := MatchAt(ls, s, name), |a|, |a| + |x|;
    MatchAtFirst(ls, s, name);
    assert a == ls[..from] && c == ls[to..];
    CommentsOfParts(ls, from, index, to, name);
    InsideIs(ls, index, to);
  }

  /** For every file in which the name is found, the deletion keeps every comment but
      the entry's own managed one, in order -- if and only if no comment stands
      inside the block that the scan cuts out. */
  lemma RemovalKeepsComments(content: string, name: string)
    requires ValidName(name) && RemoveBlock(content, name).Removal? && RemoveBlock(content, name).found
    ensures FindSection(Lines(content)).Section?
    ensures Comments(Lines(RemoveBlock(content, name).text)) == Unrelated(content, name) <==> !CommentInside(content, name)
  {
    hide RemoveBlock, Lines, FindSection, Comments, CommentInside, Unrelated;
    RemovalComments(content, name);
  }

  // ----------------------------------------------------------------------- insertion

  lemma BlockComments(name: string, u: PathUpdate)
    requires ValidName(name) && SingleLine(u)
    ensures Comments(BlockLines(name, u)) == [Chomp(CommentLine(name))]
  {
    hide Comments, IsComment, Fields, WrittenField;
    var body := BodyLines(u);
    FieldsWritten(u);
    BodyHasNoComments(Fields(u));
    NoComments(body);
    HeadLineFacts(name);
    KeyLineIsNoComment(HeadLine(name), name);
    NoComments([HeadLine(name)]);
    OwnIsComment(name);
    assert BlockLines(name, u) == [CommentLine(name)] + ([HeadLine(name)] + body);
    CommentsConcat([CommentLine(name)], [HeadLine(name)] + body);
    CommentsConcat([HeadLine(name)], body);
  }

  lemma OwnIsComment(name: string)
    requires ValidName(name)
    ensures Comments([CommentLine(name)]) == [Chomp(CommentLine(name))]
  {
    CommentLineFacts(name);
    TrimChomp(CommentLine(name));
    hide TrimSpace;
    assert ManagedComment(name)[0] == '#';
    assert [CommentLine(name)][1..] == [];
  }

  lemma FieldIsNoComment(f: Field)
    requires WrittenField(f)
    ensures !IsComment(f.Line())
  {
    var line, rest := "    " + f.key + f.value, f.key + f.value;
    ChompTerminated(line);
    assert line == "    " + rest;
    TrimLeftPad("    ", rest);
    assert rest[0] == f.key[0];
    TrimRightPrefix(rest);
  }

  lemma {:induction false} BodyHasNoComments(fields: seq<Field>)
    requires forall i :: 0 <= i < |fields| ==> WrittenField(fields[i])
    ensures forall i :: 0 <= i < |Kept(fields)| ==> !IsComment(Kept(fields)[i])
  {
    hide WrittenField, IsComment;
    if fields != [] {
      FieldIsNoComment(fields[0]);
      BodyHasNoComments(fields[1..]);
    }
  }

  /** `own` was put into `before` at one place. */
  ghost predicate OneMore(before: seq<string>, own: string, after: seq<string>) {
    exists k :: 0 <= k <= |before| && after == before[..k] + [own] + before[k..]
  }

  lemma SetCommentsClosed(content: string, name: string, u: PathUpdate)
    requires ValidName(name) && SingleLine(u)
    requires RemoveBlock(content, name).Removal? && !OpenEnded(Lines(RemoveBlock(content, name).text))
    ensures FindSection(Lines(content)).Section? && SetText(content, name, u).Replacement?
    ensures OneMore(Unrelated(content, name), Chomp(CommentLine(name)), Comments(Lines(SetText(content, name, u).text)))
            <==> !CommentInside(content, name)
  {
    hide RemoveBlock, Lines, FindSection, OpenEnded, Comments, CommentInside, Unrelated, SetText, BlockLines, InsertPoint;
    SetLines(content, name, u);
    RemovalComments(content, name);
    var w, b := Lines(RemoveBlock(content, name).text), BlockLines(name, u);
    var p := InsertPoint(w);
    BlockComments(name, u);
    CommentsConcat(w[..p] + b, w[p..]);
    CommentsConcat(w[..p], b);
    CommentsConcat(w[..p], w[p..]);
    assert w[..p] + w[p..] == w;
    var left, k := Comments(w), |Comments(w[..p])|;
    assert left[..k] == Comments(w[..p]) && left[k..] == Comments(w[p..]);
    if !CommentInside(content, name) {
      assert OneMore(left, Chomp(CommentLine(name)), Comments(Lines(SetText(content, name, u).text)));
    }
  }

  /** Completing the last line does not change the comments. */
  lemma CompletedComments(content: string)
    ensures Comments(Lines(content + "\n")) == Comments(Lines(content))
  {
    hide Lines, Comments;
    var ls := Lines(content);
    LinesProper(content);
    CompletedLines(content, ls);
    var k, t := |ls| - 1, Tail(ls);
    ChompTerminated(t);
    SameComment(t, t + "\n");
    BlankIsNoComment();
    CommentsConcat(ls[..k], [t]);
    assert ls == ls[..k] + [t];
    CommentsConcat(ls[..k] + [t + "\n"], [""]);
    CommentsConcat(ls[..k], [t + "\n"]);
    assert Completed(ls) == ls[..k] + [t + "\n"] + [""];
  }

  lemma SameComment(a: string, b: string)
    requires Chomp(a) == Chomp(b)
    ensures Comments([a]) == Comments([b])
  {
    hide TrimSpace, Chomp;
    assert [a][1..] == [] && [b][1..] == [];
  }

  lemma AbsentComments(content: string, name: string)
    requires NotNamed(content, name)
    ensures Unrelated(content, name) == Comments(Lines(content)) && !CommentInside(content, name)
    ensures RemoveBlock(content, name) == Removal(content, false)
  {
    hide Lines, FindSection, MatchAt, Comments;
  }

  /** A set keeps every comment but the entry's own managed one, in order, and adds
      exactly the managed comment -- if and only if no comment stands inside the
      block it replaces.  The name may be absent. */
  lemma SetKeepsComments(content: string, name: string, u: PathUpdate)
    requires ValidName(name) && SingleLine(u)
    requires RemoveBlock(content, name).Removal? && !Glues(content, name)
    ensures FindSection(Lines(content)).Section? && SetText(content, name, u).Replacement?
    ensures OneMore(Unrelated(content, name), Chomp(CommentLine(name)), Comments(Lines(SetText(content, name, u).text)))
            <==> !CommentInside(content, name)
  {
    if !OpenEnded(Lines(RemoveBlock(content, name).text)) {
      SetCommentsClosed(content, name, u);
    } else {
      assert NotNamed(content, name) && RemoveBlock(content, name).text == content;
      hide Lines, FindSection, Comments, CommentInside, Unrelated, SetText, RemoveBlock, OpenEnded;
      SetCompletes(content, name, u, FindSection(Lines(content)));
      AbsentComments(content, name);
      AbsentComments(content + "\n", name);
      CompletedComments(content);
      SetCommentsClosed(content + "\n", name, u);
    }
  }
}
