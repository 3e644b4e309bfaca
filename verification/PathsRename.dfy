/** Setting one path does not disturb another: what a rename needs. */
module PathsRename {
  import opened Text
  import opened PathsEditor
  import opened PathsLaws
  import opened PathsRoundTrip
  import opened PathsMap

  // ------------------------------------------- a block names only its own path

  ghost predicate NonBlank(s: string) {
    exists i :: 0 <= i < |s| && !IsSpace(s[i])
  }

  /** The two timeouts, written without quotes, are not whitespace only. */
  ghost predicate PlainTimeouts(u: PathUpdate) {
    (u.startTimeout == "" || NonBlank(u.startTimeout)) && (u.closeAfter == "" || NonBlank(u.closeAfter))
  }

  lemma {:induction false} TrimRightKeeps(s: string, k: nat)
    requires k < |s| && !IsSpace(s[k])
    ensures k < |TrimRight(s)|
  {
    if IsSpace(s[|s| - 1]) {
      TrimRightKeeps(s[..|s| - 1], k);
    }
  }

  lemma FieldTrims(f: Field)
    requires WrittenField(f)
    ensures TrimSpace(Chomp(f.Line())) == TrimRight(f.key + f.value)
  {
    hide TrimRight, Chomp, AllSpace;
    var rest := f.key + f.value;
    assert "    " + f.key + f.value == "    " + rest;
    ChompTerminated("    " + rest);
    assert AllSpace("    ") by { Blanks(); }
    TrimLeftPad("    ", rest);
    assert rest[0] == f.key[0];
  }

  lemma Blanks()
    ensures AllSpace("    ")
  {
  }

  lemma NameHasNoSpace(name: string)
    requires ValidName(name)
    ensures forall i :: 0 <= i < |name + ":"| ==> (name + ":")[i] != ' '
  {
  }

  /** A line with a space inside its text is no bare key. */
  lemma SpacedLineIsNoKey(f: Field, j: nat, k: nat, name: string)
    requires WrittenField(f) && ValidName(name)
    requires j < k < |f.key + f.value| && (f.key + f.value)[j] == ' ' && !IsSpace((f.key + f.value)[k])
    ensures !Names(f.Line(), name)
  {
    hide TrimRight, TrimSpace, Chomp, WrittenField, ValidName;
    var rest := f.key + f.value;
    FieldTrims(f);
    TrimRightKeeps(rest, k);
    TrimRightPrefix(rest);
    assert TrimRight(rest)[j] == ' ';
    NameHasNoSpace(name);
  }

  lemma {:induction false} KeptNotNamed(fields: seq<Field>, name: string)
    requires forall i :: 0 <= i < |fields| && fields[i].present ==> !Names(fields[i].Line(), name)
    ensures forall i :: 0 <= i < |Kept(fields)| ==> !Names(Kept(fields)[i], name)
  {
    hide Names;
    if fields != [] {
      KeptNotNamed(fields[1..], name);
    }
  }

  lemma SpacedValue(f: Field, j: nat, name: string)
    requires WrittenField(f) && ValidName(name) && NonBlank(f.value)
    requires j < |f.key| && f.key[j] == ' '
    ensures !Names(f.Line(), name)
  {
    var i :| 0 <= i < |f.value| && !IsSpace(f.value[i]);
    assert (f.key + f.value)[|f.key| + i] == f.value[i];
    SpacedLineIsNoKey(f, j, |f.key| + i, name);
  }

  lemma SpacedKey(f: Field, j: nat, k: nat, name: string)
    requires WrittenField(f) && ValidName(name)
    requires j < k < |f.key| && f.key[j] == ' ' && !IsSpace(f.key[k])
    ensures !Names(f.Line(), name)
  {
    SpacedLineIsNoKey(f, j, k, name);
  }

  lemma FieldsNotNamed(u: PathUpdate, name: string)
    requires ValidName(name) && SingleLine(u) && PlainTimeouts(u)
    ensures forall i :: 0 <= i < |Fields(u)| && Fields(u)[i].present ==> !Names(Fields(u)[i].Line(), name)
  {
    hide Names, WrittenField;
    var f := Fields(u);
    FieldsWritten(u);
    assert !IsSpace(f[0].value[0]) && !IsSpace(f[2].value[0]);
    SpacedValue(f[0], 7, name);
    SpacedKey(f[1], 15, 16, name);
    SpacedValue(f[2], 12, name);
    SpacedKey(f[3], 19, 20, name);
    if f[4].present { SpacedValue(f[4], 24, name); }
    if f[5].present { SpacedValue(f[5], 22, name); }
  }

  lemma BlockNamesOnlyItself(name: string, u: PathUpdate, other: string)
    requires ValidName(name) && ValidName(other) && name != other && SingleLine(u) && PlainTimeouts(u)
    ensures forall i :: 0 <= i < |BlockLines(name, u)| ==> !Names(BlockLines(name, u)[i], other)
  {
    hide Fields, TrimSpace, ManagedComment;
    FieldsNotNamed(u, other);
    KeptNotNamed(Fields(u), other);
    CommentLineFacts(name);
    TrimChomp(CommentLine(name));
    HeadLineFacts(name);
    assert ManagedComment(name)[0] == '#' by { CommentHash(name); }
    assert (other + ":")[0] == other[0];
    ColonInjective(name, other);
  }

  lemma ColonInjective(a: string, b: string)
    ensures a + ":" == b + ":" ==> a == b
  {
    assert (a + ":")[..|a|] == a && (b + ":")[..|b|] == b;
  }

  lemma CommentHash(name: string)
    ensures ManagedComment(name) != "" && ManagedComment(name)[0] == '#'
  {
  }

  // ---------------------------------------------------- contiguity is preserved

  lemma PreludeOfConcat(a: seq<string>, b: seq<string>)
    ensures Parse(a + b).prelude == Parse(a).prelude + (if Parse(a).entries == [] then Parse(b).prelude else [])
  {
    hide Parse;
    ParseConcat(a, b);
  }

  lemma PreludeAfterInsert(x: seq<string>, b: seq<string>, y: seq<string>, e: Entry)
    requires Parse(x + y).prelude == [] && Parse(b) == Doc([], [e])
    ensures Parse(x + b + y).prelude == []
  {
    hide Parse;
    PreludeOfConcat(x, y);
    PreludeOfConcat(x, b + y);
    PreludeOfConcat(b, y);
    assert x + b + y == x + (b + y);
  }

  lemma CutToAt(ls: seq<string>, s: Section, index: nat)
    requires s.Section? && s.start < index < s.end <= |ls|
    ensures var to := CutTo(ls, s, index);
            && (to < s.end ==> EndsBlock(ls[to]))
            && (forall i :: index < i < to ==> !EndsBlock(ls[i]))
  {
    var to := CutTo(ls, s, index);
    var sec := ls[..s.end];
    FirstIndexIs(sec, index + 1, EndsBlock, to);
    forall i | index < i < to ensures !EndsBlock(ls[i]) {
      assert !EndsBlock(sec[i]);
    }
  }

  /** Block `b` was inserted at p, in front of a line that ends a block. */
  ghost predicate InsertedAt(w: seq<string>, o: Section, p: nat, b: seq<string>, r: seq<string>, s: Section) {
    && o.Section? && o.start < p <= o.end <= |w| && s == Section(o.start, o.end + |b|)
    && (p < o.end ==> EndsBlock(w[p]))
    && b != [] && EndsBlock(b[0]) && r == w[..p] + b + w[p..]
  }

  /** An entry before the insertion is found and cut where it was ... */
  lemma CutBefore(w: seq<string>, o: Section, p: nat, b: seq<string>, r: seq<string>, s: Section, other: string, i: nat, to: nat)
    requires InsertedAt(w, o, p, b, r, s)
    requires i == MatchAt(w, o, other) < p && i < o.end && to == CutTo(w, o, i)
    ensures MatchAt(r, s, other) == i && CutTo(r, s, i) == to <= p
  {
    hide EndsBlock, Names, MatchAt, CutTo;
    MatchAtFirst(w, o, other);
    CutToAt(w, o, i);
    assert forall j :: 0 <= j < p ==> r[j] == w[j];
    assert r[p] == b[0];
    MatchAtIs(r, s, other, i);
    CutToIs(r, s, i, to);
  }

  /** ... and one behind it moves by the length of the block. */
  lemma CutBehind(w: seq<string>, o: Section, p: nat, b: seq<string>, r: seq<string>, s: Section, other: string, i: nat, to: nat)
    requires InsertedAt(w, o, p, b, r, s)
    requires forall j :: 0 <= j < |b| ==> !Names(b[j], other)
    requires p <= i == MatchAt(w, o, other) < o.end && to == CutTo(w, o, i)
    ensures MatchAt(r, s, other) == i + |b| && CutTo(r, s, i + |b|) == to + |b|
  {
    hide EndsBlock, Names, MatchAt, CutTo;
    MatchAtFirst(w, o, other);
    CutToAt(w, o, i);
    assert forall j :: 0 <= j < p ==> r[j] == w[j];
    assert forall j :: p <= j < p + |b| ==> r[j] == b[j - p];
    assert forall j :: p + |b| <= j < |r| ==> r[j] == w[j - |b|];
    MatchAtIs(r, s, other, i + |b|);
    CutToIs(r, s, i + |b|, to + |b|);
  }

  lemma CommentEndsBlock(name: string)
    requires ValidName(name)
    ensures EndsBlock(CommentLine(name))
  {
    CommentLineFacts(name);
    NameTrims(name);
    var line := "  " + ManagedComment(name);
    ChompTerminated(line);
    assert CommentLine(name) == line + "\n";
    assert line[2] == '#';
    NotPrefixAt(line, "    ", 2);
  }

  lemma SlicesBefore(w: seq<string>, p: nat, b: seq<string>, r: seq<string>, to: nat, end: nat)
    requires to <= p <= end <= |w| && r == w[..p] + b + w[p..]
    ensures w[to..end] == w[to..p] + w[p..end]
    ensures r[to..end + |b|] == w[to..p] + b + w[p..end]
  {
    SpliceSlice(w[..p], b, w[p..], to, end + |b|);
    assert w[..p][to..] == w[to..p] && w[p..][..end - p] == w[p..end];
  }

  lemma SlicesBehind(w: seq<string>, p: nat, b: seq<string>, r: seq<string>, to: nat, end: nat)
    requires p <= to <= end <= |w| && r == w[..p] + b + w[p..]
    ensures r[to + |b|..end + |b|] == w[to..end]
  {
    var x, y := r[to + |b|..end + |b|], w[to..end];
    forall k | 0 <= k < |x| ensures x[k] == y[k] {
      assert x[k] == r[to + |b| + k];
    }
  }

  lemma InsertKeepsBefore(w: seq<string>, o: Section, p: nat, b: seq<string>, r: seq<string>, s: Section, other: string, e: Entry)
    requires InsertedAt(w, o, p, b, r, s) && Parse(b) == Doc([], [e])
    requires ContiguousIn(w, o, other) && MatchAt(w, o, other) < p
    ensures ContiguousIn(r, s, other)
  {
    hide MatchAt, CutTo, Parse, IsHead, Names, EndsBlock;
    var i := MatchAt(w, o, other);
    var to := CutTo(w, o, i);
    CutBefore(w, o, p, b, r, s, other, i, to);
    SlicesBefore(w, p, b, r, to, o.end);
    PreludeAfterInsert(w[to..p], b, w[p..o.end], e);
    assert r[i] == w[i];
  }

  lemma InsertKeepsBehind(w: seq<string>, o: Section, p: nat, b: seq<string>, r: seq<string>, s: Section, other: string)
    requires InsertedAt(w, o, p, b, r, s)
    requires forall j :: 0 <= j < |b| ==> !Names(b[j], other)
    requires ContiguousIn(w, o, other) && p <= MatchAt(w, o, other)
    ensures ContiguousIn(r, s, other)
  {
    hide MatchAt, CutTo, Parse, IsHead, Names, EndsBlock;
    var i := MatchAt(w, o, other);
    var to := CutTo(w, o, i);
    CutBehind(w, o, p, b, r, s, other, i, to);
    SlicesBehind(w, p, b, r, to, o.end);
    assert r[i + |b|] == w[i];
  }

  lemma InsertKeepsContiguous(w: seq<string>, o: Section, p: nat, b: seq<string>, r: seq<string>, s: Section, other: string, e: Entry)
    requires InsertedAt(w, o, p, b, r, s) && Parse(b) == Doc([], [e])
    requires forall j :: 0 <= j < |b| ==> !Names(b[j], other)
    requires ContiguousIn(w, o, other)
    ensures ContiguousIn(r, s, other)
  {
    hide MatchAt, Parse, Names, EndsBlock, ContiguousIn;
    if MatchAt(w, o, other) < p {
      InsertKeepsBefore(w, o, p, b, r, s, other, e);
    } else {
      InsertKeepsBehind(w, o, p, b, r, s, other);
    }
  }

  /** Adding one path keeps every other entry contiguous. */
  lemma SetKeepsContiguous(content: string, name: string, u: PathUpdate, other: string)
    requires ValidName(name) && ValidName(other) && name != other && SingleLine(u) && PlainTimeouts(u)
    requires NotNamed(content, name) && !OpenEnded(Lines(content))
    requires Contiguous(content, other)
    ensures SetText(content, name, u).Replacement?
    ensures Contiguous(SetText(content, name, u).text, other)
  {
    hide Lines, FindSection, MatchAt, OpenEnded, InsertPoint, Parse, Names, EndsBlock, EndsSection, BlockLines, ContiguousIn;
    SetLines(content, name, u);
    var w, b := Lines(content), BlockLines(name, u);
    var o, p := FindSection(w), InsertPoint(w);
    var r := w[..p] + b + w[p..];
    RenderedIsBlock(name, u);
    BlockStarts(name, u);
    CommentEndsBlock(name);
    BlockNamesOnlyItself(name, u, other);
    InsertSplits(w, o, p);
    InsertPointEndsBlock(w, o, p);
    assert w == w[..p] + [] + w[p..];
    FindSplice(w[..p], [], w[p..], b, o, r);
    ParseBlock(name, u);
    InsertKeepsContiguous(w, o, p, b, r, Section(o.start, o.end + |b|), other, NewEntry(name, u));
  }

  /** Adding one path keeps the file editable for every other name. */
  lemma SetKeepsEditable(content: string, name: string, u: PathUpdate, other: string)
    requires ValidName(name) && ValidName(other) && name != other && SingleLine(u) && PlainTimeouts(u)
    requires NotNamed(content, name) && !OpenEnded(Lines(content))
    requires Editable(content, name) && Editable(content, other) && Contiguous(content, other)
    ensures SetText(content, name, u).Replacement?
    ensures Editable(SetText(content, name, u).text, other)
    ensures Contiguous(SetText(content, name, u).text, other)
  {
    hide Lines, FindSection, OpenEnded, SetText, Contiguous, SectionDoc, Key, EntryNamed, AllOthersIndex, ToMap;
    assert RemoveBlock(content, name) == Removal(content, false);
    hide RemoveBlock;
    SetKeepsContiguous(content, name, u, other);
    SetInserts(content, name, u);
    var d, e := SectionDoc(content), NewEntry(name, u);
    NewEntryNamed(name, u);
    NamedKey(e, name);
    AbsentDeletes(content, name);
    DeleteMap(d, name);
    ToMapKeys(d.entries);
    var k := AllOthersIndex(d.entries);
    InsertKeepsDistinct(d.entries, e, k);
    InsertKeepsBare(d.entries, e, k, other);
  }

  lemma InsertKeepsDistinct(es: seq<Entry>, e: Entry, k: nat)
    requires k <= |es| && DistinctKeys(es)
    requires forall i :: 0 <= i < |es| ==> Key(es[i]) != Key(e)
    ensures DistinctKeys(es[..k] + [e] + es[k..])
  {
    hide Key;
    var r := es[..k] + [e] + es[k..];
    forall i, j | 0 <= i < j < |r| ensures Key(r[i]) != Key(r[j]) {
      assert r[i] == if i < k then es[i] else if i == k then e else es[i - 1];
      assert r[j] == if j < k then es[j] else if j == k then e else es[j - 1];
    }
  }

  lemma InsertKeepsBare(es: seq<Entry>, e: Entry, k: nat, other: string)
    requires k <= |es| && BareKey(es, other) && Key(e) != other
    ensures BareKey(es[..k] + [e] + es[k..], other)
  {
    hide Key, EntryNamed;
    var r := es[..k] + [e] + es[k..];
    forall i | 0 <= i < |r| && Key(r[i]) == other ensures EntryNamed(r[i], other) {
      assert r[i] == if i < k then es[i] else if i == k then e else es[i - 1];
    }
  }

  // -------------------------------------- a last line that the edit itself completes

  lemma SameChomp(a: string, b: string, name: string)
    requires Chomp(a) == Chomp(b)
    ensures Names(a, name) == Names(b, name) && EndsBlock(a) == EndsBlock(b) && IsHead(a) == IsHead(b)
  {
  }

  lemma CompletedScan(ls: seq<string>, s: Section, c: seq<string>, name: string, i: nat, to: nat)
    requires ls != [] && c == Completed(ls) && s.Section? && s.start < s.end == |ls|
    requires forall j :: s.start < j < |ls| ==> Chomp(c[j]) == Chomp(ls[j])
    requires i == MatchAt(ls, s, name) < s.end && to == CutTo(ls, s, i)
    ensures MatchAt(c, Section(s.start, s.end + 1), name) == i && CutTo(c, Section(s.start, s.end + 1), i) == to
    ensures IsHead(c[i]) == IsHead(ls[i])
  {
    hide Names, EndsBlock, IsHead, Chomp, MatchAt, CutTo;
    var s2 := Section(s.start, s.end + 1);
    MatchAtFirst(ls, s, name);
    CutToAt(ls, s, i);
    forall j | s.start < j < |ls| ensures Names(c[j], name) == Names(ls[j], name) && EndsBlock(c[j]) == EndsBlock(ls[j]) && IsHead(c[j]) == IsHead(ls[j]) {
      SameChomp(c[j], ls[j], name);
    }
    assert c[|ls|] == "" && EndsBlock("") by { BlankEndsBlock(); }
    MatchAtIs(c, s2, name, i);
    CutToIs(c, s2, i, to);
  }

  lemma BlankEndsBlock()
    ensures EndsBlock("")
  {
  }

  lemma CompletedRest(ls: seq<string>, c: seq<string>, to: nat)
    requires ls != [] && c == Completed(ls) && to <= |ls| && NoNewline(Tail(ls))
    requires Parse(ls[to..]).prelude == []
    ensures Parse(c[to..]).prelude == []
  {
    hide Parse;
    var k, t := |ls| - 1, Tail(ls);
    if to == |ls| {
      assert c[to..] == [] + [""];
      ParseBlankTail([]);
      assert ls[to..] == [];
    } else {
      var init := ls[to..k];
      assert ls[to..] == init + [t];
      assert c[to..] == (init + [t + "\n"]) + [""];
      ParseBlankTail(init + [t + "\n"]);
      ParseConcat(init, [t]);
      ParseConcat(init, [t + "\n"]);
      ChompTerminated(t);
      ParseChomped(t, t + "\n");
    }
  }

  /** The newline that the edit adds keeps entries contiguous. */
  lemma CompletedContiguous(content: string, name: string)
    requires OpenEnded(Lines(content)) && FindSection(Lines(content)).start + 1 < |Lines(content)|
    requires Contiguous(content, name)
    ensures Contiguous(content + "\n", name)
  {
    hide Lines, FindSection, Parse, IsHead, MatchAt, CutTo, InsertAt;
    var ls, c := Lines(content), Lines(content + "\n");
    var s := FindSection(ls);
    LinesProper(content);
    CompletedLines(content, ls);
    CompletedSection(ls, s, c);
    var i := MatchAt(ls, s, name);
    var to := CutTo(ls, s, i);
    CompletedScan(ls, s, c, name, i, to);
    assert ls[to..s.end] == ls[to..] && c[to..s.end + 1] == c[to..];
    CompletedRest(ls, c, to);
  }

  /** And the file editable. */
  lemma CompletedEditable(content: string, name: string)
    requires OpenEnded(Lines(content)) && FindSection(Lines(content)).start + 1 < |Lines(content)|
    requires Editable(content, name)
    ensures Editable(content + "\n", name) && Entries(content + "\n") == Entries(content)
    ensures RemoveBlock(content + "\n", name).Removal? && RemoveBlock(content, name).Removal?
    ensures RemoveBlock(content + "\n", name).found == RemoveBlock(content, name).found
  {
    hide Lines, Contiguous, DistinctKeys, BareKey, ToMap, SectionDoc, MatchAt, CutTo, CutFrom, InsertAt, Join, FindSection;
    var ls, c := Lines(content), Lines(content + "\n");
    var s := FindSection(ls);
    LinesProper(content);
    CompletedDoc(content, s);
    CompletedLines(content, ls);
    CompletedSection(ls, s, c);
    if RemoveBlock(content, name).found {
      CompletedContiguous(content, name);
      CompletedScan(ls, s, c, name, MatchAt(ls, s, name), CutTo(ls, s, MatchAt(ls, s, name)));
    } else {
      CompletedMatch(ls, s, c, Section(s.start, s.end + 1), name);
    }
  }
}
