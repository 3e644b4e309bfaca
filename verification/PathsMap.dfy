/** The editor as a map update.  `Parse` reads the `paths` section the way YAML
    reads a block mapping: a key indented by two spaces opens an entry, deeper
    lines belong to it, blank lines and comments belong to nobody. */
module PathsMap {
  import opened Text
  import opened PathsEditor
  import opened PathsLaws
  import opened PathsRoundTrip

  /** Blank or comment. */
  predicate Skipped(raw: string) {
    var t := TrimSpace(Chomp(raw));
    t == "" || t[0] == '#'
  }

  predicate IsHead(raw: string) {
    !Skipped(raw) && HasPrefix(Chomp(raw), "  ") && !HasPrefix(Chomp(raw), "   ")
  }

  datatype Entry = Entry(head: string, body: seq<string>)

  /** `prelude` holds content lines that stand before the first key. */
  datatype Doc = Doc(prelude: seq<string>, entries: seq<Entry>)

  function Step(l: string, d: Doc): Doc {
    if Skipped(l) then d
    else if IsHead(l) then Doc([], [Entry(Chomp(l), d.prelude)] + d.entries)
    else Doc([Chomp(l)] + d.prelude, d.entries)
  }

  function Parse(ls: seq<string>): Doc {
    if ls == [] then Doc([], []) else Step(ls[0], Parse(ls[1..]))
  }

  /** Reading on: lines before the next key extend the last open entry. */
  function Append(d: Doc, e: Doc): Doc {
    if d.entries == [] then Doc(d.prelude + e.prelude, e.entries)
    else
      var k := |d.entries| - 1;
      Doc(d.prelude, d.entries[..k] + [Entry(d.entries[k].head, d.entries[k].body + e.prelude)] + e.entries)
  }

  lemma AppendLeftUnit(d: Doc)
    ensures Append(Doc([], []), d) == d
  {
  }

  lemma {:induction false} ParseConcat(a: seq<string>, b: seq<string>)
    ensures Parse(a + b) == Append(Parse(a), Parse(b))
  {
    hide Step, Append;
    if a == [] {
      assert a + b == b;
      AppendLeftUnit(Parse(b));
    } else {
      ParseConcat(a[1..], b);
      assert (a + b)[1..] == a[1..] + b && (a + b)[0] == a[0];
      AppendStep(a[0], Parse(a[1..]), Parse(b));
    }
  }

  lemma AppendStep(l: string, d: Doc, e: Doc)
    ensures Append(Step(l, d), e) == Step(l, Append(d, e))
  {
    hide Skipped, IsHead;
    var k := |d.entries| - 1;
    if d.entries != [] {
      var es := [Entry(Chomp(l), d.prelude)] + d.entries;
      assert es[..|es| - 1] == [Entry(Chomp(l), d.prelude)] + d.entries[..k];
    }
  }

  /** A separator without a prelude simply joins the entry lists. */
  lemma AppendPlain(d: Doc, e: Doc)
    requires e.prelude == []
    ensures Append(d, e) == Doc(d.prelude, d.entries + e.entries)
  {
    if d.entries != [] {
      var k := |d.entries| - 1;
      assert d.entries == d.entries[..k] + [d.entries[k]];
      assert d.entries[k].body + [] == d.entries[k].body;
    }
  }

  /** Lines without a key only extend what is open. */
  lemma {:induction false} ParseNoHeads(ls: seq<string>)
    requires forall i :: 0 <= i < |ls| ==> !IsHead(ls[i])
    ensures Parse(ls).entries == []
  {
    if ls != [] {
      ParseNoHeads(ls[1..]);
    }
  }

  // ------------------------------------------------------------ line kinds

  lemma {:induction false} TrimLeftAppend(x: string, y: string)
    ensures TrimLeft(x + y) == if TrimLeft(x) == "" then TrimLeft(y) else TrimLeft(x) + y
  {
    if x == "" {
      assert x + y == y;
    } else if IsSpace(x[0]) {
      assert (x + y)[1..] == x[1..] + y;
      TrimLeftAppend(x[1..], y);
    }
  }

  lemma TrimChomp(l: string)
    ensures TrimSpace(Chomp(l)) == TrimSpace(l)
  {
    if l != "" && l[|l| - 1] == NEWLINE {
      var x := l[..|l| - 1];
      assert l == x + "\n";
      TrimLeftAppend(x, "\n");
      if TrimLeft(x) == "" {
        assert TrimLeft("\n") == "";
      } else {
        TrimRightPad(TrimLeft(x), "\n");
      }
    }
  }

  lemma NotEndsBlockNotHead(l: string)
    requires !EndsBlock(l)
    ensures !IsHead(l)
  {
    var line := Chomp(l);
    if HasPrefix(line, "    ") { assert line[..3] == "   "; }
  }

  lemma AllOthersIsHead(l: string)
    requires IsAllOthers(l)
    ensures IsHead(l)
  {
    var line := Chomp(l);
    assert line[0] == ' ' && line[1] == ' ' && line[2] == 'a';
    assert line == "  " + line[2..];
    TrimLeftPad("  ", line[2..]);
    TrimRightPrefix(line[2..]);
    NotPrefixAt(line, "   ", 2);
    assert line[..2] == "  ";
  }

  lemma NamesNotSkipped(l: string, name: string)
    requires Names(l, name) && ValidName(name)
    ensures !Skipped(l)
  {
    assert (name + ":")[0] == name[0];
  }

  lemma HeadLineIsHead(name: string)
    requires ValidName(name)
    ensures IsHead(HeadLine(name)) && Chomp(HeadLine(name)) == "  " + name + ":"
  {
    HeadLineFacts(name);
    NamesNotSkipped(HeadLine(name), name);
    assert HeadLine(name) == "  " + name + ":" + "\n";
    var line := "  " + name + ":";
    NameTrims(name);
    ChompTerminated(line);
    assert line[2] == name[0];
    NotPrefixAt(line, "   ", 2);
  }

  // -------------------------------------------------------------- deletion

  function SectionLines(ls: seq<string>): seq<string>
    requires FindSection(ls).Section?
  {
    ls[FindSection(ls).start + 1..FindSection(ls).end]
  }

  function SectionDoc(content: string): Doc
    requires FindSection(Lines(content)).Section?
  {
    Parse(SectionLines(Lines(content)))
  }

  predicate EntryNamed(e: Entry, name: string) {
    TrimSpace(e.head) == name + ":"
  }

  /** The first entry of that name, or the number of entries. */
  function IndexOf(es: seq<Entry>, name: string): (k: nat)
    ensures k <= |es|
    ensures k < |es| ==> EntryNamed(es[k], name)
    ensures forall i :: 0 <= i < k ==> !EntryNamed(es[i], name)
  {
    if es == [] || EntryNamed(es[0], name) then 0 else 1 + IndexOf(es[1..], name)
  }

  function DocDelete(d: Doc, name: string): Doc {
    var k := IndexOf(d.entries, name);
    if k == |d.entries| then d else Doc(d.prelude, d.entries[..k] + d.entries[k + 1..])
  }

  lemma {:induction false} ParseUnnamed(ls: seq<string>, name: string)
    requires forall i :: 0 <= i < |ls| ==> !Names(ls[i], name)
    ensures forall k :: 0 <= k < |Parse(ls).entries| ==> !EntryNamed(Parse(ls).entries[k], name)
  {
    if ls != [] {
      ParseUnnamed(ls[1..], name);
    }
  }

  lemma DeleteHead(a: Doc, e: Entry, c: Doc, name: string)
    requires forall k :: 0 <= k < |a.entries| ==> !EntryNamed(a.entries[k], name)
    requires EntryNamed(e, name)
    ensures Append(a, c) == DocDelete(Append(Append(a, Doc([], [e])), c), name) <==> c.prelude == []
  {
    hide EntryNamed;
    var n := |a.entries|;
    var ax := Append(a, Doc([], [e]));
    AppendPlain(a, Doc([], [e]));
    var d := Append(ax, c);
    assert ax.entries[..n] == a.entries && ax.entries[n] == e;
    assert d.entries == a.entries + [Entry(e.head, e.body + c.prelude)] + c.entries;
    assert EntryNamed(d.entries[n], name) by { SameHead(e, d.entries[n], name); }
    assert IndexOf(d.entries, name) == n by {
      assert forall k :: 0 <= k < n ==> d.entries[k] == a.entries[k];
    }
    assert DocDelete(d, name) == Doc(a.prelude, a.entries + c.entries);
    hide Append, DocDelete, IndexOf;
    PlainIff(a, c);
  }

  /** Appending is concatenation exactly when nothing hangs on to the last entry. */
  lemma PlainIff(a: Doc, c: Doc)
    ensures Append(a, c) == Doc(a.prelude, a.entries + c.entries) <==> c.prelude == []
  {
    var n, r := |a.entries|, Append(a, c);
    if c.prelude == [] {
      AppendPlain(a, c);
    } else if n > 0 {
      assert r.entries[n - 1].body == a.entries[n - 1].body + c.prelude;
      assert |r.entries[n - 1].body| > |a.entries[n - 1].body|;
      assert (a.entries + c.entries)[n - 1] == a.entries[n - 1];
    } else {
      assert r.prelude == a.prelude + c.prelude && |r.prelude| > |a.prelude|;
    }
  }

  lemma SameHead(e: Entry, f: Entry, name: string)
    requires e.head == f.head && EntryNamed(e, name)
    ensures EntryNamed(f, name)
  {
  }

  lemma DeleteNested(a: Doc, x: Doc, c: Doc, name: string)
    requires x.entries == [] && x.prelude != []
    ensures Append(a, c) != DocDelete(Append(Append(a, x), c), name)
  {
    hide EntryNamed;
    var d, r := Append(Append(a, x), c), Append(a, c);
    NestedLonger(a, x, c);
    assert |DocDelete(d, name).entries| == |r.entries| ==> DocDelete(d, name) == d;
  }

  /** Lines that hang on to the entry before them make it longer. */
  lemma NestedLonger(a: Doc, x: Doc, c: Doc)
    requires x.entries == [] && x.prelude != []
    ensures var d, r := Append(Append(a, x), c), Append(a, c); |d.entries| == |r.entries| && d != r
  {
    var n, ax := |a.entries|, Append(a, x);
    var d, r := Append(ax, c), Append(a, c);
    if n > 0 {
      assert |ax.entries| == n && ax.entries[n - 1].body == a.entries[n - 1].body + x.prelude;
      assert |d.entries| == n + |c.entries| && d.entries[n - 1].body == ax.entries[n - 1].body + c.prelude;
      assert |r.entries| == n + |c.entries| && r.entries[n - 1].body == a.entries[n - 1].body + c.prelude;
      assert |d.entries[n - 1].body| > |r.entries[n - 1].body|;
    } else {
      assert ax == Doc(a.prelude + x.prelude, []);
      assert d.prelude == a.prelude + x.prelude + c.prelude && r.prelude == a.prelude + c.prelude;
      assert |d.prelude| > |r.prelude|;
    }
  }

  /** The lines a removal cuts: its own comment if any, the matched line, the body. */
  lemma ParseCut(ls: seq<string>, s: Section, name: string, index: nat, from: nat, to: nat)
    requires ValidName(name) && s.Section? && s.start < index < s.end <= |ls|
    requires Names(ls[index], name) && from == CutFrom(ls, s, name, index) && to == CutTo(ls, s, index)
    ensures var x := Parse(ls[from..to]);
            if IsHead(ls[index]) then |x.entries| == 1 && x.prelude == [] && EntryNamed(x.entries[0], name)
            else x.entries == [] && x.prelude != []
  {
    hide CutTo, Names, IsHead, EntryNamed, Parse, Skipped, TrimSpace;
    var rest := ls[index + 1..to];
    BodyHasNoHeads(ls, s, index, to, rest);
    ParseNoHeads(rest);
    assert ls[index..to] == [ls[index]] + rest;
    ParseCons(ls[index], rest);
    NamedStep(ls[index], name, Parse(rest));
    if from < index {
      ManagedIsSkipped(ls[from], name);
      assert ls[from..to] == [ls[from]] + ls[index..to];
      ParseCons(ls[from], ls[index..to]);
    }
  }

  lemma ParseCons(l: string, ls: seq<string>)
    ensures Parse([l] + ls) == Step(l, Parse(ls))
  {
    hide Step;
    assert ([l] + ls)[1..] == ls;
  }

  lemma ManagedIsSkipped(l: string, name: string)
    requires TrimSpace(l) == ManagedComment(name)
    ensures Skipped(l)
  {
    TrimChomp(l);
  }

  lemma NamedStep(l: string, name: string, d: Doc)
    requires Names(l, name) && ValidName(name) && d.entries == []
    ensures var x := Step(l, d);
            if IsHead(l) then |x.entries| == 1 && x.prelude == [] && EntryNamed(x.entries[0], name)
            else x.entries == [] && x.prelude != []
  {
    hide TrimSpace, Chomp;
    NamesNotSkipped(l, name);
  }

  lemma BodyHasNoHeads(ls: seq<string>, s: Section, index: nat, to: nat, body: seq<string>)
    requires s.Section? && s.start < index < s.end <= |ls| && to == CutTo(ls, s, index) && body == ls[index + 1..to]
    ensures forall i :: 0 <= i < |body| ==> !IsHead(body[i])
  {
    hide EndsBlock, IsHead;
    FirstIndexIs(ls[..s.end], index + 1, EndsBlock, to);
    forall i | 0 <= i < |body| ensures !IsHead(body[i]) {
      assert !EndsBlock(ls[..s.end][index + 1 + i]);
      NotEndsBlockNotHead(body[i]);
    }
  }

  /** The matched line is a two-space key, and after the point where the removal
      stops the next content line, if any, is another key: nothing is orphaned. */
  ghost predicate ContiguousIn(ls: seq<string>, s: Section, name: string)
    requires s.Section? && s.start < s.end <= |ls|
  {
    var index := MatchAt(ls, s, name);
    && index < s.end
    && IsHead(ls[index])
    && Parse(ls[CutTo(ls, s, index)..s.end]).prelude == []
  }

  ghost predicate Contiguous(content: string, name: string) {
    var ls := Lines(content);
    FindSection(ls).Section? && ContiguousIn(ls, FindSection(ls), name)
  }

  /** For every file in which the name is found, the deletion is the deletion of
      that one entry from the mapping -- if and only if the entry is contiguous. */
  lemma DeleteRefines(content: string, name: string)
    requires ValidName(name)
    requires RemoveBlock(content, name).Removal? && RemoveBlock(content, name).found
    ensures FindSection(Lines(content)).Section? && FindSection(Lines(RemoveBlock(content, name).text)).Section?
    ensures SectionDoc(RemoveBlock(content, name).text) == DocDelete(SectionDoc(content), name)
            <==> Contiguous(content, name)
  {
    hide Lines, Join, FindSection, MatchAt, CutFrom, CutTo, Parse, Append, IsHead, SectionDoc, DocDelete, ValidName;
    var ls := Lines(content);
    var s := FindSection(ls);
    var index := MatchAt(ls, s, name);
    var from, to := CutFrom(ls, s, name, index), CutTo(ls, s, index);
    MatchAtFirst(ls, s, name);
    DeleteDocs(content, ls, s, name, index, from, to);
    var a, x, c := Parse(ls[s.start + 1..from]), Parse(ls[from..to]), Parse(ls[to..s.end]);
    ParseCut(ls, s, name, index, from, to);
    if IsHead(ls[index]) {
      ParseUnnamed(ls[s.start + 1..from], name);
      DeleteHead(a, x.entries[0], c, name);
      assert x == Doc([], [x.entries[0]]);
    } else {
      DeleteNested(a, x, c, name);
    }
  }

  lemma DeleteDocs(content: string, ls: seq<string>, s: Section, name: string, index: nat, from: nat, to: nat)
    requires ls == Lines(content) && FindSection(ls) == s && s.Section? && index == MatchAt(ls, s, name) < s.end
    requires from == CutFrom(ls, s, name, index) && to == CutTo(ls, s, index)
    ensures FindSection(Lines(RemoveBlock(content, name).text)).Section?
    ensures var a, x, c := Parse(ls[s.start + 1..from]), Parse(ls[from..to]), Parse(ls[to..s.end]);
            && SectionDoc(content) == Append(Append(a, x), c)
            && SectionDoc(RemoveBlock(content, name).text) == Append(a, c)
  {
    hide Parse, Append, MatchAt, CutTo, CutFrom, FindSection, Lines, Join;
    var a, x, c := ls[s.start + 1..from], ls[from..to], ls[to..s.end];
    ParseConcat(a, x);
    ParseConcat(a + x, c);
    ParseConcat(a, c);
    var after := Cut(ls[..from], ls[to..]);
    LinesProper(content);
    assert ls == ls[..from] + x + ls[to..];
    SpliceSlice(ls[..from], x, ls[to..], s.start + 1, s.end);
    assert ls[..from][s.start + 1..] == a && ls[to..][..s.end - to] == c;
    CutIsLineSeq(ls[..from], x, ls[to..]);
    CutSection(ls[..from], x, ls[to..], s, after);
    if to == |ls| {
      SpliceSlice(ls[..from], [], [""], s.start + 1, s.end - |x| + 1);
      assert c == [] && a + [] == a && [""][..1] == [""] && ls[..from] + [] == ls[..from];
      ParseBlankTail(a);
    } else {
      SpliceSlice(ls[..from], [], ls[to..], s.start + 1, s.end - |x|);
      assert a + [] == a && ls[..from] + [] == ls[..from];
    }
  }

  lemma ParseBlankTail(ls: seq<string>)
    ensures Parse(ls + [""]) == Parse(ls)
  {
    ParseConcat(ls, [""]);
    assert TrimSpace(Chomp("")) == "";
    assert Parse([""]) == Doc([], []);
    AppendPlain(Parse(ls), Doc([], []));
  }

  // -------------------------------------------------------------- insertion

  /** The fields an update writes, as text without the newline. */
  function KeptTexts(fields: seq<Field>): seq<string> {
    if fields == [] then []
    else (if fields[0].present then ["    " + fields[0].key + fields[0].value] else []) + KeptTexts(fields[1..])
  }

  function NewEntry(name: string, u: PathUpdate): Entry {
    Entry("  " + name + ":", KeptTexts(Fields(u)))
  }

  predicate EntryIsAllOthers(e: Entry) {
    HasPrefix(e.head, "  all_others:")
  }

  function AllOthersIndex(es: seq<Entry>): (k: nat)
    ensures k <= |es|
  {
    if es == [] || EntryIsAllOthers(es[0]) then 0 else 1 + AllOthersIndex(es[1..])
  }

  function DocInsert(d: Doc, e: Entry): Doc {
    var k := AllOthersIndex(d.entries);
    Doc(d.prelude, d.entries[..k] + [e] + d.entries[k..])
  }

  lemma {:induction false} AllOthersIndexSplit(p: seq<Entry>, q: seq<Entry>)
    requires forall i :: 0 <= i < |p| ==> !EntryIsAllOthers(p[i])
    requires q == [] || EntryIsAllOthers(q[0])
    ensures AllOthersIndex(p + q) == |p|
  {
    if p == [] {
      assert p + q == q;
    } else {
      assert (p + q)[1..] == p[1..] + q;
      AllOthersIndexSplit(p[1..], q);
    }
  }

  lemma {:induction false} ParseNotAllOthers(ls: seq<string>)
    requires forall i :: 0 <= i < |ls| ==> !IsAllOthers(ls[i])
    ensures forall k :: 0 <= k < |Parse(ls).entries| ==> !EntryIsAllOthers(Parse(ls).entries[k])
  {
    if ls != [] {
      ParseNotAllOthers(ls[1..]);
    }
  }

  predicate WrittenField(f: Field) {
    CleanField(f) && f.key != "" && !IsSpace(f.key[0]) && f.key[0] != '#'
  }

  lemma FieldLineIsBody(f: Field, d: Doc)
    requires WrittenField(f)
    ensures Step(f.Line(), d) == Doc(["    " + f.key + f.value] + d.prelude, d.entries)
  {
    var line := "    " + f.key + f.value;
    FieldLineFacts(f);
    ChompTerminated(line);
    NotEndsBlockNotHead(f.Line());
    var rest := f.key + f.value;
    assert line == "    " + rest;
    TrimLeftPad("    ", rest);
    TrimRightPrefix(rest);
    assert rest[0] == f.key[0];
  }

  lemma {:induction false} ParseKept(fields: seq<Field>)
    requires forall i :: 0 <= i < |fields| ==> WrittenField(fields[i])
    ensures Parse(Kept(fields)) == Doc(KeptTexts(fields), [])
  {
    hide Step, WrittenField;
    if fields != [] {
      ParseKept(fields[1..]);
      if fields[0].present {
        var l := fields[0].Line();
        assert Kept(fields) == [l] + Kept(fields[1..]);
        assert ([l] + Kept(fields[1..]))[1..] == Kept(fields[1..]);
        FieldLineIsBody(fields[0], Doc(KeptTexts(fields[1..]), []));
      } else {
        assert Kept(fields) == Kept(fields[1..]);
        assert KeptTexts(fields) == KeptTexts(fields[1..]);
      }
    }
  }

  lemma FieldsWritten(u: PathUpdate)
    requires SingleLine(u)
    ensures forall i :: 0 <= i < |Fields(u)| ==> WrittenField(Fields(u)[i])
  {
    CleanFields(u);
  }

  lemma ParseBlock(name: string, u: PathUpdate)
    requires ValidName(name) && SingleLine(u)
    ensures Parse(BlockLines(name, u)) == Doc([], [NewEntry(name, u)])
  {
    hide Step, WrittenField, Fields, Parse;
    FieldsWritten(u);
    ParseKept(Fields(u));
    var body := BodyLines(u);
    HeadLineIsHead(name);
    CommentLineFacts(name);
    ParseTwo(CommentLine(name), HeadLine(name), body);
    assert BlockLines(name, u) == [CommentLine(name), HeadLine(name)] + body;
    TrimChomp(CommentLine(name));
    BlockSteps(name, Parse(body));
  }

  lemma ParseTwo(a: string, b: string, ls: seq<string>)
    ensures Parse([a, b] + ls) == Step(a, Step(b, Parse(ls)))
  {
    hide Step;
    var two := [a, b] + ls;
    assert two[1..] == [b] + ls && two[1..][1..] == ls;
  }

  lemma BlockSteps(name: string, d: Doc)
    requires TrimSpace(Chomp(CommentLine(name))) == ManagedComment(name)
    requires IsHead(HeadLine(name)) && Chomp(HeadLine(name)) == "  " + name + ":"
    ensures Step(CommentLine(name), Step(HeadLine(name), d)) == Doc([], [Entry("  " + name + ":", d.prelude)] + d.entries)
  {
  }

  /** Splitting the section at the insertion point splits the mapping there. */
  lemma InsertSplits(w: seq<string>, o: Section, p: nat)
    requires w != [] && o.Section? && FindSection(w) == o && !OpenEnded(w) && p == InsertPoint(w)
    ensures o.start < p <= o.end
    ensures var pd, qd := Parse(w[o.start + 1..p]), Parse(w[p..o.end]);
            && qd.prelude == []
            && Parse(w[o.start + 1..o.end]) == Doc(pd.prelude, pd.entries + qd.entries)
            && AllOthersIndex(pd.entries + qd.entries) == |pd.entries|
  {
    hide FindSection, Step, Append, IsHead, EntryIsAllOthers, IsAllOthers, OpenEnded, Parse, AllOthersIndex;
    InsertPointEndsBlock(w, o, p);
    BeforeInsert(w, o, p);
    BehindInsert(w, o, p);
    var pl, ql := w[o.start + 1..p], w[p..o.end];
    ParseConcat(pl, ql);
    assert pl + ql == w[o.start + 1..o.end];
    AppendPlain(Parse(pl), Parse(ql));
    AllOthersIndexSplit(Parse(pl).entries, Parse(ql).entries);
  }

  lemma BeforeInsert(w: seq<string>, o: Section, p: nat)
    requires w != [] && o.Section? && FindSection(w) == o && p == InsertPoint(w) && o.start < p <= o.end
    ensures var es := Parse(w[o.start + 1..p]).entries; forall i :: 0 <= i < |es| ==> !EntryIsAllOthers(es[i])
  {
    hide FindSection, EntryIsAllOthers, IsAllOthers, Parse;
    var at := InsertAt(w, o);
    FirstIndexIs(w[..o.end], o.start + 1, IsAllOthers, at);
    var pl := w[o.start + 1..p];
    forall i | 0 <= i < |pl| ensures !IsAllOthers(pl[i]) {
      assert !IsAllOthers(w[..o.end][o.start + 1 + i]);
    }
    ParseNotAllOthers(pl);
  }

  lemma BehindInsert(w: seq<string>, o: Section, p: nat)
    requires w != [] && o.Section? && FindSection(w) == o && !OpenEnded(w) && p == InsertPoint(w) && o.start < p <= o.end
    ensures var qd := Parse(w[p..o.end]);
            qd.prelude == [] && (qd.entries == [] || EntryIsAllOthers(qd.entries[0]))
  {
    hide FindSection, Step, IsHead, EntryIsAllOthers, IsAllOthers;
    var at, ql := InsertAt(w, o), w[p..o.end];
    FirstIndexIs(w[..o.end], o.start + 1, IsAllOthers, at);
    if at == |w| {
      assert ql == [] + [""];
      ParseBlankTail([]);
    } else if at < o.end {
      AllOthersIsHead(w[at]);
      assert ql[0] == w[at];
      AllOthersStep(w[at], Parse(ql[1..]));
    }
  }

  lemma AllOthersStep(l: string, d: Doc)
    requires IsAllOthers(l) && IsHead(l)
    ensures Step(l, d).prelude == [] && Step(l, d).entries != [] && EntryIsAllOthers(Step(l, d).entries[0])
  {
  }

  lemma DocInsertAt(prelude: seq<string>, p: seq<Entry>, q: seq<Entry>, e: Entry)
    requires AllOthersIndex(p + q) == |p|
    ensures DocInsert(Doc(prelude, p + q), e) == Doc(prelude, p + [e] + q)
  {
    hide AllOthersIndex;
    assert (p + q)[..|p|] == p && (p + q)[|p|..] == q;
  }

  lemma ParseInserted(pl: seq<string>, b: seq<string>, ql: seq<string>, e: Entry)
    requires Parse(b) == Doc([], [e]) && Parse(ql).prelude == []
    ensures Parse(pl + b + ql) == Doc(Parse(pl).prelude, Parse(pl).entries + [e] + Parse(ql).entries)
  {
    hide Parse, Append;
    ParseConcat(pl, b);
    AppendPlain(Parse(pl), Parse(b));
    ParseConcat(pl + b, ql);
    AppendPlain(Parse(pl + b), Parse(ql));
  }

  lemma InsertKeepsSection(w: seq<string>, o: Section, p: nat, b: seq<string>, r: seq<string>)
    requires o.Section? && FindSection(w) == o && o.start < p <= o.end
    requires r == w[..p] + b + w[p..] && forall i :: 0 <= i < |b| ==> !EndsSection(b[i])
    ensures FindSection(r) == Section(o.start, o.end + |b|)
  {
    hide *;
    assert w == w[..p] + [] + w[p..];
    FindSplice(w[..p], [], w[p..], b, o, r);
  }

  lemma InsertDocs(w: seq<string>, o: Section, p: nat, b: seq<string>, r: seq<string>, e: Entry)
    requires w != [] && o.Section? && FindSection(w) == o && !OpenEnded(w) && p == InsertPoint(w)
    requires r == w[..p] + b + w[p..] && Parse(b) == Doc([], [e])
    requires forall i :: 0 <= i < |b| ==> !EndsSection(b[i])
    ensures FindSection(r).Section?
    ensures Parse(SectionLines(r)) == DocInsert(Parse(SectionLines(w)), e)
  {
    hide *;
    InsertSplits(w, o, p);
    InsertKeepsSection(w, o, p, b, r);
    var pl, ql := w[o.start + 1..p], w[p..o.end];
    var pd, qd := Parse(pl), Parse(ql);
    ParseInserted(pl, b, ql, e);
    DocInsertAt(pd.prelude, pd.entries, qd.entries, e);
    SectionSlices(w, o, p, b, r);
  }

  lemma SectionSlices(w: seq<string>, o: Section, p: nat, b: seq<string>, r: seq<string>)
    requires o.Section? && FindSection(w) == o && o.start < p <= o.end
    requires r == w[..p] + b + w[p..] && FindSection(r) == Section(o.start, o.end + |b|)
    ensures SectionLines(w) == w[o.start + 1..o.end]
    ensures SectionLines(r) == w[o.start + 1..p] + b + w[p..o.end]
  {
    hide FindSection;
    SpliceSlice(w[..p], b, w[p..], o.start + 1, o.end + |b|);
    assert w[..p][o.start + 1..] == w[o.start + 1..p] && w[p..][..o.end - p] == w[p..o.end];
  }

  /** Completing an unterminated last line does not change what is parsed. */
  lemma CompletedDoc(content: string, s: Section)
    requires FindSection(Lines(content)) == s && s.Section? && s.start + 1 < s.end == |Lines(content)|
    ensures FindSection(Lines(content + "\n")).Section?
    ensures SectionDoc(content + "\n") == SectionDoc(content)
  {
    hide Lines, FindSection, Parse, Step;
    var ls, c := Lines(content), Lines(content + "\n");
    LinesProper(content);
    CompletedLines(content, ls);
    CompletedSection(ls, s, c);
    var k := |ls| - 1;
    var init := ls[s.start + 1..k];
    assert ls[s.start + 1..s.end] == init + [Tail(ls)];
    assert c == ls[..k] + [Tail(ls) + "\n"] + [""];
    SpliceSlice(ls[..k], [Tail(ls) + "\n"], [""], s.start + 1, s.end + 1);
    assert ls[..k][s.start + 1..] == init && [""][..1] == [""];
    ParseBlankTail(init + [Tail(ls) + "\n"]);
    ParseConcat(init, [Tail(ls)]);
    ParseConcat(init, [Tail(ls) + "\n"]);
    ChompTerminated(Tail(ls));
    ParseChomped(Tail(ls), Tail(ls) + "\n");
  }

  lemma ParseChomped(a: string, b: string)
    requires Chomp(a) == Chomp(b)
    ensures Parse([a]) == Parse([b])
  {
  }

  /** For every file with a section, a set that does not glue puts exactly one new
      entry into the mapping that the removal left, before `all_others` or last. */
  lemma SetInserts(content: string, name: string, u: PathUpdate)
    requires ValidName(name) && SingleLine(u)
    requires RemoveBlock(content, name).Removal? && !Glues(content, name)
    ensures SetText(content, name, u).Replacement?
    ensures FindSection(Lines(SetText(content, name, u).text)).Section?
    ensures FindSection(Lines(RemoveBlock(content, name).text)).Section?
    ensures SectionDoc(SetText(content, name, u).text)
            == DocInsert(SectionDoc(RemoveBlock(content, name).text), NewEntry(name, u))
  {
    RemovalKeepsSection(content, name);
    var r := RemoveBlock(content, name);
    var w := Lines(r.text);
    if OpenEnded(w) {
      var o := FindSection(w);
      SetCompletes(content, name, u, o);
      CompletedDoc(content, o);
      SetInsertsClosed(content + "\n", name, u);
    } else {
      SetInsertsClosed(content, name, u);
    }
  }

  lemma SetInsertsClosed(content: string, name: string, u: PathUpdate)
    requires ValidName(name) && SingleLine(u)
    requires RemoveBlock(content, name).Removal? && !OpenEnded(Lines(RemoveBlock(content, name).text))
    ensures SetText(content, name, u).Replacement?
    ensures FindSection(Lines(SetText(content, name, u).text)).Section?
    ensures FindSection(Lines(RemoveBlock(content, name).text)).Section?
    ensures SectionDoc(SetText(content, name, u).text)
            == DocInsert(SectionDoc(RemoveBlock(content, name).text), NewEntry(name, u))
  {
    hide RemoveBlock, Lines, FindSection, OpenEnded, InsertPoint, Parse, DocInsert;
    SetLines(content, name, u);
    var w, b := Lines(RemoveBlock(content, name).text), BlockLines(name, u);
    var p := InsertPoint(w);
    RenderedIsBlock(name, u);
    ParseBlock(name, u);
    InsertDocs(w, FindSection(w), p, b, w[..p] + b + w[p..], NewEntry(name, u));
  }

  // ----------------------------------------------------------- the map itself

  function UpToColon(s: string): string {
    if s == "" || s[0] == ':' then "" else [s[0]] + UpToColon(s[1..])
  }

  function Key(e: Entry): string {
    UpToColon(TrimSpace(e.head))
  }

  function ToMap(es: seq<Entry>): map<string, seq<string>> {
    if es == [] then map[] else ToMap(es[1..])[Key(es[0]) := es[0].body]
  }

  ghost predicate DistinctKeys(es: seq<Entry>) {
    forall i, j :: 0 <= i < j < |es| ==> Key(es[i]) != Key(es[j])
  }

  /** The key is written bare, as `name:` with nothing behind it. */
  ghost predicate BareKey(es: seq<Entry>, name: string) {
    forall i :: 0 <= i < |es| && Key(es[i]) == name ==> EntryNamed(es[i], name)
  }

  lemma {:induction false} UpToColonOf(name: string, rest: string)
    requires forall i :: 0 <= i < |name| ==> name[i] != ':'
    ensures UpToColon(name + ":" + rest) == name
  {
    if name != "" {
      assert (name + ":" + rest)[1..] == name[1..] + ":" + rest;
      UpToColonOf(name[1..], rest);
    }
  }

  lemma NamedKey(e: Entry, name: string)
    requires ValidName(name) && EntryNamed(e, name)
    ensures Key(e) == name
  {
    UpToColonOf(name, "");
    assert name + ":" + "" == name + ":";
  }

  lemma {:induction false} ToMapConcat(a: seq<Entry>, b: seq<Entry>)
    ensures ToMap(a + b) == ToMap(b) + ToMap(a)
  {
    hide Key;
    if a == [] {
      assert a + b == b;
    } else {
      assert (a + b)[1..] == a[1..] + b;
      ToMapConcat(a[1..], b);
    }
  }

  lemma {:induction false} ToMapKeys(es: seq<Entry>)
    ensures forall k :: k in ToMap(es) <==> exists i :: 0 <= i < |es| && Key(es[i]) == k
  {
    hide Key;
    if es != [] {
      ToMapKeys(es[1..]);
      forall k ensures k in ToMap(es) <==> exists i :: 0 <= i < |es| && Key(es[i]) == k {
        if k in ToMap(es[1..]) {
          var i :| 0 <= i < |es[1..]| && Key(es[1..][i]) == k;
          assert Key(es[i + 1]) == k;
        }
        if exists i :: 0 <= i < |es| && Key(es[i]) == k {
          var i :| 0 <= i < |es| && Key(es[i]) == k;
          if i > 0 { assert Key(es[1..][i - 1]) == k; }
        }
      }
    }
  }

  lemma ToMapSplice(p: seq<Entry>, e: Entry, q: seq<Entry>)
    requires forall i :: 0 <= i < |p| ==> Key(p[i]) != Key(e)
    requires forall i :: 0 <= i < |q| ==> Key(q[i]) != Key(e)
    ensures Key(e) !in ToMap(p + q)
    ensures ToMap(p + [e] + q) == ToMap(p + q)[Key(e) := e.body]
  {
    hide Key, ToMap;
    ToMapConcat(p, q);
    ToMapConcat(p + [e], q);
    ToMapConcat(p, [e]);
    ToMapKeys(p);
    ToMapKeys(q);
    assert ToMap([e]) == map[Key(e) := e.body] by { ToMapOne(e); }
  }

  lemma ToMapOne(e: Entry)
    ensures ToMap([e]) == map[Key(e) := e.body]
  {
    assert [e][1..] == [];
  }

  lemma DeleteMap(d: Doc, name: string)
    requires ValidName(name) && DistinctKeys(d.entries) && BareKey(d.entries, name)
    ensures ToMap(DocDelete(d, name).entries) == ToMap(d.entries) - {name}
    ensures name !in ToMap(DocDelete(d, name).entries)
  {
    hide Key, EntryNamed, ToMap;
    var k := IndexOf(d.entries, name);
    if k == |d.entries| {
      ToMapKeys(d.entries);
      forall i | 0 <= i < |d.entries| ensures Key(d.entries[i]) != name {
        assert !EntryNamed(d.entries[i], name);
      }
    } else {
      NamedKey(d.entries[k], name);
      DeleteMapAt(d.entries, k);
    }
  }

  lemma DeleteMapAt(es: seq<Entry>, k: nat)
    requires k < |es| && DistinctKeys(es)
    ensures ToMap(es[..k] + es[k + 1..]) == ToMap(es) - {Key(es[k])} && Key(es[k]) !in ToMap(es[..k] + es[k + 1..])
  {
    hide Key, ToMap;
    var p, e, q := es[..k], es[k], es[k + 1..];
    assert forall i :: 0 <= i < |p| ==> p[i] == es[i];
    assert forall i :: 0 <= i < |q| ==> q[i] == es[k + 1 + i];
    ToMapSplice(p, e, q);
    assert p + [e] + q == es;
  }

  lemma InsertMap(d: Doc, e: Entry)
    requires Key(e) !in ToMap(d.entries)
    ensures ToMap(DocInsert(d, e).entries) == ToMap(d.entries)[Key(e) := e.body]
  {
    hide Key, ToMap, AllOthersIndex;
    var k := AllOthersIndex(d.entries);
    var p, q := d.entries[..k], d.entries[k..];
    ToMapKeys(d.entries);
    assert forall i :: 0 <= i < |p| ==> p[i] == d.entries[i];
    assert forall i :: 0 <= i < |q| ==> q[i] == d.entries[k + i];
    ToMapSplice(p, e, q);
    assert p + q == d.entries;
  }

  /** The parsed entries of a file. */
  function Entries(content: string): map<string, seq<string>>
    requires FindSection(Lines(content)).Section?
  {
    ToMap(SectionDoc(content).entries)
  }

  /** What the mapping must look like for the line editor to act on it entry by entry. */
  ghost predicate Editable(content: string, name: string) {
    && FindSection(Lines(content)).Section?
    && var d := SectionDoc(content);
    && DistinctKeys(d.entries) && BareKey(d.entries, name)
    && (RemoveBlock(content, name).found ==> Contiguous(content, name))
  }

  /** DeletePath refines removing the key from the parsed mapping. */
  lemma DeletePathRefinesMap(content: string, name: string)
    requires ValidName(name) && Editable(content, name)
    requires RemoveBlock(content, name).Removal? && RemoveBlock(content, name).found
    ensures FindSection(Lines(RemoveBlock(content, name).text)).Section?
    ensures name in Entries(content)
    ensures Entries(RemoveBlock(content, name).text) == Entries(content) - {name}
    ensures SectionDoc(RemoveBlock(content, name).text).prelude == SectionDoc(content).prelude
  {
    hide RemoveBlock, Parse, ToMap, DistinctKeys, BareKey, Key, EntryNamed;
    DeleteRefines(content, name);
    var d := SectionDoc(content);
    DeleteMap(d, name);
    FoundIsEntry(content, name);
    var k := IndexOf(d.entries, name);
    NamedKey(d.entries[k], name);
    ToMapKeys(d.entries);
  }

  /** A contiguous match is an entry of the mapping. */
  lemma FoundIsEntry(content: string, name: string)
    requires ValidName(name) && Contiguous(content, name)
    ensures IndexOf(SectionDoc(content).entries, name) < |SectionDoc(content).entries|
  {
    hide EntryNamed, IsHead, Step, Parse, Lines, FindSection, MatchAt, CutTo, CutFrom;
    var ls := Lines(content);
    var s := FindSection(ls);
    var index := MatchAt(ls, s, name);
    var from, to := CutFrom(ls, s, name, index), CutTo(ls, s, index);
    MatchAtFirst(ls, s, name);
    ParseCut(ls, s, name, index, from, to);
    var a, x, c := ls[s.start + 1..from], ls[from..to], ls[to..s.end];
    assert ls[s.start + 1..s.end] == a + x + c;
    EntryInside(a, x, c, name);
  }

  lemma EntryInside(a: seq<string>, x: seq<string>, c: seq<string>, name: string)
    requires |Parse(x).entries| == 1 && Parse(x).prelude == [] && EntryNamed(Parse(x).entries[0], name) && Parse(c).prelude == []
    ensures var es := Parse(a + x + c).entries; IndexOf(es, name) < |es|
  {
    hide Parse, Append, EntryNamed;
    ParseConcat(a, x);
    AppendPlain(Parse(a), Parse(x));
    ParseConcat(a + x, c);
    AppendPlain(Parse(a + x), Parse(c));
    var es := Parse(a + x + c).entries;
    assert es[|Parse(a).entries|] == Parse(x).entries[0];
  }

  lemma RemovedDoc(content: string, name: string)
    requires ValidName(name) && Editable(content, name)
    ensures RemoveBlock(content, name).Removal?
    ensures FindSection(Lines(RemoveBlock(content, name).text)).Section?
    ensures SectionDoc(RemoveBlock(content, name).text) == DocDelete(SectionDoc(content), name)
  {
    hide Lines, FindSection, Parse, DistinctKeys, BareKey, Contiguous, DocDelete;
    if RemoveBlock(content, name).found {
      DeleteRefines(content, name);
    } else {
      AbsentDeletes(content, name);
    }
  }

  /** SetPath refines the map update, whether or not the name was there, and the
      content lines before the first key stay as they were. */
  lemma SetPathRefinesMap(content: string, name: string, u: PathUpdate)
    requires ValidName(name) && SingleLine(u) && Editable(content, name)
    requires !Glues(content, name)
    ensures SetText(content, name, u).Replacement?
    ensures FindSection(Lines(SetText(content, name, u).text)).Section?
    ensures Entries(SetText(content, name, u).text) == Entries(content)[name := KeptTexts(Fields(u))]
    ensures SectionDoc(SetText(content, name, u).text).prelude == SectionDoc(content).prelude
  {
    hide RemoveBlock, Lines, FindSection, SectionDoc, ToMap, DistinctKeys, BareKey, Key, SetText, Fields, Contiguous, Glues;
    RemovedDoc(content, name);
    SetInserts(content, name, u);
    var d, e := SectionDoc(content), NewEntry(name, u);
    NewEntryNamed(name, u);
    NamedKey(e, name);
    DeleteMap(d, name);
    InsertMap(DocDelete(d, name), e);
    assert (ToMap(d.entries) - {name})[name := e.body] == ToMap(d.entries)[name := e.body];
  }

  lemma NewEntryNamed(name: string, u: PathUpdate)
    requires ValidName(name)
    ensures EntryNamed(NewEntry(name, u), name)
  {
    NameTrims(name);
    TrimPadded("  ", name + ":", "");
    assert "  " + (name + ":") + "" == "  " + name + ":";
  }

  /** Without a match there is no entry of that name. */
  lemma AbsentDeletes(content: string, name: string)
    requires FindSection(Lines(content)).Section? && NotNamed(content, name)
    ensures DocDelete(SectionDoc(content), name) == SectionDoc(content)
  {
    hide EntryNamed, Parse, Lines, FindSection, MatchAt, Names;
    var ls := Lines(content);
    var s := FindSection(ls);
    MatchAtFirst(ls, s, name);
    ParseUnnamed(ls[s.start + 1..s.end], name);
  }

  // ------------------------------------------------------------------ frame

  /** A set leaves the file's preamble, the `paths:` line and every later section
      as they were, line by line. */
  lemma SetStaysInSection(content: string, name: string, u: PathUpdate)
    requires ValidName(name) && SingleLine(u)
    requires RemoveBlock(content, name).Removal? && !OpenEnded(Lines(RemoveBlock(content, name).text))
    ensures SetText(content, name, u).Replacement?
    ensures var ls, r := Lines(content), Lines(SetText(content, name, u).text); var s := FindSection(ls);
            && s.Section? && |r| >= s.start + 1 + |ls| - s.end
            && r[..s.start + 1] == ls[..s.start + 1]
            && r[|r| - (|ls| - s.end)..] == ls[s.end..]
  {
    hide RemoveBlock, Lines, FindSection, OpenEnded, Cut, InsertAt, SetText, BlockLines;
    SetLines(content, name, u);
    var ls, w := Lines(content), Lines(RemoveBlock(content, name).text);
    var o, p := FindSection(w), InsertPoint(w);
    InsertPointEndsBlock(w, o, p);
    RemovalStaysInSection(content, name, ls, w);
    SpliceKeepsEnds(w, BlockLines(name, u), p, o.start + 1, |w| - o.end);
  }

  lemma RemovalStaysInSection(content: string, name: string, ls: seq<string>, w: seq<string>)
    requires RemoveBlock(content, name).Removal? && ls == Lines(content) && w == Lines(RemoveBlock(content, name).text)
    ensures var s, o := FindSection(ls), FindSection(w);
            && s.Section? && o.Section? && s.start == o.start && |w| - o.end == |ls| - s.end
            && w[..o.start + 1] == ls[..s.start + 1] && w[o.end..] == ls[s.end..]
  {
    hide Lines, FindSection, RemoveBlock;
    if RemoveBlock(content, name).found {
      FoundStaysInSection(content, name, ls, w);
    } else {
      NotFoundSame(content, name);
    }
  }

  lemma FoundStaysInSection(content: string, name: string, ls: seq<string>, w: seq<string>)
    requires RemoveBlock(content, name).Removal? && RemoveBlock(content, name).found
    requires ls == Lines(content) && w == Lines(RemoveBlock(content, name).text)
    ensures var s, o := FindSection(ls), FindSection(w);
            && s.Section? && o.Section? && s.start == o.start && |w| - o.end == |ls| - s.end
            && w[..o.start + 1] == ls[..s.start + 1] && w[o.end..] == ls[s.end..]
  {
    hide Lines, FindSection, RemoveBlock, Join, Cut, MatchAt, CutFrom, CutTo, OwnLines, EndsBlock;
    var s, a, x, c, after := RemovedLines(content, ls, name);
    CutKeepsEnds(a, x, c, s.start, s.end);
  }

  lemma NotFoundSame(content: string, name: string)
    requires RemoveBlock(content, name).Removal? && !RemoveBlock(content, name).found
    ensures RemoveBlock(content, name).text == content && FindSection(Lines(content)).Section?
  {
    hide Lines, FindSection, MatchAt, CutFrom, CutTo;
  }

  lemma CutKeepsEnds(a: seq<string>, x: seq<string>, c: seq<string>, start: nat, end: nat)
    requires start < |a| && |a| + |x| <= end <= |a| + |x| + |c|
    ensures var ls, w, o := a + x + c, Cut(a, c), end - |x| + (if c == [] then 1 else 0);
            && o <= |w| && |w| - o == |ls| - end
            && w[..start + 1] == ls[..start + 1] && w[o..] == ls[end..]
  {
  }

  lemma SpliceKeepsEnds(w: seq<string>, b: seq<string>, p: nat, head: nat, tail: nat)
    requires head <= p && p + tail <= |w|
    ensures var r := w[..p] + b + w[p..];
            r[..head] == w[..head] && r[|r| - tail..] == w[|w| - tail..]
  {
  }
}
