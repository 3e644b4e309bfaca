/** Files on which the laws of the editor fail, as their conditions predict. */
module PathsExamples {
  import opened Text
  import opened PathsEditor
  import opened PathsLaws
  import opened PathsRoundTrip
  import opened PathsMap
  import opened PathsRename
  import opened PathsComments
  import opened PathsNames
  import opened ConfigStore

  lemma PathsLineLiteral()
    ensures IsPathsLine("paths:") && IsPathsLine("paths:\n")
  {
    TrimPadded("", "paths:", "");
    assert "" + "paths:" + "" == "paths:";
    assert Chomp("paths:\n") == "paths:" && Chomp("paths:") == "paths:";
  }

  /** A file that is only `paths:` without a newline: the block is glued to it, and
      the section is gone for every later edit. */
  lemma UnterminatedFileBreaksRoundTrip(name: string, u: PathUpdate)
    requires ValidName(name) && SingleLine(u)
    ensures SetText("paths:", name, u).Replacement?
    ensures RemoveBlock(SetText("paths:", name, u).text, name) == RemovalFailed
    ensures Glues("paths:", name)
  {
    hide Lines, FindSection, MatchAt, InsertAt, IsPathsLine, RenderBlock, Join;
    var ls := ["paths:"];
    PathsAlone(name);
    AppendsAtPathsLine("paths:", name, u);
    JoinOne("paths:");
    GluedToPathsLine(ls, Section(0, 1), name, u);
  }

  lemma PathsAlone(name: string)
    ensures var ls := ["paths:"];
            && Lines("paths:") == ls && FindSection(ls) == Section(0, 1)
            && MatchAt(ls, Section(0, 1), name) == 1 && InsertAt(ls, Section(0, 1)) == 1
  {
    var ls := ["paths:"];
    LinesPlain("paths:");
    PathsLineLiteral();
    hide Lines, IsPathsLine;
    SectionFound(ls, 0, 1);
  }

  /** A blank line inside an entry's body: the removal stops there. */
  const SPLIT_BODY := ["paths:\n", "  cam:\n", "\n", "    source: x\n", ""]

  lemma SplitBodyLines()
    ensures Lines(Join(SPLIT_BODY)) == SPLIT_BODY
    ensures FindSection(SPLIT_BODY) == Section(0, 5)
  {
    hide Lines, Join, Terminated, EndsSection, FindSection, TrimSpace, Chomp, IsHead, IsAllOthers, EndsBlock;
    CamLine();
    SourceLine();
    NewlineLine();
    OneSection(SPLIT_BODY);
  }

  lemma NewlineLine()
    ensures Terminated("\n") && !EndsSection("\n") && Terminated("paths:\n") && !EndsSection("")
  {
  }

  /** A file that is one section from its first line on. */
  lemma OneSection(ls: seq<string>)
    requires |ls| > 1 && ls[0] == "paths:\n" && ls[|ls| - 1] == ""
    requires forall i :: 0 < i < |ls| - 1 ==> Terminated(ls[i]) && !EndsSection(ls[i])
    ensures Lines(Join(ls)) == ls && FindSection(ls) == Section(0, |ls|)
  {
    hide Lines, Join, Terminated, EndsSection, IsPathsLine, FindSection, TrimSpace, Chomp, LineSeq;
    PathsLineLiteral();
    NewlineLine();
    EndedLines(ls);
    LinesOfJoin(ls);
    forall i | 0 < i < |ls| ensures !IsPathsLine(ls[i]) {
      PathsLineEndsSection(ls[i]);
    }
    SectionFound(ls, 0, |ls|);
  }

  lemma EndedLines(ls: seq<string>)
    requires |ls| > 0 && ls[|ls| - 1] == "" && forall i :: 0 <= i < |ls| - 1 ==> Terminated(ls[i])
    ensures LineSeq(ls)
  {
    hide Terminated;
    var head := ls[..|ls| - 1];
    forall i | 0 <= i < |head| ensures Terminated(head[i]) {
      assert head[i] == ls[i];
    }
  }

  lemma SplitBodyKinds()
    ensures Names(SPLIT_BODY[1], "cam") && EndsBlock(SPLIT_BODY[2])
    ensures !Skipped(SPLIT_BODY[3]) && !IsHead(SPLIT_BODY[3]) && Skipped(SPLIT_BODY[2])
  {
    hide TrimSpace, Chomp, IsHead, IsAllOthers, Terminated, EndsSection, EndsBlock;
    NewlineSkipped();
    CamLine();
    SourceLine();
  }

  lemma NewlineSkipped()
    ensures EndsBlock("\n") && Skipped("\n")
  {
    assert Chomp("\n") == "" && TrimSpace("") == "";
  }

  /** Deleting such an entry leaves its remaining body behind. */
  lemma SplitBodyIsNotDeleted()
    ensures var content := Join(SPLIT_BODY);
            && RemoveBlock(content, "cam").Removal? && RemoveBlock(content, "cam").found
            && FindSection(Lines(content)).Section?
            && FindSection(Lines(RemoveBlock(content, "cam").text)).Section?
            && SectionDoc(RemoveBlock(content, "cam").text) != DocDelete(SectionDoc(content), "cam")
  {
    hide Names, EndsBlock, IsHead, Skipped, FindSection, Join;
    var ls, s := SPLIT_BODY, Section(0, 5);
    SplitBodyLines();
    SplitBodyKinds();
    MatchAtIs(ls, s, "cam", 1);
    CutToIs(ls, s, 1, 2);
    var rest := ls[2..5];
    assert rest[0] == ls[2] && rest[1..][0] == ls[3];
    assert Parse(rest) == Parse(rest[1..]);
    assert Parse(rest[1..]).prelude != [];
    DeleteRefines(Join(ls), "cam");
  }

  /** A file with one entry, on which the laws hold. */
  const ONE_ENTRY := ["paths:\n", "  cam:\n", "    source: x\n", ""]

  lemma OneEntryLines()
    ensures Lines(Join(ONE_ENTRY)) == ONE_ENTRY
    ensures FindSection(ONE_ENTRY) == Section(0, 4)
  {
    hide Lines, Join, Terminated, EndsSection, FindSection, TrimSpace, Chomp, IsHead, IsAllOthers, EndsBlock;
    CamLine();
    SourceLine();
    OneSection(ONE_ENTRY);
  }

  lemma CamLine()
    ensures Chomp("  cam:\n") == "  cam:" && TrimSpace("  cam:") == "cam:"
    ensures IsHead("  cam:\n") && !IsAllOthers("  cam:\n") && Terminated("  cam:\n") && !EndsSection("  cam:\n")
  {
    TrimPadded("  ", "cam:", "");
    assert "  " + "cam:" + "" == "  cam:" == Chomp("  cam:\n");
    NotPrefixAt("  cam:", "   ", 2);
    NotPrefixAt("  cam:", "  all_others:", 2);
    assert "  cam:"[..2] == "  ";
  }

  const SOURCE := "    source: x"

  lemma SourceLine()
    ensures Chomp("    source: x\n") == SOURCE && TrimSpace(SOURCE) == "source: x"
    ensures !IsHead("    source: x\n") && !IsAllOthers("    source: x\n") && !EndsBlock("    source: x\n")
    ensures Terminated("    source: x\n") && !EndsSection("    source: x\n")
  {
    SourceTrims();
    hide TrimSpace, Chomp;
    NotPrefixAt(SOURCE, "  all_others:", 2);
    assert SOURCE[..1] == " " && SOURCE[..2] == "  " && SOURCE[..3] == "   " && SOURCE[..4] == "    ";
  }

  lemma SourceTrims()
    ensures Chomp("    source: x\n") == SOURCE && TrimSpace(SOURCE) == "source: x"
  {
    TrimPadded("    ", "source: x", "");
    assert "    " + "source: x" + "" == SOURCE == Chomp("    source: x\n");
  }

  lemma EmptyLine()
    ensures TrimSpace(Chomp("")) == "" && Skipped("") && EndsBlock("") && !IsAllOthers("")
  {
  }

  lemma OneEntryParsed()
    ensures Parse(ONE_ENTRY[1..4]) == Doc([], [Entry("  cam:", ["    source: x"])])
    ensures Parse(ONE_ENTRY[3..4]) == Doc([], [])
  {
    assert ONE_ENTRY[3..4] == [""] && [""][1..] == [];
    assert ONE_ENTRY[1..4] == ["  cam:\n", "    source: x\n"] + [""];
    CamLine();
    SourceLine();
    EmptyLine();
    hide TrimSpace, Chomp, IsHead, EndsBlock, IsAllOthers;
    ParseTwo("  cam:\n", "    source: x\n", [""]);
    assert Parse([""]) == Doc([], []);
    assert Step("    source: x\n", Doc([], [])) == Doc(["    source: x"], []);
  }

  lemma OneEntryNames()
    ensures Names(ONE_ENTRY[1], "cam")
    ensures forall i :: 0 < i < 4 ==> !Names(ONE_ENTRY[i], "gate")
  {
    CamLine();
    SourceLine();
    EmptyLine();
    hide TrimSpace, Chomp, IsHead, EndsBlock, IsAllOthers;
    assert "cam" + ":" == "cam:";
    var g := "gate" + ":";
    assert |g| == 5 && "cam:"[0] != g[0] && "source: x"[0] != g[0];
  }

  lemma OneEntryScans()
    ensures MatchAt(ONE_ENTRY, Section(0, 4), "cam") == 1 && MatchAt(ONE_ENTRY, Section(0, 4), "gate") == 4
    ensures CutTo(ONE_ENTRY, Section(0, 4), 1) == 3 && InsertAt(ONE_ENTRY, Section(0, 4)) == 4
  {
    hide TrimSpace, Chomp, IsHead, EndsBlock, IsAllOthers, MatchAt, CutTo, Names;
    var ls, s := ONE_ENTRY, Section(0, 4);
    CamLine();
    SourceLine();
    EmptyLine();
    OneEntryNames();
    MatchAtIs(ls, s, "cam", 1);
    MatchAtIs(ls, s, "gate", 4);
    CutToIs(ls, s, 1, 3);
    forall i | 1 <= i < 4 ensures !IsAllOthers(ls[..4][i]) {
      assert ls[..4][i] == ls[i];
    }
    FirstIndexIs(ls[..4], 1, IsAllOthers, 4);
  }

  lemma OneEntryKey()
    ensures Key(Entry("  cam:", ["    source: x"])) == "cam" && EntryNamed(Entry("  cam:", ["    source: x"]), "cam")
  {
    CamLine();
    hide TrimSpace;
    UpToColonOf("cam", "");
    assert "cam" + ":" + "" == "cam:";
  }

  lemma OneEntryEditable(name: string)
    requires name == "cam" || name == "gate"
    ensures Editable(Join(ONE_ENTRY), name) && Contiguous(Join(ONE_ENTRY), "cam")
  {
    OneEntryLines();
    OneEntryScans();
    OneEntryParsed();
    OneEntryKey();
    CamLine();
    hide Lines, Join, FindSection, Parse, TrimSpace, Chomp, IsHead, MatchAt, CutTo, CutFrom, Key, EntryNamed;
    assert SectionDoc(Join(ONE_ENTRY)) == Doc([], [Entry("  cam:", ["    source: x"])]);
  }

  lemma OneEntryClosed()
    ensures NotNamed(Join(ONE_ENTRY), "gate") && !OpenEnded(Lines(Join(ONE_ENTRY)))
  {
    OneEntryLines();
    OneEntryScans();
    hide Lines, Join, FindSection, MatchAt, InsertAt, CutTo;
  }

  lemma NamesAreValid()
    ensures ValidName("cam") && ValidName("gate") && "cam" != "gate"
  {
    assert "cam"[0] != "gate"[0];
  }

  /** The conditions of the rename theorem can be met: renaming the only entry. */
  lemma RenamingIsPossible(u: PathUpdate)
    requires SingleLine(u) && PlainTimeouts(u)
    ensures Renaming(Join(ONE_ENTRY), "gate", u, "cam")
  {
    hide Lines, Join, OpenEnded, NotNamed, ValidName, Editable, Contiguous, SingleLine, PlainTimeouts, Glues;
    NamesAreValid();
    OneEntryClosed();
    NotGlued(Join(ONE_ENTRY), "gate");
    OneEntryEditable("cam");
    OneEntryEditable("gate");
  }

  /** A comment with one leading space behind the last line of an entry. */
  const KEEP_ME := ["paths:\n", "  cam:\n", "    source: x\n", " # keep me\n", ""]

  lemma KeepLine()
    ensures Chomp(" # keep me\n") == " # keep me" && TrimSpace(" # keep me") == "# keep me"
    ensures !EndsBlock(" # keep me\n") && !EndsSection(" # keep me\n") && IsComment(" # keep me\n")
    ensures Terminated(" # keep me\n")
  {
    var line := " # keep me";
    TrimPadded(" ", "# keep me", "");
    assert " " + "# keep me" + "" == line == Chomp(" # keep me\n");
    hide TrimSpace, Chomp;
    NotPrefixAt(line, "  ", 1);
    assert line[..1] == " ";
  }

  lemma KeepMeLines()
    ensures Lines(Join(KEEP_ME)) == KEEP_ME
    ensures FindSection(KEEP_ME) == Section(0, 5)
  {
    hide Lines, Join, Terminated, EndsSection, FindSection, TrimSpace, Chomp, IsHead, IsAllOthers, EndsBlock, IsComment;
    CamLine();
    SourceLine();
    KeepLine();
    OneSection(KEEP_ME);
  }

  lemma KeepMeScans()
    ensures MatchAt(KEEP_ME, Section(0, 5), "cam") == 1 && CutTo(KEEP_ME, Section(0, 5), 1) == 4
  {
    hide TrimSpace, Chomp, IsHead, EndsBlock, IsAllOthers, MatchAt, CutTo, Names;
    var ls, s := KEEP_ME, Section(0, 5);
    SourceLine();
    KeepLine();
    EmptyLine();
    OneEntryNames();
    assert ls[1] == ONE_ENTRY[1];
    MatchAtIs(ls, s, "cam", 1);
    CutToIs(ls, s, 1, 4);
  }

  /** Deleting the entry above it deletes that comment too, though the entry is
      contiguous: the scan goes on at a line with one leading space. */
  lemma CommentIsDeletedWithEntry()
    ensures var content := Join(KEEP_ME);
            && Contiguous(content, "cam") && CommentInside(content, "cam")
            && RemoveBlock(content, "cam").Removal? && RemoveBlock(content, "cam").found
            && Comments(Lines(RemoveBlock(content, "cam").text)) != Unrelated(content, "cam")
  {
    KeepMeLines();
    KeepMeScans();
    KeepLine();
    CamLine();
    NamesAreValid();
    assert KEEP_ME[4..5] == [""] && [""][1..] == [] && Parse([""]) == Doc([], []) by { EmptyLine(); }
    hide Lines, Join, FindSection, MatchAt, CutTo, CutFrom, Parse, IsHead, IsComment, Comments, ValidName;
    assert IsComment(KEEP_ME[3]);
    RemovalKeepsComments(Join(KEEP_ME), "cam");
  }

  // ------------------------------------------------- a rename whose old name is missing

  const PLAIN := PathUpdate("x", false, "", false, "", "")

  lemma {:induction false} SizeBound(s: string)
    ensures Size(s) <= 4 * |s|
  {
    if s != "" { SizeBound(s[1..]); }
  }

  lemma {:induction false} EmitBound(b: string, fields: seq<Field>)
    requires forall i :: 0 <= i < |fields| ==> |fields[i].key| + |fields[i].value| <= 50
    ensures |Emit(b, fields)| <= |b| + 60 * |fields|
    decreases |fields|
  {
    if fields != [] {
      EmitBound(if fields[0].present then b + fields[0].Line() else b, fields[1..]);
    }
  }

  lemma PlainBlock(name: string)
    requires |name| <= 100
    ensures SingleLine(PLAIN) && PlainTimeouts(PLAIN) && |RenderBlock(name, PLAIN)| <= 1000
  {
    assert |YamlScalar("x")| <= 4 && |YamlScalar("")| <= 2;
    hide YamlScalar, Emit;
    EmitBound(CommentLine(name) + HeadLine(name), Fields(PLAIN));
  }

  /** The file without its entry. */
  const NO_ENTRY := ["paths:\n", ""]

  lemma OneEntryText()
    ensures |Join(ONE_ENTRY)| <= 100 && |Join(NO_ENTRY)| <= 100
  {
    assert ONE_ENTRY[1..][1..] == ONE_ENTRY[2..] && ONE_ENTRY[2..][1..] == [""] && [""][1..] == [];
    assert NO_ENTRY[1..] == [""];
  }

  lemma OneEntryWithout()
    ensures RemoveBlock(Join(ONE_ENTRY), "cam") == Removal(Join(NO_ENTRY), true)
    ensures Lines(Join(NO_ENTRY)) == NO_ENTRY && FindSection(NO_ENTRY) == Section(0, 2)
  {
    OneEntryLines();
    OneEntryScans();
    hide Lines, Join, FindSection, MatchAt, CutTo, InsertAt;
    var s, a, x, c, after := RemovedLines(Join(ONE_ENTRY), ONE_ENTRY, "cam");
    assert |a| == 1 && |a| + |x| == 3;
    assert a == ONE_ENTRY[..1] && c == ONE_ENTRY[3..];
    assert a + c == NO_ENTRY;
  }

  lemma NoEntryClosed()
    ensures NotNamed(Join(NO_ENTRY), "cam") && !OpenEnded(NO_ENTRY)
  {
    OneEntryWithout();
    EmptyLine();
    hide Lines, Join, FindSection, TrimSpace, Chomp, MatchAt, InsertAt;
    assert !Names("", "cam");
    MatchAtIs(NO_ENTRY, Section(0, 2), "cam", 2);
    assert NO_ENTRY[1] == "";
  }

  lemma OneEntryCount()
    ensures NameCount(ONE_ENTRY, "gate") == 0
  {
    OneEntryNames();
    assert !Names(ONE_ENTRY[0], "gate") by {
      PathsLineLiteral();
      assert "paths:"[0] != ("gate" + ":")[0];
    }
    hide Names;
    NameCountNone(ONE_ENTRY, "gate");
  }

  /** Renaming the missing `gate` onto `cam`: the compensating delete takes the entry
      that was there away, and the file is not the old one. */
  lemma RenameOntoEntry()
    ensures var text, f := Join(ONE_ENTRY), Faults(NoFault, NoFault, NoFault); var run := ApplyOn(Regular(text), "cam", PLAIN, "gate", f);
            && MissingRename(text, "cam", PLAIN, "gate", f) && !NotNamed(text, "cam")
            && !run.ok && run.moments[|run.moments| - 1] == Regular(Join(NO_ENTRY)) != Regular(text)
  {
    hide Lines, Join, RemoveBlock, OpenEnded, NameCount, SetText, FindSection, ValidName, SingleLine, PlainTimeouts, Size, Editable, Contiguous, RenderBlock, NotNamed, ApplyOn, MissingRename, Entries;
    var text, f := Join(ONE_ENTRY), Faults(NoFault, NoFault, NoFault);
    PlainBlock("cam");
    OneEntryText();
    OneEntryWithout();
    OneEntryLines();
    OneEntryCount();
    OneEntryEditable("cam");
    NamesAreValid();
    NoEntryClosed();
    CamIsNamed();
    SizeBound(text);
    if SetText(text, "cam", PLAIN).Replacement? {
      SetLength(text, "cam", PLAIN);
      SizeBound(SetText(text, "cam", PLAIN).text);
    }
    MissingRenameHappens(text, "cam", PLAIN, "gate");
    RenameOntoExistingLosesIt(text, "cam", PLAIN, "gate", f, Join(NO_ENTRY));
    MissingRenameUndone(text, "cam", PLAIN, "gate", f);
  }

  lemma SetLength(text: string, name: string, u: PathUpdate)
    requires RemoveBlock(text, name).Removal? && RemoveBlock(text, name).found && SetText(text, name, u).Replacement?
    ensures |SetText(text, name, u).text| == |RemoveBlock(text, name).text| + |RenderBlock(name, u)|
  {
    ReplacedLength(text, name, RenderBlock(name, u));
  }

  lemma CamIsNamed()
    ensures !NotNamed(Join(ONE_ENTRY), "cam")
  {
    OneEntryLines();
    OneEntryScans();
    hide Lines, Join, FindSection, MatchAt, CutTo, InsertAt;
  }
}
