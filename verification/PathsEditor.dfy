/** The line editor of internal/mediamtx/config_file.go: it locates the top-level
    `paths` section, cuts one managed entry out and splices a rendered one in.
    The methods follow the source's loops; the functions beside them say what
    those loops find. */
module PathsEditor {
  import opened Text

  // ---------------------------------------------------------------- lines

  predicate IsPathsLine(raw: string) {
    var line := Chomp(raw);
    TrimSpace(line) == "paths:" && !HasPrefix(line, " ")
  }

  predicate EndsSection(raw: string) {
    var line := Chomp(raw);
    line != "" && line[0] != ' ' && line[0] != '#'
  }

  predicate Names(raw: string, name: string) {
    TrimSpace(Chomp(raw)) == name + ":"
  }

  predicate EndsBlock(raw: string) {
    var line := Chomp(raw);
    line == "" || !HasPrefix(line, " ") || (HasPrefix(line, "  ") && !HasPrefix(line, "    "))
  }

  predicate IsAllOthers(raw: string) {
    HasPrefix(Chomp(raw), "  all_others:")
  }

  function ManagedComment(name: string): string {
    "# DronService managed path: " + name
  }

  // -------------------------------------------------------------- section

  datatype Section = NoSection | ManySections | Section(start: nat, end: nat)

  function FindSection(ls: seq<string>): (r: Section)
    ensures r.Section? ==> r.start < r.end <= |ls|
  {
    var start := FirstIndex(ls, 0, IsPathsLine);
    if start == |ls| then NoSection
    else if FirstIndex(ls, start + 1, IsPathsLine) < |ls| then ManySections
    else Section(start, FirstIndex(ls, start + 1, EndsSection))
  }

  /** What it means for lines start+1..end to be the one `paths` section. */
  ghost predicate IsSection(ls: seq<string>, start: nat, end: nat) {
    && start < end <= |ls|
    && IsPathsLine(ls[start])
    && (forall i :: 0 <= i < |ls| && i != start ==> !IsPathsLine(ls[i]))
    && (forall i :: start < i < end ==> !EndsSection(ls[i]))
    && (end < |ls| ==> EndsSection(ls[end]))
  }

  lemma SectionFound(ls: seq<string>, start: nat, end: nat)
    ensures FindSection(ls) == Section(start, end) <==> IsSection(ls, start, end)
  {
    FirstIndexIs(ls, 0, IsPathsLine, start);
    if start < |ls| {
      FirstIndexIs(ls, start + 1, IsPathsLine, |ls|);
      FirstIndexIs(ls, start + 1, EndsSection, end);
    }
  }

  lemma NoSectionFound(ls: seq<string>)
    requires forall i :: 0 <= i < |ls| ==> !IsPathsLine(ls[i])
    ensures FindSection(ls) == NoSection
  {
    FirstIndexIs(ls, 0, IsPathsLine, |ls|);
  }

  lemma ManySectionsFound(ls: seq<string>, i: nat, j: nat)
    requires i < j < |ls| && IsPathsLine(ls[i]) && IsPathsLine(ls[j])
    ensures FindSection(ls) == ManySections
  {
    var start := FirstIndex(ls, 0, IsPathsLine);
    FirstIndexIs(ls, 0, IsPathsLine, start);
    FirstIndexIs(ls, start + 1, IsPathsLine, |ls|);
  }

  method PathsSection(ls: seq<string>) returns (r: Section)
    ensures r == FindSection(ls)
  {
    var start := -1;
    for index := 0 to |ls|
      invariant -1 <= start < index
      invariant start >= 0 ==> IsPathsLine(ls[start])
      invariant forall i :: 0 <= i < index && i != start ==> !IsPathsLine(ls[i])
    {
      if IsPathsLine(ls[index]) {
        if start != -1 {
          ManySectionsFound(ls, start, index);
          return ManySections;
        }
        start := index;
      }
    }
    if start == -1 {
      NoSectionFound(ls);
      return NoSection;
    }
    var end := ScanSectionEnd(ls, start);
    SectionFound(ls, start, end);
    return Section(start, end);
  }

  method ScanSectionEnd(ls: seq<string>, start: nat) returns (end: nat)
    requires start < |ls|
    ensures start < end <= |ls|
    ensures forall i :: start < i < end ==> !EndsSection(ls[i])
    ensures end < |ls| ==> EndsSection(ls[end])
  {
    end := start + 1;
    while end < |ls|
      invariant start < end <= |ls|
      invariant forall i :: start < i < end ==> !EndsSection(ls[i])
    {
      if EndsSection(ls[end]) { break; }
      end := end + 1;
    }
  }

  // -------------------------------------------------------------- removal

  /** The first line of the section that trims to `name:`, or the section's end. */
  function MatchAt(ls: seq<string>, s: Section, name: string): (k: nat)
    requires s.Section? && s.start < s.end <= |ls|
    ensures s.start < k <= s.end
  {
    FirstIndex(ls[..s.end], s.start + 1, (l: string) => Names(l, name))
  }

  function CutFrom(ls: seq<string>, s: Section, name: string, index: nat): (k: nat)
    requires s.Section? && s.start < index < s.end <= |ls|
    ensures s.start < k <= index <= k + 1
  {
    if index > s.start + 1 && TrimSpace(ls[index - 1]) == ManagedComment(name) then index - 1 else index
  }

  function CutTo(ls: seq<string>, s: Section, index: nat): (k: nat)
    requires s.Section? && s.start < index < s.end <= |ls|
    ensures index < k <= s.end
  {
    FirstIndex(ls[..s.end], index + 1, EndsBlock)
  }

  lemma MatchAtIs(ls: seq<string>, s: Section, name: string, k: nat)
    requires s.Section? && s.start < k <= s.end <= |ls|
    requires k < s.end ==> Names(ls[k], name)
    requires forall i :: s.start < i < k ==> !Names(ls[i], name)
    ensures MatchAt(ls, s, name) == k
  {
    FirstIndexIs(ls[..s.end], s.start + 1, (l: string) => Names(l, name), k);
  }

  lemma MatchAtFirst(ls: seq<string>, s: Section, name: string)
    requires s.Section? && s.start < s.end <= |ls|
    ensures var k := MatchAt(ls, s, name);
            && (k < s.end ==> Names(ls[k], name))
            && forall i :: s.start < i < k ==> !Names(ls[i], name)
  {
    var k := MatchAt(ls, s, name);
    var sec := ls[..s.end];
    var p := (l: string) => Names(l, name);
    FirstIndexIs(sec, s.start + 1, p, k);
    forall i | s.start < i < k ensures !Names(ls[i], name) {
      assert !p(sec[i]);
    }
  }

  lemma CutToIs(ls: seq<string>, s: Section, index: nat, k: nat)
    requires s.Section? && s.start < index < k <= s.end <= |ls|
    requires k < s.end ==> EndsBlock(ls[k])
    requires forall i :: index < i < k ==> !EndsBlock(ls[i])
    ensures CutTo(ls, s, index) == k
  {
    FirstIndexIs(ls[..s.end], index + 1, EndsBlock, k);
  }

  datatype Removal = RemovalFailed | Removal(text: string, found: bool)

  function RemoveBlock(content: string, name: string): Removal {
    var ls := Lines(content);
    var s := FindSection(ls);
    if !s.Section? then RemovalFailed
    else
      var index := MatchAt(ls, s, name);
      if index == s.end then Removal(content, false)
      else Removal(Join(ls[..CutFrom(ls, s, name, index)] + ls[CutTo(ls, s, index)..]), true)
  }

  /** The inner loop of the removal: how far the entry reaches. */
  method ScanBlock(ls: seq<string>, s: Section, index: nat) returns (blockEnd: nat)
    requires s.Section? && s.start < index < s.end <= |ls|
    ensures blockEnd == CutTo(ls, s, index)
  {
    blockEnd := index + 1;
    while blockEnd < s.end
      invariant index < blockEnd <= s.end
      invariant forall i :: index < i < blockEnd ==> !EndsBlock(ls[i])
    {
      if EndsBlock(ls[blockEnd]) { break; }
      blockEnd := blockEnd + 1;
    }
    CutToIs(ls, s, index, blockEnd);
  }

  /** The outer loop of the removal: which line is the entry's. */
  method ScanNames(ls: seq<string>, s: Section, name: string) returns (index: nat)
    requires s.Section? && s.start < s.end <= |ls|
    ensures index == MatchAt(ls, s, name)
  {
    index := s.start + 1;
    while index < s.end
      invariant s.start < index <= s.end
      invariant forall i :: s.start < i < index ==> !Names(ls[i], name)
    {
      if Names(ls[index], name) { break; }
      index := index + 1;
    }
    MatchAtIs(ls, s, name, index);
  }

  method RemovePathBlock(content: string, name: string) returns (r: Removal)
    ensures r == RemoveBlock(content, name)
  {
    var ls := Lines(content);
    var s := PathsSection(ls);
    if !s.Section? { return RemovalFailed; }
    var index := ScanNames(ls, s, name);
    if index == s.end { return Removal(content, false); }
    var blockStart := CutFrom(ls, s, name, index);
    var blockEnd := ScanBlock(ls, s, index);
    return Removal(Join(ls[..blockStart] + ls[blockEnd..]), true);
  }

  // ------------------------------------------------------------ insertion

  function InsertAt(ls: seq<string>, s: Section): (k: nat)
    requires s.Section? && s.start < s.end <= |ls|
    ensures s.start < k <= s.end
  {
    FirstIndex(ls[..s.end], s.start + 1, IsAllOthers)
  }

  predicate EndsWithNewline(s: string) {
    s != "" && s[|s| - 1] == NEWLINE
  }

  datatype Replacement = ReplacementFailed | Replacement(text: string)

  function ReplaceBlock(content: string, name: string, block: string): Replacement {
    match RemoveBlock(content, name)
    case RemovalFailed => ReplacementFailed
    case Removal(without, found) =>
      var ls := Lines(without);
      var s := FindSection(ls);
      if !s.Section? then ReplacementFailed
      else
        var at := InsertAt(ls, s);
        var separated := !found && at > s.start + 1 && !EndsWithNewline(Join(ls[..at]));
        Replacement(Join(ls[..at]) + (if separated then [NEWLINE] + block else block) + Join(ls[at..]))
  }

  method ScanAllOthers(ls: seq<string>, s: Section) returns (insert: nat)
    requires s.Section? && s.start < s.end <= |ls|
    ensures insert == InsertAt(ls, s)
  {
    hide IsAllOthers;
    insert := s.end;
    for index := s.start + 1 to s.end
      invariant insert == s.end
      invariant forall i :: s.start < i < index ==> !IsAllOthers(ls[i])
    {
      if IsAllOthers(ls[index]) {
        insert := index;
        break;
      }
    }
    FirstIndexIs(ls[..s.end], s.start + 1, IsAllOthers, insert);
  }

  lemma JoinSpliced(before: seq<string>, text: string, after: seq<string>)
    ensures Join(before + ([text] + after)) == Join(before) + text + Join(after)
  {
    JoinConcat(before, [text] + after);
    assert ([text] + after)[1..] == after;
  }

  method ReplacePathBlock(content: string, name: string, block: string) returns (r: Replacement)
    ensures r == ReplaceBlock(content, name, block)
  {
    var removal := RemovePathBlock(content, name);
    if removal.RemovalFailed? { return ReplacementFailed; }
    var ls := Lines(removal.text);
    var s := PathsSection(ls);
    if !s.Section? { return ReplacementFailed; }
    var insert := ScanAllOthers(ls, s);
    var text := block;
    if !removal.found && insert > s.start + 1 && !EndsWithNewline(Join(ls[..insert])) {
      text := [NEWLINE] + block;
    }
    JoinSpliced(ls[..insert], text, ls[insert..]);
    return Replacement(Join(ls[..insert] + ([text] + ls[insert..])));
  }

  // ------------------------------------------------------------ rendering

  datatype PathUpdate = PathUpdate(
    source: string, sourceOnDemand: bool, runOnDemand: string, runOnDemandRestart: bool,
    startTimeout: string, closeAfter: string)

  /** strings.ReplaceAll(value, "'", "''"). */
  function DoubleQuotes(v: string): string {
    if v == "" then "" else (if v[0] == '\'' then "''" else [v[0]]) + DoubleQuotes(v[1..])
  }

  function YamlScalar(v: string): string {
    "'" + DoubleQuotes(v) + "'"
  }

  /** One conditional write of the string builder. */
  datatype Field = Field(present: bool, key: string, value: string) {
    function Line(): string {
      "    " + key + value + "\n"
    }
  }

  /** The conditional writes after the head line, in the source's order. */
  function Fields(u: PathUpdate): seq<Field> {
    [ Field(u.source != "", "source: ", YamlScalar(u.source)),
      Field(u.sourceOnDemand, "sourceOnDemand: yes", ""),
      Field(u.runOnDemand != "", "runOnDemand: ", YamlScalar(u.runOnDemand)),
      Field(u.runOnDemandRestart, "runOnDemandRestart: yes", ""),
      Field(u.startTimeout != "", "runOnDemandStartTimeout: ", u.startTimeout),
      Field(u.closeAfter != "", "runOnDemandCloseAfter: ", u.closeAfter) ]
  }

  function Kept(fields: seq<Field>): seq<string> {
    if fields == [] then []
    else (if fields[0].present then [fields[0].Line()] else []) + Kept(fields[1..])
  }

  function BodyLines(u: PathUpdate): seq<string> {
    Kept(Fields(u))
  }

  function CommentLine(name: string): string {
    "  " + ManagedComment(name) + "\n"
  }

  function HeadLine(name: string): string {
    "  " + name + ":\n"
  }

  function BlockLines(name: string, u: PathUpdate): seq<string> {
    [CommentLine(name), HeadLine(name)] + BodyLines(u)
  }

  /** The string builder: each present field is appended in turn. */
  function Emit(b: string, fields: seq<Field>): string
    decreases |fields|
  {
    if fields == [] then b
    else Emit(if fields[0].present then b + fields[0].Line() else b, fields[1..])
  }

  function RenderBlock(name: string, u: PathUpdate): string {
    Emit(CommentLine(name) + HeadLine(name), Fields(u))
  }

  lemma {:induction false} EmitKept(ls: seq<string>, fields: seq<Field>)
    ensures Emit(Join(ls), fields) == Join(ls + Kept(fields))
    decreases |fields|
  {
    if fields == [] {
      assert ls + Kept(fields) == ls;
    } else {
      var first := if fields[0].present then [fields[0].Line()] else [];
      JoinConcat(ls, first);
      JoinOne(fields[0].Line());
      assert Join(ls + first) == if fields[0].present then Join(ls) + fields[0].Line() else Join(ls);
      EmitKept(ls + first, fields[1..]);
      assert ls + first + Kept(fields[1..]) == ls + Kept(fields);
    }
  }

  /** The builder's text is exactly the entry's lines. */
  lemma RenderedLines(name: string, u: PathUpdate)
    ensures RenderBlock(name, u) == Join(BlockLines(name, u))
  {
    var ls := [CommentLine(name), HeadLine(name)];
    JoinOne(HeadLine(name));
    assert ls[1..] == [HeadLine(name)];
    EmitKept(ls, Fields(u));
  }
}
