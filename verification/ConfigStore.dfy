/** ConfigFile of internal/mediamtx/config_file.go and the file-mode branch of
    Service.ApplySource in internal/stream/service.go: read, edit, back up and
    replace the file, and rename a path by writing the new name first. */
module ConfigStore {
  import opened Text
  import opened PathsEditor
  import opened PathsLaws
  import opened PathsRoundTrip
  import opened PathsMap
  import opened PathsRename
  import opened PathsNames
  import opened PathsValues

  const MAX_CONFIG_FILE_SIZE: nat := 0x20_0000

  datatype Disk = Missing | Irregular | Regular(text: string)

  /** Where the operating system lets a call down, if anywhere. */
  datatype Fault = NoFault | ReadFault | BackupFault | WriteFault

  datatype Outcome = Done | InvalidName | NotExist | Failed

  /** Bytes of one code point in UTF-8. */
  function CharBytes(c: char): nat {
    if c < '\U{0080}' then 1 else if c < '\U{0800}' then 2 else if c < '\U{10000}' then 3 else 4
  }

  function Size(s: string): nat {
    if s == "" then 0 else CharBytes(s[0]) + Size(s[1..])
  }

  /** f.read(): a regular file within the size limit. */
  predicate Readable(d: Disk, f: Fault) {
    d.Regular? && Size(d.text) <= MAX_CONFIG_FILE_SIZE && f != ReadFault
  }

  datatype Effect = Effect(disk: Disk, outcome: Outcome)

  /** writeConfigFile: back up, write aside, rename over; all or nothing. */
  function WriteOn(d: Disk, text: string, f: Fault): Effect {
    if f == BackupFault || f == WriteFault then Effect(d, Failed) else Effect(Regular(text), Done)
  }

  function SetOn(d: Disk, name: string, u: PathUpdate, f: Fault): Effect {
    if !ValidName(name) then Effect(d, InvalidName)
    else if !Readable(d, f) then Effect(d, Failed)
    else
      match SetText(d.text, name, u)
      case ReplacementFailed => Effect(d, Failed)
      case Replacement(text) => WriteOn(d, text, f)
  }

  function DeleteOn(d: Disk, name: string, f: Fault): Effect {
    if !ValidName(name) then Effect(d, InvalidName)
    else if !Readable(d, f) then Effect(d, Failed)
    else
      match RemoveBlock(d.text, name)
      case RemovalFailed => Effect(d, Failed)
      case Removal(text, found) => if found then WriteOn(d, text, f) else Effect(d, NotExist)
  }

  /** The file's entry of that name says what the update says. */
  ghost predicate Wrote(d: Disk, name: string, u: PathUpdate) {
    d.Regular? && FindSection(Lines(d.text)).Section? && name in Entries(d.text) && Says(Entries(d.text)[name], u)
  }

  lemma WroteBySet(text: string, name: string, u: PathUpdate)
    requires ValidName(name) && SingleLine(u) && Editable(text, name) && !Glues(text, name)
    ensures SetText(text, name, u).Replacement? && Wrote(Regular(SetText(text, name, u).text), name, u)
  {
    hide Lines, FindSection, Entries, Editable, Glues, SetText, Says;
    SetPathSays(text, name, u);
  }

  class ConfigFile {
    var disk: Disk
    var backup: Disk

    constructor (initial: Disk)
      ensures disk == initial && backup == Missing
    {
      disk, backup := initial, Missing;
    }

    /** Replaces the file only after the previous text is in the backup. */
    method Write(text: string, f: Fault) returns (r: Outcome)
      modifies this
      ensures Effect(disk, r) == WriteOn(old(disk), text, f)
      ensures r == Done ==> backup == old(disk)
      ensures f == BackupFault ==> backup == old(backup)
    {
      if f == BackupFault { return Failed; }
      backup := disk;
      if f == WriteFault { return Failed; }
      disk := Regular(text);
      return Done;
    }

    method SetPath(name: string, u: PathUpdate, f: Fault) returns (r: Outcome)
      modifies this
      ensures Effect(disk, r) == SetOn(old(disk), name, u, f)
      ensures r == Done ==> backup == old(disk)
      ensures r != Done ==> disk == old(disk)
      ensures r == Done && old(disk).Regular? && SingleLine(u) && Editable(old(disk).text, name) && !Glues(old(disk).text, name) ==>
                Wrote(disk, name, u)
    {
      hide Editable, Glues, Wrote, SingleLine;
      if !ValidName(name) { return InvalidName; }
      if !Readable(disk, f) { return Failed; }
      var replaced := ReplacePathBlock(disk.text, name, RenderBlock(name, u));
      if replaced.ReplacementFailed? { return Failed; }
      if SingleLine(u) && Editable(disk.text, name) && !Glues(disk.text, name) {
        WroteBySet(disk.text, name, u);
      }
      r := Write(replaced.text, f);
    }

    method DeletePath(name: string, f: Fault) returns (r: Outcome)
      modifies this
      ensures Effect(disk, r) == DeleteOn(old(disk), name, f)
      ensures r == Done ==> backup == old(disk)
      ensures r != Done ==> disk == old(disk)
    {
      if !ValidName(name) { return InvalidName; }
      if !Readable(disk, f) { return Failed; }
      var removed := RemovePathBlock(disk.text, name);
      if removed.RemovalFailed? { return Failed; }
      if !removed.found { return NotExist; }
      r := Write(removed.text, f);
    }

    /** The file-mode branch of ApplySource. */
    method ApplySource(name: string, u: PathUpdate, existing: string, f: Faults) returns (ok: bool, ghost moments: seq<Disk>)
      modifies this
      // `moments` are the contents before, between and after the calls
      ensures Run(moments, ok) == ApplyOn(old(disk), name, u, existing, f)
      ensures disk == moments[|moments| - 1]
    {
      hide SetOn, DeleteOn, ValidName;
      moments := [disk];
      var r := SetPath(name, u, f.writing);
      moments := moments + [disk];
      if r != Done { return false, moments; }
      if existing != "" && existing != name {
        r := InvalidName;
        if ValidName(existing) {
          r := DeletePath(existing, f.deleting);
        }
        if r != Done {
          var _ := DeletePath(name, f.undoing);
          moments := moments + [disk];
          return false, moments;
        }
        moments := moments + [disk];
      }
      return true, moments;
    }
  }

  datatype Faults = Faults(writing: Fault, deleting: Fault, undoing: Fault)

  /** Every content the file has during one ApplySource call, in order. */
  datatype Run = Run(moments: seq<Disk>, ok: bool)

  function ApplyOn(d: Disk, name: string, u: PathUpdate, existing: string, f: Faults): (run: Run)
    ensures |run.moments| >= 1
  {
    var written := SetOn(d, name, u, f.writing);
    if written.outcome != Done then Run([d, written.disk], false)
    else if existing == "" || existing == name then Run([d, written.disk], true)
    else if !ValidName(existing) then Run([d, written.disk, DeleteOn(written.disk, name, f.undoing).disk], false)
    else
      var deleted := DeleteOn(written.disk, existing, f.deleting);
      if deleted.outcome == Done then Run([d, written.disk, deleted.disk], true)
      else Run([d, written.disk, DeleteOn(written.disk, name, f.undoing).disk], false)
  }

  // -------------------------------------------------------------- renaming

  /** A rename from a present entry to a fresh name, on a file the editor handles. */
  ghost predicate Renaming(text: string, name: string, u: PathUpdate, previous: string) {
    && ValidName(name) && ValidName(previous) && name != previous
    && SingleLine(u) && PlainTimeouts(u)
    && NotNamed(text, name) && !Glues(text, name)
    && Editable(text, name) && Editable(text, previous) && Contiguous(text, previous)
  }

  /** The file with the newline that the edit adds behind an unterminated last line. */
  function Ended(text: string): string {
    if OpenEnded(Lines(text)) then text + "\n" else text
  }

  ghost predicate Has(d: Disk, name: string) {
    d.Regular? && FindSection(Lines(d.text)).Section? && name in Entries(d.text)
  }

  lemma ContiguousFound(text: string, name: string)
    requires Contiguous(text, name)
    ensures RemoveBlock(text, name).Removal? && RemoveBlock(text, name).found
  {
    hide Lines, Parse, IsHead, FindSection;
  }

  lemma EndedRenaming(text: string, name: string, u: PathUpdate, previous: string)
    requires Renaming(text, name, u, previous)
    ensures Renaming(Ended(text), name, u, previous) && !OpenEnded(Lines(Ended(text)))
    ensures SetText(Ended(text), name, u) == SetText(text, name, u) && Entries(Ended(text)) == Entries(text)
  {
    assert RemoveBlock(text, name) == Removal(text, false);
    if OpenEnded(Lines(text)) {
      assert FindSection(Lines(text)).start + 1 < |Lines(text)|;
      hide Lines, FindSection, Editable, Contiguous, OpenEnded, SetText, RemoveBlock, PlainTimeouts, SingleLine, Entries, ValidName;
      SetCompletes(text, name, u, FindSection(Lines(text)));
      CompletedEditable(text, name);
      CompletedEditable(text, previous);
      CompletedContiguous(text, previous);
      NotGlued(text + "\n", name);
    }
  }

  lemma NotGlued(text: string, name: string)
    requires NotNamed(text, name) && !OpenEnded(Lines(text))
    ensures !Glues(text, name)
  {
  }

  /** The state between writing the new name and deleting the old one. */
  lemma RenameSet(text: string, name: string, u: PathUpdate, previous: string)
    requires Renaming(text, name, u, previous) && !OpenEnded(Lines(text))
    ensures SetText(text, name, u).Replacement?
    ensures var t := SetText(text, name, u).text;
            && Editable(t, previous) && Contiguous(t, previous)
            && Entries(t) == Entries(text)[name := KeptTexts(Fields(u))]
            && previous in Entries(text)
            && RemoveBlock(t, name) == Removal(text, true)
  {
    hide Lines, Entries, Contiguous, Editable, OpenEnded, SetText, FindSection, Fields;
    SetKeepsEditable(text, name, u, previous);
    SetPathRefinesMap(text, name, u);
    ContiguousFound(text, previous);
    DeletePathRefinesMap(text, previous);
    SetDeleteRoundTrip(text, name, u);
  }

  /** Nothing hinders the compensating delete. */
  predicate Undone(t: string, f: Faults) {
    f.undoing == NoFault && Size(t) <= MAX_CONFIG_FILE_SIZE
  }

  /** Nothing hinders the write and the delete. */
  predicate Goes(text: string, t: string, f: Faults) {
    && f.writing == NoFault && f.deleting == NoFault
    && Size(text) <= MAX_CONFIG_FILE_SIZE && Size(t) <= MAX_CONFIG_FILE_SIZE
  }

  /** The four ways a rename can go. */
  lemma RenameShapes(text: string, name: string, u: PathUpdate, previous: string, f: Faults, t: string, done: string, back: string)
    requires ValidName(name) && ValidName(previous) && name != previous
    requires SetText(text, name, u) == Replacement(t)
    requires RemoveBlock(t, previous) == Removal(done, true) && RemoveBlock(t, name) == Removal(back, true)
    ensures var d, run := Regular(text), ApplyOn(Regular(text), name, u, previous, f);
            || run == Run([d, d], false)
            || run == Run([d, Regular(t), Regular(done)], true)
            || run == Run([d, Regular(t), Regular(back)], false)
            || (run == Run([d, Regular(t), Regular(t)], false) && !Undone(t, f))
    ensures ApplyOn(Regular(text), name, u, previous, f).ok <==> Goes(text, t, f)
  {
    hide SetText, RemoveBlock, Size;
  }

  /** While a present path is renamed to a fresh name there is no moment at which
      neither name exists, whichever call fails; it succeeds exactly when nothing
      hinders the two calls, and then only the key (and the new fields, which say what
      the update says) changed; on failure the file is the old one, with its last line
      ended, or, only when the compensating delete was hindered too, the old one with
      the new entry added. */
  lemma RenameIsSafe(text: string, name: string, u: PathUpdate, previous: string, f: Faults)
    requires Renaming(text, name, u, previous)
    ensures var run := ApplyOn(Regular(text), name, u, previous, f);
            && (forall i :: 0 <= i < |run.moments| ==> Has(run.moments[i], name) || Has(run.moments[i], previous))
            && var last := run.moments[|run.moments| - 1];
            && SetText(text, name, u).Replacement? && (run.ok <==> Goes(text, SetText(text, name, u).text, f))
            && (run.ok ==> Wrote(last, name, u) && Entries(last.text) == Entries(text)[name := KeptTexts(Fields(u))] - {previous})
            && (run.ok || last == Regular(text) || last == Regular(Ended(text))
                || (!Undone(SetText(text, name, u).text, f) && Wrote(last, name, u) && Entries(last.text) == Entries(text)[name := KeptTexts(Fields(u))]))
  {
    hide Lines, Entries, Contiguous, Editable, OpenEnded, SetText, FindSection, Fields, RemoveBlock, ApplyOn, KeptTexts, Ended, Glues, ValidName, SingleLine, PlainTimeouts, NotNamed, Goes, Undone, Says;
    RenderedSays(u);
    EndedRenaming(text, name, u, previous);
    var back := Ended(text);
    RenameSet(back, name, u, previous);
    var t := SetText(text, name, u).text;
    ContiguousFound(t, previous);
    DeletePathRefinesMap(t, previous);
    var done := RemoveBlock(t, previous).text;
    EditableSection(text, previous);
    EditableSection(back, previous);
    EditableSection(t, previous);
    assert Has(Regular(text), previous) && Has(Regular(back), previous) && Has(Regular(t), name) && Has(Regular(done), name);
    RenameShapes(text, name, u, previous, f, t, done, back);
  }

  lemma EditableSection(text: string, name: string)
    requires Editable(text, name)
    ensures FindSection(Lines(text)).Section?
  {
  }

  /** A rename whose old name turns out to be missing, with a compensating delete that
      nothing hinders. */
  ghost predicate MissingRename(text: string, name: string, u: PathUpdate, previous: string, f: Faults) {
    && ValidName(name) && ValidName(previous) && name != previous && SingleLine(u)
    && SetOn(Regular(text), name, u, f.writing).outcome == Done
    && DeleteOn(SetOn(Regular(text), name, u, f.writing).disk, previous, f.deleting).outcome == NotExist
    && f.undoing == NoFault
  }

  /** When it happens: no line of the file names the old path. */
  lemma MissingRenameHappens(text: string, name: string, u: PathUpdate, previous: string)
    requires ValidName(name) && ValidName(previous) && name != previous && SingleLine(u) && PlainTimeouts(u)
    requires RemoveBlock(text, name).Removal? && !OpenEnded(Lines(RemoveBlock(text, name).text))
    requires NameCount(Lines(text), previous) == 0 && Size(text) <= MAX_CONFIG_FILE_SIZE
    requires SetText(text, name, u).Replacement? ==> Size(SetText(text, name, u).text) <= MAX_CONFIG_FILE_SIZE
    ensures MissingRename(text, name, u, previous, Faults(NoFault, NoFault, NoFault))
  {
    hide Lines, RemoveBlock, OpenEnded, NameCount, SetText, FindSection, ValidName, SingleLine, PlainTimeouts, Size;
    OtherStaysAbsent(text, name, u, previous);
    assert RemoveBlock(SetText(text, name, u).text, previous).Removal? by { SetHasSection(text, name, u, previous); }
    AbsentIsNotFound(SetText(text, name, u).text, previous);
  }

  lemma SetHasSection(text: string, name: string, u: PathUpdate, other: string)
    requires ValidName(name) && SingleLine(u)
    requires RemoveBlock(text, name).Removal? && !OpenEnded(Lines(RemoveBlock(text, name).text))
    ensures SetText(text, name, u).Replacement? && RemoveBlock(SetText(text, name, u).text, other).Removal?
  {
    SetInsertsClosed(text, name, u);
    hide Lines, Join, FindSection, SetText, MatchAt;
  }

  /** How such a rename ends. */
  lemma MissingRenameEnds(text: string, name: string, u: PathUpdate, previous: string, f: Faults)
    requires MissingRename(text, name, u, previous, f)
    ensures SetText(text, name, u).Replacement?
    ensures var run, t := ApplyOn(Regular(text), name, u, previous, f), SetText(text, name, u).text; var r := RemoveBlock(t, name);
            !run.ok && run.moments[|run.moments| - 1] == Regular(if r.Removal? && r.found then r.text else t)
  {
    hide SetText, RemoveBlock, Size, SingleLine;
  }

  /** It gives the file back byte for byte if and only if the new name was absent and
      its block was not written behind an unterminated last line.  Timeouts are not
      white space only, as every update the service builds has them. */
  lemma MissingRenameUndone(text: string, name: string, u: PathUpdate, previous: string, f: Faults)
    requires MissingRename(text, name, u, previous, f) && (PlainTimeouts(u) || NotNamed(text, name))
    ensures var run := ApplyOn(Regular(text), name, u, previous, f);
            && !run.ok
            && (run.moments[|run.moments| - 1] == Regular(text) <==> NotNamed(text, name) && !OpenEnded(Lines(text)))
  {
    hide Lines, OpenEnded, SetText, RemoveBlock, ValidName, SingleLine, NotNamed, ApplyOn, PlainTimeouts, SetOn, DeleteOn;
    MissingRenameEnds(text, name, u, previous, f);
    if NotNamed(text, name) {
      SetDeleteRoundTrip(text, name, u);
      SetGrows(text, name, u);
      var t := SetText(text, name, u).text;
      if RemoveBlock(t, name).Removal? && !RemoveBlock(t, name).found { NotFoundSame(t, name); }
    } else {
      assert RemoveBlock(text, name).Removal? && RemoveBlock(text, name).found by { PresentWhenSet(text, name, u); }
      PresentIsNotRestored(text, name, u);
    }
  }

  lemma PresentWhenSet(text: string, name: string, u: PathUpdate)
    requires SetText(text, name, u).Replacement? && !NotNamed(text, name)
    ensures RemoveBlock(text, name).Removal? && RemoveBlock(text, name).found
  {
    hide Lines, Join, FindSection, MatchAt;
  }

  /** A set of an absent name makes the file longer. */
  lemma SetGrows(text: string, name: string, u: PathUpdate)
    requires NotNamed(text, name)
    ensures SetText(text, name, u).Replacement? && |SetText(text, name, u).text| > |text|
  {
    hide Lines, FindSection, MatchAt, InsertAt, Join;
    var w := Lines(text);
    LinesProper(text);
    var at := InsertAt(w, FindSection(w));
    JoinConcat(w[..at], w[at..]);
    assert w[..at] + w[at..] == w;
    BlockNonEmpty(name, u);
  }

  lemma BlockNonEmpty(name: string, u: PathUpdate)
    ensures RenderBlock(name, u) != ""
  {
    RenderedLines(name, u);
    var b := BlockLines(name, u);
    assert b[0] == CommentLine(name);
    JoinConcat([b[0]], b[1..]);
    assert [b[0]] + b[1..] == b;
    JoinOne(b[0]);
  }

  /** What is lost when the new name was already there: the compensating delete removes
      the entry that stood under it. */
  lemma RenameOntoExistingLosesIt(text: string, name: string, u: PathUpdate, previous: string, f: Faults, without: string)
    requires MissingRename(text, name, u, previous, f)
    requires Editable(text, name) && RemoveBlock(text, name) == Removal(without, true)
    requires NotNamed(without, name) && !OpenEnded(Lines(without))
    ensures var run := ApplyOn(Regular(text), name, u, previous, f);
            !run.ok && run.moments[|run.moments| - 1] == Regular(without)
    ensures Has(Regular(text), name) && FindSection(Lines(without)).Section?
    ensures Entries(without) == Entries(text) - {name}
  {
    hide Lines, Entries, Contiguous, OpenEnded, SetText, FindSection, SectionDoc, DistinctKeys, BareKey, NotNamed, ValidName, RemoveBlock, ApplyOn, SetOn, DeleteOn;
    MissingRenameEnds(text, name, u, previous, f);
    SetThenRemove(text, name, u);
    DeletePathRefinesMap(text, name);
  }
}
