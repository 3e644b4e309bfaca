/** What a written entry says, read back key by key by a reader that does not know how
    it was rendered. */
module PathsValues {
  import opened Options
  import opened Text
  import opened PathsEditor
  import opened PathsLaws
  import opened PathsRoundTrip
  import opened PathsMap
  import opened PathsRename
  import opened AnalogCommand

  // ------------------------------------------------------------------------- reader

  /** The text behind `key: ` in an entry's body, indented by four. */
  function ReadKey(body: seq<string>, key: string): Option<string> {
    if body == [] then None
    else if HasPrefix(body[0], "    " + key + ": ") then Some(body[0][|key| + 6..])
    else ReadKey(body[1..], key)
  }

  /** The single-quoted style of section 7.3.2 of YAML 1.2.2: quotes inside come in pairs. */
  function SingleQuoted(s: string): Option<string> {
    if |s| < 2 || s[0] != '\'' || s[|s| - 1] != '\'' then None else Paired(s[1..|s| - 1])
  }

  function Paired(s: string): Option<string> {
    if s == "" then Some("")
    else if s[0] != '\'' then
      match Paired(s[1..]) case None => None case Some(t) => Some([s[0]] + t)
    else if |s| < 2 || s[1] != '\'' then None
    else match Paired(s[2..]) case None => None case Some(t) => Some("'" + t)
  }

  lemma {:induction false} PairedDoubled(v: string)
    ensures Paired(DoubleQuotes(v)) == Some(v)
  {
    if v != "" {
      PairedDoubled(v[1..]);
      var d := DoubleQuotes(v[1..]);
      assert v == [v[0]] + v[1..];
      if v[0] == '\'' {
        assert DoubleQuotes(v) == "''" + d && ("''" + d)[2..] == d;
      } else {
        assert DoubleQuotes(v) == [v[0]] + d && ([v[0]] + d)[1..] == d;
      }
    }
  }

  lemma QuotedReads(v: string)
    ensures SingleQuoted(YamlScalar(v)) == Some(v)
  {
    var q := YamlScalar(v);
    assert q[1..|q| - 1] == DoubleQuotes(v);
    PairedDoubled(v);
  }

  /** A text value, quoted in the file; an empty one is not written. */
  ghost predicate SaysQuoted(body: seq<string>, key: string, v: string) {
    match ReadKey(body, key)
    case None => v == ""
    case Some(text) => v != "" && SingleQuoted(text) == Some(v)
  }

  /** A value written as it is; an empty one is not written. */
  ghost predicate SaysPlain(body: seq<string>, key: string, v: string) {
    ReadKey(body, key) == if v == "" then None else Some(v)
  }

  ghost predicate SaysFlag(body: seq<string>, key: string, on: bool) {
    ReadKey(body, key) == if on then Some("yes") else None
  }

  /** The body says each of the six fields, and nothing else. */
  ghost predicate Says(body: seq<string>, u: PathUpdate) {
    && SaysQuoted(body, "source", u.source)
    && SaysFlag(body, "sourceOnDemand", u.sourceOnDemand)
    && SaysQuoted(body, "runOnDemand", u.runOnDemand)
    && SaysFlag(body, "runOnDemandRestart", u.runOnDemandRestart)
    && SaysPlain(body, "runOnDemandStartTimeout", u.startTimeout)
    && SaysPlain(body, "runOnDemandCloseAfter", u.closeAfter)
    && |body| == (if u.source != "" then 1 else 0) + (if u.sourceOnDemand then 1 else 0)
                 + (if u.runOnDemand != "" then 1 else 0) + (if u.runOnDemandRestart then 1 else 0)
                 + (if u.startTimeout != "" then 1 else 0) + (if u.closeAfter != "" then 1 else 0)
  }

  // -------------------------------------------------------------- rendered fields read

  /** The field's key is another one: the texts differ at j. */
  lemma OtherField(f: Field, key: string, j: nat)
    requires j < |f.key| && j < |key + ": "| && f.key[j] != (key + ": ")[j]
    ensures !HasPrefix("    " + f.key + f.value, "    " + key + ": ")
  {
    var line, prefix := "    " + f.key + f.value, "    " + key + ": ";
    assert line[j + 4] == f.key[j] && prefix[j + 4] == (key + ": ")[j];
    NotPrefixAt(line, prefix, j + 4);
  }

  lemma SkipField(fields: seq<Field>, key: string, j: nat)
    requires fields != [] && j < |fields[0].key| && j < |key + ": "| && fields[0].key[j] != (key + ": ")[j]
    ensures ReadKey(KeptTexts(fields), key) == ReadKey(KeptTexts(fields[1..]), key)
  {
    OtherField(fields[0], key, j);
    var line, rest := "    " + fields[0].key + fields[0].value, KeptTexts(fields[1..]);
    assert ([line] + rest)[1..] == rest;
    assert [] + rest == rest;
  }

  /** Fields that all have other keys. */
  lemma {:induction false} AbsentField(fields: seq<Field>, key: string)
    requires forall i :: 0 <= i < |fields| ==> Differs(fields[i].key, key)
    ensures ReadKey(KeptTexts(fields), key) == None
  {
    if fields != [] {
      assert Differs(fields[0].key, key);
      var j :| 0 <= j < |fields[0].key| && j < |key + ": "| && fields[0].key[j] != (key + ": ")[j];
      SkipField(fields, key, j);
      AbsentField(fields[1..], key);
    }
  }

  ghost predicate Differs(text: string, key: string) {
    exists j :: 0 <= j < |text| && j < |key + ": "| && text[j] != (key + ": ")[j]
  }

  /** The field of that key is the one at k; `before` is what its key text holds of the value. */
  lemma {:induction false} FieldReads(fields: seq<Field>, key: string, k: nat, fixed: string)
    requires k < |fields| && fields[k].key == key + ": " + fixed
    requires forall i :: 0 <= i < |fields| && i != k ==> Differs(fields[i].key, key)
    ensures ReadKey(KeptTexts(fields), key) == if fields[k].present then Some(fixed + fields[k].value) else None
  {
    var rest := fields[1..];
    if k == 0 {
      var line := "    " + fields[0].key + fields[0].value;
      AbsentField(rest, key);
      assert line == ("    " + key + ": ") + (fixed + fields[0].value);
      assert line[|key| + 6..] == fixed + fields[0].value;
      assert ([line] + KeptTexts(rest))[1..] == KeptTexts(rest);
      assert [] + KeptTexts(rest) == KeptTexts(rest);
    } else {
      assert Differs(fields[0].key, key);
      var j :| 0 <= j < |fields[0].key| && j < |key + ": "| && fields[0].key[j] != (key + ": ")[j];
      SkipField(fields, key, j);
      FieldReads(rest, key, k - 1, fixed);
    }
  }

  lemma DiffersAt(text: string, key: string, j: nat)
    requires j < |text| && j < |key + ": "| && text[j] != (key + ": ")[j]
    ensures Differs(text, key)
  {
  }

  lemma ReadsSource(u: PathUpdate)
    ensures ReadKey(KeptTexts(Fields(u)), "source") == if u.source != "" then Some(YamlScalar(u.source)) else None
  {
    hide YamlScalar, KeptTexts, ReadKey, Differs;
    DiffersAt("sourceOnDemand: yes", "source", 6);
    DiffersAt("runOnDemand: ", "source", 0);
    DiffersAt("runOnDemandRestart: yes", "source", 0);
    DiffersAt("runOnDemandStartTimeout: ", "source", 0);
    DiffersAt("runOnDemandCloseAfter: ", "source", 0);
    assert "source" + ": " + "" == "source: ";
    FieldReads(Fields(u), "source", 0, "");
    assert "" + YamlScalar(u.source) == YamlScalar(u.source);
  }

  lemma ReadsSourceOnDemand(u: PathUpdate)
    ensures ReadKey(KeptTexts(Fields(u)), "sourceOnDemand") == if u.sourceOnDemand then Some("yes") else None
  {
    hide YamlScalar, KeptTexts, ReadKey, Differs;
    DiffersAt("source: ", "sourceOnDemand", 6);
    DiffersAt("runOnDemand: ", "sourceOnDemand", 0);
    DiffersAt("runOnDemandRestart: yes", "sourceOnDemand", 0);
    DiffersAt("runOnDemandStartTimeout: ", "sourceOnDemand", 0);
    DiffersAt("runOnDemandCloseAfter: ", "sourceOnDemand", 0);
    assert "sourceOnDemand" + ": " + "yes" == "sourceOnDemand: yes";
    FieldReads(Fields(u), "sourceOnDemand", 1, "yes");
    assert "yes" + "" == "yes";
  }

  lemma ReadsRunOnDemand(u: PathUpdate)
    ensures ReadKey(KeptTexts(Fields(u)), "runOnDemand") == if u.runOnDemand != "" then Some(YamlScalar(u.runOnDemand)) else None
  {
    hide YamlScalar, KeptTexts, ReadKey, Differs;
    DiffersAt("source: ", "runOnDemand", 0);
    DiffersAt("sourceOnDemand: yes", "runOnDemand", 0);
    DiffersAt("runOnDemandRestart: yes", "runOnDemand", 11);
    DiffersAt("runOnDemandStartTimeout: ", "runOnDemand", 11);
    DiffersAt("runOnDemandCloseAfter: ", "runOnDemand", 11);
    assert "runOnDemand" + ": " + "" == "runOnDemand: ";
    FieldReads(Fields(u), "runOnDemand", 2, "");
    assert "" + YamlScalar(u.runOnDemand) == YamlScalar(u.runOnDemand);
  }

  lemma ReadsRestart(u: PathUpdate)
    ensures ReadKey(KeptTexts(Fields(u)), "runOnDemandRestart") == if u.runOnDemandRestart then Some("yes") else None
  {
    hide YamlScalar, KeptTexts, ReadKey, Differs;
    DiffersAt("source: ", "runOnDemandRestart", 0);
    DiffersAt("sourceOnDemand: yes", "runOnDemandRestart", 0);
    DiffersAt("runOnDemand: ", "runOnDemandRestart", 11);
    DiffersAt("runOnDemandStartTimeout: ", "runOnDemandRestart", 11);
    DiffersAt("runOnDemandCloseAfter: ", "runOnDemandRestart", 11);
    assert "runOnDemandRestart" + ": " + "yes" == "runOnDemandRestart: yes";
    FieldReads(Fields(u), "runOnDemandRestart", 3, "yes");
    assert "yes" + "" == "yes";
  }

  lemma ReadsStartTimeout(u: PathUpdate)
    ensures ReadKey(KeptTexts(Fields(u)), "runOnDemandStartTimeout") == if u.startTimeout != "" then Some(u.startTimeout) else None
  {
    hide YamlScalar, KeptTexts, ReadKey, Differs;
    DiffersAt("source: ", "runOnDemandStartTimeout", 0);
    DiffersAt("sourceOnDemand: yes", "runOnDemandStartTimeout", 0);
    DiffersAt("runOnDemand: ", "runOnDemandStartTimeout", 11);
    DiffersAt("runOnDemandRestart: yes", "runOnDemandStartTimeout", 11);
    DiffersAt("runOnDemandCloseAfter: ", "runOnDemandStartTimeout", 11);
    assert "runOnDemandStartTimeout" + ": " + "" == "runOnDemandStartTimeout: ";
    FieldReads(Fields(u), "runOnDemandStartTimeout", 4, "");
    assert "" + u.startTimeout == u.startTimeout;
  }

  lemma ReadsCloseAfter(u: PathUpdate)
    ensures ReadKey(KeptTexts(Fields(u)), "runOnDemandCloseAfter") == if u.closeAfter != "" then Some(u.closeAfter) else None
  {
    hide YamlScalar, KeptTexts, ReadKey, Differs;
    DiffersAt("source: ", "runOnDemandCloseAfter", 0);
    DiffersAt("sourceOnDemand: yes", "runOnDemandCloseAfter", 0);
    DiffersAt("runOnDemand: ", "runOnDemandCloseAfter", 11);
    DiffersAt("runOnDemandRestart: yes", "runOnDemandCloseAfter", 11);
    DiffersAt("runOnDemandStartTimeout: ", "runOnDemandCloseAfter", 11);
    assert "runOnDemandCloseAfter" + ": " + "" == "runOnDemandCloseAfter: ";
    FieldReads(Fields(u), "runOnDemandCloseAfter", 5, "");
    assert "" + u.closeAfter == u.closeAfter;
  }

  lemma {:induction false} KeptCount(fields: seq<Field>)
    ensures |KeptTexts(fields)| == if fields == [] then 0 else (if fields[0].present then 1 else 0) + |KeptTexts(fields[1..])|
  {
  }

  lemma RenderedSays(u: PathUpdate)
    ensures Says(KeptTexts(Fields(u)), u)
  {
    hide YamlScalar, KeptTexts, ReadKey, SingleQuoted;
    ReadsSource(u);
    ReadsSourceOnDemand(u);
    ReadsRunOnDemand(u);
    ReadsRestart(u);
    ReadsStartTimeout(u);
    ReadsCloseAfter(u);
    QuotedReads(u.source);
    QuotedReads(u.runOnDemand);
    FieldCount(u);
  }

  lemma FieldCount(u: PathUpdate)
    ensures |KeptTexts(Fields(u))| ==
              (if u.source != "" then 1 else 0) + (if u.sourceOnDemand then 1 else 0)
              + (if u.runOnDemand != "" then 1 else 0) + (if u.runOnDemandRestart then 1 else 0)
              + (if u.startTimeout != "" then 1 else 0) + (if u.closeAfter != "" then 1 else 0)
  {
    hide YamlScalar, KeptTexts;
    var f := Fields(u);
    KeptCount(f);
    KeptCount(f[1..]);
    KeptCount(f[1..][1..]);
    KeptCount(f[1..][1..][1..]);
    KeptCount(f[1..][1..][1..][1..]);
    KeptCount(f[1..][1..][1..][1..][1..]);
    KeptCount(f[1..][1..][1..][1..][1..][1..]);
  }

  // --------------------------------------------------------------------- in the file

  /** After a set the parsed entry says, for each of the six keys, exactly the value of
      the update: quoted for source and runOnDemand, `yes` for the two flags, plain for
      the two timeouts, and a key is there exactly when its field is set. */
  lemma SetPathSays(content: string, name: string, u: PathUpdate)
    requires ValidName(name) && SingleLine(u) && Editable(content, name) && !Glues(content, name)
    ensures SetText(content, name, u).Replacement?
    ensures FindSection(Lines(SetText(content, name, u).text)).Section?
    ensures var entries := Entries(SetText(content, name, u).text); name in entries && Says(entries[name], u)
  {
    hide Lines, FindSection, Entries, Editable, Glues, SetText, KeptTexts, Fields, Says;
    SetPathRefinesMap(content, name, u);
    RenderedSays(u);
  }

  /** The settings of an analog camera survive the file: the command read back from the
      entry, unquoted and parsed, gives the device, the canonical format, the resolution
      and the frame rate; the entry is a publisher that starts on demand. */
  lemma AnalogThroughFile(content: string, name: string, s: Source, restart: bool)
    requires Accepted(s) && |Command(s)| <= 0x4000
    requires ToUpper(s.pixelFormat) in {"MJPG", "MJPEG", "YUYV", "YUY2"}
    requires ValidName(name) && Editable(content, name) && !Glues(content, name)
    ensures SetText(content, name, AnalogUpdate(s, restart)).Replacement?
    ensures FindSection(Lines(SetText(content, name, AnalogUpdate(s, restart)).text)).Section?
    ensures var entries := Entries(SetText(content, name, AnalogUpdate(s, restart)).text);
            && name in entries
            && var run, source := ReadKey(entries[name], "runOnDemand"), ReadKey(entries[name], "source");
            && run.Some? && SingleQuoted(run.value).Some? && source.Some? && SingleQuoted(source.value) == Some("publisher")
            && ParseCommand(SingleQuoted(run.value).value) ==
               Some(Settings(s.devicePath, if ToUpper(s.pixelFormat) in {"MJPG", "MJPEG"} then "MJPG" else "YUYV", s.resolution, s.fps))
            && SaysFlag(entries[name], "runOnDemandRestart", restart)
  {
    hide Accepted, Command, ParseCommand, SingleQuoted, ReadKey, ToUpper, SingleLine, Editable, Glues, SetText, Entries, Lines, FindSection, ValidName;
    AnalogUpdateIsPlain(s, restart);
    NonEmptyCommand(s);
    SetPathSays(content, name, AnalogUpdate(s, restart));
    KnownFormatRoundTrip(s);
    QuoteRoundTrip(Command(s));
  }
}
