/** The ffmpeg command that internal/stream/service.go prints for an analog camera
    and the parser of stream_sources.go that reads it back. */
module AnalogCommand {
  import opened Decimal
  import opened Text
  import opened PathsEditor
  import PathsLaws
  import PathsRename
  import opened Options

  // ------------------------------------------------------------- patterns

  /** ^/dev/video[0-9]+$ */
  predicate IsDevicePath(s: string) {
    |s| > 10 && s[..10] == "/dev/video" && Digits(s[10..])
  }

  /** ^[0-9]{2,5}x[0-9]{2,5}$ */
  predicate IsResolution(s: string) {
    exists k :: 2 <= k <= 5 && k < |s| && s[k] == 'x' && Digits(s[..k]) && 2 <= |s| - k - 1 <= 5 && Digits(s[k + 1..])
  }

  /** ^[0-9]{1,3}(?:\.[0-9]+)?$ */
  predicate IsFPS(s: string) {
    exists k :: 1 <= k <= 3 && k <= |s| && Digits(s[..k])
      && (k == |s| || (s[k] == '.' && k + 1 < |s| && Digits(s[k + 1..])))
  }

  function ToUpper(s: string): string {
    if s == "" then "" else [if 'a' <= s[0] <= 'z' then s[0] - 'a' + 'A' else s[0]] + ToUpper(s[1..])
  }

  function ToLower(s: string): string {
    if s == "" then "" else [if 'A' <= s[0] <= 'Z' then s[0] - 'A' + 'a' else s[0]] + ToLower(s[1..])
  }

  predicate FormatChar(c: char) { Digit(c) || ('a' <= c <= 'z') || ('A' <= c <= 'Z') || c == '_' }

  /** ^[a-zA-Z0-9_]+$ */
  predicate IsFormatName(s: string) {
    s != "" && forall i :: 0 <= i < |s| ==> FormatChar(s[i])
  }

  datatype Source = Source(devicePath: string, pixelFormat: string, resolution: string, fps: string)

  /** The name given to ffmpeg. */
  function InputFormat(s: Source): string {
    var f := ToUpper(s.pixelFormat);
    if f == "MJPG" || f == "MJPEG" then "mjpeg"
    else if f == "YUYV" || f == "YUY2" then "yuyv422"
    else ToLower(s.pixelFormat)
  }

  predicate Accepted(s: Source) {
    IsDevicePath(s.devicePath) && IsResolution(s.resolution) && IsFPS(s.fps) && IsFormatName(s.pixelFormat)
  }

  // ------------------------------------------------------------------ GOP

  /** Index of the decimal point, or the length. */
  function PointAt(s: string): (k: nat)
    ensures k <= |s|
  {
    if s == "" || s[0] == '.' then 0 else 1 + PointAt(s[1..])
  }

  lemma {:induction false} PointAtIs(s: string, k: nat)
    requires k <= |s| && Digits(s[..k]) && (k == |s| || s[k] == '.')
    ensures PointAt(s) == k
  {
    if k > 0 {
      assert s[..k][0] == s[0];
      assert s[1..][..k - 1] == s[..k][1..];
      PointAtIs(s[1..], k - 1);
    }
  }

  lemma FPSParts(s: string)
    requires IsFPS(s)
    ensures var k := PointAt(s);
            1 <= k <= 3 && Digits(s[..k]) && (k < |s| ==> k + 1 < |s| && Digits(s[k + 1..]))
  {
    var k :| 1 <= k <= 3 && k <= |s| && Digits(s[..k])
      && (k == |s| || (s[k] == '.' && k + 1 < |s| && Digits(s[k + 1..])));
    PointAtIs(s, k);
  }

  /** strconv.ParseFloat on such a text, without rounding. */
  function FPSValue(s: string): real
    requires IsFPS(s)
  {
    FPSParts(s);
    var k := PointAt(s);
    var whole := Number(s[..k]) as real;
    if k == |s| then whole
    else whole + Number(s[k + 1..]) as real / PositivePow10(|s| - k - 1)
  }

  function PositivePow10(n: nat): (r: real)
    ensures r > 0.0
  {
    if n == 0 then 1.0 else 10.0 * PositivePow10(n - 1)
  }

  lemma {:induction false} PositivePow10Is(n: nat)
    ensures PositivePow10(n) == Pow10(n) as real
  {
    if n > 0 { PositivePow10Is(n - 1); }
  }

  function GOP(fps: string): int
    requires IsFPS(fps)
  {
    var gop := (FPSValue(fps) + 0.5).Floor;
    if gop < 1 then 25 else gop
  }

  /** The emitted group of pictures is always positive and at most 1000 frames. */
  lemma GOPInRange(fps: string)
    requires IsFPS(fps)
    ensures 0.0 <= FPSValue(fps) < 1000.0
    ensures 1 <= GOP(fps) <= 1000
  {
    FPSParts(fps);
    var k := PointAt(fps);
    NumberBound(fps[..k]);
    assert Pow10(k) <= 1000 by { assert Pow10(1) == 10 && Pow10(2) == 100 && Pow10(3) == 1000; }
    if k < |fps| {
      hide Number, Pow10;
      FractionBound(fps[k + 1..]);
    }
  }

  lemma FractionBound(digits: string)
    requires Digits(digits)
    ensures 0.0 <= Number(digits) as real / PositivePow10(|digits|) < 1.0
  {
    hide Number;
    NumberBound(digits);
    PositivePow10Is(|digits|);
    ProperFraction(Number(digits) as real, PositivePow10(|digits|));
  }

  lemma ProperFraction(n: real, d: real)
    requires 0.0 <= n < d
    ensures 0.0 <= n / d < 1.0
  {
  }

  lemma {:induction false} NumberConcat(a: string, b: string)
    requires Digits(a) && Digits(b)
    ensures Digits(a + b) && Number(a + b) == Number(a) * Pow10(|b|) + Number(b)
  {
    if b == "" {
      assert a + b == a;
    } else {
      var init := b[..|b| - 1];
      NumberConcat(a, init);
      assert (a + b)[..|a + b| - 1] == a + init;
      assert Number(a + b) == 10 * Number(a + init) + (b[|b| - 1] as int - '0' as int);
      hide Number, Pow10;
      Shift(Number(a), Pow10(|init|), Number(init), b[|b| - 1] as int - '0' as int, Number(a + init));
    }
  }

  lemma Shift(n: nat, w: nat, low: nat, d: int, sum: nat)
    requires sum == n * w + low
    ensures 10 * sum + d == n * (10 * w) + (10 * low + d)
  {
  }

  /** The digits behind the point. */
  function Fraction(fps: string): string {
    var k := PointAt(fps);
    if k < |fps| then fps[k + 1..] else ""
  }

  /** The rate is the decimal as written: its digits without the point are the rate
      times ten for each digit behind the point. */
  lemma FPSIsDecimal(fps: string)
    requires IsFPS(fps)
    ensures var whole, part := fps[..PointAt(fps)], Fraction(fps);
            && fps == (if PointAt(fps) < |fps| then whole + "." + part else whole) && Digits(whole + part)
            && Times(FPSValue(fps), Pow10(|part|), Number(whole + part))
  {
    DecimalShape(fps);
    hide *;
    var whole, part := fps[..PointAt(fps)], Fraction(fps);
    FPSIsSum(fps);
    PositivePow10Is(|part|);
    Scaled(whole, part, PositivePow10(|part|), FPSValue(fps));
  }

  predicate Times(x: real, n: nat, total: nat) {
    x * n as real == total as real
  }

  predicate IsSum(x: real, whole: nat, part: nat, w: real) {
    w > 0.0 && x == whole as real + part as real / w
  }

  lemma DecimalShape(fps: string)
    requires IsFPS(fps)
    ensures var whole, part := fps[..PointAt(fps)], Fraction(fps);
            fps == (if PointAt(fps) < |fps| then whole + "." + part else whole) && Digits(whole) && Digits(part) && Digits(whole + part)
  {
    FPSParts(fps);
    PointIsPoint(fps);
    hide IsFPS, PointAt, Digits;
    DigitsJoin(fps[..PointAt(fps)], Fraction(fps));
    if PointAt(fps) < |fps| {
      SplitAtPoint(fps, PointAt(fps));
    } else {
      assert fps[..|fps|] == fps;
    }
  }

  lemma SplitAtPoint(s: string, k: nat)
    requires k < |s| && s[k] == '.'
    ensures s == s[..k] + "." + s[k + 1..]
  {
    assert s[..k + 1] == s[..k] + ".";
  }

  lemma DigitsJoin(a: string, b: string)
    requires Digits(a)
    ensures Digits("") && (Digits(b) ==> Digits(a + b))
  {
  }

  lemma FPSIsSum(fps: string)
    requires IsFPS(fps)
    ensures var whole, part := fps[..PointAt(fps)], Fraction(fps);
            && Digits(whole) && Digits(part)
            && IsSum(FPSValue(fps), Number(whole), Number(part), PositivePow10(|part|))
  {
    FPSParts(fps);
    hide IsFPS, Pow10;
    assert Number("") == 0;
  }

  lemma Scaled(whole: string, part: string, w: real, x: real)
    requires Digits(whole) && Digits(part) && w == Pow10(|part|) as real && IsSum(x, Number(whole), Number(part), w)
    ensures Digits(whole + part) && Times(x, Pow10(|part|), Number(whole + part))
  {
    hide *;
    NumberConcat(whole, part);
    ScaledNumbers(Number(whole), Number(part), Pow10(|part|), w, x, Number(whole + part));
  }

  lemma ScaledNumbers(whole: nat, part: nat, n: nat, w: real, x: real, all: nat)
    requires w == n as real && IsSum(x, whole, part, w) && all == whole * n + part
    ensures Times(x, n, all)
  {
  }

  /** The group of pictures is the rate rounded to the nearest number of frames, halves
      up, or 25 where that would be none. */
  lemma GOPIsRounded(fps: string)
    requires IsFPS(fps)
    ensures FPSValue(fps) >= 0.5 ==> GOP(fps) as real - 0.5 <= FPSValue(fps) < GOP(fps) as real + 0.5
    ensures FPSValue(fps) < 0.5 ==> GOP(fps) == 25
  {
    GOPInRange(fps);
  }

  // -------------------------------------------------------------- printing

  const INPUT := ["/usr/bin/ffmpeg", "-nostdin", "-hide_banner", "-loglevel", "warning", "-thread_queue_size", "32", "-f", "v4l2"]
  const ENCODE1 := ["-map", "0:v:0", "-an", "-c:v", "libx264", "-preset", "ultrafast", "-tune"]
  const ENCODE2 := ["zerolatency", "-profile:v", "baseline", "-pix_fmt", "yuv420p", "-crf", "23"]
  const ENCODE3 := ["-threads", "2", "-bf", "0", "-refs", "1"]
  const OUTPUT1 := ["-sc_threshold", "0", "-x264-params", "repeat-headers=1", "-flush_packets", "1"]
  const OUTPUT2 := ["-f", "rtsp", "-rtsp_transport", "tcp", "\"rtsp://127.0.0.1:$RTSP_PORT/$MTX_PATH\""]

  function Chosen(s: Source): seq<string>
    requires Accepted(s)
  {
    ["-input_format", InputFormat(s), "-video_size", s.resolution, "-framerate", s.fps, "-i", s.devicePath]
  }

  function Group(gop: int): seq<string>
    requires 1 <= gop
  {
    ["-g", Itoa(gop), "-keyint_min", Itoa(gop)]
  }

  function Constants(gop: int): seq<string>
    requires 1 <= gop
  {
    ENCODE1 + ENCODE2 + ENCODE3 + Group(gop) + OUTPUT1 + OUTPUT2
  }

  function Tokens(s: Source): seq<string>
    requires Accepted(s)
  {
    GOPInRange(s.fps);
    INPUT + Chosen(s) + Constants(GOP(s.fps))
  }

  /** Words separated by single spaces, as the format string writes them. */
  function Spaced(ts: seq<string>): string {
    if ts == [] then "" else if |ts| == 1 then ts[0] else ts[0] + " " + Spaced(ts[1..])
  }

  function Command(s: Source): string
    requires Accepted(s)
  {
    Spaced(Tokens(s))
  }

  // --------------------------------------------------------------- parsing

  function WordLength(s: string): (k: nat)
    ensures k <= |s|
    ensures s != "" && !IsSpace(s[0]) ==> k > 0
  {
    if s == "" || IsSpace(s[0]) then 0 else 1 + WordLength(s[1..])
  }

  /** strings.Fields. */
  function Words(s: string): seq<string>
    decreases |s|
  {
    if s == "" then []
    else if IsSpace(s[0]) then Words(s[1..])
    else [s[..WordLength(s)]] + Words(s[WordLength(s)..])
  }

  function Find(fields: seq<string>, flag: string, from: nat): nat
    requires from <= |fields|
  {
    FirstIndex(fields, from, (f: string) => f == flag)
  }

  /** The word after the flag, if the flag occurs exactly once and not last. */
  function UniqueValue(fields: seq<string>, flag: string): Option<string> {
    var i := Find(fields, flag, 0);
    if i + 1 >= |fields| || Find(fields, flag, i + 1) < |fields| then None else Some(fields[i + 1])
  }

  ghost predicate OnlyAt(fields: seq<string>, flag: string, i: nat) {
    i < |fields| && fields[i] == flag && forall j :: 0 <= j < |fields| && j != i ==> fields[j] != flag
  }

  lemma UniqueValueIs(fields: seq<string>, flag: string, i: nat)
    requires OnlyAt(fields, flag, i) && i + 1 < |fields|
    ensures UniqueValue(fields, flag) == Some(fields[i + 1])
  {
    FirstIndexIs(fields, 0, (f: string) => f == flag, i);
    FirstIndexIs(fields, i + 1, (f: string) => f == flag, |fields|);
  }

  lemma UniqueValueNone(fields: seq<string>, flag: string, i: nat, j: nat)
    requires i < j < |fields| && fields[i] == flag && fields[j] == flag
    ensures UniqueValue(fields, flag) == None
  {
    var p := (f: string) => f == flag;
    var k := FirstIndex(fields, 0, p);
    FirstIndexIs(fields, 0, p, k);
    if k + 1 < |fields| { FirstIndexIs(fields, k + 1, p, |fields|); }
  }

  method UniqueCommandFlagValue(fields: seq<string>, flag: string) returns (r: Option<string>)
    ensures r == UniqueValue(fields, flag)
  {
    var value, found, at := "", false, 0;
    for index := 0 to |fields|
      invariant !found ==> forall j :: 0 <= j < index ==> fields[j] != flag
      invariant found ==> at + 1 < |fields| && at < index && value == fields[at + 1] && fields[at] == flag
      invariant found ==> forall j :: 0 <= j < index && j != at ==> fields[j] != flag
    {
      if fields[index] != flag { continue; }
      if found || index + 1 >= |fields| {
        if found { UniqueValueNone(fields, flag, at, index); }
        else { FirstIndexIs(fields, 0, (f: string) => f == flag, index); }
        return None;
      }
      value, found, at := fields[index + 1], true, index;
    }
    if found {
      UniqueValueIs(fields, flag, at);
      return Some(value);
    }
    FirstIndexIs(fields, 0, (f: string) => f == flag, |fields|);
    return None;
  }

  ghost predicate HasValue(fields: seq<string>, flag: string, value: string) {
    exists i :: 0 <= i && i + 1 < |fields| && fields[i] == flag && fields[i + 1] == value
  }

  method HasCommandFlagValue(fields: seq<string>, flag: string, value: string) returns (r: bool)
    ensures r <==> HasValue(fields, flag, value)
  {
    var index := 0;
    while index + 1 < |fields|
      invariant index <= |fields|
      invariant forall i :: 0 <= i < index && i + 1 < |fields| ==> !(fields[i] == flag && fields[i + 1] == value)
    {
      if fields[index] == flag && fields[index + 1] == value { return true; }
      index := index + 1;
    }
    return false;
  }

  datatype Settings = Settings(devicePath: string, pixelFormat: string, resolution: string, fps: string)

  /** What the parser returns, field by field. */
  ghost function ParseFields(fields: seq<string>): Option<Settings> {
    if fields == [] || fields[0] != "/usr/bin/ffmpeg" || !HasValue(fields, "-f", "v4l2") then None
    else
      match UniqueValue(fields, "-i")
      case None => None
      case Some(device) =>
        if !IsDevicePath(device) then None
        else
          match UniqueValue(fields, "-input_format")
          case None => None
          case Some(format) =>
            var name := ToLower(format);
            if name != "mjpeg" && name != "yuyv422" then None
            else Some(Settings(device, if name == "mjpeg" then "MJPG" else "YUYV",
                               Checked(UniqueValue(fields, "-video_size"), IsResolution),
                               Checked(UniqueValue(fields, "-framerate"), IsFPS)))
  }

  function Checked(v: Option<string>, ok: string -> bool): string {
    if v.Some? && ok(v.value) then v.value else ""
  }

  ghost function ParseCommand(command: string): Option<Settings> {
    if command == "" || |command| > 0x4000 then None else ParseFields(Words(command))
  }

  method ParseAnalogRunOnDemand(command: string) returns (r: Option<Settings>)
    ensures r == ParseCommand(command)
  {
    if |command| == 0 || |command| > 0x4000 { return None; }
    var fields := Words(command);
    if |fields| == 0 || fields[0] != "/usr/bin/ffmpeg" { return None; }
    var input := HasCommandFlagValue(fields, "-f", "v4l2");
    if !input { return None; }
    var device := UniqueCommandFlagValue(fields, "-i");
    if device.None? || !IsDevicePath(device.value) { return None; }
    var format := UniqueCommandFlagValue(fields, "-input_format");
    if format.None? { return None; }
    var settings := Settings(device.value, "", "", "");
    if ToLower(format.value) == "mjpeg" {
      settings := settings.(pixelFormat := "MJPG");
    } else if ToLower(format.value) == "yuyv422" {
      settings := settings.(pixelFormat := "YUYV");
    } else {
      return None;
    }
    var resolution := UniqueCommandFlagValue(fields, "-video_size");
    if resolution.Some? && IsResolution(resolution.value) {
      settings := settings.(resolution := resolution.value);
    }
    var fps := UniqueCommandFlagValue(fields, "-framerate");
    if fps.Some? && IsFPS(fps.value) {
      settings := settings.(fps := fps.value);
    }
    return Some(settings);
  }

  // ------------------------------------------------------------- round trip

  /** Reading a single-quoted YAML scalar (section 7.3.2 of YAML 1.2.2). */
  function Unquote(s: string): string
    requires |s| >= 2
  {
    HalveQuotes(s[1..|s| - 1])
  }

  function HalveQuotes(s: string): string {
    if s == "" then ""
    else if s[0] == '\'' && |s| > 1 then "'" + HalveQuotes(s[2..])
    else [s[0]] + HalveQuotes(s[1..])
  }

  lemma {:induction false} HalveDoubled(v: string)
    ensures HalveQuotes(DoubleQuotes(v)) == v
  {
    if v != "" {
      HalveDoubled(v[1..]);
      var d := DoubleQuotes(v[1..]);
      if v[0] == '\'' {
        assert ("''" + d)[2..] == d;
        assert "'" + v[1..] == v;
      } else {
        assert ([v[0]] + d)[1..] == d;
      }
    }
  }

  lemma QuoteRoundTrip(v: string)
    ensures Unquote(YamlScalar(v)) == v
  {
    var q := YamlScalar(v);
    assert q[1..|q| - 1] == DoubleQuotes(v);
    HalveDoubled(v);
  }

  predicate Word(t: string) {
    t != "" && forall i :: 0 <= i < |t| ==> !IsSpace(t[i])
  }

  lemma {:induction false} WordLengthIs(t: string, rest: string)
    requires forall i :: 0 <= i < |t| ==> !IsSpace(t[i])
    requires rest == "" || IsSpace(rest[0])
    ensures WordLength(t + rest) == |t|
  {
    if t == "" {
      assert t + rest == rest;
    } else {
      assert (t + rest)[1..] == t[1..] + rest;
      WordLengthIs(t[1..], rest);
    }
  }

  /** Splitting on whitespace undoes joining words with single spaces. */
  lemma {:induction false} WordsOfSpaced(ts: seq<string>)
    requires forall i :: 0 <= i < |ts| ==> Word(ts[i])
    ensures Words(Spaced(ts)) == ts
  {
    if ts == [] {
    } else if |ts| == 1 {
      WordLengthIs(ts[0], "");
      assert ts[0] + "" == ts[0];
      assert ts == [ts[0]];
    } else {
      var t, more := ts[0], Spaced(ts[1..]);
      var s := t + (" " + more);
      assert Spaced(ts) == s;
      WordLengthIs(t, " " + more);
      assert s[0] == t[0] && s[..|t|] == t && s[|t|..] == " " + more;
      assert (" " + more)[1..] == more;
      WordsOfSpaced(ts[1..]);
      assert ts == [t] + ts[1..];
    }
  }

  // ------------------------------------------------- the tokens are unambiguous

  predicate ChosenFlag(t: string) {
    t == "-input_format" || t == "-video_size" || t == "-framerate" || t == "-i"
  }

  predicate Inert(t: string) {
    Word(t) && !ChosenFlag(t)
  }

  /** A word that does not start with a dash is inert. */
  lemma ValueIsInert(t: string)
    requires Word(t) && t[0] != '-'
    ensures Inert(t)
  {
  }

  predicate Graphic(t: string) {
    t != "" && forall i :: 0 <= i < |t| ==> '!' <= t[i] <= '~'
  }

  lemma GraphicIsWord(t: string)
    requires Graphic(t)
    ensures Word(t)
  {
  }

  lemma InputInert()
    ensures forall i :: 0 <= i < |INPUT| ==> Inert(INPUT[i])
  {
    hide Word;
    forall i | 0 <= i < |INPUT| ensures Inert(INPUT[i]) {
      assert Graphic(INPUT[i]);
      GraphicIsWord(INPUT[i]);
    }
  }

  lemma Encode1Inert()
    ensures forall i :: 0 <= i < |ENCODE1| ==> Inert(ENCODE1[i])
  {
    hide Word;
    forall i | 0 <= i < |ENCODE1| ensures Inert(ENCODE1[i]) {
      assert Graphic(ENCODE1[i]);
      GraphicIsWord(ENCODE1[i]);
    }
  }

  lemma Encode2Inert()
    ensures forall i :: 0 <= i < |ENCODE2| ==> Inert(ENCODE2[i])
  {
    hide Word;
    forall i | 0 <= i < |ENCODE2| ensures Inert(ENCODE2[i]) {
      assert Graphic(ENCODE2[i]);
      GraphicIsWord(ENCODE2[i]);
    }
  }

  lemma Encode3Inert()
    ensures forall i :: 0 <= i < |ENCODE3| ==> Inert(ENCODE3[i])
  {
    hide Word;
    forall i | 0 <= i < |ENCODE3| ensures Inert(ENCODE3[i]) {
      assert Graphic(ENCODE3[i]);
      GraphicIsWord(ENCODE3[i]);
    }
  }

  lemma Output1Inert()
    ensures forall i :: 0 <= i < |OUTPUT1| ==> Inert(OUTPUT1[i])
  {
    hide Word;
    forall i | 0 <= i < |OUTPUT1| ensures Inert(OUTPUT1[i]) {
      assert Graphic(OUTPUT1[i]);
      GraphicIsWord(OUTPUT1[i]);
    }
  }

  lemma Output2Inert()
    ensures forall i :: 0 <= i < |OUTPUT2| ==> Inert(OUTPUT2[i])
  {
    hide Word;
    TargetInert();
    forall i | 0 <= i < 4 ensures Inert(OUTPUT2[i]) {
      assert Graphic(OUTPUT2[i]);
      GraphicIsWord(OUTPUT2[i]);
    }
  }

  lemma TargetInert()
    ensures Inert(OUTPUT2[4])
  {
    hide Word;
    assert Graphic(OUTPUT2[4]);
    GraphicIsWord(OUTPUT2[4]);
    ValueIsInert(OUTPUT2[4]);
  }

  lemma GroupInert(gop: int)
    requires 1 <= gop
    ensures forall i :: 0 <= i < 4 ==> Inert(Group(gop)[i])
  {
    ValueIsInert(Itoa(gop));
  }

  lemma ConcatInert(a: seq<string>, b: seq<string>)
    requires forall i :: 0 <= i < |a| ==> Inert(a[i])
    requires forall i :: 0 <= i < |b| ==> Inert(b[i])
    ensures forall i :: 0 <= i < |a + b| ==> Inert((a + b)[i])
  {
    hide Inert;
  }

  lemma AllConstantsInert(gop: int)
    requires 1 <= gop
    ensures forall i :: 0 <= i < |Constants(gop)| ==> Inert(Constants(gop)[i])
  {
    hide Inert;
    InputInert();
    Encode1Inert();
    Encode2Inert();
    Encode3Inert();
    Output1Inert();
    Output2Inert();
    GroupInert(gop);
    ConcatInert(ENCODE1, ENCODE2);
    ConcatInert(ENCODE1 + ENCODE2, ENCODE3);
    ConcatInert(ENCODE1 + ENCODE2 + ENCODE3, Group(gop));
    ConcatInert(ENCODE1 + ENCODE2 + ENCODE3 + Group(gop), OUTPUT1);
    ConcatInert(ENCODE1 + ENCODE2 + ENCODE3 + Group(gop) + OUTPUT1, OUTPUT2);
  }

  lemma {:induction false} ToLowerChars(s: string)
    requires forall i :: 0 <= i < |s| ==> FormatChar(s[i])
    ensures |ToLower(s)| == |s| && forall i :: 0 <= i < |s| ==> FormatChar(ToLower(s)[i])
    ensures ToLower(ToLower(s)) == ToLower(s)
  {
    if s != "" {
      ToLowerChars(s[1..]);
      assert ToLower(s)[1..] == ToLower(s[1..]);
    }
  }

  lemma FormatFacts(s: Source)
    requires Accepted(s)
    ensures Inert(InputFormat(s)) && ToLower(InputFormat(s)) == InputFormat(s)
  {
    hide ToLower, ToUpper;
    ToLowerChars(s.pixelFormat);
    LowerLiterals();
    var f := InputFormat(s);
    assert forall i :: 0 <= i < |f| ==> FormatChar(f[i]);
    assert f != "" && f[0] != '-';
    ValueIsInert(f);
  }

  lemma LowerLiterals()
    ensures ToLower("mjpeg") == "mjpeg" && ToLower("yuyv422") == "yuyv422"
  {
    LowerIsFixed("mjpeg");
    LowerIsFixed("yuyv422");
  }

  lemma {:induction false} LowerIsFixed(s: string)
    requires forall i :: 0 <= i < |s| ==> !('A' <= s[i] <= 'Z')
    ensures ToLower(s) == s
  {
    if s != "" {
      LowerIsFixed(s[1..]);
      assert [s[0]] + s[1..] == s;
    }
  }

  lemma ValuesInert(s: Source)
    requires Accepted(s)
    ensures Inert(s.devicePath) && Inert(s.resolution) && Inert(s.fps)
  {
    var d := s.devicePath;
    forall i | 0 <= i < |d| ensures !IsSpace(d[i]) {
      if i < 10 { assert d[i] == "/dev/video"[i]; } else { assert Digit(d[10..][i - 10]); }
    }
    assert d[0] == "/dev/video"[0];
    ResolutionInert(s.resolution);
    FPSInert(s.fps);
  }

  lemma ResolutionInert(r: string)
    requires IsResolution(r)
    ensures Inert(r)
  {
    var k :| 2 <= k <= 5 && k < |r| && r[k] == 'x' && Digits(r[..k]) && 2 <= |r| - k - 1 <= 5 && Digits(r[k + 1..]);
    forall i | 0 <= i < |r| ensures Digit(r[i]) || r[i] == 'x' {
      if i < k { assert Digit(r[..k][i]); } else if i > k { assert Digit(r[k + 1..][i - k - 1]); }
    }
    assert Digit(r[..k][0]);
  }

  lemma FPSInert(f: string)
    requires IsFPS(f)
    ensures Inert(f)
  {
    FPSParts(f);
    var k := PointAt(f);
    PointIsPoint(f);
    forall i | 0 <= i < |f| ensures Digit(f[i]) || f[i] == '.' {
      if i < k { assert Digit(f[..k][i]); } else if i > k { assert Digit(f[k + 1..][i - k - 1]); }
    }
    assert Digit(f[..k][0]);
  }

  lemma {:induction false} PointIsPoint(s: string)
    ensures PointAt(s) < |s| ==> s[PointAt(s)] == '.'
  {
    if s != "" && s[0] != '.' { PointIsPoint(s[1..]); }
  }

  lemma ChosenFlagsDiffer()
    ensures "-input_format" != "-video_size" && "-input_format" != "-framerate" && "-input_format" != "-i"
    ensures "-video_size" != "-framerate" && "-video_size" != "-i" && "-framerate" != "-i"
    ensures Word("-input_format") && Word("-video_size") && Word("-framerate") && Word("-i")
  {
    assert "-video_size"[1] == 'v' && "-framerate"[1] == 'f' && "-input_format"[1] == 'i';
  }

  /** Each chosen flag stands at one place in the command. */
  lemma ChosenOnlyAt(ts: seq<string>, s: Source, rest: seq<string>)
    requires Accepted(s) && ts == INPUT + Chosen(s) + rest
    requires forall i :: 0 <= i < |rest| ==> Inert(rest[i])
    ensures OnlyAt(ts, "-input_format", 9) && OnlyAt(ts, "-video_size", 11)
    ensures OnlyAt(ts, "-framerate", 13) && OnlyAt(ts, "-i", 15)
    ensures forall i :: 0 <= i < |ts| ==> Word(ts[i])
  {
    hide Accepted, Word, InputFormat;
    InputInert();
    FormatFacts(s);
    ValuesInert(s);
    ChosenFlagsDiffer();
    assert forall i :: 0 <= i < 9 ==> ts[i] == INPUT[i];
    assert forall i :: 9 <= i < 17 ==> ts[i] == Chosen(s)[i - 9];
    assert forall i :: 17 <= i < |ts| ==> ts[i] == rest[i - 17];
    assert Inert(ts[10]) && Inert(ts[12]) && Inert(ts[14]) && Inert(ts[16]);
    forall i | 0 <= i < |ts| && i != 9 && i != 11 && i != 13 && i != 15 ensures Inert(ts[i]) {
    }
  }

  lemma ParseTokens(s: Source, ts: seq<string>)
    requires Accepted(s) && ts == Tokens(s)
    ensures ParseFields(ts) ==
            if InputFormat(s) == "mjpeg" then Some(Settings(s.devicePath, "MJPG", s.resolution, s.fps))
            else if InputFormat(s) == "yuyv422" then Some(Settings(s.devicePath, "YUYV", s.resolution, s.fps))
            else None
    ensures forall i :: 0 <= i < |ts| ==> Word(ts[i])
  {
    hide InputFormat, IsDevicePath, IsResolution, IsFPS, Word, UniqueValue, OnlyAt, GOP, Constants;
    GOPInRange(s.fps);
    var rest := Constants(GOP(s.fps));
    AllConstantsInert(GOP(s.fps));
    ChosenOnlyAt(ts, s, rest);
    FormatFacts(s);
    UniqueValueIs(ts, "-input_format", 9);
    UniqueValueIs(ts, "-video_size", 11);
    UniqueValueIs(ts, "-framerate", 13);
    UniqueValueIs(ts, "-i", 15);
    assert ts[0] == INPUT[0] && ts[7] == INPUT[7] && ts[8] == INPUT[8];
    assert HasValue(ts, "-f", "v4l2");
    assert ts[10] == Chosen(s)[1] && ts[12] == Chosen(s)[3] && ts[14] == Chosen(s)[5] && ts[16] == Chosen(s)[7];
  }

  /** For every accepted analog source whose command fits the parser's limit,
      printing, YAML-quoting, unquoting, splitting and parsing gives back the
      device, canonical format, resolution and frame rate -- if the format is one
      the parser knows -- and nothing otherwise. */
  lemma AnalogRoundTrip(s: Source)
    requires Accepted(s) && |Command(s)| <= 0x4000
    ensures ParseCommand(Unquote(YamlScalar(Command(s)))) ==
            if InputFormat(s) == "mjpeg" then Some(Settings(s.devicePath, "MJPG", s.resolution, s.fps))
            else if InputFormat(s) == "yuyv422" then Some(Settings(s.devicePath, "YUYV", s.resolution, s.fps))
            else None
  {
    hide InputFormat, ParseFields, Accepted, Tokens, Words, Spaced;
    QuoteRoundTrip(Command(s));
    ParseTokens(s, Tokens(s));
    WordsOfSpaced(Tokens(s));
    NonEmptyCommand(s);
  }

  /** The command's words name the rounded rate as both of its key frame distances. */
  lemma GroupWritten(s: Source)
    requires Accepted(s)
    ensures HasValue(Words(Command(s)), "-g", Itoa(GOP(s.fps))) && HasValue(Words(Command(s)), "-keyint_min", Itoa(GOP(s.fps)))
  {
    GOPInRange(s.fps);
    hide InputFormat, Accepted, Words, Spaced, GOP, Itoa;
    var ts := Tokens(s);
    ParseTokens(s, ts);
    WordsOfSpaced(ts);
    var group := Group(GOP(s.fps));
    var before := INPUT + Chosen(s) + ENCODE1 + ENCODE2 + ENCODE3;
    assert ts == before + group + (OUTPUT1 + OUTPUT2);
    assert |before| == 38;
    assert ts[38] == group[0] && ts[39] == group[1] && ts[40] == group[2] && ts[41] == group[3];
  }

  lemma NonEmptyCommand(s: Source)
    requires Accepted(s)
    ensures Command(s) != ""
  {
    hide Constants, Chosen, GOP, IsFPS;
    GOPInRange(s.fps);
    var ts := Tokens(s);
    assert ts[0] == INPUT[0];
  }

  /** The same for the known pixel formats, in either spelling and any case. */
  lemma KnownFormatRoundTrip(s: Source)
    requires Accepted(s) && |Command(s)| <= 0x4000
    requires ToUpper(s.pixelFormat) in {"MJPG", "MJPEG", "YUYV", "YUY2"}
    ensures var canonical := if ToUpper(s.pixelFormat) in {"MJPG", "MJPEG"} then "MJPG" else "YUYV";
            ParseCommand(Unquote(YamlScalar(Command(s)))) == Some(Settings(s.devicePath, canonical, s.resolution, s.fps))
  {
    hide ParseCommand, Unquote, YamlScalar, Command, Accepted, ToUpper;
    AnalogRoundTrip(s);
    assert "mjpeg"[0] != "yuyv422"[0];
  }

  /** What mediaMTXUpdate builds for an accepted analog source. */
  function AnalogUpdate(s: Source, restart: bool): PathUpdate
    requires Accepted(s)
  {
    PathUpdate("publisher", false, Command(s), restart, "15s", "2s")
  }

  lemma {:induction false} SpacedSingleLine(ts: seq<string>)
    requires forall i :: 0 <= i < |ts| ==> Word(ts[i])
    ensures NoNewline(Spaced(ts))
  {
    if |ts| > 1 {
      SpacedSingleLine(ts[1..]);
    }
  }

  /** Such an update meets what the configuration editor needs of its fields. */
  lemma AnalogUpdateIsPlain(s: Source, restart: bool)
    requires Accepted(s)
    ensures PathsLaws.SingleLine(AnalogUpdate(s, restart)) && PathsRename.PlainTimeouts(AnalogUpdate(s, restart))
  {
    hide Accepted, Tokens, Word;
    ParseTokens(s, Tokens(s));
    SpacedSingleLine(Tokens(s));
    assert !IsSpace("15s"[0]) && !IsSpace("2s"[0]);
  }
}
