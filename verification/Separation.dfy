/** Public streams and temporary previews share MediaMTX but not their names: the
    internal shape of internal/stream/service.go, the tokens that
    internal/streampreview/manager.go draws, and the guard of streams_http.go. */
module Separation {
  import opened Options
  import opened PathsEditor
  import opened PathsLaws
  import opened ConfigStore
  import opened PreviewManager

  // ----------------------------------------------------------------------- the shape

  const TOKEN_BYTES: nat := 12

  predicate HexDigit(c: char) {
    '0' <= c <= '9' || 'a' <= c <= 'f'
  }

  /** IsInternalPreviewPath: `^_dron_preview_[0-9a-f]{24}$`. */
  predicate IsInternal(name: string) {
    && |name| == |PREFIX| + 2 * TOKEN_BYTES
    && name[..|PREFIX|] == PREFIX
    && forall i :: |PREFIX| <= i < |name| ==> HexDigit(name[i])
  }

  /** validPublicStreamName. */
  predicate IsPublic(name: string) {
    ValidName(name) && !IsInternal(name)
  }

  predicate Bytes(s: seq<nat>) {
    forall i :: 0 <= i < |s| ==> s[i] < 256
  }

  function Nibble(n: nat): char
    requires n < 16
  {
    if n < 10 then '0' + n as char else 'a' + (n - 10) as char
  }

  function NibbleValue(c: char): nat
    requires HexDigit(c)
  {
    if c <= '9' then c as nat - '0' as nat else c as nat - 'a' as nat + 10
  }

  /** hex.EncodeToString. */
  function Hex(s: seq<nat>): string
    requires Bytes(s)
  {
    if s == [] then "" else [Nibble(s[0] / 16), Nibble(s[0] % 16)] + Hex(s[1..])
  }

  predicate AllHex(t: string) {
    forall i :: 0 <= i < |t| ==> HexDigit(t[i])
  }

  function Unhex(t: string): seq<nat>
    requires AllHex(t) && |t| % 2 == 0
  {
    if t == "" then [] else [NibbleValue(t[0]) * 16 + NibbleValue(t[1])] + Unhex(t[2..])
  }

  lemma {:induction false} HexRoundTrip(s: seq<nat>)
    requires Bytes(s)
    ensures AllHex(Hex(s)) && |Hex(s)| == 2 * |s| && Unhex(Hex(s)) == s
  {
    if s != [] {
      HexRoundTrip(s[1..]);
      assert s == [s[0]] + s[1..];
      var t := Hex(s[1..]);
      assert Hex(s) == [Nibble(s[0] / 16), Nibble(s[0] % 16)] + t;
      hide Hex;
      HexByte(s[0], t);
    }
  }

  lemma HexByte(b: nat, t: string)
    requires b < 256 && AllHex(t) && |t| % 2 == 0
    ensures var h := [Nibble(b / 16), Nibble(b % 16)] + t;
            AllHex(h) && |h| % 2 == 0 && Unhex(h) == [b] + Unhex(t)
  {
    var x, y := Nibble(b / 16), Nibble(b % 16);
    ValueOfNibble(b / 16);
    ValueOfNibble(b % 16);
    hide Nibble, NibbleValue, HexDigit;
    var h := [x, y] + t;
    assert h[2..] == t;
  }

  lemma ValueOfNibble(n: nat)
    requires n < 16
    ensures HexDigit(Nibble(n)) && NibbleValue(Nibble(n)) == n
  {
  }

  lemma {:induction false} UnhexRoundTrip(t: string)
    requires AllHex(t) && |t| % 2 == 0
    ensures Bytes(Unhex(t)) && 2 * |Unhex(t)| == |t| && Hex(Unhex(t)) == t
  {
    if t != "" {
      UnhexRoundTrip(t[2..]);
      assert t == [t[0], t[1]] + t[2..];
      assert Unhex(t)[1..] == Unhex(t[2..]);
      NibbleOfValue(t[0]);
      NibbleOfValue(t[1]);
      Halves(NibbleValue(t[0]), NibbleValue(t[1]));
    }
  }

  lemma NibbleOfValue(c: char)
    requires HexDigit(c)
    ensures NibbleValue(c) < 16 && Nibble(NibbleValue(c)) == c
  {
  }

  lemma Halves(a: nat, b: nat)
    requires a < 16 && b < 16
    ensures (a * 16 + b) / 16 == a && (a * 16 + b) % 16 == b && a * 16 + b < 256
  {
  }

  predicate IsToken(s: seq<nat>) {
    |s| == TOKEN_BYTES && Bytes(s)
  }

  /** The path of a token has the internal shape and is an acceptable stream name. */
  lemma TokenPathIsInternal(s: seq<nat>)
    requires IsToken(s)
    ensures IsInternal(PathOf(Hex(s))) && ValidName(PathOf(Hex(s)))
  {
    hide Hex, Unhex;
    HexRoundTrip(s);
    InternalShape(Hex(s));
    InternalName(Hex(s));
  }

  lemma InternalShape(t: string)
    requires AllHex(t) && |t| == 2 * TOKEN_BYTES
    ensures IsInternal(PathOf(t))
  {
    hide HexDigit;
    var n := PathOf(t);
    assert n[..|PREFIX|] == PREFIX;
    forall i | |PREFIX| <= i < |n| ensures HexDigit(n[i]) {
      assert n[i] == t[i - |PREFIX|];
    }
  }

  lemma InternalName(t: string)
    requires AllHex(t) && |t| == 2 * TOKEN_BYTES
    ensures ValidName(PathOf(t))
  {
    hide HexDigit, NameChar;
    var n := PathOf(t);
    PrefixIsName();
    forall i | 0 <= i < |n| ensures NameChar(n[i]) {
      if i < |PREFIX| {
        assert n[i] == PREFIX[i];
      } else {
        assert n[i] == t[i - |PREFIX|];
        HexIsName(n[i]);
      }
    }
  }

  lemma HexIsName(c: char)
    requires HexDigit(c)
    ensures NameChar(c)
  {
  }

  lemma PrefixIsName()
    ensures |PREFIX| == 14 && forall i :: 0 <= i < |PREFIX| ==> NameChar(PREFIX[i])
  {
  }

  /** The shape is exact: it holds of the token paths, one for each token, and of
      nothing else. */
  lemma InternalIsToken(name: string)
    ensures IsInternal(name) <==> exists s :: IsToken(s) && PathOf(Hex(s)) == name
  {
    if IsInternal(name) {
      var t := name[|PREFIX|..];
      assert forall i :: 0 <= i < |t| ==> t[i] == name[|PREFIX| + i];
      UnhexRoundTrip(t);
      assert name == PREFIX + t;
      assert IsToken(Unhex(t)) && PathOf(Hex(Unhex(t))) == name;
    }
    if s :| IsToken(s) && PathOf(Hex(s)) == name {
      TokenPathIsInternal(s);
    }
  }

  lemma TokenPathsDiffer(s: seq<nat>, t: seq<nat>)
    requires IsToken(s) && IsToken(t) && PathOf(Hex(s)) == PathOf(Hex(t))
    ensures s == t
  {
    PathOfInjective(Hex(s), Hex(t));
    HexRoundTrip(s);
    HexRoundTrip(t);
  }

  // ------------------------------------------------------------------ remote calls

  type Paths = map<string, PathUpdate>

  /** A call may be refused, or applied with its reply lost. */
  datatype Reply = Fine | Refused | Lost

  datatype Answer = Answer(paths: Paths, ok: bool)

  function AddPath(p: Paths, name: string, u: PathUpdate, r: Reply): Answer {
    if name in p || r == Refused then Answer(p, false) else Answer(p[name := u], r == Fine)
  }

  function PatchPath(p: Paths, name: string, u: PathUpdate, r: Reply): Answer {
    if name !in p || r == Refused then Answer(p, false) else Answer(p[name := u], r == Fine)
  }

  function DropPath(p: Paths, name: string, r: Reply): Answer {
    if name !in p || r == Refused then Answer(p, false) else Answer(p - {name}, r == Fine)
  }

  // --------------------------------------------------------------- service operations

  /** The configuration file, when the service edits one, and MediaMTX's own paths. */
  datatype World = World(fileMode: bool, disk: Disk, paths: Paths)

  datatype Replies = Replies(add: Reply, delete: Reply, undo: Reply)

  /** Lines 130-147 of ApplySource. */
  function ApplyRemote(p: Paths, name: string, u: PathUpdate, existing: string, r: Replies): Paths {
    if existing == "" then AddPath(p, name, u, r.add).paths
    else if existing == name then PatchPath(p, name, u, r.add).paths
    else if !ValidName(existing) then p
    else
      var added := AddPath(p, name, u, r.add);
      if !added.ok then added.paths
      else
        var dropped := DropPath(added.paths, existing, r.delete);
        if dropped.ok then dropped.paths else DropPath(dropped.paths, name, r.undo).paths
  }

  /** ApplySource; `u` is what mediaMTXUpdate made of the source. */
  function Apply(w: World, name: string, u: Option<PathUpdate>, existing: string, f: Faults, r: Replies): World {
    if u.None? then w
    else if w.fileMode && !IsInternal(name) then
      var run := ApplyOn(w.disk, name, u.value, existing, f);
      w.(disk := run.moments[|run.moments| - 1])
    else w.(paths := ApplyRemote(w.paths, name, u.value, existing, r))
  }

  function DeleteConfig(w: World, name: string, f: Fault, r: Reply): World {
    if w.fileMode && !IsInternal(name) then w.(disk := DeleteOn(w.disk, name, f).disk)
    else w.(paths := DropPath(w.paths, name, r).paths)
  }

  // ---------------------------------------------------------------------------- runs

  /** Requests of streams_http.go, and what the preview manager asks of the service. */
  datatype Call =
    | PublicApply(name: string, update: Option<PathUpdate>, existing: string, faults: Faults, replies: Replies)
    | PublicDelete(name: string, fault: Fault, reply: Reply)
    | PreviewApply(token: seq<nat>, update: Option<PathUpdate>, faults: Faults, replies: Replies)
    | PreviewDelete(token: seq<nat>, fault: Fault, reply: Reply)
    | PreviewCleanup(refused: set<string>)

  predicate Preview(c: Call) {
    c.PreviewApply? || c.PreviewDelete? || c.PreviewCleanup?
  }

  function Step(w: World, c: Call): World {
    match c
    case PublicApply(name, u, existing, f, r) =>
      if IsPublic(name) && (existing == "" || IsPublic(existing)) then Apply(w, name, u, existing, f, r) else w
    case PublicDelete(name, f, r) => if IsPublic(name) then DeleteConfig(w, name, f, r) else w
    case PreviewApply(token, u, f, r) => if IsToken(token) then Apply(w, PathOf(Hex(token)), u, "", f, r) else w
    case PreviewDelete(token, f, r) => if IsToken(token) then DeleteConfig(w, PathOf(Hex(token)), f, r) else w
    case PreviewCleanup(refused) =>
      w.(paths := map n | n in w.paths && (!IsInternal(n) || n in refused) :: w.paths[n])
  }

  function RunCalls(w: World, cs: seq<Call>): World {
    if cs == [] then w else Step(RunCalls(w, cs[..|cs| - 1]), cs[|cs| - 1])
  }

  // ------------------------------------------------------------------ the two halves

  ghost function Side(p: Paths, internal: bool): Paths {
    map n | n in p && IsInternal(n) == internal :: p[n]
  }

  /** What public users see, and what previews own. */
  ghost predicate SamePublic(v: World, w: World) {
    v.fileMode == w.fileMode && v.disk == w.disk && Side(v.paths, false) == Side(w.paths, false)
  }

  ghost predicate SamePreview(v: World, w: World) {
    v.fileMode == w.fileMode && Side(v.paths, true) == Side(w.paths, true)
  }

  lemma SideAt(p: Paths, q: Paths, name: string)
    requires Side(p, IsInternal(name)) == Side(q, IsInternal(name))
    ensures name in p <==> name in q
    ensures name in p ==> p[name] == q[name]
  {
    hide IsInternal;
    assert name in p <==> name in Side(p, IsInternal(name));
    assert name in q <==> name in Side(q, IsInternal(name));
    if name in p {
      assert Side(p, IsInternal(name))[name] == Side(q, IsInternal(name))[name];
    }
  }

  /** Each remote call works on one name: it leaves the other half alone and does the
      same to two worlds that agree on this half. */
  lemma CallsAreLocal(p: Paths, name: string, u: PathUpdate, r: Reply)
    ensures Side(AddPath(p, name, u, r).paths, !IsInternal(name)) == Side(p, !IsInternal(name))
    ensures Side(PatchPath(p, name, u, r).paths, !IsInternal(name)) == Side(p, !IsInternal(name))
    ensures Side(DropPath(p, name, r).paths, !IsInternal(name)) == Side(p, !IsInternal(name))
  {
    hide IsInternal;
  }

  lemma CallsAgree(p: Paths, q: Paths, name: string, u: PathUpdate, r: Reply)
    requires Side(p, IsInternal(name)) == Side(q, IsInternal(name))
    ensures Side(AddPath(p, name, u, r).paths, IsInternal(name)) == Side(AddPath(q, name, u, r).paths, IsInternal(name))
    ensures AddPath(p, name, u, r).ok == AddPath(q, name, u, r).ok
    ensures Side(PatchPath(p, name, u, r).paths, IsInternal(name)) == Side(PatchPath(q, name, u, r).paths, IsInternal(name))
    ensures Side(DropPath(p, name, r).paths, IsInternal(name)) == Side(DropPath(q, name, r).paths, IsInternal(name))
    ensures DropPath(p, name, r).ok == DropPath(q, name, r).ok
  {
    hide IsInternal;
    SideAt(p, q, name);
    var b := IsInternal(name);
    SideUpdate(p, name, u, b);
    SideUpdate(q, name, u, b);
    SideRemove(p, name, b);
    SideRemove(q, name, b);
  }

  lemma SideUpdate(p: Paths, name: string, u: PathUpdate, b: bool)
    requires IsInternal(name) == b
    ensures Side(p[name := u], b) == Side(p, b)[name := u]
  {
    hide IsInternal;
  }

  lemma SideRemove(p: Paths, name: string, b: bool)
    ensures Side(p - {name}, b) == Side(p, b) - {name}
  {
    hide IsInternal;
  }

  lemma ApplyRemoteLocal(p: Paths, name: string, u: PathUpdate, existing: string, r: Replies)
    requires existing == "" || IsInternal(existing) == IsInternal(name)
    ensures Side(ApplyRemote(p, name, u, existing, r), !IsInternal(name)) == Side(p, !IsInternal(name))
  {
    hide IsInternal, ValidName, AddPath, PatchPath, DropPath, Side;
    CallsAreLocal(p, name, u, r.add);
    var added := AddPath(p, name, u, r.add);
    CallsAreLocal(added.paths, existing, u, r.delete);
    CallsAreLocal(DropPath(added.paths, existing, r.delete).paths, name, u, r.undo);
  }

  lemma ApplyRemoteAgrees(p: Paths, q: Paths, name: string, u: PathUpdate, existing: string, r: Replies)
    requires existing == "" || IsInternal(existing) == IsInternal(name)
    requires Side(p, IsInternal(name)) == Side(q, IsInternal(name))
    ensures Side(ApplyRemote(p, name, u, existing, r), IsInternal(name)) == Side(ApplyRemote(q, name, u, existing, r), IsInternal(name))
  {
    hide IsInternal, ValidName, AddPath, PatchPath, DropPath, Side;
    CallsAgree(p, q, name, u, r.add);
    if existing != "" && existing != name && ValidName(existing) {
      var a, b := AddPath(p, name, u, r.add), AddPath(q, name, u, r.add);
      if a.ok {
        CallsAgree(a.paths, b.paths, existing, u, r.delete);
        var c, d := DropPath(a.paths, existing, r.delete), DropPath(b.paths, existing, r.delete);
        if !c.ok { CallsAgree(c.paths, d.paths, name, u, r.undo); }
      }
    }
  }

  /** A preview call changes nothing a public user sees. */
  lemma PreviewStep(w: World, c: Call)
    requires Preview(c)
    ensures SamePublic(Step(w, c), w)
  {
    hide IsInternal, Hex, PathOf;
    match c
    case PreviewApply(token, u, f, r) =>
      if IsToken(token) && u.Some? {
        TokenPathIsInternal(token);
        ApplyRemoteLocal(w.paths, PathOf(Hex(token)), u.value, "", r);
      }
    case PreviewDelete(token, _, r) =>
      if IsToken(token) {
        TokenPathIsInternal(token);
        CallsAreLocal(w.paths, PathOf(Hex(token)), NoUpdate, r);
      }
    case PreviewCleanup(_) =>
  }

  const NoUpdate := PathUpdate("", false, "", false, "", "")

  /** A public call changes nothing a preview owns. */
  lemma PublicStep(w: World, c: Call)
    requires !Preview(c)
    ensures SamePreview(Step(w, c), w)
  {
    hide IsInternal, ValidName, ApplyOn, DeleteOn, Side, DropPath;
    match c
    case PublicApply(name, u, existing, f, r) =>
      if IsPublic(name) && (existing == "" || IsPublic(existing)) && u.Some? {
        ApplyRemoteLocal(w.paths, name, u.value, existing, r);
      }
    case PublicDelete(name, f, r) =>
      if IsPublic(name) {
        CallsAreLocal(w.paths, name, NoUpdate, r);
      }
  }

  lemma PublicAgrees(v: World, w: World, c: Call)
    requires !Preview(c) && SamePublic(v, w)
    ensures SamePublic(Step(v, c), Step(w, c))
  {
    hide IsInternal, ValidName, ApplyOn, DeleteOn, Side, DropPath, ApplyRemote;
    match c
    case PublicApply(name, u, existing, f, r) =>
      if IsPublic(name) && (existing == "" || IsPublic(existing)) && u.Some? {
        ApplyRemoteAgrees(v.paths, w.paths, name, u.value, existing, r);
      }
    case PublicDelete(name, f, r) =>
      if IsPublic(name) {
        CallsAgree(v.paths, w.paths, name, NoUpdate, r);
      }
  }

  lemma PreviewAgrees(v: World, w: World, c: Call)
    requires Preview(c) && SamePreview(v, w)
    ensures SamePreview(Step(v, c), Step(w, c))
  {
    hide IsInternal, ApplyOn, DeleteOn, DropPath, ApplyRemote, Hex, PathOf;
    match c
    case PreviewApply(token, u, f, r) =>
      if IsToken(token) && u.Some? {
        TokenPathIsInternal(token);
        ApplyRemoteAgrees(v.paths, w.paths, PathOf(Hex(token)), u.value, "", r);
      }
    case PreviewDelete(token, _, r) =>
      if IsToken(token) {
        TokenPathIsInternal(token);
        CallsAgree(v.paths, w.paths, PathOf(Hex(token)), NoUpdate, r);
      }
    case PreviewCleanup(refused) =>
      CleanedUp(v.paths, refused);
      CleanedUp(w.paths, refused);
  }

  lemma CleanedUp(p: Paths, refused: set<string>)
    ensures var left := map n | n in p && (!IsInternal(n) || n in refused) :: p[n];
            Side(left, true) == map n | n in Side(p, true) && n in refused :: Side(p, true)[n]
  {
    hide IsInternal;
  }

  /** The calls of one kind, in order. */
  ghost function Only(cs: seq<Call>, preview: bool): seq<Call> {
    if cs == [] then []
    else Only(cs[..|cs| - 1], preview) + if Preview(cs[|cs| - 1]) == preview then [cs[|cs| - 1]] else []
  }

  lemma RunAppend(w: World, cs: seq<Call>, c: Call)
    ensures RunCalls(w, cs + [c]) == Step(RunCalls(w, cs), c)
  {
    assert (cs + [c])[..|cs|] == cs;
  }

  /** Previews and public streams do not interfere: after any interleaving the file and
      the public paths are what the public calls alone would have made of them, and
      the preview paths are what the preview calls alone would have. */
  lemma {:induction false} NonInterference(w: World, cs: seq<Call>)
    ensures SamePublic(RunCalls(w, cs), RunCalls(w, Only(cs, false)))
    ensures SamePreview(RunCalls(w, cs), RunCalls(w, Only(cs, true)))
  {
    hide Step, SamePublic, SamePreview, Preview;
    if cs == [] {
      assert SamePublic(w, w) && SamePreview(w, w) by { Reflexive(w); }
    } else {
      var init, c := cs[..|cs| - 1], cs[|cs| - 1];
      NonInterference(w, init);
      var t := RunCalls(w, init);
      var u, v := RunCalls(w, Only(init, false)), RunCalls(w, Only(init, true));
      assert Only(init, false) + [] == Only(init, false) && Only(init, true) + [] == Only(init, true);
      if Preview(c) {
        PreviewStep(t, c);
        SamePublicTransitive(Step(t, c), t, u);
        PreviewAgrees(t, v, c);
        RunAppend(w, Only(init, true), c);
      } else {
        PublicStep(t, c);
        SamePreviewTransitive(Step(t, c), t, v);
        PublicAgrees(t, u, c);
        RunAppend(w, Only(init, false), c);
      }
    }
  }

  lemma Reflexive(w: World)
    ensures SamePublic(w, w) && SamePreview(w, w)
  {
  }

  lemma SamePublicTransitive(u: World, v: World, w: World)
    requires SamePublic(u, v) && SamePublic(v, w)
    ensures SamePublic(u, w)
  {
  }

  lemma SamePreviewTransitive(u: World, v: World, w: World)
    requires SamePreview(u, v) && SamePreview(v, w)
    ensures SamePreview(u, w)
  {
  }

  /** In particular a run of previews leaves the file as it was, and a run of public
      calls leaves every preview path as it was. */
  lemma {:induction false} OneKindOnly(w: World, cs: seq<Call>, preview: bool)
    requires forall i :: 0 <= i < |cs| ==> Preview(cs[i]) == preview
    ensures preview ==> RunCalls(w, cs).disk == w.disk && Side(RunCalls(w, cs).paths, false) == Side(w.paths, false)
    ensures !preview ==> Side(RunCalls(w, cs).paths, true) == Side(w.paths, true)
  {
    hide Step, Side;
    NonInterference(w, cs);
    NoneOf(cs, !preview);
  }

  lemma {:induction false} NoneOf(cs: seq<Call>, preview: bool)
    requires forall i :: 0 <= i < |cs| ==> Preview(cs[i]) != preview
    ensures Only(cs, preview) == []
  {
    if cs != [] {
      NoneOf(cs[..|cs| - 1], preview);
    }
  }
}
