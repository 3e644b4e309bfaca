/** What ends up in a camera's record after a save, a discovery or a status check, said
    of the stored fields one by one. */
module CameraRecords {
  import opened Text
  import opened Options
  import opened CameraStore

  // --------------------------------------------------------------------------- saves

  /** A user name or password named by a stream path. */
  function NameIn(p: Path): Option<string> {
    if p.Blank? || p.Malformed? || p.url.user.NoUser? then None else Some(p.url.user.username)
  }

  function PasswordIn(p: Path): Option<string> {
    if p.Parsed? && p.url.user.NamePassword? then Some(p.url.user.password) else None
  }

  /** Two texts that may both stand, where the blank one gives way. */
  predicate Agree(settled: string, named: Option<string>) {
    named.Some? ==> settled == "" || settled == named.value
  }

  function Settled(settled: string, named: Option<string>): string {
    if named.Some? then named.value else settled
  }

  /** Both paths are given, so the request's own are used. */
  predicate OwnPaths(r: Request) {
    !r.mainPath.Blank? && !r.subPath.Blank?
  }

  /** The credentials inside the paths agree with the request's and with each other. */
  predicate Credible(r: Request) {
    && Agree(r.username, NameIn(r.mainPath)) && Agree(r.password, PasswordIn(r.mainPath))
    && Agree(Settled(r.username, NameIn(r.mainPath)), NameIn(r.subPath))
    && Agree(Settled(r.password, PasswordIn(r.mainPath)), PasswordIn(r.subPath))
  }

  /** What may be saved: a name, an address that is one, a known manufacturer and, if
      both paths are given, two RTSP URLs whose credentials agree with the request's. */
  predicate Acceptable(r: Request) {
    && TrimSpace(r.name) != "" && r.ip.Some? && r.manufacturer != Unknown
    && (OwnPaths(r) ==>
          && r.mainPath.Parsed? && r.subPath.Parsed?
          && Credible(r.(username := TrimSpace(r.username))))
  }

  /** A request is accepted if and only if it is acceptable, whatever is stored. */
  lemma AcceptedIff(r: Request, savedPassword: string)
    ensures Prepare(r, savedPassword).Some? <==> Acceptable(r)
  {
    var c := Cleaned(r);
    NormalizedIs(c);
    UsualPaths(r.manufacturer, r.ip);
    hide TrimSpace, NormalizePaths, NameIn, PasswordIn, DefaultPath;
    assert OwnPaths(r) ==> c.mainPath == r.mainPath && c.subPath == r.subPath;
    assert c.username == TrimSpace(r.username) && c.password == r.password;
  }

  lemma Takes(r: Request, p: Path)
    requires p.Parsed?
    ensures var t := TakeCredentials(r, p.url.user);
            && (t.Some? <==> Agree(r.username, NameIn(p)) && Agree(r.password, PasswordIn(p)))
            && (t.Some? ==> t.value == r.(username := Settled(r.username, NameIn(p)), password := Settled(r.password, PasswordIn(p))))
  {
  }

  /** The credentials of the request once both paths have had their say. */
  function Username(r: Request): string {
    Settled(Settled(r.username, NameIn(r.mainPath)), NameIn(r.subPath))
  }

  function Password(r: Request): string {
    Settled(Settled(r.password, PasswordIn(r.mainPath)), PasswordIn(r.subPath))
  }

  lemma NormalizedIs(r: Request)
    ensures NormalizePaths(r).Some? <==> r.mainPath.Parsed? && r.subPath.Parsed? && Credible(r)
    ensures NormalizePaths(r).Some? ==>
              NormalizePaths(r).value == r.(username := Username(r), password := Password(r),
                                            mainPath := WithoutUser(r.mainPath), subPath := WithoutUser(r.subPath))
  {
    hide TakeCredentials, Agree, Settled, NameIn, PasswordIn, WithoutUser;
    if r.mainPath.Parsed? && r.subPath.Parsed? {
      Takes(r, r.mainPath);
      var t := TakeCredentials(r, r.mainPath.url.user);
      if t.Some? { Takes(t.value, r.subPath); }
    }
  }

  lemma UsualPaths(m: Manufacturer, ip: Option<string>)
    ensures var p, q := DefaultPath(m, ip, true), DefaultPath(m, ip, false);
            && (ip.Some? && m != Unknown ==> p.Parsed? && q.Parsed?)
            && NameIn(p).None? && NameIn(q).None? && PasswordIn(p).None? && PasswordIn(q).None?
            && (ip.None? || m == Unknown ==> p.Blank? && q.Blank?)
  {
  }

  /** A path to the camera itself. */
  predicate Reaches(p: Path, ip: string) {
    p.Parsed? && p.url.host == ip && p.url.user == NoUser
  }

  /** The request's path with its port, scheme and rest, or the manufacturer's. */
  predicate PathStored(p: Path, asked: Path, own: bool, m: Manufacturer, main: bool) {
    && p.Parsed?
    && (own ==> asked.Parsed? && p.url.secure == asked.url.secure && p.url.port == asked.url.port && p.url.rest == asked.url.rest)
    && (!own ==> !p.url.secure && p.url.port == "554" && p.url.rest == UsualRest(m, main))
  }

  function UsualRest(m: Manufacturer, main: bool): string {
    match m
    case Dahua => if main then "/cam/realmonitor?channel=1&subtype=0" else "/cam/realmonitor?channel=1&subtype=1"
    case Hikvision => if main then "/Streaming/Channels/101" else "/Streaming/Channels/102"
    case UNV => if main then "/unicast/c1/s0/live" else "/unicast/c1/s1/live"
    case Unknown => ""
  }

  /** An accepted save that was written changes no other record and leaves the
      request's trimmed fields under its id: paths without credentials that lead to the
      camera's own address, the masks and the DHCP flag only where the request has them,
      and nothing of what the network reported. */
  lemma SavedStores(s: Store, r: Request)
    requires Acceptable(r)
    ensures var t := SaveStep(s, r, Written); var id := Target(r); var before := Find(s.cameras, id);
            && t.online == s.online && t.file == t.cameras && t.cameras.Keys == s.cameras.Keys + {id}
            && (forall other :: other in s.cameras && other != id ==> t.cameras[other] == s.cameras[other])
            && var c := t.cameras[id];
            && c.id == id && c.name == TrimSpace(r.name) && c.address == TrimSpace(r.address) && c.use == r.use
            && c.manufacturer == r.manufacturer && c.model == TrimSpace(r.model)
            && c.subnet == Prefer(TrimSpace(r.subnet), before.subnet) && c.gateway == Prefer(TrimSpace(r.gateway), before.gateway)
            && (r.dhcp.Some? ==> c.dhcp == r.dhcp) && (r.dhcp.None? ==> c.dhcp == before.dhcp)
            && Reaches(c.mainPath, r.ip.value) && PathStored(c.mainPath, r.mainPath, OwnPaths(r), r.manufacturer, true)
            && Reaches(c.subPath, r.ip.value) && PathStored(c.subPath, r.subPath, OwnPaths(r), r.manufacturer, false)
            && c.protocol == before.protocol && c.serial == before.serial && c.firmware == before.firmware
            && c.machineName == before.machineName && c.mainStream == before.mainStream && c.subStream == before.subStream
            && c.status == before.status && c.lastSeen == before.lastSeen
  {
    var saved := Find(s.cameras, r.id).password;
    AcceptedIff(r, saved);
    PreparedPaths(r, saved);
    PreparedTexts(r, saved);
    PreparedFacts(r, saved);
    hide Prepare, TrimSpace, Reaches, PathStored, Acceptable, Target, OwnPaths;
    var p := Prepare(r, saved).value;
    var before := Find(s.cameras, p.id);
    SavedIs(before, p);
    hide SavedCamera;
    assert SaveStep(s, r, Written).cameras == s.cameras[p.id := SavedCamera(before, p)];
  }

  lemma SavedIs(before: Camera, p: Request)
    ensures var c := SavedCamera(before, p);
            && c.id == p.id && c.name == p.name && c.address == p.address && c.use == p.use
            && c.manufacturer == p.manufacturer && c.model == p.model
            && c.subnet == Prefer(p.subnet, before.subnet) && c.gateway == Prefer(p.gateway, before.gateway)
            && (p.dhcp.Some? ==> c.dhcp == p.dhcp) && (p.dhcp.None? ==> c.dhcp == before.dhcp)
            && c.mainPath == p.mainPath && c.subPath == p.subPath
            && c.protocol == before.protocol && c.serial == before.serial && c.firmware == before.firmware
            && c.machineName == before.machineName && c.mainStream == before.mainStream && c.subStream == before.subStream
            && c.status == before.status && c.lastSeen == before.lastSeen
  {
  }

  lemma PreparedPaths(r: Request, savedPassword: string)
    requires Prepare(r, savedPassword).Some?
    ensures var p := Prepare(r, savedPassword).value;
            && Reaches(p.mainPath, r.ip.value) && PathStored(p.mainPath, r.mainPath, OwnPaths(r), r.manufacturer, true)
            && Reaches(p.subPath, r.ip.value) && PathStored(p.subPath, r.subPath, OwnPaths(r), r.manufacturer, false)
  {
    NormalizedIs(Cleaned(r));
    DefaultReaches(r.manufacturer, r.ip);
    hide TrimSpace, NormalizePaths, DefaultPath, Username, Password, Credible;
  }

  lemma DefaultReaches(m: Manufacturer, ip: Option<string>)
    ensures m != Unknown && ip.Some? ==>
              && Reaches(DefaultPath(m, ip, true), ip.value) && PathStored(DefaultPath(m, ip, true), Blank, false, m, true)
              && Reaches(DefaultPath(m, ip, false), ip.value) && PathStored(DefaultPath(m, ip, false), Blank, false, m, false)
  {
  }

  lemma PreparedTexts(r: Request, savedPassword: string)
    requires Prepare(r, savedPassword).Some?
    ensures var p := Prepare(r, savedPassword).value;
            && p.address == TrimSpace(r.address) && p.model == TrimSpace(r.model) && p.manufacturer == r.manufacturer
            && p.subnet == TrimSpace(r.subnet) && p.gateway == TrimSpace(r.gateway) && p.dhcp == r.dhcp
  {
    NormalizedIs(Cleaned(r));
    hide TrimSpace, NormalizePaths, DefaultPath, WithHost, WithoutUser, Username, Password, Credible, Target;
  }

  /** The credentials of the record: those inside the paths, which agree with the
      request's, else the request's, and for the password else the stored one. */
  lemma SavedCredentials(s: Store, r: Request)
    requires Acceptable(r)
    ensures var c := Find(SaveStep(s, r, Written).cameras, Target(r));
            var brought := if OwnPaths(r) then Password(r) else r.password;
            && c.username == (if OwnPaths(r) then Username(r.(username := TrimSpace(r.username))) else TrimSpace(r.username))
            && c.password == (if brought != "" then brought else Find(s.cameras, r.id).password)
  {
    var saved := Find(s.cameras, r.id).password;
    AcceptedIff(r, saved);
    PreparedCredentials(r, saved);
    PreparedFacts(r, saved);
    hide Prepare, TrimSpace, Acceptable;
  }

  lemma PreparedCredentials(r: Request, savedPassword: string)
    requires Prepare(r, savedPassword).Some?
    ensures var p := Prepare(r, savedPassword).value;
            var brought := if OwnPaths(r) then Password(r) else r.password;
            && p.username == (if OwnPaths(r) then Username(r.(username := TrimSpace(r.username))) else TrimSpace(r.username))
            && p.password == (if brought != "" then brought else savedPassword)
  {
    NormalizedIs(Cleaned(r));
    UsualPaths(r.manufacturer, r.ip);
    hide TrimSpace, NormalizePaths, DefaultPath, WithHost, WithoutUser, NameIn, PasswordIn, Credible;
  }

  // ------------------------------------------------------------------- what was found

  /** Answer i is the last one of its camera. */
  predicate LastAnswer(found: seq<Device>, i: nat) {
    i < |found| && forall j :: i < j < |found| ==> found[j].key != found[i].key
  }

  /** A path that was set keeps all but its host, which is the camera's address. */
  predicate PathFollows(p: Path, before: Path, ip: string) {
    if before.Parsed? then p == Parsed(Url(before.url.secure, before.url.user, ip, before.url.port, before.url.rest))
    else p.Parsed? ==> p.url.host == ip
  }

  /** A completed initialization is only taken back by a device that asks for one. */
  predicate StatusFollows(status: Initialization, before: Initialization, observed: Initialization) {
    && (observed != UnknownStatus ==> status == observed)
    && (observed == UnknownStatus ==> status == if before == Completed then Completed else UnknownStatus)
  }

  /** The record agrees with what the device said of itself. */
  predicate Describes(c: Camera, d: Device, now: int) {
    && c.id == d.key && c.address == d.ip && c.manufacturer == d.manufacturer && c.protocol == d.protocol && c.lastSeen == now
    && (c.mainPath.Parsed? ==> c.mainPath.url.host == d.ip) && (c.subPath.Parsed? ==> c.subPath.url.host == d.ip)
    && (d.model != "" ==> c.model == d.model) && (d.serial != "" ==> c.serial == d.serial)
    && (d.firmware != "" ==> c.firmware == d.firmware) && (d.name != "" ==> c.machineName == d.name)
    && (d.status != UnknownStatus ==> c.status == d.status)
  }

  /** ... and keeps what it had where the device said nothing. */
  predicate Keeps(c: Camera, before: Camera, d: Device) {
    && PathFollows(c.mainPath, before.mainPath, d.ip) && PathFollows(c.subPath, before.subPath, d.ip)
    && (d.model == "" ==> c.model == before.model) && (d.serial == "" ==> c.serial == before.serial)
    && (d.firmware == "" ==> c.firmware == before.firmware) && (d.name == "" ==> c.machineName == before.machineName)
    && StatusFollows(c.status, before.status, d.status)
    && c.mainStream == before.mainStream && c.subStream == before.subStream
  }

  lemma SeenIs(c: Camera, d: Device, now: int)
    ensures Describes(Seen(c, d, now), d, now) && Keeps(Seen(c, d, now), c, d)
  {
  }

  lemma SeenKnownIs(c: Camera, d: Device, now: int)
    ensures Describes(SeenKnown(c, d, now), d, now)
    ensures var k := SeenKnown(c, d, now);
            && PathFollows(k.mainPath, c.mainPath, d.ip) && PathFollows(k.subPath, c.subPath, d.ip)
            && k.model == d.model && k.serial == d.serial && k.firmware == d.firmware && k.machineName == d.name && k.dhcp == d.dhcp
            && StatusFollows(k.status, c.status, d.status)
  {
  }

  /** A discovery leaves each camera that answered described by its last answer, adds
      those that are new, and leaves every other record alone. */
  lemma {:induction false} MergedDescribes(cameras: Cameras, found: seq<Device>, now: int)
    ensures var m := Merged(cameras, found, now);
            && AllDescribed(m, found, now)
            && (forall id :: id in cameras && id !in Keys(found) ==> id in m && m[id] == cameras[id])
  {
    if found != [] {
      var init, d := found[..|found| - 1], found[|found| - 1];
      hide Describes, Seen, Keys, LastAnswer, AllDescribed;
      MergedDescribes(cameras, init, now);
      assert found == init + [d];
      KeysAppend(init, d);
      var before := Merged(cameras, init, now);
      SeenIs(Find(before, d.key), d, now);
      DescribesMore(init, d, before, Seen(Find(before, d.key), d, now), now);
    }
  }

  ghost predicate AllDescribed(cameras: Cameras, found: seq<Device>, now: int) {
    forall i :: 0 <= i < |found| && LastAnswer(found, i) ==> found[i].key in cameras && Describes(cameras[found[i].key], found[i], now)
  }

  lemma DescribesMore(init: seq<Device>, d: Device, before: Cameras, c: Camera, now: int)
    requires AllDescribed(before, init, now) && Describes(c, d, now)
    ensures AllDescribed(before[d.key := c], init + [d], now)
  {
    var found, m := init + [d], before[d.key := c];
    hide Describes, LastAnswer;
    forall i | 0 <= i < |found| && LastAnswer(found, i) ensures found[i].key in m && Describes(m[found[i].key], found[i], now) {
      LastOfInit(init, d, i);
    }
  }

  lemma LastOfInit(init: seq<Device>, d: Device, i: nat)
    requires LastAnswer(init + [d], i)
    ensures i < |init| ==> (init + [d])[i] == init[i] && LastAnswer(init, i) && init[i].key != d.key
    ensures i >= |init| ==> i == |init| && (init + [d])[i] == d
  {
    var found := init + [d];
    if i < |init| {
      assert found[|init|].key != found[i].key;
      forall j | i < j < |init| ensures init[j].key != init[i].key { assert found[j] == init[j]; }
    }
  }

  /** Said of the store when the write succeeded, with what a camera that answered once
      keeps. */
  lemma DiscoveryStores(s: Store, found: seq<Device>, now: int, i: nat)
    requires LastAnswer(found, i)
    ensures var t := DiscoverStep(s, found, now, Written); var id := found[i].key;
            && id in t.cameras && id in t.online && Describes(t.cameras[id], found[i], now)
            && ((forall j :: 0 <= j < i ==> found[j].key != id) ==> Keeps(t.cameras[id], Find(s.cameras, id), found[i]))
  {
    hide Merged, Describes, Keeps, Seen;
    MergedDescribes(s.cameras, found, now);
    if forall j :: 0 <= j < i ==> found[j].key != found[i].key { OnceSeen(s.cameras, found, now, i); }
  }

  lemma {:induction false} OnceSeen(cameras: Cameras, found: seq<Device>, now: int, i: nat)
    requires i < |found| && forall j :: 0 <= j < |found| && j != i ==> found[j].key != found[i].key
    ensures var id := found[i].key; var m := Merged(cameras, found, now);
            id in m && Keeps(m[id], Find(cameras, id), found[i])
  {
    var init, d := found[..|found| - 1], found[|found| - 1];
    var before := Merged(cameras, init, now);
    if i == |init| {
      NotFound(cameras, init, now, d.key);
      SeenIs(Find(before, d.key), d, now);
    } else {
      OnceSeen(cameras, init, now, i);
      assert found[|init|].key != found[i].key;
    }
  }

  lemma {:induction false} NotFound(cameras: Cameras, found: seq<Device>, now: int, id: string)
    requires forall j :: 0 <= j < |found| ==> found[j].key != id
    ensures id in Merged(cameras, found, now) <==> id in cameras
    ensures Find(Merged(cameras, found, now), id) == Find(cameras, id)
  {
    if found != [] {
      NotFound(cameras, found[..|found| - 1], now, id);
      assert found[|found| - 1].key != id;
    }
  }

  /** A status check leaves each Dahua camera that answered and is still there described
      by its last answer. */
  lemma {:induction false} RefreshedDescribes(cameras: Cameras, dahua: seq<Device>, now: int)
    ensures var m := Refreshed(cameras, dahua, now);
            && m.Keys == cameras.Keys
            && forall i: nat :: LastAnswer(dahua, i) && dahua[i].key in cameras ==> Describes(m[dahua[i].key], dahua[i], now)
  {
    if dahua != [] {
      var init, d := dahua[..|dahua| - 1], dahua[|dahua| - 1];
      RefreshedDescribes(cameras, init, now);
      var before, m := Refreshed(cameras, init, now), Refreshed(cameras, dahua, now);
      if d.key in before { SeenKnownIs(before[d.key], d, now); }
      assert m == if d.key in before then before[d.key := SeenKnown(before[d.key], d, now)] else before;
      hide SeenKnown, Describes, Refreshed;
      forall i: nat | LastAnswer(dahua, i) && dahua[i].key in cameras ensures Describes(m[dahua[i].key], dahua[i], now) {
        if i < |init| {
          assert dahua[|init|].key != dahua[i].key;
          assert LastAnswer(init, i);
        }
      }
    }
  }

  lemma StatusStores(s: Store, dahua: seq<Device>, unv: seq<string>, now: int, i: nat)
    requires LastAnswer(dahua, i) && dahua[i].key in s.cameras
    ensures var t := StatusStep(s, dahua, unv, now, Written); var id := dahua[i].key;
            t.cameras.Keys == s.cameras.Keys && id in t.online && Describes(t.cameras[id], dahua[i], now)
  {
    RefreshedDescribes(s.cameras, dahua, now);
    StatusTouchesAnswered(s, dahua, unv, now, dahua[i].key);
    hide Refreshed;
  }
}
