/** The camera store of internal/ipcamera/service.go.  Every method is one or two
    sections under the store's lock; between the two sections of CheckStatus and
    RefreshVideoStreams the network is read and other calls may run.  A section is
    a step, what the network answered is an argument of the step. */
module CameraStore {
  import opened Text
  import opened Options

  // ------------------------------------------------------------------------- values

  datatype Manufacturer = Dahua | Hikvision | UNV | Unknown

  datatype UserInfo = NoUser | JustName(username: string) | NamePassword(username: string, password: string)

  /** An rtsp or rtsps URL with a host. */
  datatype Url = Url(secure: bool, user: UserInfo, host: string, port: string, rest: string)

  datatype Path = Blank | Malformed | Parsed(url: Url)

  datatype VideoStream = VideoStream(resolution: string, fps: string, kbps: nat)

  datatype Initialization = UnknownStatus | Required | Completed

  datatype Camera = Camera(
    id: string, name: string, username: string, password: string, use: bool,
    address: string, subnet: string, gateway: string, dhcp: Option<bool>,
    manufacturer: Manufacturer, protocol: string,
    model: string, serial: string, firmware: string, machineName: string,
    mainPath: Path, subPath: Path, mainStream: VideoStream, subStream: VideoStream,
    status: Initialization, lastSeen: int)

  const NoStream := VideoStream("", "", 0)

  /** The zero value that Go's map lookup gives for a missing id. */
  const NoCamera := Camera("", "", "", "", false, "", "", "", None, Unknown, "", "", "", "", "",
                           Blank, Blank, NoStream, NoStream, UnknownStatus, 0)

  type Cameras = map<string, Camera>

  function Find(cameras: Cameras, id: string): Camera {
    if id in cameras then cameras[id] else NoCamera
  }

  // ----------------------------------------------------------------- save requests

  /** `ip` is what net.ParseIP makes of the address. */
  datatype Request = Request(
    id: string, name: string, address: string, ip: Option<string>, subnet: string, gateway: string,
    manufacturer: Manufacturer, model: string, username: string, password: string,
    mainPath: Path, subPath: Path, use: bool, dhcp: Option<bool>)

  function DefaultPath(m: Manufacturer, ip: Option<string>, main: bool): Path {
    if ip.None? then Blank
    else
      match m
      case Dahua => Parsed(Url(false, NoUser, ip.value, "554", "/cam/realmonitor?channel=1&subtype=" + if main then "0" else "1"))
      case Hikvision => Parsed(Url(false, NoUser, ip.value, "554", "/Streaming/Channels/10" + if main then "1" else "2"))
      case UNV => Parsed(Url(false, NoUser, ip.value, "554", "/unicast/c1/s" + (if main then "0" else "1") + "/live"))
      case Unknown => Blank
  }

  function WithHost(p: Path, host: string): Path {
    if p.Parsed? then Parsed(p.url.(host := host)) else p
  }

  function WithoutUser(p: Path): Path {
    if p.Parsed? then Parsed(p.url.(user := NoUser)) else p
  }

  /** One round of the loop at lines 902-915: credentials inside a URL must agree with
      those of the request and complete them. */
  function TakeCredentials(r: Request, user: UserInfo): Option<Request> {
    match user
    case NoUser => Some(r)
    case JustName(n) => if r.username != "" && r.username != n then None else Some(r.(username := n))
    case NamePassword(n, p) =>
      if r.username != "" && r.username != n then None
      else if r.password != "" && r.password != p then None
      else Some(r.(username := n, password := p))
  }

  function NormalizePaths(r: Request): Option<Request> {
    if !r.mainPath.Parsed? || !r.subPath.Parsed? then None
    else
      match TakeCredentials(r, r.mainPath.url.user)
      case None => None
      case Some(r1) =>
        match TakeCredentials(r1, r.subPath.url.user)
        case None => None
        case Some(r2) => Some(r2.(mainPath := WithoutUser(r.mainPath), subPath := WithoutUser(r.subPath)))
  }

  /** The id a request is stored under. */
  function Target(r: Request): string {
    if r.id == "" && r.ip.Some? then "manual:" + r.ip.value else r.id
  }

  function Cleaned(r: Request): Request {
    var trimmed := r.(id := Target(r), name := TrimSpace(r.name), username := TrimSpace(r.username),
                      address := TrimSpace(r.address), model := TrimSpace(r.model),
                      subnet := TrimSpace(r.subnet), gateway := TrimSpace(r.gateway));
    if r.mainPath.Blank? || r.subPath.Blank?
    then trimmed.(mainPath := DefaultPath(r.manufacturer, r.ip, true), subPath := DefaultPath(r.manufacturer, r.ip, false))
    else trimmed
  }

  /** prepareSaveRequest. */
  function Prepare(r: Request, savedPassword: string): Option<Request> {
    match NormalizePaths(Cleaned(r))
    case None => None
    case Some(n) =>
      if n.id == "" || n.name == "" || n.ip.None? || n.manufacturer == Unknown then None
      else Some(n.(mainPath := WithHost(n.mainPath, n.ip.value), subPath := WithHost(n.subPath, n.ip.value),
                   password := if n.password == "" then savedPassword else n.password))
  }

  /** The password a request brings, in its field or inside a stream URL. */
  function BroughtPassword(r: Request): string {
    match NormalizePaths(Cleaned(r)) case None => "" case Some(n) => n.password
  }

  lemma PreparedFacts(r: Request, savedPassword: string)
    requires Prepare(r, savedPassword).Some?
    ensures var p := Prepare(r, savedPassword).value;
            && p.id == Target(r) != "" && p.name == TrimSpace(r.name) != "" && p.use == r.use
            && p.password == (if BroughtPassword(r) == "" then savedPassword else BroughtPassword(r))
  {
    hide TrimSpace;
  }

  // -------------------------------------------------------------------- lock sections

  /** How writeJSONFile ended; syncing the directory comes after the rename. */
  datatype Write = Written | NotWritten | WrittenLate

  datatype Store = Store(cameras: Cameras, online: set<string>, file: Cameras)

  /** Swap the map in only after a successful write. */
  function Persist(s: Store, next: Cameras, write: Write): Store {
    match write
    case Written => s.(cameras := next, file := next)
    case NotWritten => s
    case WrittenLate => s.(file := next)
  }

  function SavedCamera(c: Camera, r: Request): Camera {
    c.(id := r.id, name := r.name, address := r.address, username := r.username, password := r.password,
       manufacturer := r.manufacturer, model := r.model,
       subnet := if r.subnet != "" then r.subnet else c.subnet,
       gateway := if r.gateway != "" then r.gateway else c.gateway,
       dhcp := if r.dhcp.Some? then r.dhcp else c.dhcp,
       mainPath := r.mainPath, subPath := r.subPath, use := r.use)
  }

  function SaveStep(s: Store, r: Request, write: Write): Store {
    match Prepare(r, Find(s.cameras, r.id).password)
    case None => s
    case Some(p) => Persist(s, s.cameras[p.id := SavedCamera(Find(s.cameras, p.id), p)], write)
  }

  function DeleteStep(s: Store, id: string, write: Write): Store {
    if id !in s.cameras then s
    else
      var t := Persist(s, s.cameras - {id}, write);
      if write == Written then t.(online := s.online - {id}) else t
  }

  /** A device that answered; `key` is its camera id. */
  datatype Device = Device(key: string, ip: string, manufacturer: Manufacturer, protocol: string, model: string,
                           serial: string, firmware: string, name: string, dhcp: Option<bool>, status: Initialization)

  function AfterDiscovery(previous: Initialization, observed: Initialization): Initialization {
    if observed != UnknownStatus then observed
    else if previous == Completed then Completed
    else UnknownStatus
  }

  function PathAfter(p: Path, d: Device, main: bool): Path {
    if p.Blank? then DefaultPath(d.manufacturer, Some(d.ip), main) else WithHost(p, d.ip)
  }

  function Prefer(observed: string, saved: string): string {
    if observed != "" then observed else saved
  }

  /** updateGenericDiscoveredCamera. */
  function Seen(c: Camera, d: Device, now: int): Camera {
    c.(id := d.key, address := d.ip, manufacturer := d.manufacturer, protocol := d.protocol,
       model := Prefer(d.model, c.model), serial := Prefer(d.serial, c.serial),
       firmware := Prefer(d.firmware, c.firmware), machineName := Prefer(d.name, c.machineName),
       lastSeen := now, status := AfterDiscovery(c.status, d.status),
       mainPath := PathAfter(c.mainPath, d, true), subPath := PathAfter(c.subPath, d, false))
  }

  /** updateDiscoveredCamera. */
  function SeenKnown(c: Camera, d: Device, now: int): Camera {
    c.(id := d.key, address := d.ip, manufacturer := d.manufacturer, protocol := d.protocol,
       model := d.model, serial := d.serial, firmware := d.firmware, machineName := d.name, dhcp := d.dhcp,
       lastSeen := now, status := AfterDiscovery(c.status, d.status),
       mainPath := PathAfter(c.mainPath, d, true), subPath := PathAfter(c.subPath, d, false))
  }

  function Keys(ds: seq<Device>): set<string> {
    set d | d in ds :: d.key
  }

  function Merged(cameras: Cameras, found: seq<Device>, now: int): Cameras {
    if found == [] then cameras
    else
      var m := Merged(cameras, found[..|found| - 1], now);
      var d := found[|found| - 1];
      m[d.key := Seen(Find(m, d.key), d, now)]
  }

  function DiscoverStep(s: Store, found: seq<Device>, now: int, write: Write): Store {
    if found == [] then s.(online := {})
    else
      var t := Persist(s, Merged(s.cameras, found, now), write);
      if write == Written then t.(online := Keys(found)) else t
  }

  /** The loops at lines 365-384: an answer counts only for a camera that is still there. */
  function Refreshed(cameras: Cameras, dahua: seq<Device>, now: int): Cameras {
    if dahua == [] then cameras
    else
      var m := Refreshed(cameras, dahua[..|dahua| - 1], now);
      var d := dahua[|dahua| - 1];
      if d.key in m then m[d.key := SeenKnown(m[d.key], d, now)] else m
  }

  function Touched(cameras: Cameras, unv: seq<string>, now: int): Cameras {
    map id | id in cameras :: if id in unv then cameras[id].(lastSeen := now) else cameras[id]
  }

  function Answered(cameras: Cameras, dahua: seq<Device>, unv: seq<string>): set<string> {
    set id | id in cameras && (id in Keys(dahua) || id in unv)
  }

  function StatusStep(s: Store, dahua: seq<Device>, unv: seq<string>, now: int, write: Write): Store {
    var online := Answered(s.cameras, dahua, unv);
    if online == {} then s.(online := {})
    else
      var t := Persist(s, Touched(Refreshed(s.cameras, dahua, now), unv, now), write);
      if write == Written then t.(online := online) else t
  }

  /** What LAPI told about a UNV device. */
  datatype Info = Info(model: string, prototype: string, name: string, serial: string, firmware: string)

  function Streamed(c: Camera, main: VideoStream, sub: VideoStream, info: Option<Info>): Camera {
    var d := c.(mainStream := main, subStream := sub, status := Completed);
    match info
    case None => d
    case Some(i) =>
      d.(model := if i.model != "" then i.model else Prefer(i.prototype, c.model),
         machineName := Prefer(i.name, c.machineName), serial := Prefer(i.serial, c.serial),
         firmware := Prefer(i.firmware, c.firmware))
  }

  function StreamsStep(s: Store, id: string, main: VideoStream, sub: VideoStream, info: Option<Info>, write: Write): Store {
    if id !in s.cameras then s
    else Persist(s, s.cameras[id := Streamed(s.cameras[id], main, sub, info)], write)
  }

  // ---------------------------------------------------------------------------- runs

  datatype Step =
    | Save(request: Request, write: Write)
    | Delete(id: string, write: Write)
    | Discover(found: seq<Device>, now: int, write: Write)
    | Status(dahua: seq<Device>, unv: seq<string>, now: int, write: Write)
    | Streams(id: string, main: VideoStream, sub: VideoStream, info: Option<Info>, write: Write)

  function Next(s: Store, step: Step): Store {
    match step
    case Save(r, w) => SaveStep(s, r, w)
    case Delete(id, w) => DeleteStep(s, id, w)
    case Discover(found, now, w) => DiscoverStep(s, found, now, w)
    case Status(dahua, unv, now, w) => StatusStep(s, dahua, unv, now, w)
    case Streams(id, main, sub, info, w) => StreamsStep(s, id, main, sub, info, w)
  }

  function Run(s: Store, steps: seq<Step>): Store {
    if steps == [] then s else Next(Run(s, steps[..|steps| - 1]), steps[|steps| - 1])
  }

  // ------------------------------------------------------------ what the user decided

  /** The part of a camera that only its user may change. */
  datatype User = User(name: string, username: string, password: string, use: bool)

  const NoUserData := User("", "", "", false)

  function UserOf(c: Camera): User {
    User(c.name, c.username, c.password, c.use)
  }

  type Users = map<string, User>

  ghost function View(cameras: Cameras): Users {
    map id | id in cameras :: UserOf(cameras[id])
  }

  ghost function FindUser(u: Users, id: string): User {
    if id in u then u[id] else NoUserData
  }

  /** The store as its users see it: Save sets, Delete removes, Discover only adds
      cameras without user data, and the two network refreshes do nothing. */
  ghost function UserNext(u: Users, step: Step): Users {
    match step
    case Save(r, w) =>
      (match Prepare(r, FindUser(u, r.id).password)
       case None => u
       case Some(p) => if w == Written then u[p.id := User(p.name, p.username, p.password, p.use)] else u)
    case Delete(id, w) => if w == Written then u - {id} else u
    case Discover(found, _, w) =>
      if w == Written then map id | id in u.Keys + Keys(found) :: FindUser(u, id) else u
    case Status(_, _, _, _) => u
    case Streams(_, _, _, _, _) => u
  }

  ghost function UserRun(u: Users, steps: seq<Step>): Users {
    if steps == [] then u else UserNext(UserRun(u, steps[..|steps| - 1]), steps[|steps| - 1])
  }

  lemma {:induction false} MergedView(cameras: Cameras, found: seq<Device>, now: int)
    ensures Merged(cameras, found, now).Keys == cameras.Keys + Keys(found)
    ensures forall id :: id in Merged(cameras, found, now) ==>
              UserOf(Merged(cameras, found, now)[id]) == FindUser(View(cameras), id)
  {
    if found != [] {
      var init, d := found[..|found| - 1], found[|found| - 1];
      MergedView(cameras, init, now);
      assert found == init + [d];
      MergedStep(cameras, init, d, now);
    }
  }

  lemma MergedStep(cameras: Cameras, init: seq<Device>, d: Device, now: int)
    requires var m := Merged(cameras, init, now);
             m.Keys == cameras.Keys + Keys(init) && forall id :: id in m ==> UserOf(m[id]) == FindUser(View(cameras), id)
    ensures var m := Merged(cameras, init + [d], now);
            m.Keys == cameras.Keys + Keys(init + [d]) && forall id :: id in m ==> UserOf(m[id]) == FindUser(View(cameras), id)
  {
    assert (init + [d])[..|init|] == init;
    var m := Merged(cameras, init, now);
    assert Merged(cameras, init + [d], now) == m[d.key := Seen(Find(m, d.key), d, now)];
    hide Keys, View, Merged, Seen, UserOf, FindUser;
    KeysAppend(init, d);
    SeenKeepsUser(Find(m, d.key), d, now);
    if d.key !in m {
      NotInView(cameras, d.key);
      assert UserOf(NoCamera) == NoUserData by { NobodysUser(); }
    }
  }

  lemma NobodysUser()
    ensures UserOf(NoCamera) == NoUserData
  {
  }

  lemma SeenKeepsUser(c: Camera, d: Device, now: int)
    ensures UserOf(Seen(c, d, now)) == UserOf(c)
  {
  }

  lemma NotInView(cameras: Cameras, id: string)
    requires id !in cameras
    ensures FindUser(View(cameras), id) == NoUserData
  {
  }

  lemma KeysAppend(ds: seq<Device>, d: Device)
    ensures Keys(ds + [d]) == Keys(ds) + {d.key}
  {
    forall k | k in Keys(ds) + {d.key} ensures k in Keys(ds + [d]) {
      if k in Keys(ds) {
        var e :| e in ds && e.key == k;
        assert e in ds + [d];
      } else {
        assert d in ds + [d];
      }
    }
  }

  lemma {:induction false} RefreshedView(cameras: Cameras, dahua: seq<Device>, now: int)
    ensures View(Refreshed(cameras, dahua, now)) == View(cameras)
    ensures Refreshed(cameras, dahua, now).Keys == cameras.Keys
  {
    if dahua != [] {
      RefreshedView(cameras, dahua[..|dahua| - 1], now);
    }
  }

  lemma DiscoverRefines(s: Store, found: seq<Device>, now: int, w: Write)
    ensures View(DiscoverStep(s, found, now, w).cameras) == UserNext(View(s.cameras), Discover(found, now, w))
  {
    hide Merged, Keys, UserOf, FindUser, Seen;
    MergedView(s.cameras, found, now);
    if found == [] { NothingFound(View(s.cameras)); }
    else if w == Written {
      var m, u := Merged(s.cameras, found, now), View(s.cameras);
      assert u.Keys == s.cameras.Keys;
      assert View(m) == map id | id in u.Keys + Keys(found) :: FindUser(u, id);
    }
  }

  lemma NothingFound(u: Users)
    ensures (map id | id in u.Keys + Keys([]) :: FindUser(u, id)) == u
  {
  }

  lemma StatusRefines(s: Store, dahua: seq<Device>, unv: seq<string>, now: int, w: Write)
    ensures View(StatusStep(s, dahua, unv, now, w).cameras) == View(s.cameras)
  {
    RefreshedView(s.cameras, dahua, now);
    TouchedView(Refreshed(s.cameras, dahua, now), unv, now);
  }

  lemma TouchedView(cameras: Cameras, unv: seq<string>, now: int)
    ensures View(Touched(cameras, unv, now)) == View(cameras)
  {
  }

  lemma StepRefines(s: Store, step: Step)
    ensures View(Next(s, step).cameras) == UserNext(View(s.cameras), step)
  {
    hide StatusStep, DiscoverStep, SaveStep, StreamsStep, DeleteStep, View, Prepare, FindUser;
    match step
    case Save(r, w) => SaveRefines(s, r, w);
    case Delete(id, w) => DeleteRefines(s, id, w);
    case Discover(found, now, w) => DiscoverRefines(s, found, now, w);
    case Status(dahua, unv, now, w) => StatusRefines(s, dahua, unv, now, w);
    case Streams(id, main, sub, info, w) => StreamsRefines(s, id, main, sub, info, w);
  }

  lemma SaveRefines(s: Store, r: Request, w: Write)
    ensures View(SaveStep(s, r, w).cameras) == UserNext(View(s.cameras), Save(r, w))
  {
    hide Prepare;
    assert FindUser(View(s.cameras), r.id).password == Find(s.cameras, r.id).password;
  }

  lemma DeleteRefines(s: Store, id: string, w: Write)
    ensures View(DeleteStep(s, id, w).cameras) == UserNext(View(s.cameras), Delete(id, w))
  {
  }

  lemma StreamsRefines(s: Store, id: string, main: VideoStream, sub: VideoStream, info: Option<Info>, w: Write)
    ensures View(StreamsStep(s, id, main, sub, info, w).cameras) == View(s.cameras)
  {
  }

  /** Over every interleaving the names, credentials and use flags are those the users
      decided: a refresh never brings back a deleted camera and never undoes a save. */
  lemma {:induction false} RunRefines(s: Store, steps: seq<Step>)
    ensures View(Run(s, steps).cameras) == UserRun(View(s.cameras), steps)
  {
    hide Next, UserNext, View;
    if steps != [] {
      RunRefines(s, steps[..|steps| - 1]);
      StepRefines(Run(s, steps[..|steps| - 1]), steps[|steps| - 1]);
    }
  }

  /** Only Save and Discover can create a camera. */
  predicate Creates(step: Step, id: string) {
    match step
    case Save(r, _) => Target(r) == id
    case Discover(found, _, _) => id in Keys(found)
    case _ => false
  }

  lemma {:induction false} NeverResurrected(s: Store, steps: seq<Step>, id: string)
    requires id !in s.cameras && forall i :: 0 <= i < |steps| ==> !Creates(steps[i], id)
    ensures id !in Run(s, steps).cameras
  {
    RunRefines(s, steps);
    NoUserAppears(View(s.cameras), steps, id);
    assert id in Run(s, steps).cameras <==> id in View(Run(s, steps).cameras);
  }

  lemma {:induction false} NoUserAppears(u: Users, steps: seq<Step>, id: string)
    requires id !in u && forall i :: 0 <= i < |steps| ==> !Creates(steps[i], id)
    ensures id !in UserRun(u, steps)
  {
    hide Prepare;
    if steps != [] {
      var init, step := steps[..|steps| - 1], steps[|steps| - 1];
      NoUserAppears(u, init, id);
      var v := UserRun(u, init);
      if step.Save? && Prepare(step.request, FindUser(v, step.request.id).password).Some? {
        PreparedFacts(step.request, FindUser(v, step.request.id).password);
      }
    }
  }

  lemma {:induction false} RefreshedOnly(cameras: Cameras, dahua: seq<Device>, now: int, id: string)
    requires id in cameras
    ensures id in Refreshed(cameras, dahua, now)
    ensures id in Keys(dahua) ==> Refreshed(cameras, dahua, now)[id].lastSeen == now
    ensures id !in Keys(dahua) ==> Refreshed(cameras, dahua, now)[id] == cameras[id]
  {
    if dahua != [] {
      var init, d := dahua[..|dahua| - 1], dahua[|dahua| - 1];
      assert dahua == init + [d];
      KeysAppend(init, d);
      hide Keys;
      RefreshedOnly(cameras, init, now, id);
    }
  }

  /** A status check marks exactly the cameras that answered and are still there, and
      leaves every other record as it is. */
  lemma StatusTouchesAnswered(s: Store, dahua: seq<Device>, unv: seq<string>, now: int, id: string)
    requires id in s.cameras
    ensures var t := StatusStep(s, dahua, unv, now, Written);
            && id in t.cameras && (id in t.online <==> id in Keys(dahua) || id in unv)
            && (id in t.online ==> t.cameras[id].lastSeen == now)
            && (id !in t.online ==> t.cameras[id] == s.cameras[id])
  {
    hide Refreshed, Keys;
    RefreshedOnly(s.cameras, dahua, now, id);
    var online := Answered(s.cameras, dahua, unv);
    assert id in online <==> id in Keys(dahua) || id in unv;
  }

  // ------------------------------------------------------------------- the invariant

  ghost predicate Inv(s: Store) {
    s.online <= s.cameras.Keys
  }

  /** Records carry the id they are stored under. */
  ghost predicate Keyed(cameras: Cameras) {
    forall id :: id in cameras ==> cameras[id].id == id
  }

  lemma {:induction false} MergedIds(cameras: Cameras, found: seq<Device>, now: int)
    requires Keyed(cameras)
    ensures Keyed(Merged(cameras, found, now))
  {
    if found != [] {
      MergedIds(cameras, found[..|found| - 1], now);
    }
  }

  lemma {:induction false} RefreshedIds(cameras: Cameras, dahua: seq<Device>, now: int)
    requires Keyed(cameras)
    ensures Keyed(Refreshed(cameras, dahua, now))
  {
    if dahua != [] {
      RefreshedIds(cameras, dahua[..|dahua| - 1], now);
    }
  }

  lemma DiscoverInv(s: Store, found: seq<Device>, now: int, w: Write)
    requires Inv(s)
    ensures Inv(DiscoverStep(s, found, now, w))
    ensures Keyed(s.cameras) ==> Keyed(DiscoverStep(s, found, now, w).cameras)
  {
    hide Merged, Keys, Keyed, FindUser, View;
    MergedView(s.cameras, found, now);
    if Keyed(s.cameras) { MergedIds(s.cameras, found, now); }
  }

  lemma StatusInv(s: Store, dahua: seq<Device>, unv: seq<string>, now: int, w: Write)
    requires Inv(s)
    ensures Inv(StatusStep(s, dahua, unv, now, w))
    ensures Keyed(s.cameras) ==> Keyed(StatusStep(s, dahua, unv, now, w).cameras)
  {
    hide Refreshed, Keys, View;
    RefreshedView(s.cameras, dahua, now);
    if Keyed(s.cameras) { RefreshedIds(s.cameras, dahua, now); }
  }

  lemma StepInv(s: Store, step: Step)
    requires Inv(s)
    ensures Inv(Next(s, step))
    ensures Keyed(s.cameras) ==> Keyed(Next(s, step).cameras)
  {
    hide Prepare, DiscoverStep, StatusStep;
    match step
    case Save(_, _) =>
    case Delete(_, _) =>
    case Discover(found, now, w) => DiscoverInv(s, found, now, w);
    case Status(dahua, unv, now, w) => StatusInv(s, dahua, unv, now, w);
    case Streams(_, _, _, _, _) =>
  }

  lemma FileFollows(s: Store, step: Step)
    requires s.file == s.cameras && step.write != WrittenLate
    ensures Next(s, step).file == Next(s, step).cameras
  {
    hide Prepare, Merged, Refreshed, Keys, Touched, Answered, Find, SavedCamera, Streamed;
  }

  /** Online ids are camera ids, records that carried their keys still do, and the file
      is the map unless a write failed after the rename. */
  lemma {:induction false} RunInv(s: Store, steps: seq<Step>)
    requires Inv(s)
    ensures Inv(Run(s, steps))
    ensures Keyed(s.cameras) ==> Keyed(Run(s, steps).cameras)
    ensures s.file == s.cameras && (forall i :: 0 <= i < |steps| ==> steps[i].write != WrittenLate) ==>
              Run(s, steps).file == Run(s, steps).cameras
  {
    hide Next, Inv, Keyed;
    if steps != [] {
      RunInv(s, steps[..|steps| - 1]);
      var t, step := Run(s, steps[..|steps| - 1]), steps[|steps| - 1];
      StepInv(t, step);
      if t.file == t.cameras && step.write != WrittenLate { FileFollows(t, step); }
    }
  }

  // ------------------------------------------------------------------------ passwords

  /** Save without an id looks up the password of the camera with the empty id, then
      stores the request under the address. */
  predicate ClearsPassword(s: Store, r: Request) {
    && r.id == "" && BroughtPassword(r) == "" && Find(s.cameras, "").password == ""
    && Find(s.cameras, Target(r)).password != ""
  }

  ghost predicate PasswordsKept(before: Cameras, after: Cameras) {
    forall id :: id in before && before[id].password != "" ==> id in after && after[id].password != ""
  }

  /** A save keeps every password that was set if and only if it is refused, not
      written, or names its camera or brings a password. */
  lemma SaveKeepsPasswordsIff(s: Store, r: Request, w: Write)
    ensures PasswordsKept(s.cameras, SaveStep(s, r, w).cameras)
            <==> Prepare(r, Find(s.cameras, r.id).password).None? || w != Written || !ClearsPassword(s, r)
  {
    hide Prepare, BroughtPassword;
    var p := Prepare(r, Find(s.cameras, r.id).password);
    if p.Some? && w == Written {
      PreparedFacts(r, Find(s.cameras, r.id).password);
      var after := SaveStep(s, r, w).cameras;
      assert after == s.cameras[p.value.id := SavedCamera(Find(s.cameras, p.value.id), p.value)];
      if ClearsPassword(s, r) {
        assert s.cameras[Target(r)].password != "" && after[Target(r)].password == "";
      }
    }
  }

  const GateRequest := Request("", "gate", "10.0.0.9", Some("10.0.0.9"), "", "", Dahua, "", "", "", Blank, Blank, true, None)

  lemma GatePrepared(password: string, saved: string)
    ensures Prepare(GateRequest.(password := password), saved).Some?
    ensures BroughtPassword(GateRequest.(password := password)) == password
  {
    assert TrimSpace("gate") == "gate" by { TrimPadded("", "gate", ""); assert "" + "gate" + "" == "gate"; }
    hide TrimSpace;
  }

  /** A camera added by address loses its password when it is saved again by address
      with the password field left blank. */
  lemma BlankSaveClearsPassword(password: string)
    requires password != ""
    ensures var s := SaveStep(Store(map[], {}, map[]), GateRequest.(password := password), Written);
            && s.cameras.Keys == {"manual:10.0.0.9"} && s.cameras["manual:10.0.0.9"].password == password
            && !PasswordsKept(s.cameras, SaveStep(s, GateRequest, Written).cameras)
  {
    hide Prepare, BroughtPassword;
    var r := GateRequest.(password := password);
    GatePrepared(password, "");
    PreparedFacts(r, "");
    assert GateRequest.(password := "") == GateRequest;
    GatePrepared("", "");
    var none := Store(map[], {}, map[]);
    var s := SaveStep(none, r, Written);
    var p := Prepare(r, "").value;
    assert Find(none.cameras, "") == NoCamera && Find(none.cameras, r.id).password == "";
    assert p.id == "manual:" + "10.0.0.9" == "manual:10.0.0.9";
    assert s.cameras == map[][p.id := SavedCamera(NoCamera, p)];
    SaveKeepsPasswordsIff(s, GateRequest, Written);
  }

  /** SaveWithCameraUpdate up to its call of Save: the camera is read in one section,
      a Dahua camera may be given its new address, then the request is saved. */
  function BeginUpdate(s: Store, r: Request, networkOk: bool, changed: bool): Option<Request> {
    var c := Find(s.cameras, r.id);
    var known := r.id in s.cameras;
    if known && c.status == Required then None
    else
      var dahua := known && c.manufacturer == Dahua;
      var q := if dahua then r.(subnet := Prefer(TrimSpace(r.subnet), c.subnet), gateway := Prefer(TrimSpace(r.gateway), c.gateway)) else r;
      if dahua && !networkOk then None
      else
        match Prepare(q, c.password)
        case None => None
        case Some(p) =>
          if dahua && (p.address != c.address || p.subnet != c.subnet || p.gateway != c.gateway) then
            var username, password := Prefer(TrimSpace(p.username), c.username), Prefer(p.password, c.password);
            if username == "" || password == "" || !changed then None
            else Some(p.(dhcp := Some(false), username := username, password := password))
          else Some(p)
  }

  /** Requests that went through SaveWithCameraUpdate name their camera, so whatever
      happened in between they clear no password. */
  lemma UpdateKeepsPasswords(s: Store, r: Request, networkOk: bool, changed: bool, later: Store, w: Write)
    requires BeginUpdate(s, r, networkOk, changed).Some?
    ensures PasswordsKept(later.cameras, SaveStep(later, BeginUpdate(s, r, networkOk, changed).value, w).cameras)
  {
    hide Prepare, TrimSpace, SaveStep;
    var q := BeginUpdate(s, r, networkOk, changed).value;
    assert q.id != "" by { UpdateNames(s, r, networkOk, changed); }
    SaveKeepsPasswordsIff(later, q, w);
  }

  lemma UpdateNames(s: Store, r: Request, networkOk: bool, changed: bool)
    requires BeginUpdate(s, r, networkOk, changed).Some?
    ensures BeginUpdate(s, r, networkOk, changed).value.id == Target(r) != ""
  {
    hide Prepare, TrimSpace;
    var c := Find(s.cameras, r.id);
    var q := if r.id in s.cameras && c.manufacturer == Dahua
             then r.(subnet := Prefer(TrimSpace(r.subnet), c.subnet), gateway := Prefer(TrimSpace(r.gateway), c.gateway)) else r;
    PreparedFacts(q, c.password);
  }

  /** Steps that may take a password away. */
  predicate Forgets(step: Step, id: string) {
    match step
    case Delete(d, w) => d == id && w == Written
    case Save(r, w) => r.id == "" && BroughtPassword(r) == "" && Target(r) == id
    case _ => false
  }

  /** A password that is set stays set until its camera is deleted. */
  lemma {:induction false} PasswordStays(s: Store, steps: seq<Step>, id: string)
    requires Find(s.cameras, id).password != ""
    requires forall i :: 0 <= i < |steps| ==> !Forgets(steps[i], id)
    ensures id in Run(s, steps).cameras && Run(s, steps).cameras[id].password != ""
  {
    hide Next, Forgets;
    if steps != [] {
      var init, step := steps[..|steps| - 1], steps[|steps| - 1];
      PasswordStays(s, init, id);
      PasswordStep(Run(s, init), step, id);
    }
  }

  /** The saves the application makes went through SaveWithCameraUpdate, on whatever the
      store was when they started. */
  ghost predicate FromUpdate(step: Step) {
    step.Save? ==> exists s, r, networkOk, changed :: BeginUpdate(s, r, networkOk, changed) == Some(step.request)
  }

  /** In the application a password that is set stays set until its camera is deleted,
      whatever else runs. */
  lemma ApplicationKeepsPasswords(s: Store, steps: seq<Step>, id: string)
    requires Find(s.cameras, id).password != ""
    requires forall i :: 0 <= i < |steps| ==> FromUpdate(steps[i]) && !(steps[i].Delete? && steps[i].id == id && steps[i].write == Written)
    ensures id in Run(s, steps).cameras && Run(s, steps).cameras[id].password != ""
  {
    forall i | 0 <= i < |steps| ensures !Forgets(steps[i], id) {
      UpdateNeverForgets(steps[i], id);
    }
    hide Run, Forgets, FromUpdate;
    PasswordStays(s, steps, id);
  }

  lemma UpdateNeverForgets(step: Step, id: string)
    requires FromUpdate(step) && !(step.Delete? && step.id == id && step.write == Written)
    ensures !Forgets(step, id)
  {
    hide BeginUpdate, BroughtPassword;
    if step.Save? {
      var s, r, networkOk, changed :| BeginUpdate(s, r, networkOk, changed) == Some(step.request);
      UpdateNames(s, r, networkOk, changed);
    }
  }

  lemma PasswordStep(s: Store, step: Step, id: string)
    requires id in s.cameras && s.cameras[id].password != "" && !Forgets(step, id)
    ensures id in Next(s, step).cameras && Next(s, step).cameras[id].password != ""
  {
    hide Prepare, BroughtPassword, Next, Merged, Keys;
    var u := View(s.cameras);
    StepRefines(s, step);
    if step.Save? && Prepare(step.request, FindUser(u, step.request.id).password).Some? {
      PreparedFacts(step.request, FindUser(u, step.request.id).password);
    }
    assert id in UserNext(u, step) && UserNext(u, step)[id].password != "";
    assert UserOf(Next(s, step).cameras[id]) == UserNext(u, step)[id];
  }

  // ----------------------------------------------------------------------- the object

  /** What RefreshVideoStreams reads in its first section. */
  datatype Reading = NotFound | NotInitialized | NotSupported | NoCredentials | Proceed(camera: Camera)

  predicate Contains(s: string, part: string) {
    |part| <= |s| && (s[..|part|] == part || (s != "" && Contains(s[1..], part)))
  }

  predicate IsDahua(c: Camera) {
    c.manufacturer == Dahua || c.protocol == "DHIP"
  }

  predicate IsUNV(c: Camera) {
    c.manufacturer == UNV || Contains(c.protocol, "UNV-")
  }

  class Service {
    var cameras: Cameras
    var online: set<string>
    var file: Cameras

    function Now(): Store
      reads this
    {
      Store(cameras, online, file)
    }

    constructor (loaded: Cameras)
      ensures Now() == Store(loaded, {}, loaded) && Inv(Now())
    {
      cameras, online, file := loaded, {}, loaded;
    }

    /** writeJSONFile, then the swap. */
    method Commit(next: Cameras, write: Write) returns (ok: bool)
      modifies this`cameras, this`file
      ensures Now() == Persist(old(Now()), next, write) && ok == (write == Written)
    {
      if write != NotWritten { file := next; }
      if write != Written { return false; }
      cameras := next;
      return true;
    }

    method Save(request: Request, write: Write) returns (ok: bool)
      requires Inv(Now())
      modifies this
      ensures Now() == Next(old(Now()), Step.Save(request, write)) && Inv(Now())
      ensures ok <==> write == Written && Prepare(request, Find(old(cameras), request.id).password).Some?
      ensures ok ==> Target(request) in cameras && file == cameras
      ensures !ok ==> cameras == old(cameras)
      ensures online == old(online)
    {
      hide Prepare, Inv;
      ghost var before := Now();
      StepInv(before, Step.Save(request, write));
      var prepared := Prepare(request, Find(cameras, request.id).password);
      if prepared.None? { return false; }
      PreparedFacts(request, Find(cameras, request.id).password);
      var p := prepared.value;
      ok := Commit(cameras[p.id := SavedCamera(Find(cameras, p.id), p)], write);
    }

    method Delete(id: string, write: Write) returns (ok: bool)
      requires Inv(Now())
      modifies this
      ensures Now() == Next(old(Now()), Step.Delete(id, write)) && Inv(Now())
      ensures ok <==> id in old(cameras) && write == Written
      ensures if ok then cameras == old(cameras) - {id} && online == old(online) - {id} && file == cameras
              else cameras == old(cameras) && online == old(online)
    {
      hide Inv;
      StepInv(Now(), Step.Delete(id, write));
      if id !in cameras { return false; }
      ok := Commit(cameras - {id}, write);
      if ok { online := online - {id}; }
    }

    method Discover(found: seq<Device>, now: int, write: Write) returns (ok: bool)
      requires Inv(Now())
      modifies this
      ensures Now() == Next(old(Now()), Step.Discover(found, now, write)) && Inv(Now())
      ensures ok <==> found == [] || write == Written
      ensures if ok then cameras.Keys == old(cameras).Keys + Keys(found) && online == Keys(found)
              else cameras == old(cameras) && online == old(online)
    {
      hide Inv, Seen, Keys;
      ghost var before := Now();
      StepInv(before, Step.Discover(found, now, write));
      DiscoverMarks(before, found, now, write);
      var next, seen := cameras, {};
      NoKeys();
      for i := 0 to |found|
        invariant Now() == before
        invariant next == Merged(cameras, found[..i], now) && seen == Keys(found[..i])
      {
        var d := found[i];
        assert found[..i + 1][..i] == found[..i] && found[..i + 1] == found[..i] + [d];
        KeysAppend(found[..i], d);
        next := next[d.key := Seen(Find(next, d.key), d, now)];
        seen := seen + {d.key};
      }
      assert found[..|found|] == found;
      if |found| > 0 {
        ok := Commit(next, write);
        if !ok { return; }
      }
      online := seen;
      ok := true;
    }

    /** The second section of CheckStatus; with nothing expected both lists are empty. */
    method CheckStatus(dahua: seq<Device>, unv: seq<string>, now: int, write: Write) returns (ok: bool)
      requires Inv(Now())
      modifies this
      ensures Now() == Next(old(Now()), Status(dahua, unv, now, write)) && Inv(Now())
      ensures View(cameras) == old(View(cameras))
      ensures ok ==> online == set id | id in old(cameras) && (id in Keys(dahua) || id in unv)
      ensures !ok ==> write != Written && cameras == old(cameras) && online == old(online)
    {
      AnsweredIs(cameras, dahua, unv);
      hide Inv, View, Keys, Answered, Touched, Refreshed;
      ghost var before := Now();
      StepInv(before, Status(dahua, unv, now, write));
      StatusRefines(before, dahua, unv, now, write);
      var next, fromDahua := RefreshDahua(cameras, dahua, now);
      RefreshedView(cameras, dahua, now);
      var touched, fromUNV := TouchUNV(next, unv, now);
      BothAnswer(cameras, dahua, unv);
      var answered := fromDahua + fromUNV;
      if answered != {} {
        ok := Commit(touched, write);
        if !ok { return; }
      }
      online := answered;
      ok := true;
    }

    /** The first section of RefreshVideoStreams. */
    method ReadForStreams(id: string) returns (r: Reading)
      ensures r.NotFound? <==> id !in cameras
      ensures r.Proceed? <==> id in cameras && cameras[id].status != Required && (IsDahua(cameras[id]) || IsUNV(cameras[id]))
                              && TrimSpace(cameras[id].username) != "" && cameras[id].password != ""
      ensures r.Proceed? ==> r.camera == cameras[id]
    {
      if id !in cameras { return NotFound; }
      var saved := cameras[id];
      if saved.status == Required { return NotInitialized; }
      if !IsDahua(saved) && !IsUNV(saved) { return NotSupported; }
      if TrimSpace(saved.username) == "" || saved.password == "" { return NoCredentials; }
      return Proceed(saved);
    }

    /** The second section, with what the camera of the first one answered. */
    method StoreStreams(id: string, main: VideoStream, sub: VideoStream, info: Option<Info>, write: Write) returns (ok: bool)
      requires Inv(Now())
      modifies this
      ensures Now() == Next(old(Now()), Streams(id, main, sub, info, write)) && Inv(Now())
      ensures View(cameras) == old(View(cameras)) && online == old(online)
      ensures ok <==> id in old(cameras) && write == Written
      ensures ok ==> cameras == old(cameras)[id := cameras[id]]
                     && cameras[id].mainStream == main && cameras[id].subStream == sub && cameras[id].status == Completed
      ensures !ok ==> cameras == old(cameras)
    {
      if id in cameras { StreamsStored(cameras[id], main, sub, info); }
      hide Inv, View, Streamed;
      StepInv(Now(), Streams(id, main, sub, info, write));
      StepRefines(Now(), Streams(id, main, sub, info, write));
      if id !in cameras { return false; }
      ok := Commit(cameras[id := Streamed(cameras[id], main, sub, info)], write);
    }
  }

  /** The loop at lines 365-374. */
  method RefreshDahua(cameras: Cameras, dahua: seq<Device>, now: int) returns (next: Cameras, answered: set<string>)
    ensures next == Refreshed(cameras, dahua, now) && answered == Answered(cameras, dahua, [])
  {
    hide SeenKnown, View, Keys, Answered;
    next, answered := cameras, {};
    NothingAnswered(cameras);
    for i := 0 to |dahua|
      invariant next == Refreshed(cameras, dahua[..i], now) && answered == Answered(cameras, dahua[..i], [])
    {
      var d := dahua[i];
      assert dahua[..i + 1][..i] == dahua[..i] && dahua[..i + 1] == dahua[..i] + [d];
      RefreshedView(cameras, dahua[..i], now);
      OneMoreDahua(cameras, dahua[..i], d);
      if d.key in next {
        next := next[d.key := SeenKnown(next[d.key], d, now)];
        answered := answered + {d.key};
      }
    }
    assert dahua[..|dahua|] == dahua;
  }

  /** The loop at lines 375-384. */
  method TouchUNV(cameras: Cameras, unv: seq<string>, now: int) returns (next: Cameras, answered: set<string>)
    ensures next == Touched(cameras, unv, now) && answered == Answered(cameras, [], unv)
  {
    hide Keys, Answered, Touched;
    next, answered := cameras, {};
    NothingAnswered(cameras);
    NothingTouched(cameras, now);
    for i := 0 to |unv|
      invariant next == Touched(cameras, unv[..i], now) && next.Keys == cameras.Keys
      invariant answered == Answered(cameras, [], unv[..i])
    {
      var id := unv[i];
      assert unv[..i + 1] == unv[..i] + [id];
      OneMoreUNV(cameras, unv[..i], id, now);
      if id in next {
        next := next[id := next[id].(lastSeen := now)];
        answered := answered + {id};
      }
    }
    assert unv[..|unv|] == unv;
  }

  lemma DiscoverMarks(s: Store, found: seq<Device>, now: int, w: Write)
    ensures var t := DiscoverStep(s, found, now, w);
            if found == [] || w == Written then t.cameras.Keys == s.cameras.Keys + Keys(found) && t.online == Keys(found)
            else t.cameras == s.cameras && t.online == s.online
  {
    NoKeys();
    hide Keys, Merged, UserOf, View, FindUser;
    MergedView(s.cameras, found, now);
  }

  lemma AnsweredIs(cameras: Cameras, dahua: seq<Device>, unv: seq<string>)
    ensures Answered(cameras, dahua, unv) == set id | id in cameras && (id in Keys(dahua) || id in unv)
  {
  }

  lemma StreamsStored(c: Camera, main: VideoStream, sub: VideoStream, info: Option<Info>)
    ensures var d := Streamed(c, main, sub, info);
            d.mainStream == main && d.subStream == sub && d.status == Completed && d.id == c.id
            && d.address == c.address && d.mainPath == c.mainPath && d.subPath == c.subPath
  {
  }

  lemma BothAnswer(cameras: Cameras, dahua: seq<Device>, unv: seq<string>)
    ensures forall other: Cameras :: other.Keys == cameras.Keys ==>
              Answered(cameras, dahua, unv) == Answered(cameras, dahua, []) + Answered(other, [], unv)
  {
    NoKeys();
    hide Keys;
  }

  lemma NoKeys()
    ensures Keys([]) == {}
  {
  }

  lemma NothingAnswered(cameras: Cameras)
    ensures Answered(cameras, [], []) == {}
  {
  }

  lemma NothingTouched(cameras: Cameras, now: int)
    ensures Touched(cameras, [], now) == cameras
  {
  }

  lemma OneMoreDahua(cameras: Cameras, dahua: seq<Device>, d: Device)
    ensures Answered(cameras, dahua + [d], []) == Answered(cameras, dahua, []) + if d.key in cameras then {d.key} else {}
  {
    hide Keys;
    KeysAppend(dahua, d);
  }

  lemma OneMoreUNV(cameras: Cameras, unv: seq<string>, id: string, now: int)
    ensures Answered(cameras, [], unv + [id]) == Answered(cameras, [], unv) + if id in cameras then {id} else {}
    ensures var t := Touched(cameras, unv, now);
            && t.Keys == cameras.Keys
            && Touched(cameras, unv + [id], now) == if id in t then t[id := t[id].(lastSeen := now)] else t
  {
    NoKeys();
    hide Keys;
  }
}
