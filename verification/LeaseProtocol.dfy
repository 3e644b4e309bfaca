/** The temporary-address protocol of internal/cameranetwork/network.go: clients that
    write a request file and poll a status file, a helper that runs under an
    exclusive lock and may crash anywhere, the kernel's addresses and the lease
    file.  Every lock-protected or atomic action is one step; steps of the two
    sides interleave freely. */
module LeaseProtocol {
  import opened IPv4
  import opened HelperChecks
  import opened Options

  // ------------------------------------------------------------------------ state

  datatype Key = Key(device: string, address: IP, prefix: int)

  datatype Lease = Lease(key: Key, expires: int)

  datatype Status = Ready(id: string, lease: Lease) | Failure(id: string)

  /** Where the helper is in Process. */
  datatype Helper =
    | Idle
    | HasRequest(request: Request)
    | Validated(request: Request)
    | Loaded(request: Request, leases: map<string, Lease>, now: int)
    | Probed(request: Request, leases: map<string, Lease>, now: int)
    | Deleting(request: Request, leases: map<string, Lease>)
    | Finishing(leases: map<string, Lease>, status: Status)
    | Persisted(status: Status)

  /** What the helper has done, for the record. */
  datatype Deed =
    | DidValidate(request: Request)
    | DidProbe(request: Request)
    | DidAdd(request: Request)
    | DidPersist(id: string)
    | DidReport(id: string)

  datatype World = World(
    clock: int,
    requestFile: Option<Request>,
    leaseFile: map<string, Lease>,
    statusFile: Option<Status>,
    kernel: map<Key, int>,
    helper: Helper,
    waiting: map<string, Request>,
    issued: map<string, Request>,
    returned: map<string, Lease>,
    deeds: seq<Deed>)

  function KeyOf(r: Request): Key {
    Key(r.device, r.address, r.prefix)
  }

  predicate Live(w: World, k: Key) {
    k in w.kernel && w.kernel[k] > w.clock
  }

  // ------------------------------------------------------------------------ steps

  datatype AddOutcome = Added | AddedButReportedFailed | NotAdded

  datatype Step =
    | Tick(elapsed: nat)
    | Ask(request: Request)
    | Poll(id: string)
    | GiveUp(id: string)
    | HelperStart
    | HelperValidate(deviceOk: bool, reported: bool)
    | HelperLoad(readable: bool, reported: bool)
    | HelperProbe(commands: bool, free: bool, reported: bool)
    | HelperAdd(outcome: AddOutcome, reported: bool)
    | HelperSave(written: bool)
    | HelperReport(written: bool)
    | HelperCrash

  /** Helper.fail: the failure status is written if the write succeeds. */
  function Fail(w: World, id: string, reported: bool): (v: World)
    ensures v.issued == w.issued && v.clock == w.clock
  {
    if reported then w.(helper := Idle, statusFile := Some(Failure(id))) else w.(helper := Idle)
  }

  /** The loop at lines 233-237. */
  function Purged(leases: map<string, Lease>, now: int): map<string, Lease> {
    map id | id in leases && leases[id].expires > now :: leases[id]
  }

  method PurgeExpired(leases: map<string, Lease>, now: int) returns (kept: map<string, Lease>)
    ensures kept == Purged(leases, now)
  {
    kept := leases;
    var todo := leases.Keys;
    while todo != {}
      invariant todo <= leases.Keys
      invariant kept == map id | id in leases && (id in todo || leases[id].expires > now) :: leases[id]
      decreases |todo|
    {
      var id :| id in todo;
      todo := todo - {id};
      if !(leases[id].expires > now) {
        kept := kept - {id};
      }
    }
  }

  /** Lines 231-258: read and purge the leases, answer a repeated request, refuse a
      removal the helper does not own. */
  function LoadStep(w: World, r: Request, readable: bool, reported: bool): (v: World)
    ensures v.issued == w.issued && v.clock == w.clock
  {
    var kept := Purged(if readable then w.leaseFile else map[], w.clock);
    if r.id in kept && kept[r.id].expires > w.clock then
      if kept[r.id].key != KeyOf(r) then Fail(w, r.id, reported)
      else w.(helper := Finishing(kept, Ready(r.id, kept[r.id])))
    else if r.operation == Remove then
      if r.id !in kept then Fail(w, r.id, reported)
      else w.(helper := Deleting(r, kept))
    else w.(helper := Loaded(r, kept, w.clock))
  }

  function AddStep(w: World, r: Request, leases: map<string, Lease>, now: int, outcome: AddOutcome, reported: bool): (v: World)
    ensures v.issued == w.issued && v.clock == w.clock
  {
    if outcome.NotAdded? || Live(w, KeyOf(r)) then Fail(w, r.id, reported)
    else
      var added := w.(kernel := w.kernel[KeyOf(r) := w.clock + r.ttlSeconds], deeds := w.deeds + [DidAdd(r)]);
      if outcome.AddedButReportedFailed? then Fail(added, r.id, reported)
      else
        var lease := Lease(KeyOf(r), now + r.ttlSeconds);
        added.(helper := Finishing(leases[r.id := lease], Ready(r.id, lease)))
  }

  /** The status a client finds when it polls. */
  function PollStep(w: World, id: string): (v: World)
    ensures v.issued == w.issued && v.clock == w.clock
  {
    if id in w.waiting && w.statusFile.Some? && w.statusFile.value.id == id then
      match w.statusFile.value
      case Failure(_) => w.(waiting := w.waiting - {id})
      case Ready(_, lease) => w.(waiting := w.waiting - {id}, returned := w.returned[id := lease])
    else w
  }

  function Next(w: World, s: Step): World {
    match s
    case Tick(elapsed) => w.(clock := w.clock + elapsed)
    case Ask(r) =>
      // request IDs are nanosecond timestamps: a new call uses a new one
      if r.id in w.issued then w
      else w.(requestFile := Some(r), issued := w.issued[r.id := r], waiting := w.waiting[r.id := r])
    case Poll(id) => PollStep(w, id)
    case GiveUp(id) => w.(waiting := w.waiting - {id})
    case HelperStart =>
      if w.helper.Idle? && w.requestFile.Some? then w.(helper := HasRequest(w.requestFile.value)) else w
    case HelperValidate(deviceOk, reported) =>
      if !w.helper.HasRequest? then w
      else if Validate(w.helper.request, deviceOk) then
        w.(helper := Validated(w.helper.request), deeds := w.deeds + [DidValidate(w.helper.request)])
      else Fail(w, w.helper.request.id, reported)
    case HelperLoad(readable, reported) =>
      if w.helper.Validated? then LoadStep(w, w.helper.request, readable, reported) else w
    case HelperProbe(commands, free, reported) =>
      if !w.helper.Loaded? then w
      else if commands && free then
        w.(helper := Probed(w.helper.request, w.helper.leases, w.helper.now), deeds := w.deeds + [DidProbe(w.helper.request)])
      else Fail(w, w.helper.request.id, reported)
    case HelperAdd(outcome, reported) =>
      if w.helper.Probed? then AddStep(w, w.helper.request, w.helper.leases, w.helper.now, outcome, reported) else w
    case HelperSave(written) =>
      if !w.helper.Finishing? then w
      else if written then
        w.(leaseFile := w.helper.leases, helper := Persisted(w.helper.status), deeds := w.deeds + [DidPersist(w.helper.status.id)])
      else w.(helper := Idle)
    case HelperReport(written) =>
      if !w.helper.Persisted? then w
      else if written then
        w.(statusFile := Some(w.helper.status), helper := Idle, deeds := w.deeds + [DidReport(w.helper.status.id)])
      else w.(helper := Idle)
    case HelperCrash => w.(helper := Idle)
  }

  function Run(w: World, steps: seq<Step>): World
    decreases |steps|
  {
    if steps == [] then w else Run(Next(w, steps[0]), steps[1..])
  }

  ghost predicate Init(w: World) {
    && w.leaseFile == map[] && w.statusFile == None && w.requestFile == None && w.helper == Idle
    && w.waiting == map[] && w.issued == map[] && w.returned == map[] && w.deeds == []
  }

  // ------------------------------------------------------------------- invariants

  /** The kernel holds the lease's address at least until the lease expires. */
  predicate Backed(w: World, l: Lease) {
    l.expires > w.clock ==> l.key in w.kernel && w.kernel[l.key] >= l.expires
  }

  /** A lease is what the call with its id asked for, was added for it, and is backed. */
  ghost predicate GoodLease(w: World, id: string, l: Lease) {
    id in w.issued && l.key == KeyOf(w.issued[id]) && Backed(w, l) && DidAdd(w.issued[id]) in w.deeds
  }

  ghost predicate GoodTable(w: World, leases: map<string, Lease>) {
    forall id :: id in leases ==> GoodLease(w, id, leases[id])
  }

  predicate GoodRequest(w: World, r: Request) {
    r.id in w.issued && w.issued[r.id] == r
  }

  ghost predicate ValidatedThenProbed(deeds: seq<Deed>, r: Request) {
    exists i, j :: 0 <= i < j < |deeds| && deeds[i] == DidValidate(r) && deeds[j] == DidProbe(r)
  }

  ghost predicate GoodHelper(w: World) {
    match w.helper
    case Idle => true
    case HasRequest(r) => GoodRequest(w, r)
    case Validated(r) => GoodRequest(w, r) && DidValidate(r) in w.deeds
    case Loaded(r, leases, now) =>
      GoodRequest(w, r) && GoodTable(w, leases) && now <= w.clock && DidValidate(r) in w.deeds
    case Probed(r, leases, now) =>
      GoodRequest(w, r) && GoodTable(w, leases) && now <= w.clock && ValidatedThenProbed(w.deeds, r)
    case Deleting(_, _) => false
    case Finishing(leases, s) => GoodTable(w, leases) && s.Ready? && GoodLease(w, s.id, s.lease)
    case Persisted(s) => s.Ready? && GoodLease(w, s.id, s.lease) && DidPersist(s.id) in w.deeds
  }

  /** What must already have happened when a deed is done. */
  ghost predicate Justified(before: seq<Deed>, d: Deed, issued: map<string, Request>) {
    match d
    case DidAdd(r) => ValidatedThenProbed(before, r)
    case DidPersist(id) => id in issued && DidAdd(issued[id]) in before
    case DidReport(id) => DidPersist(id) in before
    case _ => true
  }

  ghost predicate AllJustified(deeds: seq<Deed>, issued: map<string, Request>) {
    forall k :: 0 <= k < |deeds| ==> Justified(deeds[..k], deeds[k], issued)
  }

  ghost predicate GoodFiles(w: World) {
    && GoodTable(w, w.leaseFile)
    && (w.requestFile.Some? ==> GoodRequest(w, w.requestFile.value))
    && (w.statusFile.Some? && w.statusFile.value.Ready? ==>
          && GoodLease(w, w.statusFile.value.id, w.statusFile.value.lease)
          && DidReport(w.statusFile.value.id) in w.deeds)
  }

  ghost predicate GoodReturns(w: World) {
    forall id :: id in w.returned ==> GoodLease(w, id, w.returned[id]) && DidReport(id) in w.deeds
  }

  ghost predicate Inv(w: World) {
    GoodFiles(w) && GoodHelper(w) && GoodReturns(w) && AllJustified(w.deeds, w.issued)
  }

  // -------------------------------------------------------------------- each step

  /** Nothing is taken back: calls stay issued, deeds stay done, time moves on, and
      no live kernel address is shortened. */
  ghost predicate Grows(w: World, v: World) {
    && w.clock <= v.clock
    && (forall id :: id in w.issued ==> id in v.issued && v.issued[id] == w.issued[id])
    && (forall d :: d in w.deeds ==> d in v.deeds)
    && (forall k :: Live(w, k) ==> k in v.kernel && v.kernel[k] == w.kernel[k])
  }

  lemma LeaseStaysGood(w: World, v: World, id: string, l: Lease)
    requires Grows(w, v) && GoodLease(w, id, l)
    ensures GoodLease(v, id, l)
  {
    if l.expires > v.clock { assert Live(w, l.key); }
  }

  lemma TableStaysGood(w: World, v: World, leases: map<string, Lease>)
    requires Grows(w, v) && GoodTable(w, leases)
    ensures GoodTable(v, leases)
  {
    hide GoodLease, Grows;
    forall id | id in leases ensures GoodLease(v, id, leases[id]) {
      LeaseStaysGood(w, v, id, leases[id]);
    }
  }

  lemma FilesStayGood(w: World, v: World)
    requires Grows(w, v) && GoodFiles(w) && GoodReturns(w)
    requires v.leaseFile == w.leaseFile && v.requestFile == w.requestFile && v.returned == w.returned
    requires v.statusFile == w.statusFile || (v.statusFile.Some? && v.statusFile.value.Failure?)
    ensures GoodFiles(v) && GoodReturns(v)
  {
    hide GoodLease;
    TableStaysGood(w, v, w.leaseFile);
    TableStaysGood(w, v, w.returned);
    if w.statusFile.Some? && w.statusFile.value.Ready? {
      LeaseStaysGood(w, v, w.statusFile.value.id, w.statusFile.value.lease);
    }
  }

  lemma HelperStaysGood(w: World, v: World)
    requires Grows(w, v) && GoodHelper(w) && v.helper == w.helper && w.deeds == v.deeds
    ensures GoodHelper(v)
  {
    hide GoodLease;
    match w.helper
    case Idle =>
    case HasRequest(_) =>
    case Validated(_) =>
    case Loaded(_, leases, _) => TableStaysGood(w, v, leases);
    case Probed(_, leases, _) => TableStaysGood(w, v, leases);
    case Finishing(leases, s) => TableStaysGood(w, v, leases); LeaseStaysGood(w, v, s.id, s.lease);
    case Persisted(s) => LeaseStaysGood(w, v, s.id, s.lease);
  }

  lemma JustifiedAppend(deeds: seq<Deed>, d: Deed, issued: map<string, Request>)
    requires AllJustified(deeds, issued) && Justified(deeds, d, issued)
    ensures AllJustified(deeds + [d], issued)
  {
    hide Justified;
    var all := deeds + [d];
    forall k | 0 <= k < |all| ensures Justified(all[..k], all[k], issued) {
      if k < |deeds| {
        assert all[..k] == deeds[..k] && all[k] == deeds[k];
      } else {
        assert all[..k] == deeds;
      }
    }
  }

  lemma JustifiedIssue(deeds: seq<Deed>, issued: map<string, Request>, r: Request)
    requires AllJustified(deeds, issued) && r.id !in issued
    ensures AllJustified(deeds, issued[r.id := r])
  {
    forall k | 0 <= k < |deeds| ensures Justified(deeds[..k], deeds[k], issued[r.id := r]) {
      assert Justified(deeds[..k], deeds[k], issued);
    }
  }

  lemma GrowsByDeed(w: World, v: World, d: Deed)
    requires v == w.(helper := v.helper, deeds := w.deeds + [d], leaseFile := v.leaseFile, statusFile := v.statusFile)
    ensures Grows(w, v)
  {
  }

  lemma QuietStep(w: World, s: Step)
    requires Inv(w)
    requires s.Tick? || s.GiveUp? || s.HelperStart? || s.HelperCrash?
    ensures Inv(Next(w, s))
  {
    hide GoodLease, AllJustified, GoodFiles, GoodReturns;
    var v := Next(w, s);
    assert Grows(w, v);
    FilesStayGood(w, v);
    if s.HelperStart? {
      if v.helper != w.helper { RequestFileGood(w); }
    } else if !s.HelperCrash? {
      hide GoodHelper, Grows;
      HelperStaysGood(w, v);
    }
  }

  lemma RequestFileGood(w: World)
    requires GoodFiles(w) && w.requestFile.Some?
    ensures GoodRequest(w, w.requestFile.value)
  {
  }

  lemma AskStep(w: World, r: Request)
    requires Inv(w)
    ensures Inv(Next(w, Ask(r)))
  {
    if r.id !in w.issued {
      hide GoodLease, AllJustified, GoodFiles, GoodReturns, GoodHelper;
      var v := w.(requestFile := Some(r), issued := w.issued[r.id := r], waiting := w.waiting[r.id := r]);
      assert Next(w, Ask(r)) == v;
      hide Next;
      var u := v.(requestFile := w.requestFile);
      assert Grows(w, u) && Grows(w, v);
      hide Grows, Live;
      FilesStayGood(w, u);
      TableSame(u, v);
      HelperStaysGood(w, v);
      JustifiedIssue(w.deeds, w.issued, r);
    }
  }

  /** A lease's goodness does not depend on the files. */
  lemma TableSame(u: World, v: World)
    requires GoodFiles(u) && GoodReturns(u)
    requires v == u.(requestFile := v.requestFile) && v.requestFile.Some? && GoodRequest(v, v.requestFile.value)
    ensures GoodFiles(v) && GoodReturns(v)
  {
    assert Grows(u, v);
    TableStaysGood(u, v, u.leaseFile);
    TableStaysGood(u, v, u.returned);
    hide GoodTable, GoodLease;
    if u.statusFile.Some? && u.statusFile.value.Ready? {
      LeaseStaysGood(u, v, u.statusFile.value.id, u.statusFile.value.lease);
    }
  }

  lemma PollInv(w: World, id: string)
    requires Inv(w)
    ensures Inv(PollStep(w, id))
  {
    hide AllJustified, GoodLease, GoodFiles, GoodReturns;
    var v := PollStep(w, id);
    PollGrows(w, id);
    PollFiles(w, id);
    hide Grows;
    HelperStaysGood(w, v);
  }

  lemma PollGrows(w: World, id: string)
    ensures var v := PollStep(w, id); Grows(w, v) && v.helper == w.helper && v.deeds == w.deeds
  {
  }

  lemma PollFiles(w: World, id: string)
    requires GoodFiles(w) && GoodReturns(w)
    ensures GoodFiles(PollStep(w, id)) && GoodReturns(PollStep(w, id))
  {
    hide GoodLease, Grows;
    var v := PollStep(w, id);
    PollGrows(w, id);
    TableStaysGood(w, v, w.leaseFile);
    TableStaysGood(w, v, w.returned);
    if w.statusFile.Some? && w.statusFile.value.Ready? {
      LeaseStaysGood(w, v, w.statusFile.value.id, w.statusFile.value.lease);
    }
  }

  lemma FailInv(w: World, id: string, reported: bool)
    requires GoodFiles(w) && GoodReturns(w) && AllJustified(w.deeds, w.issued)
    ensures Inv(Fail(w, id, reported))
  {
    hide AllJustified, GoodFiles, GoodReturns;
    var v := Fail(w, id, reported);
    assert Grows(w, v);
    FilesStayGood(w, v);
  }

  lemma ValidateInv(w: World, deviceOk: bool, reported: bool)
    requires Inv(w)
    ensures Inv(Next(w, HelperValidate(deviceOk, reported)))
  {
    hide GoodFiles, GoodReturns, AllJustified, Validate, GoodLease;
    if w.helper.HasRequest? {
      var r := w.helper.request;
      if Validate(r, deviceOk) {
        var v := Next(w, HelperValidate(deviceOk, reported));
        GrowsByDeed(w, v, DidValidate(r));
        FilesStayGood(w, v);
        JustifiedAppend(w.deeds, DidValidate(r), w.issued);
      } else {
        FailInv(w, r.id, reported);
      }
    }
  }

  lemma LoadInv(w: World, r: Request, readable: bool, reported: bool)
    requires Inv(w) && w.helper == Validated(r)
    ensures Inv(LoadStep(w, r, readable, reported))
  {
    hide AllJustified, GoodLease, GoodFiles, GoodReturns, Purged, Fail;
    var kept := Purged(if readable then w.leaseFile else map[], w.clock);
    PurgedIsGood(w, r, readable, kept);
    var v := LoadStep(w, r, readable, reported);
    if v == Fail(w, r.id, reported) {
      FailInv(w, r.id, reported);
    } else {
      assert Grows(w, v);
      FilesStayGood(w, v);
      TableStaysGood(w, v, kept);
    }
  }

  /** The purged table is good, and what it holds for this request is unexpired. */
  lemma PurgedIsGood(w: World, r: Request, readable: bool, kept: map<string, Lease>)
    requires GoodFiles(w) && kept == Purged(if readable then w.leaseFile else map[], w.clock)
    ensures GoodTable(w, kept) && (r.id in kept ==> kept[r.id].expires > w.clock)
  {
    hide GoodLease;
  }

  lemma ProbeInv(w: World, commands: bool, free: bool, reported: bool)
    requires Inv(w)
    ensures Inv(Next(w, HelperProbe(commands, free, reported)))
  {
    hide GoodFiles, GoodReturns, AllJustified, GoodLease;
    if w.helper.Loaded? {
      var r := w.helper.request;
      if commands && free {
        var v := Next(w, HelperProbe(commands, free, reported));
        GrowsByDeed(w, v, DidProbe(r));
        FilesStayGood(w, v);
        TableStaysGood(w, v, w.helper.leases);
        JustifiedAppend(w.deeds, DidProbe(r), w.issued);
        var i :| 0 <= i < |w.deeds| && w.deeds[i] == DidValidate(r);
        assert v.deeds[i] == DidValidate(r) && v.deeds[|w.deeds|] == DidProbe(r);
      } else {
        FailInv(w, r.id, reported);
      }
    }
  }

  lemma AddInv(w: World, outcome: AddOutcome, reported: bool)
    requires Inv(w) && w.helper.Probed?
    ensures Inv(Next(w, HelperAdd(outcome, reported)))
  {
    hide AllJustified, GoodFiles, GoodReturns;
    var r, leases, now := w.helper.request, w.helper.leases, w.helper.now;
    if outcome.NotAdded? || Live(w, KeyOf(r)) {
      FailInv(w, r.id, reported);
    } else {
      var u := w.(kernel := w.kernel[KeyOf(r) := w.clock + r.ttlSeconds], deeds := w.deeds + [DidAdd(r)]);
      JustifiedAppend(w.deeds, DidAdd(r), w.issued);
      assert Grows(w, u);
      FilesStayGood(w, u);
      if outcome.AddedButReportedFailed? {
        FailInv(u, r.id, reported);
      } else {
        var lease := Lease(KeyOf(r), now + r.ttlSeconds);
        var v := u.(helper := Finishing(leases[r.id := lease], Ready(r.id, lease)));
        assert Grows(u, v) && Grows(w, v);
        FilesStayGood(u, v);
        TableStaysGood(w, v, leases);
        assert GoodLease(v, r.id, lease);
      }
    }
  }

  lemma SaveInv(w: World, written: bool)
    requires Inv(w)
    ensures Inv(Next(w, HelperSave(written)))
  {
    hide AllJustified, GoodLease;
    if w.helper.Finishing? {
      var v := Next(w, HelperSave(written));
      if written {
        var st := w.helper.status;
        GrowsByDeed(w, v, DidPersist(st.id));
        TableStaysGood(w, v, w.helper.leases);
        TableStaysGood(w, v, w.returned);
        LeaseStaysGood(w, v, st.id, st.lease);
        assert Justified(w.deeds, DidPersist(st.id), w.issued) by { LeaseWasAdded(w, st.id, st.lease); }
        JustifiedAppend(w.deeds, DidPersist(st.id), w.issued);
        if w.statusFile.Some? && w.statusFile.value.Ready? { StatusStays(w, v); }
      } else {
        FailInv(w, "", false);
      }
    }
  }

  lemma LeaseWasAdded(w: World, id: string, l: Lease)
    requires GoodLease(w, id, l)
    ensures id in w.issued && DidAdd(w.issued[id]) in w.deeds
  {
  }

  lemma StatusStays(w: World, v: World)
    requires GoodFiles(w) && Grows(w, v) && v.statusFile == w.statusFile && v.statusFile.Some? && v.statusFile.value.Ready?
    ensures GoodLease(v, v.statusFile.value.id, v.statusFile.value.lease) && DidReport(v.statusFile.value.id) in v.deeds
  {
    LeaseStaysGood(w, v, v.statusFile.value.id, v.statusFile.value.lease);
  }

  lemma ReportInv(w: World, written: bool)
    requires Inv(w)
    ensures Inv(Next(w, HelperReport(written)))
  {
    hide AllJustified, GoodLease;
    if w.helper.Persisted? {
      var v := Next(w, HelperReport(written));
      if written {
        var st := w.helper.status;
        GrowsByDeed(w, v, DidReport(st.id));
        TableStaysGood(w, v, w.leaseFile);
        TableStaysGood(w, v, w.returned);
        LeaseStaysGood(w, v, st.id, st.lease);
        JustifiedAppend(w.deeds, DidReport(st.id), w.issued);
        assert v.deeds[|w.deeds|] == DidReport(st.id);
      } else {
        FailInv(w, "", false);
      }
    }
  }

  /** Every step of either side keeps the invariant. */
  lemma NextInv(w: World, s: Step)
    requires Inv(w)
    ensures Inv(Next(w, s))
  {
    match s
    case Tick(_) => QuietStep(w, s);
    case GiveUp(_) => QuietStep(w, s);
    case HelperStart => QuietStep(w, s);
    case HelperCrash => QuietStep(w, s);
    case Ask(r) => AskStep(w, r);
    case Poll(id) => PollInv(w, id);
    case HelperValidate(d, r) => ValidateInv(w, d, r);
    case HelperLoad(a, b) => if w.helper.Validated? { LoadInv(w, w.helper.request, a, b); }
    case HelperProbe(a, b, c) => ProbeInv(w, a, b, c);
    case HelperAdd(a, b) => if w.helper.Probed? { AddInv(w, a, b); }
    case HelperSave(a) => SaveInv(w, a);
    case HelperReport(a) => ReportInv(w, a);
  }

  lemma {:induction false} RunInv(w: World, steps: seq<Step>)
    requires Inv(w)
    ensures Inv(Run(w, steps))
    decreases |steps|
  {
    hide Inv, Next;
    if steps != [] {
      NextInv(w, steps[0]);
      RunInv(Next(w, steps[0]), steps[1..]);
    }
  }

  // --------------------------------------------------------------------- theorems

  ghost predicate InOrderAt(deeds: seq<Deed>, r: Request, v: nat, p: nat, a: nat, s: nat, t: nat) {
    && v < p < a < s < t < |deeds|
    && deeds[v] == DidValidate(r) && deeds[p] == DidProbe(r) && deeds[a] == DidAdd(r)
    && deeds[s] == DidPersist(r.id) && deeds[t] == DidReport(r.id)
  }

  /** The life of a returned lease: validated, probed, added, persisted, reported. */
  ghost predicate InOrder(deeds: seq<Deed>, r: Request) {
    exists v, p, a, s, t :: InOrderAt(deeds, r, v, p, a, s, t)
  }

  lemma FindDeed(deeds: seq<Deed>, k: nat, d: Deed) returns (i: nat)
    requires k <= |deeds| && d in deeds[..k]
    ensures i < k && deeds[i] == d
  {
    i :| 0 <= i < k && deeds[..k][i] == d;
  }

  lemma ReportInOrder(deeds: seq<Deed>, issued: map<string, Request>, id: string)
    requires AllJustified(deeds, issued) && DidReport(id) in deeds && id in issued && issued[id].id == id
    ensures InOrder(deeds, issued[id])
  {
    var r := issued[id];
    assert deeds[..|deeds|] == deeds;
    var t := FindDeed(deeds, |deeds|, DidReport(id));
    assert Justified(deeds[..t], deeds[t], issued);
    var s := FindDeed(deeds, t, DidPersist(id));
    assert Justified(deeds[..s], deeds[s], issued);
    var a := FindDeed(deeds, s, DidAdd(r));
    assert Justified(deeds[..a], deeds[a], issued);
    var v, p := FindProbe(deeds, a, r);
    assert InOrderAt(deeds, r, v, p, a, s, t);
  }

  lemma FindProbe(deeds: seq<Deed>, k: nat, r: Request) returns (v: nat, p: nat)
    requires k <= |deeds| && ValidatedThenProbed(deeds[..k], r)
    ensures v < p < k && deeds[v] == DidValidate(r) && deeds[p] == DidProbe(r)
  {
    v, p :| 0 <= v < p < k && deeds[..k][v] == DidValidate(r) && deeds[..k][p] == DidProbe(r);
  }

  lemma StepKeepsIds(w: World, step: Step)
    requires forall id :: id in w.issued ==> w.issued[id].id == id
    ensures forall id :: id in Next(w, step).issued ==> Next(w, step).issued[id].id == id
  {
    hide Next;
    if step.Ask? { AskIssues(w, step.request); } else { OnlyAskIssues(w, step); }
  }

  lemma AskIssues(w: World, r: Request)
    ensures Next(w, Ask(r)).issued == w.issued || Next(w, Ask(r)).issued == w.issued[r.id := r]
  {
  }

  lemma OnlyAskIssues(w: World, step: Step)
    requires !step.Ask?
    ensures Next(w, step).issued == w.issued
  {
    hide Validate, LoadStep, AddStep, PollStep, Fail;
  }

  lemma {:induction false} IssuedKeepIds(w: World, steps: seq<Step>)
    requires forall id :: id in w.issued ==> w.issued[id].id == id
    ensures forall id :: id in Run(w, steps).issued ==> Run(w, steps).issued[id].id == id
    decreases |steps|
  {
    hide Next;
    if steps != [] {
      StepKeepsIds(w, steps[0]);
      IssuedKeepIds(Next(w, steps[0]), steps[1..]);
    }
  }

  /** In every interleaving of calls, helper runs, clock ticks, lost writes and
      crashes: a lease that Ensure returned has exactly the interface, address and
      prefix of that call; its address was validated, probed, added, persisted and
      reported in that order; and every lease returned or persisted that has not
      expired is backed by a kernel address that lives at least as long. */
  lemma LeaseSafety(w0: World, steps: seq<Step>)
    requires Init(w0)
    ensures var w := Run(w0, steps);
            && (forall id :: id in w.returned ==>
                  && id in w.issued && w.returned[id].key == KeyOf(w.issued[id])
                  && InOrder(w.deeds, w.issued[id]) && Backed(w, w.returned[id]))
            && (forall id :: id in w.leaseFile ==> Backed(w, w.leaseFile[id]))
  {
    hide Next, Run, InOrder, AllJustified;
    assert Inv(w0) by { InitInv(w0); }
    RunInv(w0, steps);
    IssuedKeepIds(w0, steps);
    var w := Run(w0, steps);
    forall id | id in w.returned ensures InOrder(w.deeds, w.issued[id]) {
      assert GoodLease(w, id, w.returned[id]);
      ReportInOrder(w.deeds, w.issued, id);
    }
    assert forall id :: id in w.leaseFile ==> GoodLease(w, id, w.leaseFile[id]);
  }

  lemma InitInv(w: World)
    requires Init(w)
    ensures Inv(w)
  {
  }

  /** The removal branch at lines 249-257 is never reached. */
  lemma RemovalIsUnreachable(w0: World, steps: seq<Step>)
    requires Init(w0)
    ensures !Run(w0, steps).helper.Deleting?
  {
    hide Next, Run, AllJustified;
    InitInv(w0);
    RunInv(w0, steps);
  }

  /** A call and an undisturbed run of the helper that serves it. */
  function Served(r: Request): seq<Step> {
    [Ask(r), HelperStart, HelperValidate(true, true), HelperLoad(true, true)] +
    [HelperProbe(true, true, true), HelperAdd(Added, true), HelperSave(true), HelperReport(true)]
  }

  lemma FirstSteps(w: World, r: Request)
    requires Init(w) && Validate(r, true) && r.operation == Add
    ensures var v := Run(w, [Ask(r), HelperStart, HelperValidate(true, true), HelperLoad(true, true)]);
            v.helper == Loaded(r, map[], w.clock) && v.kernel == w.kernel && v.clock == w.clock
  {
    hide Validate, Run;
    RunFour(w, Ask(r), HelperStart, HelperValidate(true, true), HelperLoad(true, true));
    var v := Next(Next(Next(w, Ask(r)), HelperStart), HelperValidate(true, true));
    assert v.helper == Validated(r) && v.kernel == w.kernel && v.clock == w.clock && v.leaseFile == map[];
    assert Purged(map[], w.clock) == map[];
  }

  lemma LastSteps(w: World, r: Request)
    requires w.helper == Loaded(r, map[], w.clock) && !Live(w, KeyOf(r))
    ensures var v := Run(w, [HelperProbe(true, true, true), HelperAdd(Added, true), HelperSave(true), HelperReport(true)]);
            v.statusFile == Some(Ready(r.id, Lease(KeyOf(r), w.clock + r.ttlSeconds)))
  {
    hide Run, Next;
    RunFour(w, HelperProbe(true, true, true), HelperAdd(Added, true), HelperSave(true), HelperReport(true));
    var v := Next(Next(w, HelperProbe(true, true, true)), HelperAdd(Added, true));
    var lease := Lease(KeyOf(r), w.clock + r.ttlSeconds);
    assert v.helper == Finishing(map[r.id := lease], Ready(r.id, lease)) by { Adds(w, r); }
    Reports(v, map[r.id := lease], Ready(r.id, lease));
  }

  lemma Reports(w: World, leases: map<string, Lease>, status: Status)
    requires w.helper == Finishing(leases, status)
    ensures Next(Next(w, HelperSave(true)), HelperReport(true)).statusFile == Some(status)
  {
    assert Next(w, HelperSave(true)).helper == Persisted(status);
  }

  lemma Adds(w: World, r: Request)
    requires w.helper == Loaded(r, map[], w.clock) && !Live(w, KeyOf(r))
    ensures var lease := Lease(KeyOf(r), w.clock + r.ttlSeconds);
            Next(Next(w, HelperProbe(true, true, true)), HelperAdd(Added, true)).helper == Finishing(map[r.id := lease], Ready(r.id, lease))
  {
    var v := Next(w, HelperProbe(true, true, true));
    assert v.helper == Probed(r, map[], w.clock) && v.kernel == w.kernel && v.clock == w.clock;
    assert !Live(v, KeyOf(r));
    assert map[][r.id := Lease(KeyOf(r), w.clock + r.ttlSeconds)] == map[r.id := Lease(KeyOf(r), w.clock + r.ttlSeconds)];
  }

  lemma RunFour(w: World, a: Step, b: Step, c: Step, d: Step)
    ensures Run(w, [a, b, c, d]) == Next(Next(Next(Next(w, a), b), c), d)
  {
    hide Next;
    assert [a, b, c, d] == [a] + [b, c, d] && [b, c, d] == [b] + [c, d] && [c, d] == [c] + [d] && [d] == [d] + [];
    RunOne(w, a, [b, c, d]);
    RunOne(Next(w, a), b, [c, d]);
    RunOne(Next(Next(w, a), b), c, [d]);
    RunOne(Next(Next(Next(w, a), b), c), d, []);
  }

  lemma RunOne(w: World, s: Step, rest: seq<Step>)
    ensures Run(w, [s] + rest) == Run(Next(w, s), rest)
  {
    hide Next;
    assert ([s] + rest)[1..] == rest;
  }

  lemma {:induction false} RunConcat(w: World, a: seq<Step>, b: seq<Step>)
    ensures Run(w, a + b) == Run(Run(w, a), b)
    decreases |a|
  {
    hide Next;
    if a == [] {
      assert a + b == b;
    } else {
      assert (a + b)[1..] == a[1..] + b;
      RunConcat(Next(w, a[0]), a[1..], b);
    }
  }

  /** Ask without the check that the id is new. */
  function AskAgain(w: World, r: Request): World {
    w.(requestFile := Some(r), issued := w.issued[r.id := r], waiting := w.waiting[r.id := r])
  }

  /** A new id per call is needed: from the start, after one call has been served, a
      second call for another address that reuses the id is answered with the first
      call's lease. */
  lemma ReusedIdAnswersWrongly(w: World, r: Request, other: Request)
    requires Init(w) && Validate(r, true) && r.operation == Add && !Live(w, KeyOf(r))
    requires other.id == r.id && KeyOf(other) != KeyOf(r)
    ensures var v := PollStep(AskAgain(Run(w, Served(r)), other), other.id);
            other.id in v.returned && v.returned[other.id].key == KeyOf(r) != KeyOf(other)
  {
    hide Run, Validate, Next;
    FirstSteps(w, r);
    var mid := Run(w, [Ask(r), HelperStart, HelperValidate(true, true), HelperLoad(true, true)]);
    LastSteps(mid, r);
    RunConcat(w, [Ask(r), HelperStart, HelperValidate(true, true), HelperLoad(true, true)],
              [HelperProbe(true, true, true), HelperAdd(Added, true), HelperSave(true), HelperReport(true)]);
  }
}
