/** Where a lease comes from: the helper run that made it, step by step, and how long it
    stays in the lease file. */
module LeaseHistory {
  import opened IPv4
  import opened HelperChecks
  import opened LeaseProtocol
  import opened Options

  /** The world after the first i steps. */
  ghost function After(w: World, steps: seq<Step>, i: nat): World
    requires i <= |steps|
  {
    Run(w, steps[..i])
  }

  /** Step i validates r: the checks hold for the interface state it found. */
  ghost predicate Validates(w: World, steps: seq<Step>, r: Request, i: nat) {
    && i < |steps| && steps[i].HelperValidate?
    && After(w, steps, i).helper == HasRequest(r) && Validate(r, steps[i].deviceOk)
  }

  ghost predicate Loads(w: World, steps: seq<Step>, r: Request, i: nat) {
    i < |steps| && steps[i].HelperLoad? && After(w, steps, i).helper == Validated(r)
  }

  /** Step i probes for r, and nobody answered. */
  ghost predicate FindsFree(w: World, steps: seq<Step>, r: Request, i: nat) {
    && i < |steps| && steps[i].HelperProbe? && steps[i].commands && steps[i].free
    && After(w, steps, i).helper.Loaded? && After(w, steps, i).helper.request == r
  }

  ghost predicate Adds(w: World, steps: seq<Step>, r: Request, i: nat) {
    && i < |steps| && steps[i].HelperAdd? && steps[i].outcome == Added
    && After(w, steps, i).helper.Probed? && After(w, steps, i).helper.request == r
  }

  /** The helper works on r. */
  predicate Busy(h: Helper, r: Request) {
    h == Validated(r) || (h.Loaded? && h.request == r) || (h.Probed? && h.request == r)
  }

  /** It did so without a break from step `from` to step `to`. */
  ghost predicate Unbroken(w: World, steps: seq<Step>, r: Request, from: nat, to: nat) {
    to <= |steps| && forall m :: from < m <= to ==> Busy(After(w, steps, m).helper, r)
  }

  /** The steps of one helper run. */
  datatype Trace = Trace(validate: nat, load: nat, probe: nat, add: nat)

  ghost predicate HasValidated(w: World, steps: seq<Step>, r: Request, t: Trace) {
    Validates(w, steps, r, t.validate) && Unbroken(w, steps, r, t.validate, |steps|)
  }

  ghost predicate HasLoaded(w: World, steps: seq<Step>, r: Request, t: Trace, now: int) {
    && HasValidated(w, steps, r, t) && t.validate < t.load
    && Loads(w, steps, r, t.load) && now == After(w, steps, t.load).clock
  }

  ghost predicate HasProbed(w: World, steps: seq<Step>, r: Request, t: Trace, now: int) {
    HasLoaded(w, steps, r, t, now) && t.load < t.probe && FindsFree(w, steps, r, t.probe)
  }

  /** A lease was made for r in one unbroken helper run: r was valid, then the leases were
      loaded, then the address was probed and found free, then it was added; it lasts
      the requested time from the moment the leases were loaded. */
  ghost predicate MadeBy(w: World, steps: seq<Step>, r: Request, l: Lease, t: Trace) {
    && t.validate < t.load < t.probe < t.add
    && Validates(w, steps, r, t.validate) && Loads(w, steps, r, t.load)
    && FindsFree(w, steps, r, t.probe) && Adds(w, steps, r, t.add)
    && Unbroken(w, steps, r, t.validate, t.add)
    && l == Lease(KeyOf(r), After(w, steps, t.load).clock + r.ttlSeconds)
  }

  ghost predicate Made(w: World, steps: seq<Step>, r: Request, l: Lease) {
    exists t :: MadeBy(w, steps, r, l, t)
  }

  ghost predicate TableMade(w: World, steps: seq<Step>, issued: map<string, Request>, leases: map<string, Lease>) {
    forall id :: id in leases ==> id in issued && Made(w, steps, issued[id], leases[id])
  }

  ghost predicate StatusMade(w: World, steps: seq<Step>, issued: map<string, Request>, s: Status) {
    s.Ready? ==> s.id in issued && Made(w, steps, issued[s.id], s.lease)
  }

  /** The history behind the helper's state ... */
  ghost predicate HelperMade(w: World, steps: seq<Step>, v: World) {
    match v.helper
    case Validated(r) => exists t :: HasValidated(w, steps, r, t)
    case Loaded(r, leases, now) => TableMade(w, steps, v.issued, leases) && exists t :: HasLoaded(w, steps, r, t, now)
    case Probed(r, leases, now) => TableMade(w, steps, v.issued, leases) && exists t :: HasProbed(w, steps, r, t, now)
    case Finishing(leases, s) => TableMade(w, steps, v.issued, leases) && StatusMade(w, steps, v.issued, s)
    case Persisted(s) => StatusMade(w, steps, v.issued, s)
    case _ => true
  }

  /** ... and behind the files and what was returned. */
  ghost predicate FilesMade(w: World, steps: seq<Step>, v: World) {
    && TableMade(w, steps, v.issued, v.leaseFile) && TableMade(w, steps, v.issued, v.returned)
    && (v.statusFile.Some? ==> StatusMade(w, steps, v.issued, v.statusFile.value))
  }

  ghost predicate AllMade(w: World, steps: seq<Step>) {
    HelperMade(w, steps, Run(w, steps)) && FilesMade(w, steps, Run(w, steps))
  }

  // ------------------------------------------------------------------ one more step

  lemma AfterMore(w: World, steps: seq<Step>, s: Step, i: nat)
    requires i <= |steps|
    ensures After(w, steps + [s], i) == After(w, steps, i)
  {
    hide Run;
    assert (steps + [s])[..i] == steps[..i];
  }

  lemma RunMore(w: World, steps: seq<Step>, s: Step)
    ensures Run(w, steps + [s]) == Next(Run(w, steps), s)
    ensures After(w, steps + [s], |steps|) == Run(w, steps) && After(w, steps + [s], |steps| + 1) == Next(Run(w, steps), s)
  {
    hide Next;
    RunConcat(w, steps, [s]);
    assert [s] + [] == [s];
    RunOne(Run(w, steps), s, []);
    assert (steps + [s])[..|steps|] == steps && (steps + [s])[..|steps| + 1] == steps + [s];
  }

  lemma MadeMore(w: World, steps: seq<Step>, s: Step, r: Request, l: Lease)
    requires Made(w, steps, r, l)
    ensures Made(w, steps + [s], r, l)
  {
    hide After, Validate;
    var t :| MadeBy(w, steps, r, l, t);
    forall i | 0 <= i <= |steps| ensures After(w, steps + [s], i) == After(w, steps, i) { AfterMore(w, steps, s, i); }
    assert MadeBy(w, steps + [s], r, l, t);
  }

  lemma TableMore(w: World, steps: seq<Step>, s: Step, issued: map<string, Request>, leases: map<string, Lease>, more: map<string, Request>)
    requires TableMade(w, steps, issued, leases)
    requires forall id :: id in issued ==> id in more && more[id] == issued[id]
    ensures TableMade(w, steps + [s], more, leases)
  {
    hide Made;
    forall id | id in leases ensures Made(w, steps + [s], more[id], leases[id]) {
      MadeMore(w, steps, s, issued[id], leases[id]);
    }
  }

  lemma StatusMore(w: World, steps: seq<Step>, s: Step, issued: map<string, Request>, st: Status, more: map<string, Request>)
    requires StatusMade(w, steps, issued, st)
    requires forall id :: id in issued ==> id in more && more[id] == issued[id]
    ensures StatusMade(w, steps + [s], more, st)
  {
    hide Made;
    if st.Ready? { MadeMore(w, steps, s, issued[st.id], st.lease); }
  }

  /** Issued calls stay issued. */
  lemma IssuedStays(v: World, s: Step)
    ensures forall id :: id in v.issued ==> id in Next(v, s).issued && Next(v, s).issued[id] == v.issued[id]
  {
    hide Next;
    if s.Ask? { AskKeeps(v, s.request); } else { OnlyAskIssues(v, s); }
  }

  lemma AskKeeps(v: World, r: Request)
    ensures forall id :: id in v.issued ==> id in Next(v, Ask(r)).issued && Next(v, Ask(r)).issued[id] == v.issued[id]
  {
  }

  /** A step that leaves the helper alone leaves its history. */
  lemma HelperMore(w: World, steps: seq<Step>, s: Step)
    requires HelperMade(w, steps, Run(w, steps)) && Next(Run(w, steps), s).helper == Run(w, steps).helper
    ensures HelperMade(w, steps + [s], Run(w, steps + [s]))
  {
    var v := Run(w, steps);
    RunMore(w, steps, s);
    IssuedStays(v, s);
    hide Next, Run, TableMade, StatusMade, HasValidated, HasLoaded, HasProbed;
    var u := Next(v, s);
    match v.helper
    case Validated(r) =>
      var t :| HasValidated(w, steps, r, t);
      ValidatedMore(w, steps, s, r, t);
    case Loaded(r, leases, now) =>
      TableMore(w, steps, s, v.issued, leases, u.issued);
      var t :| HasLoaded(w, steps, r, t, now);
      LoadedMore(w, steps, s, r, t, now);
    case Probed(r, leases, now) =>
      TableMore(w, steps, s, v.issued, leases, u.issued);
      var t :| HasProbed(w, steps, r, t, now);
      ProbedMore(w, steps, s, r, t, now);
    case Finishing(leases, st) =>
      TableMore(w, steps, s, v.issued, leases, u.issued);
      StatusMore(w, steps, s, v.issued, st, u.issued);
    case Persisted(st) => StatusMore(w, steps, s, v.issued, st, u.issued);
    case _ =>
  }

  lemma ValidatedMore(w: World, steps: seq<Step>, s: Step, r: Request, t: Trace)
    requires HasValidated(w, steps, r, t) && Busy(Next(Run(w, steps), s).helper, r)
    ensures HasValidated(w, steps + [s], r, t)
  {
    RunMore(w, steps, s);
    hide After, Run, Next, Validate;
    forall i | 0 <= i <= |steps| ensures After(w, steps + [s], i) == After(w, steps, i) { AfterMore(w, steps, s, i); }
  }

  lemma LoadedMore(w: World, steps: seq<Step>, s: Step, r: Request, t: Trace, now: int)
    requires HasLoaded(w, steps, r, t, now) && Busy(Next(Run(w, steps), s).helper, r)
    ensures HasLoaded(w, steps + [s], r, t, now)
  {
    hide After, Run, Next, HasValidated;
    ValidatedMore(w, steps, s, r, t);
    AfterMore(w, steps, s, t.load);
  }

  lemma ProbedMore(w: World, steps: seq<Step>, s: Step, r: Request, t: Trace, now: int)
    requires HasProbed(w, steps, r, t, now) && Busy(Next(Run(w, steps), s).helper, r)
    ensures HasProbed(w, steps + [s], r, t, now)
  {
    hide After, Run, Next, HasLoaded;
    LoadedMore(w, steps, s, r, t, now);
    AfterMore(w, steps, s, t.probe);
  }

  // --------------------------------------------------------------- the helper's steps

  lemma ValidateMade(w: World, steps: seq<Step>, deviceOk: bool, reported: bool, r: Request)
    requires Run(w, steps).helper == HasRequest(r) && Validate(r, deviceOk)
    ensures HasValidated(w, steps + [HelperValidate(deviceOk, reported)], r, Trace(|steps|, 0, 0, 0))
  {
    var s := HelperValidate(deviceOk, reported);
    hide Validate;
    RunMore(w, steps, s);
  }

  lemma LoadMade(w: World, steps: seq<Step>, s: Step, r: Request, t: Trace)
    requires s.HelperLoad? && HasValidated(w, steps, r, t) && Run(w, steps).helper == Validated(r)
    requires Next(Run(w, steps), s).helper.Loaded? && Next(Run(w, steps), s).helper.request == r
    ensures HasLoaded(w, steps + [s], r, t.(load := |steps|), Run(w, steps).clock)
  {
    RunMore(w, steps, s);
    hide Run, Next, Validate;
    ValidatedMore(w, steps, s, r, t);
    assert HasValidated(w, steps + [s], r, t.(load := |steps|));
  }

  lemma ProbeMade(w: World, steps: seq<Step>, s: Step, r: Request, t: Trace, now: int)
    requires s.HelperProbe? && s.commands && s.free && HasLoaded(w, steps, r, t, now)
    requires Run(w, steps).helper.Loaded? && Run(w, steps).helper.request == r
    requires Next(Run(w, steps), s).helper.Probed? && Next(Run(w, steps), s).helper.request == r
    ensures HasProbed(w, steps + [s], r, t.(probe := |steps|), now)
  {
    RunMore(w, steps, s);
    LoadedMore(w, steps, s, r, t, now);
    hide Run, Next, Validate;
    assert HasLoaded(w, steps + [s], r, t.(probe := |steps|), now);
  }

  lemma AddMade(w: World, steps: seq<Step>, s: Step, r: Request, t: Trace, now: int)
    requires s.HelperAdd? && s.outcome == Added && HasProbed(w, steps, r, t, now)
    requires Run(w, steps).helper.Probed? && Run(w, steps).helper.request == r
    ensures Made(w, steps + [s], r, Lease(KeyOf(r), now + r.ttlSeconds))
  {
    RunMore(w, steps, s);
    hide Run, Next, Validate, After;
    forall i | 0 <= i <= |steps| ensures After(w, steps + [s], i) == After(w, steps, i) { AfterMore(w, steps, s, i); }
    assert MadeBy(w, steps + [s], r, Lease(KeyOf(r), now + r.ttlSeconds), t.(add := |steps|));
  }

  lemma FilesSame(w: World, steps: seq<Step>, s: Step)
    requires FilesMade(w, steps, Run(w, steps))
    requires var v, u := Run(w, steps), Next(Run(w, steps), s);
             && u.leaseFile == v.leaseFile && u.returned == v.returned
             && (u.statusFile == v.statusFile || (u.statusFile.Some? && u.statusFile.value.Failure?))
    ensures FilesMade(w, steps + [s], Run(w, steps + [s]))
  {
    var v, u := Run(w, steps), Next(Run(w, steps), s);
    RunMore(w, steps, s);
    IssuedStays(v, s);
    hide Next, Run, TableMade, Made;
    TableMore(w, steps, s, v.issued, v.leaseFile, u.issued);
    TableMore(w, steps, s, v.issued, v.returned, u.issued);
    if u.statusFile == v.statusFile && v.statusFile.Some? { StatusMore(w, steps, s, v.issued, v.statusFile.value, u.issued); }
  }

  lemma FailedMade(w: World, steps: seq<Step>, s: Step, id: string, reported: bool)
    requires FilesMade(w, steps, Run(w, steps)) && Next(Run(w, steps), s) == Fail(Run(w, steps), id, reported)
    ensures AllMade(w, steps + [s])
  {
    RunMore(w, steps, s);
    hide Next, Run, FilesMade;
    FilesSame(w, steps, s);
  }

  lemma OutsideMade(w: World, steps: seq<Step>, s: Step)
    requires AllMade(w, steps) && (s.Tick? || s.Ask? || s.GiveUp?)
    ensures AllMade(w, steps + [s])
  {
    hide Run, HelperMade, FilesMade;
    FilesSame(w, steps, s);
    HelperMore(w, steps, s);
  }

  lemma PollMade(w: World, steps: seq<Step>, id: string)
    requires AllMade(w, steps)
    ensures AllMade(w, steps + [Poll(id)])
  {
    var s := Poll(id);
    var v, u := Run(w, steps), Next(Run(w, steps), s);
    hide Run, HelperMade, FilesMade, Next;
    PollReturns(v, id);
    HelperMore(w, steps, s);
    PollFilesMade(w, steps, id);
  }

  lemma PollFilesMade(w: World, steps: seq<Step>, id: string)
    requires FilesMade(w, steps, Run(w, steps))
    ensures FilesMade(w, steps + [Poll(id)], Run(w, steps + [Poll(id)]))
  {
    var s := Poll(id);
    var v, u := Run(w, steps), Next(Run(w, steps), s);
    PollReturns(v, id);
    RunMore(w, steps, s);
    IssuedStays(v, s);
    hide Run, Made, Next, TableMade;
    TableMore(w, steps, s, v.issued, v.leaseFile, u.issued);
    TableMore(w, steps, s, v.issued, v.returned, u.issued);
    if v.statusFile.Some? {
      StatusMore(w, steps, s, v.issued, v.statusFile.value, u.issued);
      if u.returned != v.returned { OneMoreMade(w, steps + [s], u.issued, v.returned, id, v.statusFile.value.lease); }
    }
  }

  lemma OneMoreMade(w: World, steps: seq<Step>, issued: map<string, Request>, leases: map<string, Lease>, id: string, l: Lease)
    requires TableMade(w, steps, issued, leases) && id in issued && Made(w, steps, issued[id], l)
    ensures TableMade(w, steps, issued, leases[id := l])
  {
    hide Made;
  }

  lemma PollReturns(v: World, id: string)
    ensures var u := Next(v, Poll(id));
            && u.leaseFile == v.leaseFile && u.statusFile == v.statusFile && u.helper == v.helper
            && (u.returned == v.returned
                || (v.statusFile.Some? && v.statusFile.value.Ready? && v.statusFile.value.id == id
                    && u.returned == v.returned[id := v.statusFile.value.lease]))
  {
  }

  lemma IdleMade(w: World, steps: seq<Step>, s: Step)
    requires AllMade(w, steps) && (s.HelperStart? || s.HelperCrash?)
    ensures AllMade(w, steps + [s])
  {
    RunMore(w, steps, s);
    hide Run, FilesMade;
    FilesSame(w, steps, s);
    var v := Run(w, steps);
    if Next(v, s).helper == v.helper { hide HelperMade; HelperMore(w, steps, s); }
  }

  lemma ValidateStepMade(w: World, steps: seq<Step>, deviceOk: bool, reported: bool)
    requires AllMade(w, steps)
    ensures AllMade(w, steps + [HelperValidate(deviceOk, reported)])
  {
    var s := HelperValidate(deviceOk, reported);
    var v := Run(w, steps);
    hide Run, FilesMade, Validate, HasValidated;
    RunMore(w, steps, s);
    if !v.helper.HasRequest? {
      hide HelperMade;
      FilesSame(w, steps, s);
      HelperMore(w, steps, s);
    } else if Validate(v.helper.request, deviceOk) {
      FilesSame(w, steps, s);
      ValidateMade(w, steps, deviceOk, reported, v.helper.request);
    } else {
      FailedMade(w, steps, s, v.helper.request.id, reported);
    }
  }

  lemma LoadStepMade(w: World, steps: seq<Step>, readable: bool, reported: bool)
    requires AllMade(w, steps)
    ensures AllMade(w, steps + [HelperLoad(readable, reported)])
  {
    var s := HelperLoad(readable, reported);
    var v := Run(w, steps);
    if v.helper.Validated? {
      LoadedFrom(w, steps, v.helper.request, readable, reported);
    } else {
      hide HelperMade, FilesMade, Run;
      FilesSame(w, steps, s);
      HelperMore(w, steps, s);
    }
  }

  lemma LoadedFrom(w: World, steps: seq<Step>, r: Request, readable: bool, reported: bool)
    requires AllMade(w, steps) && Run(w, steps).helper == Validated(r)
    ensures AllMade(w, steps + [HelperLoad(readable, reported)])
  {
    var s := HelperLoad(readable, reported);
    var v, u := Run(w, steps), Next(Run(w, steps), s);
    hide Run, Made, HasValidated, HasLoaded, Next, Purged, Fail, FilesMade, TableMade;
    LoadResults(v, r, readable, reported);
    var kept := Purged(if readable then v.leaseFile else map[], v.clock);
    if u == Fail(v, r.id, reported) {
      FailedMade(w, steps, s, r.id, reported);
    } else {
      FilesSame(w, steps, s);
      RunMore(w, steps, s);
      KeptMade(w, steps, s, kept);
      if u.helper.Loaded? {
        var t :| HasValidated(w, steps, r, t);
        LoadMade(w, steps, s, r, t);
      } else if u.helper.Finishing? {
        TableAt(w, steps + [s], u.issued, kept, r.id);
      }
    }
  }

  lemma KeptMade(w: World, steps: seq<Step>, s: Step, kept: map<string, Lease>)
    requires FilesMade(w, steps, Run(w, steps))
    requires forall id :: id in kept ==> id in Run(w, steps).leaseFile && kept[id] == Run(w, steps).leaseFile[id]
    ensures TableMade(w, steps + [s], Next(Run(w, steps), s).issued, kept)
  {
    var v := Run(w, steps);
    IssuedStays(v, s);
    hide Run, Made, Next;
    assert TableMade(w, steps, v.issued, kept);
    TableMore(w, steps, s, v.issued, kept, Next(v, s).issued);
  }

  lemma TableAt(w: World, steps: seq<Step>, issued: map<string, Request>, leases: map<string, Lease>, id: string)
    requires TableMade(w, steps, issued, leases) && id in leases
    ensures id in issued && Made(w, steps, issued[id], leases[id])
  {
  }

  lemma LoadResults(v: World, r: Request, readable: bool, reported: bool)
    requires v.helper == Validated(r)
    ensures var u, leases := Next(v, HelperLoad(readable, reported)), if readable then v.leaseFile else map[];
            var kept := Purged(leases, v.clock);
            && (forall id :: id in kept ==> id in v.leaseFile && kept[id] == v.leaseFile[id])
            && (u == Fail(v, r.id, reported)
                || (u == v.(helper := u.helper)
                    && (u.helper.Deleting? || u.helper == Loaded(r, kept, v.clock)
                        || (r.id in kept && u.helper == Finishing(kept, Ready(r.id, kept[r.id]))))))
  {
  }

  lemma ProbeStepMade(w: World, steps: seq<Step>, commands: bool, free: bool, reported: bool)
    requires AllMade(w, steps)
    ensures AllMade(w, steps + [HelperProbe(commands, free, reported)])
  {
    var s := HelperProbe(commands, free, reported);
    var v := Run(w, steps);
    hide Run, FilesMade, Made, HasLoaded, HasProbed, TableMade;
    RunMore(w, steps, s);
    if !v.helper.Loaded? {
      hide HelperMade;
      FilesSame(w, steps, s);
      HelperMore(w, steps, s);
    } else if commands && free {
      var r := v.helper.request;
      FilesSame(w, steps, s);
      IssuedStays(v, s);
      TableMore(w, steps, s, v.issued, v.helper.leases, Next(v, s).issued);
      var t :| HasLoaded(w, steps, r, t, v.helper.now);
      ProbeMade(w, steps, s, r, t, v.helper.now);
    } else {
      FailedMade(w, steps, s, v.helper.request.id, reported);
    }
  }

  lemma AddStepMade(w: World, steps: seq<Step>, outcome: AddOutcome, reported: bool)
    requires AllMade(w, steps) && GoodHelper(Run(w, steps))
    ensures AllMade(w, steps + [HelperAdd(outcome, reported)])
  {
    var s := HelperAdd(outcome, reported);
    var v := Run(w, steps);
    if v.helper.Probed? {
      assert GoodRequest(v, v.helper.request);
      AddedFrom(w, steps, v.helper.request, v.helper.leases, v.helper.now, outcome, reported);
    } else {
      hide HelperMade, FilesMade, Run, GoodHelper;
      FilesSame(w, steps, s);
      HelperMore(w, steps, s);
    }
  }

  lemma AddedFrom(w: World, steps: seq<Step>, r: Request, leases: map<string, Lease>, now: int, outcome: AddOutcome, reported: bool)
    requires AllMade(w, steps) && Run(w, steps).helper == Probed(r, leases, now) && GoodRequest(Run(w, steps), r)
    ensures AllMade(w, steps + [HelperAdd(outcome, reported)])
  {
    var s := HelperAdd(outcome, reported);
    var v, u := Run(w, steps), Next(Run(w, steps), s);
    hide Run, FilesMade, Made, HasProbed, Next, TableMade;
    AddResults(v, r, leases, now, outcome, reported);
    FilesSame(w, steps, s);
    RunMore(w, steps, s);
    if u.helper.Finishing? {
      IssuedStays(v, s);
      TableMore(w, steps, s, v.issued, leases, u.issued);
      var t :| HasProbed(w, steps, r, t, now);
      AddMade(w, steps, s, r, t, now);
      OneMoreMade(w, steps + [s], u.issued, leases, r.id, Lease(KeyOf(r), now + r.ttlSeconds));
    }
  }

  lemma AddResults(v: World, r: Request, leases: map<string, Lease>, now: int, outcome: AddOutcome, reported: bool)
    requires v.helper == Probed(r, leases, now)
    ensures var u, lease := Next(v, HelperAdd(outcome, reported)), Lease(KeyOf(r), now + r.ttlSeconds);
            && u.leaseFile == v.leaseFile && u.returned == v.returned
            && (u.statusFile == v.statusFile || (u.statusFile.Some? && u.statusFile.value.Failure?))
            && (u.helper == Idle || (outcome == Added && u.helper == Finishing(leases[r.id := lease], Ready(r.id, lease))))
  {
  }

  lemma SaveStepMade(w: World, steps: seq<Step>, written: bool)
    requires AllMade(w, steps)
    ensures AllMade(w, steps + [HelperSave(written)])
  {
    var s := HelperSave(written);
    var v := Run(w, steps);
    RunMore(w, steps, s);
    IssuedStays(v, s);
    if v.helper.Finishing? && written {
      hide Run, Made, TableMade;
      var u := Next(v, s);
      TableMore(w, steps, s, v.issued, v.helper.leases, u.issued);
      TableMore(w, steps, s, v.issued, v.returned, u.issued);
      StatusMore(w, steps, s, v.issued, v.helper.status, u.issued);
      if v.statusFile.Some? { StatusMore(w, steps, s, v.issued, v.statusFile.value, u.issued); }
    } else {
      hide Run, FilesMade;
      FilesSame(w, steps, s);
      if !v.helper.Finishing? { hide HelperMade; HelperMore(w, steps, s); }
    }
  }

  lemma ReportStepMade(w: World, steps: seq<Step>, written: bool)
    requires AllMade(w, steps)
    ensures AllMade(w, steps + [HelperReport(written)])
  {
    var s := HelperReport(written);
    var v := Run(w, steps);
    RunMore(w, steps, s);
    IssuedStays(v, s);
    if v.helper.Persisted? && written {
      hide Run, Made, TableMade;
      var u := Next(v, s);
      TableMore(w, steps, s, v.issued, v.leaseFile, u.issued);
      TableMore(w, steps, s, v.issued, v.returned, u.issued);
      StatusMore(w, steps, s, v.issued, v.helper.status, u.issued);
    } else {
      hide Run, FilesMade;
      FilesSame(w, steps, s);
      if !v.helper.Persisted? { hide HelperMade; HelperMore(w, steps, s); }
    }
  }

  lemma StepMade(w: World, steps: seq<Step>, s: Step)
    requires AllMade(w, steps) && GoodHelper(Run(w, steps))
    ensures AllMade(w, steps + [s])
  {
    hide AllMade, GoodHelper;
    match s
    case Tick(_) => OutsideMade(w, steps, s);
    case Ask(_) => OutsideMade(w, steps, s);
    case GiveUp(_) => OutsideMade(w, steps, s);
    case Poll(id) => PollMade(w, steps, id);
    case HelperStart => IdleMade(w, steps, s);
    case HelperCrash => IdleMade(w, steps, s);
    case HelperValidate(a, b) => ValidateStepMade(w, steps, a, b);
    case HelperLoad(a, b) => LoadStepMade(w, steps, a, b);
    case HelperProbe(a, b, c) => ProbeStepMade(w, steps, a, b, c);
    case HelperAdd(a, b) => AddStepMade(w, steps, a, b);
    case HelperSave(a) => SaveStepMade(w, steps, a);
    case HelperReport(a) => ReportStepMade(w, steps, a);
  }

  lemma {:induction false} RunMade(w: World, steps: seq<Step>)
    requires Init(w)
    ensures AllMade(w, steps)
  {
    hide AllMade, Run, Init;
    if steps == [] {
      assert AllMade(w, []) by { StartMade(w); }
    } else {
      var init, s := steps[..|steps| - 1], steps[|steps| - 1];
      RunMade(w, init);
      HelperIsGood(w, init);
      StepMade(w, init, s);
      assert steps == init + [s];
    }
  }

  lemma StartMade(w: World)
    requires Init(w)
    ensures AllMade(w, [])
  {
  }

  lemma HelperIsGood(w: World, steps: seq<Step>)
    requires Init(w)
    ensures GoodHelper(Run(w, steps))
  {
    hide Run, GoodHelper;
    InitInv(w);
    RunInv(w, steps);
  }

  /** In every interleaving, from the start, each lease that was returned or that is in
      the lease file was made for the call with its id in one unbroken helper run: the
      call's request passed every check with the interface as it was found, then the
      leases were loaded, then the probe found the address free, then the address was
      added; and it lasts the requested time from when the leases were loaded. */
  lemma LeasesAreMade(w: World, steps: seq<Step>)
    requires Init(w)
    ensures var v := Run(w, steps);
            && (forall id :: id in v.returned ==> id in v.issued && Made(w, steps, v.issued[id], v.returned[id]))
            && (forall id :: id in v.leaseFile ==> id in v.issued && Made(w, steps, v.issued[id], v.leaseFile[id]))
  {
    hide Run, Made;
    RunMade(w, steps);
  }

  // -------------------------------------------------------------------- a conflict

  /** A probe that found the address in use, or could not be run, ends the helper run:
      nothing is added or written to the lease file, and the failure is reported if its
      write succeeds. */
  lemma ConflictEndsRun(w: World, commands: bool, free: bool, reported: bool)
    requires w.helper.Loaded? && !(commands && free)
    ensures var v := Next(w, HelperProbe(commands, free, reported));
            && v.helper == Idle && v.kernel == w.kernel && v.leaseFile == w.leaseFile && v.deeds == w.deeds
            && (reported ==> v.statusFile == Some(Failure(w.helper.request.id)))
            && (!reported ==> v.statusFile == w.statusFile)
  {
  }

  /** It is the helper's turn to do s, for r. */
  predicate Turn(w: World, s: Step, r: Request) {
    match s
    case HelperValidate(_, _) => w.helper == HasRequest(r)
    case HelperLoad(_, _) => w.helper == Validated(r)
    case HelperProbe(_, _, _) => w.helper.Loaded? && w.helper.request == r
    case HelperAdd(_, _) => w.helper.Probed? && w.helper.request == r
    case _ => false
  }

  /** An unexpired lease is in the file under this id. */
  predicate Held(w: World, id: string) {
    id in w.leaseFile && w.leaseFile[id].expires > w.clock
  }

  /** A step goes on if and only if the checks hold; no held lease stands against the
      request, which is no removal of a lease that is not held; the probe ran and found
      nobody; the address was added and no earlier one of that kind was still alive. */
  predicate GoesOn(w: World, s: Step, r: Request) {
    match s
    case HelperValidate(deviceOk, _) => Validate(r, deviceOk)
    case HelperLoad(readable, _) =>
      if readable && Held(w, r.id) then w.leaseFile[r.id].key == KeyOf(r) else r.operation != Remove
    case HelperProbe(commands, free, _) => commands && free
    case HelperAdd(outcome, _) => outcome == Added && !Live(w, KeyOf(r))
    case _ => false
  }

  /** From w to v the helper went on, or it gave up and reported that to the call if it
      could; the files and the calls are otherwise as they were. */
  predicate WentOn(w: World, v: World, goes: bool, id: string, reported: bool) {
    && (v.helper != Idle <==> goes)
    && v.leaseFile == w.leaseFile && v.returned == w.returned && v.waiting == w.waiting
    && v.statusFile == if !goes && reported then Some(Failure(id)) else w.statusFile
  }

  /** A step that does not go on ends the helper run.  The failure is reported to the
      call if its write succeeds, the lease file stays, and only an add changes the
      kernel. */
  lemma RefusalIsReported(w: World, s: Step, r: Request)
    requires Turn(w, s, r)
    ensures WentOn(w, Next(w, s), GoesOn(w, s, r), r.id, s.reported)
    ensures !s.HelperAdd? ==> Next(w, s).kernel == w.kernel
  {
    hide Next, WentOn, GoesOn;
    match s
    case HelperValidate(deviceOk, reported) => ValidateGoesOn(w, r, deviceOk, reported);
    case HelperLoad(readable, reported) =>
      LoadIsStep(w, r, readable, reported);
      LoadGoesOn(w, r, readable, reported);
    case HelperProbe(commands, free, reported) => ProbeGoesOn(w, r, commands, free, reported);
    case HelperAdd(outcome, reported) => AddGoesOn(w, r, outcome, reported);
    case _ =>
  }

  lemma FailEnds(w: World, id: string, reported: bool)
    ensures WentOn(w, Fail(w, id, reported), false, id, reported) && Fail(w, id, reported).kernel == w.kernel
  {
  }

  lemma ValidateGoesOn(w: World, r: Request, deviceOk: bool, reported: bool)
    requires w.helper == HasRequest(r)
    ensures var s := HelperValidate(deviceOk, reported);
            WentOn(w, Next(w, s), GoesOn(w, s, r), r.id, reported) && Next(w, s).kernel == w.kernel
  {
    hide Validate, Fail;
    FailEnds(w, r.id, reported);
  }

  lemma LoadGoesOn(w: World, r: Request, readable: bool, reported: bool)
    ensures var v := LoadStep(w, r, readable, reported);
            WentOn(w, v, GoesOn(w, HelperLoad(readable, reported), r), r.id, reported) && v.kernel == w.kernel
  {
    var kept := Purged(if readable then w.leaseFile else map[], w.clock);
    assert r.id in kept <==> readable && Held(w, r.id);
    assert r.id in kept ==> kept[r.id] == w.leaseFile[r.id];
    FailEnds(w, r.id, reported);
    hide Purged, Fail, Held, WentOn;
    var goes := if r.id in kept then kept[r.id].key == KeyOf(r) else r.operation != Remove;
    assert goes == GoesOn(w, HelperLoad(readable, reported), r);
    hide GoesOn;
    var v := LoadStep(w, r, readable, reported);
    if goes {
      assert v == w.(helper := v.helper) && v.helper != Idle;
      hide LoadStep;
      JustHelper(w, v, r.id, reported);
    } else {
      assert v == Fail(w, r.id, reported);
    }
  }

  lemma JustHelper(w: World, v: World, id: string, reported: bool)
    requires v == w.(helper := v.helper) && v.helper != Idle
    ensures WentOn(w, v, true, id, reported) && v.kernel == w.kernel
  {
  }

  lemma ProbeGoesOn(w: World, r: Request, commands: bool, free: bool, reported: bool)
    requires w.helper.Loaded? && w.helper.request == r
    ensures var s := HelperProbe(commands, free, reported);
            WentOn(w, Next(w, s), GoesOn(w, s, r), r.id, reported) && Next(w, s).kernel == w.kernel
  {
    hide Fail;
    FailEnds(w, r.id, reported);
  }

  lemma AddGoesOn(w: World, r: Request, outcome: AddOutcome, reported: bool)
    requires w.helper.Probed? && w.helper.request == r
    ensures var s := HelperAdd(outcome, reported); WentOn(w, Next(w, s), GoesOn(w, s, r), r.id, reported)
  {
  }

  /** A call whose lease is held is answered with it: the address is not added again,
      the lease is not extended, and what has expired leaves the file. */
  lemma RepeatIsAnswered(w: World, r: Request)
    requires w.helper == Validated(r) && Held(w, r.id) && w.leaseFile[r.id].key == KeyOf(r)
    ensures var v := Run(w, [HelperLoad(true, true), HelperSave(true), HelperReport(true)]);
            && v.statusFile == Some(Ready(r.id, w.leaseFile[r.id])) && v.kernel == w.kernel && v.helper == Idle
            && forall id :: (id in v.leaseFile <==> Held(w, id)) && (Held(w, id) ==> v.leaseFile[id] == w.leaseFile[id])
  {
    var kept := Purged(w.leaseFile, w.clock);
    var loaded := LoadStep(w, r, true, true);
    assert loaded == w.(helper := Finishing(kept, Ready(r.id, w.leaseFile[r.id]))) by { hide Next, Run; }
    LoadIsStep(w, r, true, true);
    KeptAreHeld(w);
    hide LoadStep, Purged, Run, AddStep, PollStep, Fail, Validate, Held;
    SaveThenReport(loaded, kept, Ready(r.id, w.leaseFile[r.id]));
    hide Next;
    assert [HelperLoad(true, true), HelperSave(true), HelperReport(true)]
        == [HelperLoad(true, true)] + ([HelperSave(true)] + ([HelperReport(true)] + []));
    RunOne(w, HelperLoad(true, true), [HelperSave(true)] + ([HelperReport(true)] + []));
    RunOne(loaded, HelperSave(true), [HelperReport(true)] + []);
    RunOne(Next(loaded, HelperSave(true)), HelperReport(true), []);
    EmptyRun(Next(Next(loaded, HelperSave(true)), HelperReport(true)));
  }

  lemma SaveThenReport(w: World, leases: map<string, Lease>, s: Status)
    requires w.helper == Finishing(leases, s)
    ensures var v := Next(Next(w, HelperSave(true)), HelperReport(true));
            v.statusFile == Some(s) && v.leaseFile == leases && v.kernel == w.kernel && v.helper == Idle
  {
    hide LoadStep, AddStep, PollStep, Fail, Validate;
  }

  lemma EmptyRun(w: World)
    ensures Run(w, []) == w
  {
  }

  lemma KeptAreHeld(w: World)
    ensures var kept := Purged(w.leaseFile, w.clock);
            forall id :: (id in kept <==> Held(w, id)) && (Held(w, id) ==> kept[id] == w.leaseFile[id])
  {
  }

  /** An idle helper does nothing until it is started again. */
  lemma {:induction false} IdleAddsNothing(w: World, steps: seq<Step>)
    requires w.helper == Idle && forall i :: 0 <= i < |steps| ==> !steps[i].HelperStart?
    ensures var v := Run(w, steps); v.helper == Idle && v.kernel == w.kernel && v.leaseFile == w.leaseFile && v.deeds == w.deeds
    decreases |steps|
  {
    if steps != [] {
      IdleStep(w, steps[0]);
      hide Next;
      IdleAddsNothing(Next(w, steps[0]), steps[1..]);
    }
  }

  lemma IdleStep(w: World, s: Step)
    requires w.helper == Idle && !s.HelperStart?
    ensures var v := Next(w, s); v.helper == Idle && v.kernel == w.kernel && v.leaseFile == w.leaseFile && v.deeds == w.deeds
  {
  }

  // ------------------------------------------------------------ how long a lease stays

  /** The helper holds every unexpired lease of the file, and none under the id of the
      request it is about to add. */
  ghost predicate HoldsLeases(w: World) {
    match w.helper
    case Loaded(r, leases, _) => r.id !in leases && Covers(leases, w)
    case Probed(r, leases, _) => r.id !in leases && Covers(leases, w)
    case Finishing(leases, _) => Covers(leases, w)
    case _ => true
  }

  ghost predicate Covers(leases: map<string, Lease>, w: World) {
    forall id :: id in w.leaseFile && w.leaseFile[id].expires > w.clock ==> id in leases && leases[id] == w.leaseFile[id]
  }

  /** The lease file could be read. */
  predicate Readable(s: Step) {
    s.HelperLoad? ==> s.readable
  }

  ghost predicate LeasesKept(w: World, v: World) {
    forall id :: id in w.leaseFile && w.leaseFile[id].expires > w.clock ==> id in v.leaseFile && v.leaseFile[id] == w.leaseFile[id]
  }

  lemma StepHolds(w: World, s: Step)
    requires HoldsLeases(w) && Readable(s) && !w.helper.Deleting?
    ensures HoldsLeases(Next(w, s)) && LeasesKept(w, Next(w, s))
  {
    ClockMoves(w, s);
    match s
    case Tick(_) => hide Next; HoldsSame(w, s);
    case Ask(r) => hide Next; HoldsSame(w, s);
    case Poll(id) => PollGrows(w, id); PollReturns(w, id); hide Next; HoldsSame(w, s);
    case GiveUp(_) => hide Next; HoldsSame(w, s);
    case HelperStart => StartsHolding(w);
    case HelperCrash =>
    case HelperValidate(a, b) => ValidateHolds(w, a, b);
    case HelperLoad(a, b) => LoadHolds(w, a, b);
    case HelperProbe(a, b, c) => ProbeHolds(w, a, b, c);
    case HelperAdd(a, b) => AddHolds(w, a, b);
    case HelperSave(a) => SaveHolds(w, a);
    case HelperReport(a) => ReportHolds(w, a);
  }

  lemma HoldsSame(w: World, s: Step)
    requires HoldsLeases(w) && (s.Tick? || s.Ask? || s.Poll? || s.GiveUp?)
    ensures HoldsLeases(Next(w, s)) && LeasesKept(w, Next(w, s))
  {
    OutsideOnly(w, s);
    hide Next;
  }

  lemma OutsideOnly(w: World, s: Step)
    requires s.Tick? || s.Ask? || s.Poll? || s.GiveUp?
    ensures Next(w, s).helper == w.helper && Next(w, s).leaseFile == w.leaseFile && Next(w, s).clock >= w.clock
  {
  }

  lemma StartsHolding(w: World)
    requires HoldsLeases(w)
    ensures HoldsLeases(Next(w, HelperStart)) && LeasesKept(w, Next(w, HelperStart))
  {
  }

  lemma ValidateHolds(w: World, deviceOk: bool, reported: bool)
    requires HoldsLeases(w)
    ensures HoldsLeases(Next(w, HelperValidate(deviceOk, reported))) && LeasesKept(w, Next(w, HelperValidate(deviceOk, reported)))
  {
    hide Validate;
  }

  lemma LoadHolds(w: World, readable: bool, reported: bool)
    requires HoldsLeases(w) && readable
    ensures HoldsLeases(Next(w, HelperLoad(readable, reported))) && LeasesKept(w, Next(w, HelperLoad(readable, reported)))
  {
    if w.helper.Validated? {
      var r := w.helper.request;
      LoadResults(w, r, readable, reported);
      if r.id in Purged(w.leaseFile, w.clock) { LoadMisses(w, r, reported); }
      hide Next;
    }
  }

  /** A request whose lease is still in the file is not loaded for an add. */
  lemma LoadMisses(w: World, r: Request, reported: bool)
    requires w.helper == Validated(r) && r.id in Purged(w.leaseFile, w.clock)
    ensures !Next(w, HelperLoad(true, reported)).helper.Loaded?
  {
    hide LoadStep, Next, Purged;
    LoadIsStep(w, r, true, reported);
    LoadStepMisses(w, r, reported, Purged(w.leaseFile, w.clock));
  }

  lemma LoadIsStep(w: World, r: Request, readable: bool, reported: bool)
    requires w.helper == Validated(r)
    ensures Next(w, HelperLoad(readable, reported)) == LoadStep(w, r, readable, reported)
  {
    hide LoadStep;
  }

  lemma LoadStepMisses(w: World, r: Request, reported: bool, kept: map<string, Lease>)
    requires kept == Purged(w.leaseFile, w.clock) && r.id in kept
    ensures !LoadStep(w, r, true, reported).helper.Loaded?
  {
    PurgedLive(w.leaseFile, w.clock);
    hide Purged;
  }

  lemma PurgedLive(leases: map<string, Lease>, now: int)
    ensures forall id :: id in Purged(leases, now) ==> Purged(leases, now)[id].expires > now
  {
  }

  lemma ProbeHolds(w: World, commands: bool, free: bool, reported: bool)
    requires HoldsLeases(w)
    ensures HoldsLeases(Next(w, HelperProbe(commands, free, reported))) && LeasesKept(w, Next(w, HelperProbe(commands, free, reported)))
  {
  }

  lemma AddHolds(w: World, outcome: AddOutcome, reported: bool)
    requires HoldsLeases(w)
    ensures HoldsLeases(Next(w, HelperAdd(outcome, reported))) && LeasesKept(w, Next(w, HelperAdd(outcome, reported)))
  {
    if w.helper.Probed? {
      AddResults(w, w.helper.request, w.helper.leases, w.helper.now, outcome, reported);
      hide Next;
    }
  }

  lemma SaveHolds(w: World, written: bool)
    requires HoldsLeases(w)
    ensures HoldsLeases(Next(w, HelperSave(written))) && LeasesKept(w, Next(w, HelperSave(written)))
  {
  }

  lemma ReportHolds(w: World, written: bool)
    requires HoldsLeases(w)
    ensures HoldsLeases(Next(w, HelperReport(written))) && LeasesKept(w, Next(w, HelperReport(written)))
  {
  }

  lemma ClockMoves(w: World, s: Step)
    ensures Next(w, s).clock >= w.clock
  {
    hide Validate, LoadStep, AddStep, PollStep, Fail;
  }

  /** An unexpired lease in the file stays there, unchanged, over every run in which the
      file could be read when it was loaded. */
  lemma {:induction false} LeaseStays(w: World, steps: seq<Step>, id: string)
    requires Inv(w) && HoldsLeases(w) && forall i :: 0 <= i < |steps| ==> Readable(steps[i])
    requires id in w.leaseFile && w.leaseFile[id].expires > Run(w, steps).clock
    ensures id in Run(w, steps).leaseFile && Run(w, steps).leaseFile[id] == w.leaseFile[id]
    decreases |steps|
  {
    if steps != [] {
      hide Inv, HoldsLeases, Next, LeasesKept, Readable;
      var v, rest := Next(w, steps[0]), steps[1..];
      assert Run(w, steps) == Run(v, rest);
      hide Run;
      NotDeleting(w);
      RunMovesClock(v, rest);
      ClockMoves(w, steps[0]);
      StepHolds(w, steps[0]);
      NextInv(w, steps[0]);
      KeptOne(w, v, id);
      LeaseStays(v, rest, id);
    }
  }

  lemma KeptOne(w: World, v: World, id: string)
    requires LeasesKept(w, v) && id in w.leaseFile && w.leaseFile[id].expires > w.clock
    ensures id in v.leaseFile && v.leaseFile[id] == w.leaseFile[id]
  {
  }

  lemma NotDeleting(w: World)
    requires Inv(w)
    ensures !w.helper.Deleting?
  {
    hide GoodFiles, GoodReturns, AllJustified;
  }

  lemma {:induction false} RunMovesClock(w: World, steps: seq<Step>)
    ensures Run(w, steps).clock >= w.clock
    decreases |steps|
  {
    if steps != [] {
      hide Next;
      ClockMoves(w, steps[0]);
      RunMovesClock(Next(w, steps[0]), steps[1..]);
    }
  }
}
