/** Camera web proxies of internal/cameraproxy/manager.go.  A session object is known
    by a number that is never reused; timers are pending callbacks that carry the
    expiry they were armed with and run no earlier than it. */
module ProxyManager {

  type Camera = string
  type Id = nat

  datatype Server = Serving | Closing | Stopped

  datatype Session = Session(camera: Camera, target: string, expiresAt: int, server: Server)

  /** m.stop(camera, expected, expiresAt), armed or waiting for the lock. */
  datatype Callback = Callback(camera: Camera, expected: Id, expiresAt: int)

  datatype TimedOut = TimedOut(at: int, promised: int)

  datatype State = State(
    clock: int,
    ttl: nat,
    closed: bool,
    sessions: map<Camera, Id>,
    all: map<Id, Session>,
    timers: multiset<Callback>,
    exiting: set<Id>,
    timedOut: map<Id, TimedOut>)

  datatype Op =
    | Tick(elapsed: nat)
    | Start(camera: Camera, target: string, inTime: bool, listens: bool, newId: Id)
    | Fire(callback: Callback)
    | ServerClosed(id: Id)
    | ServeReturns(id: Id)
    | Remove(id: Id)
    | Close(stopped: set<Callback>)

  function SetServer(all: map<Id, Session>, id: Id, server: Server): map<Id, Session>
    requires id in all
  {
    all[id := all[id].(server := server)]
  }

  /** time.Timer.Stop on the timer the session armed last. */
  function StopTimer(s: State, id: Id, inTime: bool): multiset<Callback>
    requires id in s.all
  {
    if inTime then s.timers - multiset{Callback(s.all[id].camera, id, s.all[id].expiresAt)} else s.timers
  }

  /** Lines 141-148: the same target is renewed. */
  function Renew(s: State, id: Id, inTime: bool): State
    requires id in s.all
  {
    var expiresAt := s.clock + s.ttl;
    s.(all := s.all[id := s.all[id].(expiresAt := expiresAt)],
       timers := StopTimer(s, id, inTime) + multiset{Callback(s.all[id].camera, id, expiresAt)})
  }

  /** Lines 149-151: another target replaces the session. */
  function Drop(s: State, camera: Camera, id: Id, inTime: bool): State
    requires id in s.all
  {
    s.(sessions := s.sessions - {camera}, timers := StopTimer(s, id, inTime), all := SetServer(s.all, id, Closing))
  }

  /** Lines 154-188. */
  function Create(s: State, camera: Camera, target: string, newId: Id): State {
    var expiresAt := s.clock + s.ttl;
    s.(all := s.all[newId := Session(camera, target, expiresAt, Serving)],
       sessions := s.sessions[camera := newId],
       timers := s.timers + multiset{Callback(camera, newId, expiresAt)})
  }

  function StartStep(s: State, camera: Camera, target: string, inTime: bool, listens: bool, newId: Id): State {
    if s.closed || newId in s.all then s
    else if camera in s.sessions && s.sessions[camera] in s.all && s.all[s.sessions[camera]].target == target then
      Renew(s, s.sessions[camera], inTime)
    else
      var dropped := if camera in s.sessions && s.sessions[camera] in s.all then Drop(s, camera, s.sessions[camera], inTime) else s;
      if listens then Create(dropped, camera, target, newId) else dropped
  }

  /** The callback's session is still the camera's, with the expiry it was armed for. */
  predicate Matches(s: State, c: Callback) {
    c.camera in s.sessions && s.sessions[c.camera] == c.expected && c.expected in s.all && s.all[c.expected].expiresAt == c.expiresAt
  }

  /** m.stop. */
  function FireStep(s: State, c: Callback): State {
    if c !in s.timers || s.clock < c.expiresAt then s
    else
      var fired := s.(timers := s.timers - multiset{c});
      if !Matches(s, c) then fired
      else
        fired.(sessions := s.sessions - {c.camera}, all := SetServer(s.all, c.expected, Closing),
               timedOut := s.timedOut[c.expected := TimedOut(s.clock, s.all[c.expected].expiresAt)])
  }

  /** m.remove, run by the serving goroutine after Serve has returned. */
  function RemoveStep(s: State, id: Id): State {
    if id !in s.exiting || id !in s.all then s
    else
      var done := s.(exiting := s.exiting - {id});
      var camera := s.all[id].camera;
      if camera in s.sessions && s.sessions[camera] == id then done.(sessions := s.sessions - {camera}) else done
  }

  function CloseStep(s: State, stopped: set<Callback>): State {
    s.(closed := true, sessions := map[], timers := s.timers - multiset(stopped),
       all := map id | id in s.all :: if Current(s, id) then s.all[id].(server := Closing) else s.all[id])
  }

  predicate Current(s: State, id: Id) {
    id in s.all && s.all[id].camera in s.sessions && s.sessions[s.all[id].camera] == id
  }

  function Apply(s: State, op: Op): State {
    match op
    case Tick(elapsed) => s.(clock := s.clock + elapsed)
    case Start(camera, target, inTime, listens, newId) => StartStep(s, camera, target, inTime, listens, newId)
    case Fire(c) => FireStep(s, c)
    case ServerClosed(id) =>
      if id in s.all && s.all[id].server == Closing then s.(all := SetServer(s.all, id, Stopped)) else s
    case ServeReturns(id) =>
      if id in s.all then s.(all := SetServer(s.all, id, Stopped), exiting := s.exiting + {id}) else s
    case Remove(id) => RemoveStep(s, id)
    case Close(stopped) => CloseStep(s, stopped)
  }

  function Run(s: State, ops: seq<Op>): State
    decreases |ops|
  {
    if ops == [] then s else Run(Apply(s, ops[0]), ops[1..])
  }

  predicate Init(s: State) {
    !s.closed && s.sessions == map[] && s.all == map[] && s.timers == multiset{} && s.exiting == {} && s.timedOut == map[]
  }

  // --------------------------------------------------------------------- invariant

  /** The map holds each session under its own camera. */
  ghost predicate WellKept(s: State) {
    forall c :: c in s.sessions ==> s.sessions[c] in s.all && s.all[s.sessions[c]].camera == c
  }

  /** A server that is not the camera's current one is closing or has stopped. */
  ghost predicate NoneForgotten(s: State) {
    forall id :: id in s.all && s.all[id].server == Serving ==> Current(s, id)
  }

  /** Every tracked session has a callback for the expiry it promised last. */
  ghost predicate AllWillExpire(s: State) {
    forall id :: Current(s, id) ==> Callback(s.all[id].camera, id, s.all[id].expiresAt) in s.timers
  }

  /** A timeout came no earlier than the last promise, which nobody changed since. */
  ghost predicate TimeoutsOnTime(s: State) {
    forall id :: id in s.timedOut ==>
      && id in s.all && !Current(s, id)
      && s.timedOut[id].promised == s.all[id].expiresAt <= s.timedOut[id].at
  }

  ghost predicate Inv(s: State) {
    && WellKept(s) && NoneForgotten(s) && AllWillExpire(s) && TimeoutsOnTime(s)
    && (forall id :: id in s.exiting ==> id in s.all && s.all[id].server != Serving)
    && (s.closed ==> s.sessions == map[])
  }

  lemma RenewInv(s: State, id: Id, inTime: bool)
    requires Inv(s) && !s.closed && Current(s, id)
    ensures Inv(Renew(s, id, inTime))
  {
    var v := Renew(s, id, inTime);
    assert forall i :: Current(v, i) <==> Current(s, i);
    forall i | Current(v, i) ensures Callback(v.all[i].camera, i, v.all[i].expiresAt) in v.timers {
      if i != id { assert Callback(s.all[i].camera, i, s.all[i].expiresAt) in s.timers; }
    }
  }

  lemma DropInv(s: State, camera: Camera, id: Id, inTime: bool)
    requires Inv(s) && camera in s.sessions && s.sessions[camera] == id
    ensures Inv(Drop(s, camera, id, inTime)) && Drop(s, camera, id, inTime).all.Keys == s.all.Keys
  {
    var v := Drop(s, camera, id, inTime);
    assert forall i :: Current(v, i) <==> Current(s, i) && i != id;
    forall i | Current(v, i) ensures Callback(v.all[i].camera, i, v.all[i].expiresAt) in v.timers {
      assert Callback(s.all[i].camera, i, s.all[i].expiresAt) in s.timers;
    }
  }

  lemma CreateInv(s: State, camera: Camera, target: string, newId: Id)
    requires Inv(s) && !s.closed && camera !in s.sessions && newId !in s.all
    ensures Inv(Create(s, camera, target, newId))
  {
    hide AllWillExpire, TimeoutsOnTime, Current;
    CreateCurrents(s, camera, target, newId);
    CreateKeepsTimers(s, camera, target, newId);
    CreateIsOnTime(s, camera, target, newId);
  }

  lemma CreateCurrents(s: State, camera: Camera, target: string, newId: Id)
    requires WellKept(s) && camera !in s.sessions && newId !in s.all
    ensures forall i :: Current(Create(s, camera, target, newId), i) <==> Current(s, i) || i == newId
  {
  }

  lemma CreateKeepsTimers(s: State, camera: Camera, target: string, newId: Id)
    requires WellKept(s) && AllWillExpire(s) && camera !in s.sessions && newId !in s.all
    ensures AllWillExpire(Create(s, camera, target, newId))
  {
    CreateCurrents(s, camera, target, newId);
    var v := Create(s, camera, target, newId);
    forall i | Current(v, i) ensures Callback(v.all[i].camera, i, v.all[i].expiresAt) in v.timers {
      if i != newId { assert Callback(s.all[i].camera, i, s.all[i].expiresAt) in s.timers; }
    }
  }

  lemma CreateIsOnTime(s: State, camera: Camera, target: string, newId: Id)
    requires WellKept(s) && TimeoutsOnTime(s) && camera !in s.sessions && newId !in s.all
    ensures TimeoutsOnTime(Create(s, camera, target, newId))
  {
    hide Current;
    CreateCurrents(s, camera, target, newId);
  }

  lemma FireInv(s: State, c: Callback)
    requires Inv(s)
    ensures Inv(FireStep(s, c))
  {
    if c in s.timers && s.clock >= c.expiresAt {
      if Matches(s, c) { FireCurrent(s, c); } else { FireStale(s, c); }
    }
  }

  lemma FireCurrent(s: State, c: Callback)
    requires Inv(s) && c in s.timers && s.clock >= c.expiresAt && Matches(s, c)
    ensures Inv(FireStep(s, c))
  {
    hide AllWillExpire, TimeoutsOnTime, Current;
    FireKeepsTimers(s, c);
    FireIsOnTime(s, c);
    FireCurrents(s, c);
  }

  lemma FireCurrents(s: State, c: Callback)
    requires WellKept(s) && c in s.timers && s.clock >= c.expiresAt && Matches(s, c)
    ensures forall i :: Current(FireStep(s, c), i) <==> Current(s, i) && i != c.expected
  {
  }

  lemma FireKeepsTimers(s: State, c: Callback)
    requires WellKept(s) && AllWillExpire(s) && c in s.timers && s.clock >= c.expiresAt && Matches(s, c)
    ensures AllWillExpire(FireStep(s, c))
  {
    FireCurrents(s, c);
    var v := FireStep(s, c);
    forall i | Current(v, i) ensures Callback(v.all[i].camera, i, v.all[i].expiresAt) in v.timers {
      assert Callback(s.all[i].camera, i, s.all[i].expiresAt) in s.timers;
    }
  }

  lemma FireIsOnTime(s: State, c: Callback)
    requires WellKept(s) && TimeoutsOnTime(s) && c in s.timers && s.clock >= c.expiresAt && Matches(s, c)
    ensures TimeoutsOnTime(FireStep(s, c))
  {
    hide Current;
    FireCurrents(s, c);
  }

  lemma FireStale(s: State, c: Callback)
    requires Inv(s) && c in s.timers && s.clock >= c.expiresAt && !Matches(s, c)
    ensures Inv(FireStep(s, c))
  {
    var v := FireStep(s, c);
    assert forall i :: Current(v, i) <==> Current(s, i);
    forall i | Current(v, i) ensures Callback(v.all[i].camera, i, v.all[i].expiresAt) in v.timers {
      assert Callback(s.all[i].camera, i, s.all[i].expiresAt) in s.timers;
      assert Callback(s.all[i].camera, i, s.all[i].expiresAt) != c;
    }
  }

  lemma RemoveInv(s: State, id: Id)
    requires Inv(s)
    ensures Inv(RemoveStep(s, id))
  {
    var v := RemoveStep(s, id);
    if id in s.exiting && id in s.all && Current(s, id) {
      assert forall i :: Current(v, i) <==> Current(s, i) && i != id;
    } else {
      assert forall i :: Current(v, i) <==> Current(s, i);
    }
  }

  lemma CloseInv(s: State, stopped: set<Callback>)
    requires Inv(s)
    ensures Inv(CloseStep(s, stopped))
  {
    var v := CloseStep(s, stopped);
    assert forall i :: !Current(v, i);
    forall id | id in v.all ensures v.all[id].server != Serving {
      if !Current(s, id) { assert s.all[id].server != Serving; }
    }
  }

  /** Changes to one server that is not started again keep the invariant. */
  lemma ServerInv(s: State, id: Id, server: Server, exiting: set<Id>)
    requires Inv(s) && id in s.all && server != Serving && exiting <= s.exiting + {id}
    ensures Inv(s.(all := SetServer(s.all, id, server), exiting := exiting))
  {
    var v := s.(all := SetServer(s.all, id, server), exiting := exiting);
    assert forall i :: Current(v, i) <==> Current(s, i);
    forall i | Current(v, i) ensures Callback(v.all[i].camera, i, v.all[i].expiresAt) in v.timers {
      assert Callback(s.all[i].camera, i, s.all[i].expiresAt) in s.timers;
    }
  }

  lemma TickInv(s: State, elapsed: nat)
    requires Inv(s)
    ensures Inv(s.(clock := s.clock + elapsed))
  {
    var v := s.(clock := s.clock + elapsed);
    assert forall i :: Current(v, i) <==> Current(s, i);
  }

  lemma StartInv(s: State, camera: Camera, target: string, inTime: bool, listens: bool, newId: Id)
    requires Inv(s)
    ensures Inv(StartStep(s, camera, target, inTime, listens, newId))
  {
    if !s.closed && newId !in s.all {
      if camera in s.sessions {
        var id := s.sessions[camera];
        assert Current(s, id);
        if s.all[id].target == target {
          RenewInv(s, id, inTime);
        } else {
          DropInv(s, camera, id, inTime);
          if listens { CreateInv(Drop(s, camera, id, inTime), camera, target, newId); }
        }
      } else if listens {
        CreateInv(s, camera, target, newId);
      }
    }
  }

  lemma ApplyInv(s: State, op: Op)
    requires Inv(s)
    ensures Inv(Apply(s, op))
  {
    hide Inv;
    match op
    case Tick(elapsed) => TickInv(s, elapsed);
    case Start(camera, target, inTime, listens, newId) => StartInv(s, camera, target, inTime, listens, newId);
    case Fire(c) => FireInv(s, c);
    case ServerClosed(id) => if id in s.all { ServerInv(s, id, Stopped, s.exiting); }
    case ServeReturns(id) => if id in s.all { ServerInv(s, id, Stopped, s.exiting + {id}); }
    case Remove(id) => RemoveInv(s, id);
    case Close(stopped) => CloseInv(s, stopped);
  }

  /** In any interleaving of starts, renewals, replacements, late callbacks, serve-loop
      exits and a close: no session is timed out before its latest promised expiry;
      every session has a callback for that expiry; a camera's entry is its own; and
      every server that left the map is closing or has stopped. */
  lemma {:induction false} RunInv(s: State, ops: seq<Op>)
    requires Inv(s)
    ensures Inv(Run(s, ops))
    decreases |ops|
  {
    hide Inv, Apply;
    if ops != [] {
      ApplyInv(s, ops[0]);
      RunInv(Apply(s, ops[0]), ops[1..]);
    }
  }

  lemma InitInv(s: State)
    requires Init(s)
    ensures Inv(s)
  {
  }

  /** Said of every run of a new manager. */
  lemma ManagerSafety(s: State, ops: seq<Op>)
    requires Init(s)
    ensures var v := Run(s, ops);
            && (forall id :: id in v.timedOut ==> id in v.all && v.all[id].expiresAt == v.timedOut[id].promised <= v.timedOut[id].at)
            && (forall id :: id in v.all && !Current(v, id) ==> v.all[id].server != Serving)
            && (forall id :: Current(v, id) ==> Callback(v.all[id].camera, id, v.all[id].expiresAt) in v.timers)
            && (forall i, j :: Current(v, i) && Current(v, j) && v.all[i].camera == v.all[j].camera ==> i == j)
  {
    hide Run;
    InitInv(s);
    RunInv(s, ops);
  }

  /** In every run of a new manager a callback that fires changes the sessions or their
      servers if and only if it is due, its session is still the camera's, and the
      expiry it was armed for is the one promised last.  A callback of a replaced or
      renewed session changes neither. */
  lemma StaleCallbackIsHarmless(s: State, ops: seq<Op>, c: Callback)
    requires Init(s)
    ensures var v := Run(s, ops); var w := Apply(v, Fire(c));
            (w.sessions != v.sessions || w.all != v.all)
            <==> && c in v.timers && c.expiresAt <= v.clock
                 && Current(v, c.expected) && v.all[c.expected].camera == c.camera && v.all[c.expected].expiresAt == c.expiresAt
  {
    hide Run;
    InitInv(s);
    RunInv(s, ops);
    var v := Run(s, ops);
    FiredChanges(v, c);
  }

  lemma FiredChanges(v: State, c: Callback)
    requires WellKept(v)
    ensures (FireStep(v, c).sessions != v.sessions || FireStep(v, c).all != v.all) <==> c in v.timers && c.expiresAt <= v.clock && Matches(v, c)
    ensures Matches(v, c) <==> Current(v, c.expected) && v.all[c.expected].camera == c.camera && v.all[c.expected].expiresAt == c.expiresAt
  {
    var w := FireStep(v, c);
    if c in v.timers && c.expiresAt <= v.clock && Matches(v, c) {
      assert c.camera in v.sessions && c.camera !in w.sessions;
    }
  }

  /** A renewal moves the promise to the full period from now, and every callback
      armed before that moment for an earlier expiry is stale from then on. */
  lemma RenewalOutlivesOldCallbacks(s: State, camera: Camera, inTime: bool, listens: bool, newId: Id, c: Callback)
    requires Inv(s) && !s.closed && newId !in s.all && camera in s.sessions
    requires c.expected == s.sessions[camera] && c.expiresAt < s.clock + s.ttl
    ensures var id := s.sessions[camera]; var v := StartStep(s, camera, s.all[id].target, inTime, listens, newId);
            && v.sessions == s.sessions && v.all[id].expiresAt == s.clock + s.ttl
            && FireStep(v, c).sessions == v.sessions
  {
  }

  /** A closed manager tracks nothing and starts nothing. */
  lemma {:induction false} ClosedStaysClosed(s: State, ops: seq<Op>)
    requires s.closed && s.sessions == map[]
    ensures Run(s, ops).closed && Run(s, ops).sessions == map[] && Run(s, ops).all.Keys == s.all.Keys
    decreases |ops|
  {
    if ops != [] {
      ClosedStaysClosed(Apply(s, ops[0]), ops[1..]);
    }
  }

  /** After a Close, whatever came before and whatever follows, no camera has a
      session, every server is closing or has stopped, and no session is created. */
  lemma CloseIsFinal(s: State, before: seq<Op>, stopped: set<Callback>, after: seq<Op>)
    requires Init(s)
    ensures var u := Run(s, before); var v := Run(Apply(u, Close(stopped)), after);
            v.closed && v.sessions == map[] && v.all.Keys == u.all.Keys && forall id :: id in v.all ==> v.all[id].server != Serving
  {
    var u := Run(s, before);
    var w := Apply(u, Close(stopped));
    hide Run;
    InitInv(s);
    RunInv(s, before);
    ApplyInv(u, Close(stopped));
    ClosedStaysClosed(w, after);
    RunInv(w, after);
  }

  // ------------------------------------------------------------------ the manager

  class Manager {
    const ttl: nat
    var clock: int
    var closed: bool
    var sessions: map<Camera, Id>
    var all: map<Id, Session>
    var timers: multiset<Callback>
    var exiting: set<Id>
    var timedOut: map<Id, TimedOut>

    function Now(): State
      reads this
    {
      State(clock, ttl, closed, sessions, all, timers, exiting, timedOut)
    }

    constructor (ttl: nat, clock: int)
      ensures Init(Now()) && this.ttl == ttl && this.clock == clock
    {
      this.ttl, this.clock, closed := ttl, clock, false;
      sessions, all, timers, exiting, timedOut := map[], map[], multiset{}, {}, map[];
    }

    method RenewSession(current: Id, inTime: bool)
      requires current in all
      modifies this
      ensures Now() == Renew(old(Now()), current, inTime)
    {
      var expiresAt := clock + ttl;
      timers := StopTimer(Now(), current, inTime);
      all := all[current := all[current].(expiresAt := expiresAt)];
      timers := timers + multiset{Callback(all[current].camera, current, expiresAt)};
    }

    method DropSession(camera: Camera, current: Id, inTime: bool)
      requires current in all
      modifies this
      ensures Now() == Drop(old(Now()), camera, current, inTime)
    {
      sessions := sessions - {camera};
      timers := StopTimer(Now(), current, inTime);
      all := SetServer(all, current, Closing);
    }

    method CreateSession(camera: Camera, target: string, newId: Id)
      modifies this
      ensures Now() == Create(old(Now()), camera, target, newId)
    {
      var expiresAt := clock + ttl;
      all := all[newId := Session(camera, target, expiresAt, Serving)];
      timers := timers + multiset{Callback(camera, newId, expiresAt)};
      sessions := sessions[camera := newId];
    }

    /** The locked part of Start; the result is the promised expiry. */
    method Start(camera: Camera, target: string, inTime: bool, listens: bool, newId: Id) returns (ok: bool, expiresAt: int)
      requires WellKept(Now()) && newId !in all
      modifies this
      ensures Now() == StartStep(old(Now()), camera, target, inTime, listens, newId)
      ensures ok ==> camera in sessions && sessions[camera] in all && all[sessions[camera]].target == target
                     && all[sessions[camera]].camera == camera && all[sessions[camera]].expiresAt == expiresAt == clock + ttl
      ensures var same := camera in old(sessions) && old(all)[old(sessions)[camera]].target == target;
              && ok == (!old(closed) && (same || listens))
              && (old(closed) || same ==> sessions == old(sessions))
              && (!old(closed) && !same ==>
                    && sessions == (if listens then old(sessions)[camera := newId] else old(sessions) - {camera})
                    && (listens ==> all[newId].server == Serving)
                    && (camera in old(sessions) ==> all[old(sessions)[camera]] == old(all)[old(sessions)[camera]].(server := Closing)))
    {
      expiresAt := clock + ttl;
      if closed { return false, expiresAt; }
      if camera in sessions && all[sessions[camera]].target == target {
        RenewSession(sessions[camera], inTime);
        return true, expiresAt;
      }
      if camera in sessions {
        DropSession(camera, sessions[camera], inTime);
      }
      if !listens { return false, expiresAt; }
      CreateSession(camera, target, newId);
      return true, expiresAt;
    }

    /** A timer's callback runs. */
    method StopExpired(c: Callback)
      requires c in timers && c.expiresAt <= clock
      modifies this
      ensures Now() == FireStep(old(Now()), c)
      ensures if c.camera in old(sessions) && old(sessions)[c.camera] == c.expected
                 && c.expected in old(all) && old(all)[c.expected].expiresAt == c.expiresAt
              then sessions == old(sessions) - {c.camera} && all == old(all)[c.expected := old(all)[c.expected].(server := Closing)]
              else sessions == old(sessions) && all == old(all)
    {
      timers := timers - multiset{c};
      if c.camera in sessions && sessions[c.camera] == c.expected && c.expected in all && all[c.expected].expiresAt == c.expiresAt {
        sessions := sessions - {c.camera};
        timedOut := timedOut[c.expected := TimedOut(clock, all[c.expected].expiresAt)];
        all := SetServer(all, c.expected, Closing);
      }
    }

    /** The serving goroutine removes its session after Serve returned. */
    method Remove(id: Id)
      requires id in exiting && id in all
      modifies this
      ensures Now() == RemoveStep(old(Now()), id)
      ensures all == old(all) && exiting == old(exiting) - {id}
      ensures forall c :: c in sessions <==> c in old(sessions) && !(c == all[id].camera && old(sessions)[c] == id)
      ensures forall c :: c in sessions ==> sessions[c] == old(sessions)[c]
    {
      exiting := exiting - {id};
      var camera := all[id].camera;
      if camera in sessions && sessions[camera] == id {
        sessions := sessions - {camera};
      }
    }

    method Close(stopped: set<Callback>)
      modifies this
      ensures Now() == CloseStep(old(Now()), stopped)
      ensures closed && sessions == map[] && all.Keys == old(all).Keys
      ensures forall id :: id in all ==>
                var before := old(all)[id];
                all[id] == if before.camera in old(sessions) && old(sessions)[before.camera] == id then before.(server := Closing) else before
    {
      all := map id | id in all :: if Current(Now(), id) then all[id].(server := Closing) else all[id];
      closed, sessions, timers := true, map[], timers - multiset(stopped);
    }
  }
}
