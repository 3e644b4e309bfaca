/** Temporary preview sessions of internal/streampreview/manager.go against a MediaMTX
    that may refuse a call, or apply it and lose the reply.  Every section under the
    manager's lock is one step; timers are pending events; Close deletes outside
    the lock. */
module PreviewManager {

  type Token = string

  const PREFIX := "_dron_preview_"

  function PathOf(t: Token): string { PREFIX + t }

  datatype Session = Session(path: string, owner: string)

  datatype AddReply = AddOk | AddRefused | AddLost
  datatype DeleteReply = DeleteOk | DeleteRefused | DeleteLost

  /** `expiries` counts armed timers and callbacks that wait for the lock; `pending`
      are the paths Close still has to delete; `excused` are paths whose last cleanup
      delete returned an error. */
  datatype State = State(
    sessions: map<Token, Session>,
    closed: bool,
    expiries: multiset<Token>,
    pending: set<string>,
    remote: set<string>,
    created: set<string>,
    excused: set<string>)

  // ------------------------------------------------------------------ remote calls

  function Deleted(remote: set<string>, path: string, reply: DeleteReply): set<string> {
    if reply == DeleteRefused then remote else remote - {path}
  }

  function Added(remote: set<string>, path: string, reply: AddReply): set<string> {
    if reply == AddRefused then remote else remote + {path}
  }

  /** time.Timer.Stop: takes the expiry back unless the timer has already fired. */
  function StopTimer(expiries: multiset<Token>, t: Token, inTime: bool): multiset<Token> {
    if inTime then expiries - multiset{t} else expiries
  }

  // ------------------------------------------------------------------------- steps

  datatype Start = Start(
    token: Token, owner: string,
    order: seq<Token>, replies: map<Token, DeleteReply>, stopped: set<Token>,
    valid: bool, add: AddReply, cleanup: DeleteReply)

  datatype Op =
    | StartSource(start: Start)
    | Stop(owner: string, token: Token, reply: DeleteReply, inTime: bool)
    | Expire(token: Token, reply: DeleteReply)
    | CloseLocked(stopped: set<Token>)
    | CloseDelete(path: string, reply: DeleteReply)
    | CleanupDelete(path: string, reply: DeleteReply)

  /** A session leaves the map after its path was deleted. */
  function Forget(s: State, t: Token, remote: set<string>, inTime: bool): State {
    s.(sessions := s.sessions - {t}, remote := remote, expiries := StopTimer(s.expiries, t, inTime))
  }

  datatype Replaced = Replaced(state: State, ok: bool)

  /** The loop at lines 79-87: delete every session of the owner, in the order the
      map is visited, and stop at the first error. */
  function ReplaceOwned(s: State, a: Start, order: seq<Token>): Replaced
    decreases |order|
  {
    if order == [] then Replaced(s, true)
    else
      var t := order[0];
      if t in s.sessions && s.sessions[t].owner == a.owner then
        var reply := if t in a.replies then a.replies[t] else DeleteOk;
        var remote := Deleted(s.remote, s.sessions[t].path, reply);
        if reply != DeleteOk then Replaced(s.(remote := remote), false)
        else ReplaceOwned(Forget(s, t, remote, t in a.stopped), a, order[1..])
      else ReplaceOwned(s, a, order[1..])
  }

  /** Lines 88-103: create the path, and clean up if the creation failed. */
  function CreatePath(s: State, a: Start): State {
    var path := PathOf(a.token);
    if a.valid && a.add == AddOk then
      s.(remote := s.remote + {path}, created := s.created + {path},
         sessions := s.sessions[a.token := Session(path, a.owner)],
         expiries := s.expiries + multiset{a.token})
    else
      var remote := if a.valid then Added(s.remote, path, a.add) else s.remote;
      var cleaned := s.(remote := Deleted(remote, path, a.cleanup), created := s.created + {path});
      if a.cleanup == DeleteOk then cleaned else cleaned.(excused := s.excused + {path})
  }

  /** A visiting order names every session. */
  predicate Covers(s: State, order: seq<Token>) {
    forall t :: t in s.sessions ==> t in order
  }

  function StartStep(s: State, a: Start): State {
    if s.closed || !Covers(s, a.order) then s
    else
      var r := ReplaceOwned(s, a, a.order);
      if r.ok then CreatePath(r.state, a) else r.state
  }

  function StopStep(s: State, owner: string, t: Token, reply: DeleteReply, inTime: bool): State {
    if t !in s.sessions || s.sessions[t].owner != owner then s
    else
      var remote := Deleted(s.remote, s.sessions[t].path, reply);
      if reply != DeleteOk then s.(remote := remote) else Forget(s, t, remote, inTime)
  }

  /** A fired timer: on success the session goes, on error a new timer is armed. */
  function ExpireStep(s: State, t: Token, reply: DeleteReply): State {
    if t !in s.expiries then s
    else
      var fired := s.(expiries := s.expiries - multiset{t});
      if t !in s.sessions then fired
      else
        var remote := Deleted(s.remote, s.sessions[t].path, reply);
        if reply != DeleteOk then s.(remote := remote)
        else fired.(sessions := s.sessions - {t}, remote := remote)
  }

  function PathsOf(sessions: map<Token, Session>): set<string> {
    set t | t in sessions :: sessions[t].path
  }

  function CloseStep(s: State, stopped: set<Token>): State {
    s.(closed := true, sessions := map[], pending := s.pending + PathsOf(s.sessions),
       expiries := s.expiries - multiset(stopped * s.sessions.Keys))
  }

  function CloseDeleteStep(s: State, path: string, reply: DeleteReply): State {
    if path !in s.pending then s
    else
      var deleted := s.(pending := s.pending - {path}, remote := Deleted(s.remote, path, reply));
      if reply == DeleteOk then deleted else deleted.(excused := s.excused + {path})
  }

  function Apply(s: State, op: Op): State {
    match op
    case StartSource(a) => StartStep(s, a)
    case Stop(owner, t, reply, inTime) => StopStep(s, owner, t, reply, inTime)
    case Expire(t, reply) => ExpireStep(s, t, reply)
    case CloseLocked(stopped) => CloseStep(s, stopped)
    case CloseDelete(path, reply) => CloseDeleteStep(s, path, reply)
    case CleanupDelete(path, reply) => s.(remote := Deleted(s.remote, path, reply))
  }

  function Run(s: State, ops: seq<Op>): State
    decreases |ops|
  {
    if ops == [] then s else Run(Apply(s, ops[0]), ops[1..])
  }

  predicate Init(s: State) {
    s.sessions == map[] && !s.closed && s.expiries == multiset{} && s.pending == {} && s.created == {} && s.excused == {}
  }

  // --------------------------------------------------------------------- invariant

  ghost predicate Tracked(s: State, path: string) {
    exists t :: t in s.sessions && s.sessions[t].path == path
  }

  /** No preview path of this manager is out of sight. */
  ghost predicate NothingLost(s: State) {
    forall p :: p in s.remote && p in s.created ==> Tracked(s, p) || p in s.pending || p in s.excused
  }

  ghost predicate OneSessionPerOwner(s: State) {
    forall t, u :: t in s.sessions && u in s.sessions && s.sessions[t].owner == s.sessions[u].owner ==> t == u
  }

  ghost predicate AllWillExpire(s: State) {
    forall t :: t in s.sessions ==> t in s.expiries
  }

  ghost predicate Inv(s: State) {
    && NothingLost(s) && OneSessionPerOwner(s) && AllWillExpire(s)
    && (forall t :: t in s.sessions ==> s.sessions[t].path == PathOf(t))
    && (s.closed ==> s.sessions == map[])
  }

  lemma PathOfInjective(t: Token, u: Token)
    requires PathOf(t) == PathOf(u)
    ensures t == u
  {
    assert PathOf(t)[|PREFIX|..] == t && PathOf(u)[|PREFIX|..] == u;
  }

  lemma ForgetInv(s: State, t: Token, inTime: bool)
    requires Inv(s) && t in s.sessions
    ensures Inv(Forget(s, t, s.remote - {s.sessions[t].path}, inTime))
  {
    hide PathOf;
    var v := Forget(s, t, s.remote - {s.sessions[t].path}, inTime);
    forall p | p in v.remote && p in v.created ensures Tracked(v, p) || p in v.pending || p in v.excused {
      if Tracked(s, p) {
        var u :| u in s.sessions && s.sessions[u].path == p;
        assert u in v.sessions && v.sessions[u].path == p;
      }
    }
  }

  lemma ShrinkInv(s: State, remote: set<string>)
    requires Inv(s) && remote <= s.remote
    ensures Inv(s.(remote := remote))
  {
    var v := s.(remote := remote);
    forall p | p in v.remote && p in v.created ensures Tracked(v, p) || p in v.pending || p in v.excused {
      assert Tracked(s, p) ==> Tracked(v, p);
    }
  }

  /** After the loop nothing of the owner is left, if it did not stop early. */
  lemma {:induction false} ReplaceInv(s: State, a: Start, order: seq<Token>)
    requires Inv(s) && forall t :: t in s.sessions && s.sessions[t].owner == a.owner ==> t in order
    ensures var r := ReplaceOwned(s, a, order);
            && Inv(r.state) && r.state.closed == s.closed
            && (r.ok ==> forall t :: t in r.state.sessions ==> r.state.sessions[t].owner != a.owner)
    decreases |order|
  {
    hide Inv;
    if order != [] {
      var t := order[0];
      if t in s.sessions && s.sessions[t].owner == a.owner {
        var reply := if t in a.replies then a.replies[t] else DeleteOk;
        var remote := Deleted(s.remote, s.sessions[t].path, reply);
        if reply != DeleteOk {
          ShrinkInv(s, remote);
        } else {
          ForgetInv(s, t, t in a.stopped);
          ReplaceInv(Forget(s, t, remote, t in a.stopped), a, order[1..]);
        }
      } else {
        ReplaceInv(s, a, order[1..]);
      }
    }
  }

  lemma CreateInv(s: State, a: Start)
    requires Inv(s) && !s.closed && forall t :: t in s.sessions ==> s.sessions[t].owner != a.owner
    ensures Inv(CreatePath(s, a))
  {
    hide PathOf;
    var v := CreatePath(s, a);
    var path := PathOf(a.token);
    forall p | p in v.remote && p in v.created ensures Tracked(v, p) || p in v.pending || p in v.excused {
      if p == path {
        if v.sessions != s.sessions { assert a.token in v.sessions && v.sessions[a.token].path == p; }
      } else if Tracked(s, p) {
        var u :| u in s.sessions && s.sessions[u].path == p;
        assert u != a.token;
        assert u in v.sessions && v.sessions[u].path == p;
      }
    }
  }

  lemma CloseInv(s: State, stopped: set<Token>)
    requires Inv(s)
    ensures Inv(CloseStep(s, stopped))
  {
    var v := CloseStep(s, stopped);
    forall p | p in v.remote && p in v.created ensures Tracked(v, p) || p in v.pending || p in v.excused {
      if Tracked(s, p) {
        var u :| u in s.sessions && s.sessions[u].path == p;
        assert p in PathsOf(s.sessions);
      }
    }
  }

  lemma CloseDeleteInv(s: State, path: string, reply: DeleteReply)
    requires Inv(s)
    ensures Inv(CloseDeleteStep(s, path, reply))
  {
    var v := CloseDeleteStep(s, path, reply);
    forall p | p in v.remote && p in v.created ensures Tracked(v, p) || p in v.pending || p in v.excused {
      assert Tracked(s, p) ==> Tracked(v, p);
    }
  }

  lemma ExpireInv(s: State, t: Token, reply: DeleteReply)
    requires Inv(s)
    ensures Inv(ExpireStep(s, t, reply))
  {
    if t in s.expiries {
      if t !in s.sessions {
        var v := ExpireStep(s, t, reply);
        forall p | p in v.remote && p in v.created ensures Tracked(v, p) || p in v.pending || p in v.excused {
          assert Tracked(s, p) ==> Tracked(v, p);
        }
      } else if reply != DeleteOk {
        ShrinkInv(s, Deleted(s.remote, s.sessions[t].path, reply));
      } else {
        ForgetInv(s, t, true);
        assert ExpireStep(s, t, reply) == Forget(s, t, s.remote - {s.sessions[t].path}, true);
      }
    }
  }

  lemma ApplyInv(s: State, op: Op)
    requires Inv(s)
    ensures Inv(Apply(s, op))
  {
    hide Inv;
    match op
    case StartSource(a) =>
      if !s.closed && Covers(s, a.order) {
        ReplaceInv(s, a, a.order);
        var r := ReplaceOwned(s, a, a.order);
        if r.ok { CreateInv(r.state, a); }
      }
    case Stop(owner, t, reply, inTime) =>
      if t in s.sessions && s.sessions[t].owner == owner {
        if reply != DeleteOk { ShrinkInv(s, Deleted(s.remote, s.sessions[t].path, reply)); }
        else { ForgetInv(s, t, inTime); }
      }
    case Expire(t, reply) => ExpireInv(s, t, reply);
    case CloseLocked(stopped) => CloseInv(s, stopped);
    case CloseDelete(path, reply) => CloseDeleteInv(s, path, reply);
    case CleanupDelete(path, reply) => ShrinkInv(s, Deleted(s.remote, path, reply));
  }

  /** In every run, whatever MediaMTX answers: each preview path this manager created
      is owned by a tracked session, waits in Close, or had a cleanup delete that
      returned an error; each owner has at most one session; and each session has
      an expiry ahead of it. */
  lemma {:induction false} RunInv(s: State, ops: seq<Op>)
    requires Inv(s)
    ensures Inv(Run(s, ops))
    decreases |ops|
  {
    hide Inv, Apply;
    if ops != [] {
      ApplyInv(s, ops[0]);
      RunInv(Apply(s, ops[0]), ops[1..]);
    }
  }

  lemma InitInv(s: State)
    requires Init(s)
    ensures Inv(s)
  {
  }

  /** A cleanup delete that reported an error. */
  predicate CleanupFailed(op: Op) {
    match op
    case StartSource(a) => a.cleanup != DeleteOk && !(a.valid && a.add == AddOk)
    case CloseDelete(_, reply) => reply != DeleteOk
    case _ => false
  }

  lemma {:induction false} ReplaceKeepsExcused(s: State, a: Start, order: seq<Token>)
    ensures ReplaceOwned(s, a, order).state.excused == s.excused
    decreases |order|
  {
    if order != [] {
      var t := order[0];
      if t in s.sessions && s.sessions[t].owner == a.owner {
        var reply := if t in a.replies then a.replies[t] else DeleteOk;
        if reply == DeleteOk {
          ReplaceKeepsExcused(Forget(s, t, Deleted(s.remote, s.sessions[t].path, reply), t in a.stopped), a, order[1..]);
        }
      } else {
        ReplaceKeepsExcused(s, a, order[1..]);
      }
    }
  }

  lemma {:induction false} NothingExcused(s: State, ops: seq<Op>)
    requires s.excused == {} && forall i :: 0 <= i < |ops| ==> !CleanupFailed(ops[i])
    ensures Run(s, ops).excused == {}
    decreases |ops|
  {
    if ops != [] {
      var op := ops[0];
      if op.StartSource? { ReplaceKeepsExcused(s, op.start, op.start.order); }
      assert Apply(s, op).excused == {} by { assert !CleanupFailed(ops[0]); }
      assert forall i :: 0 <= i < |ops[1..]| ==> !CleanupFailed(ops[1..][i]) by {
        forall i | 0 <= i < |ops[1..]| ensures !CleanupFailed(ops[1..][i]) {
          assert !CleanupFailed(ops[i + 1]);
        }
      }
      NothingExcused(Apply(s, op), ops[1..]);
    }
  }

  /** So when a closed manager has no deletes left and no cleanup delete failed,
      MediaMTX holds none of its preview paths. */
  lemma ClosedLeavesNothing(s: State, ops: seq<Op>)
    requires Init(s) && forall i :: 0 <= i < |ops| ==> !CleanupFailed(ops[i])
    requires Run(s, ops).closed && Run(s, ops).pending == {}
    ensures Run(s, ops).remote !! Run(s, ops).created
  {
    hide Run;
    InitInv(s);
    RunInv(s, ops);
    NothingExcused(s, ops);
  }

  // ------------------------------------------------------------- what a call achieves

  /** The sessions of all other owners. */
  function Others(sessions: map<Token, Session>, owner: string): map<Token, Session> {
    map t | t in sessions && sessions[t].owner != owner :: sessions[t]
  }

  /** MediaMTX deletes every session of the owner that is visited. */
  predicate AllDelete(s: State, a: Start, order: seq<Token>) {
    forall t :: t in order && t in s.sessions && s.sessions[t].owner == a.owner && t in a.replies ==> a.replies[t] == DeleteOk
  }

  /** A replacement goes through if and only if every session of the owner is deleted,
      and it leaves the sessions of the other owners. */
  lemma OwnerReplaced(s: State, a: Start)
    requires Covers(s, a.order)
    ensures var r := ReplaceOwned(s, a, a.order);
            && (r.ok <==> AllDelete(s, a, a.order))
            && (r.ok ==> r.state.sessions == Others(s.sessions, a.owner))
  {
    hide ReplaceOwned;
    ReplacedSessions(s, a, a.order);
  }

  lemma {:induction false} ReplacedSessions(s: State, a: Start, order: seq<Token>)
    ensures var r := ReplaceOwned(s, a, order);
            && (r.ok <==> AllDelete(s, a, order))
            && (r.ok ==> r.state.sessions == map t | t in s.sessions && !(t in order && s.sessions[t].owner == a.owner) :: s.sessions[t])
    decreases |order|
  {
    if order != [] {
      var t, rest := order[0], order[1..];
      assert forall u :: u in order <==> u == t || u in rest;
      if t in s.sessions && s.sessions[t].owner == a.owner {
        var reply := if t in a.replies then a.replies[t] else DeleteOk;
        if reply == DeleteOk {
          ReplacedSessions(Forget(s, t, Deleted(s.remote, s.sessions[t].path, reply), t in a.stopped), a, rest);
        }
      } else {
        ReplacedSessions(s, a, rest);
      }
    }
  }

  /** A session that is not tracked is tracked again only by a start with its token. */
  predicate Starts(op: Op, t: Token) {
    op.StartSource? && op.start.token == t
  }

  lemma {:induction false} UntrackedStays(s: State, ops: seq<Op>, t: Token)
    requires t !in s.sessions && forall i :: 0 <= i < |ops| ==> !Starts(ops[i], t)
    ensures t !in Run(s, ops).sessions
    decreases |ops|
  {
    if ops != [] {
      var op := ops[0];
      assert !Starts(op, t);
      if op.StartSource? { ReplaceOnlyRemoves(s, op.start, op.start.order, t); }
      forall i | 0 <= i < |ops[1..]| ensures !Starts(ops[1..][i], t) { assert !Starts(ops[i + 1], t); }
      UntrackedStays(Apply(s, op), ops[1..], t);
    }
  }

  lemma {:induction false} ReplaceOnlyRemoves(s: State, a: Start, order: seq<Token>, t: Token)
    requires t !in s.sessions
    ensures t !in ReplaceOwned(s, a, order).state.sessions
    decreases |order|
  {
    if order != [] {
      var u := order[0];
      if u in s.sessions && s.sessions[u].owner == a.owner {
        var reply := if u in a.replies then a.replies[u] else DeleteOk;
        if reply == DeleteOk {
          ReplaceOnlyRemoves(Forget(s, u, Deleted(s.remote, s.sessions[u].path, reply), u in a.stopped), a, order[1..], t);
        }
      } else {
        ReplaceOnlyRemoves(s, a, order[1..], t);
      }
    }
  }

  /** After an accepted stop the session is not tracked, and stays so in every run
      without a start with its token: a second stop of it is refused. */
  lemma StopIsFinal(s: State, owner: string, t: Token, inTime: bool, ops: seq<Op>)
    requires t in s.sessions && s.sessions[t].owner == owner
    requires forall i :: 0 <= i < |ops| ==> !Starts(ops[i], t)
    ensures var v := Run(Apply(s, Stop(owner, t, DeleteOk, inTime)), ops);
            t !in v.sessions && forall o, reply, again :: Apply(v, Stop(o, t, reply, again)) == v
  {
    hide Run;
    UntrackedStays(Apply(s, Stop(owner, t, DeleteOk, inTime)), ops, t);
  }

  // ------------------------------------------------------------------ the manager

  function ReplyFor(replies: map<string, DeleteReply>, path: string): DeleteReply {
    if path in replies then replies[path] else DeleteOk
  }

  /** The deletes that MediaMTX applied, and those that reported an error. */
  function Applied(paths: set<string>, replies: map<string, DeleteReply>): set<string> {
    set p | p in paths && ReplyFor(replies, p) != DeleteRefused
  }

  function Erred(paths: set<string>, replies: map<string, DeleteReply>): set<string> {
    set p | p in paths && ReplyFor(replies, p) != DeleteOk
  }

  lemma OneMoreDelete(paths: set<string>, path: string, replies: map<string, DeleteReply>)
    ensures Applied(paths + {path}, replies) == Applied(paths, replies) + if ReplyFor(replies, path) == DeleteRefused then {} else {path}
    ensures Erred(paths + {path}, replies) == Erred(paths, replies) + if ReplyFor(replies, path) == DeleteOk then {} else {path}
  {
  }

  /** The object itself, with MediaMTX's preview paths beside it. */
  class Manager {
    var sessions: map<Token, Session>
    var closed: bool
    var expiries: multiset<Token>
    var pending: set<string>
    var remote: set<string>
    var created: set<string>
    var excused: set<string>

    function Now(): State
      reads this
    {
      State(sessions, closed, expiries, pending, remote, created, excused)
    }

    constructor (stale: set<string>)
      ensures Init(Now()) && remote == stale
    {
      sessions, closed, expiries, pending, remote, created, excused := map[], false, multiset{}, {}, stale, {}, {};
    }

    method StartSource(a: Start) returns (ok: bool)
      requires Covers(Now(), a.order)
      modifies this
      ensures Now() == StartStep(old(Now()), a)
      ensures ok ==> a.token in sessions && sessions[a.token] == Session(PathOf(a.token), a.owner) && PathOf(a.token) in remote
      ensures ok <==> !old(closed) && AllDelete(old(Now()), a, a.order) && a.valid && a.add == AddOk
      ensures old(closed) ==> unchanged(this)
      // the owner's earlier sessions are gone, everybody else's are as they were
      ensures ok ==> sessions == Others(old(sessions), a.owner)[a.token := Session(PathOf(a.token), a.owner)]
    {
      hide ReplaceOwned, CreatePath, Covers, AllDelete;
      if closed { return false; }
      OwnerReplaced(Now(), a);
      ok := ReplaceSessions(a);
      if !ok { return; }
      ok := Create(a);
    }

    /** Lines 79-87. */
    method ReplaceSessions(a: Start) returns (ok: bool)
      modifies this`sessions, this`remote, this`expiries
      ensures Replaced(Now(), ok) == ReplaceOwned(old(Now()), a, a.order)
    {
      ghost var before := Now();
      for i := 0 to |a.order|
        invariant ReplaceOwned(Now(), a, a.order[i..]) == ReplaceOwned(before, a, a.order)
      {
        var t := a.order[i];
        assert a.order[i..][0] == t && a.order[i..][1..] == a.order[i + 1..];
        if t in sessions && sessions[t].owner == a.owner {
          var reply := if t in a.replies then a.replies[t] else DeleteOk;
          remote := Deleted(remote, sessions[t].path, reply);
          if reply != DeleteOk { return false; }
          sessions := sessions - {t};
          expiries := StopTimer(expiries, t, t in a.stopped);
        }
      }
      return true;
    }

    /** Lines 88-103. */
    method Create(a: Start) returns (ok: bool)
      modifies this
      ensures Now() == CreatePath(old(Now()), a)
      ensures ok ==> sessions == old(sessions)[a.token := Session(PathOf(a.token), a.owner)] && PathOf(a.token) in remote
      ensures ok <==> a.valid && a.add == AddOk
      ensures ok ==> expiries == old(expiries) + multiset{a.token}
      ensures !ok ==> sessions == old(sessions) && expiries == old(expiries)
      ensures !ok ==> if a.cleanup == DeleteOk then PathOf(a.token) !in remote else PathOf(a.token) in excused
    {
      hide PathOf, Added;
      if !(a.valid && a.add == AddOk) {
        CleanUp(a);
        return false;
      }
      var path := PathOf(a.token);
      created := created + {path};
      remote := remote + {path};
      sessions := sessions[a.token := Session(path, a.owner)];
      expiries := expiries + multiset{a.token};
      return true;
    }

    /** Lines 89-98: the path may have been created although the call failed. */
    method CleanUp(a: Start)
      requires !(a.valid && a.add == AddOk)
      modifies this`created, this`remote, this`excused
      ensures Now() == CreatePath(old(Now()), a)
      ensures if a.cleanup == DeleteOk then PathOf(a.token) !in remote else PathOf(a.token) in excused
    {
      hide PathOf, Added;
      var path := PathOf(a.token);
      created := created + {path};
      if a.valid { remote := Added(remote, path, a.add); }
      remote := Deleted(remote, path, a.cleanup);
      if a.cleanup != DeleteOk { excused := excused + {path}; }
    }

    method Stop(owner: string, t: Token, reply: DeleteReply, inTime: bool) returns (ok: bool)
      modifies this
      ensures Now() == StopStep(old(Now()), owner, t, reply, inTime)
      ensures ok <==> t in old(sessions) && old(sessions)[t].owner == owner && reply == DeleteOk
      ensures ok ==> sessions == old(sessions) - {t} && old(sessions)[t].path !in remote
      ensures ok && inTime ==> expiries == old(expiries) - multiset{t}
      ensures !ok ==> sessions == old(sessions) && expiries == old(expiries)
      ensures t !in old(sessions) || old(sessions)[t].owner != owner ==> unchanged(this)
    {
      if t !in sessions || sessions[t].owner != owner { return false; }
      remote := Deleted(remote, sessions[t].path, reply);
      if reply != DeleteOk { return false; }
      sessions := sessions - {t};
      expiries := StopTimer(expiries, t, inTime);
      return true;
    }

    method Expire(t: Token, reply: DeleteReply)
      requires t in expiries
      modifies this
      ensures Now() == ExpireStep(old(Now()), t, reply)
      ensures t in old(sessions) && reply == DeleteOk ==>
                sessions == old(sessions) - {t} && old(sessions)[t].path !in remote && expiries == old(expiries) - multiset{t}
      ensures t in old(sessions) && reply != DeleteOk ==> sessions == old(sessions) && t in expiries
      ensures t !in old(sessions) ==> sessions == old(sessions) && remote == old(remote)
    {
      ghost var armed := expiries;
      expiries := expiries - multiset{t};
      assert expiries + multiset{t} == armed;
      if t !in sessions { return; }
      remote := Deleted(remote, sessions[t].path, reply);
      if reply != DeleteOk {
        expiries := expiries + multiset{t};
        return;
      }
      sessions := sessions - {t};
    }

    /** Close: nothing is tracked any more, then each owed path is deleted once. */
    method Close(stopped: set<Token>, replies: map<string, DeleteReply>)
      modifies this
      ensures closed && sessions == map[] && pending == {}
      ensures var owed := old(pending) + PathsOf(old(sessions));
              remote == old(remote) - Applied(owed, replies) && excused == old(excused) + Erred(owed, replies)
    {
      closed := true;
      pending := pending + PathsOf(sessions);
      expiries := expiries - multiset(stopped * sessions.Keys);
      sessions := map[];
      DeletePending(replies);
    }

    /** The loop at lines 148-152, without interference between its deletes. */
    method DeletePending(replies: map<string, DeleteReply>)
      modifies this`pending, this`remote, this`excused
      ensures pending == {}
      ensures remote == old(remote) - Applied(old(pending), replies)
      ensures excused == old(excused) + Erred(old(pending), replies)
    {
      hide ReplyFor;
      while pending != {}
        invariant pending <= old(pending)
        invariant remote == old(remote) - Applied(old(pending) - pending, replies)
        invariant excused == old(excused) + Erred(old(pending) - pending, replies)
        decreases pending
      {
        var path :| path in pending;
        var reply := ReplyFor(replies, path);
        OneMoreDelete(old(pending) - pending, path, replies);
        assert old(pending) - (pending - {path}) == (old(pending) - pending) + {path};
        pending := pending - {path};
        remote := Deleted(remote, path, reply);
        if reply != DeleteOk { excused := excused + {path}; }
      }
      assert old(pending) - pending == old(pending);
    }
  }
}
