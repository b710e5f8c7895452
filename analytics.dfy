// The counting loops of the manager handlers: active sessions by role, and
// the sum of the drop counters of a set of gigs.

module Analytics {
  import opened Records
  import GigLifecycle

  /** A session the filter `expire_date >= now` keeps. */
  predicate Active(s: Session, now: Time)
  {
    s.expireDate >= now
  }

  /** An active session whose user lookup raises: no authenticated user id
      in its data, or an id no user has. */
  predicate Unresolved(s: Session, now: Time, users: map<UserId, User>)
  {
    Active(s, now) && (s.authUser.None? || s.authUser.value !in users)
  }

  /** Adds `n` to a count; an error stays an error. */
  function Plus(n: nat, r: Reply<nat>): Reply<nat>
  {
    if r.Success? then Success(n + r.value) else r
  }

  /** An active session whose user resolves and has `role`: one the
      handler counts. */
  predicate Counted(s: Session, now: Time, users: map<UserId, User>, role: Role)
  {
    Active(s, now) && s.authUser.Some? && s.authUser.value in users && users[s.authUser.value].role == role
  }

  /** The positions of the sessions counted for `role`. */
  function Hits(sessions: seq<Session>, now: Time, users: map<UserId, User>, role: Role): set<nat>
  {
    set k: nat | k < |sessions| && Counted(sessions[k], now, users, role)
  }

  /** What `get_active_cupids` / `get_active_daters` answer: the number of
      active sessions whose user has `role`, or a server error as soon as an
      active session's user cannot be looked up. */
  function SessionCount(sessions: seq<Session>, now: Time, users: map<UserId, User>, role: Role): (r: Reply<nat>)
    ensures r.Success? || r.ServerError?
    ensures r.Success? ==> r.value == |Hits(sessions, now, users, role)|
    ensures r.ServerError? <==> exists k :: 0 <= k < |sessions| && Unresolved(sessions[k], now, users)
  {
    if sessions == [] then
      assert Hits(sessions, now, users, role) == {};
      Success(0)
    else
      var n := |sessions| - 1;
      var init := sessions[..n];
      var s := sessions[n];
      var rest := SessionCount(init, now, users, role);
      assert forall k :: 0 <= k < n ==> init[k] == sessions[k];
      var hit := if Counted(s, now, users, role) then {n} else {};
      assert Hits(sessions, now, users, role) == Hits(init, now, users, role) + hit;
      assert n !in Hits(init, now, users, role);
      if Unresolved(s, now, users) then ServerError
      else if Counted(s, now, users, role) then Plus(1, rest)
      else Plus(0, rest)
  }

  /** The positions of the active sessions. */
  function ActivePositions(sessions: seq<Session>, now: Time): set<nat>
  {
    set k: nat | k < |sessions| && Active(sessions[k], now)
  }

  /** The number of active sessions. */
  function ActiveCount(sessions: seq<Session>, now: Time): (n: nat)
    ensures n == |ActivePositions(sessions, now)|
  {
    if sessions == [] then
      assert ActivePositions(sessions, now) == {};
      0
    else
      var m := |sessions| - 1;
      var init := sessions[..m];
      assert forall k :: 0 <= k < m ==> init[k] == sessions[k];
      var hit := if Active(sessions[m], now) then {m} else {};
      assert ActivePositions(sessions, now) == ActivePositions(init, now) + hit;
      assert m !in ActivePositions(init, now);
      ActiveCount(init, now) + (if Active(sessions[m], now) then 1 else 0)
  }

  /** The loop of the two handlers, counting sessions of one role. */
  method CountActiveSessions(sessions: seq<Session>, now: Time, users: map<UserId, User>, role: Role) returns (r: Reply<nat>)
    ensures r == SessionCount(sessions, now, users, role)
  {
    var n := 0;
    var i := 0;
    while i < |sessions|
      invariant 0 <= i <= |sessions|
      invariant SessionCount(sessions[..i], now, users, role) == Success(n)
    {
      var s := sessions[i];
      assert sessions[..i + 1][..i] == sessions[..i];
      if Active(s, now) {
        if s.authUser.None? || s.authUser.value !in users {
          assert Unresolved(sessions[i], now, users);
          return ServerError;
        }
        if users[s.authUser.value].role == role {
          n := n + 1;
        }
      }
      i := i + 1;
    }
    assert sessions[..i] == sessions;
    r := Success(n);
  }

  /** When every active session resolves, the three role counts split the
      active sessions between them. */
  lemma {:induction false} RolesPartitionSessions(sessions: seq<Session>, now: Time, users: map<UserId, User>)
    requires forall k :: 0 <= k < |sessions| ==> !Unresolved(sessions[k], now, users)
    ensures var d := SessionCount(sessions, now, users, DaterRole);
            var c := SessionCount(sessions, now, users, CupidRole);
            var m := SessionCount(sessions, now, users, ManagerRole);
            d.Success? && c.Success? && m.Success? && d.value + c.value + m.value == ActiveCount(sessions, now)
    decreases |sessions|
  {
    if sessions != [] {
      var init := sessions[..|sessions| - 1];
      assert forall k :: 0 <= k < |init| ==> init[k] == sessions[k];
      RolesPartitionSessions(init, now, users);
    }
  }

  /** The sum `number_of_drops` accumulates over a set of gigs. */
  function DroppedSum(gigs: seq<Gig>): (n: nat)
    ensures gigs == [] ==> n == 0
  {
    if gigs == [] then 0 else DroppedSum(gigs[..|gigs| - 1]) + gigs[|gigs| - 1].droppedCount
  }

  /** The loop that sums the drop counters. */
  method SumDroppedCounts(gigs: seq<Gig>) returns (n: nat)
    ensures n == DroppedSum(gigs)
  {
    n := 0;
    var i := 0;
    while i < |gigs|
      invariant 0 <= i <= |gigs|
      invariant n == DroppedSum(gigs[..i])
    {
      assert gigs[..i + 1][..i] == gigs[..i];
      n := n + gigs[i].droppedCount;
      i := i + 1;
    }
    assert gigs[..i] == gigs;
  }

  /** Each drop of one gig raises the total by exactly one. */
  lemma {:induction false} DropAddsOne(gigs: seq<Gig>, k: nat)
    requires k < |gigs|
    ensures DroppedSum(gigs[k := GigLifecycle.Drop(gigs[k])]) == DroppedSum(gigs) + 1
    decreases |gigs|
  {
    var after := gigs[k := GigLifecycle.Drop(gigs[k])];
    var n := |gigs|;
    if k < n - 1 {
      assert after[..n - 1] == gigs[..n - 1][k := GigLifecycle.Drop(gigs[k])];
      DropAddsOne(gigs[..n - 1], k);
    } else {
      assert after[..n - 1] == gigs[..n - 1];
    }
  }

  /** Accepting or completing a gig leaves the total alone. */
  lemma {:induction false} AcceptKeepsSum(gigs: seq<Gig>, k: nat, cupid: UserId, now: Time)
    requires k < |gigs|
    ensures DroppedSum(gigs[k := GigLifecycle.Accept(gigs[k], cupid, now)]) == DroppedSum(gigs)
    ensures DroppedSum(gigs[k := GigLifecycle.Finish(gigs[k], now)]) == DroppedSum(gigs)
    decreases |gigs|
  {
    var n := |gigs|;
    var a := gigs[k := GigLifecycle.Accept(gigs[k], cupid, now)];
    var f := gigs[k := GigLifecycle.Finish(gigs[k], now)];
    if k < n - 1 {
      assert a[..n - 1] == gigs[..n - 1][k := GigLifecycle.Accept(gigs[k], cupid, now)];
      assert f[..n - 1] == gigs[..n - 1][k := GigLifecycle.Finish(gigs[k], now)];
      AcceptKeepsSum(gigs[..n - 1], k, cupid, now);
    } else {
      assert a[..n - 1] == gigs[..n - 1];
      assert f[..n - 1] == gigs[..n - 1];
    }
  }
}
