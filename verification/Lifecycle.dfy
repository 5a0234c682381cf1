/**
  The tenant retention clock: billing events, delivered at least once and handled one at a time,
  suspend a tenant and end its sessions; any number of racing sweepers advance it through a
  status-guarded update that is separate from their read. Times are seconds on the database clock.
*/
module Lifecycle {
  import opened Prelude

  const DAY: nat := 24 * 3600
  const SUSPENSION_GRACE := 30 * DAY
  const GRACE_TO_DEACTIVATED := 90 * DAY
  const DEACTIVATED_TO_PURGE := 180 * DAY

  datatype Status = Active | Suspended | Grace | Deactivated | PurgeEligible
  datatype Tenant = Tenant(status: Status, suspendedAt: Option<nat>, deactivatedAt: Option<nat>)

  function Rank(s: Status): nat {
    match s
    case Active => 0
    case Suspended => 1
    case Grace => 2
    case Deactivated => 3
    case PurgeEligible => 4
  }

  /** nextLifecycleStatus */
  function NextStatus(t: Tenant, now: nat): Option<Status> {
    match t.status
    case Suspended =>
      if t.suspendedAt.None? || now - t.suspendedAt.value < SUSPENSION_GRACE then None else Some(Grace)
    case Grace =>
      if t.suspendedAt.None? || now - t.suspendedAt.value < GRACE_TO_DEACTIVATED then None else Some(Deactivated)
    case Deactivated =>
      if t.deactivatedAt.None? || now - t.deactivatedAt.value < DEACTIVATED_TO_PURGE then None else Some(PurgeEligible)
    case _ => None
  }

  /** The WHERE clause of ListTenantsDueForLifecycle, without the legal-hold filter. */
  predicate IsDue(t: Tenant, now: nat) {
    || (t.status == Suspended && t.suspendedAt.Some? && t.suspendedAt.value <= now - 30 * DAY)
    || (t.status == Grace && t.suspendedAt.Some? && t.suspendedAt.value <= now - 90 * DAY)
    || (t.status == Deactivated && t.deactivatedAt.Some? && t.deactivatedAt.value <= now - 180 * DAY)
  }

  /** nextStatusFor: the label of a failed transition. */
  function NextLabel(s: Status): Option<Status> {
    match s
    case Suspended => Some(Grace)
    case Grace => Some(Deactivated)
    case Deactivated => Some(PurgeEligible)
    case _ => None
  }

  /** pendingAge */
  function PendingAge(t: Tenant, now: nat): int {
    match t.status
    case Suspended => if t.suspendedAt.None? then 0 else now - t.suspendedAt.value - SUSPENSION_GRACE
    case Grace => if t.suspendedAt.None? then 0 else now - t.suspendedAt.value - GRACE_TO_DEACTIVATED
    case Deactivated => if t.deactivatedAt.None? then 0 else now - t.deactivatedAt.value - DEACTIVATED_TO_PURGE
    case _ => 0
  }

  /** The list query, the advance step, the failure label and the age gauge agree on what is due. */
  lemma DueAgrees(t: Tenant, now: nat)
    ensures NextStatus(t, now).Some? <==> IsDue(t, now)
    ensures NextStatus(t, now).Some? ==>
              && NextLabel(t.status) == NextStatus(t, now)
              && Rank(NextStatus(t, now).value) == Rank(t.status) + 1
              && PendingAge(t, now) >= 0
    ensures t.status == Suspended && t.suspendedAt.Some? ==>
              && (NextStatus(t, now).Some? <==> t.suspendedAt.value + 30 * 86400 <= now)
              && PendingAge(t, now) == now - (t.suspendedAt.value + 30 * 86400)
    ensures t.status == Grace && t.suspendedAt.Some? ==>
              && (NextStatus(t, now).Some? <==> t.suspendedAt.value + 90 * 86400 <= now)
              && PendingAge(t, now) == now - (t.suspendedAt.value + 90 * 86400)
    ensures t.status == Deactivated && t.deactivatedAt.Some? ==>
              && (NextStatus(t, now).Some? <==> t.deactivatedAt.value + 180 * 86400 <= now)
              && PendingAge(t, now) == now - (t.deactivatedAt.value + 180 * 86400)
    ensures t.status == Active || t.status == PurgeEligible ==>
              NextStatus(t, now).None? && NextLabel(t.status).None? && PendingAge(t, now) == 0
  {
  }

  /** The CASE expressions of UpdateTenantStatus and TransitionTenantStatus: stamp on first entry only. */
  function Stamped(t: Tenant, to: Status, clock: nat): Tenant {
    Tenant(to,
      if to == Suspended && t.suspendedAt.None? then Some(clock) else t.suspendedAt,
      if to == Deactivated && t.deactivatedAt.None? then Some(clock) else t.deactivatedAt)
  }

  // ----- The protocol -----

  /** What a sweeper's read decided: move `tenant` from the status it saw to the next one. */
  datatype Plan = Plan(tenant: nat, from: Status, to: Status)

  /** One sweep with its fixed `now`; `moved` is history: the edges this sweep has taken. */
  datatype Sweep = Sweep(now: nat, plan: Option<Plan>, moved: set<(nat, Status)>)

  /** Where the handling of a delivery stands: before the status write, the session bump, the last read. */
  datatype Consumer = Idle | Suspending(tenant: nat) | Revoking(tenant: nat) | Confirming(tenant: nat)

  /** `revoked` is history: the tenants whose sessions a suspension has ended. */
  datatype State = State(
    clock: nat,
    tenants: map<nat, Tenant>,
    consumer: Consumer,
    revoked: set<nat>,
    sweeps: map<nat, Sweep>)

  datatype Action =
    | Tick(d: nat)
    | Create(t: nat)
    | Deliver(t: nat, relevant: bool)
    | Suspend
    | Revoke
    | Ack
    | Nak
    | BeginSweep(w: nat, now: nat)
    | ReadTenant(w: nat, t: nat)
    | Transition(w: nat)
    | GiveUp(w: nat)

  predicate Enabled(s: State, a: Action) {
    match a
    case Tick(_) => true
    case Create(t) => t !in s.tenants
    case Deliver(t, _) => s.consumer.Idle?
    case Suspend => s.consumer.Suspending?
    case Revoke => s.consumer.Revoking?
    case Ack => s.consumer.Confirming?
    case Nak => !s.consumer.Idle?
    case BeginSweep(w, now) => w !in s.sweeps && now <= s.clock
    case ReadTenant(w, t) => w in s.sweeps && s.sweeps[w].plan.None? && t in s.tenants
    case Transition(w) => w in s.sweeps && s.sweeps[w].plan.Some?
    case GiveUp(w) => w in s.sweeps
  }

  function DoTransition(s: State, w: nat): State
    requires Enabled(s, Transition(w))
  {
    var sweep := s.sweeps[w];
    var p := sweep.plan.value;
    if p.tenant in s.tenants && s.tenants[p.tenant].status == p.from then
      s.(tenants := s.tenants[p.tenant := Stamped(s.tenants[p.tenant], p.to, s.clock)],
         sweeps := s.sweeps[w := sweep.(plan := None, moved := sweep.moved + {(p.tenant, p.from)})])
    else
      s.(sweeps := s.sweeps[w := sweep.(plan := None)])
  }

  function DoReadTenant(s: State, w: nat, t: nat): State
    requires Enabled(s, ReadTenant(w, t))
  {
    var row := s.tenants[t];
    var next := NextStatus(row, s.sweeps[w].now);
    if next.None? then s
    else s.(sweeps := s.sweeps[w := s.sweeps[w].(plan := Some(Plan(t, row.status, next.value)))])
  }

  function Next(s: State, a: Action): State
    requires Enabled(s, a)
  {
    match a
    case Tick(d) => s.(clock := s.clock + d)
    case Create(t) => s.(tenants := s.tenants[t := Tenant(Active, None, None)])
    case Deliver(t, relevant) =>
      if relevant && t in s.tenants && s.tenants[t].status == Active then s.(consumer := Suspending(t)) else s
    case Suspend =>
      var t := s.consumer.tenant;
      s.(consumer := Revoking(t),
         tenants := if t in s.tenants then s.tenants[t := Stamped(s.tenants[t], Suspended, s.clock)] else s.tenants)
    case Revoke => s.(consumer := Confirming(s.consumer.tenant), revoked := s.revoked + {s.consumer.tenant})
    case Ack => s.(consumer := Idle)
    case Nak => s.(consumer := Idle)
    case BeginSweep(w, now) => s.(sweeps := s.sweeps[w := Sweep(now, None, {})])
    case ReadTenant(w, t) => DoReadTenant(s, w, t)
    case Transition(w) => DoTransition(s, w)
    case GiveUp(w) => s.(sweeps := s.sweeps[w := s.sweeps[w].(plan := None)])
  }

  // ----- The invariant -----

  predicate TenantOk(clock: nat, t: Tenant) {
    && (t.suspendedAt.Some? <==> 1 <= Rank(t.status))
    && (t.deactivatedAt.Some? <==> 3 <= Rank(t.status))
    && (t.deactivatedAt.Some? ==>
          t.suspendedAt.value + GRACE_TO_DEACTIVATED <= t.deactivatedAt.value <= clock)
    && (t.status == PurgeEligible ==> t.suspendedAt.value + 270 * DAY <= clock)
  }

  /** The stamps that made the plan due are still in the row, which can only have moved on since. */
  predicate PlanOk(tenants: map<nat, Tenant>, now: nat, p: Plan) {
    && p.tenant in tenants
    && var t := tenants[p.tenant];
       && Rank(p.from) <= Rank(t.status)
       && NextStatus(t.(status := p.from), now) == Some(p.to)
  }

  predicate MoveOk(tenants: map<nat, Tenant>, now: nat, m: (nat, Status)) {
    && m.0 in tenants
    && var t := tenants[m.0];
       && 1 <= Rank(m.1) < Rank(t.status)
       && (m.1 == Grace ==> t.deactivatedAt.Some? && now <= t.deactivatedAt.value)
       && (m.1 == Deactivated ==> t.deactivatedAt.Some? && t.deactivatedAt.value + DEACTIVATED_TO_PURGE <= now)
  }

  ghost predicate SweepOk(s: State, w: Sweep) {
    && w.now <= s.clock
    && (w.plan.Some? ==> PlanOk(s.tenants, w.now, w.plan.value))
    && forall m | m in w.moved :: MoveOk(s.tenants, w.now, m)
  }

  predicate ConsumerOk(s: State) {
    && (forall t | t in s.revoked :: t in s.tenants && s.tenants[t].status != Active)
    && match s.consumer
       case Idle => true
       case Suspending(t) => t in s.tenants && s.tenants[t].status == Active
       case Revoking(t) => t in s.tenants && s.tenants[t].status != Active && t !in s.revoked
       case Confirming(t) => t in s.revoked
  }

  ghost predicate Inv(s: State) {
    && (forall t | t in s.tenants :: TenantOk(s.clock, s.tenants[t]))
    && ConsumerOk(s)
    && (forall w | w in s.sweeps :: SweepOk(s, s.sweeps[w]))
  }

  /** How one action may change one row: not at all, or one rank up with the first-entry stamps. */
  predicate RowStep(clock: nat, t: Tenant, t': Tenant) {
    t' == t || (Rank(t'.status) == Rank(t.status) + 1 && t' == Stamped(t, t'.status, clock))
  }

  lemma RowKept(s: State, a: Action, t: nat)
    requires Inv(s) && Enabled(s, a) && t in Next(s, a).tenants
    ensures t in s.tenants ==> RowStep(s.clock, s.tenants[t], Next(s, a).tenants[t])
    ensures TenantOk(Next(s, a).clock, Next(s, a).tenants[t])
  {
  }

  lemma PlanKept(clock: nat, tenants: map<nat, Tenant>, tenants': map<nat, Tenant>, now: nat, p: Plan)
    requires PlanOk(tenants, now, p) && p.tenant in tenants' && TenantOk(clock, tenants[p.tenant])
    requires RowStep(clock, tenants[p.tenant], tenants'[p.tenant])
    ensures PlanOk(tenants', now, p)
  {
  }

  lemma MoveKept(clock: nat, tenants: map<nat, Tenant>, tenants': map<nat, Tenant>, now: nat, m: (nat, Status))
    requires MoveOk(tenants, now, m) && m.0 in tenants' && TenantOk(clock, tenants[m.0])
    requires RowStep(clock, tenants[m.0], tenants'[m.0])
    ensures MoveOk(tenants', now, m)
  {
  }

  /** A sweep's record stays right whatever happens to the rows. */
  lemma RecordKept(s: State, a: Action, v: Sweep)
    requires Inv(s) && Enabled(s, a) && SweepOk(s, v)
    ensures SweepOk(Next(s, a), v)
  {
    var s' := Next(s, a);
    if v.plan.Some? {
      RowKept(s, a, v.plan.value.tenant);
      PlanKept(s.clock, s.tenants, s'.tenants, v.now, v.plan.value);
    }
    forall m | m in v.moved ensures MoveOk(s'.tenants, v.now, m) {
      RowKept(s, a, m.0);
      MoveKept(s.clock, s.tenants, s'.tenants, v.now, m);
    }
  }

  lemma NewMoveOk(s: State, w: nat)
    requires Inv(s) && Enabled(s, Transition(w))
    requires var p := s.sweeps[w].plan.value; p.tenant in s.tenants && s.tenants[p.tenant].status == p.from
    ensures var p := s.sweeps[w].plan.value;
            MoveOk(DoTransition(s, w).tenants, s.sweeps[w].now, (p.tenant, p.from))
  {
  }

  lemma SweepKept(s: State, a: Action, w: nat)
    requires Inv(s) && Enabled(s, a) && w in Next(s, a).sweeps
    ensures SweepOk(Next(s, a), Next(s, a).sweeps[w])
  {
    if w in s.sweeps {
      RecordKept(s, a, s.sweeps[w]);
      if a == Transition(w) {
        var p := s.sweeps[w].plan.value;
        if p.tenant in s.tenants && s.tenants[p.tenant].status == p.from {
          NewMoveOk(s, w);
        }
      }
    }
  }

  lemma InvStep(s: State, a: Action)
    requires Inv(s) && Enabled(s, a)
    ensures Inv(Next(s, a))
  {
    var s' := Next(s, a);
    forall t | t in s'.tenants ensures TenantOk(s'.clock, s'.tenants[t]) { RowKept(s, a, t); }
    forall w | w in s'.sweeps ensures SweepOk(s', s'.sweeps[w]) { SweepKept(s, a, w); }
    ConsumerKept(s, a);
  }

  lemma ConsumerKept(s: State, a: Action)
    requires Inv(s) && Enabled(s, a)
    ensures ConsumerOk(Next(s, a))
  {
    if a.Transition? { assert SweepOk(s, s.sweeps[a.w]); }
    forall t | t in s.revoked ensures t in Next(s, a).tenants && Next(s, a).tenants[t].status != Active {
      StepKeepsRows(s, a);
      RowKept(s, a, t);
    }
  }

  // ----- Whole runs -----

  type Trace = Run<State, Action>

  ghost predicate StepAt(r: Trace, i: nat)
    requires |r.states| == |r.actions| + 1 && i < |r.actions|
  {
    Enabled(r.states[i], r.actions[i]) && r.states[i + 1] == Next(r.states[i], r.actions[i])
  }

  /** A run starts from rows with consistent stamps and no consumer or sweeper at work. */
  ghost predicate IsRun(r: Trace) {
    && |r.states| == |r.actions| + 1
    && (forall t | t in r.states[0].tenants :: TenantOk(r.states[0].clock, r.states[0].tenants[t]))
    && r.states[0].consumer.Idle? && r.states[0].revoked == {} && r.states[0].sweeps == map[]
    && forall i: nat | i < |r.actions| :: StepAt(r, i)
  }

  lemma {:induction false} RunInv(r: Trace, n: nat)
    requires IsRun(r) && n < |r.states|
    ensures Inv(r.states[n])
  {
    if n > 0 {
      RunInv(r, n - 1);
      assert StepAt(r, n - 1);
      InvStep(r.states[n - 1], r.actions[n - 1]);
    }
  }

  lemma StepKeepsRows(s: State, a: Action)
    requires Enabled(s, a)
    ensures forall t | t in s.tenants :: t in Next(s, a).tenants
    ensures s.clock <= Next(s, a).clock
  {
  }

  /** In every step of every run a tenant stays where it is or moves exactly one rank forward. */
  lemma OneRankAtATime(r: Trace, n: nat, t: nat)
    requires IsRun(r) && n < |r.actions| && t in r.states[n].tenants
    ensures t in r.states[n + 1].tenants
    ensures RowStep(r.states[n].clock, r.states[n].tenants[t], r.states[n + 1].tenants[t])
  {
    RunInv(r, n);
    assert StepAt(r, n);
    StepKeepsRows(r.states[n], r.actions[n]);
    RowKept(r.states[n], r.actions[n], t);
  }

  lemma {:induction false} NeverBack(r: Trace, m: nat, n: nat, t: nat)
    requires IsRun(r) && m <= n < |r.states| && t in r.states[m].tenants
    ensures t in r.states[n].tenants && Rank(r.states[m].tenants[t].status) <= Rank(r.states[n].tenants[t].status)
    ensures r.states[m].clock <= r.states[n].clock
    ensures r.states[m].tenants[t].status == r.states[n].tenants[t].status ==>
            r.states[m].tenants[t] == r.states[n].tenants[t]
    ensures r.states[m].tenants[t].suspendedAt.Some? ==>
              r.states[n].tenants[t].suspendedAt == r.states[m].tenants[t].suspendedAt
  {
    if m < n {
      NeverBack(r, m, n - 1, t);
      OneRankAtATime(r, n - 1, t);
      assert StepAt(r, n - 1);
      StepKeepsRows(r.states[n - 1], r.actions[n - 1]);
    }
  }

  /** The step takes the tenant out of status `from`. */
  predicate TakesEdge(s: State, s': State, t: nat, from: Status) {
    t in s.tenants && t in s'.tenants && s.tenants[t].status == from && s'.tenants[t].status != from
  }

  /** No edge of a tenant's lifecycle is taken twice in a run. */
  lemma EdgeTakenOnce(r: Trace, i: nat, j: nat, t: nat, from: Status)
    requires IsRun(r) && i < |r.actions| && j < |r.actions|
    requires TakesEdge(r.states[i], r.states[i + 1], t, from) && TakesEdge(r.states[j], r.states[j + 1], t, from)
    ensures i == j
  {
    OneRankAtATime(r, i, t);
    OneRankAtATime(r, j, t);
    if i < j {
      NeverBack(r, i + 1, j, t);
    } else if j < i {
      NeverBack(r, j + 1, i, t);
    }
  }

  /**
    A tenant that was suspended at step i is purge_eligible in a state n only if the clock of that
    state is at least 270 days past the moment of the suspension.
  */
  lemma PurgeEligibleAfter270Days(r: Trace, i: nat, n: nat, t: nat)
    requires IsRun(r) && i < n < |r.states| && TakesEdge(r.states[i], r.states[i + 1], t, Active)
    requires t in r.states[n].tenants && r.states[n].tenants[t].status == PurgeEligible
    ensures r.states[n].tenants[t].suspendedAt == Some(r.states[i].clock)
    ensures r.states[i].clock + 270 * 86400 <= r.states[n].clock
  {
    RunInv(r, i);
    OneRankAtATime(r, i, t);
    NeverBack(r, i + 1, n, t);
    RunInv(r, n);
  }

  // ----- A suspension and the tenant's sessions -----

  /** The consumer gave up between the status write and the session bump of tenant t. */
  predicate GivesUpOn(s: State, a: Action, t: nat) { a.Nak? && s.consumer == Revoking(t) }

  ghost predicate GaveUpIn(r: Trace, lo: nat, hi: nat, t: nat)
    requires |r.states| == |r.actions| + 1 && hi <= |r.actions|
  {
    exists j | lo <= j < hi :: GivesUpOn(r.states[j], r.actions[j], t)
  }

  lemma ConsumerStep(s: State, a: Action, t: nat)
    requires Inv(s) && Enabled(s, a) && t in s.tenants && s.tenants[t].status != Active
    ensures var s' := Next(s, a);
            && (s'.consumer == Revoking(t) ==> s.consumer == Revoking(t))
            && (t in s'.revoked <==> t in s.revoked || (s.consumer == Revoking(t) && a.Revoke?))
            && (s.consumer == Revoking(t) && s'.consumer != Revoking(t) ==> a.Revoke? || a.Nak?)
  {
  }

  /**
    Of a tenant suspended at step i, the sessions are ended by state n if and only if the consumer is
    not still about to end them and never gave up on it after the status write. Redelivery does not
    help: it finds the tenant no longer active.
  */
  lemma {:induction false} SessionsEndedIff(r: Trace, i: nat, n: nat, t: nat)
    requires IsRun(r) && i < n < |r.states| && r.actions[i] == Suspend && r.states[i].consumer == Suspending(t)
    ensures t in r.states[n].tenants && r.states[n].tenants[t].status != Active
    ensures r.states[n].consumer == Revoking(t) ==> !GaveUpIn(r, i, n, t)
    ensures t in r.states[n].revoked <==> r.states[n].consumer != Revoking(t) && !GaveUpIn(r, i, n, t)
  {
    RunInv(r, n - 1);
    assert StepAt(r, n - 1);
    if i + 1 < n {
      SessionsEndedIff(r, i, n - 1, t);
      ConsumerStep(r.states[n - 1], r.actions[n - 1], t);
      OneRankAtATime(r, n - 1, t);
      assert GaveUpIn(r, i, n, t) <==> GaveUpIn(r, i, n - 1, t) || GivesUpOn(r.states[n - 1], r.actions[n - 1], t);
    }
  }

  /** A suspension whose bump fails: the redelivery is acked, and no later state has the sessions ended. */
  lemma SuspendedButNotRevoked() returns (r: Trace)
    ensures IsRun(r) && |r.actions| == 5 && r.actions[4] == Deliver(0, true)
    ensures var s := r.states[5];
            s.consumer == Idle && s.tenants == map[0 := Tenant(Suspended, Some(0), None)] && s.revoked == {}
    ensures forall r': Trace, n: nat | IsRun(r') && PrefixOf(r, r') && 5 <= n < |r'.states| ::
            0 !in r'.states[n].revoked
  {
    var s0 := State(0, map[], Idle, {}, map[]);
    var s1 := Next(s0, Create(0));
    var s2 := Next(s1, Deliver(0, true));
    var s3 := Next(s2, Suspend);
    var s4 := Next(s3, Nak);
    r := Run([s0, s1, s2, s3, s4, Next(s4, Deliver(0, true))],
        [Create(0), Deliver(0, true), Suspend, Nak, Deliver(0, true)]);
    assert forall i: nat | i < 5 :: StepAt(r, i);
    forall r': Trace, n: nat | IsRun(r') && PrefixOf(r, r') && 5 <= n < |r'.states| ensures 0 !in r'.states[n].revoked {
      assert GivesUpOn(r'.states[3], r'.actions[3], 0);
      SessionsEndedIff(r', 2, n, 0);
    }
  }

  /** The statuses out of which the sweep has moved tenant t. */
  function MovesOf(v: Sweep, t: nat): set<Status> {
    set from | from in {Active, Suspended, Grace, Deactivated, PurgeEligible} && (t, from) in v.moved
  }

  /** Whatever the batches and races, one sweep with its fixed `now` moves a tenant at most two ranks. */
  lemma SweepMovesAtMostTwoRanks(r: Trace, n: nat, w: nat, t: nat)
    requires IsRun(r) && n < |r.states| && w in r.states[n].sweeps
    ensures |MovesOf(r.states[n].sweeps[w], t)| <= 2
  {
    RunInv(r, n);
    var v := r.states[n].sweeps[w];
    assert SweepOk(r.states[n], v);
    var froms := MovesOf(v, t);
    forall from | from in froms ensures from != Active && from != PurgeEligible {
      assert MoveOk(r.states[n].tenants, v.now, (t, from));
    }
    assert Grace in froms ==> MoveOk(r.states[n].tenants, v.now, (t, Grace));
    assert Deactivated in froms ==> MoveOk(r.states[n].tenants, v.now, (t, Deactivated));
    var two := if Grace in froms then {Suspended, Grace} else {Suspended, Deactivated};
    assert froms <= two;
    SubsetIsSmaller(froms, two);
  }
}
