/**
  The billing consumer, the advance step and the retention sweep in the order the program runs them,
  over tenant rows shared with other sweepers and the clock. The ghost history `run` is a run of the
  lifecycle protocol.
*/
module LifecycleService {
  import opened Prelude
  import opened Lifecycle

  datatype Advance = Moved(from: Status, to: Status) | NoTransition | AdvanceError

  /** The action belongs to sweep w. */
  predicate ActsFor(a: Action, w: nat) {
    match a
    case BeginSweep(v, _) => v == w
    case ReadTenant(v, _) => v == w
    case Transition(v) => v == w
    case GiveUp(v) => v == w
    case _ => false
  }

  predicate Consumes(a: Action) { a.Deliver? || a.Suspend? || a.Revoke? || a.Ack? || a.Nak? }

  lemma ExtendRun(r: Trace, a: Action)
    requires IsRun(r) && Enabled(r.states[|r.actions|], a)
    ensures IsRun(Run(r.states + [Next(r.states[|r.actions|], a)], r.actions + [a]))
  {
    var r' := Run(r.states + [Next(r.states[|r.actions|], a)], r.actions + [a]);
    forall i: nat | i < |r'.actions| ensures StepAt(r', i) {
      if i < |r.actions| {
        assert StepAt(r, i);
      }
    }
  }

  // ----- Listings -----

  function Limit(limit: int): nat { if limit <= 0 then 500 else limit }

  /** COALESCE(deactivated_at, suspended_at) */
  function Stamp(t: Tenant): Option<nat> { if t.deactivatedAt.Some? then t.deactivatedAt else t.suspendedAt }

  predicate NoLater(t: Tenant, t': Tenant) {
    Stamp(t').Some? ==> Stamp(t).Some? && Stamp(t).value <= Stamp(t').value
  }

  /** Due rows, no row twice, in the order of their stamps; those left out come later and only after a full list. */
  predicate IsListing(tenants: map<nat, Tenant>, now: nat, limit: nat, due: seq<nat>) {
    && |due| <= limit
    && (forall i | 0 <= i < |due| :: due[i] in tenants && IsDue(tenants[due[i]], now))
    && (forall i, j | 0 <= i < j < |due| :: due[i] != due[j] && NoLater(tenants[due[i]], tenants[due[j]]))
    && forall t | t in tenants && IsDue(tenants[t], now) && t !in due ::
         |due| == limit && forall i | 0 <= i < |due| :: NoLater(tenants[due[i]], tenants[t])
  }

  /** Listed in the order of COALESCE(deactivated_at, suspended_at), written out. */
  lemma ListedByStamp(tenants: map<nat, Tenant>, now: nat, limit: nat, due: seq<nat>, i: nat, j: nat)
    requires IsListing(tenants, now, limit, due) && i < j < |due|
    requires tenants[due[i]].suspendedAt.Some? && tenants[due[j]].suspendedAt.Some?
    ensures var a, b := tenants[due[i]], tenants[due[j]];
            (if a.deactivatedAt.Some? then a.deactivatedAt.value else a.suspendedAt.value)
            <= if b.deactivatedAt.Some? then b.deactivatedAt.value else b.suspendedAt.value
  {
  }

  predicate Earliest(tenants: map<nat, Tenant>, left: set<nat>, t: nat) {
    t in tenants && forall u | u in left :: u in tenants && NoLater(tenants[t], tenants[u])
  }

  lemma {:induction false} EarliestExists(tenants: map<nat, Tenant>, left: set<nat>)
    requires left != {} && forall t | t in left :: t in tenants
    ensures exists t :: t in left && Earliest(tenants, left, t)
  {
    var x :| x in left;
    if left == {x} {
      assert Earliest(tenants, left, x);
    } else {
      EarliestExists(tenants, left - {x});
      var y :| y in left - {x} && Earliest(tenants, left - {x}, y);
      var t := if NoLater(tenants[x], tenants[y]) then x else y;
      forall u | u in left ensures u in tenants && NoLater(tenants[t], tenants[u]) {
        assert u == x || u in left - {x};
      }
      assert Earliest(tenants, left, t);
    }
  }

  /** Half way through the query: what is listed is due and comes before what is left. */
  predicate Picked(tenants: map<nat, Tenant>, now: nat, left: set<nat>, due: seq<nat>) {
    && (forall t | t in left :: t in tenants && IsDue(tenants[t], now) && t !in due)
    && (forall i | 0 <= i < |due| ::
          due[i] in tenants && IsDue(tenants[due[i]], now) && Earliest(tenants, left, due[i]))
    && (forall i, j | 0 <= i < j < |due| :: due[i] != due[j] && NoLater(tenants[due[i]], tenants[due[j]]))
    && forall t | t in tenants && IsDue(tenants[t], now) :: t in left || t in due
  }

  lemma PickNext(tenants: map<nat, Tenant>, now: nat, left: set<nat>, due: seq<nat>, t: nat)
    requires Picked(tenants, now, left, due) && t in left && Earliest(tenants, left, t)
    ensures Picked(tenants, now, left - {t}, due + [t])
  {
    var due' := due + [t];
    forall i | 0 <= i < |due'|
      ensures due'[i] in tenants && IsDue(tenants[due'[i]], now) && Earliest(tenants, left - {t}, due'[i])
    {
      assert i < |due| ==> Earliest(tenants, left, due[i]);
    }
    forall i, j | 0 <= i < j < |due'| ensures due'[i] != due'[j] && NoLater(tenants[due'[i]], tenants[due'[j]]) {
      assert Earliest(tenants, left, due[i]) && due[i] in due;
    }
  }

  lemma PickedEnough(tenants: map<nat, Tenant>, now: nat, limit: nat, left: set<nat>, due: seq<nat>)
    requires Picked(tenants, now, left, due) && |due| <= limit && (left == {} || |due| == limit)
    ensures IsListing(tenants, now, limit, due)
  {
    forall t | t in tenants && IsDue(tenants[t], now) && t !in due
      ensures |due| == limit && forall i | 0 <= i < |due| :: NoLater(tenants[due[i]], tenants[t])
    {
      assert t in left;
      forall i | 0 <= i < |due| ensures NoLater(tenants[due[i]], tenants[t]) {
        assert Earliest(tenants, left, due[i]);
      }
    }
  }

  /** What a sweep listed and where in the run, and what each advance answered. */
  datatype Listing = Listing(at: nat, due: seq<nat>, answers: seq<Advance>)

  function Listed(ls: seq<Listing>): nat {
    if ls == [] then 0 else Listed(ls[..|ls| - 1]) + |ls[|ls| - 1].due|
  }

  function Moves(answers: seq<Advance>): nat {
    if answers == [] then 0
    else Moves(answers[..|answers| - 1]) + if answers[|answers| - 1].Moved? then 1 else 0
  }

  function Errors(answers: seq<Advance>): nat {
    if answers == [] then 0
    else Errors(answers[..|answers| - 1]) + if answers[|answers| - 1].AdvanceError? then 1 else 0
  }

  function AllMoves(ls: seq<Listing>): nat {
    if ls == [] then 0 else AllMoves(ls[..|ls| - 1]) + Moves(ls[|ls| - 1].answers)
  }

  function AllErrors(ls: seq<Listing>): nat {
    if ls == [] then 0 else AllErrors(ls[..|ls| - 1]) + Errors(ls[|ls| - 1].answers)
  }

  lemma {:induction false} NoErrorIff(answers: seq<Advance>)
    ensures Errors(answers) == 0 <==> forall i | 0 <= i < |answers| :: !answers[i].AdvanceError?
  {
    if answers != [] {
      NoErrorIff(answers[..|answers| - 1]);
    }
  }

  lemma {:induction false} NoErrorsIff(ls: seq<Listing>)
    ensures AllErrors(ls) == 0 <==>
            forall k, i | 0 <= k < |ls| && 0 <= i < |ls[k].answers| :: !ls[k].answers[i].AdvanceError?
  {
    if ls != [] {
      var n := |ls| - 1;
      NoErrorsIff(ls[..n]);
      NoErrorIff(ls[n].answers);
    }
  }

  /** Each tenant whose advance was answered without an error has left the status it had. */
  predicate AllLeft(tenants: map<nat, Tenant>, tenants': map<nat, Tenant>, due: seq<nat>, answers: seq<Advance>) {
    && |answers| <= |due|
    && forall k | 0 <= k < |answers| && !answers[k].AdvanceError? ::
         due[k] in tenants && due[k] in tenants' && Rank(tenants[due[k]].status) < Rank(tenants'[due[k]].status)
  }

  lemma LeftOn(r: Trace, r': Trace, tenants: map<nat, Tenant>, due: seq<nat>, answers: seq<Advance>)
    requires IsRun(r) && IsRun(r') && PrefixOf(r, r')
    ensures AllLeft(tenants, r.states[|r.actions|].tenants, due, answers) ==>
            AllLeft(tenants, r'.states[|r'.actions|].tenants, due, answers)
  {
    forall k | 0 <= k < |due| && due[k] in r.states[|r.actions|].tenants
      ensures due[k] in r'.states[|r'.actions|].tenants
      ensures Rank(r.states[|r.actions|].tenants[due[k]].status) <= Rank(r'.states[|r'.actions|].tenants[due[k]].status)
    {
      assert r'.states[|r.actions|] == r.states[|r.actions|];
      NeverBack(r', |r.actions|, |r'.actions|, due[k]);
    }
  }

  lemma AnswersGrow(answers: seq<Advance>, r: Advance)
    ensures Moves(answers + [r]) == Moves(answers) + if r.Moved? then 1 else 0
    ensures Errors(answers + [r]) == Errors(answers) + if r.AdvanceError? then 1 else 0
  {
    assert (answers + [r])[..|answers|] == answers;
  }

  /** A tenant that was due is due still, or has left its status. */
  lemma StillDue(r: Trace, m: nat, t: nat, now: nat)
    requires IsRun(r) && m <= |r.actions| && t in r.states[m].tenants && IsDue(r.states[m].tenants[t], now)
    ensures t in r.states[|r.actions|].tenants
    ensures var was, current := r.states[m].tenants[t], r.states[|r.actions|].tenants[t];
            current == was || Rank(was.status) < Rank(current.status)
  {
    NeverBack(r, m, |r.actions|, t);
  }

  lemma LeftOneMore(
    r: Trace, r': Trace, tenants: map<nat, Tenant>, due: seq<nat>, answers: seq<Advance>, answer: Advance)
    requires IsRun(r) && IsRun(r') && PrefixOf(r, r')
    requires AllLeft(tenants, r.states[|r.actions|].tenants, due, answers) && |answers| < |due|
    requires var t := due[|answers|];
             && t in tenants && t in r.states[|r.actions|].tenants
             && var was, current := tenants[t], r.states[|r.actions|].tenants[t];
                || Rank(was.status) < Rank(current.status)
                || (current == was && (!answer.AdvanceError? ==>
                      t in r'.states[|r'.actions|].tenants
                      && Rank(current.status) < Rank(r'.states[|r'.actions|].tenants[t].status)))
    ensures AllLeft(tenants, r'.states[|r'.actions|].tenants, due, answers + [answer])
  {
    var t := due[|answers|];
    LeftOn(r, r', tenants, due, answers);
    assert r'.states[|r.actions|] == r.states[|r.actions|];
    NeverBack(r', |r.actions|, |r'.actions|, t);
  }

  /** A listing of the run; every tenant on it whose advance did not fail has since left its status. */
  ghost predicate ListingOk(r: Trace, now: nat, limit: nat, l: Listing) {
    && |r.states| == |r.actions| + 1 && l.at < |r.states| && |l.answers| == |l.due|
    && IsListing(r.states[l.at].tenants, now, limit, l.due)
    && AllLeft(r.states[l.at].tenants, r.states[|r.actions|].tenants, l.due, l.answers)
  }

  ghost predicate Listings(r: Trace, now: nat, limit: nat, ls: seq<Listing>) {
    forall k | 0 <= k < |ls| :: ListingOk(r, now, limit, ls[k])
  }

  lemma ListingsOn(r: Trace, r': Trace, now: nat, limit: nat, ls: seq<Listing>)
    requires IsRun(r) && IsRun(r') && PrefixOf(r, r') && Listings(r, now, limit, ls)
    ensures Listings(r', now, limit, ls)
  {
    forall k | 0 <= k < |ls| ensures ListingOk(r', now, limit, ls[k]) {
      assert ListingOk(r, now, limit, ls[k]);
      LeftOn(r, r', r.states[ls[k].at].tenants, ls[k].due, ls[k].answers);
    }
  }

  /** From lo to the end the consumer wrote no status, unless at n. */
  ghost predicate SuspendsOnlyAt(r: Trace, lo: nat, n: Option<nat>) {
    forall k | lo <= k < |r.actions| && r.actions[k] == Suspend :: n == Some(k)
  }

  class Service {
    const reliable: bool
    var s: State
    ghost var run: Trace

    ghost predicate Valid() reads this {
      IsRun(run) && s == run.states[|run.actions|]
    }

    /** `reliable` stands for a database none of whose statements fail. */
    constructor (clock: nat, reliable: bool)
      ensures Valid() && s.clock == clock && s.tenants == map[] && this.reliable == reliable
    {
      this.reliable := reliable;
      s := State(clock, map[], Idle, {}, map[]);
      run := Run([State(clock, map[], Idle, {}, map[])], []);
    }

    method Do(a: Action)
      requires Valid() && Enabled(s, a)
      modifies this
      ensures Valid() && s == Next(old(s), a)
      ensures run == Run(old(run).states + [s], old(run).actions + [a])
    {
      ExtendRun(run, a);
      s := Next(s, a);
      run := Run(run.states + [s], run.actions + [a]);
    }

    /** Everyone but sweep w: the clock, the consumer, other sweepers. */
    method OtherSweeps(w: nat)
      requires Valid() && w in s.sweeps
      modifies this
      ensures Valid() && PrefixOf(old(run), run) && w in s.sweeps && s.sweeps[w] == old(s).sweeps[w]
    {
      var schedule: seq<Action> := *;
      for i := 0 to |schedule|
        invariant Valid() && PrefixOf(old(run), run) && w in s.sweeps && s.sweeps[w] == old(s).sweeps[w]
      {
        if Enabled(s, schedule[i]) && !ActsFor(schedule[i], w) {
          Do(schedule[i]);
        }
      }
    }

    /** Everyone but the consumer, which handles one message at a time. */
    method OtherThanConsumer()
      requires Valid()
      modifies this
      ensures Valid() && PrefixOf(old(run), run) && s.consumer == old(s).consumer && s.revoked == old(s).revoked
      ensures SuspendsOnlyAt(run, |old(run).actions|, None)
    {
      var schedule: seq<Action> := *;
      for i := 0 to |schedule|
        invariant Valid() && PrefixOf(old(run), run) && s.consumer == old(s).consumer && s.revoked == old(s).revoked
        invariant SuspendsOnlyAt(run, |old(run).actions|, None)
      {
        if Enabled(s, schedule[i]) && !Consumes(schedule[i]) {
          Do(schedule[i]);
        }
      }
    }

    /** A call that changes nothing, and whether it fails. */
    method Fails() returns (failed: bool)
      ensures reliable ==> !failed
    {
      failed := *;
      failed := failed && !reliable;
    }

    /**
      A delivery, however often repeated: it writes a tenant's status at most once, at n, out of
      'active', at the very moment it stamps suspended_at. It is acked if and only if no call of it
      failed (`err`) and the tenant is known or the event irrelevant; an ack means that the event was
      irrelevant, that the tenant was not active when read, or that this call suspended it and ended its
      sessions. A status write that is reported as an error may have been done.
    */
    method Handle(t: nat, relevant: bool) returns (acked: bool, ghost err: bool, ghost n: Option<nat>)
      requires Valid() && s.consumer.Idle?
      modifies this
      ensures Valid() && PrefixOf(old(run), run) && s.consumer.Idle? && (reliable ==> !err)
      ensures acked <==> !err && (!relevant || t in old(s).tenants)
      ensures relevant && t !in old(s).tenants ==> n.None?
      ensures SuspendsOnlyAt(run, |old(run).actions|, n)
      ensures n.Some? ==>
        && relevant && |old(run).actions| < n.value < |run.actions|
        && run.actions[n.value] == Suspend && TakesEdge(run.states[n.value], run.states[n.value + 1], t, Active)
        && run.states[n.value + 1].tenants
           == run.states[n.value].tenants[t := Tenant(Suspended, Some(run.states[n.value].clock), None)]
        && (acked ==> t in s.revoked)
        && (!acked ==> t in s.revoked || GaveUpIn(run, n.value, |run.actions|, t))
      ensures n.None? && acked ==> !relevant || (t in old(s).tenants && old(s).tenants[t].status != Active)
    {
      err, n := false, None;
      if relevant {
        var failed := Fails();
        err := failed;
        if failed {
          return false, err, n;
        }
      }
      Do(Deliver(t, relevant));
      if s.consumer.Idle? {
        return !relevant || t in s.tenants, err, n;
      }
      OtherThanConsumer();
      acked, err, n := SuspendTenant(t);
    }

    /** SuspendTenant: the status write, then the sessions. */
    method SuspendTenant(t: nat) returns (acked: bool, ghost err: bool, ghost n: Option<nat>)
      requires Valid() && s.consumer == Suspending(t)
      modifies this
      ensures Valid() && PrefixOf(old(run), run) && s.consumer.Idle?
      ensures (reliable ==> !err) && (acked <==> !err) && (acked ==> n.Some?)
      ensures SuspendsOnlyAt(run, |old(run).actions|, n)
      ensures n.Some? ==>
        && n.value == |old(run).actions| < |run.actions|
        && run.actions[n.value] == Suspend && TakesEdge(run.states[n.value], run.states[n.value + 1], t, Active)
        && run.states[n.value + 1].tenants
           == run.states[n.value].tenants[t := Tenant(Suspended, Some(run.states[n.value].clock), None)]
        && (acked ==> t in s.revoked)
        && (!acked ==> t in s.revoked || GaveUpIn(run, n.value, |run.actions|, t))
    {
      RunInv(run, |run.actions|);
      var failed := Fails();
      err := failed;
      var applied: bool := *;
      if failed && !applied {
        Do(Nak);
        return false, err, None;
      }
      n := Some(|run.actions|);
      Do(Suspend);
      ghost var written := run;
      if failed {
        Do(Nak);
        assert GivesUpOn(run.states[|written.actions|], run.actions[|written.actions|], t);
        return false, err, n;
      }
      acked, err := EndSessions(t);
    }

    /** The rest of SuspendTenant after its status write: end the sessions, then read the row back. */
    method EndSessions(t: nat) returns (acked: bool, ghost err: bool)
      requires Valid() && s.consumer == Revoking(t)
      modifies this
      ensures Valid() && PrefixOf(old(run), run) && s.consumer.Idle? && (reliable ==> !err)
      ensures acked <==> !err
      ensures acked ==> t in s.revoked
      ensures !acked ==> t in s.revoked || GaveUpIn(run, |old(run).actions|, |run.actions|, t)
      ensures SuspendsOnlyAt(run, |old(run).actions|, None)
    {
      OtherThanConsumer();
      var failed := Fails();
      err := failed;
      if failed {
        ghost var before := run;
        Do(Nak);
        assert GivesUpOn(run.states[|before.actions|], run.actions[|before.actions|], t);
        return false, err;
      }
      Do(Revoke);
      OtherThanConsumer();
      failed := Fails();
      err := failed;
      acked := !failed;
      Do(if acked then Ack else Nak);
    }

    /**
      At most one transition: reported exactly when this call applied it, on an edge the sweep had
      not taken before.
    */
    method AdvanceTenantLifecycle(w: nat, t: nat) returns (r: Advance, ghost err: bool, ghost n: nat)
      requires Valid() && w in s.sweeps && s.sweeps[w].plan.None? && t in s.tenants
      modifies this
      ensures Valid() && PrefixOf(old(run), run)
      ensures w in s.sweeps && s.sweeps[w].plan.None? && s.sweeps[w].now == old(s).sweeps[w].now
      ensures r.Moved? ==>
        && (t, r.from) !in old(s).sweeps[w].moved
        && s.sweeps[w].moved == old(s).sweeps[w].moved + {(t, r.from)}
        && Rank(r.to) == Rank(r.from) + 1
      ensures !r.Moved? ==> s.sweeps[w].moved == old(s).sweeps[w].moved
      ensures r.NoTransition? && NextStatus(old(s).tenants[t], old(s).sweeps[w].now).Some? ==>
        && |old(run).actions| < n < |run.actions| && run.actions[n] == Transition(w)
        && t in run.states[n].tenants && run.states[n].tenants[t].status != old(s).tenants[t].status
      ensures (r.AdvanceError? <==> err) && (reliable ==> !err)
      ensures !r.AdvanceError? && IsDue(old(s).tenants[t], old(s).sweeps[w].now) ==>
        t in s.tenants && Rank(old(s).tenants[t].status) < Rank(s.tenants[t].status)
    {
      DueAgrees(s.tenants[t], s.sweeps[w].now);
      n := 0;
      var failed := Fails();
      err := failed;
      if failed {
        return AdvanceError, err, n;
      }
      Do(ReadTenant(w, t));
      if s.sweeps[w].plan.None? {
        return NoTransition, err, n;
      }
      OtherSweeps(w);
      failed := Fails();
      err := failed;
      if failed {
        Do(GiveUp(w));
        return AdvanceError, err, n;
      }
      n := |run.actions|;
      r := ApplyPlan(w);
      NeverBack(run, |old(run).actions|, n, t);
      NeverBack(run, n, |run.actions|, t);
    }

    /** The guarded update, and how its caller learns of it. */
    method ApplyPlan(w: nat) returns (r: Advance)
      requires Valid() && w in s.sweeps && s.sweeps[w].plan.Some?
      modifies this
      ensures Valid() && run == Run(old(run).states + [s], old(run).actions + [Transition(w)])
      ensures w in s.sweeps && s.sweeps[w].plan.None? && s.sweeps[w].now == old(s).sweeps[w].now && !r.AdvanceError?
      ensures var p := old(s).sweeps[w].plan.value;
              && p.tenant in old(s).tenants && (r.Moved? <==> old(s).tenants[p.tenant].status == p.from)
              && (r.Moved? ==>
                    && r == Moved(p.from, p.to) && Rank(p.to) == Rank(p.from) + 1
                    && p.tenant in s.tenants && s.tenants[p.tenant].status == p.to
                    && (p.tenant, p.from) !in old(s).sweeps[w].moved
                    && s.sweeps[w].moved == old(s).sweeps[w].moved + {(p.tenant, p.from)})
              && (!r.Moved? ==> s.sweeps[w].moved == old(s).sweeps[w].moved)
    {
      RunInv(run, |run.actions|);
      assert SweepOk(s, s.sweeps[w]);
      var p := s.sweeps[w].plan.value;
      var wins := s.tenants[p.tenant].status == p.from;
      assert wins ==> (p.tenant, p.from) !in s.sweeps[w].moved by {
        if (p.tenant, p.from) in s.sweeps[w].moved {
          assert MoveOk(s.tenants, s.sweeps[w].now, (p.tenant, p.from));
        }
      }
      Do(Transition(w));
      r := if wins then Moved(p.from, p.to) else NoTransition;
    }

    /** ListTenantsDueForLifecycle: due rows in the order of their stamps, 500 if no limit is given. */
    method ListDue(now: nat, limit: int) returns (due: seq<nat>)
      ensures IsListing(s.tenants, now, if limit <= 0 then 500 else limit, due)
    {
      var left := set t | t in s.tenants && IsDue(s.tenants[t], now);
      due := [];
      while left != {} && |due| < Limit(limit)
        invariant |due| <= Limit(limit) && Picked(s.tenants, now, left, due)
        decreases left
      {
        EarliestExists(s.tenants, left);
        var t :| t in left && Earliest(s.tenants, left, t);
        PickNext(s.tenants, now, left, due, t);
        left := left - {t};
        due := due + [t];
      }
      PickedEnough(s.tenants, now, Limit(limit), left, due);
    }

    /**
      One batch of the sweep, tenant by tenant, with the answers: those that moved and those in error are
      counted, and every tenant without an error has left the status it was listed in.
    */
    method AdvanceAll(w: nat, due: seq<nat>) returns (moved: nat, lost: nat, ghost answers: seq<Advance>)
      requires Valid() && w in s.sweeps && s.sweeps[w].plan.None?
      requires forall k | 0 <= k < |due| :: due[k] in s.tenants && IsDue(s.tenants[due[k]], s.sweeps[w].now)
      modifies this
      ensures Valid() && PrefixOf(old(run), run) && w in s.sweeps && s.sweeps[w].plan.None?
      ensures s.sweeps[w].now == old(s).sweeps[w].now
      ensures |answers| == |due| && moved == Moves(answers) && lost == Errors(answers)
      ensures |s.sweeps[w].moved| == |old(s).sweeps[w].moved| + moved
      ensures AllLeft(old(s).tenants, s.tenants, due, answers)
      ensures reliable ==> lost == 0
    {
      moved, lost, answers := 0, 0, [];
      for i := 0 to |due|
        invariant Valid() && PrefixOf(old(run), run) && w in s.sweeps && s.sweeps[w].plan.None?
        invariant s.sweeps[w].now == old(s).sweeps[w].now
        invariant |answers| == i && moved == Moves(answers) && lost == Errors(answers)
        invariant |s.sweeps[w].moved| == |old(s).sweeps[w].moved| + moved
        invariant AllLeft(old(s).tenants, s.tenants, due, answers)
        invariant reliable ==> lost == 0
      {
        ghost var before := run;
        StillDue(run, |old(run).actions|, due[i], s.sweeps[w].now);
        var trans, _, _ := AdvanceTenantLifecycle(w, due[i]);
        LeftOneMore(before, run, old(s).tenants, due, answers, trans);
        AnswersGrow(answers, trans);
        answers := answers + [trans];
        match trans
        case AdvanceError => lost := lost + 1;
        case NoTransition =>
        case Moved(_, _) => moved := moved + 1;
      }
    }

    /**
      The sweep: its transition count is exactly the number of lifecycle edges it took, each tenant
      moved at most two ranks, `seen` is the number listed, and it is ok if and only if no listing and no
      advance failed. Every listed tenant whose advance did not fail has left the status it was listed in,
      and the last listing left no due tenant out, unless the cap on batches was reached.
    */
    method RunSweep(w: nat, batchSize: int, maxBatches: nat)
      returns (ok: bool, listFailed: bool, seen: nat, failed: nat, transitions: nat, ghost listings: seq<Listing>)
      requires Valid() && w !in s.sweeps
      modifies this
      ensures Valid() && PrefixOf(old(run), run) && w in s.sweeps
      ensures transitions == |s.sweeps[w].moved| == AllMoves(listings) && failed == AllErrors(listings)
      ensures ok <==> !listFailed && forall k, i | 0 <= k < |listings| && 0 <= i < |listings[k].answers| ::
                                       !listings[k].answers[i].AdvanceError?
      ensures reliable ==> ok
      ensures forall t: nat :: |MovesOf(s.sweeps[w], t)| <= 2
      ensures seen == Listed(listings) && |listings| <= maxBatches
      ensures Listings(run, old(s).clock, Limit(batchSize), listings)
      ensures !listFailed && |listings| < maxBatches ==>
              listings != [] && |listings[|listings| - 1].due| < Limit(batchSize)
    {
      var now := s.clock;
      Do(BeginSweep(w, now));
      seen, failed, transitions := 0, 0, 0;
      listFailed, listings := false, [];
      for batch := 0 to maxBatches
        invariant Valid() && PrefixOf(old(run), run) && w in s.sweeps && s.sweeps[w].plan.None?
        invariant s.sweeps[w].now == now && !listFailed
        invariant transitions == |s.sweeps[w].moved| == AllMoves(listings) && failed == AllErrors(listings)
        invariant reliable ==> failed == 0
        invariant seen == Listed(listings) && |listings| == batch
        invariant Listings(run, now, Limit(batchSize), listings)
      {
        ghost var before := run;
        var due, moved, lost; ghost var l;
        listFailed, due, moved, lost, l := SweepBatch(w, now, batchSize);
        ListingsOn(before, run, now, Limit(batchSize), listings);
        if listFailed {
          break;
        }
        assert (listings + [l])[..batch] == listings;
        listings := listings + [l];
        if |due| == 0 {
          break;
        }
        seen, failed, transitions := seen + |due|, failed + lost, transitions + moved;
        if |due| < batchSize {
          break;
        }
      }
      ok := !listFailed && failed == 0;
      NoErrorsIff(listings);
      forall t: nat ensures |MovesOf(s.sweeps[w], t)| <= 2 {
        SweepMovesAtMostTwoRanks(run, |run.actions|, w, t);
      }
    }

    method SweepBatch(w: nat, now: nat, batchSize: int)
      returns (listFailed: bool, due: seq<nat>, moved: nat, lost: nat, ghost l: Listing)
      requires Valid() && w in s.sweeps && s.sweeps[w].plan.None? && s.sweeps[w].now == now
      modifies this
      ensures Valid() && PrefixOf(old(run), run) && w in s.sweeps && s.sweeps[w].plan.None? && s.sweeps[w].now == now
      ensures |s.sweeps[w].moved| == |old(s).sweeps[w].moved| + moved
      ensures reliable ==> !listFailed && lost == 0
      ensures listFailed ==> moved == 0
      ensures !listFailed ==>
        && l.due == due && moved == Moves(l.answers) && lost == Errors(l.answers)
        && ListingOk(run, now, Limit(batchSize), l)
    {
      OtherSweeps(w);
      listFailed := Fails();
      due, moved, lost, l := [], 0, 0, Listing(|run.actions|, [], []);
      if !listFailed {
        due := ListDue(now, batchSize);
        ghost var answers;
        moved, lost, answers := AdvanceAll(w, due);
        l := Listing(l.at, due, answers);
      }
    }
  }
}
