/**
  The purge calls of the IAM service in the order the program runs them, over rows shared with every
  other operator and worker. Between any two statements of a call others may run any of theirs, and
  each statement may fail. The ghost history `run` is a run of the protocol.
*/
module PurgeService {
  import opened Prelude
  import opened Purge

  datatype Outcome =
    | Done(request: nat)
    | NotPurgeable | NotFound | SelfApproval | RequestExists | RepoError
    | MarkedFailed | Benign

  predicate ActsFor(a: Action, c: nat) {
    match a
    case Begin(_) => false
    case ListApproved(_) => false
    case SetStatus(_, _) => false
    case _ => a.c == c
  }

  lemma ExtendRun(r: Trace, a: Action)
    requires IsRun(r) && Enabled(r.states[|r.actions|], a)
    ensures IsRun(Run(r.states + [Next(r.states[|r.actions|], a)], r.actions + [a]))
  {
    var r' := Run(r.states + [Next(r.states[|r.actions|], a)], r.actions + [a]);
    forall i: nat | i < |r'.actions| ensures StepAt(r', i) {
      if i < |r.actions| {
        assert StepAt(r, i);
      }
    }
  }

  lemma OthersKeepCall(s: State, a: Action, c: nat)
    requires Enabled(s, a) && !ActsFor(a, c) && c < s.nextCall && c in s.calls
    ensures c in Next(s, a).calls && Next(s, a).calls[c] == s.calls[c] && c < Next(s, a).nextCall
  {
  }

  /** A request of the tenant was pending in the one state and is not in the other. */
  predicate GonePending(s: State, s': State, tenant: nat) {
    exists q :: q in s.requests && PendingFor(s, tenant, q) && !PendingFor(s', tenant, q)
  }

  predicate GoneOpen(s: State, s': State, tenant: nat) {
    exists q :: q in s.requests && OpenFor(s, tenant, q) && !OpenFor(s', tenant, q)
  }

  class Service {
    const reliable: bool
    var s: State
    ghost var run: Trace

    ghost predicate Valid() reads this {
      IsRun(run) && s == run.states[|run.actions|]
    }

    ghost predicate Mine(c: nat) reads this {
      c in s.calls && c < s.nextCall
    }

    /** `reliable` stands for a database none of whose statements fail. */
    constructor (tenants: map<nat, TenantStatus>, reliable: bool)
      requires forall t | t in tenants :: tenants[t] != Purged
      ensures Valid() && s.tenants == tenants && this.reliable == reliable && run.actions == []
    {
      this.reliable := reliable;
      s := State(tenants, map[], [], map[], 0);
      run := Run([State(tenants, map[], [], map[], 0)], []);
    }

    /** One repository statement. */
    method Do(a: Action)
      requires Valid() && Enabled(s, a)
      modifies this
      ensures Valid() && s == Next(old(s), a)
      ensures run == Run(old(run).states + [s], old(run).actions + [a])
    {
      ExtendRun(run, a);
      s := Next(s, a);
      run := Run(run.states + [s], run.actions + [a]);
    }

    /** Whatever everyone else does meanwhile. */
    method Others(c: nat)
      requires Valid() && Mine(c)
      modifies this
      ensures Valid() && PrefixOf(old(run), run) && Mine(c) && s.calls[c] == old(s).calls[c]
    {
      var schedule: seq<Action> := *;
      for i := 0 to |schedule|
        invariant Valid() && PrefixOf(old(run), run) && Mine(c) && s.calls[c] == old(s).calls[c]
      {
        if Enabled(s, schedule[i]) && !ActsFor(schedule[i], c) {
          OthersKeepCall(s, schedule[i], c);
          Do(schedule[i]);
        }
      }
    }

    method Open(start: Progress) returns (c: nat)
      requires Valid() && Enabled(s, Begin(start))
      modifies this
      ensures Valid() && PrefixOf(old(run), run) && |old(run).actions| < |run.actions|
      ensures Mine(c) && s.calls[c] == start
    {
      c := s.nextCall;
      Do(Begin(start));
      Others(c);
    }

    /** One statement of the call, then interference; `failed` is a database error, which ends the call. */
    method Statement(c: nat, a: Action) returns (failed: bool, ghost n: nat)
      requires Valid() && Mine(c) && Enabled(s, a) && ActsFor(a, c) && !a.Abort?
      modifies this
      ensures Valid() && PrefixOf(old(run), run)
      ensures n == |old(run).actions| < |run.actions| && run.states[n] == old(s)
      ensures failed ==> !reliable && run.actions[n] == Abort(c)
      ensures !failed ==>
        && run.actions[n] == a
        && run.states[n + 1] == Next(run.states[n], a)
        && (c in s.calls <==> c in run.states[n + 1].calls)
        && (c in s.calls ==> Mine(c) && s.calls[c] == run.states[n + 1].calls[c])
    {
      n := |run.actions|;
      failed := *;
      failed := failed && !reliable;
      if failed {
        Do(Abort(c));
      } else {
        Do(a);
        if c in s.calls {
          Others(c);
        }
      }
    }

    /** A pending request is stored only if the tenant was purge_eligible when read and none was open. */
    method RequestTenantPurge(tenant: nat, actor: nat) returns (r: Outcome, ghost i: nat, ghost n: nat)
      requires Valid()
      modifies this
      ensures Valid() && PrefixOf(old(run), run)
      ensures r.Done? || r.NotPurgeable? || r.RequestExists? || (r.RepoError? && !reliable)
      ensures r.NotPurgeable? ==> |old(run).actions| < i < |run.actions| && !Eligible(run.states[i], tenant)
      ensures r.RequestExists? ==> |old(run).actions| < n < |run.actions| && HasOpen(run.states[n], tenant)
      ensures r.Done? ==>
        && |old(run).actions| < i < n < |run.actions|
        && Eligible(run.states[i], tenant) && !HasOpen(run.states[n], tenant)
        && r.request !in run.states[n].requests
        && run.states[n + 1].requests == run.states[n].requests[r.request := Request(tenant, Pending, actor, None)]
    {
      var failed: bool;
      i, n := 0, 0;
      var c := Open(Requesting(tenant, actor));
      failed, i := Statement(c, GetTenant(c));
      if failed { return RepoError, i, n; }
      if c !in s.calls { return NotPurgeable, i, n; }
      var id := FreshId(s.requests.Keys);
      var duplicate := HasOpen(s, tenant);
      failed, n := Statement(c, Insert(c, id));
      r := if failed then RepoError else if duplicate then RequestExists else Done(id);
    }

    /** GetOpenTenantPurgeRequest */
    method FindOpen(tenant: nat) returns (found: Option<nat>)
      ensures if found.Some? then OpenFor(s, tenant, found.value) else !HasOpen(s, tenant)
    {
      if r :| r in s.requests && OpenFor(s, tenant, r) {
        found := Some(r);
      } else {
        found := None;
      }
    }

    /**
      A request becomes approved only from pending, by an actor who did not request it. `NotFound` means
      that none was pending at the open read, or that the one found had left that status at the update.
    */
    method ApproveTenantPurge(tenant: nat, actor: nat)
      returns (r: Outcome, ghost read: nat, ghost i: nat, ghost n: nat)
      requires Valid()
      modifies this
      ensures Valid() && PrefixOf(old(run), run)
      ensures r.Done? || r.NotPurgeable? || r.SelfApproval? || r.NotFound? || (r.RepoError? && !reliable)
      ensures |old(run).actions| < read < |run.actions|
      ensures r.NotPurgeable? ==> read < i < |run.actions| && !Eligible(run.states[i], tenant)
      ensures r.SelfApproval? ==>
        exists q :: PendingFor(run.states[read], tenant, q) && run.states[read].requests[q].requestedBy == actor
      ensures r.NotFound? ==>
        || !HasPending(run.states[read], tenant)
        || (read < n < |run.actions| && GonePending(run.states[read], run.states[n], tenant))
      ensures r.Done? ==>
        && read < i < n < |run.actions|
        && Eligible(run.states[i], tenant)
        && r.request in run.states[n].requests
        && var q := run.states[n].requests[r.request];
           && q.status == Pending && q.tenant == tenant && q.requestedBy != actor
           && run.states[n + 1].requests
              == run.states[n].requests[r.request := q.(status := Approved, approvedBy := Some(actor))]
    {
      var failed: bool;
      i, n := 0, 0;
      var c := Open(Approving(tenant, actor));
      r, read := ReadPending(c);
      if !r.Done? { return; }
      ghost var found := r.request;
      failed, i := Statement(c, GetTenant(c));
      if failed { return RepoError, read, i, n; }
      if c !in s.calls { return NotPurgeable, read, i, n; }
      r, n := ApproveRow(c);
      if r.NotFound? {
        assert PendingFor(run.states[read], tenant, found) && !PendingFor(run.states[n], tenant, found);
      }
    }

    /** The open read of an approval and the two checks behind it. */
    method ReadPending(c: nat) returns (r: Outcome, ghost i: nat)
      requires Valid() && Mine(c) && s.calls[c].Approving?
      modifies this
      ensures Valid() && PrefixOf(old(run), run) && i == |old(run).actions| < |run.actions|
      ensures r.Done? || r.SelfApproval? || r.NotFound? || (r.RepoError? && !reliable)
      ensures var p := old(s).calls[c];
              && (r.SelfApproval? ==>
                    exists q :: PendingFor(run.states[i], p.tenant, q) &&
                        run.states[i].requests[q].requestedBy == p.actor)
              && (r.NotFound? ==> !HasPending(run.states[i], p.tenant))
              && (r.Done? ==>
                    && Mine(c) && s.calls[c] == ApproveOpen(p.tenant, p.actor, r.request)
                    && PendingFor(run.states[i], p.tenant, r.request)
                    && run.states[i].requests[r.request].requestedBy != p.actor)
    {
      RunInv(run, |run.actions|);
      var tenant := s.calls[c].tenant;
      var found := FindOpen(tenant);
      var pending := found.Some? && s.requests[found.value].status == Pending;
      assert !pending ==> !HasPending(s, tenant);
      var failed;
      failed, i := Statement(c, GetOpen(c, found));
      r := if failed then RepoError
           else if c in s.calls then Done(found.value)
           else if pending then SelfApproval else NotFound;
    }

    method ApproveRow(c: nat) returns (r: Outcome, ghost n: nat)
      requires Valid() && Mine(c) && s.calls[c].ApproveChecked?
      modifies this
      ensures Valid() && PrefixOf(old(run), run)
      ensures r.Done? || r.NotFound? || (r.RepoError? && !reliable)
      ensures r.NotFound? ==>
        |old(run).actions| == n < |run.actions| &&
            !PendingFor(run.states[n], old(s).calls[c].tenant, old(s).calls[c].request)
      ensures r.Done? ==>
        && |old(run).actions| == n < |run.actions|
        && var p := old(s).calls[c];
           && r.request == p.request && r.request in run.states[n].requests
           && var q := run.states[n].requests[r.request];
              && q.status == Pending && q.tenant == p.tenant && q.requestedBy != p.actor
              && run.states[n + 1].requests
                 == run.states[n].requests[r.request := q.(status := Approved, approvedBy := Some(p.actor))]
    {
      var id := s.calls[c].request;
      RunInv(run, |run.actions|);
      assert CallOk(s, s.calls[c]);
      var wins := PendingFor(s, s.calls[c].tenant, id);
      var failed;
      failed, n := Statement(c, ApproveUpdate(c));
      r := if failed then RepoError else if wins then Done(id) else NotFound;
    }

    /**
      Cancelling closes an open request and touches nothing else. `NotFound` means that none was open at
      the read, or that the one found was closed at the update.
    */
    method CancelTenantPurge(tenant: nat, actor: nat) returns (r: Outcome, ghost read: nat, ghost n: nat)
      requires Valid()
      modifies this
      ensures Valid() && PrefixOf(old(run), run)
      ensures r.Done? || r.NotFound? || (r.RepoError? && !reliable)
      ensures |old(run).actions| < read < |run.actions|
      ensures r.NotFound? ==>
        || !HasOpen(run.states[read], tenant)
        || (read < n < |run.actions| && GoneOpen(run.states[read], run.states[n], tenant))
      ensures r.Done? ==>
        && read < n < |run.actions|
        && OpenFor(run.states[n], tenant, r.request)
        && run.states[n + 1].requests
           == run.states[n].requests[r.request := run.states[n].requests[r.request].(status := Cancelled)]
    {
      var failed: bool;
      n := 0;
      var c := Open(Cancelling(tenant, actor));
      var found := FindOpen(tenant);
      failed, read := Statement(c, GetOpen(c, found));
      if failed { return RepoError, read, n; }
      if c !in s.calls { return NotFound, read, n; }
      var wins := OpenFor(s, tenant, found.value);
      failed, n := Statement(c, CancelUpdate(c));
      r := if failed then RepoError else if wins then Done(found.value) else NotFound;
      assert OpenFor(run.states[read], tenant, found.value);
    }

    /** MarkTenantPurgeRequestFailed, guarded by status = 'approved'. */
    method MarkRow(c: nat) returns (r: Outcome, ghost n: nat)
      requires Valid() && Mine(c) && s.calls[c].PurgeErred?
      modifies this
      ensures Valid() && PrefixOf(old(run), run) && |old(run).actions| == n < |run.actions|
      ensures r.Benign? || r.MarkedFailed? || (r.RepoError? && !reliable)
      ensures r.Benign? || r.MarkedFailed? ==>
        && var q := old(s).calls[c].request;
           && q in run.states[n].requests && (r.MarkedFailed? <==> run.states[n].requests[q].status == Approved)
           && run.states[n + 1].requests == if r.Benign? then run.states[n].requests
              else run.states[n].requests[q := run.states[n].requests[q].(status := Failed)]
    {
      RunInv(run, |run.actions|);
      assert CallOk(s, s.calls[c]);
      var approved := s.requests[s.calls[c].request].status == Approved;
      var failed;
      failed, n := Statement(c, MarkFailed(c));
      r := if failed then RepoError else if approved then MarkedFailed else Benign;
    }

    /** PurgeTenantSchemaAndTombstone: reported as done only if it dropped the schema. */
    method TryPurge(c: nat) returns (failed: bool, done: bool, ghost n: nat)
      requires Valid() && Mine(c) && s.calls[c].Purging?
      modifies this
      ensures Valid() && PrefixOf(old(run), run) && n == |old(run).actions| < |run.actions|
      ensures failed ==> !reliable
      ensures !failed ==>
        var p := old(s).calls[c];
        if done then run.states[n + 1].drops == run.states[n].drops + [Drop(p.tenant, p.request)]
        else Mine(c) && s.calls[c] == PurgeErred(p.request)
    {
      var commits: bool, reported: bool := *, *;
      failed, n := Statement(c, PurgeTx(c, commits, reported));
      done := !failed && c !in s.calls;
    }

    /**
      The worker executes a request it listed as approved. `Done`: this call dropped the schema.
      `MarkedFailed`: the request was still approved and is failed now. `Benign`: the request was
      closed when the call came to mark it, so the mark changed nothing; the schema was then dropped
      for it, by this call's own unreported commit or by another worker, exactly if it is executed.
    */
    method PurgeApprovedTenant(request: nat) returns (r: Outcome, ghost n: nat)
      requires Valid() && request in s.requests && s.requests[request].status == Approved
      modifies this
      ensures Valid() && PrefixOf(old(run), run) && |old(run).actions| < n < |run.actions|
      ensures r.Done? || r.Benign? || r.MarkedFailed? || (r.RepoError? && !reliable)
      ensures r.Done? ==>
        run.states[n + 1].drops == run.states[n].drops + [Drop(old(s).requests[request].tenant, request)]
      ensures r.Benign? || r.MarkedFailed? ==>
        && request in run.states[n].requests
        && (r.MarkedFailed? <==> run.states[n].requests[request].status == Approved)
        && run.states[n + 1].requests == if r.Benign? then run.states[n].requests
           else run.states[n].requests[request := run.states[n].requests[request].(status := Failed)]
      ensures r.Benign? ==>
        && Closed(run.states[n].requests[request])
        && (run.states[n].requests[request].status == Executed <==> DroppedFor(run.states[n], request))
    {
      var failed: bool;
      var c := s.nextCall;
      Do(ListApproved(request));
      Others(c);
      var done;
      failed, done, n := TryPurge(c);
      if failed { return RepoError, n; }
      if done { return Done(request), n; }
      r, n := MarkRow(c);
      ApprovedUntilClosed(run, |old(run).actions|, n, request);
      ExecutedIffDropped(run, n, request);
    }
  }
}
