/**
  The two-person purge protocol, one action per repository statement: operators request, approve
  and cancel while any number of purge workers execute approved requests. Calls interleave freely,
  any of them may fail between two statements, and a committed purge may be reported as an error.
*/
module Purge {
  import opened Prelude

  /** The tenant states the protocol tells apart. */
  datatype TenantStatus = PurgeEligible | Purged | OtherStatus
  datatype RequestStatus = Pending | Approved | Executed | Failed | Cancelled
  datatype Request = Request(tenant: nat, status: RequestStatus, requestedBy: nat, approvedBy: Option<nat>)

  datatype Progress =
    | Requesting(tenant: nat, actor: nat)
    | RequestChecked(tenant: nat, actor: nat)
    | Approving(tenant: nat, actor: nat)
    | ApproveOpen(tenant: nat, actor: nat, request: nat)
    | ApproveChecked(tenant: nat, actor: nat, request: nat)
    | Cancelling(tenant: nat, actor: nat)
    | CancelOpen(tenant: nat, actor: nat, request: nat)
    | Purging(tenant: nat, request: nat)
    | PurgeErred(request: nat)

  /** A committed DROP SCHEMA, with the request it was executed for. */
  datatype Drop = Drop(tenant: nat, request: nat)

  datatype State = State(
    tenants: map<nat, TenantStatus>,
    requests: map<nat, Request>,
    drops: seq<Drop>,
    calls: map<nat, Progress>,
    nextCall: nat)

  datatype Action =
    | Begin(p: Progress)
    | ListApproved(r: nat)
    | GetTenant(c: nat)
    | GetOpen(c: nat, found: Option<nat>)
    | Insert(c: nat, id: nat)
    | ApproveUpdate(c: nat)
    | CancelUpdate(c: nat)
    | PurgeTx(c: nat, commits: bool, reported: bool)
    | MarkFailed(c: nat)
    | Abort(c: nat)
    | SetStatus(t: nat, status: TenantStatus)

  predicate IsOpen(q: Request) { q.status == Pending || q.status == Approved }

  predicate OpenFor(s: State, t: nat, r: nat) {
    r in s.requests && s.requests[r].tenant == t && IsOpen(s.requests[r])
  }

  predicate HasOpen(s: State, t: nat) {
    exists r | r in s.requests :: OpenFor(s, t, r)
  }

  predicate PendingFor(s: State, t: nat, r: nat) {
    OpenFor(s, t, r) && s.requests[r].status == Pending
  }

  predicate HasPending(s: State, t: nat) {
    exists r | r in s.requests :: PendingFor(s, t, r)
  }

  predicate Eligible(s: State, t: nat) { t in s.tenants && s.tenants[t] == PurgeEligible }

  predicate Init(s: State) {
    s.requests == map[] && s.drops == [] && s.calls == map[] && forall t | t in s.tenants :: s.tenants[t] != Purged
  }

  predicate Enabled(s: State, a: Action) {
    match a
    case Begin(p) => p.Requesting? || p.Approving? || p.Cancelling?
    case ListApproved(r) => r in s.requests && s.requests[r].status == Approved
    case GetTenant(c) => c in s.calls && (s.calls[c].Requesting? || s.calls[c].ApproveOpen?)
    case GetOpen(c, found) =>
      && c in s.calls && (s.calls[c].Approving? || s.calls[c].Cancelling?)
      && (if found.Some? then OpenFor(s, s.calls[c].tenant, found.value) else !HasOpen(s, s.calls[c].tenant))
    case Insert(c, id) => c in s.calls && s.calls[c].RequestChecked? && id !in s.requests
    case ApproveUpdate(c) => c in s.calls && s.calls[c].ApproveChecked?
    case CancelUpdate(c) => c in s.calls && s.calls[c].CancelOpen?
    case PurgeTx(c, _, _) => c in s.calls && s.calls[c].Purging?
    case MarkFailed(c) => c in s.calls && s.calls[c].PurgeErred?
    case Abort(c) => c in s.calls
    case SetStatus(t, status) => status != Purged && (t in s.tenants ==> s.tenants[t] != Purged)
  }

  function Finish(s: State, c: nat): State { s.(calls := s.calls - {c}) }
  function MoveTo(s: State, c: nat, p: Progress): State { s.(calls := s.calls[c := p]) }

  function Launch(s: State, p: Progress): State {
    s.(calls := s.calls[s.nextCall := p], nextCall := s.nextCall + 1)
  }

  function DoGetTenant(s: State, c: nat): State
    requires Enabled(s, GetTenant(c))
  {
    var p := s.calls[c];
    if !Eligible(s, p.tenant) then Finish(s, c)
    else if p.Requesting? then MoveTo(s, c, RequestChecked(p.tenant, p.actor))
    else MoveTo(s, c, ApproveChecked(p.tenant, p.actor, p.request))
  }

  /** For an approval the checks that follow the read: still pending, and not the requester. */
  function DoGetOpen(s: State, c: nat, found: Option<nat>): State
    requires Enabled(s, GetOpen(c, found))
  {
    var p := s.calls[c];
    if found.None? then Finish(s, c)
    else if p.Cancelling? then MoveTo(s, c, CancelOpen(p.tenant, p.actor, found.value))
    else
      var q := s.requests[found.value];
      if q.status != Pending || p.actor == q.requestedBy then Finish(s, c)
      else MoveTo(s, c, ApproveOpen(p.tenant, p.actor, found.value))
  }

  /** The partial unique index refuses a second open request for the tenant. */
  function DoInsert(s: State, c: nat, id: nat): State
    requires Enabled(s, Insert(c, id))
  {
    var p := s.calls[c];
    if HasOpen(s, p.tenant) then Finish(s, c)
    else Finish(s, c).(requests := s.requests[id := Request(p.tenant, Pending, p.actor, None)])
  }

  function SetRequest(s: State, r: nat, q: Request): State { s.(requests := s.requests[r := q]) }

  function DoApprove(s: State, c: nat): State
    requires Enabled(s, ApproveUpdate(c))
  {
    var p := s.calls[c];
    if p.request in s.requests && s.requests[p.request].status == Pending && s.requests[p.request].tenant == p.tenant
    then SetRequest(Finish(s, c), p.request, s.requests[p.request].(status := Approved, approvedBy := Some(p.actor)))
    else Finish(s, c)
  }

  function DoCancel(s: State, c: nat): State
    requires Enabled(s, CancelUpdate(c))
  {
    var p := s.calls[c];
    if OpenFor(s, p.tenant, p.request)
    then SetRequest(Finish(s, c), p.request, s.requests[p.request].(status := Cancelled))
    else Finish(s, c)
  }

  /** Claim, drop and tombstone in one transaction; `reported` is whether the worker sees its commit. */
  function DoPurge(s: State, c: nat, commits: bool, reported: bool): State
    requires Enabled(s, PurgeTx(c, commits, reported))
  {
    var p := s.calls[c];
    if commits && p.request in s.requests && s.requests[p.request].status == Approved && Eligible(s, p.tenant) then
      var done := SetRequest(s, p.request, s.requests[p.request].(status := Executed))
                    .(tenants := s.tenants[p.tenant := Purged], drops := s.drops + [Drop(p.tenant, p.request)]);
      if reported then Finish(done, c) else MoveTo(done, c, PurgeErred(p.request))
    else MoveTo(s, c, PurgeErred(p.request))
  }

  function DoMarkFailed(s: State, c: nat): State
    requires Enabled(s, MarkFailed(c))
  {
    var r := s.calls[c].request;
    if r in s.requests && s.requests[r].status == Approved
    then SetRequest(Finish(s, c), r, s.requests[r].(status := Failed))
    else Finish(s, c)
  }

  function Next(s: State, a: Action): State
    requires Enabled(s, a)
  {
    match a
    case Begin(p) => Launch(s, p)
    case ListApproved(r) => Launch(s, Purging(s.requests[r].tenant, r))
    case GetTenant(c) => DoGetTenant(s, c)
    case GetOpen(c, found) => DoGetOpen(s, c, found)
    case Insert(c, id) => DoInsert(s, c, id)
    case ApproveUpdate(c) => DoApprove(s, c)
    case CancelUpdate(c) => DoCancel(s, c)
    case PurgeTx(c, commits, reported) => DoPurge(s, c, commits, reported)
    case MarkFailed(c) => DoMarkFailed(s, c)
    case Abort(c) => Finish(s, c)
    case SetStatus(t, status) => s.(tenants := s.tenants[t := status])
  }

  // ----- The invariant -----

  /** Approved or executed means approved by someone other than the requester. */
  predicate TwoPersons(q: Request) {
    q.status == Approved || q.status == Executed ==> q.approvedBy.Some? && q.approvedBy.value != q.requestedBy
  }

  predicate CallOk(s: State, p: Progress) {
    match p
    case ApproveOpen(t, actor, r) => r in s.requests && s.requests[r].tenant == t && s.requests[r].requestedBy != actor
    case ApproveChecked(t, actor, r) => r in s.requests && s.requests[r].tenant == t &&
        s.requests[r].requestedBy != actor
    case CancelOpen(t, _, r) => r in s.requests && s.requests[r].tenant == t
    case Purging(t, r) => r in s.requests && s.requests[r].tenant == t
    case PurgeErred(r) => r in s.requests
    case _ => true
  }

  predicate DropOk(s: State, d: Drop) {
    && d.tenant in s.tenants && s.tenants[d.tenant] == Purged
    && d.request in s.requests && s.requests[d.request].status == Executed && s.requests[d.request].tenant == d.tenant
  }

  /** The schema of the request's tenant was dropped for this very request. */
  predicate DroppedFor(s: State, r: nat)
    requires r in s.requests
  {
    Drop(s.requests[r].tenant, r) in s.drops
  }

  ghost predicate OneOpen(s: State) {
    forall r, q | r in s.requests && q in s.requests ::
      IsOpen(s.requests[r]) && IsOpen(s.requests[q]) && s.requests[r].tenant == s.requests[q].tenant ==> r == q
  }

  ghost predicate DroppedOnce(s: State) {
    forall i, j | 0 <= i < j < |s.drops| :: s.drops[i].tenant != s.drops[j].tenant
  }

  ghost predicate Inv(s: State) {
    && (forall r | r in s.requests :: TwoPersons(s.requests[r]))
    && (forall r {:trigger DroppedFor(s, r)} | r in s.requests :: s.requests[r].status == Executed ==> DroppedFor(s, r))
    && (forall c | c in s.calls :: CallOk(s, s.calls[c]))
    && (forall i | 0 <= i < |s.drops| :: DropOk(s, s.drops[i]))
    && OneOpen(s)
    && DroppedOnce(s)
  }

  lemma RequestKept(s: State, a: Action, r: nat)
    requires Inv(s) && Enabled(s, a) && r in Next(s, a).requests
    ensures TwoPersons(Next(s, a).requests[r])
    ensures r in s.requests ==> SameOrder(s.requests[r], Next(s, a).requests[r])
    ensures r !in s.requests ==> Next(s, a).requests[r].status == Pending
  {
  }

  /** What one action can do to a stored request: who asked for what stays; status only moves on. */
  predicate SameOrder(q: Request, q': Request) {
    && q'.tenant == q.tenant && q'.requestedBy == q.requestedBy
    && (q'.status == q.status ==> q' == q)
    && (q'.approvedBy != q.approvedBy ==> q.status == Pending && q'.status == Approved)
    && (q'.status != q.status ==>
          || (q.status == Pending && (q'.status == Approved || q'.status == Cancelled))
          || (q.status == Approved && (q'.status == Executed || q'.status == Failed || q'.status == Cancelled)))
  }

  lemma CallKept(s: State, a: Action, c: nat)
    requires Enabled(s, a) && c in Next(s, a).calls
    requires c in s.calls ==> CallOk(s, s.calls[c])
    ensures CallOk(Next(s, a), Next(s, a).calls[c])
  {
  }

  lemma DropKept(s: State, a: Action, i: nat)
    requires Inv(s) && Enabled(s, a) && i < |Next(s, a).drops|
    ensures DropOk(Next(s, a), Next(s, a).drops[i])
  {
    if i < |s.drops| {
      assert DropOk(s, s.drops[i]);
    }
    if a.PurgeTx? { assert CallOk(s, s.calls[a.c]); }
  }

  lemma ExecutedKept(s: State, a: Action, r: nat)
    requires Inv(s) && Enabled(s, a) && r in Next(s, a).requests
    ensures Next(s, a).requests[r].status == Executed ==> DroppedFor(Next(s, a), r)
  {
    if r in s.requests {
      assert s.requests[r].status == Executed ==> DroppedFor(s, r);
    }
    if a.PurgeTx? { assert CallOk(s, s.calls[a.c]); }
  }

  lemma OneOpenKept(s: State, a: Action)
    requires Inv(s) && Enabled(s, a)
    ensures OneOpen(Next(s, a))
  {
  }

  lemma InvStep(s: State, a: Action)
    requires Inv(s) && Enabled(s, a)
    ensures Inv(Next(s, a))
  {
    var s' := Next(s, a);
    forall r | r in s'.requests ensures TwoPersons(s'.requests[r]) { RequestKept(s, a, r); }
    forall r | r in s'.requests ensures s'.requests[r].status == Executed ==> DroppedFor(s', r) {
      ExecutedKept(s, a, r);
    }
    forall c | c in s'.calls ensures CallOk(s', s'.calls[c]) { CallKept(s, a, c); }
    forall i | 0 <= i < |s'.drops| ensures DropOk(s', s'.drops[i]) { DropKept(s, a, i); }
    OneOpenKept(s, a);
    forall i, j | 0 <= i < j < |s'.drops| ensures s'.drops[i].tenant != s'.drops[j].tenant {
      assert DropOk(s, s.drops[i]);
    }
  }

  // ----- Whole runs -----

  type Trace = Run<State, Action>

  ghost predicate StepAt(r: Trace, i: nat)
    requires |r.states| == |r.actions| + 1 && i < |r.actions|
  {
    Enabled(r.states[i], r.actions[i]) && r.states[i + 1] == Next(r.states[i], r.actions[i])
  }

  ghost predicate IsRun(r: Trace) {
    && |r.states| == |r.actions| + 1
    && Init(r.states[0])
    && forall i: nat | i < |r.actions| :: StepAt(r, i)
  }

  lemma {:induction false} RunInv(r: Trace, n: nat)
    requires IsRun(r) && n < |r.states|
    ensures Inv(r.states[n])
  {
    if n > 0 {
      RunInv(r, n - 1);
      assert StepAt(r, n - 1);
      InvStep(r.states[n - 1], r.actions[n - 1]);
    }
  }

  /** In every reachable state no tenant was dropped twice and none has two open requests. */
  lemma OneDropOneOpen(r: Trace, n: nat)
    requires IsRun(r) && n < |r.states|
    ensures DroppedOnce(r.states[n]) && OneOpen(r.states[n])
  {
    RunInv(r, n);
  }

  /**
    A schema is dropped only by a purge transaction, for a request that is approved at that moment
    by someone other than its requester, of the tenant dropped, while that tenant is purge_eligible;
    the transaction tombstones the tenant and closes the request with it.
  */
  lemma DropOnlyWhenApproved(r: Trace, n: nat)
    requires IsRun(r) && n < |r.actions| && r.states[n + 1].drops != r.states[n].drops
    ensures r.actions[n].PurgeTx?
    ensures |r.states[n + 1].drops| == |r.states[n].drops| + 1
    ensures var s, s', d := r.states[n], r.states[n + 1], r.states[n + 1].drops[|r.states[n].drops|];
            && d.request in s.requests
            && Eligible(s, d.tenant) && DropOk(s', d)
            && var q := s.requests[d.request];
               && q.tenant == d.tenant && q.status == Approved
               && q.approvedBy.Some? && q.approvedBy.value != q.requestedBy
  {
    RunInv(r, n);
    assert StepAt(r, n);
    var s, a := r.states[n], r.actions[n];
    InvStep(s, a);
    if a.PurgeTx? {
      assert CallOk(s, s.calls[a.c]);
      assert TwoPersons(s.requests[s.calls[a.c].request]);
    }
  }

  /** A request is executed if and only if the schema of its tenant was dropped for it. */
  lemma ExecutedIffDropped(r: Trace, n: nat, q: nat)
    requires IsRun(r) && n < |r.states| && q in r.states[n].requests
    ensures r.states[n].requests[q].status == Executed <==> DroppedFor(r.states[n], q)
  {
    RunInv(r, n);
    var s := r.states[n];
    assert s.requests[q].status == Executed ==> DroppedFor(s, q);
    if DroppedFor(s, q) {
      var i :| 0 <= i < |s.drops| && s.drops[i] == Drop(s.requests[q].tenant, q);
      assert DropOk(s, s.drops[i]);
    }
  }

  /** An approved request stays approved until it is closed. */
  lemma {:induction false} ApprovedUntilClosed(r: Trace, m: nat, n: nat, q: nat)
    requires IsRun(r) && m <= n < |r.states| && q in r.states[m].requests && r.states[m].requests[q].status == Approved
    ensures q in r.states[n].requests && r.states[n].requests[q].tenant == r.states[m].requests[q].tenant
    ensures r.states[n].requests[q].status == Approved || Closed(r.states[n].requests[q])
  {
    if m < n {
      ApprovedUntilClosed(r, m, n - 1, q);
      RunInv(r, n - 1);
      assert StepAt(r, n - 1);
      RequestStays(r.states[n - 1], r.actions[n - 1], q);
      RequestKept(r.states[n - 1], r.actions[n - 1], q);
    }
  }

  /**
    A committing purge transaction drops the tenant's schema if and only if its request is approved and
    the tenant is purge_eligible; then exactly that tenant is tombstoned and that request executed, and
    otherwise nothing but the call itself changes.
  */
  lemma PurgeDrops(s: State, c: nat, commits: bool, reported: bool)
    requires Inv(s) && Enabled(s, PurgeTx(c, commits, reported))
    ensures var s', t, r := Next(s, PurgeTx(c, commits, reported)), s.calls[c].tenant, s.calls[c].request;
            if commits && s.requests[r].status == Approved && t in s.tenants && s.tenants[t] == PurgeEligible then
              && s'.drops == s.drops + [Drop(t, r)] && s'.tenants == s.tenants[t := Purged]
              && s'.requests == s.requests[r := s.requests[r].(status := Executed)]
              && (reported <==> c !in s'.calls)
            else
              && s'.drops == s.drops && s'.tenants == s.tenants && s'.requests == s.requests
              && s'.calls == s.calls[c := PurgeErred(r)]
  {
    assert CallOk(s, s.calls[c]);
  }

  predicate Closed(q: Request) { q.status == Executed || q.status == Failed || q.status == Cancelled }

  /** A closed request keeps its status for ever. */
  lemma {:induction false} ClosedForever(r: Trace, m: nat, n: nat, q: nat)
    requires IsRun(r) && m <= n < |r.states| && q in r.states[m].requests && Closed(r.states[m].requests[q])
    ensures q in r.states[n].requests && r.states[n].requests[q].status == r.states[m].requests[q].status
  {
    if m < n {
      ClosedForever(r, m, n - 1, q);
      RunInv(r, n - 1);
      assert StepAt(r, n - 1);
      RequestStays(r.states[n - 1], r.actions[n - 1], q);
      RequestKept(r.states[n - 1], r.actions[n - 1], q);
    }
  }

  lemma RequestStays(s: State, a: Action, q: nat)
    requires Enabled(s, a) && q in s.requests
    ensures q in Next(s, a).requests
  {
  }

  /** A cancelled or failed request is never executed: no drop in any later state is for it. */
  lemma NeverExecutedOnceClosed(r: Trace, m: nat, n: nat, q: nat, i: nat)
    requires IsRun(r) && m <= n < |r.states| && q in r.states[m].requests
    requires r.states[m].requests[q].status == Cancelled || r.states[m].requests[q].status == Failed
    requires i < |r.states[n].drops|
    ensures r.states[n].drops[i].request != q
  {
    ClosedForever(r, m, n, q);
    RunInv(r, n);
    assert DropOk(r.states[n], r.states[n].drops[i]);
  }
}
