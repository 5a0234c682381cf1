/**
  The registration saga: nine steps with durable progress, resume, and compensation in reverse order.

  The process may stop at any point: before every external call or store write `Live` may find it
  stopped, after which nothing it does reaches the outside any more. So every state the outside world
  can be left in is the final state of some execution of these methods. Store writes succeed and a
  failed external call has no effect.
*/
module Saga {
  import opened Prelude

  const CREATE_TENANT: nat := 1
  const CREATE_USER: nat := 2
  const BIND_VERTICAL: nat := 3
  const SEED_CHART: nat := 4
  const SEED_BUDGETS: nat := 5
  const SEED_EXPENSES: nat := 6
  const OPEN_PERIOD: nat := 7
  const PUBLISH_EVENT: nat := 8
  const WELCOME_EMAIL: nat := 9

  datatype Status = InProgress | Completed | Failed | Compensating | Compensated | CompensationFailed

  /** `company` is the company name as the name check compares it: trimmed, lower-case, blanks collapsed. */
  datatype Record = Record(
    id: nat,
    email: string,
    company: string,
    tenant: Option<nat>,
    user: Option<nat>,
    status: Status,
    steps: seq<nat>,
    failedStep: nat,
    errors: nat)

  /** [1, ..., k] */
  function Upto(k: nat): (r: seq<nat>)
    ensures |r| == k && forall i | 0 <= i < k :: r[i] == i + 1
  {
    seq(k, i => i + 1)
  }

  predicate StepCompleted(m: Record, step: nat) { step in m.steps }

  function MarkStepCompleted(m: Record, step: nat): Record {
    if StepCompleted(m, step) then m else m.(steps := m.steps + [step])
  }

  /** Marking a step leaves every earlier mark, adds this one at the end, and marks nothing twice. */
  lemma MarkedOnce(m: Record, step: nat)
    ensures var m' := MarkStepCompleted(m, step);
            && StepCompleted(m', step) && MarkStepCompleted(m', step) == m'
            && (StepCompleted(m, step) ==> m' == m)
            && (!StepCompleted(m, step) ==> m' == m.(steps := m.steps + [step]))
  {
  }

  lemma UptoExtends(k: nat)
    ensures Upto(k) + [k + 1] == Upto(k + 1)
    ensures forall i: nat :: i in Upto(k) <==> 1 <= i <= k
  {
    forall i: nat ensures i in Upto(k) <==> 1 <= i <= k {
      if 1 <= i <= k { assert Upto(k)[i - 1] == i; }
    }
  }

  /** The resources of one kind that a saga owns. */
  function Owned(resources: map<nat, nat>, saga: nat): set<nat> {
    set x | x in resources && resources[x] == saga
  }

  function OnlyIf(c: bool, x: Option<nat>): set<nat> {
    if c && x.Some? then {x.value} else {}
  }

  /**
    What outlives the process: the saga store with the most recent saga per email, the live tenants,
    users and vertical bindings with the saga that created each, and in `foreign` the names of tenants
    that no saga created. `performed`, `minted`
    and `blind` are history: for each step a saga has really gone through whether its external call
    succeeded, the saga behind each tenant ID ever made, and the emails for which a saga was opened
    although looking up an earlier one had failed.
  */
  datatype World = World(
    store: map<nat, Record>,
    latest: map<string, nat>,
    tenants: map<nat, nat>,
    users: map<nat, nat>,
    bindings: map<nat, nat>,
    performed: map<nat, seq<bool>>,
    minted: map<nat, nat>,
    blind: set<string>,
    foreign: set<string>,
    nextId: nat)

  function Calls(w: World, id: nat): seq<bool> { if id in w.performed then w.performed[id] else [] }

  function Done(w: World, id: nat): nat { |Calls(w, id)| }

  /** The step was gone through, and its external call succeeded. */
  predicate Answered(w: World, id: nat, step: nat) { 1 <= step <= Done(w, id) && Calls(w, id)[step - 1] }

  /** Only the last two steps are ever gone through although their call failed. */
  predicate CallsOk(calls: seq<bool>) { forall k | 0 <= k < |calls| && k < OPEN_PERIOD :: calls[k] }

  /** Exactly what steps 1 to 3 create, as far as the record says they ran. */
  predicate Effects(w: World, m: Record) {
    && (1 <= |m.steps| ==> m.tenant.Some?) && (2 <= |m.steps| ==> m.user.Some?)
    && Owned(w.tenants, m.id) == OnlyIf(1 <= |m.steps|, m.tenant)
    && Owned(w.users, m.id) == OnlyIf(2 <= |m.steps|, m.user)
    && Owned(w.bindings, m.id) == OnlyIf(3 <= |m.steps|, m.tenant)
  }

  predicate NothingLeft(w: World, id: nat) {
    Owned(w.tenants, id) == {} && Owned(w.users, id) == {} && Owned(w.bindings, id) == {}
  }

  predicate AtMostOne(s: set<nat>) { forall x, y | x in s && y in s :: x == y }

  /** The statuses for which Start opens another saga. */
  predicate RolledBack(status: Status) { status in {Compensating, Compensated, CompensationFailed} }

  lemma RolledBackOrNot(status: Status)
    ensures RolledBack(status) <==> status !in {Completed, InProgress, Failed}
  {
    match status
    case InProgress =>
    case Completed =>
    case Failed =>
    case Compensating =>
    case Compensated =>
    case CompensationFailed =>
  }

  /** Durable progress, in every state a stopped process can leave behind. */
  predicate StoredOk(w: World, m: Record) {
    && m.id < w.nextId && m.id in w.performed
    && m.steps == Upto(|m.steps|) && |m.steps| <= 9
    && |m.steps| <= Done(w, m.id) <= |m.steps| + 1
    && (m.status in {InProgress, Completed} ==> m.failedStep == 0)
    && (m.status == Completed ==> |m.steps| == 9 && Effects(w, m))
    && (m.status == Failed ==> Done(w, m.id) == |m.steps| && Effects(w, m))
    && (m.status == Compensated ==> NothingLeft(w, m.id))
    && AtMostOne(Owned(w.tenants, m.id)) && CallsOk(Calls(w, m.id))
  }

  /** Where a saga rests after a call that ran to its end. */
  predicate Rested(w: World, m: Record) {
    match m.status
    case Completed => true
    case Failed => m.steps == [] && NothingLeft(w, m.id)
    case Compensated => NothingLeft(w, m.id)
    case _ => false
  }

  /** Every live tenant, user and binding belongs to a saga in the store, and no ID is handed out twice. */
  predicate ResourceOk(w: World, x: nat) {
    && (x in w.tenants ==> w.tenants[x] in w.store && x in w.minted && w.minted[x] == w.tenants[x])
    && (x in w.bindings ==> w.bindings[x] in w.store && x in w.minted && w.minted[x] == w.bindings[x])
    && (x in w.users ==> w.users[x] in w.store && x < w.nextId)
    && (x in w.minted ==> x < w.nextId)
  }

  ghost predicate Tracked(w: World) {
    forall x: nat :: ResourceOk(w, x)
  }

  /** A tenant bears the company name of the saga that created it. */
  function NameOf(w: World, t: nat): Option<string> {
    if t in w.tenants && w.tenants[t] in w.store then Some(w.store[w.tenants[t]].company) else None
  }

  /** TenantExistsByNormalizedName */
  predicate NameTaken(w: World, name: string) {
    name in w.foreign || exists t :: t in w.tenants && NameOf(w, t) == Some(name)
  }

  /** A name is taken by a tenant that no saga created, or by a live tenant whose saga asked for it. */
  lemma NameTakenIff(w: World, name: string)
    requires Tracked(w)
    ensures NameTaken(w, name) <==>
            || name in w.foreign
            || exists t :: t in w.tenants && w.tenants[t] in w.store && w.store[w.tenants[t]].company == name
  {
    forall t | t in w.tenants && w.tenants[t] in w.store && w.store[w.tenants[t]].company == name
      ensures NameTaken(w, name)
    {
      assert NameOf(w, t) == Some(name);
    }
    if t :| t in w.tenants && NameOf(w, t) == Some(name) {
      assert w.tenants[t] in w.store;
    }
  }

  ghost predicate NamesDistinct(w: World) {
    forall t: nat, u: nat :: NameOf(w, t).Some? && NameOf(w, t) == NameOf(w, u) ==> t == u
  }

  lemma NamesKept(w: World, w': World)
    requires NamesDistinct(w) && forall t: nat :: NameOf(w', t).Some? ==> NameOf(w', t) == NameOf(w, t)
    ensures NamesDistinct(w')
  {
  }

  predicate SameRequest(m: Record, m': Record) { m.email == m'.email && m.company == m'.company }

  predicate SagaOk(w: World, id: nat, current: Option<nat>, faults: bool)
    requires id in w.store
  {
    var m := w.store[id];
    && m.id == id && StoredOk(w, m) && m.email in w.latest
    && (id == w.latest[m.email] || m.email in w.blind || RolledBack(m.status))
    && (!faults && Some(id) != current ==> Rested(w, m))
  }

  predicate LatestOk(w: World, e: string)
    requires e in w.latest
  {
    w.latest[e] in w.store && w.store[w.latest[e]].email == e
  }

  /** `current` is the saga being run, if any; `faults` that a run was cut short or a compensation failed. */
  ghost predicate Good(w: World, current: Option<nat>, faults: bool) {
    && (forall id {:trigger SagaOk(w, id, current, faults)} | id in w.store :: SagaOk(w, id, current, faults))
    && (forall e {:trigger LatestOk(w, e)} | e in w.latest :: LatestOk(w, e))
    && Tracked(w) && NamesDistinct(w)
  }

  // ----- Effects on the world -----

  function Save(w: World, m: Record): World { w.(store := w.store[m.id := m]) }

  function NewSaga(w: World, m: Record): World {
    w.(store := w.store[m.id := m], latest := w.latest[m.email := m.id], performed := w.performed[m.id := []],
       nextId := w.nextId + 1)
  }

  /** One more step is gone through, with or without success of its call. */
  function Perform(w: World, id: nat, answered: bool): World {
    w.(performed := w.performed[id := Calls(w, id) + [answered]])
  }

  function AddTenant(w: World, id: nat): World {
    w.(tenants := w.tenants[w.nextId := id], minted := w.minted[w.nextId := id], nextId := w.nextId + 1)
  }

  function AddUser(w: World, id: nat): World {
    w.(users := w.users[w.nextId := id], nextId := w.nextId + 1)
  }

  function Bind(w: World, id: nat, tenant: nat): World { w.(bindings := w.bindings[tenant := id]) }
  function Unbind(w: World, tenant: nat): World { w.(bindings := w.bindings - {tenant}) }
  function DropUser(w: World, user: nat): World { w.(users := w.users - {user}) }
  function DropTenant(w: World, tenant: nat): World { w.(tenants := w.tenants - {tenant}) }

  /** The same sagas, with the same one latest for each email. */
  predicate SameSagas(w: World, w': World) {
    w'.store.Keys == w.store.Keys && w'.latest == w.latest && w'.blind == w.blind
  }

  /** The world changed for saga `id` alone. */
  predicate SameFor(w: World, w': World, o: nat)
    requires o in w.store && o in w'.store
  {
    && w'.store[o] == w.store[o]
    && o in w'.performed && Calls(w', o) == Calls(w, o)
    && Owned(w'.tenants, o) == Owned(w.tenants, o)
    && Owned(w'.users, o) == Owned(w.users, o)
    && Owned(w'.bindings, o) == Owned(w.bindings, o)
  }

  ghost predicate ChangedOnly(w: World, w': World, id: nat) {
    && w.nextId <= w'.nextId && w'.latest == w.latest && w'.blind == w.blind && w.store.Keys == w'.store.Keys
    && forall o {:trigger SameFor(w, w', o)} | o in w.store && o != id :: SameFor(w, w', o)
  }

  lemma OtherKept(w: World, w': World, o: nat, id: nat, current: Option<nat>, faults: bool)
    requires o in w.store && o in w'.store && o != id && w.nextId <= w'.nextId
    requires w'.latest == w.latest && w'.blind == w.blind
    requires SagaOk(w, o, Some(id), faults) && SameFor(w, w', o)
    ensures SagaOk(w', o, current, faults)
  {
  }

  lemma OthersKept(w: World, w': World, id: nat, current: Option<nat>, faults: bool)
    requires forall o {:trigger SagaOk(w, o, Some(id), faults)} | o in w.store :: SagaOk(w, o, Some(id), faults)
    requires ChangedOnly(w, w', id)
    ensures forall o {:trigger SagaOk(w', o, current, faults)} | o in w'.store && o != id ::
            SagaOk(w', o, current, faults)
  {
    forall o | o in w'.store && o != id ensures SagaOk(w', o, current, faults) {
      assert SameFor(w, w', o) && SagaOk(w, o, Some(id), faults);
      OtherKept(w, w', o, id, current, faults);
    }
  }

  lemma LatestKept(w: World, w': World, id: nat)
    requires forall e {:trigger LatestOk(w, e)} | e in w.latest :: LatestOk(w, e)
    requires ChangedOnly(w, w', id) && id in w.store && SameRequest(w'.store[id], w.store[id])
    ensures forall e {:trigger LatestOk(w', e)} | e in w'.latest :: LatestOk(w', e)
  {
    forall e | e in w'.latest ensures LatestOk(w', e) {
      assert LatestOk(w, e);
      assert w.latest[e] != id ==> SameFor(w, w', w.latest[e]);
    }
  }

  /** What remains to show when a step of saga `id` changes the world. */
  lemma GoodAfter(w: World, w': World, id: nat, current: Option<nat>, faults: bool)
    requires Good(w, Some(id), faults) && id in w.store && ChangedOnly(w, w', id)
    requires Tracked(w') && NamesDistinct(w')
    requires SagaOk(w', id, current, faults) && SameRequest(w'.store[id], w.store[id])
    ensures Good(w', current, faults)
  {
    OthersKept(w, w', id, current, faults);
    LatestKept(w, w', id);
  }

  lemma OwnedAdd(r: map<nat, nat>, x: nat, id: nat)
    requires x in r ==> r[x] == id
    ensures Owned(r[x := id], id) == Owned(r, id) + {x}
    ensures forall o: nat | o != id :: Owned(r[x := id], o) == Owned(r, o)
  {
  }

  lemma OwnedRemove(r: map<nat, nat>, x: nat, id: nat)
    requires x in r ==> r[x] == id
    ensures Owned(r - {x}, id) == Owned(r, id) - {x}
    ensures forall o: nat | o != id :: Owned(r - {x}, o) == Owned(r, o)
  {
  }

  /** The saga under way: its record is the latest of its email unless something went wrong before. */
  predicate Underway(w: World, id: nat, status: Status) {
    id in w.store && w.store[id].status == status
  }

  lemma SavedOk(w: World, m: Record, current: Option<nat>, faults: bool)
    requires m.id in w.store && SameRequest(m, w.store[m.id]) && StoredOk(w, m)
    requires SagaOk(w, m.id, Some(m.id), faults) && (RolledBack(w.store[m.id].status) ==> RolledBack(m.status))
    requires current == Some(m.id) || (current == None && (!faults ==> Rested(w, m)))
    ensures SagaOk(Save(w, m), m.id, current, faults)
  {
  }

  lemma SaveGood(w: World, m: Record, current: Option<nat>, faults: bool)
    requires Good(w, Some(m.id), faults) && m.id in w.store && SameRequest(m, w.store[m.id]) && StoredOk(w, m)
    requires RolledBack(w.store[m.id].status) ==> RolledBack(m.status)
    requires current == Some(m.id) || (current == None && (!faults ==> Rested(w, m)))
    ensures Good(Save(w, m), current, faults)
  {
    assert SagaOk(w, m.id, Some(m.id), faults);
    SavedOk(w, m, current, faults);
    SaveChangesOnly(w, m, faults);
    forall x: nat ensures ResourceOk(Save(w, m), x) { assert ResourceOk(w, x); }
    NamesKept(w, Save(w, m));
    GoodAfter(w, Save(w, m), m.id, current, faults);
  }

  lemma SaveChangesOnly(w: World, m: Record, faults: bool)
    requires Good(w, Some(m.id), faults) && m.id in w.store
    ensures ChangedOnly(w, Save(w, m), m.id)
  {
    forall o | o in w.store && o != m.id ensures SameFor(w, Save(w, m), o) {
      assert SagaOk(w, o, Some(m.id), faults);
    }
  }

  /** A step is performed: its effect is there, its record not yet. */
  lemma PerformGood(w: World, v: World, id: nat, answered: bool, faults: bool)
    requires Good(w, Some(id), faults) && Underway(w, id, InProgress) && Done(w, id) == |w.store[id].steps|
    requires v.store == w.store && v.latest == w.latest && v.blind == w.blind && v.performed == w.performed
    requires w.nextId <= v.nextId && Tracked(v) && NamesDistinct(v) && AtMostOne(Owned(v.tenants, id))
    requires answered || OPEN_PERIOD <= |w.store[id].steps|
    requires forall o: nat | o != id ::
               && Owned(v.tenants, o) == Owned(w.tenants, o) && Owned(v.users, o) == Owned(w.users, o)
               && Owned(v.bindings, o) == Owned(w.bindings, o)
    ensures Good(Perform(v, id, answered), Some(id), faults)
  {
    var w' := Perform(v, id, answered);
    assert SagaOk(w, id, Some(id), faults);
    forall x: nat ensures ResourceOk(w', x) { assert ResourceOk(v, x); }
    NamesKept(v, w');
    forall o | o in w.store && o != id ensures SameFor(w, w', o) {
      assert SagaOk(w, o, Some(id), faults);
    }
    GoodAfter(w, w', id, Some(id), faults);
  }

  /** A compensating call takes something away from the saga being rolled back. */
  lemma RollbackGood(w: World, v: World, id: nat, faults: bool)
    requires Good(w, Some(id), faults) && Underway(w, id, Compensating)
    requires v.store == w.store && v.latest == w.latest && v.blind == w.blind && v.performed == w.performed
    requires w.nextId == v.nextId && Tracked(v) && NamesDistinct(v) && Owned(v.tenants, id) <= Owned(w.tenants, id)
    requires forall o: nat | o != id ::
               && Owned(v.tenants, o) == Owned(w.tenants, o) && Owned(v.users, o) == Owned(w.users, o)
               && Owned(v.bindings, o) == Owned(w.bindings, o)
    ensures Good(v, Some(id), faults)
  {
    assert SagaOk(w, id, Some(id), faults);
    forall o | o in w.store && o != id ensures SameFor(w, v, o) {
      assert SagaOk(w, o, Some(id), faults);
    }
    GoodAfter(w, v, id, Some(id), faults);
  }

  /** The record after one more step, given what the step has put into the world. */
  lemma Recorded(w: World, w': World, m: Record, m': Record)
    requires CallsOk(Calls(w', m.id))
    requires m.id < w.nextId <= w'.nextId && m.id in w'.performed && Done(w', m.id) == |m.steps| + 1
    requires m.steps == Upto(|m.steps|) && |m.steps| < 9 && Effects(w, m)
    requires m.status == InProgress && m.failedStep == 0
    requires m' == MarkStepCompleted(m.(tenant := m'.tenant, user := m'.user), |m.steps| + 1)
    requires m'.tenant.Some? && (1 <= |m.steps| ==> m'.tenant == m.tenant)
    requires (1 <= |m.steps| ==> m'.user.Some?) && (2 <= |m.steps| ==> m'.user == m.user)
    requires Owned(w'.tenants, m.id) == Owned(w.tenants, m.id) + (if |m.steps| == 0 then {m'.tenant.value} else {})
    requires Owned(w'.users, m.id) == Owned(w.users, m.id) + (if |m.steps| == 1 then {m'.user.value} else {})
    requires Owned(w'.bindings, m.id) == Owned(w.bindings, m.id) + (if |m.steps| == 2 then {m'.tenant.value} else {})
    ensures m'.steps == Upto(|m.steps| + 1) && Effects(w', m') && StoredOk(w', m')
  {
  }

  lemma NewTenantIsTracked(w: World, id: nat)
    requires Tracked(w) && id in w.store
    ensures w.nextId !in w.tenants && Tracked(AddTenant(w, id))
  {
    assert ResourceOk(w, w.nextId);
    forall x: nat ensures ResourceOk(AddTenant(w, id), x) { assert ResourceOk(w, x); }
  }

  lemma NewNameIsDistinct(w: World, id: nat)
    requires NamesDistinct(w) && id in w.store && !NameTaken(w, w.store[id].company)
    ensures NamesDistinct(AddTenant(w, id))
  {
    var w' := AddTenant(w, id);
    forall t: nat, u: nat | NameOf(w', t).Some? && NameOf(w', t) == NameOf(w', u) ensures t == u {
      assert t != w.nextId ==> NameOf(w', t) == NameOf(w, t);
      assert u != w.nextId ==> NameOf(w', u) == NameOf(w, u);
    }
  }

  lemma NewUserIsTracked(w: World, id: nat)
    requires Tracked(w) && id in w.store
    ensures w.nextId !in w.users && Tracked(AddUser(w, id))
  {
    assert ResourceOk(w, w.nextId);
    forall x: nat ensures ResourceOk(AddUser(w, id), x) { assert ResourceOk(w, x); }
  }

  lemma CreatesTenant(w: World, m: Record, faults: bool)
    requires Good(w, Some(m.id), faults) && Underway(w, m.id, InProgress) && Done(w, m.id) == |w.store[m.id].steps|
    requires Owned(w.tenants, m.id) == {} && !NameTaken(w, w.store[m.id].company)
    ensures var v := AddTenant(w, m.id);
            && Good(Perform(v, m.id, true), Some(m.id), faults)
            && Owned(v.tenants, m.id) == Owned(w.tenants, m.id) + {w.nextId}
  {
    NewTenantIsTracked(w, m.id);
    NewNameIsDistinct(w, m.id);
    OwnedAdd(w.tenants, w.nextId, m.id);
    PerformGood(w, AddTenant(w, m.id), m.id, true, faults);
  }

  lemma CreatesUser(w: World, m: Record, faults: bool)
    requires Good(w, Some(m.id), faults) && Underway(w, m.id, InProgress) && Done(w, m.id) == |w.store[m.id].steps|
    ensures var v := AddUser(w, m.id);
            && Good(Perform(v, m.id, true), Some(m.id), faults)
            && Owned(v.users, m.id) == Owned(w.users, m.id) + {w.nextId}
  {
    assert SagaOk(w, m.id, Some(m.id), faults);
    NewUserIsTracked(w, m.id);
    OwnedAdd(w.users, w.nextId, m.id);
    NamesKept(w, AddUser(w, m.id));
    PerformGood(w, AddUser(w, m.id), m.id, true, faults);
  }

  lemma BindsVertical(w: World, m: Record, t: nat, faults: bool)
    requires Good(w, Some(m.id), faults) && Underway(w, m.id, InProgress) && Done(w, m.id) == |w.store[m.id].steps|
    requires t in Owned(w.tenants, m.id)
    ensures var v := Bind(w, m.id, t);
            && Good(Perform(v, m.id, true), Some(m.id), faults)
            && Owned(v.bindings, m.id) == Owned(w.bindings, m.id) + {t}
  {
    assert ResourceOk(w, t) && SagaOk(w, m.id, Some(m.id), faults);
    OwnedAdd(w.bindings, t, m.id);
    forall x: nat ensures ResourceOk(Bind(w, m.id, t), x) { assert ResourceOk(w, x); }
    NamesKept(w, Bind(w, m.id, t));
    PerformGood(w, Bind(w, m.id, t), m.id, true, faults);
  }

  /** The world once the external call of a step has gone through. */
  function Served(w: World, m: Record, step: nat): (w': World)
    ensures w'.store == w.store && w'.latest == w.latest && w'.blind == w.blind
  {
    var v := if step == CREATE_TENANT then AddTenant(w, m.id)
             else if step == CREATE_USER then AddUser(w, m.id)
             else if step == BIND_VERTICAL && m.tenant.Some? then Bind(w, m.id, m.tenant.value)
             else w;
    Perform(v, m.id, true)
  }

  lemma ServedGood(w: World, m: Record, step: nat, faults: bool)
    requires Good(w, Some(m.id), faults) && m.id in w.store && w.store[m.id] == m && m.status == InProgress
    requires Done(w, m.id) == |m.steps| && Effects(w, m) && step == |m.steps| + 1 <= 9
    requires step == CREATE_TENANT ==> !NameTaken(w, m.company)
    ensures Good(Served(w, m, step), Some(m.id), faults)
  {
    assert SagaOk(w, m.id, Some(m.id), faults);
    if step == CREATE_TENANT {
      CreatesTenant(w, m, faults);
    } else if step == CREATE_USER {
      CreatesUser(w, m, faults);
    } else if step == BIND_VERTICAL {
      assert m.tenant.value in Owned(w.tenants, m.id);
      BindsVertical(w, m, m.tenant.value, faults);
    } else {
      PerformGood(w, w, m.id, true, faults);
    }
  }

  lemma ServedOwns(w: World, m: Record, step: nat)
    requires Tracked(w) && m.id in w.store && Effects(w, m) && step == |m.steps| + 1 <= 9
    requires Done(w, m.id) == |m.steps|
    ensures var w' := Served(w, m, step);
            && w.nextId <= w'.nextId && m.id in w'.performed && Done(w', m.id) == step
            && Owned(w'.tenants, m.id) == Owned(w.tenants, m.id) + (if step == 1 then {w.nextId} else {})
            && Owned(w'.users, m.id) == Owned(w.users, m.id) + (if step == 2 then {w.nextId} else {})
            && Owned(w'.bindings, m.id) == Owned(w.bindings, m.id) + (if step == 3 then {m.tenant.value} else {})
  {
    assert ResourceOk(w, w.nextId);
    if step == CREATE_TENANT {
      OwnedAdd(w.tenants, w.nextId, m.id);
    } else if step == CREATE_USER {
      OwnedAdd(w.users, w.nextId, m.id);
    } else if step == BIND_VERTICAL {
      assert m.tenant.value in Owned(w.tenants, m.id);
      assert ResourceOk(w, m.tenant.value);
      OwnedAdd(w.bindings, m.tenant.value, m.id);
    }
  }

  lemma UndoesBinding(w: World, id: nat, t: nat, faults: bool)
    requires Good(w, Some(id), faults) && Underway(w, id, Compensating) && t in Owned(w.bindings, id)
    ensures Good(Unbind(w, t), Some(id), faults) && Owned(Unbind(w, t).bindings, id) == Owned(w.bindings, id) - {t}
  {
    OwnedRemove(w.bindings, t, id);
    forall x: nat ensures ResourceOk(Unbind(w, t), x) { assert ResourceOk(w, x); }
    NamesKept(w, Unbind(w, t));
    RollbackGood(w, Unbind(w, t), id, faults);
  }

  lemma UndoesUser(w: World, id: nat, u: nat, faults: bool)
    requires Good(w, Some(id), faults) && Underway(w, id, Compensating) && u in Owned(w.users, id)
    ensures Good(DropUser(w, u), Some(id), faults) && Owned(DropUser(w, u).users, id) == Owned(w.users, id) - {u}
  {
    OwnedRemove(w.users, u, id);
    forall x: nat ensures ResourceOk(DropUser(w, u), x) { assert ResourceOk(w, x); }
    NamesKept(w, DropUser(w, u));
    RollbackGood(w, DropUser(w, u), id, faults);
  }

  lemma UndoesTenant(w: World, id: nat, t: nat, faults: bool)
    requires Good(w, Some(id), faults) && Underway(w, id, Compensating) && t in Owned(w.tenants, id)
    ensures Good(DropTenant(w, t), Some(id), faults) &&
            Owned(DropTenant(w, t).tenants, id) == Owned(w.tenants, id) - {t}
  {
    OwnedRemove(w.tenants, t, id);
    forall x: nat ensures ResourceOk(DropTenant(w, t), x) { assert ResourceOk(w, x); }
    NamesKept(w, DropTenant(w, t));
    RollbackGood(w, DropTenant(w, t), id, faults);
  }

  /** A call that ends leaves its saga at rest, unless something went wrong. */
  lemma EndGood(w: World, id: nat, faults: bool)
    requires Good(w, Some(id), faults) && id in w.store && (!faults ==> Rested(w, w.store[id]))
    ensures Good(w, None, faults)
  {
    forall o | o in w.store ensures SagaOk(w, o, None, faults) {
      assert SagaOk(w, o, Some(id), faults);
    }
  }

  lemma BeginGood(w: World, id: nat, faults: bool)
    requires Good(w, None, faults) && id in w.store
    ensures Good(w, Some(id), faults)
  {
    forall o | o in w.store ensures SagaOk(w, o, Some(id), faults) {
      assert SagaOk(w, o, None, faults);
    }
  }

  /** A new saga is admitted only when the email's latest one, if any, is rolled back or could not be read. */
  lemma NewSagaGood(w: World, m: Record, faults: bool)
    requires Good(w, None, faults) && m == Record(w.nextId, m.email, m.company, None, None, InProgress, [], 0, 0)
    requires m.email in w.latest ==> m.email in w.blind || Admits(w, m.email)
    ensures Good(NewSaga(w, m), Some(m.id), faults) && Effects(NewSaga(w, m), m) && m.id !in w.store
  {
    var w' := NewSaga(w, m);
    assert m.id in w.store ==> SagaOk(w, m.id, None, faults);
    forall x: nat ensures ResourceOk(w', x) { assert ResourceOk(w, x); }
    NewSagaNames(w, m);
    forall x: nat ensures x !in Owned(w.tenants, m.id) && x !in Owned(w.users, m.id) && x !in Owned(w.bindings, m.id) {
      assert ResourceOk(w, x);
    }
    forall o | o in w'.store ensures SagaOk(w', o, Some(m.id), faults) {
      if o != m.id { OlderSagaOk(w, m, o, faults); }
    }
    forall e | e in w'.latest ensures LatestOk(w', e) {
      if e != m.email { assert LatestOk(w, e); }
    }
  }

  lemma OlderSagaOk(w: World, m: Record, o: nat, faults: bool)
    requires Good(w, None, faults) && m.id == w.nextId && m.id !in w.store && o in w.store
    requires m.email in w.latest ==> m.email in w.blind || Admits(w, m.email)
    ensures SagaOk(NewSaga(w, m), o, Some(m.id), faults)
  {
    assert SagaOk(w, o, None, faults);
    assert w.store[o].email in w.latest && LatestOk(w, w.store[o].email);
  }

  /** A saga without a tenant changes no name. */
  lemma NewSagaNames(w: World, m: Record)
    requires Tracked(w) && m.id !in w.store
    ensures NamesDistinct(w) ==> NamesDistinct(NewSaga(w, m))
    ensures forall name :: NameTaken(NewSaga(w, m), name) <==> NameTaken(w, name)
  {
    var w' := NewSaga(w, m);
    forall t: nat ensures NameOf(w', t) == NameOf(w, t) { assert ResourceOk(w, t); }
    if NamesDistinct(w) { NamesKept(w, w'); }
  }

  lemma ForeignGood(w: World, names: set<string>, faults: bool)
    requires Good(w, None, faults)
    ensures Good(w.(foreign := names), None, faults)
  {
    var w' := w.(foreign := names);
    forall o | o in w'.store ensures SagaOk(w', o, None, faults) {
      assert SagaOk(w, o, None, faults);
    }
    forall e | e in w'.latest ensures LatestOk(w', e) {
      assert LatestOk(w, e);
    }
    forall x: nat ensures ResourceOk(w', x) { assert ResourceOk(w, x); }
    NamesKept(w, w');
  }

  /** Start, given what the lookup by email finds, goes on to open a saga. */
  predicate Admits(w: World, email: string) {
    email !in w.latest || (w.latest[email] in w.store && RolledBack(w.store[w.latest[email]].status))
  }

  function Blindly(w: World, email: string): World { w.(blind := w.blind + {email}) }

  lemma BlindGood(w: World, email: string, faults: bool)
    requires Good(w, None, faults)
    ensures Good(Blindly(w, email), None, faults)
  {
    var w' := Blindly(w, email);
    forall o | o in w'.store ensures SagaOk(w', o, None, faults) {
      assert SagaOk(w, o, None, faults);
    }
    forall e | e in w'.latest ensures LatestOk(w', e) {
      assert LatestOk(w, e);
    }
    forall x: nat ensures ResourceOk(w', x) { assert ResourceOk(w, x); }
    NamesKept(w, w');
  }

  /** In every state a stopped process can leave: the stored steps are 1..k, at most one behind the truth. */
  lemma DurableProgress(w: World, current: Option<nat>, faults: bool, id: nat)
    requires Good(w, current, faults) && id in w.store
    ensures var m := w.store[id];
            && m.steps == Upto(|m.steps|) && |m.steps| <= 9
            && |m.steps| <= Done(w, id) <= |m.steps| + 1
            && (m.status == Completed ==> |m.steps| == 9)
            && (forall s | s in m.steps && s <= 7 :: Answered(w, id, s))
            && (m.status in {InProgress, Completed} ==> m.failedStep == 0)
  {
    assert SagaOk(w, id, current, faults);
  }

  /** Two sagas of one email that was always looked up before a saga was opened for it. */
  predicate SameEmail(w: World, a: nat, b: nat)
    requires a in w.store && b in w.store
  {
    w.store[a].email == w.store[b].email && w.store[a].email !in w.blind
  }

  /** When every call has run to its end, an email has at most one live tenant, of a completed saga. */
  lemma OneTenantPerEmail(w: World, t: nat, u: nat)
    requires Good(w, None, false) && t in w.tenants && u in w.tenants
    ensures w.tenants[t] in w.store && w.tenants[u] in w.store
    ensures w.store[w.tenants[t]].status == Completed
    ensures SameEmail(w, w.tenants[t], w.tenants[u]) ==> t == u
  {
    assert ResourceOk(w, t) && ResourceOk(w, u);
    var a, b := w.tenants[t], w.tenants[u];
    assert SagaOk(w, a, None, false) && SagaOk(w, b, None, false);
    assert t in Owned(w.tenants, a) && u in Owned(w.tenants, b);
  }

  // ----- Two tenants of one email, whatever stopped or failed -----

  /** The saga was to be rolled back, but its tenant is still there. */
  predicate HalfUndone(w: World, id: nat) {
    && id in w.store && w.store[id].status in {Compensating, CompensationFailed}
    && Owned(w.tenants, id) != {}
  }

  /**
    In every state a stopped process or a failing compensation can leave: of two live tenants of one
    email, different sagas made them under different names and one of these was half undone, unless a
    lookup of that very email had failed.
  */
  lemma TwoTenantsOneHalfUndone(w: World, current: Option<nat>, faults: bool, t: nat, u: nat)
    requires Good(w, current, faults) && t in w.tenants && u in w.tenants && t != u
    ensures w.tenants[t] in w.store && w.tenants[u] in w.store
    ensures SameEmail(w, w.tenants[t], w.tenants[u]) ==>
              w.tenants[t] != w.tenants[u] && (HalfUndone(w, w.tenants[t]) || HalfUndone(w, w.tenants[u]))
    ensures w.store[w.tenants[t]].company != w.store[w.tenants[u]].company
  {
    assert ResourceOk(w, t) && ResourceOk(w, u);
    assert NameOf(w, t) != NameOf(w, u);
    var a, b := w.tenants[t], w.tenants[u];
    assert SagaOk(w, a, current, faults) && SagaOk(w, b, current, faults);
    assert t in Owned(w.tenants, a) && u in Owned(w.tenants, b);
  }

  /** The world once a saga opened for an email is past its first step, with every call answered. */
  function Reopened(w: World, email: string, company: string): World {
    var m := Record(w.nextId, email, company, None, None, InProgress, [], 0, 0);
    var begun := NewSaga(w, m);
    if NameTaken(begun, company) then Save(begun, m.(status := Failed, failedStep := CREATE_TENANT))
    else Perform(AddTenant(begun, m.id), m.id, true)
  }

  /** Tenant t and another one are live for the email. */
  predicate SecondTenant(w: World, email: string, t: nat) {
    t in w.tenants &&
    exists u :: u in w.tenants && u != t && w.tenants[u] in w.store && w.store[w.tenants[u]].email == email
  }

  predicate HasHalfUndone(w: World, email: string) {
    exists id :: id in w.store && w.store[id].email == email && HalfUndone(w, id)
  }

  /**
    Where Start opens a saga, it gives the email a second tenant exactly if a saga of the email was left
    half undone and no tenant bears the company name asked for.
  */
  lemma SecondTenantIff(w: World, email: string, company: string, faults: bool)
    requires Good(w, None, faults) && Admits(w, email) && email !in w.blind
    ensures SecondTenant(Reopened(w, email, company), email, w.nextId + 1) <==>
            HasHalfUndone(w, email) && !NameTaken(w, company)
  {
    var w' := Reopened(w, email, company);
    assert ResourceOk(w, w.nextId) && ResourceOk(w, w.nextId + 1);
    assert w.nextId in w.store ==> SagaOk(w, w.nextId, None, faults);
    NewSagaNames(w, Record(w.nextId, email, company, None, None, InProgress, [], 0, 0));
    if !NameTaken(w, company) {
      forall id | id in w.store && w.store[id].email == email && HalfUndone(w, id)
        ensures SecondTenant(w', email, w.nextId + 1)
      {
        var u :| u in Owned(w.tenants, id);
        assert u in w'.tenants && w'.tenants[u] == id;
      }
      forall u | u in w'.tenants && u != w.nextId + 1 && w'.tenants[u] in w'.store
                 && w'.store[w'.tenants[u]].email == email
        ensures HasHalfUndone(w, email)
      {
        LiveIsHalfUndone(w, u, email, faults);
      }
    }
  }

  lemma LiveIsHalfUndone(w: World, u: nat, email: string, faults: bool)
    requires Good(w, None, faults) && Admits(w, email) && email !in w.blind
    requires u in w.tenants && (w.tenants[u] in w.store ==> w.store[w.tenants[u]].email == email)
    ensures HasHalfUndone(w, email)
  {
    assert ResourceOk(w, u);
    var id := w.tenants[u];
    assert SagaOk(w, id, None, faults) && u in Owned(w.tenants, id);
    assert HalfUndone(w, id);
  }

  /**
    Registering again under a name that a tenant bears, the half undone one included, fails at the
    first step: no tenant is created, and from then on Start opens no saga for the email.
  */
  lemma SameNameIsRefused(w: World, email: string, company: string, faults: bool)
    requires Good(w, None, faults) && NameTaken(w, company)
    ensures var w' := Reopened(w, email, company);
            && w'.tenants == w.tenants && NothingLeft(w', w.nextId) && !Admits(w', email)
            && w.nextId in w'.store && w'.store[w.nextId].status == Failed && w'.store[w.nextId].steps == []
  {
    assert w.nextId in w.store ==> SagaOk(w, w.nextId, None, faults);
    NewSagaNames(w, Record(w.nextId, email, company, None, None, InProgress, [], 0, 0));
    forall x: nat
      ensures x !in Owned(w.tenants, w.nextId) && x !in Owned(w.users, w.nextId) && x !in Owned(w.bindings, w.nextId)
    {
      assert ResourceOk(w, x);
    }
  }

  const NOTHING := World(map[], map[], map[], map[], map[], map[], map[], {}, {}, 0)

  /** The record of a first registration whose tenant is made and whose user is not. */
  function FirstRecord(email: string, company: string): Record {
    Record(0, email, company, Some(1), None, InProgress, [CREATE_TENANT], 0, 0)
  }

  function Tenanted(email: string, company: string): World {
    Save(Reopened(NOTHING, email, company), FirstRecord(email, company))
  }

  /**
    That registration fails at its user and is to be rolled back; the process stops there, or deleting
    the tenant fails.
  */
  function LeftHalfUndone(email: string, company: string, stopped: bool): World {
    var failed := FirstRecord(email, company).(status := Failed, failedStep := CREATE_USER);
    var compensating := failed.(status := Compensating);
    var w := Save(Save(Tenanted(email, company), failed), compensating);
    if stopped then w else Save(w, compensating.(status := CompensationFailed, errors := 1))
  }

  lemma TenantedGood(email: string, company: string)
    ensures var w := Tenanted(email, company);
            && Good(w, Some(0), true) && w.store == map[0 := FirstRecord(email, company)] && w.tenants == map[1 := 0]
            && w.performed == map[0 := [true]] && w.nextId == 2
  {
    var m := Record(0, email, company, None, None, InProgress, [], 0, 0);
    NewSagaGood(NOTHING, m, true);
    var w := NewSaga(NOTHING, m);
    assert !NameTaken(w, company) && Calls(w, 0) + [true] == [true];
    CreatesTenant(w, m, true);
    SaveGood(Reopened(NOTHING, email, company), FirstRecord(email, company), Some(0), true);
  }

  lemma LeftHalfUndoneGood(email: string, company: string, stopped: bool)
    ensures var w := LeftHalfUndone(email, company, stopped);
            && Good(w, None, true) && Admits(w, email) && HasHalfUndone(w, email) && email !in w.blind && w.nextId == 2
            && forall name :: NameTaken(w, name) <==> name == company
  {
    var failed := FirstRecord(email, company).(status := Failed, failedStep := CREATE_USER);
    var compensating := failed.(status := Compensating);
    TenantedGood(email, company);
    var w := Tenanted(email, company);
    SaveGood(w, failed, Some(0), true);
    SaveGood(Save(w, failed), compensating, Some(0), true);
    if !stopped {
      var last := compensating.(status := CompensationFailed, errors := 1);
      SaveGood(Save(Save(w, failed), compensating), last, Some(0), true);
    }
    var w' := LeftHalfUndone(email, company, stopped);
    EndGood(w', 0, true);
    assert 1 in Owned(w'.tenants, 0);
    assert HalfUndone(w', 0);
    assert NameOf(w', 1) == Some(company);
  }

  /** Registering again after either of the two gives the email a second live tenant exactly under another name. */
  lemma SecondTenantHappens(email: string, company: string, again: string, stopped: bool)
    ensures SecondTenant(Reopened(LeftHalfUndone(email, company, stopped), email, again), email, 3) <==>
            again != company
  {
    LeftHalfUndoneGood(email, company, stopped);
    SecondTenantIff(LeftHalfUndone(email, company, stopped), email, again, true);
  }

  /** When every call has run to its end: completed with everything there, or nothing left at all. */
  lemma EachSagaRests(w: World, id: nat)
    requires Good(w, None, false) && id in w.store
    ensures var m := w.store[id];
            || (m.status == Completed
                && m.tenant.Some? && m.tenant.value in w.tenants && w.tenants[m.tenant.value] == id
                && m.user.Some? && m.user.value in w.users && w.users[m.user.value] == id
                && m.tenant.value in w.bindings && w.bindings[m.tenant.value] == id
                && forall s | 1 <= s <= 7 :: Answered(w, id, s))
            || (m.status == Failed && m.steps == [] && NothingLeft(w, id))
            || (m.status == Compensated && NothingLeft(w, id))
  {
    assert SagaOk(w, id, None, false);
    var m := w.store[id];
    if m.status == Completed {
      assert m.tenant.value in Owned(w.tenants, id) && m.user.value in Owned(w.users, id);
      assert m.tenant.value in Owned(w.bindings, id);
    }
  }

  /** What the step created, if the record says it ran, and nothing else. */
  predicate Owed(w: World, m: Record, step: nat) {
    && (step == 3 ==>
          (step <= |m.steps| ==> m.tenant.Some?) && Owned(w.bindings, m.id) == OnlyIf(3 <= |m.steps|, m.tenant))
    && (step == 2 ==>
          (step <= |m.steps| ==> m.user.Some?) && Owned(w.users, m.id) == OnlyIf(2 <= |m.steps|, m.user))
    && (step == 1 ==>
          (step <= |m.steps| ==> m.tenant.Some?) && Owned(w.tenants, m.id) == OnlyIf(1 <= |m.steps|, m.tenant))
  }

  /** The world once the compensation of a step has gone through. */
  function Undone(w: World, m: Record, step: nat): (w': World)
    ensures w'.store == w.store && w'.latest == w.latest && w'.blind == w.blind
    ensures w'.performed == w.performed && w'.nextId == w.nextId
    ensures step != 3 ==> w'.bindings == w.bindings
    ensures step != 2 ==> w'.users == w.users
    ensures step != 1 ==> w'.tenants == w.tenants
  {
    if |m.steps| < step then w
    else if step == 3 && m.tenant.Some? then Unbind(w, m.tenant.value)
    else if step == 2 && m.user.Some? then DropUser(w, m.user.value)
    else if step == 1 && m.tenant.Some? then DropTenant(w, m.tenant.value)
    else w
  }

  lemma UndoGood(w: World, m: Record, step: nat, faults: bool)
    requires Good(w, Some(m.id), faults) && Underway(w, m.id, Compensating)
    requires 1 <= step <= 3 && step <= |m.steps| && Owed(w, m, step)
    ensures Good(Undone(w, m, step), Some(m.id), faults)
  {
    if step == 3 {
      UndoesBinding(w, m.id, m.tenant.value, faults);
    } else if step == 2 {
      UndoesUser(w, m.id, m.user.value, faults);
    } else {
      UndoesTenant(w, m.id, m.tenant.value, faults);
    }
  }

  function UndoneUnless(w: World, m: Record, step: nat, errors: nat): World {
    if errors == 0 then Undone(w, m, step) else w
  }

  /** At most one error for each recorded step. */
  predicate OwesAtMost(m: Record, e3: nat, e2: nat, e1: nat) {
    && e3 <= 1 && e2 <= 1 && e1 <= 1
    && (|m.steps| < 3 ==> e3 == 0) && (|m.steps| < 2 ==> e2 == 0) && (|m.steps| < 1 ==> e1 == 0)
  }

  /** Nothing but tenants, users and bindings has changed. */
  predicate SameRest(w: World, w': World) {
    && w'.store == w.store && w'.latest == w.latest && w'.blind == w.blind
    && w'.performed == w.performed && w'.nextId == w.nextId
  }

  /** After the three compensations there is left, kind by kind, what a failed one could not take away. */
  lemma ErrorsAreLeft(w: World, m: Record, e3: nat, e2: nat, e1: nat)
    requires Effects(w, m) && OwesAtMost(m, e3, e2, e1)
    ensures var w' := UndoneUnless(UndoneUnless(UndoneUnless(w, m, 3, e3), m, 2, e2), m, 1, e1);
            KindsLeft(w', m.id) == e3 + e2 + e1
  {
    var w' := UndoneUnless(UndoneUnless(UndoneUnless(w, m, 3, e3), m, 2, e2), m, 1, e1);
    KindLeft(w.bindings, w'.bindings, m.id, if 3 <= |m.steps| then m.tenant else None, e3);
    KindLeft(w.users, w'.users, m.id, if 2 <= |m.steps| then m.user else None, e2);
    KindLeft(w.tenants, w'.tenants, m.id, if 1 <= |m.steps| then m.tenant else None, e1);
  }

  lemma KindLeft(r: map<nat, nat>, r': map<nat, nat>, id: nat, x: Option<nat>, errors: nat)
    requires Owned(r, id) == OnlyIf(true, x) && errors <= 1 && (x.None? ==> errors == 0)
    requires r' == if errors == 0 && x.Some? then r - {x.value} else r
    ensures Owned(r', id) == if errors == 0 then {} else Owned(r, id)
    ensures errors > 0 ==> Owned(r, id) != {}
  {
    if x.Some? {
      assert x.value in Owned(r, id);
      OwnedRemove(r, x.value, id);
    }
  }

  /** The kinds of things of the saga that are still there. */
  function KindsLeft(w: World, id: nat): nat {
    (if Owned(w.bindings, id) == {} then 0 else 1) + (if Owned(w.users, id) == {} then 0 else 1)
    + if Owned(w.tenants, id) == {} then 0 else 1
  }

  /** The compensations owed for the completed steps, the last step first. */
  function UndoOrder(m: Record): seq<nat> { UndoCall(m, 3) + UndoCall(m, 2) + UndoCall(m, 1) }

  function UndoCall(m: Record, step: nat): seq<nat> { if step <= |m.steps| then [step] else [] }

  predicate CallMade(u: seq<nat>, u': seq<nat>, m: Record, step: nat, alive: bool) {
    u' == if alive then u + UndoCall(m, step) else u
  }

  /** The calls made since are those owed, in their order; the first few of them if the process has stopped. */
  predicate InOrder(u: seq<nat>, u': seq<nat>, m: Record, alive: bool) {
    u <= u' <= u + UndoOrder(m) && (alive ==> u' == u + UndoOrder(m))
  }

  lemma CallsInOrder(m: Record, u: seq<nat>, u3: seq<nat>, alive3: bool, u2: seq<nat>, alive2: bool, u1: seq<nat>,
      alive1: bool)
    requires CallMade(u, u3, m, 3, alive3) && CallMade(u3, u2, m, 2, alive2) && CallMade(u2, u1, m, 1, alive1)
    requires (alive1 ==> alive2) && (alive2 ==> alive3)
    ensures InOrder(u, u1, m, alive1)
  {
    assert u + UndoOrder(m) == u + UndoCall(m, 3) + UndoCall(m, 2) + UndoCall(m, 1);
  }

  datatype Call = StartCall(email: string, company: string) | ResumeCall(id: nat)

  // ----- The orchestrator -----

  class Orchestrator {
    const allSucceed: bool
    var w: World
    var alive: bool
    ghost var current: Option<nat>
    ghost var faults: bool
    /** Every compensating call made, by its step. */
    ghost var undone: seq<nat>

    ghost predicate Valid() reads this {
      Good(w, current, faults) && (!alive ==> faults)
    }

    /**
      Saga m is being run: as long as the process lives, the store holds m, exactly its recorded
      steps have been performed, and their effects are there.
    */
    ghost predicate Running(m: Record) reads this {
      && Valid() && current == Some(m.id) && m.id in w.store && SameRequest(m, w.store[m.id])
      && m.status == InProgress && m.failedStep == 0 && m.steps == Upto(|m.steps|) && |m.steps| <= 9
      && (alive ==> w.store[m.id] == m && Done(w, m.id) == |m.steps| && Effects(w, m))
    }

    /** `allSucceed` stands for lookups and external calls of the pipeline none of which fail. */
    constructor (allSucceed: bool, foreign: set<string>)
      ensures Valid() && current.None? && !faults && w.store == map[] && w.foreign == foreign
      ensures this.allSucceed == allSucceed
    {
      this.allSucceed := allSucceed;
      w := World(map[], map[], map[], map[], map[], map[], map[], {}, foreign, 0);
      alive, current, faults, undone := true, None, false, [];
    }

    /** The process may have stopped since its last action. */
    method Live()
      requires Valid()
      modifies this`alive, this`faults
      ensures Valid() && (alive ==> old(alive) && faults == old(faults))
      ensures old(faults) ==> faults
    {
      var stop: bool := *;
      if alive && stop {
        assert forall id | id in w.store :: SagaOk(w, id, current, faults);
        alive := false;
        faults := true;
      }
    }

    /** persist */
    method Persist(m: Record)
      requires Valid() && current == Some(m.id) && m.id in w.store && SameRequest(m, w.store[m.id])
      requires alive ==> StoredOk(w, m) && (RolledBack(w.store[m.id].status) ==> RolledBack(m.status))
      modifies this
      ensures Valid() && current == old(current) && w == (if alive then Save(old(w), m) else old(w))
      ensures (alive ==> old(alive) && faults == old(faults)) && (old(faults) ==> faults)
    {
      Live();
      if alive {
        SaveGood(w, m, current, faults);
        w := Save(w, m);
      }
    }

    /** failSaga: the failure is recorded; progress and effects are untouched. */
    method FailSaga(m: Record, step: nat) returns (f: Record)
      requires Running(m)
      modifies this
      ensures Valid() && current == Some(m.id) && f == m.(status := Failed, failedStep := step)
      ensures (alive ==> old(alive) && faults == old(faults) && w == Save(old(w), f)) && (old(faults) ==> faults)
      ensures !alive ==> w == old(w)
    {
      f := m.(status := Failed, failedStep := step);
      Owes(m);
      Persist(f);
    }

    /** A running saga's record stays fit for the store under any status that promises no more. */
    lemma Owes(m: Record)
      requires Running(m)
      ensures alive ==> forall st, step | st !in {InProgress, Completed, Compensated} ::
              StoredOk(w, m.(status := st, failedStep := step))
    {
      if alive {
        assert SagaOk(w, m.id, current, faults);
      }
    }

    /** The call is over; without faults its saga is at rest. */
    ghost method End(id: nat)
      requires Valid() && current == Some(id) && id in w.store && (!faults ==> Rested(w, w.store[id]))
      modifies this`current
      ensures Valid() && current.None?
    {
      EndGood(w, id, faults);
      current := None;
    }

    /** A failure before anything was created ends the call at once. */
    method FailEarly(m: Record, step: nat)
      requires Running(m) && (!faults ==> m.steps == [])
      modifies this
      ensures Valid() && current.None? && (old(faults) ==> faults)
      ensures SameSagas(old(w), w)
      ensures !faults ==> w.store[m.id].status == Failed && NothingLeft(w, m.id)
      ensures w.performed == old(w).performed && (alive ==> old(alive))
      ensures alive ==> w.store[m.id] == m.(status := Failed, failedStep := step)
    {
      var f := FailSaga(m, step);
      End(m.id);
    }

    /** UnbindVertical, DeleteUser and DeleteTenant: a failing one is counted and leaves its object. */
    method Undo(c: Record, step: nat) returns (errors: nat)
      requires Valid() && current == Some(c.id) && c.id in w.store && 1 <= step <= 3
      requires StepCompleted(c, step) <==> step <= |c.steps|
      requires alive ==> w.store[c.id] == c && c.status == Compensating && Owed(w, c, step)
      modifies this
      ensures Valid() && current == old(current)
      ensures (alive ==> old(alive)) && (old(faults) ==> faults) && (errors > 0 ==> faults)
      ensures alive && errors == 0 ==> faults == old(faults)
      ensures errors <= 1 && (|c.steps| < step ==> errors == 0)
      ensures w == if alive then UndoneUnless(old(w), c, step, errors) else old(w)
      ensures CallMade(old(undone), undone, c, step, alive)
    {
      errors := 0;
      if StepCompleted(c, step) {
        Live();
        var failed: bool := *;
        if alive {
          undone := undone + [step];
        }
        if failed {
          assert forall id | id in w.store :: SagaOk(w, id, current, faults);
          errors, faults := 1, true;
        } else if alive {
          UndoGood(w, c, step, faults);
          w := Undone(w, c, step);
        }
      }
    }

    /** The three compensations in reverse order, each for a completed step only; the errors are what is left. */
    method RollBack(c: Record) returns (errors: nat)
      requires Valid() && current == Some(c.id) && c.id in w.store && c.steps == Upto(|c.steps|)
      requires alive ==> w.store[c.id] == c && c.status == Compensating && Effects(w, c)
      modifies this
      ensures Valid() && current == old(current) && w.store == old(w).store && w.latest == old(w).latest &&
              w.blind == old(w).blind
      ensures (alive ==> old(alive)) && (old(faults) ==> faults) && (errors > 0 ==> faults)
      ensures w.performed == old(w).performed && w.nextId == old(w).nextId
      ensures alive && errors == 0 ==> faults == old(faults)
      ensures alive ==> errors == KindsLeft(w, c.id)
      ensures InOrder(old(undone), undone, c, alive)
    {
      var e3, e2, e1 := UndoAll(c);
      errors := e3 + e2 + e1;
      if alive { ErrorsAreLeft(old(w), c, e3, e2, e1); }
    }

    method UndoAll(c: Record) returns (e3: nat, e2: nat, e1: nat)
      requires Valid() && current == Some(c.id) && c.id in w.store && c.steps == Upto(|c.steps|)
      requires alive ==> w.store[c.id] == c && c.status == Compensating && Effects(w, c)
      modifies this
      ensures Valid() && current == old(current)
      ensures (alive ==> old(alive)) && (old(faults) ==> faults) && (e3 + e2 + e1 > 0 ==> faults)
      ensures alive && e3 + e2 + e1 == 0 ==> faults == old(faults)
      ensures OwesAtMost(c, e3, e2, e1) && SameRest(old(w), w)
      ensures alive ==> w == UndoneUnless(UndoneUnless(UndoneUnless(old(w), c, 3, e3), c, 2, e2), c, 1, e1)
      ensures InOrder(old(undone), undone, c, alive)
    {
      UptoExtends(|c.steps|);
      e3 := Undo(c, BIND_VERTICAL);
      ghost var u3, alive3 := undone, alive;
      e2 := Undo(c, CREATE_USER);
      ghost var u2, alive2 := undone, alive;
      e1 := Undo(c, CREATE_TENANT);
      CallsInOrder(c, old(undone), u3, alive3, u2, alive2, undone, alive);
    }

    method FailAndCompensate(m: Record, step: nat)
      requires Running(m)
      modifies this
      ensures Valid() && current.None? && (old(faults) ==> faults)
      ensures SameSagas(old(w), w)
      ensures !faults ==> w.store[m.id].status == Compensated && NothingLeft(w, m.id)
      ensures w.performed == old(w).performed && (alive ==> old(alive) && w.store[m.id].failedStep == step)
    {
      Owes(m);
      var f := FailSaga(m, step);
      var c := f.(status := Compensating);
      Persist(c);
      Compensate(c);
    }

    /** compensate, once the saga is recorded as compensating: roll back and record the outcome. */
    method Compensate(c: Record)
      requires Valid() && current == Some(c.id) && c.id in w.store && SameRequest(c, w.store[c.id])
      requires c.status == Compensating && c.steps == Upto(|c.steps|)
      requires alive ==> w.store[c.id] == c && Effects(w, c)
      modifies this
      ensures Valid() && current.None? && (old(faults) ==> faults)
      ensures SameSagas(old(w), w)
      ensures !faults ==> w.store[c.id].status == Compensated && NothingLeft(w, c.id)
      ensures w.performed == old(w).performed && (alive ==> old(alive))
      ensures alive ==>
        var m := w.store[c.id];
        && m == c.(status := m.status, errors := KindsLeft(w, c.id))
        && m.status == if m.errors > 0 then CompensationFailed else Compensated
    {
      var errors := RollBack(c);
      assert SagaOk(w, c.id, current, faults);
      var last := c.(status := if errors > 0 then CompensationFailed else Compensated, errors := errors);
      Persist(last);
      End(c.id);
    }

    /** The step's effect is in the world; its completion is recorded and persisted. */
    method Complete(m: Record, m': Record)
      requires Valid() && current == Some(m.id) && m.id in w.store && SameRequest(m, w.store[m.id])
      requires m'.id == m.id && SameRequest(m', m) && m'.status == InProgress && m'.failedStep == 0
      requires m'.steps == Upto(|m'.steps|) && |m'.steps| <= 9
      requires alive ==>
        && StoredOk(w, m') && Effects(w, m') && Done(w, m.id) == |m'.steps| && w.store[m.id].status == InProgress
      modifies this
      ensures Running(m') && SameSagas(old(w), w) && (old(faults) ==> faults)
      ensures w.performed == old(w).performed && (alive ==> old(alive))
    {
      Persist(m');
    }

    /** A call that changes nothing, a read or a computation, and whether it fails. */
    method Fails() returns (failed: bool)
      ensures allSucceed ==> !failed
    {
      failed := *;
      failed := failed && !allSucceed;
    }

    /**
      The external call of the next step. If it succeeds its effect is there, and the ID of what it made;
      if it fails nothing has changed.
    */
    method Call(m: Record, step: nat) returns (done: bool, made: nat)
      requires Running(m) && step == |m.steps| + 1 <= 9
      requires step == CREATE_TENANT ==> !NameTaken(w, m.company)
      modifies this
      ensures Valid() && current == old(current) && (old(faults) ==> faults)
      ensures alive ==> old(alive) && faults == old(faults)
      ensures made == old(w).nextId && w == if done && alive then Served(old(w), m, step) else old(w)
      ensures allSucceed ==> done
      ensures !done ==> Running(m)
    {
      Live();
      done, made := *, w.nextId;
      done := done || allSucceed;
      if done && alive {
        ServedGood(w, m, step, faults);
        w := Served(w, m, step);
      }
    }

    lemma NotAnswered(m: Record)
      requires Running(m)
      ensures alive ==> !Answered(w, m.id, |m.steps| + 1)
    {
      if alive {
        assert SagaOk(w, m.id, current, faults);
      }
    }

    /** Refused if a tenant bears the name; if it is not, created and recorded unless a call fails. */
    method StepCreateTenant(m: Record)
      returns (m': Record, ok: bool, ghost checked: bool, ghost answered: bool)
      requires Running(m) && (!faults ==> m.steps == [])
      modifies this
      ensures SameSagas(old(w), w) && (old(faults) ==> faults)
      ensures if ok then Running(m') && m'.id == m.id && 1 <= |m'.steps| else Valid() && current.None?
      ensures StepCompleted(m, CREATE_TENANT) ==> m' == m && w == old(w)
      ensures ok <==> StepCompleted(m, CREATE_TENANT) || answered
      ensures answered ==> !StepCompleted(m, CREATE_TENANT) && checked && !NameTaken(old(w), m.company)
      ensures allSucceed && m.steps == [] && !NameTaken(old(w), m.company) ==> answered
      ensures m.steps == [] && alive ==> (answered <==> Answered(w, m.id, CREATE_TENANT))
      ensures !ok && !faults ==> w.store[m.id].status == Failed && NothingLeft(w, m.id)
      ensures !ok && alive ==> w.store[m.id].failedStep == CREATE_TENANT
    {
      UptoExtends(|m.steps|);
      m', ok, checked, answered := m, true, false, false;
      if !StepCompleted(m, CREATE_TENANT) {
        NotAnswered(m);
        var nameTaken := NameTaken(w, m.company);
        var failed := Fails();
        checked := !failed;
        if failed || nameTaken {
          FailEarly(m, CREATE_TENANT);
          return m, false, checked, false;
        }
        ghost var before := w;
        var done, tenant := Call(m, CREATE_TENANT);
        if !done {
          FailEarly(m, CREATE_TENANT);
          return m, false, checked, false;
        }
        answered := true;
        m' := MarkStepCompleted(m.(tenant := Some(tenant)), CREATE_TENANT);
        RecordServed(before, m, m', CREATE_TENANT);
        Complete(m, m');
      }
    }

    method StepCreateUser(m: Record) returns (m': Record, ok: bool, ghost hashed: bool, ghost answered: bool)
      requires Running(m) && 1 <= |m.steps|
      modifies this
      ensures SameSagas(old(w), w) && (old(faults) ==> faults)
      ensures if ok then Running(m') && m'.id == m.id && 2 <= |m'.steps| else Valid() && current.None?
      ensures StepCompleted(m, CREATE_USER) ==> m' == m && w == old(w)
      ensures ok <==> StepCompleted(m, CREATE_USER) || answered
      ensures answered ==> !StepCompleted(m, CREATE_USER) && hashed
      ensures allSucceed ==> ok
      ensures !StepCompleted(m, CREATE_USER) && alive ==> (answered <==> Answered(w, m.id, CREATE_USER))
      ensures !ok && !faults ==> w.store[m.id].status == Compensated && NothingLeft(w, m.id)
      ensures !ok && alive ==> w.store[m.id].failedStep == CREATE_USER
    {
      UptoExtends(|m.steps|);
      m', ok, hashed, answered := m, true, false, false;
      if !StepCompleted(m, CREATE_USER) {
        NotAnswered(m);
        var failed := Fails();
        hashed := !failed;
        if failed {
          FailAndCompensate(m, CREATE_USER);
          return m, false, hashed, false;
        }
        ghost var before := w;
        var done, user := Call(m, CREATE_USER);
        if !done {
          FailAndCompensate(m, CREATE_USER);
          return m, false, hashed, false;
        }
        answered := true;
        m' := MarkStepCompleted(m.(user := Some(user)), CREATE_USER);
        RecordServed(before, m, m', CREATE_USER);
        Complete(m, m');
      }
    }

    /** What Call has made of the world fits the record with the step marked. */
    lemma RecordServed(before: World, m: Record, m': Record, step: nat)
      requires alive ==> Good(before, Some(m.id), faults)
      requires Valid() && current == Some(m.id) && m.status == InProgress && m.failedStep == 0
      requires m.steps == Upto(|m.steps|) && step == |m.steps| + 1 <= 9 && m.id in before.store
      requires alive ==> before.store[m.id] == m && Effects(before, m) && Done(before, m.id) == |m.steps|
      requires alive ==> w == Served(before, m, step)
      requires m' == MarkStepCompleted(m.(tenant := m'.tenant, user := m'.user), step)
      requires if step == 1 then m'.tenant == Some(before.nextId) else m'.tenant == m.tenant
      requires if step == 2 then m'.user == Some(before.nextId) else m'.user == m.user
      ensures alive ==>
        && StoredOk(w, m') && Effects(w, m') && Done(w, m.id) == |m'.steps|
        && m.id in w.store && w.store[m.id] == m && m'.steps == Upto(|m'.steps|) && |m'.steps| == step
    {
      if alive {
        ServedOwns(before, m, step);
        assert SagaOk(before, m.id, Some(m.id), faults) && SagaOk(w, m.id, Some(m.id), faults);
        Recorded(before, w, m, m');
      }
    }

    method StepBindVertical(m: Record) returns (m': Record, ok: bool, ghost answered: bool)
      requires Running(m) && 2 <= |m.steps|
      modifies this
      ensures SameSagas(old(w), w) && (old(faults) ==> faults)
      ensures if ok then Running(m') && m'.id == m.id && 3 <= |m'.steps| else Valid() && current.None?
      ensures StepCompleted(m, BIND_VERTICAL) ==> m' == m && w == old(w)
      ensures ok <==> StepCompleted(m, BIND_VERTICAL) || answered
      ensures answered ==> !StepCompleted(m, BIND_VERTICAL)
      ensures allSucceed ==> ok
      ensures !StepCompleted(m, BIND_VERTICAL) && alive ==> (answered <==> Answered(w, m.id, BIND_VERTICAL))
      ensures !ok && !faults ==> w.store[m.id].status == Compensated && NothingLeft(w, m.id)
      ensures !ok && alive ==> w.store[m.id].failedStep == BIND_VERTICAL
    {
      UptoExtends(|m.steps|);
      m', ok, answered := m, true, false;
      if !StepCompleted(m, BIND_VERTICAL) {
        NotAnswered(m);
        ghost var before := w;
        var done, _ := Call(m, BIND_VERTICAL);
        if !done {
          FailAndCompensate(m, BIND_VERTICAL);
          return m, false, false;
        }
        answered := true;
        m' := MarkStepCompleted(m, BIND_VERTICAL);
        RecordServed(before, m, m', BIND_VERTICAL);
        Complete(m, m');
      }
    }

    /**
      Steps 4 to 7 compensate when their call fails; steps 8 and 9 are best-effort and count even then.
      `answered` is whether the step's external call was made and succeeded.
    */
    method StepRemote(m: Record, step: nat) returns (m': Record, ok: bool, ghost answered: bool)
      requires Running(m) && SEED_CHART <= step <= WELCOME_EMAIL && step - 1 <= |m.steps|
      modifies this
      ensures SameSagas(old(w), w) && (old(faults) ==> faults)
      ensures if ok then Running(m') && m'.id == m.id && step <= |m'.steps| else Valid() && current.None?
      ensures StepCompleted(m, step) ==> m' == m && w == old(w)
      ensures ok <==> StepCompleted(m, step) || answered || 8 <= step
      ensures answered ==> !StepCompleted(m, step)
      ensures allSucceed ==> StepCompleted(m, step) || answered
      ensures !StepCompleted(m, step) && alive ==> (answered <==> Answered(w, m.id, step))
      ensures !ok && !faults ==> w.store[m.id].status == Compensated && NothingLeft(w, m.id)
      ensures !ok && alive ==> w.store[m.id].failedStep == step
    {
      UptoExtends(|m.steps|);
      m', ok, answered := m, true, false;
      if !StepCompleted(m, step) {
        NotAnswered(m);
        ghost var before := w;
        var done, _ := Call(m, step);
        if !done && step <= OPEN_PERIOD {
          FailAndCompensate(m, step);
          return m, false, false;
        }
        answered := done;
        m' := MarkStepCompleted(m, step);
        if done {
          RecordServed(before, m, m', step);
        } else {
          Skip(m, m', step);
        }
        Complete(m, m');
      }
    }

    /** A best-effort step is gone through although its call failed. */
    method Skip(m: Record, m': Record, step: nat)
      requires Running(m) && PUBLISH_EVENT <= step == |m.steps| + 1 <= 9 && m' == MarkStepCompleted(m, step)
      modifies this`w
      ensures Valid() && w == if alive then Perform(old(w), m.id, false) else old(w)
      ensures alive ==>
        && StoredOk(w, m') && Effects(w, m') && Done(w, m.id) == |m'.steps|
        && m'.steps == Upto(|m'.steps|) && |m'.steps| == step
    {
      if alive {
        UptoExtends(|m.steps|);
        assert SagaOk(w, m.id, current, faults);
        PerformGood(w, w, m.id, false, faults);
        ghost var before := w;
        w := Perform(w, m.id, false);
        assert SagaOk(w, m.id, current, faults);
        Recorded(before, w, m, m');
      }
    }

    /** The pipeline: to the end, or to the first critical failure and its compensation. */
    method Run(m0: Record) returns (ghost configured: bool)
      requires Running(m0) && (!faults ==> m0.steps == [])
      modifies this
      ensures Valid() && current.None? && (old(faults) ==> faults)
      ensures SameSagas(old(w), w)
      ensures !faults ==> Rested(w, w.store[m0.id])
      ensures allSucceed && !faults ==>
        w.store[m0.id].status == if NameTaken(old(w), m0.company) then Failed else Completed
      ensures !configured && alive ==> w.store[m0.id] == m0.(status := Failed, failedStep := 0)
    {
      var m, ok := m0, true;
      ghost var tried, answered: bool;
      var unknown := Fails();
      configured := !unknown;
      if unknown {
        FailEarly(m, 0);
        RestedAtEnd(m0.id);
        return;
      }
      m, ok, tried, answered := StepCreateTenant(m);
      if !ok { RestedAtEnd(m0.id); return; }
      m, ok, tried, answered := StepCreateUser(m);
      if !ok { RestedAtEnd(m0.id); return; }
      m, ok, answered := StepBindVertical(m);
      if !ok { RestedAtEnd(m0.id); return; }
      m, ok, answered := StepRemote(m, SEED_CHART);
      if !ok { RestedAtEnd(m0.id); return; }
      m, ok, answered := StepRemote(m, SEED_BUDGETS);
      if !ok { RestedAtEnd(m0.id); return; }
      m, ok, answered := StepRemote(m, SEED_EXPENSES);
      if !ok { RestedAtEnd(m0.id); return; }
      m, ok, answered := StepRemote(m, OPEN_PERIOD);
      if !ok { RestedAtEnd(m0.id); return; }
      m, ok, answered := StepRemote(m, PUBLISH_EVENT);
      m, ok, answered := StepRemote(m, WELCOME_EMAIL);
      Conclude(m);
    }

    lemma RestedAtEnd(id: nat)
      requires Valid() && current.None? && id in w.store
      ensures !faults ==> Rested(w, w.store[id])
    {
      assert SagaOk(w, id, None, faults);
    }

    method Conclude(m: Record)
      requires Running(m) && |m.steps| == 9
      modifies this
      ensures Valid() && current.None? && (old(faults) ==> faults)
      ensures SameSagas(old(w), w)
      ensures !faults ==> w.store[m.id].status == Completed && Effects(w, w.store[m.id])
      ensures alive ==> w.store[m.id] == m.(status := Completed)
    {
      assert SagaOk(w, m.id, current, faults);
      var done := m.(status := Completed);
      Persist(done);
      End(m.id);
    }

    /**
      Start: a saga is opened exactly if the email has none, its latest one is being or has been rolled
      back, successfully or not, or the lookup fails; `readable` is the lookup's outcome. Unless the
      process stops before storing it, `created` is that saga. Otherwise the existing saga is the answer,
      as an error unless it is completed.
    */
    method Start(email: string, company: string)
      returns (created: Option<nat>, readable: bool, refused: bool)
      requires Valid() && current.None?
      modifies this
      ensures Valid() && current.None? && (old(faults) ==> faults) && (allSucceed ==> readable)
      ensures w.blind == old(w).blind + if readable || created.None? then {} else {email}
      ensures created.Some? ==>
        && (!readable || Admits(old(w), email))
        && created.value !in old(w).store && created.value in w.store && w.store[created.value].email == email
        && w.latest == old(w).latest[email := created.value]
      ensures created.None? ==> w == old(w) && ((readable && !Admits(old(w), email)) || !alive)
      ensures created.None? && alive ==>
        && email in old(w).latest && old(w).latest[email] in old(w).store
        && (refused <==> old(w).store[old(w).latest[email]].status != Completed)
      ensures !faults && created.Some? ==> Rested(w, w.store[created.value])
      ensures allSucceed && !faults && created.Some? ==>
        w.store[created.value].status == if NameTaken(old(w), company) then Failed else Completed
    {
      alive := true;
      var failed := Fails();
      created, readable, refused := None, !failed, false;
      if email in w.latest {
        assert LatestOk(w, email);
        RolledBackOrNot(w.store[w.latest[email]].status);
      }
      if readable && email in w.latest {
        if w.store[w.latest[email]].status in {Completed, InProgress, Failed} {
          refused := w.store[w.latest[email]].status != Completed;
          return;
        }
      }
      Live();
      if alive {
        created := OpenSaga(email, company, readable);
      }
    }

    method OpenSaga(email: string, company: string, readable: bool) returns (created: Option<nat>)
      requires Valid() && current.None? && (readable ==> Admits(w, email))
      modifies this
      ensures Valid() && current.None? && (old(faults) ==> faults)
      ensures w.blind == old(w).blind + if readable then {} else {email}
      ensures created.Some? && created.value !in old(w).store && created.value in w.store
      ensures w.store[created.value].email == email
      ensures w.latest == old(w).latest[email := created.value]
      ensures !faults ==> Rested(w, w.store[created.value])
      ensures allSucceed && !faults ==>
        w.store[created.value].status == if NameTaken(old(w), company) then Failed else Completed
    {
      if !readable {
        BlindGood(w, email, faults);
        w := Blindly(w, email);
      }
      var m := Record(w.nextId, email, company, None, None, InProgress, [], 0, 0);
      NewSagaGood(w, m, faults);
      NewSagaNames(w, m);
      w := NewSaga(w, m);
      current, created := Some(m.id), Some(m.id);
      ghost var configured := Run(m);
      assert LatestOk(w, email);
    }

    /** Resume: only a failed saga, from its first uncompleted step. */
    method Resume(id: nat) returns (readable: bool)
      requires Valid() && current.None?
      modifies this
      ensures Valid() && current.None? && (old(faults) ==> faults)
      ensures SameSagas(old(w), w)
      ensures allSucceed ==> readable
      ensures !readable || id !in old(w).store || old(w).store[id].status != Failed ==> w == old(w)
      ensures !faults && id in w.store ==> Rested(w, w.store[id])
      ensures allSucceed && !faults && id in old(w).store && old(w).store[id].status == Failed ==>
        w.store[id].status == if NameTaken(old(w), old(w).store[id].company) then Failed else Completed
    {
      alive := true;
      var failed := Fails();
      readable := !failed;
      if id in w.store {
        RestedAtEnd(id);
      }
      if failed || id !in w.store {
        return;
      }
      assert SagaOk(w, id, None, faults);
      if w.store[id].status != Failed {
        return;
      }
      BeginGood(w, id, faults);
      current := Some(id);
      var m := w.store[id].(status := InProgress, failedStep := 0);
      Live();
      if !alive {
        EndGood(w, id, faults);
        current := None;
        return;
      }
      SaveGood(w, m, current, faults);
      w := Save(w, m);
      ghost var configured := Run(m);
    }

    /** Between calls, tenants that no saga created come and go. */
    method Elsewhere()
      requires Valid() && current.None?
      modifies this`w
      ensures Valid() && w == old(w).(foreign := w.foreign)
    {
      var names: set<string> := *;
      ForeignGood(w, names, faults);
      w := w.(foreign := names);
    }

    /** Any sequence of Start and Resume calls, each running to its end or stopped anywhere. */
    method AnyHistory(calls: seq<Call>)
      requires Valid() && current.None?
      modifies this
      ensures Valid() && current.None?
      ensures !faults ==> forall id | id in w.store :: Rested(w, w.store[id])
    {
      for i := 0 to |calls|
        invariant Valid() && current.None?
      {
        Elsewhere();
        match calls[i]
        case StartCall(email, company) => var _, _, _ := Start(email, company);
        case ResumeCall(id) => var _ := Resume(id);
      }
      forall id | id in w.store ensures !faults ==> Rested(w, w.store[id]) {
        RestedAtEnd(id);
      }
    }
  }
}
