/**
  The transactional outbox and its relay: one action per repository statement or broker publish, by
  any number of relays, with cleanup and operator replay interleaved freely.
*/
module Outbox {
  import opened Prelude

  /** What is carried between the outbox and the dead letters. */
  datatype Event = Event(body: string, createdAt: nat)

  datatype Row = Row(event: Event, attempts: nat, sentAt: Option<nat>)

  /**
    `created`, `claimed`, `published` and `marked` are history: every event ever recorded, the events
    some relay holds or held a copy of, those the broker has taken at least once, and those marked sent.
  */
  datatype State = State(
    clock: nat,
    rows: map<nat, Row>,
    dead: map<nat, Event>,
    created: map<nat, Event>,
    claimed: set<nat>,
    published: set<nat>,
    marked: set<nat>)

  /** `relay` is the one at work; `ok` says that the mark was reported to it as done. */
  datatype Action =
    | Tick(d: nat)
    | Suspend(id: nat, event: Event)
    | Claim(ids: set<nat>)
    | Publish(relay: nat, id: nat)
    | MarkSent(relay: nat, id: nat, ok: bool)
    | MoveToDead(relay: nat, id: nat)
    | Cleanup(cutoff: nat)
    | Replay(id: nat)

  predicate Unsent(s: State, id: nat) { id in s.rows && s.rows[id].sentAt.None? }

  predicate MovesToDead(a: Action, id: nat) { a.MoveToDead? && a.id == id }

  predicate Marks(a: Action, id: nat) { a.MarkSent? && a.id == id }

  predicate Init(s: State) {
    && s.rows == map[] && s.dead == map[] && s.created == map[]
    && s.claimed == {} && s.published == {} && s.marked == {}
  }

  /** A relay publishes and parks only what it claimed, and marks only what it has published. */
  predicate Enabled(s: State, a: Action) {
    match a
    case Tick(_) => true
    case Suspend(id, _) => id !in s.created
    case Claim(ids) => forall id | id in ids :: Unsent(s, id)
    case Publish(_, id) => id in s.claimed
    case MarkSent(_, id, _) => id in s.published
    case MoveToDead(_, id) => id in s.claimed
    case Cleanup(_) => true
    case Replay(id) => true
  }

  function Next(s: State, a: Action): State
    requires Enabled(s, a)
  {
    match a
    case Tick(d) => s.(clock := s.clock + d)
    case Suspend(id, event) => s.(created := s.created[id := event], rows := s.rows[id := Row(event, 0, None)])
    case Claim(ids) =>
      s.(claimed := s.claimed + ids,
         rows := map id | id in s.rows ::
                   if id in ids then s.rows[id].(attempts := s.rows[id].attempts + 1) else s.rows[id])
    case Publish(_, id) => s.(published := s.published + {id})
    case MarkSent(_, id, _) =>
      if id in s.rows then s.(rows := s.rows[id := s.rows[id].(sentAt := Some(s.clock))], marked := s.marked + {id})
      else s
    case MoveToDead(_, id) =>
      if id in s.rows then
        s.(dead := if id in s.dead then s.dead else s.dead[id := s.rows[id].event], rows := s.rows - {id})
      else s
    case Cleanup(cutoff) =>
      s.(rows := map id | id in s.rows && !(s.rows[id].sentAt.Some? && s.rows[id].sentAt.value < cutoff) :: s.rows[id])
    case Replay(id) =>
      if id in s.dead && id !in s.rows then
        s.(rows := s.rows[id := Row(s.dead[id], 0, None)], dead := s.dead - {id})
      else s
  }

  // ----- No event is lost -----

  predicate EventOk(s: State, id: nat)
    requires id in s.created
  {
    && (id in s.rows ==> s.rows[id].event == s.created[id] && id !in s.dead)
    && (id in s.dead ==> s.dead[id] == s.created[id])
    && (id in s.rows && s.rows[id].sentAt.Some? ==> id in s.published && id in s.marked)
    && (Unsent(s, id) || id in s.dead || id in s.published)
  }

  ghost predicate Inv(s: State) {
    && s.rows.Keys <= s.created.Keys && s.dead.Keys <= s.created.Keys
    && s.claimed <= s.created.Keys && s.published <= s.claimed && s.marked <= s.published
    && forall id | id in s.created :: EventOk(s, id)
  }

  lemma EventKept(s: State, a: Action, id: nat)
    requires Inv(s) && Enabled(s, a) && id in Next(s, a).created
    ensures EventOk(Next(s, a), id)
    ensures id in s.created ==> Next(s, a).created[id] == s.created[id]
  {
  }

  lemma KeysKept(s: State, a: Action)
    requires Inv(s) && Enabled(s, a)
    ensures var s' := Next(s, a);
            && s'.rows.Keys <= s'.created.Keys && s'.dead.Keys <= s'.created.Keys
            && s'.claimed <= s'.created.Keys && s'.published <= s'.claimed && s'.marked <= s'.published
            && s.created.Keys <= s'.created.Keys && s.published <= s'.published
  {
  }

  lemma InvStep(s: State, a: Action)
    requires Inv(s) && Enabled(s, a)
    ensures Inv(Next(s, a))
  {
  }

  type Trace = Run<State, Action>

  ghost predicate StepAt(r: Trace, i: nat)
    requires |r.states| == |r.actions| + 1 && i < |r.actions|
  {
    Enabled(r.states[i], r.actions[i]) && r.states[i + 1] == Next(r.states[i], r.actions[i])
  }

  ghost predicate IsRun(r: Trace) {
    && |r.states| == |r.actions| + 1
    && Init(r.states[0])
    && forall i: nat | i < |r.actions| :: StepAt(r, i)
  }

  lemma {:induction false} RunInv(r: Trace, n: nat)
    requires IsRun(r) && n < |r.states|
    ensures Inv(r.states[n])
  {
    if n > 0 {
      RunInv(r, n - 1);
      assert StepAt(r, n - 1);
      InvStep(r.states[n - 1], r.actions[n - 1]);
    }
  }

  /**
    From the moment an event is recorded, in every later state of every run it is pending with its
    payload intact, or dead-lettered with its payload intact, or was published at least once.
  */
  lemma {:induction false} NoEventLost(r: Trace, m: nat, n: nat, id: nat)
    requires IsRun(r) && m <= n < |r.states| && id in r.states[m].created
    ensures id in r.states[n].created && r.states[n].created[id] == r.states[m].created[id]
    ensures var s, event := r.states[n], r.states[m].created[id];
            || (Unsent(s, id) && s.rows[id].event == event)
            || (id in s.dead && s.dead[id] == event)
            || id in s.published
  {
    RunInv(r, n);
    if m < n {
      NoEventLost(r, m, n - 1, id);
      RunInv(r, n - 1);
      assert StepAt(r, n - 1);
      KeysKept(r.states[n - 1], r.actions[n - 1]);
      EventKept(r.states[n - 1], r.actions[n - 1], id);
    }
    assert EventOk(r.states[n], id);
  }

  /** A row leaves the outbox by dead-lettering, or by cleanup after it was published and marked sent. */
  lemma RowsLeaveOnlyWhenDone(r: Trace, n: nat, id: nat)
    requires IsRun(r) && n < |r.actions| && id in r.states[n].rows && id !in r.states[n + 1].rows
    ensures MovesToDead(r.actions[n], id) || r.actions[n].Cleanup?
    ensures MovesToDead(r.actions[n], id) ==>
              id in r.states[n + 1].dead && r.states[n + 1].dead[id] == r.states[n].rows[id].event
    ensures r.actions[n].Cleanup? ==>
              && id in r.states[n].published && id in r.states[n].marked
              && r.states[n].rows[id].sentAt.Some? && r.states[n].rows[id].sentAt.value < r.actions[n].cutoff
  {
    RunInv(r, n);
    assert EventOk(r.states[n], id);
    assert StepAt(r, n);
  }

  /** A row nobody marks stays claimable and its attempts never drop, until some relay parks it. */
  lemma UnmarkedStays(s: State, a: Action, id: nat)
    requires Inv(s) && Enabled(s, a) && Unsent(s, id) && !Marks(a, id)
    ensures MovesToDead(a, id) || (Unsent(Next(s, a), id) && s.rows[id].attempts <= Next(s, a).rows[id].attempts)
  {
  }

  // ----- What the attempts count -----

  /** The claims of an event since it was recorded or last replayed. */
  ghost function ClaimsSince(r: Trace, n: nat, id: nat): nat
    requires |r.states| == |r.actions| + 1 && n <= |r.actions|
  {
    if n == 0 then 0 else
    var s, a := r.states[n - 1], r.actions[n - 1];
    if (a.Suspend? && a.id == id) || (a == Replay(id) && id in s.dead && id !in s.rows) then 0
    else ClaimsSince(r, n - 1, id) + if a.Claim? && id in a.ids then 1 else 0
  }

  lemma {:induction false} AttemptsAreClaims(r: Trace, n: nat, id: nat)
    requires IsRun(r) && n < |r.states| && id in r.states[n].rows
    ensures r.states[n].rows[id].attempts == ClaimsSince(r, n, id)
  {
    var a := r.actions[n - 1];
    assert StepAt(r, n - 1);
    if id in r.states[n - 1].rows {
      RunInv(r, n - 1);
      AttemptsAreClaims(r, n - 1, id);
    }
  }

  // ----- What a claim takes -----

  /**
    The claim's query: of the unsent rows no other transaction holds locked, the oldest, up to the
    limit, and fewer only when there are no more.
  */
  ghost predicate OldestUnsent(s: State, limit: nat, locked: set<nat>, ids: set<nat>) {
    && |ids| <= limit
    && (forall id | id in ids :: Unsent(s, id) && id !in locked)
    && forall id | Unsent(s, id) && id !in locked && id !in ids ::
         |ids| == limit && forall other | other in ids :: s.rows[other].event.createdAt <= s.rows[id].event.createdAt
  }

  /** A pending row is claimed unless it is locked or a full batch of others at least as old is ahead of it. */
  lemma ClaimedUnlessBehind(s: State, limit: nat, locked: set<nat>, ids: set<nat>, id: nat)
    requires OldestUnsent(s, limit, locked, ids) && Unsent(s, id) && id !in locked
    requires |set other | other in s.rows && other != id && Unsent(s, other) && other !in locked
                  && s.rows[other].event.createdAt <= s.rows[id].event.createdAt| < limit
    ensures id in ids
  {
    var ahead := set other | other in s.rows && other != id && Unsent(s, other) && other !in locked
                    && s.rows[other].event.createdAt <= s.rows[id].event.createdAt;
    if id !in ids {
      assert ids <= ahead;
      SubsetIsSmaller(ids, ahead);
    }
  }

  // ----- How long a sent row is kept -----

  /** A mark stamps the row with its moment, and touches nothing else. */
  lemma MarkStamps(s: State, relay: nat, id: nat, ok: bool)
    requires Enabled(s, MarkSent(relay, id, ok)) && id in s.rows
    ensures var s' := Next(s, MarkSent(relay, id, ok));
            && s'.rows == s.rows[id := s.rows[id].(sentAt := Some(s.clock))] && s'.dead == s.dead
            && s'.clock == s.clock
  {
  }

  /** A cleanup deletes exactly the rows sent before its cutoff. */
  lemma CleanupDeletes(s: State, cutoff: nat, id: nat)
    ensures var s' := Next(s, Cleanup(cutoff));
            && (id in s'.rows <==> id in s.rows && (s.rows[id].sentAt.Some? ==> cutoff <= s.rows[id].sentAt.value))
            && (id in s'.rows ==> s'.rows[id] == s.rows[id])
            && s'.dead == s.dead && s'.created == s.created
  {
  }

  /** Every cleanup deletes only rows sent seven days ago or more. */
  ghost predicate CleansOld(r: Trace) {
    && |r.states| == |r.actions| + 1
    && forall n | 0 <= n < |r.actions| && r.actions[n].Cleanup? ::
         r.actions[n].cutoff == 0 || r.actions[n].cutoff + 604800 <= r.states[n].clock
  }

  /** A row marked sent is there, with that mark or a later one, for seven days, unless it is dead-lettered. */
  lemma {:induction false} MarkedRowStays(r: Trace, m: nat, n: nat, id: nat)
    requires IsRun(r) && CleansOld(r) && m < n < |r.states|
    requires Marks(r.actions[m], id) && id in r.states[m].rows
    requires r.states[n].clock < r.states[m].clock + 604800
    requires forall k | m < k < n :: !MovesToDead(r.actions[k], id)
    ensures id in r.states[n].rows && r.states[n].rows[id].sentAt.Some?
    ensures r.states[m].clock <= r.states[n].rows[id].sentAt.value <= r.states[n].clock
  {
    assert StepAt(r, n - 1);
    if m + 1 < n {
      MarkedRowStays(r, m, n - 1, id);
      RunInv(r, n - 1);
    }
  }

  /** Parking and replaying an event re-arms it: same payload, no attempts, unsent, nothing else touched. */
  lemma ReplayRearms(s: State, relay: nat, id: nat)
    requires Inv(s) && id in s.rows && id in s.claimed
    ensures var parked := Next(s, MoveToDead(relay, id));
            var t := Next(parked, Replay(id));
            && parked.rows == s.rows - {id} && parked.dead == s.dead[id := s.rows[id].event]
            && t.rows == s.rows[id := Row(s.rows[id].event, 0, None)] && t.dead == s.dead
  {
    assert EventOk(s, id);
    var parked := Next(s, MoveToDead(relay, id));
    assert parked.dead - {id} == s.dead;
    assert (s.rows - {id})[id := Row(s.rows[id].event, 0, None)] == s.rows[id := Row(s.rows[id].event, 0, None)];
  }
}
