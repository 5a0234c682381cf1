/**
  What a backlog of refused events does to the events behind it: a claim takes the oldest rows, so once
  a full batch of them is refused and the relay has no fresh success, it comes to no other event.
*/
module OutboxBacklog {
  import opened Prelude
  import opened Outbox
  import opened OutboxRelay

  // ----- Whom a claim reaches -----

  /** The other rows a claim may take before this one for sure. */
  ghost function Older(s: State, locked: set<nat>, id: nat): set<nat>
    requires id in s.rows
  {
    set other | other in s.rows && other != id && Unsent(s, other) && other !in locked
      && s.rows[other].event.createdAt < s.rows[id].event.createdAt
  }

  /** A pending row is claimed if and only if it is not locked and fewer older rows than the limit are ahead. */
  lemma ClaimedIff(s: State, limit: nat, locked: set<nat>, ids: set<nat>, id: nat)
    requires OldestUnsent(s, limit, locked, ids) && Unsent(s, id)
    requires forall other | Unsent(s, other) && other !in locked && other != id ::
               s.rows[other].event.createdAt != s.rows[id].event.createdAt
    ensures id in ids <==> id !in locked && |Older(s, locked, id)| < limit
  {
    var older := Older(s, locked, id);
    if id !in locked {
      if id !in ids {
        assert ids <= older;
        SubsetIsSmaller(ids, older);
      } else {
        forall other | other in older ensures other in ids {
          assert Unsent(s, other);
        }
        assert older <= ids - {id};
        SubsetIsSmaller(older, ids - {id});
      }
    }
  }

  /**
    A batch publishes a pending event if and only if the event is not locked, fewer older rows than the
    limit are ahead of it, and the broker does not refuse it in that batch.
  */
  lemma PublishedIff(r: Trace, me: nat, b: Batch, reliable: bool, id: nat)
    requires IsBatch(r, me, b, reliable) && Unsent(r.states[b.claimAt], id)
    requires forall other | Unsent(r.states[b.claimAt], other) && other !in b.locked && other != id ::
               r.states[b.claimAt].rows[other].event.createdAt != r.states[b.claimAt].rows[id].event.createdAt
    ensures DidIn(r, b.claimAt, b.checkAt, Publish(me, id)) <==>
            && id !in b.locked && |Older(r.states[b.claimAt], b.locked, id)| < b.limit
            && !Copied(b.failed, id)
  {
    ClaimedIff(r.states[b.claimAt], b.limit, b.locked, r.actions[b.claimAt].ids, id);
    CopyOf(r, b, id);
    if DidIn(r, b.claimAt, b.checkAt, Publish(me, id)) {
      var n :| b.claimAt <= n < b.checkAt && r.actions[n] == Publish(me, id);
      assert Copied(b.copies, r.actions[n].id);
    }
  }

  lemma CopyOf(r: Trace, b: Batch, id: nat)
    requires WellPlaced(r, b) && ClaimOk(r, b)
    ensures Copied(b.copies, id) <==> id in r.actions[b.claimAt].ids
  {
  }

  // ----- A refused front -----

  /** These rows are pending and older than every other pending row. */
  ghost predicate Front(s: State, front: set<nat>) {
    && (forall x | x in front :: Unsent(s, x))
    && forall x, y | x in front && y !in front && Unsent(s, y) ::
         s.rows[x].event.createdAt < s.rows[y].event.createdAt
  }

  /** The event an action adds to the outbox, recorded or replayed. */
  function Arrival(s: State, a: Action): Option<Event> {
    match a
    case Suspend(_, event) => Some(event)
    case Replay(id) => if id in s.dead && id !in s.rows then Some(s.dead[id]) else None
    case _ => None
  }

  /** Nobody delivers a row of the front, nobody but me may move it, and no older row arrives. */
  ghost predicate Spares(s: State, a: Action, me: nat, front: set<nat>) {
    && (forall x | x in front :: DoesNotDeliver(a, x) && (MovesToDead(a, x) ==> a.relay == me))
    && (Arrival(s, a).Some? ==>
          forall x | x in front && x in s.rows :: s.rows[x].event.createdAt < Arrival(s, a).value.createdAt)
  }

  ghost predicate Refused(r: Trace, me: nat, m: nat, front: set<nat>) {
    && |r.states| == |r.actions| + 1
    && forall n | m <= n < |r.actions| :: Spares(r.states[n], r.actions[n], me, front)
  }

  ghost predicate NoOwn(r: Trace, me: nat, lo: nat, hi: nat) {
    hi <= |r.actions| && forall n | lo <= n < hi :: !Own(r.actions[n], me)
  }

  lemma FrontStep(s: State, a: Action, me: nat, front: set<nat>)
    requires Inv(s) && Enabled(s, a) && Front(s, front) && Spares(s, a, me, front) && !Own(a, me)
    ensures Front(Next(s, a), front)
  {
    var s' := Next(s, a);
    forall x | x in front ensures Unsent(s', x) && s'.rows[x].event == s.rows[x].event {
      assert DoesNotDeliver(a, x) && Unsent(s, x);
    }
    forall x, y | x in front && y !in front && Unsent(s', y)
      ensures s'.rows[x].event.createdAt < s'.rows[y].event.createdAt
    {
      assert Unsent(s, x);
      assert Unsent(s, y) ==> s'.rows[y].event == s.rows[y].event;
    }
  }

  lemma {:induction false} FrontStays(r: Trace, me: nat, m: nat, n: nat, front: set<nat>)
    requires IsRun(r) && m <= n < |r.states| && Front(r.states[m], front)
    requires Refused(r, me, m, front) && NoOwn(r, me, m, n)
    ensures Front(r.states[n], front)
  {
    if m < n {
      FrontStays(r, me, m, n - 1, front);
      RunInv(r, n - 1);
      assert StepAt(r, n - 1) && Spares(r.states[n - 1], r.actions[n - 1], me, front);
      FrontStep(r.states[n - 1], r.actions[n - 1], me, front);
    }
  }

  /** A claim no larger than the front, none of whose rows is locked, stays within it. */
  lemma ClaimStaysInFront(s: State, limit: nat, locked: set<nat>, ids: set<nat>, front: set<nat>)
    requires OldestUnsent(s, limit, locked, ids) && Front(s, front) && limit <= |front| && locked !! front
    ensures ids <= front
  {
    forall y | y in ids ensures y in front {
      if y !in front && front <= ids {
        SubsetIsSmaller(front + {y}, ids);
      }
    }
  }

  /** The relay's last success is at least five minutes old, or there was none. */
  ghost predicate Stale(r: Trace, me: nat, m: nat)
    requires |r.states| == |r.actions| + 1 && m <= |r.actions|
  {
    var last := LastSuccess(r, me, m);
    last.None? || last.value + 300 <= r.states[m].clock
  }

  lemma StaleIsUnhealthy(r: Trace, me: nat, m: nat, b: Batch)
    requires IsRun(r) && WellPlaced(r, b) && m <= b.claimAt && Stale(r, me, m) && NoOwn(r, me, m, b.checkAt)
    ensures !Healthy(r, me, b.claimAt, b.checkAt)
  {
    LastSuccessStays(r, me, m, b.checkAt);
    ClockRuns(r, m, b.checkAt);
  }

  /** A batch that finds the front in place claims from it only, publishes nothing and moves nothing. */
  lemma StuckBatch(r: Trace, me: nat, b: Batch, reliable: bool, m: nat, front: set<nat>)
    requires IsRun(r) && IsBatch(r, me, b, reliable) && m <= b.claimAt && NoOwn(r, me, m, b.claimAt)
    requires Front(r.states[m], front) && Refused(r, me, m, front) && Stale(r, me, m)
    requires b.limit <= |front| && b.locked !! front
    ensures r.actions[b.claimAt].Claim? && r.actions[b.claimAt].ids <= front && NoOwn(r, me, m, b.endAt)
  {
    FrontStays(r, me, m, b.claimAt, front);
    ClaimStaysInFront(r.states[b.claimAt], b.limit, b.locked, r.actions[b.claimAt].ids, front);
    assert NoOwn(r, me, m, b.checkAt) by {
      forall n | b.claimAt <= n < b.checkAt ensures !Own(r.actions[n], me) {
        assert Spares(r.states[n], r.actions[n], me, front);
        if Own(r.actions[n], me) {
          FirstPassDelivers(r, me, b, n, front);
        }
      }
    }
    StaleIsUnhealthy(r, me, m, b);
    assert ParkOk(r, me, b, reliable);
  }

  lemma FirstPassDelivers(r: Trace, me: nat, b: Batch, n: nat, front: set<nat>)
    requires WellPlaced(r, b) && ClaimOk(r, b) && OnlyClaimed(r, me, b.claimAt, b.checkAt, b.copies)
    requires r.actions[b.claimAt].ids <= front && b.claimAt <= n < b.checkAt && Own(r.actions[n], me)
    ensures r.actions[n].id in front && !DoesNotDeliver(r.actions[n], r.actions[n].id)
  {
    var c :| c in b.copies && c.id == r.actions[n].id;
  }

  /** From m on, at the f-th batch and later, the relay meets nothing but the front. */
  ghost predicate Blocked(r: Trace, me: nat, bs: seq<Batch>, reliable: bool, f: nat, m: nat, front: set<nat>) {
    && History(r, me, bs, reliable) && f <= |bs| && m < |r.states|
    && (forall k | 0 <= k < f :: bs[k].endAt <= m)
    && (forall k | f <= k < |bs| :: m <= bs[k].claimAt && bs[k].limit <= |front| && bs[k].locked !! front)
    && Front(r.states[m], front) && Refused(r, me, m, front) && Stale(r, me, m)
  }

  /** What the relay does lies in its batches. */
  lemma BatchOf(r: Trace, me: nat, bs: seq<Batch>, reliable: bool, n: nat) returns (k: nat)
    requires History(r, me, bs, reliable) && n < |r.actions| && Own(r.actions[n], me)
    ensures k < |bs| && Within(bs[k], n)
  {
    k :| 0 <= k < |bs| && Within(bs[k], n);
  }

  /** Where a position within one batch lies with respect to another. */
  lemma Around(r: Trace, me: nat, bs: seq<Batch>, reliable: bool, j: nat, n: nat, k: nat)
    requires Successive(r, me, bs, reliable) && j < |bs| && k < |bs| && Within(bs[j], n)
    ensures k <= j ==> bs[k].claimAt <= n
    ensures j <= k ==> n < bs[k].endAt
  {
    assert IsBatch(r, me, bs[k], reliable);
    assert k < j ==> Before(bs[k], bs[j]);
    assert j < k ==> Before(bs[j], bs[k]);
  }

  lemma {:induction false} StuckUpTo(r: Trace, me: nat, bs: seq<Batch>, reliable: bool, f: nat, m: nat,
      front: set<nat>, k: nat)
    requires IsRun(r) && Blocked(r, me, bs, reliable, f, m, front) && f <= k < |bs|
    ensures WellPlaced(r, bs[k]) && NoOwn(r, me, m, bs[k].endAt)
    ensures r.actions[bs[k].claimAt].Claim? && r.actions[bs[k].claimAt].ids <= front
  {
    assert IsBatch(r, me, bs[k], reliable);
    if f < k {
      StuckUpTo(r, me, bs, reliable, f, m, front, k - 1);
    }
    forall n | m <= n < bs[k].claimAt ensures !Own(r.actions[n], me) {
      if Own(r.actions[n], me) {
        var j := BatchOf(r, me, bs, reliable, n);
        Around(r, me, bs, reliable, j, n, k);
        if f < k { Around(r, me, bs, reliable, j, n, k - 1); }
      }
    }
    StuckBatch(r, me, bs[k], reliable, m, front);
  }

  /**
    A relay whose last success is five minutes old, or that has had none since it started, and whose
    oldest pending events, as many as it claims at a time, are refused again and again, does nothing at
    all: it publishes no event, marks none and dead-letters none, and every event behind the front waits
    though the broker would take it.
  */
  lemma RelayStuck(r: Trace, me: nat, bs: seq<Batch>, reliable: bool, f: nat, m: nat, front: set<nat>)
    requires IsRun(r) && Blocked(r, me, bs, reliable, f, m, front)
    ensures Quiet(r, me, m)
    ensures forall n | m <= n < |r.states| :: Front(r.states[n], front)
    ensures forall k | f <= k < |bs| ::
              bs[k].claimAt < |r.actions| && r.actions[bs[k].claimAt].Claim? && r.actions[bs[k].claimAt].ids <= front
  {
    forall n | m <= n < |r.actions| ensures !Own(r.actions[n], me) {
      if Own(r.actions[n], me) {
        var k := BatchOf(r, me, bs, reliable, n);
        StuckUpTo(r, me, bs, reliable, f, m, front, k);
      }
    }
    forall n | m <= n < |r.states| ensures Front(r.states[n], front) {
      FrontStays(r, me, m, n, front);
    }
    forall k | f <= k < |bs|
      ensures bs[k].claimAt < |r.actions| && r.actions[bs[k].claimAt].Claim? && r.actions[bs[k].claimAt].ids <= front
    {
      StuckUpTo(r, me, bs, reliable, f, m, front, k);
    }
  }

  // ----- Such a run -----

  predicate Below(i: nat, n: nat) { i < n }

  function Upto(n: nat): set<nat> { set i: nat | i < n && Below(i, n) }

  lemma {:induction false} UptoSize(n: nat)
    ensures |Upto(n)| == n
  {
    if n > 0 {
      UptoSize(n - 1);
      assert Upto(n) == Upto(n - 1) + {n - 1};
    }
  }

  /** n events recorded at times 0, 1, ..., of which the first `front` were claimed `claims` times. */
  function Waiting(n: nat, front: nat, claims: nat): State {
    State(0,
          map i: nat | i < n :: Row(Event("", i), if i < front then claims else 0, None),
          map[],
          map i: nat | i < n :: Event("", i),
          if claims == 0 then {} else Upto(front), {}, {})
  }

  function StuckState(front: nat, i: nat): State {
    if i <= front + 1 then Waiting(i, front, 0) else Waiting(front + 1, front, i - front - 1)
  }

  function StuckAction(front: nat, i: nat): Action {
    if i <= front then Suspend(i, Event("", i)) else Claim(Upto(front))
  }

  function StuckCopies(front: nat, attempts: nat): (copies: seq<Copy>)
    ensures |copies| == front && forall i | 0 <= i < front :: copies[i] == Copy(i, attempts)
  {
    seq(front, i requires i >= 0 => Copy(i, attempts))
  }

  function StuckTrace(front: nat, ticks: nat): Trace {
    Run(seq(front + ticks + 2, i requires i >= 0 => StuckState(front, i)),
        seq(front + ticks + 1, i requires i >= 0 => StuckAction(front, i)))
  }

  function StuckTick(front: nat, k: nat): Batch {
    var at, copies := front + 1 + k, StuckCopies(front, k + 1);
    Batch(at, at + 1, at + 1, front, {}, copies, copies)
  }

  lemma StuckIsRun(front: nat, ticks: nat)
    ensures IsRun(StuckTrace(front, ticks))
  {
    var r := StuckTrace(front, ticks);
    forall i: nat | i < |r.actions| ensures StepAt(r, i) {
      StuckStep(front, i);
    }
  }

  lemma StuckStep(front: nat, i: nat)
    ensures Enabled(StuckState(front, i), StuckAction(front, i))
    ensures Next(StuckState(front, i), StuckAction(front, i)) == StuckState(front, i + 1)
  {
    var s, a, t := StuckState(front, i), StuckAction(front, i), StuckState(front, i + 1);
    if i > front {
      assert s.claimed + Upto(front) == Upto(front);
    }
    assert Next(s, a).rows == t.rows;
  }

  lemma NoSuccessAtAll(r: Trace, me: nat, n: nat)
    requires |r.states| == |r.actions| + 1 && n <= |r.actions| && NoOwn(r, me, 0, |r.actions|)
    ensures LastSuccess(r, me, n).None?
  {
    if LastSuccess(r, me, n).Some? {
      var p := LastSuccessAt(r, me, n);
    }
  }

  lemma StuckClaim(front: nat, k: nat)
    ensures OldestUnsent(Waiting(front + 1, front, k), front, {}, Upto(front))
    ensures CopiesOf(Waiting(front + 1, front, k), Upto(front), StuckCopies(front, k + 1))
  {
    var copies := StuckCopies(front, k + 1);
    UptoSize(front);
    forall id | id in Upto(front) ensures exists c :: c in copies && c.id == id {
      assert copies[id] in copies;
    }
  }

  /** A claim after which an unhealthy relay did nothing is a batch that failed as a whole. */
  lemma IdleIsBatch(r: Trace, me: nat, b: Batch)
    requires WellPlaced(r, b) && ClaimOk(r, b) && NoOwn(r, me, 0, |r.actions|) && b.failed == b.copies
    ensures IsBatch(r, me, b, true)
  {
    NoSuccessAtAll(r, me, b.checkAt);
    assert !Healthy(r, me, b.claimAt, b.checkAt);
    assert OnlyClaimed(r, me, b.claimAt, b.checkAt, b.copies);
  }

  lemma StuckAt(front: nat, ticks: nat, k: nat)
    requires k < ticks
    ensures var r, b := StuckTrace(front, ticks), StuckTick(front, k);
            && WellPlaced(r, b) && NoOwn(r, 0, 0, |r.actions|)
            && r.actions[b.claimAt] == Claim(Upto(front)) && r.states[b.claimAt] == Waiting(front + 1, front, k)
  {
  }

  lemma StuckClaimOk(front: nat, ticks: nat, k: nat)
    requires k < ticks && WellPlaced(StuckTrace(front, ticks), StuckTick(front, k))
    ensures ClaimOk(StuckTrace(front, ticks), StuckTick(front, k))
  {
    StuckAt(front, ticks, k);
    StuckClaim(front, k);
  }

  lemma StuckIsBatch(front: nat, ticks: nat, k: nat)
    requires k < ticks
    ensures IsBatch(StuckTrace(front, ticks), 0, StuckTick(front, k), true)
  {
    StuckAt(front, ticks, k);
    StuckClaimOk(front, ticks, k);
    IdleIsBatch(StuckTrace(front, ticks), 0, StuckTick(front, k));
  }

  lemma StuckIsHistory(front: nat, ticks: nat) returns (bs: seq<Batch>)
    ensures |bs| == ticks && History(StuckTrace(front, ticks), 0, bs, true)
    ensures forall k | 0 <= k < ticks :: bs[k] == StuckTick(front, k)
  {
    var r := StuckTrace(front, ticks);
    bs := seq(ticks, k requires k >= 0 => StuckTick(front, k));
    forall k | 0 <= k < ticks ensures IsBatch(r, 0, bs[k], true) {
      StuckIsBatch(front, ticks, k);
    }
  }

  lemma StuckFront(front: nat)
    ensures Front(Waiting(front + 1, front, 0), Upto(front))
  {
  }

  lemma ClaimSpares(s: State, ids: set<nat>, me: nat, front: set<nat>)
    ensures Spares(s, Claim(ids), me, front)
  {
  }

  lemma StuckIsRefused(front: nat, ticks: nat)
    ensures var r := StuckTrace(front, ticks);
            Front(r.states[front + 1], Upto(front)) && Refused(r, 0, front + 1, Upto(front)) && Stale(r, 0, front + 1)
  {
    var r := StuckTrace(front, ticks);
    NoSuccessAtAll(r, 0, front + 1);
    StuckFront(front);
    forall n | front + 1 <= n < |r.actions| ensures Spares(r.states[n], r.actions[n], 0, Upto(front)) {
      ClaimSpares(r.states[n], Upto(front), 0, Upto(front));
    }
  }

  /**
    For every batch size and number of ticks there is a run in which the relay is stuck from its start:
    a full batch of events that the broker refuses, and one more event that is never claimed.
  */
  lemma StuckRunExists(front: nat, ticks: nat) returns (r: Trace, bs: seq<Batch>)
    ensures IsRun(r) && |bs| == ticks && Blocked(r, 0, bs, true, 0, front + 1, Upto(front))
    ensures forall k | 0 <= k < ticks :: bs[k].limit == front
    ensures var s := r.states[|r.actions|]; Unsent(s, front) && s.rows[front].attempts == 0
  {
    r := StuckTrace(front, ticks);
    StuckIsRun(front, ticks);
    bs := StuckIsHistory(front, ticks);
    UptoSize(front);
    StuckIsRefused(front, ticks);
    assert r.states[|r.actions|] == StuckState(front, front + ticks + 1);
  }
}
