/**
  The outbox relay: the two passes of a batch, its broker-health signal and the dead-letter rule,
  with every other relay, the cleanup and operators at work between any two of its statements.
*/
module OutboxRelay {
  import opened Prelude
  import opened Outbox

  const BATCH_SIZE: nat := 100
  const CLEANUP_EACH: nat := 240
  const SENT_TTL: nat := 7 * 24 * 3600
  const MAX_ATTEMPTS: nat := 5
  const BROKER_HEALTHY_WINDOW: nat := 5 * 60

  /** A claimed copy: the attempts count includes the claim itself. */
  datatype Copy = Copy(id: nat, attempts: nat)

  // ----- What one relay does within a run -----

  predicate Own(a: Action, me: nat) {
    (a.Publish? || a.MarkSent? || a.MoveToDead?) && a.relay == me
  }

  /** A publish of mine whose mark was reported done: what moves the health signal. */
  predicate OwnSuccess(a: Action, me: nat) { Own(a, me) && a.MarkSent? && a.ok }

  predicate OwnMove(a: Action, me: nat) { Own(a, me) && a.MoveToDead? }

  ghost predicate DidIn(r: Trace, lo: nat, hi: nat, a: Action) {
    hi <= |r.actions| && exists n | lo <= n < hi :: r.actions[n] == a
  }

  ghost predicate SucceededIn(r: Trace, me: nat, lo: nat, hi: nat) {
    hi <= |r.actions| && exists n | lo <= n < hi :: OwnSuccess(r.actions[n], me)
  }

  /** The time of my last success before position n. */
  ghost function LastSuccess(r: Trace, me: nat, n: nat): Option<nat>
    requires |r.states| == |r.actions| + 1 && n <= |r.actions|
  {
    if n == 0 then None
    else if OwnSuccess(r.actions[n - 1], me) then Some(r.states[n].clock)
    else LastSuccess(r, me, n - 1)
  }

  lemma {:induction false} LastSuccessAt(r: Trace, me: nat, n: nat) returns (p: nat)
    requires |r.states| == |r.actions| + 1 && n <= |r.actions| && LastSuccess(r, me, n).Some?
    ensures p < n && OwnSuccess(r.actions[p], me) && LastSuccess(r, me, n) == Some(r.states[p + 1].clock)
    ensures !SucceededIn(r, me, p + 1, n)
  {
    if OwnSuccess(r.actions[n - 1], me) {
      p := n - 1;
    } else {
      p := LastSuccessAt(r, me, n - 1);
    }
  }

  lemma {:induction false} LastSuccessSame(r: Trace, r': Trace, me: nat, n: nat)
    requires |r.states| == |r.actions| + 1 && |r'.states| == |r'.actions| + 1 && n <= |r.actions| && PrefixOf(r, r')
    ensures LastSuccess(r', me, n) == LastSuccess(r, me, n)
  {
    if n > 0 {
      LastSuccessSame(r, r', me, n - 1);
    }
  }

  lemma {:induction false} LastSuccessStays(r: Trace, me: nat, m: nat, n: nat)
    requires |r.states| == |r.actions| + 1 && m <= n <= |r.actions| && !SucceededIn(r, me, m, n)
    ensures LastSuccess(r, me, n) == LastSuccess(r, me, m)
  {
    if m < n {
      LastSuccessStays(r, me, m, n - 1);
    }
  }

  // ----- A batch -----

  /** The positions of the claim, the health check and the end; what was claimed, skipped and refused. */
  datatype Batch = Batch(claimAt: nat, checkAt: nat, endAt: nat, limit: nat, locked: set<nat>,
                         copies: seq<Copy>, failed: seq<Copy>)

  ghost predicate WellPlaced(r: Trace, b: Batch) {
    |r.states| == |r.actions| + 1 && b.claimAt < b.checkAt <= b.endAt <= |r.actions|
  }

  /** The broker is taken to be up: a success of mine in this batch, or less than five minutes old. */
  ghost predicate Healthy(r: Trace, me: nat, claimAt: nat, checkAt: nat)
    requires |r.states| == |r.actions| + 1 && checkAt <= |r.actions|
  {
    || SucceededIn(r, me, claimAt, checkAt)
    || (LastSuccess(r, me, checkAt).Some?
        && r.states[checkAt].clock - LastSuccess(r, me, checkAt).value < BROKER_HEALTHY_WINDOW)
  }

  predicate BrokerHealthy(published: nat, last: Option<nat>, now: nat) {
    published > 0 || (last.Some? && now - last.value < BROKER_HEALTHY_WINDOW)
  }

  predicate Exhausted(failed: seq<Copy>, id: nat) {
    exists c :: c in failed && c.id == id && MAX_ATTEMPTS <= c.attempts
  }

  predicate DistinctIds(copies: seq<Copy>) {
    forall i, j | 0 <= i < j < |copies| :: copies[i].id != copies[j].id
  }

  /** The copies are those of the rows claimed, each counting the claim. */
  predicate CopiesOf(s: State, ids: set<nat>, copies: seq<Copy>) {
    && DistinctIds(copies)
    && (forall c | c in copies :: c.id in ids && c.id in s.rows && c.attempts == s.rows[c.id].attempts + 1)
    && forall id | id in ids :: exists c :: c in copies && c.id == id
  }

  ghost predicate ClaimOk(r: Trace, b: Batch)
    requires WellPlaced(r, b)
  {
    && r.actions[b.claimAt].Claim?
    && OldestUnsent(r.states[b.claimAt], b.limit, b.locked, r.actions[b.claimAt].ids)
    && CopiesOf(r.states[b.claimAt], r.actions[b.claimAt].ids, b.copies)
  }

  /** Failed are exactly the claimed copies the broker did not take from me. */
  ghost predicate PublishOk(r: Trace, me: nat, lo: nat, hi: nat, copies: seq<Copy>, failed: seq<Copy>, reliable: bool) {
    && (forall c | c in failed :: c in copies)
    && (forall c | c in copies :: c in failed <==> !DidIn(r, lo, hi, Publish(me, c.id)))
    && (reliable ==> forall c | c in copies :: c in failed || DidIn(r, lo, hi, MarkSent(me, c.id, true)))
  }

  predicate Copied(copies: seq<Copy>, id: nat) { exists c :: c in copies && c.id == id }

  /** In the first pass I publish and mark claimed events only, and move nothing. */
  ghost predicate OnlyClaimed(r: Trace, me: nat, lo: nat, hi: nat, copies: seq<Copy>) {
    && hi <= |r.actions|
    && forall n | lo <= n < hi && Own(r.actions[n], me) :: !r.actions[n].MoveToDead? && Copied(copies, r.actions[n].id)
  }

  /** The dead-letter rule: all I do in the second pass, and what a reliable repository lets me move. */
  ghost predicate ParkOk(r: Trace, me: nat, b: Batch, reliable: bool)
    requires WellPlaced(r, b)
  {
    && (forall n | b.checkAt <= n < b.endAt && Own(r.actions[n], me) ::
          r.actions[n].MoveToDead? && Healthy(r, me, b.claimAt, b.checkAt) && Exhausted(b.failed, r.actions[n].id))
    && (reliable && Healthy(r, me, b.claimAt, b.checkAt) ==>
          forall c | c in b.failed && MAX_ATTEMPTS <= c.attempts ::
            DidIn(r, b.checkAt, b.endAt, MoveToDead(me, c.id)))
  }

  ghost predicate IsBatch(r: Trace, me: nat, b: Batch, reliable: bool) {
    && WellPlaced(r, b) && ClaimOk(r, b)
    && PublishOk(r, me, b.claimAt, b.checkAt, b.copies, b.failed, reliable)
    && OnlyClaimed(r, me, b.claimAt, b.checkAt, b.copies)
    && ParkOk(r, me, b, reliable)
  }

  ghost predicate Within(b: Batch, n: nat) { b.claimAt <= n < b.endAt }

  ghost predicate Before(b: Batch, b': Batch) { b.endAt <= b'.claimAt }

  ghost predicate Successive(r: Trace, me: nat, bs: seq<Batch>, reliable: bool) {
    && (forall k {:trigger IsBatch(r, me, bs[k], reliable)} | 0 <= k < |bs| :: IsBatch(r, me, bs[k], reliable))
    && forall j, k {:trigger Before(bs[j], bs[k])} | 0 <= j < k < |bs| :: Before(bs[j], bs[k])
  }

  /** All batches of one relay so far: one after the other, with all it did inside them. */
  ghost predicate History(r: Trace, me: nat, bs: seq<Batch>, reliable: bool) {
    && Successive(r, me, bs, reliable)
    && forall n | 0 <= n < |r.actions| && Own(r.actions[n], me) ::
         exists k :: 0 <= k < |bs| && Within(bs[k], n)
  }

  /** Any stretch of a relay's history is a series of successive batches. */
  lemma StretchOfHistory(r: Trace, me: nat, bs: seq<Batch>, reliable: bool, from: nat, to: nat)
    requires History(r, me, bs, reliable) && from <= to <= |bs|
    ensures Successive(r, me, bs[from..to], reliable)
  {
    var part := bs[from..to];
    forall k | 0 <= k < |part| ensures IsBatch(r, me, part[k], reliable) {
      assert IsBatch(r, me, bs[from + k], reliable);
    }
    forall j, k | 0 <= j < k < |part| ensures Before(part[j], part[k]) {
      assert Before(bs[from + j], bs[from + k]);
    }
  }

  lemma DidInSame(r: Trace, r': Trace, lo: nat, hi: nat, a: Action)
    requires PrefixOf(r, r') && hi <= |r.actions|
    ensures DidIn(r', lo, hi, a) == DidIn(r, lo, hi, a)
  {
    assert forall n | lo <= n < hi :: r'.actions[n] == r.actions[n];
  }

  lemma HealthySame(r: Trace, r': Trace, me: nat, claimAt: nat, checkAt: nat)
    requires |r.states| == |r.actions| + 1 && checkAt <= |r.actions| && PrefixOf(r, r') &&
            |r'.states| == |r'.actions| + 1
    ensures Healthy(r', me, claimAt, checkAt) == Healthy(r, me, claimAt, checkAt)
  {
    LastSuccessSame(r, r', me, checkAt);
    assert forall n | claimAt <= n < checkAt :: r'.actions[n] == r.actions[n];
  }

  lemma PublishOkSame(r: Trace, r': Trace, me: nat, lo: nat, hi: nat, copies: seq<Copy>, failed: seq<Copy>,
      reliable: bool)
    requires PrefixOf(r, r') && hi <= |r.actions| && PublishOk(r, me, lo, hi, copies, failed, reliable)
    ensures PublishOk(r', me, lo, hi, copies, failed, reliable)
  {
    forall c | c in copies
      ensures DidIn(r', lo, hi, Publish(me, c.id)) == DidIn(r, lo, hi, Publish(me, c.id))
      ensures DidIn(r', lo, hi, MarkSent(me, c.id, true)) == DidIn(r, lo, hi, MarkSent(me, c.id, true))
    {
      DidInSame(r, r', lo, hi, Publish(me, c.id));
      DidInSame(r, r', lo, hi, MarkSent(me, c.id, true));
    }
  }

  lemma BatchSame(r: Trace, r': Trace, me: nat, b: Batch, reliable: bool)
    requires IsBatch(r, me, b, reliable) && PrefixOf(r, r') && |r'.states| == |r'.actions| + 1
    ensures IsBatch(r', me, b, reliable)
  {
    HealthySame(r, r', me, b.claimAt, b.checkAt);
    assert forall n | b.claimAt <= n < b.endAt :: r'.actions[n] == r.actions[n];
    PublishOkSame(r, r', me, b.claimAt, b.checkAt, b.copies, b.failed, reliable);
    forall c | c in b.failed
      ensures DidIn(r', b.checkAt, b.endAt, MoveToDead(me, c.id)) == DidIn(r, b.checkAt, b.endAt, MoveToDead(me, c.id))
    {
      DidInSame(r, r', b.checkAt, b.endAt, MoveToDead(me, c.id));
    }
  }

  ghost predicate NoOwnMove(r: Trace, me: nat, lo: nat, hi: nat) {
    hi <= |r.actions| && forall n | lo <= n < hi :: !OwnMove(r.actions[n], me)
  }

  /** A stretch without actions of mine adds nothing to my history. */
  lemma HistoryAcross(r: Trace, r': Trace, me: nat, bs: seq<Batch>, reliable: bool)
    requires History(r, me, bs, reliable) && PrefixOf(r, r') && |r'.states| == |r'.actions| + 1
    requires Quiet(r', me, |r.actions|)
    ensures History(r', me, bs, reliable)
  {
    forall k | 0 <= k < |bs| ensures IsBatch(r', me, bs[k], reliable) {
      BatchSame(r, r', me, bs[k], reliable);
    }
    forall n | 0 <= n < |r'.actions| && Own(r'.actions[n], me)
      ensures exists k :: 0 <= k < |bs| && Within(bs[k], n)
    {
      assert n < |r.actions| && r.actions[n] == r'.actions[n];
    }
  }

  lemma SuccessiveGrows(r: Trace, r': Trace, me: nat, bs: seq<Batch>, b: Batch, reliable: bool)
    requires Successive(r, me, bs, reliable) && PrefixOf(r, r') && |r'.states| == |r'.actions| + 1
    requires IsBatch(r', me, b, reliable) && b.claimAt == |r.actions|
    ensures Successive(r', me, bs + [b], reliable)
  {
    var bs' := bs + [b];
    forall k | 0 <= k < |bs'| ensures IsBatch(r', me, bs'[k], reliable) {
      if k < |bs| {
        BatchSame(r, r', me, bs[k], reliable);
      }
    }
    forall j, k | 0 <= j < k < |bs'| ensures Before(bs'[j], bs'[k]) {
      assert IsBatch(r, me, bs[j], reliable);
      assert k < |bs| ==> Before(bs[j], bs[k]);
    }
  }

  lemma HistoryGrowsBy(r: Trace, r': Trace, me: nat, bs: seq<Batch>, b: Batch, reliable: bool)
    requires History(r, me, bs, reliable) && PrefixOf(r, r') && |r'.states| == |r'.actions| + 1
    requires IsBatch(r', me, b, reliable) && b.claimAt == |r.actions| && b.endAt == |r'.actions|
    ensures History(r', me, bs + [b], reliable)
  {
    var bs' := bs + [b];
    SuccessiveGrows(r, r', me, bs, b, reliable);
    forall n | 0 <= n < |r'.actions| && Own(r'.actions[n], me)
      ensures exists k :: 0 <= k < |bs'| && Within(bs'[k], n)
    {
      if n < |r.actions| {
        assert r.actions[n] == r'.actions[n];
        var k :| 0 <= k < |bs| && Within(bs[k], n);
        assert Within(bs'[k], n);
      } else {
        assert Within(bs'[|bs|], n);
      }
    }
  }

  // ----- The dead-letter rule over whole runs -----

  lemma {:induction false} ClockRuns(r: Trace, m: nat, n: nat)
    requires IsRun(r) && m <= n < |r.states|
    ensures r.states[m].clock <= r.states[n].clock
  {
    if m < n {
      ClockRuns(r, m, n - 1);
      assert StepAt(r, n - 1);
    }
  }

  /** The relay's own last success justifies what it takes for health. */
  lemma HealthySuccess(r: Trace, me: nat, b: Batch) returns (success: nat)
    requires IsRun(r) && WellPlaced(r, b) && Healthy(r, me, b.claimAt, b.checkAt)
    ensures success < b.checkAt && OwnSuccess(r.actions[success], me)
    ensures b.claimAt <= success || r.states[b.checkAt].clock < r.states[success].clock + BROKER_HEALTHY_WINDOW
  {
    if SucceededIn(r, me, b.claimAt, b.checkAt) {
      var m :| b.claimAt <= m < b.checkAt && OwnSuccess(r.actions[m], me);
      success := m;
    } else {
      success := LastSuccessAt(r, me, b.checkAt);
      assert StepAt(r, success);
    }
  }

  /** What a batch dead-letters was claimed five times over and refused in the batch, with the broker healthy. */
  lemma MovedByBatch(r: Trace, me: nat, b: Batch, reliable: bool, n: nat)
    requires IsRun(r) && IsBatch(r, me, b, reliable) && Within(b, n) && OwnMove(r.actions[n], me)
    ensures b.checkAt <= n && Healthy(r, me, b.claimAt, b.checkAt)
    ensures var id := r.actions[n].id;
            && r.actions[b.claimAt].Claim? && id in r.actions[b.claimAt].ids
            && MAX_ATTEMPTS <= ClaimsSince(r, b.claimAt + 1, id)
            && !DidIn(r, b.claimAt, b.checkAt, Publish(me, id))
  {
    var id := r.actions[n].id;
    assert Exhausted(b.failed, id);
    var c :| c in b.failed && c.id == id && MAX_ATTEMPTS <= c.attempts;
    assert c in b.copies;
    CopyCountsClaims(r, b, c);
  }

  /** A copy's attempts are the claims of its event up to and including this one. */
  lemma CopyCountsClaims(r: Trace, b: Batch, c: Copy)
    requires IsRun(r) && WellPlaced(r, b) && ClaimOk(r, b) && c in b.copies
    ensures c.id in r.actions[b.claimAt].ids && c.attempts == ClaimsSince(r, b.claimAt + 1, c.id)
  {
    assert StepAt(r, b.claimAt);
    AttemptsAreClaims(r, b.claimAt + 1, c.id);
  }

  /**
    Whatever this relay ever dead-letters was claimed at least five times since it was recorded or
    replayed, was refused in the same batch, and the relay itself had a success in that batch or less
    than five minutes before the check.
  */
  lemma DeadLetterRule(r: Trace, me: nat, bs: seq<Batch>, reliable: bool, n: nat) returns (k: nat, success: nat)
    requires IsRun(r) && History(r, me, bs, reliable) && n < |r.actions| && OwnMove(r.actions[n], me)
    ensures k < |bs| && bs[k].claimAt < bs[k].checkAt <= n < bs[k].endAt <= |r.actions|
    ensures var id := r.actions[n].id;
            && r.actions[bs[k].claimAt].Claim? && id in r.actions[bs[k].claimAt].ids
            && 5 <= ClaimsSince(r, bs[k].claimAt + 1, id)
            && !DidIn(r, bs[k].claimAt, bs[k].checkAt, Publish(me, id))
    ensures success < bs[k].checkAt && OwnSuccess(r.actions[success], me)
    ensures bs[k].claimAt <= success
         || r.states[bs[k].checkAt].clock < r.states[success].clock + 300
  {
    k := BatchOfMove(r, me, bs, reliable, n);
    MovedByBatch(r, me, bs[k], reliable, n);
    success := HealthySuccess(r, me, bs[k]);
  }

  lemma BatchOfMove(r: Trace, me: nat, bs: seq<Batch>, reliable: bool, n: nat) returns (k: nat)
    requires History(r, me, bs, reliable) && n < |r.actions| && OwnMove(r.actions[n], me)
    ensures k < |bs| && IsBatch(r, me, bs[k], reliable) && Within(bs[k], n)
  {
    k :| 0 <= k < |bs| && Within(bs[k], n);
  }

  /** A relay that has recorded no success since it started has dead-lettered nothing. */
  lemma NothingParkedBeforeASuccess(r: Trace, me: nat, bs: seq<Batch>, reliable: bool, n: nat)
    requires IsRun(r) && History(r, me, bs, reliable) && n <= |r.actions| && !SucceededIn(r, me, 0, n)
    ensures NoOwnMove(r, me, 0, n)
  {
    forall m | 0 <= m < n ensures !OwnMove(r.actions[m], me) {
      if OwnMove(r.actions[m], me) {
        var k, success := DeadLetterRule(r, me, bs, reliable, m);
      }
    }
  }

  /**
    During an outage seen from position m on, every batch that checks the broker five minutes or more
    into it dead-letters nothing.
  */
  lemma OutageParksNothing(r: Trace, me: nat, b: Batch, reliable: bool, m: nat)
    requires IsRun(r) && IsBatch(r, me, b, reliable) && m <= b.claimAt
    requires !SucceededIn(r, me, m, b.checkAt)
    requires r.states[m].clock + 300 <= r.states[b.checkAt].clock
    ensures NoOwnMove(r, me, b.claimAt, b.endAt)
  {
    forall n | b.claimAt <= n < b.endAt ensures !OwnMove(r.actions[n], me) {
      if OwnMove(r.actions[n], me) {
        MovedByBatch(r, me, b, reliable, n);
        var success := HealthySuccess(r, me, b);
        assert success < m;
        ClockRuns(r, success, m);
      }
    }
  }

  // ----- A poison event -----

  /** Some relay moved the event's row to the dead letters at one of these positions. */
  ghost predicate ParkedIn(r: Trace, lo: nat, hi: nat, id: nat)
    requires |r.states| == |r.actions| + 1 && hi <= |r.actions|
  {
    exists n | lo <= n < hi :: MovesToDead(r.actions[n], id) && id in r.states[n].rows
  }

  /** Since position m the event was dead-lettered, or it is still pending with at least k attempts. */
  ghost predicate Watching(r: Trace, m: nat, n: nat, id: nat, k: nat)
    requires |r.states| == |r.actions| + 1 && n <= |r.actions|
  {
    ParkedIn(r, m, n, id) || (Unsent(r.states[n], id) && k <= r.states[n].rows[id].attempts)
  }

  ghost predicate NobodyDelivers(r: Trace, lo: nat, hi: nat, id: nat) {
    hi <= |r.actions| && forall n | lo <= n < hi :: DoesNotDeliver(r.actions[n], id)
  }

  predicate DoesNotDeliver(a: Action, id: nat) { !Marks(a, id) && !(a.Publish? && a.id == id) }

  lemma {:induction false} WatchedOn(r: Trace, m: nat, l: nat, n: nat, id: nat, k: nat)
    requires IsRun(r) && m <= l <= n <= |r.actions| && Watching(r, m, l, id, k) && NobodyDelivers(r, l, n, id)
    ensures Watching(r, m, n, id, k)
  {
    if l < n {
      WatchedOn(r, m, l, n - 1, id, k);
      if !ParkedIn(r, m, n - 1, id) {
        RunInv(r, n - 1);
        assert StepAt(r, n - 1) && DoesNotDeliver(r.actions[n - 1], id);
        UnmarkedStays(r.states[n - 1], r.actions[n - 1], id);
      }
    }
  }

  /** Whenever it is pending, a batch's claim takes the event. */
  ghost predicate ClaimsIt(r: Trace, b: Batch, id: nat) {
    && WellPlaced(r, b) && r.actions[b.claimAt].Claim?
    && (Unsent(r.states[b.claimAt], id) ==> id in r.actions[b.claimAt].ids)
  }

  /** What a healthy batch claims for the fifth time or more and does not deliver, it moves. */
  lemma RefusedIsMoved(r: Trace, me: nat, b: Batch, id: nat)
    requires IsBatch(r, me, b, true) && Healthy(r, me, b.claimAt, b.checkAt)
    requires id in r.actions[b.claimAt].ids && NobodyDelivers(r, b.claimAt, b.endAt, id)
    requires id in r.states[b.claimAt].rows && MAX_ATTEMPTS <= r.states[b.claimAt].rows[id].attempts + 1
    ensures DidIn(r, b.checkAt, b.endAt, MoveToDead(me, id))
  {
    var c :| c in b.copies && c.id == id;
    assert forall n | b.claimAt <= n < b.checkAt :: DoesNotDeliver(r.actions[n], id);
    assert !DidIn(r, b.claimAt, b.checkAt, Publish(me, id));
  }

  /** A batch counts one more attempt of a pending event, and parks it from the fifth on while healthy. */
  lemma BatchWithPoison(r: Trace, me: nat, b: Batch, m: nat, id: nat, k: nat)
    requires IsRun(r) && IsBatch(r, me, b, true) && m <= b.claimAt && Watching(r, m, b.claimAt, id, k)
    requires ClaimsIt(r, b, id) && NobodyDelivers(r, b.claimAt, b.endAt, id)
    ensures Watching(r, m, b.endAt, id, k + 1)
    ensures MAX_ATTEMPTS <= k + 1 && Healthy(r, me, b.claimAt, b.checkAt) ==> ParkedIn(r, m, b.endAt, id)
  {
    assert StepAt(r, b.claimAt);
    assert Watching(r, m, b.claimAt + 1, id, k + 1);
    WatchedOn(r, m, b.claimAt + 1, b.endAt, id, k + 1);
    if MAX_ATTEMPTS <= k + 1 && Healthy(r, me, b.claimAt, b.checkAt) && !ParkedIn(r, m, b.claimAt, id) {
      RefusedIsMoved(r, me, b, id);
      var n :| b.checkAt <= n < b.endAt && r.actions[n] == MoveToDead(me, id);
      WatchedOn(r, m, b.claimAt + 1, n, id, k + 1);
      assert MovesToDead(r.actions[n], id);
    }
  }

  /** Batches that each take the event while it is pending, with nobody delivering it meanwhile. */
  ghost predicate AlwaysRefused(r: Trace, me: nat, bs: seq<Batch>, id: nat) {
    && Successive(r, me, bs, true)
    && (forall k | 0 <= k < |bs| :: ClaimsIt(r, bs[k], id))
    && (bs != [] ==> Unsent(r.states[bs[0].claimAt], id) && NobodyDelivers(r, bs[0].claimAt, bs[|bs| - 1].endAt, id))
  }

  lemma SuccessiveOrder(r: Trace, me: nat, bs: seq<Batch>, j: nat, k: nat)
    requires Successive(r, me, bs, true) && j < k < |bs|
    ensures WellPlaced(r, bs[j]) && WellPlaced(r, bs[k]) && bs[j].endAt <= bs[k].claimAt
  {
    assert IsBatch(r, me, bs[j], true) && IsBatch(r, me, bs[k], true) && Before(bs[j], bs[k]);
  }

  lemma BatchRefuses(r: Trace, me: nat, bs: seq<Batch>, id: nat, k: nat)
    requires AlwaysRefused(r, me, bs, id) && k < |bs|
    ensures IsBatch(r, me, bs[k], true) && ClaimsIt(r, bs[k], id)
    ensures bs[0].claimAt <= bs[k].claimAt && bs[k].endAt <= bs[|bs| - 1].endAt
    ensures k > 0 ==> WellPlaced(r, bs[k - 1]) && bs[k - 1].endAt <= bs[k].claimAt
    ensures NobodyDelivers(r, bs[0].claimAt, bs[|bs| - 1].endAt, id)
  {
    assert IsBatch(r, me, bs[k], true);
    if 0 < k {
      SuccessiveOrder(r, me, bs, 0, k);
      SuccessiveOrder(r, me, bs, k - 1, k);
    }
    if k < |bs| - 1 {
      SuccessiveOrder(r, me, bs, k, |bs| - 1);
    }
  }

  lemma {:induction false} PoisonProgress(r: Trace, me: nat, bs: seq<Batch>, id: nat, k: nat)
    requires IsRun(r) && AlwaysRefused(r, me, bs, id) && k < |bs| && WellPlaced(r, bs[k])
    ensures Watching(r, bs[0].claimAt, bs[k].endAt, id, k + 1)
    ensures MAX_ATTEMPTS <= k + 1 && Healthy(r, me, bs[k].claimAt, bs[k].checkAt) ==>
            ParkedIn(r, bs[0].claimAt, bs[k].endAt, id)
  {
    var m := bs[0].claimAt;
    BatchRefuses(r, me, bs, id, k);
    if k > 0 {
      assert m <= bs[k - 1].endAt by {
        BatchRefuses(r, me, bs, id, k - 1);
      }
      PoisonProgress(r, me, bs, id, k - 1);
      WatchedOn(r, m, bs[k - 1].endAt, bs[k].claimAt, id, k);
    }
    BatchWithPoison(r, me, bs[k], m, id, k);
  }

  /**
    An event pending at the first of five batches of a relay, claimed by each while it is pending and
    delivered by nobody, is dead-lettered before the fifth ends, if each batch checks the broker within
    its relay interval and the relay's last success came less than 225 s before the first; whatever
    other events, relays and operators do, and whether or not the event was dead-lettered before.
  */
  lemma PoisonEventIsParked(r: Trace, me: nat, bs: seq<Batch>, id: nat)
    requires IsRun(r) && |bs| == 5 && AlwaysRefused(r, me, bs, id)
    requires LastSuccess(r, me, bs[0].claimAt).Some?
    requires r.states[bs[0].claimAt].clock < LastSuccess(r, me, bs[0].claimAt).value + 225
    requires r.states[bs[4].checkAt].clock <= r.states[bs[0].claimAt].clock + 75
    ensures ParkedIn(r, bs[0].claimAt, bs[4].endAt, id)
  {
    BatchRefuses(r, me, bs, id, 4);
    SuccessNoOlder(r, me, bs[0].claimAt, bs[4].checkAt);
    PoisonProgress(r, me, bs, id, 4);
  }

  lemma SuccessNoOlder(r: Trace, me: nat, m: nat, n: nat)
    requires IsRun(r) && m <= n <= |r.actions| && LastSuccess(r, me, m).Some?
    ensures LastSuccess(r, me, n).Some?
    ensures LastSuccess(r, me, m).value <= LastSuccess(r, me, n).value
  {
    var p := LastSuccessAt(r, me, m);
    if SucceededIn(r, me, m, n) {
      LastSuccessFrom(r, me, m, n);
      ClockRuns(r, p + 1, m);
    } else {
      LastSuccessStays(r, me, m, n);
    }
  }

  lemma {:induction false} LastSuccessFrom(r: Trace, me: nat, m: nat, n: nat)
    requires IsRun(r) && m <= n <= |r.actions| && SucceededIn(r, me, m, n)
    ensures LastSuccess(r, me, n).Some? && r.states[m].clock <= LastSuccess(r, me, n).value
  {
    if OwnSuccess(r.actions[n - 1], me) {
      ClockRuns(r, m, n);
    } else {
      LastSuccessFrom(r, me, m, n - 1);
    }
  }

  // ----- The relay as it runs -----

  lemma ExtendRun(r: Trace, a: Action)
    requires IsRun(r) && Enabled(r.states[|r.actions|], a)
    ensures IsRun(Run(r.states + [Next(r.states[|r.actions|], a)], r.actions + [a]))
  {
    var r' := Run(r.states + [Next(r.states[|r.actions|], a)], r.actions + [a]);
    forall i: nat | i < |r'.actions| ensures StepAt(r', i) {
      if i < |r.actions| {
        assert StepAt(r, i);
      }
    }
  }

  /** What passes between two moments of the relay: time and history only grow. */
  predicate Later(s: State, s': State) {
    s.clock <= s'.clock && s.claimed <= s'.claimed && s.published <= s'.published
  }

  lemma HistoryGrows(s: State, a: Action)
    requires Enabled(s, a)
    ensures Later(s, Next(s, a))
  {
  }

  lemma {:induction false} OldestExists(s: State, left: set<nat>)
    requires left != {} && forall id | id in left :: id in s.rows
    ensures exists id :: id in left && Oldest(s, left, id)
  {
    var x :| x in left;
    if left == {x} {
      assert Oldest(s, left, x);
    } else {
      OldestExists(s, left - {x});
      var y :| y in left - {x} && Oldest(s, left - {x}, y);
      var id := if s.rows[x].event.createdAt <= s.rows[y].event.createdAt then x else y;
      forall z | z in left ensures s.rows[id].event.createdAt <= s.rows[z].event.createdAt {
        assert z == x || z in left - {x};
      }
      assert Oldest(s, left, id);
    }
  }

  predicate Oldest(s: State, left: set<nat>, id: nat) {
    && id in s.rows
    && forall z | z in left :: z in s.rows && s.rows[id].event.createdAt <= s.rows[z].event.createdAt
  }

  /** Half way through the selection: the rows picked are at least as old as those left. */
  ghost predicate Picked(s: State, locked: set<nat>, left: set<nat>, ids: set<nat>) {
    && left !! ids
    && (forall id | id in ids || id in left :: Unsent(s, id) && id !in locked)
    && (forall id | Unsent(s, id) && id !in locked :: id in ids || id in left)
    && forall id | id in ids :: Oldest(s, left, id)
  }

  lemma PickNext(s: State, locked: set<nat>, left: set<nat>, ids: set<nat>, id: nat)
    requires Picked(s, locked, left, ids) && id in left && Oldest(s, left, id)
    ensures Picked(s, locked, left - {id}, ids + {id})
  {
  }

  lemma PickedEnough(s: State, limit: nat, locked: set<nat>, left: set<nat>, ids: set<nat>)
    requires Picked(s, locked, left, ids) && |ids| <= limit && (left == {} || |ids| == limit)
    ensures OldestUnsent(s, limit, locked, ids)
  {
    forall id | Unsent(s, id) && id !in locked && id !in ids
      ensures |ids| == limit
      ensures forall other | other in ids :: s.rows[other].event.createdAt <= s.rows[id].event.createdAt
    {
      assert id in left;
      assert forall other | other in ids :: Oldest(s, left, other);
    }
  }

  lemma CopiesGrow(s: State, ids: set<nat>, copies: seq<Copy>, id: nat)
    requires CopiesOf(s, ids, copies) && id in s.rows && id !in ids
    ensures CopiesOf(s, ids + {id}, copies + [Copy(id, s.rows[id].attempts + 1)])
  {
    var c := Copy(id, s.rows[id].attempts + 1);
    var copies' := copies + [c];
    forall i, j | 0 <= i < j < |copies'| ensures copies'[i].id != copies'[j].id {
      assert copies[i] in copies;
    }
    forall x | x in ids + {id} ensures exists d :: d in copies' && d.id == x {
      if x == id {
        assert c in copies';
      } else {
        var d :| d in copies && d.id == x;
        assert d in copies';
      }
    }
  }

  /** No action of mine from lo to the end. */
  ghost predicate Quiet(r: Trace, me: nat, lo: nat) {
    lo <= |r.actions| && forall n | lo <= n < |r.actions| :: !Own(r.actions[n], me)
  }

  /** From lo to the end I did nothing but deliver this event. */
  ghost predicate OnlyDelivers(r: Trace, me: nat, lo: nat, id: nat) {
    && lo <= |r.actions|
    && forall n | lo <= n < |r.actions| && Own(r.actions[n], me) :: !r.actions[n].MoveToDead? && r.actions[n].id == id
  }

  lemma DidInGrows(r: Trace, r': Trace, lo: nat, a: Action)
    requires PrefixOf(r, r') && lo <= |r.actions|
    ensures DidIn(r', lo, |r'.actions|, a) <==>
            DidIn(r, lo, |r.actions|, a) || DidIn(r', |r.actions|, |r'.actions|, a)
  {
    assert forall n | lo <= n < |r.actions| :: r'.actions[n] == r.actions[n];
  }

  /** A delivery is a success exactly when it was counted, and does nothing else to any event. */
  lemma DeliverySignals(r: Trace, r': Trace, me: nat, lo: nat, id: nat)
    requires PrefixOf(r, r') && lo <= |r.actions| && OnlyDelivers(r', me, |r.actions|, id)
    ensures SucceededIn(r', me, lo, |r'.actions|) <==>
            SucceededIn(r, me, lo, |r.actions|) || DidIn(r', |r.actions|, |r'.actions|, MarkSent(me, id, true))
    ensures forall copies | OnlyClaimed(r, me, lo, |r.actions|, copies) && Copied(copies, id) ::
              OnlyClaimed(r', me, lo, |r'.actions|, copies)
  {
    assert forall n | lo <= n < |r.actions| :: r'.actions[n] == r.actions[n];
    forall n | |r.actions| <= n < |r'.actions| && OwnSuccess(r'.actions[n], me)
      ensures r'.actions[n] == MarkSent(me, id, true)
    {
    }
  }

  /** Half way through the first pass: what is ahead is not published yet. */
  ghost predicate Passing(r: Trace, me: nat, lo: nat, copies: seq<Copy>, i: nat, failed: seq<Copy>, reliable: bool) {
    && i <= |copies| && PublishOk(r, me, lo, |r.actions|, copies[..i], failed, reliable)
    && forall k | i <= k < |copies| :: !DidIn(r, lo, |r.actions|, Publish(me, copies[k].id))
  }

  lemma PassNext(r: Trace, r': Trace, me: nat, lo: nat, copies: seq<Copy>, i: nat, failed: seq<Copy>,
                 refused: bool, counted: bool, reliable: bool)
    requires PrefixOf(r, r') && lo <= |r.actions| && i < |copies| && DistinctIds(copies)
    requires Passing(r, me, lo, copies, i, failed, reliable)
    requires OnlyDelivers(r', me, |r.actions|, copies[i].id)
    requires refused <==> !DidIn(r', |r.actions|, |r'.actions|, Publish(me, copies[i].id))
    requires counted <==> DidIn(r', |r.actions|, |r'.actions|, MarkSent(me, copies[i].id, true))
    requires reliable ==> refused || counted
    ensures Passing(r', me, lo, copies, i + 1, if refused then failed + [copies[i]] else failed, reliable)
  {
    var failed' := if refused then failed + [copies[i]] else failed;
    forall k | 0 <= k < |copies|
      ensures DidIn(r', lo, |r'.actions|, Publish(me, copies[k].id)) <==>
              DidIn(r, lo, |r.actions|, Publish(me, copies[k].id)) || (k == i && !refused)
    {
      DidInGrows(r, r', lo, Publish(me, copies[k].id));
    }
    forall c | c in copies[..i + 1]
      ensures c in failed' <==> !DidIn(r', lo, |r'.actions|, Publish(me, c.id))
      ensures reliable ==> c in failed' || DidIn(r', lo, |r'.actions|, MarkSent(me, c.id, true))
    {
      DidInGrows(r, r', lo, MarkSent(me, c.id, true));
      var k :| 0 <= k <= i && copies[k] == c;
      if k < i {
        assert c in copies[..i];
      } else {
        assert copies[i] !in failed by {
          assert forall d | d in failed :: d in copies[..i];
        }
      }
    }
  }

  /** From lo to the end I did nothing but dead-letter exhausted events, and that while healthy. */
  ghost predicate OnlyParks(r: Trace, me: nat, lo: nat, failed: seq<Copy>, healthy: bool) {
    && lo <= |r.actions|
    && forall n | lo <= n < |r.actions| && Own(r.actions[n], me) ::
         r.actions[n].MoveToDead? && healthy && Exhausted(failed, r.actions[n].id)
  }

  ghost predicate ParkedFirst(r: Trace, me: nat, lo: nat, failed: seq<Copy>, i: nat) {
    && i <= |failed|
    && forall k | 0 <= k < i && MAX_ATTEMPTS <= failed[k].attempts ::
         DidIn(r, lo, |r.actions|, MoveToDead(me, failed[k].id))
  }

  lemma OnlyParksOn(r: Trace, r': Trace, me: nat, lo: nat, failed: seq<Copy>, healthy: bool, c: Copy)
    requires PrefixOf(r, r') && OnlyParks(r, me, lo, failed, healthy) && c in failed
    requires forall n | |r.actions| <= n < |r'.actions| && Own(r'.actions[n], me) ::
               r'.actions[n] == MoveToDead(me, c.id) && healthy && MAX_ATTEMPTS <= c.attempts
    ensures OnlyParks(r', me, lo, failed, healthy)
  {
    forall n | lo <= n < |r'.actions| && Own(r'.actions[n], me)
      ensures r'.actions[n].MoveToDead? && healthy && Exhausted(failed, r'.actions[n].id)
    {
      assert n < |r.actions| ==> r'.actions[n] == r.actions[n];
    }
  }

  lemma ParkedOn(r: Trace, r': Trace, me: nat, lo: nat, failed: seq<Copy>, i: nat)
    requires PrefixOf(r, r') && lo <= |r.actions|
    ensures ParkedFirst(r, me, lo, failed, i) ==> ParkedFirst(r', me, lo, failed, i)
  {
    forall k | 0 <= k < i && i <= |failed|
      ensures DidIn(r, lo, |r.actions|, MoveToDead(me, failed[k].id)) ==>
              DidIn(r', lo, |r'.actions|, MoveToDead(me, failed[k].id))
    {
      DidInGrows(r, r', lo, MoveToDead(me, failed[k].id));
    }
  }

  /** A claim, a first pass and a second pass make a batch. */
  lemma BatchFormed(checked: Trace, r: Trace, me: nat, b: Batch, healthy: bool, reliable: bool)
    requires WellPlaced(r, b) && ClaimOk(r, b) && PrefixOf(checked, r)
    requires |checked.states| == |checked.actions| + 1 && |checked.actions| == b.checkAt && b.endAt == |r.actions|
    requires PublishOk(checked, me, b.claimAt, b.checkAt, b.copies, b.failed, reliable)
    requires OnlyClaimed(checked, me, b.claimAt, b.checkAt, b.copies) &&
            healthy == Healthy(checked, me, b.claimAt, b.checkAt)
    requires OnlyParks(r, me, b.checkAt, b.failed, healthy)
    requires reliable && healthy ==> ParkedFirst(r, me, b.checkAt, b.failed, |b.failed|)
    ensures IsBatch(r, me, b, reliable)
  {
    PublishOkSame(checked, r, me, b.claimAt, b.checkAt, b.copies, b.failed, reliable);
    HealthySame(checked, r, me, b.claimAt, b.checkAt);
    assert forall n | b.claimAt <= n < b.checkAt :: r.actions[n] == checked.actions[n];
  }

  /** The batches from the k-th on are of the relay's batch size and begin at lo or later. */
  ghost predicate FullSizeFrom(bs: seq<Batch>, k: nat, lo: nat) {
    k <= |bs| && forall j | k <= j < |bs| :: lo <= bs[j].claimAt && bs[j].limit == 100
  }

  /** The last thing done was to delete the rows sent before the retention time. */
  ghost predicate CleanedUp(r: Trace) {
    && |r.states| == |r.actions| + 1 && r.actions != []
    && var now := r.states[|r.actions|].clock;
       r.actions[|r.actions| - 1] == Cleanup(if now < 604800 then 0 else now - 604800)
  }

  /** From lo to the end the action was done at most once. */
  ghost predicate AtMostOnce(r: Trace, lo: nat, a: Action) {
    forall i, j | lo <= i < j < |r.actions| :: !(r.actions[i] == a && r.actions[j] == a)
  }

  class Relay {
    var s: State
    var lastPublishSuccess: Option<nat>
    const me: nat
    const reliable: bool
    ghost var run: Trace
    ghost var batches: seq<Batch>

    ghost predicate Valid() reads this {
      && IsRun(run) && s == run.states[|run.actions|] && Inv(s)
      && lastPublishSuccess == LastSuccess(run, me, |run.actions|)
    }

    /** Between two ticks: everything this relay ever dead-lettered lies in one of its batches. */
    ghost predicate Idle() reads this {
      Valid() && History(run, me, batches, reliable)
    }

    /** `reliable` stands for a repository none of whose calls fail. */
    constructor (clock: nat, me: nat, reliable: bool)
      ensures Idle() && lastPublishSuccess == None && this.me == me && this.reliable == reliable
      ensures run.actions == [] && batches == []
    {
      s := State(clock, map[], map[], map[], {}, {}, {});
      lastPublishSuccess := None;
      this.me, this.reliable := me, reliable;
      run := Run([State(clock, map[], map[], map[], {}, {}, {})], []);
      batches := [];
    }

    /** One statement or publish; a success also moves the health signal. */
    method Do(a: Action)
      requires Valid() && Enabled(s, a)
      modifies this`s, this`run, this`lastPublishSuccess
      ensures Valid() && s == Next(old(s), a) && Later(old(s), s)
      ensures run == Run(old(run).states + [s], old(run).actions + [a])
      ensures lastPublishSuccess == if OwnSuccess(a, me) then Some(s.clock) else old(lastPublishSuccess)
    {
      ExtendRun(run, a);
      HistoryGrows(s, a);
      InvStep(s, a);
      s := Next(s, a);
      ghost var r' := Run(run.states + [s], run.actions + [a]);
      LastSuccessSame(run, r', me, |run.actions|);
      run := r';
      if OwnSuccess(a, me) {
        lastPublishSuccess := Some(s.clock);
      }
    }

    /** Everyone else: other relays, suspensions, cleanup, replays, time. */
    method Others()
      requires Valid()
      modifies this`s, this`run, this`lastPublishSuccess
      ensures Valid() && PrefixOf(old(run), run) && Later(old(s), s) && Quiet(run, me, |old(run).actions|)
      ensures lastPublishSuccess == old(lastPublishSuccess)
    {
      var schedule: seq<Action> := *;
      for i := 0 to |schedule|
        invariant Valid() && PrefixOf(old(run), run) && Later(old(s), s) && Quiet(run, me, |old(run).actions|)
        invariant lastPublishSuccess == old(lastPublishSuccess)
      {
        if Enabled(s, schedule[i]) && !Own(schedule[i], me) {
          Do(schedule[i]);
        }
      }
    }

    /**
      ClaimUnsentOutbox: the oldest unsent rows that nobody holds locked, their attempts one up in the
      row and in the copy. An error leaves the relay nothing, whether or not the rows were claimed.
    */
    method ClaimUnsent(limit: nat) returns (err: bool, copies: seq<Copy>, ghost locked: set<nat>)
      requires Valid()
      modifies this`s, this`run, this`lastPublishSuccess
      ensures Valid() && PrefixOf(old(run), run) && Later(old(s), s) && Quiet(run, me, |old(run).actions|)
      ensures lastPublishSuccess == old(lastPublishSuccess)
      ensures err ==> copies == [] && !reliable
      ensures !err ==>
        && |run.actions| == |old(run).actions| + 1 && run.actions[|old(run).actions|].Claim?
        && OldestUnsent(old(s), limit, locked, run.actions[|old(run).actions|].ids)
        && CopiesOf(old(s), run.actions[|old(run).actions|].ids, copies)
        && |copies| <= limit && forall c | c in copies :: c.id in s.claimed
    {
      var held: set<nat> := *;
      var ids;
      locked := held;
      ids, copies := SelectOldest(limit, held);
      var failed, applied: bool := *, *;
      err := failed && !reliable;
      if !err || applied {
        Do(Claim(ids));
      }
      if err {
        copies := [];
      }
    }

    method SelectOldest(limit: nat, locked: set<nat>) returns (ids: set<nat>, copies: seq<Copy>)
      ensures OldestUnsent(s, limit, locked, ids) && CopiesOf(s, ids, copies) && |copies| <= limit
    {
      var left := set id | id in s.rows && s.rows[id].sentAt.None? && id !in locked;
      ids, copies := {}, [];
      while left != {} && |copies| < limit
        invariant Picked(s, locked, left, ids) && |ids| == |copies| <= limit
        invariant CopiesOf(s, ids, copies)
        decreases left
      {
        OldestExists(s, left);
        var id :| id in left && Oldest(s, left, id);
        CopiesGrow(s, ids, copies, id);
        PickNext(s, locked, left, ids, id);
        left, ids := left - {id}, ids + {id};
        copies := copies + [Copy(id, s.rows[id].attempts + 1)];
      }
      PickedEnough(s, limit, locked, left, ids);
    }

    /** One publish and its mark: the broker's answer, then the repository's. */
    method Deliver(c: Copy) returns (refused: bool, counted: bool)
      requires Valid() && c.id in s.claimed
      modifies this`s, this`run, this`lastPublishSuccess
      ensures Valid() && PrefixOf(old(run), run) && Later(old(s), s)
      ensures OnlyDelivers(run, me, |old(run).actions|, c.id)
      ensures refused <==> !DidIn(run, |old(run).actions|, |run.actions|, Publish(me, c.id))
      ensures counted <==> DidIn(run, |old(run).actions|, |run.actions|, MarkSent(me, c.id, true))
      ensures AtMostOnce(run, |old(run).actions|, Publish(me, c.id))
      ensures counted ==> !Unsent(s, c.id) && lastPublishSuccess == Some(s.clock)
      ensures !counted ==> lastPublishSuccess == old(lastPublishSuccess)
      ensures refused ==> !counted
      ensures reliable ==> refused || counted
    {
      ghost var publish, mark := Publish(me, c.id), MarkSent(me, c.id, true);
      refused, counted := *, false;
      Others();
      if refused {
        return;
      }
      ghost var before := run;
      Do(Publish(me, c.id));
      assert run.actions[|before.actions|] == publish;
      Others();
      before := run;
      counted := Mark(c.id);
      DidInGrows(before, run, |old(run).actions|, publish);
      DidInGrows(before, run, |old(run).actions|, mark);
    }

    /** MarkOutboxSent: an error may hide a mark that was applied. */
    method Mark(id: nat) returns (counted: bool)
      requires Valid() && id in s.published
      modifies this`s, this`run, this`lastPublishSuccess
      ensures Valid() && PrefixOf(old(run), run) && Later(old(s), s) && |run.actions| <= |old(run).actions| + 1
      ensures forall n | |old(run).actions| <= n < |run.actions| :: run.actions[n] == MarkSent(me, id, counted)
      ensures counted ==>
        |run.actions| == |old(run).actions| + 1 && !Unsent(s, id) && lastPublishSuccess == Some(s.clock)
      ensures !counted ==> lastPublishSuccess == old(lastPublishSuccess)
      ensures reliable ==> counted
    {
      var failed, applied: bool := *, *;
      counted := reliable || !failed;
      if counted || applied {
        Do(MarkSent(me, id, counted));
      }
    }

    /** The first pass: publish and mark; hold the refused events. */
    method PublishPass(copies: seq<Copy>, ghost lo: nat) returns (published: nat, failed: seq<Copy>)
      requires Valid() && Quiet(run, me, lo) && DistinctIds(copies) && forall c | c in copies :: c.id in s.claimed
      modifies this`s, this`run, this`lastPublishSuccess
      ensures Valid() && PrefixOf(old(run), run) && Later(old(s), s)
      ensures PublishOk(run, me, lo, |run.actions|, copies, failed, reliable)
      ensures OnlyClaimed(run, me, lo, |run.actions|, copies)
      ensures published > 0 <==> SucceededIn(run, me, lo, |run.actions|)
      ensures published + |failed| <= |copies| && (reliable ==> published + |failed| == |copies|)
    {
      published, failed := 0, [];
      for i := 0 to |copies|
        invariant Valid() && PrefixOf(old(run), run) && Later(old(s), s)
        invariant Passing(run, me, lo, copies, i, failed, reliable)
        invariant OnlyClaimed(run, me, lo, |run.actions|, copies)
        invariant published > 0 <==> SucceededIn(run, me, lo, |run.actions|)
        invariant published + |failed| <= i && (reliable ==> published + |failed| == i)
      {
        ghost var before := run;
        var refused, counted := Deliver(copies[i]);
        PassNext(before, run, me, lo, copies, i, failed, refused, counted, reliable);
        DeliverySignals(before, run, me, lo, copies[i].id);
        assert copies[i] in copies && Copied(copies, copies[i].id);
        if refused {
          failed := failed + [copies[i]];
        } else if counted {
          published := published + 1;
        }
      }
    }

    /** The second pass: park what is exhausted while the broker is healthy; leave the rest for retry. */
    method ParkPass(failed: seq<Copy>, healthy: bool)
      requires Valid() && forall c | c in failed :: c.id in s.claimed
      modifies this`s, this`run, this`lastPublishSuccess
      ensures Valid() && PrefixOf(old(run), run) && Later(old(s), s)
      ensures OnlyParks(run, me, |old(run).actions|, failed, healthy)
      ensures reliable && healthy ==> ParkedFirst(run, me, |old(run).actions|, failed, |failed|)
    {
      for i := 0 to |failed|
        invariant Valid() && PrefixOf(old(run), run) && Later(old(s), s)
        invariant OnlyParks(run, me, |old(run).actions|, failed, healthy)
        invariant reliable && healthy ==> ParkedFirst(run, me, |old(run).actions|, failed, i)
      {
        ghost var before := run;
        Others();
        if healthy && failed[i].attempts >= MAX_ATTEMPTS {
          Move(failed[i].id);
        }
        ParkedOn(before, run, me, |old(run).actions|, failed, i);
        OnlyParksOn(before, run, me, |old(run).actions|, failed, healthy, failed[i]);
      }
    }

    /** MoveOutboxToDead: an error may hide a move that was applied. */
    method Move(id: nat)
      requires Valid() && id in s.claimed
      modifies this`s, this`run, this`lastPublishSuccess
      ensures Valid() && PrefixOf(old(run), run) && Later(old(s), s) && |run.actions| <= |old(run).actions| + 1
      ensures forall n | |old(run).actions| <= n < |run.actions| :: run.actions[n] == MoveToDead(me, id)
      ensures reliable ==> |run.actions| == |old(run).actions| + 1
      ensures lastPublishSuccess == old(lastPublishSuccess)
    {
      var err, applied: bool := *, *;
      if reliable || !err || applied {
        Do(MoveToDead(me, id));
      }
    }

    /**
      One tick. Under whatever interference, what the relay did is one more batch of its history: an
      event is parked only with five attempts and a success recorded in this batch or less than five
      minutes before the check, and with a reliable repository every refused event that meets the
      rule is. A claim error ends the tick with nothing published or parked.
    */
    method ProcessBatch(limit: nat) returns (published: nat, err: bool)
      requires Idle()
      modifies this
      ensures Idle() && PrefixOf(old(run), run) && Later(old(s), s)
      ensures err ==>
        && !reliable && published == 0 && batches == old(batches) && lastPublishSuccess == old(lastPublishSuccess)
        && Quiet(run, me, |old(run).actions|)
      ensures !err ==>
        && |batches| == |old(batches)| + 1 && old(batches) <= batches
        && var b := batches[|old(batches)|];
           && b.limit == limit && b.claimAt == |old(run).actions| && b.endAt == |run.actions|
           && published + |b.failed| <= |b.copies| <= limit && (reliable ==> published + |b.failed| == |b.copies|)
    {
      published := 0;
      var copies; ghost var locked;
      err, copies, locked := ClaimUnsent(limit);
      if err {
        HistoryAcross(old(run), run, me, batches, reliable);
        return;
      }
      ghost var lo := |old(run).actions|;
      var failed;
      published, failed := PublishPass(copies, lo);
      ghost var checked := run;
      var healthy := BrokerHealthy(published, lastPublishSuccess, s.clock);
      assert Healthy(run, me, lo, |run.actions|) == healthy;
      ParkPass(failed, healthy);
      ghost var b := Batch(lo, |checked.actions|, |run.actions|, limit, locked, copies, failed);
      BatchFormed(checked, run, me, b, healthy, reliable);
      HistoryGrowsBy(old(run), run, me, batches, b, reliable);
      batches := batches + [b];
    }

    /** The relay's loop: a batch every tick, and a cleanup of old sent rows every 240th. */
    method RunTicks(ticks: nat)
      requires Idle()
      modifies this
      ensures Idle() && PrefixOf(old(run), run) && Later(old(s), s)
      ensures old(batches) <= batches && |batches| <= |old(batches)| + ticks
      ensures reliable ==> |batches| == |old(batches)| + ticks
      ensures FullSizeFrom(batches, |old(batches)|, |old(run).actions|)
    {
      for tick := 0 to ticks
        invariant Idle() && PrefixOf(old(run), run) && Later(old(s), s)
        invariant old(batches) <= batches && |batches| <= |old(batches)| + tick
        invariant reliable ==> |batches| == |old(batches)| + tick
        invariant FullSizeFrom(batches, |old(batches)|, |old(run).actions|)
      {
        OnTick(tick + 1);
      }
    }

    method OnTick(tick: nat)
      requires Idle()
      modifies this
      ensures Idle() && PrefixOf(old(run), run) && Later(old(s), s)
      ensures old(batches) <= batches && |batches| <= |old(batches)| + 1
      ensures reliable ==> |batches| == |old(batches)| + 1
      ensures FullSizeFrom(batches, |old(batches)|, |old(run).actions|)
      ensures reliable && tick % 240 == 0 ==> CleanedUp(run)
    {
      WaitForTick();
      var published, err := ProcessBatch(BATCH_SIZE);
      if tick % CLEANUP_EACH == 0 {
        CleanUp();
      }
    }

    method WaitForTick()
      requires Idle()
      modifies this`s, this`run, this`lastPublishSuccess
      ensures Idle() && PrefixOf(old(run), run) && Later(old(s), s)
    {
      Others();
      HistoryAcross(old(run), run, me, batches, reliable);
    }

    /** DeleteSentOutboxOlderThan: the rows sent more than seven days ago, unless the call fails. */
    method CleanUp()
      requires Idle()
      modifies this`s, this`run, this`lastPublishSuccess
      ensures Idle() && PrefixOf(old(run), run) && Later(old(s), s)
      ensures reliable ==> CleanedUp(run)
    {
      var failed: bool := *;
      if reliable || !failed {
        Do(Cleanup(if s.clock < SENT_TTL then 0 else s.clock - SENT_TTL));
        HistoryAcross(old(run), run, me, batches, reliable);
      }
    }
  }
}
