/**
  The fixed-window limiter for one key: INCR, EXPIRE on the first hit of a window, admit while the
  count is within the limit. The EXPIRE is a command of its own: it may come after other requests'
  INCRs, or never.
*/
module RateLimit {
  import opened Prelude

  datatype Config = Config(limit: nat, window: nat)

  /** An admitted request: when its INCR ran, and in which life of the counter key. */
  datatype Admission = Admission(time: nat, life: nat)

  /** `starts` records when each life of the key began; `expirePending` that its EXPIRE is still to come. */
  datatype State = State(
    now: nat,
    count: Option<nat>,
    deadline: Option<nat>,
    expirePending: bool,
    starts: seq<nat>,
    log: seq<Admission>)

  datatype Action = Tick(d: nat) | Incr | Expire | ExpireLost

  predicate Enabled(s: State, a: Action) {
    match a
    case Tick(_) => true
    case Incr => true
    case Expire => s.expirePending
    case ExpireLost => s.expirePending
  }

  predicate Init(s: State) {
    s.count == None && s.deadline == None && !s.expirePending && s.starts == [] && s.log == []
  }

  function NewCount(s: State): nat {
    if s.count.None? then 1 else s.count.value + 1
  }

  function DoTick(s: State, d: nat): State {
    var now := s.now + d;
    if s.count.Some? && s.deadline.Some? && s.deadline.value <= now
    then s.(now := now, count := None, deadline := None)
    else s.(now := now)
  }

  function DoIncr(c: Config, s: State): State {
    var starts := if s.count.None? then s.starts + [s.now] else s.starts;
    s.(count := Some(NewCount(s)), starts := starts,
       expirePending := s.expirePending || NewCount(s) == 1,
       log := if NewCount(s) <= c.limit && starts != []
              then s.log + [Admission(s.now, |starts| - 1)] else s.log)
  }

  function Next(c: Config, s: State, a: Action): State
    requires Enabled(s, a)
  {
    match a
    case Tick(d) => DoTick(s, d)
    case Incr => DoIncr(c, s)
    case Expire =>
      s.(expirePending := false, deadline := if s.count.Some? then Some(s.now + c.window) else None)
    case ExpireLost => s.(expirePending := false)
  }

  // ----- Counting -----

  function CountIn(log: seq<Admission>, a: nat, b: nat): nat {
    if log == [] then 0
    else
      var n := |log| - 1;
      CountIn(log[..n], a, b) + if a <= log[n].time <= b then 1 else 0
  }

  function CountLife(log: seq<Admission>, k: nat): nat {
    if log == [] then 0
    else
      var n := |log| - 1;
      CountLife(log[..n], k) + if log[n].life == k then 1 else 0
  }

  lemma {:induction false} TwoLivesBound(log: seq<Admission>, a: nat, b: nat, k: nat)
    requires forall i | 0 <= i < |log| && a <= log[i].time <= b :: log[i].life == k || log[i].life == k + 1
    ensures CountIn(log, a, b) <= CountLife(log, k) + CountLife(log, k + 1)
  {
    if log != [] {
      TwoLivesBound(log[..|log| - 1], a, b, k);
    }
  }

  lemma {:induction false} NoneInside(log: seq<Admission>, a: nat, b: nat)
    requires forall i | 0 <= i < |log| :: !(a <= log[i].time <= b)
    ensures CountIn(log, a, b) == 0
  {
    if log != [] {
      NoneInside(log[..|log| - 1], a, b);
    }
  }

  lemma {:induction false} NoneInLife(log: seq<Admission>, k: nat)
    requires forall i | 0 <= i < |log| :: log[i].life != k
    ensures CountLife(log, k) == 0
  {
    if log != [] {
      NoneInLife(log[..|log| - 1], k);
    }
  }

  // ----- The invariant -----

  predicate EntryOk(s: State, e: Admission) {
    && e.life < |s.starts|
    && s.starts[e.life] <= e.time <= s.now
    && (e.life + 1 < |s.starts| ==> e.time < s.starts[e.life + 1])
    && (s.count.None? ==> e.time < s.now)
  }

  ghost predicate LogOk(s: State) {
    && (forall i | 0 <= i < |s.log| :: EntryOk(s, s.log[i]))
    && (forall i, j | 0 <= i < j < |s.log| :: s.log[i].life <= s.log[j].life)
  }

  /** Lives begin a window or more apart, and none in the future. */
  ghost predicate StartsOk(c: Config, now: nat, starts: seq<nat>) {
    && (forall k | 0 <= k < |starts| :: starts[k] <= now)
    && (forall k | 0 <= k < |starts| - 1 :: starts[k] + c.window <= starts[k + 1])
  }

  predicate KeyOk(c: Config, s: State) {
    if s.count.None? then
      && s.deadline.None? && !s.expirePending
      && (s.starts != [] ==> s.starts[|s.starts| - 1] + c.window <= s.now)
    else
      && s.starts != [] && 1 <= s.count.value
      && (s.deadline.Some? ==>
            && !s.expirePending
            && s.now < s.deadline.value && s.starts[|s.starts| - 1] + c.window <= s.deadline.value)
  }

  ghost predicate CountsOk(c: Config, s: State) {
    && (forall k: nat | k < |s.starts| :: CountLife(s.log, k) <= c.limit)
    && (s.count.Some? && s.starts != [] ==> CountLife(s.log, |s.starts| - 1) <= s.count.value)
  }

  ghost predicate Inv(c: Config, s: State) {
    0 < c.window && LogOk(s) && StartsOk(c, s.now, s.starts) && KeyOk(c, s) && CountsOk(c, s)
  }

  lemma LogKept(c: Config, s: State, a: Action)
    requires LogOk(s) && StartsOk(c, s.now, s.starts) && KeyOk(c, s) && Enabled(s, a)
    ensures LogOk(Next(c, s, a))
  {
    var s' := Next(c, s, a);
    forall i | 0 <= i < |s'.log| ensures EntryOk(s', s'.log[i]) {
      EntryKept(c, s, a, i);
    }
    forall i, j | 0 <= i < j < |s'.log| ensures s'.log[i].life <= s'.log[j].life {
      assert EntryOk(s, s.log[i]);
    }
  }

  lemma EntryKept(c: Config, s: State, a: Action, i: nat)
    requires LogOk(s) && StartsOk(c, s.now, s.starts) && KeyOk(c, s) && Enabled(s, a) && i < |Next(c, s, a).log|
    ensures EntryOk(Next(c, s, a), Next(c, s, a).log[i])
  {
    if i < |s.log| {
      assert EntryOk(s, s.log[i]);
    }
  }

  lemma CountLifeAppend(log: seq<Admission>, e: Admission, k: nat)
    ensures CountLife(log + [e], k) == CountLife(log, k) + if e.life == k then 1 else 0
  {
  }

  lemma CountsKept(c: Config, s: State, a: Action)
    requires Inv(c, s) && Enabled(s, a)
    ensures CountsOk(c, Next(c, s, a))
  {
    if a.Incr? {
      var s' := DoIncr(c, s);
      forall k: nat | k < |s'.starts| ensures CountLife(s'.log, k) <= c.limit {
        HitCounted(c, s, k);
      }
      HitCounted(c, s, |s'.starts| - 1);
    }
  }

  /** A hit is counted for the life it falls into, which had none if it begins with it. */
  lemma HitCounted(c: Config, s: State, k: nat)
    requires Inv(c, s) && k < |DoIncr(c, s).starts|
    ensures var s' := DoIncr(c, s);
            && CountLife(s'.log, k) <= c.limit
            && (k == |s'.starts| - 1 ==> CountLife(s'.log, k) <= s'.count.value)
  {
    var life := |DoIncr(c, s).starts| - 1;
    CountLifeAppend(s.log, Admission(s.now, life), k);
    if s.count.None? && k == life {
      forall i | 0 <= i < |s.log| ensures s.log[i].life != life { assert EntryOk(s, s.log[i]); }
      NoneInLife(s.log, life);
    }
  }

  lemma InvStep(c: Config, s: State, a: Action)
    requires Inv(c, s) && Enabled(s, a)
    ensures Inv(c, Next(c, s, a))
  {
    LogKept(c, s, a);
    KeyKept(c, s, a);
    CountsKept(c, s, a);
  }

  lemma KeyKept(c: Config, s: State, a: Action)
    requires 0 < c.window && StartsOk(c, s.now, s.starts) && KeyOk(c, s) && Enabled(s, a)
    ensures StartsOk(c, Next(c, s, a).now, Next(c, s, a).starts) && KeyOk(c, Next(c, s, a))
  {
  }

  // ----- The bound -----

  function Exec(c: Config, s: State, actions: seq<Action>): State {
    if actions == [] then s
    else
      var n := |actions| - 1;
      var s' := Exec(c, s, actions[..n]);
      if Enabled(s', actions[n]) then Next(c, s', actions[n]) else s'
  }

  lemma {:induction false} ExecInv(c: Config, s: State, actions: seq<Action>)
    requires Inv(c, s)
    ensures Inv(c, Exec(c, s, actions))
  {
    if actions != [] {
      var n := |actions| - 1;
      ExecInv(c, s, actions[..n]);
      if Enabled(Exec(c, s, actions[..n]), actions[n]) {
        InvStep(c, Exec(c, s, actions[..n]), actions[n]);
      }
    }
  }

  lemma {:induction false} StartsApart(c: Config, now: nat, starts: seq<nat>, j: nat, k: nat)
    requires StartsOk(c, now, starts) && j < k < |starts|
    ensures starts[j] + c.window <= starts[k]
  {
    if j + 1 < k {
      StartsApart(c, now, starts, j, k - 1);
    }
    assert starts[k - 1] + c.window <= starts[k - 1 + 1];
  }

  /** Admissions within one window of each other are of one life, or of two successive ones. */
  lemma SuccessiveLives(c: Config, s: State, a: nat, i: nat, j: nat)
    requires 0 < c.window && LogOk(s) && StartsOk(c, s.now, s.starts) && i <= j < |s.log|
    requires a <= s.log[i].time && s.log[j].time <= a + c.window
    ensures s.log[j].life == s.log[i].life || s.log[j].life == s.log[i].life + 1
  {
    assert EntryOk(s, s.log[i]) && EntryOk(s, s.log[j]);
    var k := s.log[i].life;
    if k + 1 < s.log[j].life {
      StartsApart(c, s.now, s.starts, k + 1, s.log[j].life);
    }
  }

  lemma LifeBound(c: Config, s: State, k: nat)
    requires LogOk(s) && CountsOk(c, s)
    ensures CountLife(s.log, k) <= c.limit
  {
    if k >= |s.starts| {
      forall j | 0 <= j < |s.log| ensures s.log[j].life != k { assert EntryOk(s, s.log[j]); }
      NoneInLife(s.log, k);
    }
  }

  lemma IntervalBound(c: Config, s: State, a: nat)
    requires Inv(c, s)
    ensures CountIn(s.log, a, a + c.window) <= 2 * c.limit
  {
    var b := a + c.window;
    var i := FirstInside(s.log, a, b);
    if i == |s.log| {
      NoneInside(s.log, a, b);
    } else {
      var k := s.log[i].life;
      forall j | 0 <= j < |s.log| && a <= s.log[j].time <= b ensures s.log[j].life == k || s.log[j].life == k + 1 {
        SuccessiveLives(c, s, a, i, j);
      }
      TwoLivesBound(s.log, a, b, k);
      LifeBound(c, s, k);
      LifeBound(c, s, k + 1);
    }
  }

  lemma FirstInside(log: seq<Admission>, a: nat, b: nat) returns (i: nat)
    ensures i <= |log| && forall j | 0 <= j < i :: !(a <= log[j].time <= b)
    ensures i < |log| ==> a <= log[i].time <= b
  {
    i := 0;
    while i < |log| && !(a <= log[i].time <= b)
      invariant i <= |log| && forall j | 0 <= j < i :: !(a <= log[j].time <= b)
    {
      i := i + 1;
    }
  }

  predicate Bounded(c: Config, log: seq<Admission>, a: nat) {
    CountIn(log, a, a + c.window) <= 2 * c.limit
  }

  /** For every sequence of arrivals, ticks and delayed or lost EXPIREs, and every interval one window long. */
  lemma AtMostTwiceTheLimit(c: Config, s: State, actions: seq<Action>, a: nat)
    requires Init(s) && 0 < c.window
    ensures Bounded(c, Exec(c, s, actions).log, a)
  {
    ExecInv(c, s, actions);
    IntervalBound(c, Exec(c, s, actions), a);
  }

  // ----- The bound is reached -----

  function Burst(n: nat): (b: seq<Action>)
    ensures |b| == n
  {
    if n == 0 then [] else Burst(n - 1) + [Incr]
  }

  function Hits(s: State): nat { if s.count.None? then 0 else s.count.value }

  lemma {:induction false} ExecConcat(c: Config, s: State, p: seq<Action>, q: seq<Action>)
    ensures Exec(c, s, p + q) == Exec(c, Exec(c, s, p), q)
  {
    if q == [] {
      assert p + q == p;
    } else {
      var n := |q| - 1;
      ExecConcat(c, s, p, q[..n]);
      assert (p + q)[..|p + q| - 1] == p + q[..n];
    }
  }

  lemma HitIsAdmitted(c: Config, s: State, a: nat, b: nat)
    requires Hits(s) < c.limit && a <= s.now <= b && (s.count.Some? ==> s.starts != [])
    ensures CountIn(DoIncr(c, s).log, a, b) == CountIn(s.log, a, b) + 1
    ensures AfterHits(s, DoIncr(c, s), 1)
  {
  }

  /** What a burst leaves unchanged and what it counts. */
  predicate AfterHits(s: State, s': State, n: nat) {
    && s'.now == s.now && s'.deadline == s.deadline && Hits(s') == Hits(s) + n
    && (s'.count.Some? ==> s'.starts != [])
    && (s.count.None? && n > 0 ==> s'.count.Some? && s'.expirePending)
  }

  lemma BurstGrows(c: Config, s: State, n: nat)
    requires n > 0
    ensures Exec(c, s, Burst(n)) == DoIncr(c, Exec(c, s, Burst(n - 1)))
  {
  }

  lemma {:induction false} BurstIsAdmitted(c: Config, s: State, n: nat, a: nat, b: nat)
    requires Hits(s) + n <= c.limit && a <= s.now <= b && (s.count.Some? ==> s.starts != [])
    ensures AfterHits(s, Exec(c, s, Burst(n)), n)
    ensures CountIn(Exec(c, s, Burst(n)).log, a, b) == CountIn(s.log, a, b) + n
  {
    if n > 0 {
      BurstIsAdmitted(c, s, n - 1, a, b);
      BurstGrows(c, s, n);
      HitIsAdmitted(c, Exec(c, s, Burst(n - 1)), a, b);
    }
  }

  lemma ExecOne(c: Config, s: State, a: Action)
    requires Enabled(s, a)
    ensures Exec(c, s, [a]) == Next(c, s, a)
  {
  }

  /** Twice the limit is no overestimate: two bursts one window apart are admitted in full. */
  lemma TwiceTheLimitIsReached(c: Config, s: State) returns (actions: seq<Action>)
    requires Init(s) && 0 < c.limit && 0 < c.window
    ensures CountIn(Exec(c, s, actions).log, s.now, s.now + c.window) == 2 * c.limit
  {
    var a, b := s.now, s.now + c.window;
    var burst, pause := Burst(c.limit), [Expire, Tick(c.window)];
    BurstIsAdmitted(c, s, c.limit, a, b);
    var s1 := Exec(c, s, burst);
    PauseEndsWindow(c, s1);
    BurstIsAdmitted(c, Exec(c, s1, pause), c.limit, a, b);
    ExecConcat(c, s, burst, pause);
    ExecConcat(c, s, burst + pause, burst);
    actions := burst + pause + burst;
  }

  lemma PauseEndsWindow(c: Config, s: State)
    requires s.count.Some? && s.expirePending
    ensures var t := Exec(c, s, [Expire, Tick(c.window)]);
            t.count == None && t.now == s.now + c.window && t.log == s.log && t.starts == s.starts
  {
    assert [Expire, Tick(c.window)] == [Expire] + [Tick(c.window)];
    ExecConcat(c, s, [Expire], [Tick(c.window)]);
    ExecOne(c, s, Expire);
    ExecOne(c, Next(c, s, Expire), Tick(c.window));
  }

  // ----- A lost EXPIRE -----

  /** The key has no deadline, and no EXPIRE is to come. */
  predicate Orphaned(s: State) { s.count.Some? && s.deadline.None? && !s.expirePending }

  function Capped(c: Config, hits: nat): nat { if hits <= c.limit then hits else c.limit }

  lemma OrphanStep(c: Config, s: State, a: Action)
    requires Inv(c, s) && Orphaned(s) && Enabled(s, a)
    ensures var s' := Next(c, s, a);
            && Orphaned(s') && Hits(s') == Hits(s) + (if a.Incr? then 1 else 0)
            && s.log <= s'.log && |s'.log| - |s.log| == Capped(c, Hits(s')) - Capped(c, Hits(s))
  {
  }

  /** An orphaned key counts on for ever: all it still admits is what is left of the one limit. */
  lemma {:induction false} OrphanForever(c: Config, s: State, actions: seq<Action>)
    requires Inv(c, s) && Orphaned(s)
    ensures var s' := Exec(c, s, actions);
            && Orphaned(s') && Hits(s) <= Hits(s') && s.log <= s'.log
            && |s'.log| - |s.log| == Capped(c, Hits(s')) - Capped(c, Hits(s))
  {
    if actions != [] {
      var n := |actions| - 1;
      OrphanForever(c, s, actions[..n]);
      ExecInv(c, s, actions[..n]);
      var t := Exec(c, s, actions[..n]);
      if Enabled(t, actions[n]) {
        OrphanStep(c, t, actions[n]);
      }
    }
  }

  /** Whatever comes, nothing more is admitted. */
  ghost predicate RefusedForever(c: Config, s: State) {
    forall actions :: Exec(c, s, actions).log == s.log
  }

  /** A client is refused for ever if and only if the EXPIRE of its key was lost and the limit is used up. */
  lemma RefusedForeverIff(c: Config, s: State)
    requires Inv(c, s) && 0 < c.limit
    ensures RefusedForever(c, s) <==> Orphaned(s) && c.limit <= Hits(s)
  {
    if Orphaned(s) && c.limit <= Hits(s) {
      forall actions ensures Exec(c, s, actions).log == s.log {
        OrphanForever(c, s, actions);
      }
    } else if Hits(s) < c.limit {
      ExecOne(c, s, Incr);
      assert Exec(c, s, [Incr]).log != s.log;
    } else {
      var wait := NewWindow(c, s);
      var t := Exec(c, s, wait);
      ExecConcat(c, s, wait, [Incr]);
      ExecOne(c, t, Incr);
      assert Exec(c, s, wait + [Incr]).log != s.log;
    }
  }

  /** For every limit: one EXPIRE lost, and the limit's worth of requests is the last that is ever admitted. */
  lemma LostExpireLocksOut(c: Config, s: State) returns (actions: seq<Action>)
    requires Init(s) && 0 < c.limit && 0 < c.window
    ensures RefusedForever(c, Exec(c, s, actions)) && |Exec(c, s, actions).log| == c.limit
  {
    var lost := FirstExpireLost(c, s);
    var t := Exec(c, s, lost);
    LimitUsedUp(c, t);
    actions := lost + Burst(c.limit - 1);
    ExecConcat(c, s, lost, Burst(c.limit - 1));
  }

  lemma FirstExpireLost(c: Config, s: State) returns (lost: seq<Action>)
    requires Init(s) && 0 < c.limit && 0 < c.window
    ensures var t := Exec(c, s, lost); Inv(c, t) && Orphaned(t) && Hits(t) == 1 && |t.log| == 1
  {
    lost := [Incr] + [ExpireLost];
    ExecConcat(c, s, [Incr], [ExpireLost]);
    ExecOne(c, s, Incr);
    ExecOne(c, Next(c, s, Incr), ExpireLost);
    ExecInv(c, s, lost);
  }

  lemma LimitUsedUp(c: Config, t: State)
    requires Inv(c, t) && Orphaned(t) && Hits(t) == 1 && |t.log| == 1 && 0 < c.limit
    ensures var u := Exec(c, t, Burst(c.limit - 1)); RefusedForever(c, u) && |u.log| == c.limit
  {
    var u := Exec(c, t, Burst(c.limit - 1));
    BurstIsAdmitted(c, t, c.limit - 1, 0, t.now);
    OrphanForever(c, t, Burst(c.limit - 1));
    ExecInv(c, t, Burst(c.limit - 1));
    RefusedForeverIff(c, u);
  }

  /** A key that is there has a deadline, or its EXPIRE is to come. */
  lemma {:induction false} NeverOrphaned(c: Config, s: State, actions: seq<Action>)
    requires Init(s) && 0 < c.window && ExpireLost !in actions
    ensures !Orphaned(Exec(c, s, actions))
  {
    if actions != [] {
      NeverOrphaned(c, s, actions[..|actions| - 1]);
    }
  }

  /** As long as no EXPIRE is lost, no client is ever refused for good. */
  lemma NoLockout(c: Config, s: State, actions: seq<Action>)
    requires Init(s) && 0 < c.window && 0 < c.limit && ExpireLost !in actions
    ensures !RefusedForever(c, Exec(c, s, actions))
  {
    NeverOrphaned(c, s, actions);
    ExecInv(c, s, actions);
    RefusedForeverIff(c, Exec(c, s, actions));
  }

  /** Any other key comes to its end: at its deadline, or a window after the EXPIRE still to come. */
  lemma NewWindow(c: Config, s: State) returns (wait: seq<Action>)
    requires Inv(c, s) && s.count.Some? && !Orphaned(s)
    ensures var t := Exec(c, s, wait); t.count == None && t.log == s.log && t.starts == s.starts
  {
    if s.deadline.Some? {
      wait := [Tick(s.deadline.value - s.now)];
      ExecOne(c, s, wait[0]);
    } else {
      wait := [Expire, Tick(c.window)];
      PauseEndsWindow(c, s);
    }
  }

  /** Whatever the arrivals, once a set deadline has passed the key is gone or a new life of it has begun. */
  lemma {:induction false} LifeEndsAtDeadline(c: Config, s: State, actions: seq<Action>)
    requires Inv(c, s) && s.deadline.Some?
    ensures var t := Exec(c, s, actions);
            && |s.starts| <= |t.starts| && s.now <= t.now
            && (t.count.None? || |s.starts| < |t.starts| || (t.deadline == s.deadline && t.now < s.deadline.value))
  {
    if actions != [] {
      var n := |actions| - 1;
      LifeEndsAtDeadline(c, s, actions[..n]);
      ExecInv(c, s, actions[..n]);
    }
  }

  /** The INCR of a request that got no answer: if it was the first of a window, no EXPIRE follows. */
  function UnansweredIncr(c: Config, s: State): State {
    var t := DoIncr(c, s);
    if NewCount(s) == 1 then t.(expirePending := false) else t
  }

  // ----- The middleware -----

  /** One key's counter in a shared Redis; `history` is every command run on it so far. */
  class Limiter {
    const c: Config
    const reliable: bool
    var s: State
    ghost var first: State
    ghost var history: seq<Action>

    ghost predicate Valid() reads this {
      && Init(first) && 0 < c.window && 0 < c.limit && s == Exec(c, first, history)
      && (reliable ==> ExpireLost !in history)
    }

    /** `reliable` stands for a Redis that answers every command. */
    constructor (config: Config, reliable: bool)
      requires 0 < config.limit && 0 < config.window
      ensures Valid() && c == config && this.reliable == reliable && history == []
    {
      c := config;
      this.reliable := reliable;
      s := State(0, None, None, false, [], []);
      first := State(0, None, None, false, [], []);
      history := [];
    }

    method Do(a: Action)
      requires Valid() && Enabled(s, a) && (reliable ==> a != ExpireLost)
      modifies this
      ensures Valid() && s == Next(c, old(s), a) && history == old(history) + [a]
    {
      assert (history + [a])[..|history|] == history;
      s := Next(c, s, a);
      history := history + [a];
    }

    /** Other requests and time; the EXPIRE that this request owes, if any, is nobody else's to send. */
    method Others(owing: bool)
      requires Valid() && (owing ==> s.expirePending && s.count.Some? && s.deadline.None?)
      modifies this
      ensures Valid() && old(history) <= history
      ensures owing ==> s.expirePending && s.count.Some? && s.deadline.None?
    {
      var schedule: seq<Action> := *;
      for i := 0 to |schedule|
        invariant Valid() && old(history) <= history
        invariant owing ==> s.expirePending && s.count.Some? && s.deadline.None?
      {
        var a := schedule[i];
        if Enabled(s, a) && !(reliable && a == ExpireLost) && !(owing && (a == Expire || a == ExpireLost)) {
          Do(a);
        }
      }
    }

    /** EXPIRE: on an error it may have been carried out or not. */
    method SendExpire() returns (err: bool)
      requires Valid() && s.expirePending
      modifies this
      ensures Valid() && (reliable ==> !err)
      ensures history == old(history) + [Expire] || (err && history == old(history) + [ExpireLost])
    {
      var lost: bool;
      err, lost := *, *;
      err := err && !reliable;
      Do(if err && lost then ExpireLost else Expire);
    }

    /** INCR: without an answer it may have been carried out, and nobody will send the EXPIRE. */
    method SendIncr() returns (err: bool, count: nat)
      requires Valid()
      modifies this
      ensures Valid() && old(history) <= history && (reliable ==> !err)
      ensures err ==> s == old(s) || s == UnansweredIncr(c, old(s))
      ensures !err ==> history == old(history) + [Incr] && s == DoIncr(c, old(s)) && s.count == Some(count)
      ensures !err ==> |s.starts| > 0 && (count == 1 ==> s.expirePending && s.deadline.None?)
      ensures !err ==> count == NewCount(old(s))
    {
      ExecInv(c, first, history);
      count := 0;
      err := *;
      err := err && !reliable;
      if err {
        var lost: bool := *;
        if !lost {
          Do(Incr);
          if s.count == Some(1) {
            Do(ExpireLost);
          }
        }
      } else {
        Do(Incr);
        count := s.count.value;
      }
    }

    /**
      One request. With INCR answering, it is admitted exactly when the log of admissions gained it, and
      the first hit of a window ends with its EXPIRE, lost only if that command reports an error. Still
      any window-long interval holds at most twice the limit, and where every command is answered nobody
      is ever refused for good. An INCR that reports an error may have been carried out; the request
      passes either way.
    */
    method Middleware() returns (admitted: bool, ghost redisUp: bool, ghost expireErr: bool, ghost hit: State)
      requires Valid()
      modifies this
      ensures Valid() && old(history) <= history && (reliable ==> redisUp && !expireErr)
      ensures !redisUp ==> admitted && (s == old(s) || s == UnansweredIncr(c, old(s)))
      ensures redisUp ==> hit == DoIncr(c, old(s))
      ensures redisUp ==> (admitted <==> NewCount(old(s)) <= c.limit)
      ensures redisUp ==>
        && |hit.starts| > 0
        && (admitted <==> hit.log == old(s).log + [Admission(old(s).now, |hit.starts| - 1)])
      ensures redisUp && NewCount(old(s)) == 1 ==>
        && |old(history)| + 1 < |history|
        && (history[|history| - 1] == Expire || (expireErr && history[|history| - 1] == ExpireLost))
      ensures forall a: nat :: Bounded(c, s.log, a)
      ensures reliable ==> !RefusedForever(c, s)
    {
      var err, count := SendIncr();
      redisUp, expireErr, hit := !err, false, s;
      if err {
        admitted := true;
      } else {
        Others(count == 1);
        if count == 1 {
          var failed := SendExpire();
          expireErr := failed;
        }
        admitted := !(count > c.limit);
      }
      forall a: nat ensures Bounded(c, s.log, a) {
        AtMostTwiceTheLimit(c, first, history, a);
      }
      if reliable {
        NoLockout(c, first, history);
      }
    }
  }
}
