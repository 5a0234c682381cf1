/**
  When a refresh is accepted, exactly: a counter shows how often it was bumped since its key last
  expired, so a session outlives a revocation if and only if the count has come back to the one the
  login read.
*/
module Revocation {
  import opened Prelude
  import opened Sessions

  /** The bumps of a counter since its key last expired. */
  ghost function BumpsSince(r: Trace, n: nat, k: Key): nat
    requires |r.states| == |r.actions| + 1 && n <= |r.actions|
  {
    if n == 0 then 0
    else if Evicts(r.states[n - 1], r.actions[n - 1], k) then 0
    else BumpsSince(r, n - 1, k) + if Bumps(r.states[n - 1], r.actions[n - 1], k) then 1 else 0
  }

  lemma CounterStep(ttl: nat, s: State, a: Action, k: Key)
    requires Enabled(s, a)
    ensures Current(Next(ttl, s, a).counters, k) ==
            if Evicts(s, a, k) then 0 else Current(s.counters, k) + if Bumps(s, a, k) then 1 else 0
  {
  }

  /** What any read of a counter shows, at any moment of any run. */
  lemma {:induction false} CounterIsBumpsSince(ttl: nat, r: Trace, n: nat, k: Key)
    requires IsRun(ttl, r) && n < |r.states|
    ensures Current(r.states[n].counters, k) == BumpsSince(r, n, k)
  {
    if n > 0 {
      CounterIsBumpsSince(ttl, r, n - 1, k);
      assert StepAt(ttl, r, n - 1);
      CounterStep(ttl, r.states[n - 1], r.actions[n - 1], k);
    }
  }

  // ----- Acceptance -----

  /** A Refresh between its two reads, or past them. */
  predicate ReadUserOnly(s: State, c: nat, p: Payload, g: nat) {
    c < s.nextCall && (c in s.calls ==> s.calls[c].at == RefreshReadUser(p, g) || s.calls[c].at.RefreshValidated?)
  }

  lemma {:induction false} ReadUserStays(ttl: nat, r: Trace, m: nat, n: nat, c: nat, p: Payload, g: nat)
    requires IsRun(ttl, r) && m <= n < |r.states| && ReadUserOnly(r.states[m], c, p, g)
    ensures ReadUserOnly(r.states[n], c, p, g)
  {
    if m < n {
      ReadUserStays(ttl, r, m, n - 1, c, p, g);
      assert StepAt(ttl, r, n - 1);
      ReadUserStep(ttl, r.states[n - 1], r.actions[n - 1], c, p, g);
    }
  }

  lemma ReadUserStep(ttl: nat, s: State, a: Action, c: nat, p: Payload, g: nat)
    requires Enabled(s, a) && ReadUserOnly(s, c, p, g)
    ensures ReadUserOnly(Next(ttl, s, a), c, p, g)
  {
  }

  predicate Accepted(s: State, c: nat) { c in s.calls && s.calls[c].at.RefreshValidated? }

  /**
    The Refresh call c of a session that logged in with its reads at iu and it, and that compares at
    nu and nt, is accepted if and only if each counter was bumped as often since its last expiry as
    when the login read it.
  */
  lemma AcceptedIffCountsAgree(ttl: nat, r: Trace, iu: nat, it: nat, nu: nat, nt: nat, l: nat, c: nat, u: Key, t: Key)
    requires IsRun(ttl, r) && u.UserKey? && t.TenantKey? && iu < nu < nt < |r.actions| && it < nt
    requires IssueReads(r.states[iu], r.actions[iu], l, u) && IssueReads(r.states[it], r.actions[it], l, t)
    requires RefreshReads(r.states[nu], r.actions[nu], c, l, u) && RefreshReads(r.states[nt], r.actions[nt], c, l, t)
    ensures Accepted(r.states[nt + 1], c) <==>
            BumpsSince(r, nu, u) == BumpsSince(r, iu, u) && BumpsSince(r, nt, t) == BumpsSince(r, it, t)
  {
    CounterIsBumpsSince(ttl, r, iu, u);
    CounterIsBumpsSince(ttl, r, it, t);
    CounterIsBumpsSince(ttl, r, nu, u);
    CounterIsBumpsSince(ttl, r, nt, t);
    FateAfterRead(ttl, r, iu, nt, l, u);
    FateAfterRead(ttl, r, it, nt, l, t);
    UserReadKept(ttl, r, nu, nt, c, l, u);
    RunInv(ttl, r, nt);
    assert CallOk(r.states[nt], c, r.states[nt].calls[c]);
    assert StepAt(ttl, r, nt);
  }

  lemma UserReadKept(ttl: nat, r: Trace, nu: nat, nt: nat, c: nat, l: nat, u: Key)
    requires IsRun(ttl, r) && u.UserKey? && nu < nt < |r.actions|
    requires RefreshReads(r.states[nu], r.actions[nu], c, l, u)
    requires c in r.states[nt].calls && r.states[nt].calls[c].at.RefreshReadUser?
    ensures r.states[nt].calls[c].at.userGen == Current(r.states[nu].counters, u)
  {
    RunInv(ttl, r, nu);
    assert CallOk(r.states[nu], c, r.states[nu].calls[c]);
    assert StepAt(ttl, r, nu);
    var p, g := r.states[nu].calls[c].at.payload, Current(r.states[nu].counters, u);
    ReadUserStays(ttl, r, nu + 1, nt, c, p, g);
  }

  // ----- When a bump is undone -----

  /** The bumps at positions from lo to hi, whatever expires. */
  ghost function BumpsIn(r: Trace, lo: nat, hi: nat, k: Key): nat
    requires |r.states| == |r.actions| + 1 && hi <= |r.actions|
    decreases hi
  {
    if hi <= lo then 0
    else BumpsIn(r, lo, hi - 1, k) + if Bumps(r.states[hi - 1], r.actions[hi - 1], k) then 1 else 0
  }

  ghost predicate KeptIn(r: Trace, lo: nat, hi: nat, k: Key)
    requires |r.states| == |r.actions| + 1 && hi <= |r.actions|
  {
    forall m | lo <= m < hi :: !Evicts(r.states[m], r.actions[m], k)
  }

  lemma {:induction false} CountWhileKept(r: Trace, lo: nat, hi: nat, k: Key)
    requires |r.states| == |r.actions| + 1 && lo <= hi <= |r.actions| && KeptIn(r, lo, hi, k)
    ensures BumpsSince(r, hi, k) == BumpsSince(r, lo, k) + BumpsIn(r, lo, hi, k)
  {
    if lo < hi {
      CountWhileKept(r, lo, hi - 1, k);
    }
  }

  lemma {:induction false} SomeBumpCounts(r: Trace, lo: nat, j: nat, hi: nat, k: Key)
    requires |r.states| == |r.actions| + 1 && lo <= j < hi <= |r.actions| && Bumps(r.states[j], r.actions[j], k)
    ensures 0 < BumpsIn(r, lo, hi, k)
  {
    if j < hi - 1 {
      SomeBumpCounts(r, lo, j, hi - 1, k);
    }
  }

  /** The key last expired at m, and was bumped exactly g times since. */
  ghost predicate CameBackTo(r: Trace, m: nat, n: nat, k: Key, g: nat)
    requires |r.states| == |r.actions| + 1 && n <= |r.actions|
  {
    m < n && Evicts(r.states[m], r.actions[m], k) && KeptIn(r, m + 1, n, k) && BumpsIn(r, m + 1, n, k) == g
  }

  lemma {:induction false} LastEviction(r: Trace, lo: nat, hi: nat, k: Key) returns (m: nat)
    requires |r.states| == |r.actions| + 1 && lo <= hi <= |r.actions| && !KeptIn(r, lo, hi, k)
    ensures lo <= m < hi && Evicts(r.states[m], r.actions[m], k) && KeptIn(r, m + 1, hi, k)
  {
    if Evicts(r.states[hi - 1], r.actions[hi - 1], k) {
      m := hi - 1;
    } else {
      m := LastEviction(r, lo, hi - 1, k);
    }
  }

  /**
    A bump at j after a login's read at i is no longer seen at n if and only if the key expired in
    between and, since it last did, was bumped exactly as often as the login had read.
  */
  lemma BumpUndoneIff(r: Trace, i: nat, j: nat, n: nat, k: Key)
    requires |r.states| == |r.actions| + 1 && i <= j < n <= |r.actions| && Bumps(r.states[j], r.actions[j], k)
    ensures BumpsSince(r, n, k) == BumpsSince(r, i, k) <==>
            exists m | i <= m :: CameBackTo(r, m, n, k, BumpsSince(r, i, k))
  {
    if KeptIn(r, i, n, k) {
      CountWhileKept(r, i, n, k);
      SomeBumpCounts(r, i, j, n, k);
    } else {
      var m := LastEviction(r, i, n, k);
      CountWhileKept(r, m + 1, n, k);
      assert BumpsSince(r, n, k) == BumpsSince(r, i, k) ==> CameBackTo(r, m, n, k, BumpsSince(r, i, k));
    }
    forall m | i <= m && CameBackTo(r, m, n, k, BumpsSince(r, i, k))
      ensures BumpsSince(r, n, k) == BumpsSince(r, i, k)
    {
      CountWhileKept(r, m + 1, n, k);
    }
  }

  // ----- A revocation that does not hold -----

  /** A run in which no call fails and every Issue and Refresh keeps within half a token lifetime. */
  ghost predicate Smooth(ttl: nat, r: Trace) {
    IsRun(ttl, r) && IsTimely(ttl, r) && forall a | a in r.actions :: !a.Abort?
  }

  lemma Then(ttl: nat, r: Trace, a: Action) returns (r': Trace)
    requires Smooth(ttl, r) && !a.Abort?
    requires Enabled(r.states[|r.actions|], a) && Timely(ttl, r.states[|r.actions|], a)
    ensures Smooth(ttl, r') && PrefixOf(r, r')
    ensures r' == Run(r.states + [Next(ttl, r.states[|r.actions|], a)], r.actions + [a])
  {
    ExtendRun(ttl, r, a);
    r' := Run(r.states + [Next(ttl, r.states[|r.actions|], a)], r.actions + [a]);
    forall i | 0 <= i < |r'.actions| ensures Timely(ttl, r'.states[i], r'.actions[i]) {
      assert i < |r.actions| ==> Timely(ttl, r.states[i], r.actions[i]);
    }
  }

  /** Where a story of calls that are over stands, its logins aside. */
  ghost predicate Stands(r: Trace, now: nat, counters: map<Key, Counter>, tokens: map<nat, Token>, next: nat,
      issued: set<nat>) {
    && |r.states| == |r.actions| + 1
    && var s := r.states[|r.actions|];
       && s.now == now && s.counters == counters && s.tokens == tokens && s.calls == map[]
       && s.nextCall == next && s.issued == issued
  }

  /** RevokeAll from beginning to end, on a counter whose key is not there. */
  lemma ThenRevokeAll(ttl: nat, r: Trace, k: Key, now: nat, tokens: map<nat, Token>, c: nat, issued: set<nat>)
      returns (r': Trace)
    requires Smooth(ttl, r) && Stands(r, now, map[], tokens, c, issued)
    ensures Smooth(ttl, r') && PrefixOf(r, r') && |r'.actions| == |r.actions| + 3
    ensures Stands(r', now, map[k := Counter(1, Some(now + 2 * ttl))], tokens, c + 1, issued)
    ensures var n := |r.actions| + 1;
            Bumps(r'.states[n], r'.actions[n], k) && Extends(r'.states[n + 1], r'.actions[n + 1], k)
  {
    var r1 := Then(ttl, r, Begin(RevokeAllBegun(k)));
    var r2 := Then(ttl, r1, Incr(c));
    r' := Then(ttl, r2, SetExpiry(c));
  }

  lemma ThenTick(ttl: nat, r: Trace, d: nat, now: nat, counters: map<Key, Counter>, tokens: map<nat, Token>, c: nat,
      issued: set<nat>)
    returns (r': Trace)
    requires Smooth(ttl, r) && Stands(r, now, counters, tokens, c, issued)
    requires forall t | t in tokens :: now + d < tokens[t].deadline
    ensures Smooth(ttl, r') && PrefixOf(r, r') && |r'.actions| == |r.actions| + 1
    ensures Stands(r', now + d, counters - Due(counters, now + d), tokens, c, issued)
  {
    r' := Then(ttl, r, Tick(d));
    assert (map t | t in tokens && now + d < tokens[t].deadline :: tokens[t]) == tokens;
  }

  lemma ThenIssue(ttl: nat, r: Trace, who: Identity, now: nat, counters: map<Key, Counter>, tokens: map<nat, Token>,
      c: nat, issued: set<nat>, t: nat)
    returns (r': Trace)
    requires Smooth(ttl, r) && Stands(r, now, counters, tokens, c, issued) && t !in issued
    ensures Smooth(ttl, r') && PrefixOf(r, r') && |r'.actions| == |r.actions| + 4
    ensures var gens := Generations(Current(counters, UserKey(who.user)), Current(counters, TenantKey(who.tenant)));
            Stands(r', now, counters, tokens[t := Token(Payload(who, gens, c), now + ttl)], c + 1, issued + {t})
    ensures IssueReads(r'.states[|r.actions| + 1], r'.actions[|r.actions| + 1], c, UserKey(who.user))
  {
    var r1 := Then(ttl, r, Begin(IssueBegun(who)));
    var r2 := Then(ttl, r1, ReadUserGen(c));
    var r3 := Then(ttl, r2, ReadTenantGen(c));
    r' := Then(ttl, r3, StoreToken(c, t));
  }

  /** A refresh that finds the pair unchanged. */
  lemma ThenRefresh(ttl: nat, r: Trace, now: nat, counters: map<Key, Counter>, tokens: map<nat, Token>, c: nat,
      issued: set<nat>, t: nat, t': nat)
    returns (r': Trace)
    requires Smooth(ttl, r) && Stands(r, now, counters, tokens, c, issued) && t in tokens && t' !in issued
    requires var p := tokens[t].payload;
             p.gens == Generations(Current(counters, UserKey(p.who.user)), Current(counters, TenantKey(p.who.tenant)))
    ensures Smooth(ttl, r') && PrefixOf(r, r') && |r'.actions| == |r.actions| + 5
    ensures RefreshReads(r'.states[|r.actions| + 2], r'.actions[|r.actions| + 2], c, tokens[t].payload.lineage,
                         UserKey(tokens[t].payload.who.user))
    ensures Accepted(r'.states[|r.actions| + 4], c)
    ensures Stands(r', now, counters, (tokens - {t})[t' := Token(tokens[t].payload, now + ttl)], c + 1, issued + {t'})
  {
    var r1 := Then(ttl, r, Begin(RefreshBegun(t)));
    var r2 := Then(ttl, r1, Consume(c));
    var r3 := Then(ttl, r2, ReadUserGen(c));
    var r4 := Then(ttl, r3, ReadTenantGen(c));
    r' := Then(ttl, r4, StoreToken(c, t'));
  }

  /** A revocation, a login a moment before the counter's key expires, and that expiry. */
  lemma LoginBeforeExpiry(ttl: nat, who: Identity) returns (r: Trace, read: nat)
    requires 1 < ttl
    ensures Smooth(ttl, r) && read < |r.actions| && IssueReads(r.states[read], r.actions[read], 1, UserKey(who.user))
    ensures Stands(r, 2 * ttl, map[], map[0 := Token(Payload(who, Generations(1, 0), 1), 3 * ttl - 1)], 2, {0})
  {
    var k, first := UserKey(who.user), State(0, map[], map[], map[], map[], 0, {});
    var r0: Trace := Run([first], []);
    var r1 := ThenRevokeAll(ttl, r0, k, 0, map[], 0, {});
    var c1 := map[k := Counter(1, Some(2 * ttl))];
    var r2 := ThenTick(ttl, r1, 2 * ttl - 1, 0, c1, map[], 1, {});
    assert c1 - Due(c1, 2 * ttl - 1) == c1;
    var r3 := ThenIssue(ttl, r2, who, 2 * ttl - 1, c1, map[], 1, {}, 0);
    var tokens := map[0 := Token(Payload(who, Generations(1, 0), 1), 3 * ttl - 1)];
    r := ThenTick(ttl, r3, 1, 2 * ttl - 1, c1, tokens, 2, {0});
    assert c1 - Due(c1, 2 * ttl) == map[];
    read := |r2.actions| + 1;
  }

  /**
    For every token lifetime and every identity: a revocation, then a login a moment before the
    counter's key expires, then a second revocation of the same user. The second one brings the
    counter back to the value the login read, so the session it was to end is refreshed.
  */
  lemma RevocationForgotten(ttl: nat, who: Identity) returns (r: Trace, read: nat, bump: nat, compare: nat)
    requires 1 < ttl
    ensures Smooth(ttl, r) && read < bump < bump + 1 < compare && compare + 3 == |r.actions|
    ensures var k := UserKey(who.user);
            && IssueReads(r.states[read], r.actions[read], 1, k)
            && Bumps(r.states[bump], r.actions[bump], k) && Extends(r.states[bump + 1], r.actions[bump + 1], k)
            && RefreshReads(r.states[compare], r.actions[compare], 3, 1, k)
    ensures Accepted(r.states[compare + 2], 3)
    ensures 1 in r.states[compare + 3].tokens && r.states[compare + 3].tokens[1].payload.lineage == 1
  {
    var k, tokens := UserKey(who.user), map[0 := Token(Payload(who, Generations(1, 0), 1), 3 * ttl - 1)];
    var login: Trace;
    login, read := LoginBeforeExpiry(ttl, who);
    var revoked := ThenRevokeAll(ttl, login, k, 2 * ttl, tokens, 2, {0});
    r := ThenRefresh(ttl, revoked, 2 * ttl, map[k := Counter(1, Some(4 * ttl))], tokens, 3, {0}, 0, 1);
    bump, compare := |login.actions| + 1, |revoked.actions| + 2;
  }
}
