/**
  The issuer's calls in the order the program runs them, over a Redis shared with every other
  caller. Between any two commands of a call, others may run any commands of theirs, and each
  command may fail. The ghost history `run` records all of it and is a run of the protocol, so the
  theorems of Sessions hold of everything these methods do.
*/
module TokenIssuer {
  import opened Prelude
  import opened Sessions

  datatype Revocation = Revoked | NoSuchToken | DelFailed
  datatype Outcome = Issued(token: nat) | NotFound | SessionRevoked | RedisError

  /** The action is a command of call c. */
  predicate ActsFor(a: Action, c: nat) {
    match a
    case Tick(_) => false
    case Begin(_) => false
    case Delete(_) => false
    case _ => a.c == c
  }

  lemma OthersKeepCall(ttl: nat, s: State, a: Action, c: nat)
    requires Enabled(s, a) && !ActsFor(a, c) && c < s.nextCall && c in s.calls
    ensures var s' := Next(ttl, s, a); c in s'.calls && s'.calls[c] == s.calls[c] && c < s'.nextCall
  {
  }

  class JWTIssuer {
    const ttl: nat
    const reliable: bool
    var s: State
    ghost var run: Trace

    ghost predicate Valid() reads this {
      IsRun(ttl, run) && s == run.states[|run.actions|]
    }

    /** `reliable` stands for a Redis none of whose commands fail. */
    constructor (refreshTTL: nat, reliable: bool)
      requires 0 < refreshTTL
      ensures Valid() && ttl == refreshTTL && this.reliable == reliable && run.actions == []
    {
      ttl := refreshTTL;
      this.reliable := reliable;
      s := State(0, map[], map[], map[], map[], 0, {});
      run := Run([State(0, map[], map[], map[], map[], 0, {})], []);
    }

    /** One Redis command, or the passing of time. */
    method Do(a: Action)
      requires Valid() && Enabled(s, a)
      modifies this
      ensures Valid() && s == Next(ttl, old(s), a)
      ensures run == Run(old(run).states + [s], old(run).actions + [a])
    {
      ExtendRun(ttl, run, a);
      s := Next(ttl, s, a);
      run := Run(run.states + [s], run.actions + [a]);
    }

    /** Whatever the other callers do meanwhile: any commands, in any number, but none of call c. */
    method Others(c: nat)
      requires Valid() && c in s.calls && c < s.nextCall
      modifies this
      ensures Valid() && PrefixOf(old(run), run)
      ensures c in s.calls && c < s.nextCall && s.calls[c] == old(s).calls[c]
    {
      var schedule: seq<Action> := *;
      for i := 0 to |schedule|
        invariant Valid() && PrefixOf(old(run), run)
        invariant c in s.calls && c < s.nextCall && s.calls[c] == old(s).calls[c]
      {
        if Enabled(s, schedule[i]) && !ActsFor(schedule[i], c) {
          OthersKeepCall(ttl, s, schedule[i], c);
          Do(schedule[i]);
        }
      }
    }

    method Open(start: Progress) returns (c: nat)
      requires Valid() && Enabled(s, Begin(start))
      modifies this
      ensures Valid() && PrefixOf(old(run), run)
      ensures |old(run).actions| < |run.actions|
      ensures c in s.calls && c < s.nextCall && s.calls[c].at == start
    {
      c := s.nextCall;
      Do(Begin(start));
      Others(c);
    }

    method GenerateToken() returns (t: nat)
      ensures t !in s.issued
    {
      t := FreshId(s.issued);
    }

    /** A command that reports an error, carried out or not: the call is over. */
    method Fail(c: nat, a: Action)
      requires Valid() && Enabled(s, a)
      modifies this
      ensures Valid() && PrefixOf(old(run), run) && c !in s.calls
    {
      var lost: bool := *;
      if !lost {
        Do(a);
      }
      if c in s.calls {
        Do(Abort(c));
      }
    }

    /**
      One command of the call, then interference. `failed` is a Redis error, which ends the call; the
      command may have been carried out all the same.
    */
    method Command(c: nat, a: Action) returns (failed: bool, ghost n: nat)
      requires Valid() && Enabled(s, a) && ActsFor(a, c) && c < s.nextCall && !a.Abort?
      modifies this
      ensures Valid() && PrefixOf(old(run), run) && (reliable ==> !failed)
      ensures !failed ==>
        && |old(run).actions| == n < |run.actions| && run.states[n] == old(s) && run.actions[n] == a
        && run.states[n + 1] == Next(ttl, run.states[n], a)
        && (c in s.calls <==> c in run.states[n + 1].calls)
        && (c in s.calls ==> c < s.nextCall && s.calls[c] == run.states[n + 1].calls[c])
    {
      n := |run.actions|;
      failed := *;
      failed := failed && !reliable;
      if failed {
        Fail(c, a);
      } else {
        Do(a);
        if c in s.calls {
          Others(c);
        }
      }
    }

    /** issueWithGeneration: store a fresh token with what the call holds. */
    method Store(c: nat) returns (r: Outcome, ghost n: nat)
      requires Valid() && c in s.calls && c < s.nextCall
      requires s.calls[c].at.IssueReady? || s.calls[c].at.RefreshValidated?
      modifies this
      ensures Valid() && PrefixOf(old(run), run) && (r.Issued? || (r.RedisError? && !reliable))
      ensures r.Issued? ==>
        && |old(run).actions| == n < |run.actions|
        && r.token in run.states[n + 1].tokens
        && var p, q := old(s).calls[c].at, run.states[n + 1].tokens[r.token].payload;
           && q.gens == p.gens
           && (p.IssueReady? ==> q.who == p.who && q.lineage == c)
           && (p.RefreshValidated? ==> q.who == p.payload.who && q.lineage == p.payload.lineage)
    {
      var t := GenerateToken();
      var failed;
      failed, n := Command(c, StoreToken(c, t));
      r := if failed then RedisError else Issued(t);
    }

    /** A login: the new token carries the identity and the two counter values read on the way. */
    method Issue(who: Identity) returns (r: Outcome, ghost i: nat, ghost j: nat, ghost n: nat)
      requires Valid()
      modifies this
      ensures Valid() && PrefixOf(old(run), run) && (r.Issued? || (r.RedisError? && !reliable))
      ensures r.Issued? ==>
        && |old(run).actions| < i < j < n < |run.actions|
        && r.token in run.states[n + 1].tokens
        && var p := run.states[n + 1].tokens[r.token].payload;
           && p.who == who
           && p.gens == Generations(Current(run.states[i].counters, UserKey(who.user)),
                                    Current(run.states[j].counters, TenantKey(who.tenant)))
    {
      var failed: bool;
      i, j, n := 0, 0, 0;
      var c := Open(IssueBegun(who));
      failed, i := Command(c, ReadUserGen(c));
      if failed { return RedisError, i, j, n; }
      failed, j := Command(c, ReadTenantGen(c));
      if failed { return RedisError, i, j, n; }
      r, n := Store(c);
    }

    /** The two reads of a refresh and the compare: the call goes on exactly if both equal the token's pair. */
    method Validate(c: nat) returns (failed: bool, ghost i: nat, ghost j: nat)
      requires Valid() && c in s.calls && c < s.nextCall && s.calls[c].at.RefreshConsumed?
      modifies this
      ensures Valid() && PrefixOf(old(run), run) && (reliable ==> !failed)
      ensures !failed ==>
        && |old(run).actions| <= i < j < |run.actions|
        && var p := old(s).calls[c].at.payload;
           && (c in s.calls <==> Current(run.states[i].counters, UserKey(p.who.user)) == p.gens.user
                                 && Current(run.states[j].counters, TenantKey(p.who.tenant)) == p.gens.tenant)
           && (c in s.calls ==> c < s.nextCall && s.calls[c].at == RefreshValidated(p, p.gens))
    {
      j := 0;
      failed, i := Command(c, ReadUserGen(c));
      if failed { return; }
      failed, j := Command(c, ReadTenantGen(c));
    }

    /**
      A refresh: the consumed token is gone, both counters still showed its pair when read, and the
      new token carries the very same payload, whatever was bumped meanwhile. A refusal means that
      the token was not there or that one of the two values read differed.
    */
    method Refresh(token: nat) returns (r: Outcome, ghost h: nat, ghost i: nat, ghost j: nat, ghost n: nat)
      requires Valid()
      modifies this
      ensures Valid() && PrefixOf(old(run), run) && (reliable ==> !r.RedisError?)
      ensures r.NotFound? ==> |old(run).actions| < h < |run.states| && token !in run.states[h].tokens
      ensures r.SessionRevoked? || r.Issued? ==>
        && |old(run).actions| < h < i < j < |run.actions|
        && token in run.states[h].tokens && token !in run.states[h + 1].tokens
        && var p := run.states[h].tokens[token].payload;
           (Current(run.states[i].counters, UserKey(p.who.user)) == p.gens.user
            && Current(run.states[j].counters, TenantKey(p.who.tenant)) == p.gens.tenant) <==> r.Issued?
      ensures r.Issued? ==>
        && j < n < |run.actions|
        && r.token in run.states[n + 1].tokens
        && run.states[n + 1].tokens[r.token].payload == run.states[h].tokens[token].payload
    {
      var failed: bool;
      h, i, j, n := 0, 0, 0, 0;
      var c := Open(RefreshBegun(token));
      failed, h := Command(c, Consume(c));
      if failed { return RedisError, h, i, j, n; }
      if c !in s.calls { return NotFound, h, i, j, n; }
      failed, i, j := Validate(c);
      if failed { return RedisError, h, i, j, n; }
      if c !in s.calls { return SessionRevoked, h, i, j, n; }
      r, n := Store(c);
    }

    /** DEL, and how many keys it deleted; on an error it may have been carried out or not. */
    method Del(token: nat) returns (failed: bool, deleted: nat)
      requires Valid()
      modifies this
      ensures Valid() && (reliable ==> !failed)
      ensures !failed ==> run == Run(old(run).states + [s], old(run).actions + [Delete(token)])
      ensures failed ==> run == old(run) || run == Run(old(run).states + [s], old(run).actions + [Delete(token)])
      ensures !failed ==> (deleted > 0 <==> token in old(s).tokens)
      ensures !failed ==> token !in s.tokens
      ensures forall t | t in old(s).tokens && t != token :: t in s.tokens
    {
      var lost: bool;
      failed, lost := *, *;
      failed := failed && !reliable;
      deleted := if token in s.tokens then 1 else 0;
      if !failed || !lost {
        Do(Delete(token));
      }
    }

    /** Revoke: one DEL, which may fail, whether or not it was carried out. */
    method Revoke(token: nat) returns (r: Revocation, ghost err: bool)
      requires Valid()
      modifies this
      ensures Valid() && (reliable ==> !err) && (r == DelFailed <==> err)
      ensures !err ==> run == Run(old(run).states + [s], old(run).actions + [Delete(token)])
      ensures err ==> run == old(run) || run == Run(old(run).states + [s], old(run).actions + [Delete(token)])
      ensures !err ==> (r == Revoked <==> token in old(s).tokens)
      ensures !err ==> token !in s.tokens
      ensures forall t | t in old(s).tokens && t != token :: t in s.tokens
    {
      var failed, deleted := Del(token);
      err := failed;
      r := if failed then DelFailed else if deleted == 0 then NoSuchToken else Revoked;
    }

    /** RevokeAllForUser and RevokeAllForTenant: INCR, then EXPIRE at twice the token lifetime. */
    method RevokeAll(key: Key) returns (ok: bool, ghost j: nat, ghost e: nat)
      requires Valid()
      modifies this
      ensures Valid() && PrefixOf(old(run), run) && (reliable ==> ok)
      ensures ok ==>
        && |old(run).actions| < j < e < |run.actions|
        && Bumps(run.states[j], run.actions[j], key)
        && Current(run.states[j + 1].counters, key) == Current(run.states[j].counters, key) + 1
        && (Extends(run.states[e], run.actions[e], key) <==> key in run.states[e].counters)
    {
      var failed: bool;
      j, e := 0, 0;
      var c := Open(RevokeAllBegun(key));
      failed, j := Command(c, Incr(c));
      if failed { return false, j, e; }
      failed, e := Command(c, SetExpiry(c));
      ok := !failed;
    }
  }
}
