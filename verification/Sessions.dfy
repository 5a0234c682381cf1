/**
  The session revocation protocol of the token issuer, one action per Redis command.

  Refresh tokens carry the {user, tenant} generation pair that the login read. Revoking all
  sessions of a user or tenant increments a counter; a refresh consumes its token, reads both
  counters, compares them with the pair, and re-issues with the pair it has just validated.
  Any number of calls run concurrently, counter keys and tokens expire, and a call may fail
  between any two commands.
*/
module Sessions {
  import opened Prelude

  datatype Identity = Identity(user: nat, tenant: nat, claims: string)
  datatype Generations = Generations(user: nat, tenant: nat)
  datatype Key = UserKey(id: nat) | TenantKey(id: nat)
  datatype Counter = Counter(value: nat, deadline: Option<nat>)

  /** What Redis holds under a refresh token. `lineage` is history: the login it descends from. */
  datatype Payload = Payload(who: Identity, gens: Generations, lineage: nat)
  datatype Token = Token(payload: Payload, deadline: nat)

  /** Where a call stands: what it holds after its last command. */
  datatype Progress =
    | IssueBegun(who: Identity)
    | IssueReadUser(who: Identity, userGen: nat)
    | IssueReady(who: Identity, gens: Generations)
    | RefreshBegun(token: nat)
    | RefreshConsumed(payload: Payload)
    | RefreshReadUser(payload: Payload, userGen: nat)
    | RefreshValidated(payload: Payload, gens: Generations)
    | RevokeAllBegun(key: Key)
    | RevokeAllBumped(key: Key)

  datatype Call = Call(begun: nat, at: Progress)

  /**
    History of one counter as seen from one login, since that login read it:
    never read; unchanged; bumped at a time; bumped so that the key stays for two token
    lifetimes from that time (`gone` once it has expired after all); or expired before that.
  */
  datatype Fate = Unread | Untouched | Bumped(at: nat) | Durable(at: nat, gone: bool) | Lapsed

  /** Who last took hold of a login: a call that may still store its next token, or that token. */
  datatype Holder = ByCall(c: nat) | ByToken(t: nat)
  datatype Login = Login(who: Identity, gens: Generations, userFate: Fate, tenantFate: Fate, holder: Holder)

  datatype State = State(
    now: nat,
    counters: map<Key, Counter>,
    tokens: map<nat, Token>,
    calls: map<nat, Call>,
    logins: map<nat, Login>,
    nextCall: nat,
    issued: set<nat>)

  datatype Action =
    | Tick(d: nat)
    | Begin(start: Progress)
    | ReadUserGen(c: nat)
    | ReadTenantGen(c: nat)
    | StoreToken(c: nat, token: nat)
    | Consume(c: nat)
    | Incr(c: nat)
    | SetExpiry(c: nat)
    | Delete(token: nat)
    | Abort(c: nat)

  // ----- Steps -----

  predicate Init(s: State) {
    s.counters == map[] && s.tokens == map[] && s.calls == map[] && s.logins == map[] && s.issued == {}
  }

  /** currentGeneration: a missing key reads as zero. */
  function Current(counters: map<Key, Counter>, k: Key): nat {
    if k in counters then counters[k].value else 0
  }

  predicate Enabled(s: State, a: Action) {
    match a
    case Tick(_) => true
    case Begin(p) => p.IssueBegun? || p.RefreshBegun? || p.RevokeAllBegun?
    case ReadUserGen(c) => c in s.calls && (s.calls[c].at.IssueBegun? || s.calls[c].at.RefreshConsumed?)
    case ReadTenantGen(c) => c in s.calls && (s.calls[c].at.IssueReadUser? || s.calls[c].at.RefreshReadUser?)
    case StoreToken(c, t) =>
      c in s.calls && (s.calls[c].at.IssueReady? || s.calls[c].at.RefreshValidated?) && t !in s.issued
    case Consume(c) => c in s.calls && s.calls[c].at.RefreshBegun?
    case Incr(c) => c in s.calls && s.calls[c].at.RevokeAllBegun?
    case SetExpiry(c) => c in s.calls && s.calls[c].at.RevokeAllBumped?
    case Delete(_) => true
    case Abort(c) => c in s.calls
  }

  datatype Happening = OnBump(absent: bool, now: nat) | OnExpiry | OnEvict

  function React(f: Fate, h: Happening): Fate {
    match (f, h)
    case (Untouched, OnBump(absent, now)) => if absent then Durable(now, false) else Bumped(now)
    case (Bumped(at), OnExpiry) => Durable(at, false)
    case (Untouched, OnEvict) => Lapsed
    case (Bumped(_), OnEvict) => Lapsed
    case (Durable(at, _), OnEvict) => Durable(at, true)
    case _ => f
  }

  function Touch(l: Login, keys: set<Key>, h: Happening): Login {
    l.(userFate := if UserKey(l.who.user) in keys then React(l.userFate, h) else l.userFate,
       tenantFate := if TenantKey(l.who.tenant) in keys then React(l.tenantFate, h) else l.tenantFate)
  }

  function TouchAll(logins: map<nat, Login>, keys: set<Key>, h: Happening): map<nat, Login> {
    map l | l in logins :: Touch(logins[l], keys, h)
  }

  function Due(counters: map<Key, Counter>, now: nat): set<Key> {
    set k | k in counters && counters[k].deadline.Some? && counters[k].deadline.value <= now
  }

  function MoveTo(s: State, c: nat, p: Progress): State
    requires c in s.calls
  {
    s.(calls := s.calls[c := s.calls[c].(at := p)])
  }

  function Finish(s: State, c: nat): State {
    s.(calls := s.calls - {c})
  }

  function DoTick(s: State, d: nat): State {
    var now := s.now + d;
    var due := Due(s.counters, now);
    s.(now := now, counters := s.counters - due,
       tokens := map t | t in s.tokens && now < s.tokens[t].deadline :: s.tokens[t],
       logins := TouchAll(s.logins, due, OnEvict))
  }

  function DoReadUser(s: State, c: nat): State
    requires Enabled(s, ReadUserGen(c))
  {
    var p := s.calls[c].at;
    if p.IssueBegun? then
      var g := Current(s.counters, UserKey(p.who.user));
      MoveTo(s, c, IssueReadUser(p.who, g))
        .(logins := s.logins[c := Login(p.who, Generations(g, 0), Untouched, Unread, ByCall(c))])
    else
      MoveTo(s, c, RefreshReadUser(p.payload, Current(s.counters, UserKey(p.payload.who.user))))
  }

  /** The second read, with the compare that follows it in Refresh. */
  function DoReadTenant(s: State, c: nat): State
    requires Enabled(s, ReadTenantGen(c))
  {
    var p := s.calls[c].at;
    if p.IssueReadUser? then
      var g := Current(s.counters, TenantKey(p.who.tenant));
      var gens := Generations(p.userGen, g);
      MoveTo(s, c, IssueReady(p.who, gens)).(logins :=
        if c in s.logins then s.logins[c := s.logins[c].(gens := gens, tenantFate := Untouched)] else s.logins)
    else
      var gens := Generations(p.userGen, Current(s.counters, TenantKey(p.payload.who.tenant)));
      if p.payload.gens.user != gens.user || p.payload.gens.tenant != gens.tenant then
        Finish(s, c)
      else
        MoveTo(s, c, RefreshValidated(p.payload, gens))
  }

  function HandTo(logins: map<nat, Login>, l: nat, h: Holder): map<nat, Login> {
    if l in logins then logins[l := logins[l].(holder := h)] else logins
  }

  function DoStore(ttl: nat, s: State, c: nat, t: nat): State
    requires Enabled(s, StoreToken(c, t))
  {
    var p := s.calls[c].at;
    var payload := if p.IssueReady? then Payload(p.who, p.gens, c)
                   else Payload(p.payload.who, p.gens, p.payload.lineage);
    Finish(s, c).(tokens := s.tokens[t := Token(payload, s.now + ttl)], issued := s.issued + {t},
                  logins := HandTo(s.logins, payload.lineage, ByToken(t)))
  }

  function DoConsume(s: State, c: nat): State
    requires Enabled(s, Consume(c))
  {
    var t := s.calls[c].at.token;
    if t in s.tokens then
      MoveTo(s, c, RefreshConsumed(s.tokens[t].payload))
        .(tokens := s.tokens - {t}, logins := HandTo(s.logins, s.tokens[t].payload.lineage, ByCall(c)))
    else
      Finish(s, c)
  }

  function DoIncr(s: State, c: nat): State
    requires Enabled(s, Incr(c))
  {
    var k := s.calls[c].at.key;
    var bumped := if k in s.counters then s.counters[k].(value := s.counters[k].value + 1) else Counter(1, None);
    MoveTo(s, c, RevokeAllBumped(k))
      .(counters := s.counters[k := bumped], logins := TouchAll(s.logins, {k}, OnBump(k !in s.counters, s.now)))
  }

  function DoSetExpiry(ttl: nat, s: State, c: nat): State
    requires Enabled(s, SetExpiry(c))
  {
    var k := s.calls[c].at.key;
    if k in s.counters then
      Finish(s, c).(counters := s.counters[k := s.counters[k].(deadline := Some(s.now + 2 * ttl))],
                    logins := TouchAll(s.logins, {k}, OnExpiry))
    else
      Finish(s, c)
  }

  function Next(ttl: nat, s: State, a: Action): State
    requires Enabled(s, a)
  {
    match a
    case Tick(d) => DoTick(s, d)
    case Begin(p) => s.(calls := s.calls[s.nextCall := Call(s.now, p)], nextCall := s.nextCall + 1)
    case ReadUserGen(c) => DoReadUser(s, c)
    case ReadTenantGen(c) => DoReadTenant(s, c)
    case StoreToken(c, t) => DoStore(ttl, s, c, t)
    case Consume(c) => DoConsume(s, c)
    case Incr(c) => DoIncr(s, c)
    case SetExpiry(c) => DoSetExpiry(ttl, s, c)
    case Delete(t) => s.(tokens := s.tokens - {t})
    case Abort(c) => Finish(s, c)
  }

  /** A command of an Issue or Refresh call comes within half a token lifetime of its beginning. */
  predicate Timely(ttl: nat, s: State, a: Action) {
    match a
    case ReadUserGen(c) => c in s.calls && 2 * (s.now - s.calls[c].begun) <= ttl
    case ReadTenantGen(c) => c in s.calls && 2 * (s.now - s.calls[c].begun) <= ttl
    case StoreToken(c, _) => c in s.calls && 2 * (s.now - s.calls[c].begun) <= ttl
    case Consume(c) => c in s.calls && 2 * (s.now - s.calls[c].begun) <= ttl
    case _ => true
  }

  // ----- What every step keeps, whatever the timing -----

  predicate FateOk(ttl: nat, now: nat, counters: map<Key, Counter>, k: Key, g: nat, f: Fate) {
    match f
    case Untouched => Current(counters, k) == g
    case Bumped(at) => at <= now && g < Current(counters, k)
    case Durable(at, gone) =>
      && at <= now
      && (gone ==> at + 2 * ttl <= now)
      && (!gone ==>
            && k in counters
            && g < counters[k].value
            && (counters[k].deadline.Some? ==> at + 2 * ttl <= counters[k].deadline.value))
    case _ => true
  }

  predicate LoginOk(ttl: nat, now: nat, counters: map<Key, Counter>, l: Login) {
    && FateOk(ttl, now, counters, UserKey(l.who.user), l.gens.user, l.userFate)
    && FateOk(ttl, now, counters, TenantKey(l.who.tenant), l.gens.tenant, l.tenantFate)
    && !l.userFate.Unread?
  }

  /** The payload is the one its login wrote: same identity, same generation pair; `h` holds it. */
  predicate PayloadOk(s: State, p: Payload, h: Holder) {
    && p.lineage in s.logins
    && p.gens == s.logins[p.lineage].gens
    && p.who == s.logins[p.lineage].who
    && !s.logins[p.lineage].tenantFate.Unread?
    && s.logins[p.lineage].holder == h
  }

  predicate CallOk(s: State, c: nat, call: Call) {
    && call.begun <= s.now
    && c < s.nextCall
    && match call.at
       case IssueReadUser(who, g) =>
         && c in s.logins && s.logins[c].who == who && s.logins[c].gens.user == g
         && s.logins[c].tenantFate.Unread? && s.logins[c].holder == ByCall(c)
       case IssueReady(who, gens) => PayloadOk(s, Payload(who, gens, c), ByCall(c))
       case RefreshConsumed(payload) => PayloadOk(s, payload, ByCall(c))
       case RefreshReadUser(payload, _) => PayloadOk(s, payload, ByCall(c))
       case RefreshValidated(payload, gens) => PayloadOk(s, payload, ByCall(c)) && gens == payload.gens
       case _ => c !in s.logins
  }

  /** The login a call is about to extend, if any. */
  function Held(c: nat, p: Progress): Option<nat> {
    match p
    case IssueReadUser(_, _) => Some(c)
    case IssueReady(_, _) => Some(c)
    case RefreshConsumed(payload) => Some(payload.lineage)
    case RefreshReadUser(payload, _) => Some(payload.lineage)
    case RefreshValidated(payload, _) => Some(payload.lineage)
    case _ => None
  }

  predicate CounterOk(s: State, k: Key) {
    k in s.counters ==> s.counters[k].deadline.Some? ==> s.now < s.counters[k].deadline.value
  }

  predicate TokenOk(s: State, t: nat) {
    t in s.tokens ==>
      PayloadOk(s, s.tokens[t].payload, ByToken(t)) && s.now < s.tokens[t].deadline && t in s.issued
  }

  ghost predicate Inv(ttl: nat, s: State) {
    && (forall k :: CounterOk(s, k))
    && (forall l :: l in s.logins ==> l < s.nextCall && LoginOk(ttl, s.now, s.counters, s.logins[l]))
    && (forall t :: TokenOk(s, t))
    && (forall c :: c in s.calls ==> CallOk(s, c, s.calls[c]))
  }

  lemma CounterKept(ttl: nat, s: State, a: Action, k: Key)
    requires Enabled(s, a) && 0 < ttl && CounterOk(s, k)
    ensures CounterOk(Next(ttl, s, a), k)
  {
  }

  /** The actor's own record, where the action has one. */
  predicate ActorOk(s: State, a: Action) {
    match a
    case Tick(_) => true
    case Begin(_) => s.nextCall !in s.logins
    case Delete(_) => true
    case _ => a.c in s.calls && CallOk(s, a.c, s.calls[a.c])
  }

  lemma LoginUnderTick(ttl: nat, s: State, d: nat, w: Login)
    requires LoginOk(ttl, s.now, s.counters, w)
    ensures LoginOk(ttl, DoTick(s, d).now, DoTick(s, d).counters, Touch(w, Due(s.counters, s.now + d), OnEvict))
  {
  }

  lemma LoginUnderIncr(ttl: nat, s: State, c: nat, w: Login)
    requires Enabled(s, Incr(c)) && LoginOk(ttl, s.now, s.counters, w)
    ensures var k := s.calls[c].at.key;
            LoginOk(ttl, DoIncr(s, c).now, DoIncr(s, c).counters, Touch(w, {k}, OnBump(k !in s.counters, s.now)))
  {
  }

  lemma LoginUnderExpiry(ttl: nat, s: State, c: nat, w: Login)
    requires Enabled(s, SetExpiry(c)) && LoginOk(ttl, s.now, s.counters, w)
    ensures var k := s.calls[c].at.key;
            LoginOk(ttl, DoSetExpiry(ttl, s, c).now, DoSetExpiry(ttl, s, c).counters,
              if k in s.counters then Touch(w, {k}, OnExpiry) else w)
  {
  }

  lemma LoginKept(ttl: nat, s: State, a: Action, l: nat)
    requires Enabled(s, a) && ActorOk(s, a)
    requires l in s.logins ==> l < s.nextCall && LoginOk(ttl, s.now, s.counters, s.logins[l])
    requires l in Next(ttl, s, a).logins
    ensures var s' := Next(ttl, s, a); l < s'.nextCall && LoginOk(ttl, s'.now, s'.counters, s'.logins[l])
  {
    if a.Tick? {
      LoginUnderTick(ttl, s, a.d, s.logins[l]);
    } else if a.Incr? {
      LoginUnderIncr(ttl, s, a.c, s.logins[l]);
    } else if a.SetExpiry? {
      LoginUnderExpiry(ttl, s, a.c, s.logins[l]);
    } else {
      LoginKeptByRest(ttl, s, a, l);
    }
  }

  lemma LoginKeptByRest(ttl: nat, s: State, a: Action, l: nat)
    requires Enabled(s, a) && ActorOk(s, a) && !a.Tick? && !a.Incr? && !a.SetExpiry?
    requires l in s.logins ==> l < s.nextCall && LoginOk(ttl, s.now, s.counters, s.logins[l])
    requires l in Next(ttl, s, a).logins
    ensures var s' := Next(ttl, s, a); l < s'.nextCall && LoginOk(ttl, s'.now, s'.counters, s'.logins[l])
  {
  }

  lemma TokenKept(ttl: nat, s: State, a: Action, t: nat)
    requires Enabled(s, a) && 0 < ttl && ActorOk(s, a) && TokenOk(s, t)
    requires a.Consume? ==> TokenOk(s, s.calls[a.c].at.token)
    ensures TokenOk(Next(ttl, s, a), t)
  {
  }

  lemma CallKept(ttl: nat, s: State, a: Action, c: nat)
    requires Enabled(s, a) && ActorOk(s, a)
    requires a.Consume? ==> TokenOk(s, s.calls[a.c].at.token)
    requires c in s.calls ==> CallOk(s, c, s.calls[c])
    requires c in Next(ttl, s, a).calls
    ensures CallOk(Next(ttl, s, a), c, Next(ttl, s, a).calls[c])
  {
    var own := if a.Tick? || a.Delete? then false else if a.Begin? then c == s.nextCall else c == a.c;
    if own {
      OwnCallKept(ttl, s, a);
    } else {
      OtherCallKept(ttl, s, a, c);
    }
  }

  lemma OwnCallKept(ttl: nat, s: State, a: Action)
    requires Enabled(s, a) && ActorOk(s, a) && !a.Tick? && !a.Delete?
    requires a.Consume? ==> TokenOk(s, s.calls[a.c].at.token)
    ensures var s', c := Next(ttl, s, a), if a.Begin? then s.nextCall else a.c;
            c in s'.calls ==> CallOk(s', c, s'.calls[c])
  {
  }

  lemma OtherCallKept(ttl: nat, s: State, a: Action, c: nat)
    requires Enabled(s, a) && ActorOk(s, a)
    requires a.Consume? ==> TokenOk(s, s.calls[a.c].at.token)
    requires c in s.calls && CallOk(s, c, s.calls[c])
    requires a.Tick? || a.Delete? || (a.Begin? && c != s.nextCall) || (!a.Begin? && c != a.c)
    ensures CallOk(Next(ttl, s, a), c, s.calls[c])
  {
  }

  lemma InvStep(ttl: nat, s: State, a: Action)
    requires 0 < ttl && Inv(ttl, s) && Enabled(s, a)
    ensures ActorOk(s, a) && Inv(ttl, Next(ttl, s, a))
  {
    var s' := Next(ttl, s, a);
    forall k ensures CounterOk(s', k) { CounterKept(ttl, s, a, k); }
    forall l | l in s'.logins ensures l < s'.nextCall && LoginOk(ttl, s'.now, s'.counters, s'.logins[l]) {
      LoginKept(ttl, s, a, l);
    }
    forall t ensures TokenOk(s', t) { TokenKept(ttl, s, a, t); }
    forall c | c in s'.calls ensures CallOk(s', c, s'.calls[c]) { CallKept(ttl, s, a, c); }
  }

  // ----- What timely runs keep as well -----

  function BumpTime(f: Fate): Option<nat> {
    match f
    case Bumped(at) => Some(at)
    case Durable(at, _) => Some(at)
    case _ => None
  }

  /** The call began no later than the first bump: it holds a value read before it. */
  predicate Before(f: Fate, begun: nat) {
    BumpTime(f).Some? ==> begun <= BumpTime(f).value
  }

  /** The call began while a token stored before the bump, or within half a lifetime of it, was alive. */
  predicate Soon(ttl: nat, f: Fate, begun: nat) {
    BumpTime(f).Some? ==> 2 * begun < 2 * BumpTime(f).value + 3 * ttl
  }

  predicate TokenTimed(ttl: nat, s: State, t: nat) {
    t in s.tokens && s.tokens[t].payload.lineage in s.logins ==>
      var w, end := s.logins[s.tokens[t].payload.lineage], s.tokens[t].deadline;
      && end <= s.now + ttl
      && (BumpTime(w.userFate).Some? ==> 2 * end <= 2 * BumpTime(w.userFate).value + 3 * ttl)
      && (BumpTime(w.tenantFate).Some? ==> 2 * end <= 2 * BumpTime(w.tenantFate).value + 3 * ttl)
  }

  predicate CallTimed(ttl: nat, s: State, c: nat, call: Call) {
    var l := Held(c, call.at);
    l.Some? && l.value in s.logins ==>
      var w := s.logins[l.value];
      match call.at
      case RefreshConsumed(_) => Soon(ttl, w.userFate, call.begun) && Soon(ttl, w.tenantFate, call.begun)
      case RefreshReadUser(payload, g) =>
        (g == payload.gens.user ==> Before(w.userFate, call.begun)) && Soon(ttl, w.tenantFate, call.begun)
      case _ => Before(w.userFate, call.begun) && Before(w.tenantFate, call.begun)
  }

  ghost predicate TimedInv(ttl: nat, s: State) {
    && (forall t :: TokenTimed(ttl, s, t))
    && (forall c :: c in s.calls ==> CallTimed(ttl, s, c, s.calls[c]))
  }

  lemma StoredTokenTimed(ttl: nat, s: State, c: nat, token: nat, t: nat)
    requires Enabled(s, StoreToken(c, token)) && Timely(ttl, s, StoreToken(c, token)) && CallOk(s, c, s.calls[c])
    requires CallTimed(ttl, s, c, s.calls[c]) && TokenOk(s, t) && TokenTimed(ttl, s, t)
    ensures TokenTimed(ttl, DoStore(ttl, s, c, token), t)
  {
  }

  lemma TokenTimedKept(ttl: nat, s: State, a: Action, t: nat)
    requires Enabled(s, a) && Timely(ttl, s, a) && ActorOk(s, a) && TokenOk(s, t) && TokenTimed(ttl, s, t)
    requires a.StoreToken? ==> CallTimed(ttl, s, a.c, s.calls[a.c])
    ensures TokenTimed(ttl, Next(ttl, s, a), t)
  {
    if a.StoreToken? {
      StoredTokenTimed(ttl, s, a.c, a.token, t);
    }
  }

  lemma ReadUserTimed(ttl: nat, s: State, c: nat)
    requires Enabled(s, ReadUserGen(c)) && Timely(ttl, s, ReadUserGen(c))
    requires CallOk(s, c, s.calls[c]) && CallTimed(ttl, s, c, s.calls[c])
    requires var p := s.calls[c].at;
             p.RefreshConsumed? ==> LoginOk(ttl, s.now, s.counters, s.logins[p.payload.lineage])
    ensures var s' := DoReadUser(s, c); CallTimed(ttl, s', c, s'.calls[c])
  {
  }

  lemma ReadTenantTimed(ttl: nat, s: State, c: nat)
    requires Enabled(s, ReadTenantGen(c)) && Timely(ttl, s, ReadTenantGen(c))
    requires CallOk(s, c, s.calls[c]) && CallTimed(ttl, s, c, s.calls[c])
    requires var p := s.calls[c].at;
             p.RefreshReadUser? ==> LoginOk(ttl, s.now, s.counters, s.logins[p.payload.lineage])
    ensures var s' := DoReadTenant(s, c); c in s'.calls ==> CallTimed(ttl, s', c, s'.calls[c])
  {
  }

  lemma ConsumeTimed(ttl: nat, s: State, c: nat)
    requires Enabled(s, Consume(c)) && CallOk(s, c, s.calls[c])
    requires TokenOk(s, s.calls[c].at.token) && TokenTimed(ttl, s, s.calls[c].at.token)
    ensures var s' := DoConsume(s, c); c in s'.calls ==> CallTimed(ttl, s', c, s'.calls[c])
  {
  }

  lemma OwnCallTimedKept(ttl: nat, s: State, a: Action)
    requires Inv(ttl, s) && TimedInv(ttl, s)
    requires Enabled(s, a) && Timely(ttl, s, a) && ActorOk(s, a) && !a.Tick? && !a.Delete?
    ensures var s', c := Next(ttl, s, a), if a.Begin? then s.nextCall else a.c;
            c in s'.calls ==> CallTimed(ttl, s', c, s'.calls[c])
  {
    if a.ReadUserGen? {
      ReadUserTimed(ttl, s, a.c);
    } else if a.ReadTenantGen? {
      ReadTenantTimed(ttl, s, a.c);
    } else if a.Consume? {
      ConsumeTimed(ttl, s, a.c);
    } else {
      var c := if a.Begin? then s.nextCall else a.c;
      assert c in Next(ttl, s, a).calls ==> Held(c, Next(ttl, s, a).calls[c].at).None?;
    }
  }

  lemma OtherCallTimedKept(ttl: nat, s: State, a: Action, c: nat)
    requires 0 < ttl && Enabled(s, a) && ActorOk(s, a)
    requires a.Consume? ==> TokenOk(s, s.calls[a.c].at.token)
    requires c in s.calls && CallOk(s, c, s.calls[c]) && CallTimed(ttl, s, c, s.calls[c])
    requires a.Tick? || a.Delete? || (a.Begin? && c != s.nextCall) || (!a.Begin? && c != a.c)
    ensures CallTimed(ttl, Next(ttl, s, a), c, s.calls[c])
  {
  }

  lemma TimedInvStep(ttl: nat, s: State, a: Action)
    requires 0 < ttl && Inv(ttl, s) && TimedInv(ttl, s) && Enabled(s, a) && Timely(ttl, s, a)
    ensures TimedInv(ttl, Next(ttl, s, a))
  {
    InvStep(ttl, s, a);
    var s' := Next(ttl, s, a);
    forall t ensures TokenTimed(ttl, s', t) { TokenTimedKept(ttl, s, a, t); }
    forall c | c in s'.calls ensures CallTimed(ttl, s', c, s'.calls[c]) {
      var own := if a.Tick? || a.Delete? then false else if a.Begin? then c == s.nextCall else c == a.c;
      if own {
        OwnCallTimedKept(ttl, s, a);
      } else {
        OtherCallTimedKept(ttl, s, a, c);
      }
    }
  }

  // ----- Runs -----

  type Trace = Run<State, Action>

  ghost predicate StepAt(ttl: nat, r: Trace, i: nat)
    requires |r.states| == |r.actions| + 1 && i < |r.actions|
  {
    Enabled(r.states[i], r.actions[i]) && r.states[i + 1] == Next(ttl, r.states[i], r.actions[i])
  }

  ghost predicate IsRun(ttl: nat, r: Trace) {
    && 0 < ttl
    && |r.states| == |r.actions| + 1
    && Init(r.states[0])
    && forall i: nat | i < |r.actions| :: StepAt(ttl, r, i)
  }

  ghost predicate IsTimely(ttl: nat, r: Trace)
    requires |r.states| == |r.actions| + 1
  {
    forall i | 0 <= i < |r.actions| :: Timely(ttl, r.states[i], r.actions[i])
  }

  lemma {:induction false} RunInv(ttl: nat, r: Trace, n: nat)
    requires IsRun(ttl, r) && n < |r.states|
    ensures Inv(ttl, r.states[n])
    ensures IsTimely(ttl, r) ==> TimedInv(ttl, r.states[n])
  {
    if n > 0 {
      RunInv(ttl, r, n - 1);
      var s, a := r.states[n - 1], r.actions[n - 1];
      assert StepAt(ttl, r, n - 1);
      InvStep(ttl, s, a);
      if IsTimely(ttl, r) {
        assert Timely(ttl, s, a);
        TimedInvStep(ttl, s, a);
      }
    }
  }

  /** Every live token carries the pair its login read, and no login has two live tokens. */
  lemma LineageTheorem(ttl: nat, r: Trace, n: nat, t: nat)
    requires IsRun(ttl, r) && n < |r.states| && t in r.states[n].tokens
    ensures var s := r.states[n];
            var p := s.tokens[t].payload;
            && p.lineage in s.logins && p.gens == s.logins[p.lineage].gens && p.who == s.logins[p.lineage].who
            && (forall u | u in s.tokens :: s.tokens[u].payload.lineage == p.lineage ==> u == t)
            && (forall c | c in s.calls :: Held(c, s.calls[c].at) != Some(p.lineage))
  {
    RunInv(ttl, r, n);
    var s := r.states[n];
    assert TokenOk(s, t);
    forall u | u in s.tokens ensures s.tokens[u].payload.lineage == s.tokens[t].payload.lineage ==> u == t {
      assert TokenOk(s, u);
    }
    forall c | c in s.calls ensures Held(c, s.calls[c].at) != Some(s.tokens[t].payload.lineage) {
      assert CallOk(s, c, s.calls[c]);
    }
  }

  // ----- What ends a token, a call or a counter -----

  /** The action takes token t: a consume of it, its deletion, or the passing of its deadline. */
  predicate Takes(s: State, a: Action, t: nat) {
    || (a.Consume? && a.c in s.calls && s.calls[a.c].at == RefreshBegun(t))
    || a == Delete(t)
    || (a.Tick? && t in s.tokens && s.tokens[t].deadline <= s.now + a.d)
  }

  /** A live token stays as it is until it is consumed, deleted or reaches its deadline, and no longer. */
  lemma TokenStaysUntilTaken(ttl: nat, s: State, a: Action, t: nat)
    requires Enabled(s, a) && t in s.tokens && t in s.issued
    ensures t in Next(ttl, s, a).tokens <==> !Takes(s, a, t)
    ensures t in Next(ttl, s, a).tokens ==> Next(ttl, s, a).tokens[t] == s.tokens[t]
  {
  }

  /** A token appears only by a store, lives one token lifetime from it, and carries what the call holds. */
  lemma TokenAppears(ttl: nat, s: State, a: Action, t: nat)
    requires Enabled(s, a) && t !in s.tokens && t in Next(ttl, s, a).tokens
    ensures a.StoreToken? && a.token == t && t !in s.issued && a.c in s.calls && a.c !in Next(ttl, s, a).calls
    ensures var token, p := Next(ttl, s, a).tokens[t], s.calls[a.c].at;
            && token.deadline == s.now + ttl
            && (p.IssueReady? ==> token.payload == Payload(p.who, p.gens, a.c))
            && (p.RefreshValidated? ==> token.payload == Payload(p.payload.who, p.gens, p.payload.lineage))
            && (p.IssueReady? || p.RefreshValidated?)
  {
  }

  /** A counter's key goes only at its deadline, and its deadline moves only by its own EXPIRE, to two lifetimes on. */
  lemma CounterKeyStep(ttl: nat, s: State, a: Action, k: Key)
    requires Enabled(s, a) && k in s.counters
    ensures k in Next(ttl, s, a).counters <==> !Evicts(s, a, k)
    ensures k in Next(ttl, s, a).counters ==>
              Next(ttl, s, a).counters[k].deadline
              == if Extends(s, a, k) then Some(s.now + 2 * ttl) else s.counters[k].deadline
  {
  }

  /** A call that reads, compares and stores goes through its commands in their order, one at a time. */
  predicate NextStage(p: Progress, q: Progress) {
    match (p, q)
    case (IssueBegun(w), IssueReadUser(v, _)) => v == w
    case (IssueReadUser(w, u), IssueReady(v, gens)) => v == w && gens.user == u
    case (RefreshBegun(_), RefreshConsumed(_)) => true
    case (RefreshConsumed(x), RefreshReadUser(y, _)) => y == x
    case (RefreshReadUser(x, u), RefreshValidated(y, gens)) => y == x && gens == x.gens && u == gens.user
    case (RevokeAllBegun(k), RevokeAllBumped(j)) => j == k
    case _ => false
  }

  /** Calls are opened at their beginning, and move on only by a command of their own. */
  lemma CallStep(ttl: nat, s: State, a: Action, c: nat)
    requires Enabled(s, a) && c in Next(ttl, s, a).calls && (c in s.calls ==> c < s.nextCall)
    ensures var at := Next(ttl, s, a).calls[c].at;
            if c !in s.calls then a == Begin(at) && c == s.nextCall
            else at == s.calls[c].at || NextStage(s.calls[c].at, at)
  {
  }

  // ----- Revocation over whole runs -----

  predicate KeyOf(w: Login, k: Key) { k == UserKey(w.who.user) || k == TenantKey(w.who.tenant) }
  function FateOf(w: Login, k: Key): Fate { if k.UserKey? then w.userFate else w.tenantFate }
  function GenOf(gens: Generations, k: Key): nat { if k.UserKey? then gens.user else gens.tenant }

  /** The action is the read of counter k by the login l. */
  predicate IssueReads(s: State, a: Action, l: nat, k: Key) {
    l in s.calls &&
    var p := s.calls[l].at;
    || (a == ReadUserGen(l) && p.IssueBegun? && k == UserKey(p.who.user))
    || (a == ReadTenantGen(l) && p.IssueReadUser? && k == TenantKey(p.who.tenant))
  }

  /** The action is the read of counter k that Refresh call c, holding a token of login l, compares. */
  predicate RefreshReads(s: State, a: Action, c: nat, l: nat, k: Key) {
    c in s.calls &&
    var p := s.calls[c].at;
    || (a == ReadUserGen(c) && p.RefreshConsumed? && p.payload.lineage == l && k == UserKey(p.payload.who.user))
    || (a == ReadTenantGen(c) && p.RefreshReadUser? && p.payload.lineage == l && k == TenantKey(p.payload.who.tenant))
  }

  predicate Bumps(s: State, a: Action, k: Key) {
    a.Incr? && a.c in s.calls && s.calls[a.c].at.RevokeAllBegun? && s.calls[a.c].at.key == k
  }

  predicate Extends(s: State, a: Action, k: Key) {
    a.SetExpiry? && a.c in s.calls && s.calls[a.c].at.RevokeAllBumped? && s.calls[a.c].at.key == k && k in s.counters
  }

  predicate Evicts(s: State, a: Action, k: Key) {
    a.Tick? && k in Due(s.counters, s.now + a.d)
  }

  function Reacted(s: State, a: Action, k: Key, f: Fate): Fate {
    if Bumps(s, a, k) then React(f, OnBump(k !in s.counters, s.now))
    else if Extends(s, a, k) then React(f, OnExpiry)
    else if Evicts(s, a, k) then React(f, OnEvict)
    else f
  }

  lemma IssueReadStep(ttl: nat, s: State, a: Action, l: nat, k: Key)
    requires Enabled(s, a) && ActorOk(s, a) && IssueReads(s, a, l, k)
    ensures var s' := Next(ttl, s, a);
            && l in s'.logins && KeyOf(s'.logins[l], k) && FateOf(s'.logins[l], k) == Untouched
            && GenOf(s'.logins[l].gens, k) == Current(s.counters, k)
  {
  }

  lemma FateStep(ttl: nat, s: State, a: Action, l: nat, k: Key)
    requires Enabled(s, a) && ActorOk(s, a)
    requires l in s.logins && KeyOf(s.logins[l], k) && !FateOf(s.logins[l], k).Unread?
    ensures var s' := Next(ttl, s, a);
            && l in s'.logins && KeyOf(s'.logins[l], k)
            && GenOf(s'.logins[l].gens, k) == GenOf(s.logins[l].gens, k)
            && FateOf(s'.logins[l], k) == Reacted(s, a, k, FateOf(s.logins[l], k))
  {
  }

  lemma FateAt(ttl: nat, r: Trace, n: nat, l: nat, k: Key)
    requires IsRun(ttl, r) && n < |r.actions|
    requires l in r.states[n].logins && KeyOf(r.states[n].logins[l], k) && !FateOf(r.states[n].logins[l], k).Unread?
    ensures l in r.states[n + 1].logins && KeyOf(r.states[n + 1].logins[l], k)
    ensures GenOf(r.states[n + 1].logins[l].gens, k) == GenOf(r.states[n].logins[l].gens, k)
    ensures FateOf(r.states[n + 1].logins[l], k)
         == Reacted(r.states[n], r.actions[n], k, FateOf(r.states[n].logins[l], k))
  {
    RunInv(ttl, r, n);
    assert StepAt(ttl, r, n);
    InvStep(ttl, r.states[n], r.actions[n]);
    FateStep(ttl, r.states[n], r.actions[n], l, k);
  }

  lemma ReadAt(ttl: nat, r: Trace, n: nat, l: nat, k: Key)
    requires IsRun(ttl, r) && n < |r.actions| && IssueReads(r.states[n], r.actions[n], l, k)
    ensures l in r.states[n + 1].logins && KeyOf(r.states[n + 1].logins[l], k)
    ensures GenOf(r.states[n + 1].logins[l].gens, k) == Current(r.states[n].counters, k)
    ensures FateOf(r.states[n + 1].logins[l], k) == Untouched
  {
    RunInv(ttl, r, n);
    assert StepAt(ttl, r, n);
    InvStep(ttl, r.states[n], r.actions[n]);
    IssueReadStep(ttl, r.states[n], r.actions[n], l, k);
  }

  /** From the login's read on, its record keeps the value read, and its fate follows the counter. */
  lemma {:induction false} FateAfterRead(ttl: nat, r: Trace, i: nat, n: nat, l: nat, k: Key)
    requires IsRun(ttl, r) && i < n < |r.states| && IssueReads(r.states[i], r.actions[i], l, k)
    ensures l in r.states[n].logins && KeyOf(r.states[n].logins[l], k)
    ensures GenOf(r.states[n].logins[l].gens, k) == Current(r.states[i].counters, k)
    ensures !FateOf(r.states[n].logins[l], k).Unread?
  {
    if i + 1 == n {
      ReadAt(ttl, r, i, l, k);
    } else {
      FateAfterRead(ttl, r, i, n - 1, l, k);
      FateAt(ttl, r, n - 1, l, k);
    }
  }

  predicate Standing(f: Fate) { f.Untouched? || f.Bumped? || (f.Durable? && !f.gone) }

  /** While the key never expired since the login's read, the counter records every bump since then. */
  lemma {:induction false} StandingUntilEviction(ttl: nat, r: Trace, i: nat, n: nat, l: nat, k: Key)
    requires IsRun(ttl, r) && i < n < |r.states| && IssueReads(r.states[i], r.actions[i], l, k)
    requires forall m | i < m < n :: !Evicts(r.states[m], r.actions[m], k)
    ensures l in r.states[n].logins && Standing(FateOf(r.states[n].logins[l], k))
    ensures forall j | i < j < n && Bumps(r.states[j], r.actions[j], k) ::
              FateOf(r.states[n].logins[l], k) != Untouched
  {
    if i + 1 == n {
      ReadAt(ttl, r, i, l, k);
    } else {
      StandingUntilEviction(ttl, r, i, n - 1, l, k);
      FateAfterRead(ttl, r, i, n - 1, l, k);
      FateAt(ttl, r, n - 1, l, k);
      assert !Evicts(r.states[n - 1], r.actions[n - 1], k);
    }
  }

  lemma {:induction false} UntouchedUntilBump(ttl: nat, r: Trace, i: nat, n: nat, l: nat, k: Key)
    requires IsRun(ttl, r) && i < n < |r.states| && IssueReads(r.states[i], r.actions[i], l, k)
    requires forall m | i < m < n :: !Evicts(r.states[m], r.actions[m], k) && !Bumps(r.states[m], r.actions[m], k)
    ensures l in r.states[n].logins && FateOf(r.states[n].logins[l], k) == Untouched
  {
    if i + 1 == n {
      ReadAt(ttl, r, i, l, k);
    } else {
      UntouchedUntilBump(ttl, r, i, n - 1, l, k);
      FateAfterRead(ttl, r, i, n - 1, l, k);
      FateAt(ttl, r, n - 1, l, k);
      assert !Evicts(r.states[n - 1], r.actions[n - 1], k) && !Bumps(r.states[n - 1], r.actions[n - 1], k);
    }
  }

  /**
    As long as the key has not expired since the login read it, a later read shows the login's value
    exactly if the counter was not bumped in between: no session is kept by accident, none refused.
  */
  lemma ReadMatchesIffNotBumped(ttl: nat, r: Trace, i: nat, n: nat, l: nat, k: Key)
    requires IsRun(ttl, r) && i < n < |r.states| && IssueReads(r.states[i], r.actions[i], l, k)
    requires forall m | i < m < n :: !Evicts(r.states[m], r.actions[m], k)
    ensures Current(r.states[n].counters, k) == Current(r.states[i].counters, k)
        <==> forall m | i < m < n :: !Bumps(r.states[m], r.actions[m], k)
  {
    RunInv(ttl, r, n);
    FateAfterRead(ttl, r, i, n, l, k);
    StandingUntilEviction(ttl, r, i, n, l, k);
    if forall m | i < m < n :: !Bumps(r.states[m], r.actions[m], k) {
      UntouchedUntilBump(ttl, r, i, n, l, k);
    }
    assert LoginOk(ttl, r.states[n].now, r.states[n].counters, r.states[n].logins[l]);
  }

  lemma {:induction false} DurableForever(ttl: nat, r: Trace, i: nat, m: nat, n: nat, l: nat, k: Key)
    requires IsRun(ttl, r) && i < m <= n < |r.states| && IssueReads(r.states[i], r.actions[i], l, k)
    requires l in r.states[m].logins && FateOf(r.states[m].logins[l], k).Durable?
    ensures l in r.states[n].logins && FateOf(r.states[n].logins[l], k).Durable?
  {
    if m < n {
      DurableForever(ttl, r, i, m, n - 1, l, k);
      FateAfterRead(ttl, r, i, n - 1, l, k);
      FateAt(ttl, r, n - 1, l, k);
    }
  }

  /** The call is over, or has read a user generation other than its token's and can only be refused. */
  predicate Doomed(s: State, c: nat) {
    c < s.nextCall &&
    (c in s.calls ==> s.calls[c].at.RefreshReadUser? && s.calls[c].at.userGen != s.calls[c].at.payload.gens.user)
  }

  lemma DoomedStep(ttl: nat, s: State, a: Action, c: nat)
    requires Enabled(s, a) && Doomed(s, c)
    ensures Doomed(Next(ttl, s, a), c)
  {
  }

  lemma {:induction false} DoomedForever(ttl: nat, r: Trace, m: nat, n: nat, c: nat)
    requires IsRun(ttl, r) && m <= n < |r.states| && Doomed(r.states[m], c)
    ensures Doomed(r.states[n], c)
  {
    if m < n {
      DoomedForever(ttl, r, m, n - 1, c);
      assert StepAt(ttl, r, n - 1);
      DoomedStep(ttl, r.states[n - 1], r.actions[n - 1], c);
    }
  }

  /** The Refresh call c does not succeed at or after step k. */
  ghost predicate NeverSucceeds(r: Trace, k: nat, c: nat) {
    forall n | k < n < |r.states| :: c in r.states[n].calls ==> !r.states[n].calls[c].at.RefreshValidated?
  }

  lemma StaleReadIsRefused(ttl: nat, r: Trace, k: nat, c: nat, l: nat, key: Key)
    requires IsRun(ttl, r) && k < |r.actions| && RefreshReads(r.states[k], r.actions[k], c, l, key)
    requires l in r.states[k].logins
    requires Current(r.states[k].counters, key) != GenOf(r.states[k].logins[l].gens, key)
    ensures NeverSucceeds(r, k, c)
  {
    RunInv(ttl, r, k);
    var s, a := r.states[k], r.actions[k];
    assert CallOk(s, c, s.calls[c]);
    assert StepAt(ttl, r, k);
    assert Doomed(r.states[k + 1], c);
    forall n | k < n < |r.states| ensures c in r.states[n].calls ==> !r.states[n].calls[c].at.RefreshValidated? {
      DoomedForever(ttl, r, k + 1, n, c);
    }
  }

  /**
    Over every interleaving: a Refresh whose compare-read of a counter follows a bump of it never
    succeeds for a login that read that counter before the bump, as long as the key did not expire
    in between.
  */
  lemma RevokedWhileKept(ttl: nat, r: Trace, i: nat, j: nat, k: nat, l: nat, c: nat, key: Key)
    requires IsRun(ttl, r) && i < j < k < |r.actions|
    requires IssueReads(r.states[i], r.actions[i], l, key)
    requires Bumps(r.states[j], r.actions[j], key)
    requires RefreshReads(r.states[k], r.actions[k], c, l, key)
    requires forall m | i < m < k :: !Evicts(r.states[m], r.actions[m], key)
    ensures NeverSucceeds(r, k, c)
  {
    FateAfterRead(ttl, r, i, k, l, key);
    StandingUntilEviction(ttl, r, i, k, l, key);
    RunInv(ttl, r, k);
    StaleReadIsRefused(ttl, r, k, c, l, key);
  }

  /**
    If every Issue and Refresh call keeps within half a token lifetime, a bump holds for ever, even
    after the counter key has expired: it is enough that the key had not expired between the login's
    read and the bump, and that the bump either created the key or was followed by its EXPIRE. The
    module Revocation says exactly when a bump is seen.
  */
  lemma RevokedForGood(ttl: nat, r: Trace, i: nat, j: nat, e: nat, k: nat, l: nat, c: nat, key: Key)
    requires IsRun(ttl, r) && IsTimely(ttl, r) && i < j <= e < k < |r.actions|
    requires IssueReads(r.states[i], r.actions[i], l, key)
    requires Bumps(r.states[j], r.actions[j], key)
    requires forall m | i < m <= e :: !Evicts(r.states[m], r.actions[m], key)
    requires if j == e then key !in r.states[j].counters else Extends(r.states[e], r.actions[e], key)
    requires RefreshReads(r.states[k], r.actions[k], c, l, key)
    ensures NeverSucceeds(r, k, c)
  {
    StandingUntilEviction(ttl, r, i, e, l, key);
    FateAfterRead(ttl, r, i, e, l, key);
    FateAt(ttl, r, e, l, key);
    RunInv(ttl, r, e);
    DurableForever(ttl, r, i, e + 1, k, l, key);
    FateAfterRead(ttl, r, i, k, l, key);
    RunInv(ttl, r, k);
    RefreshReadsSoon(ttl, r.states[k], r.actions[k], c, l, key);
    StaleReadIsRefused(ttl, r, k, c, l, key);
  }

  lemma RefreshReadsSoon(ttl: nat, s: State, a: Action, c: nat, l: nat, k: Key)
    requires Inv(ttl, s) && TimedInv(ttl, s) && Timely(ttl, s, a) && RefreshReads(s, a, c, l, k)
    requires l in s.logins && FateOf(s.logins[l], k).Durable?
    ensures GenOf(s.logins[l].gens, k) < Current(s.counters, k)
  {
  }

  /** The first bump of a never-set counter revokes every earlier login for good. */
  lemma FirstBumpRevokesForGood(ttl: nat, r: Trace, i: nat, j: nat, k: nat, l: nat, c: nat, key: Key)
    requires IsRun(ttl, r) && IsTimely(ttl, r) && i < j < k < |r.actions|
    requires IssueReads(r.states[i], r.actions[i], l, key)
    requires forall m | 0 <= m <= j :: key !in r.states[m].counters
    requires Bumps(r.states[j], r.actions[j], key)
    requires RefreshReads(r.states[k], r.actions[k], c, l, key)
    ensures NeverSucceeds(r, k, c)
  {
    RevokedForGood(ttl, r, i, j, j, k, l, c, key);
  }

  // ----- Where a token's generation pair comes from -----

  lemma {:induction false} LoginBeganWithRead(ttl: nat, r: Trace, n: nat, l: nat) returns (i: nat)
    requires IsRun(ttl, r) && n < |r.states| && l in r.states[n].logins
    ensures i < n && IssueReads(r.states[i], r.actions[i], l, UserKey(r.states[n].logins[l].who.user))
  {
    RunInv(ttl, r, n - 1);
    assert StepAt(ttl, r, n - 1);
    InvStep(ttl, r.states[n - 1], r.actions[n - 1]);
    LoginStep(ttl, r.states[n - 1], r.actions[n - 1], l);
    if l in r.states[n - 1].logins {
      i := LoginBeganWithRead(ttl, r, n - 1, l);
    } else {
      i := n - 1;
    }
  }

  lemma {:induction false} LoginReadTenant(ttl: nat, r: Trace, n: nat, l: nat) returns (i: nat)
    requires IsRun(ttl, r) && n < |r.states| && l in r.states[n].logins && !r.states[n].logins[l].tenantFate.Unread?
    ensures i < n && IssueReads(r.states[i], r.actions[i], l, TenantKey(r.states[n].logins[l].who.tenant))
  {
    RunInv(ttl, r, n - 1);
    assert StepAt(ttl, r, n - 1);
    InvStep(ttl, r.states[n - 1], r.actions[n - 1]);
    LoginStep(ttl, r.states[n - 1], r.actions[n - 1], l);
    if l in r.states[n - 1].logins && !r.states[n - 1].logins[l].tenantFate.Unread? {
      i := LoginReadTenant(ttl, r, n - 1, l);
    } else {
      i := n - 1;
    }
  }

  lemma LoginStep(ttl: nat, s: State, a: Action, l: nat)
    requires Enabled(s, a) && ActorOk(s, a) && l in Next(ttl, s, a).logins
    ensures var w := Next(ttl, s, a).logins[l];
            if l in s.logins then
              && w.who == s.logins[l].who
              && (!w.tenantFate.Unread? && s.logins[l].tenantFate.Unread? ==>
                  IssueReads(s, a, l, TenantKey(w.who.tenant)))
            else
              IssueReads(s, a, l, UserKey(w.who.user)) && w.tenantFate.Unread?
  {
  }

  /**
    Every refresh token of every reachable state carries exactly the two counter values that the
    login its lineage began with read, however often it has been refreshed since.
  */
  lemma TokenCarriesItsLogin(ttl: nat, r: Trace, n: nat, t: nat) returns (i: nat, j: nat)
    requires IsRun(ttl, r) && n < |r.states| && t in r.states[n].tokens
    ensures var p := r.states[n].tokens[t].payload;
            && i < n && IssueReads(r.states[i], r.actions[i], p.lineage, UserKey(p.who.user))
            && j < n && IssueReads(r.states[j], r.actions[j], p.lineage, TenantKey(p.who.tenant))
            && p.gens == Generations(Current(r.states[i].counters, UserKey(p.who.user)),
                                     Current(r.states[j].counters, TenantKey(p.who.tenant)))
  {
    LineageTheorem(ttl, r, n, t);
    RunInv(ttl, r, n);
    var p := r.states[n].tokens[t].payload;
    assert TokenOk(r.states[n], t);
    i := LoginBeganWithRead(ttl, r, n, p.lineage);
    j := LoginReadTenant(ttl, r, n, p.lineage);
    FateAfterRead(ttl, r, i, n, p.lineage, UserKey(p.who.user));
    FateAfterRead(ttl, r, j, n, p.lineage, TenantKey(p.who.tenant));
  }

  // ----- The calls as the issuer runs them -----

  lemma ExtendRun(ttl: nat, r: Trace, a: Action)
    requires IsRun(ttl, r) && Enabled(r.states[|r.actions|], a)
    ensures IsRun(ttl, Run(r.states + [Next(ttl, r.states[|r.actions|], a)], r.actions + [a]))
  {
    var r' := Run(r.states + [Next(ttl, r.states[|r.actions|], a)], r.actions + [a]);
    forall i: nat | i < |r'.actions| ensures StepAt(ttl, r', i) {
      if i < |r.actions| {
        assert StepAt(ttl, r, i);
      }
    }
  }
}
