/**
  The buffered audit logger: producers, the ticker, the flush loop's select and Close, interleaved
  freely over one bounded channel.
*/
module Audit {
  datatype Config = Config(bufferSize: nat, batchSize: nat)

  datatype Event = Event(id: nat, occurredAt: nat, payload: string)

  /** One InsertBatch: what it was given, whether the store took it, and who called it. */
  datatype Flush = Flush(events: seq<Event>, ok: bool, byLoop: bool)

  datatype State = State(
    queue: seq<Event>,
    batch: seq<Event>,
    remaining: seq<Event>,
    flushes: seq<Flush>,
    accepted: seq<Event>,
    dropped: seq<Event>,
    done: bool,
    loopExited: bool,
    drained: bool)

  datatype Action =
    | Log(e: Event)
    | Receive(ok: bool)
    | TickerFires(ok: bool)
    | CloseDone
    | LoopStops(ok: bool)
    | Drain
    | DrainEnds(ok: bool)

  predicate Init(s: State) {
    s == State([], [], [], [], [], [], false, false, false)
  }

  predicate Enabled(s: State, a: Action) {
    match a
    case Log(_) => true
    case Receive(_) => !s.loopExited && s.queue != []
    case TickerFires(_) => !s.loopExited
    case CloseDone => !s.done
    case LoopStops(_) => s.done && !s.loopExited
    case Drain => s.loopExited && !s.drained && s.queue != []
    case DrainEnds(_) => s.loopExited && !s.drained && s.queue == []
  }

  function FlushBatch(s: State, ok: bool): State {
    s.(flushes := s.flushes + [Flush(s.batch, ok, true)], batch := [])
  }

  function Next(c: Config, s: State, a: Action): State
    requires Enabled(s, a)
  {
    match a
    case Log(e) =>
      if |s.queue| < c.bufferSize then s.(queue := s.queue + [e], accepted := s.accepted + [e])
      else s.(dropped := s.dropped + [e])
    case Receive(ok) =>
      var s' := s.(queue := s.queue[1..], batch := s.batch + [s.queue[0]]);
      if |s'.batch| >= c.batchSize then FlushBatch(s', ok) else s'
    case TickerFires(ok) => if s.batch != [] then FlushBatch(s, ok) else s
    case CloseDone => s.(done := true)
    case LoopStops(ok) =>
      var s' := if s.batch != [] then FlushBatch(s, ok) else s;
      s'.(loopExited := true)
    case Drain => s.(queue := s.queue[1..], remaining := s.remaining + [s.queue[0]])
    case DrainEnds(ok) =>
      var s' := if s.remaining == [] then s
                else s.(flushes := s.flushes + [Flush(s.remaining, ok, false)], remaining := []);
      s'.(drained := true)
  }

  // ----- Conservation -----

  function Flushed(fs: seq<Flush>): seq<Event> {
    if fs == [] then [] else Flushed(fs[..|fs| - 1]) + fs[|fs| - 1].events
  }

  /** What the store holds, or has refused. */
  function Kept(fs: seq<Flush>, ok: bool): seq<Event> {
    if fs == [] then []
    else
      var n := |fs| - 1;
      Kept(fs[..n], ok) + if fs[n].ok == ok then fs[n].events else []
  }

  ghost predicate Conserved(s: State) {
    s.accepted == Flushed(s.flushes) + s.batch + s.remaining + s.queue
  }

  ghost predicate Shape(c: Config, s: State) {
    && (s.batch == [] || |s.batch| < c.batchSize)
    && |s.queue| <= c.bufferSize
    && (s.loopExited ==> s.batch == [])
    && (!s.loopExited || s.drained ==> s.remaining == [])
    && forall i | 0 <= i < |s.flushes| :: s.flushes[i].byLoop ==> 0 < |s.flushes[i].events| <= c.batchSize
  }

  ghost predicate Inv(c: Config, s: State) { Conserved(s) && Shape(c, s) }

  lemma FlushKeeps(s: State, ok: bool)
    requires Conserved(s)
    ensures Conserved(FlushBatch(s, ok))
  {
  }

  lemma ReceiveKeeps(c: Config, s: State, ok: bool)
    requires Inv(c, s) && Enabled(s, Receive(ok))
    ensures Conserved(Next(c, s, Receive(ok)))
  {
  }

  lemma DrainKeeps(c: Config, s: State)
    requires Inv(c, s) && Enabled(s, Drain)
    ensures Conserved(Next(c, s, Drain))
  {
  }

  lemma DrainEndKeeps(c: Config, s: State, ok: bool)
    requires Inv(c, s) && Enabled(s, DrainEnds(ok))
    ensures Conserved(Next(c, s, DrainEnds(ok)))
  {
  }

  lemma ShapeStep(c: Config, s: State, a: Action)
    requires 0 < c.batchSize && Shape(c, s) && Enabled(s, a)
    ensures Shape(c, Next(c, s, a))
  {
  }

  lemma InvStep(c: Config, s: State, a: Action)
    requires 0 < c.batchSize && Inv(c, s) && Enabled(s, a)
    ensures Inv(c, Next(c, s, a))
  {
    ShapeStep(c, s, a);
    match a
    case Log(e) => assert Flushed(s.flushes) + s.batch + s.remaining + (s.queue + [e])
                       == Flushed(s.flushes) + s.batch + s.remaining + s.queue + [e];
    case Receive(ok) => ReceiveKeeps(c, s, ok);
    case TickerFires(ok) => FlushKeeps(s, ok);
    case CloseDone =>
    case LoopStops(ok) => FlushKeeps(s, ok);
    case Drain => DrainKeeps(c, s);
    case DrainEnds(ok) => DrainEndKeeps(c, s, ok);
  }

  function Exec(c: Config, s: State, actions: seq<Action>): State {
    if actions == [] then s
    else
      var n := |actions| - 1;
      var s' := Exec(c, s, actions[..n]);
      if Enabled(s', actions[n]) then Next(c, s', actions[n]) else s'
  }

  lemma {:induction false} ExecInv(c: Config, s: State, actions: seq<Action>)
    requires 0 < c.batchSize && Inv(c, s)
    ensures Inv(c, Exec(c, s, actions))
  {
    if actions != [] {
      var n := |actions| - 1;
      ExecInv(c, s, actions[..n]);
      if Enabled(Exec(c, s, actions[..n]), actions[n]) {
        InvStep(c, Exec(c, s, actions[..n]), actions[n]);
      }
    }
  }

  lemma {:induction false} FlushedIsKept(fs: seq<Flush>)
    ensures multiset(Flushed(fs)) == multiset(Kept(fs, true)) + multiset(Kept(fs, false))
    ensures (forall i | 0 <= i < |fs| :: fs[i].ok) ==> Kept(fs, true) == Flushed(fs)
  {
    if fs != [] {
      FlushedIsKept(fs[..|fs| - 1]);
    }
  }

  /**
    Over every interleaving, the accepted events are those stored, those in batches the store refused,
    those batched and those queued, none twice and none missing; the flushes, then the batch, then
    what Close has drained, then the queue, hold them in the order of acceptance. No flush of the
    loop exceeds the batch size.
  */
  lemma AcceptedAreAccountedFor(c: Config, s: State, actions: seq<Action>)
    requires 0 < c.batchSize && Init(s)
    ensures var t := Exec(c, s, actions);
            && t.accepted == Flushed(t.flushes) + t.batch + t.remaining + t.queue
            && multiset(t.accepted) == multiset(Kept(t.flushes, true)) + multiset(Kept(t.flushes, false))
                                       + multiset(t.batch) + multiset(t.remaining) + multiset(t.queue)
            && forall i | 0 <= i < |t.flushes| && t.flushes[i].byLoop :: |t.flushes[i].events| <= c.batchSize
  {
    ExecInv(c, s, actions);
    FlushedIsKept(Exec(c, s, actions).flushes);
  }

  /** The flush of Close is the only one not of the loop, and the last. */
  lemma {:induction false} CloseFlushesLast(c: Config, s: State, actions: seq<Action>)
    requires Init(s)
    ensures var t := Exec(c, s, actions);
            !t.drained ==> forall i | 0 <= i < |t.flushes| :: t.flushes[i].byLoop
  {
    if actions != [] {
      CloseFlushesLast(c, s, actions[..|actions| - 1]);
    }
  }

  predicate IsRound(a: Action) { a.Receive? || a.TickerFires? || a.LoopStops? }

  /** Once the loop has stopped no round of it does anything. */
  lemma {:induction false} ExitedStays(c: Config, s: State, rounds: seq<Action>, i: nat)
    requires i <= |rounds| && Exec(c, s, rounds[..i]).loopExited && forall a | a in rounds :: IsRound(a)
    ensures Exec(c, s, rounds) == Exec(c, s, rounds[..i])
    decreases |rounds|
  {
    if i == |rounds| {
      assert rounds[..i] == rounds;
    } else {
      var n := |rounds| - 1;
      assert rounds[..n][..i] == rounds[..i];
      ExitedStays(c, s, rounds[..n], i);
      assert rounds[n] in rounds;
    }
  }

  /** Once Close has drained the channel and no Log came after, every accepted event was flushed once. */
  lemma CloseLosesNothing(c: Config, s: State, actions: seq<Action>)
    requires 0 < c.batchSize && Init(s)
    requires var t := Exec(c, s, actions); t.drained && t.queue == []
    ensures var t := Exec(c, s, actions);
            && Flushed(t.flushes) == t.accepted
            && ((forall i | 0 <= i < |t.flushes| :: t.flushes[i].ok) ==> Kept(t.flushes, true) == t.accepted)
  {
    ExecInv(c, s, actions);
    DrainedStaysExited(c, s, actions);
    FlushedIsKept(Exec(c, s, actions).flushes);
  }

  lemma {:induction false} DrainedStaysExited(c: Config, s: State, actions: seq<Action>)
    requires Init(s)
    ensures Exec(c, s, actions).drained ==> Exec(c, s, actions).loopExited
  {
    if actions != [] {
      DrainedStaysExited(c, s, actions[..|actions| - 1]);
    }
  }

  // ----- The logger as it runs -----

  /**
    The logger; `buf[..n]` is the loop's reused batch slice. `history` is everything producers, loop and
    Close have done.
  */
  class Logger {
    const c: Config
    var s: State
    const buf: array<Event>
    var n: nat
    ghost var first: State
    ghost var history: seq<Action>

    ghost predicate Valid() reads this, buf {
      && 0 < c.batchSize && buf.Length == c.batchSize
      && Init(first) && s == Exec(c, first, history)
      && n == |s.batch| < buf.Length && buf[..n] == s.batch
      && (s.drained ==> s.loopExited)
    }

    constructor (config: Config)
      ensures Valid() && fresh(buf) && history == [] && !s.done && !s.loopExited && !s.drained
      ensures c.bufferSize == (if config.bufferSize == 0 then 1000 else config.bufferSize)
      ensures c.batchSize == (if config.batchSize == 0 then 100 else config.batchSize)
    {
      var size := if config.batchSize == 0 then 100 else config.batchSize;
      c := Config(if config.bufferSize == 0 then 1000 else config.bufferSize, size);
      s := State([], [], [], [], [], [], false, false, false);
      buf := new Event[size];
      n := 0;
      first := State([], [], [], [], [], [], false, false, false);
      history := [];
    }

    lemma Extends(a: Action)
      requires Valid() && Enabled(s, a)
      ensures Exec(c, first, history + [a]) == Next(c, s, a)
      ensures |Next(c, s, a).batch| < c.batchSize
    {
      assert (history + [a])[..|history|] == history;
      ExecInv(c, first, history);
      InvStep(c, s, a);
    }

    /** Only Close, after the loop, has anything drained. */
    lemma NothingDrained()
      requires Valid() && (!s.loopExited || s.drained)
      ensures s.remaining == []
    {
      ExecInv(c, first, history);
    }

    /** Never blocks: the event is queued in order, or dropped when the channel is full. */
    method Log(event: Event, newId: nat, now: nat)
      requires Valid()
      modifies this
      ensures Valid() && s.batch == old(s.batch) && old(history) <= history
      ensures s.loopExited == old(s.loopExited) && s.done == old(s.done) && s.drained == old(s.drained)
      ensures s.flushes == old(s.flushes) && s.remaining == old(s.remaining)
      ensures var e := event.(id := if event.id == 0 then newId else event.id,
                              occurredAt := if event.occurredAt == 0 then now else event.occurredAt);
              if |old(s.queue)| < c.bufferSize
              then s.queue == old(s.queue) + [e] && s.accepted == old(s.accepted) + [e]
              else s.queue == old(s.queue) && s.accepted == old(s.accepted) && s.dropped == old(s.dropped) + [e]
    {
      var e := event;
      if e.id == 0 {
        e := e.(id := newId);
      }
      if e.occurredAt == 0 {
        e := e.(occurredAt := now);
      }
      Extends(Action.Log(e));
      s := Next(c, s, Action.Log(e));
      history := history + [Action.Log(e)];
    }

    /** Any number of producers log meanwhile. */
    method Producers()
      requires Valid()
      modifies this
      ensures Valid() && s.batch == old(s.batch) && old(history) <= history
      ensures s.loopExited == old(s.loopExited) && s.done == old(s.done) && s.drained == old(s.drained)
      ensures s.flushes == old(s.flushes) && s.remaining == old(s.remaining)
    {
      var events: seq<Event> := *;
      for i := 0 to |events|
        invariant Valid() && s.batch == old(s.batch) && old(history) <= history
        invariant s.loopExited == old(s.loopExited) && s.done == old(s.done) && s.drained == old(s.drained)
        invariant s.flushes == old(s.flushes) && s.remaining == old(s.remaining)
      {
        Log(events[i], 1, 1);
      }
    }

    /** The event case of the select: append to the slice, flush it when full, reuse it. */
    method ReceiveCase(ok: bool)
      requires Valid() && Enabled(s, Receive(ok))
      modifies this, buf
      ensures Valid() && s == Next(c, old(s), Receive(ok)) && history == old(history) + [Receive(ok)]
      ensures s.queue == old(s.queue)[1..]
      ensures s.accepted == old(s.accepted) && !s.loopExited && s.done == old(s.done) && s.drained == old(s.drained)
      ensures var full := old(s.batch) + [old(s.queue)[0]];
              if |full| < c.batchSize then s.flushes == old(s.flushes) && s.batch == full
              else s.batch == [] && s.flushes == old(s.flushes) + [Flush(full, ok, true)]
    {
      Extends(Receive(ok));
      buf[n] := s.queue[0];
      n := n + 1;
      assert buf[..n] == s.batch + [s.queue[0]];
      if n >= c.batchSize {
        n := 0;
      }
      s := Next(c, s, Receive(ok));
      history := history + [Receive(ok)];
    }

    /** The ticker and done cases: flush whatever there is. */
    method FlushCase(a: Action)
      requires Valid() && Enabled(s, a) && (a.TickerFires? || a.LoopStops?)
      modifies this
      ensures Valid() && s == Next(c, old(s), a) && history == old(history) + [a]
      ensures s.queue == old(s.queue) && s.batch == []
      ensures s.accepted == old(s.accepted) && s.done == old(s.done) && s.loopExited == a.LoopStops?
      ensures s.remaining == old(s.remaining) && s.drained == old(s.drained)
      ensures s.flushes ==
              if old(s.batch) == [] then old(s.flushes) else old(s.flushes) + [Flush(old(s.batch), a.ok, true)]
    {
      Extends(a);
      n := 0;
      s := Next(c, s, a);
      history := history + [a];
    }

    /** One round of the select that comes to the given case, if it is ready. */
    method Select(a: Action)
      requires Valid() && IsRound(a)
      modifies this, buf
      ensures Valid() && s.done == old(s.done) && s.drained == old(s.drained) && s.accepted == old(s.accepted)
      ensures s.remaining == old(s.remaining)
      ensures if Enabled(old(s), a) then s == Next(c, old(s), a) && history == old(history) + [a]
              else s == old(s) && history == old(history)
      ensures s.loopExited <==> old(s).loopExited || (a.LoopStops? && old(s).done)
    {
      if Enabled(s, a) {
        if a.Receive? {
          ReceiveCase(a.ok);
        } else {
          FlushCase(a);
        }
      }
    }

    /**
      The loop, given which case each round of its select comes to (a case that is not ready does not
      come): it runs through them in order, and stops when it comes to the closed done channel.
    */
    method FlushLoop(rounds: seq<Action>, producing: bool)
      requires Valid() && !s.loopExited && forall a | a in rounds :: IsRound(a)
      modifies this, buf
      ensures Valid() && old(history) <= history && s.done == old(s.done)
      ensures s.drained == old(s.drained) && s.remaining == []
      ensures s.loopExited <==> s.done && exists a :: a in rounds && a.LoopStops?
      ensures !producing ==> s == Exec(c, old(s), rounds) && s.accepted == old(s.accepted)
    {
      NothingDrained();
      for i := 0 to |rounds|
        invariant Valid() && old(history) <= history && s.done == old(s.done) && !s.loopExited
        invariant s.drained == old(s.drained) && s.remaining == []
        invariant s.done ==> forall a | a in rounds[..i] :: !a.LoopStops?
        invariant !producing ==> s == Exec(c, old(s), rounds[..i]) && s.accepted == old(s.accepted)
      {
        if producing {
          Producers();
        }
        assert rounds[i] in rounds && rounds[..i + 1][..i] == rounds[..i];
        Select(rounds[i]);
        if s.loopExited {
          if !producing {
            ExitedStays(c, old(s), rounds, i + 1);
          }
          return;
        }
      }
      assert rounds[..|rounds|] == rounds;
    }

    /** drainChannel: what is left in the channel goes into one last flush, whose error is returned. */
    method DrainChannel() returns (err: bool)
      requires Valid() && s.loopExited && !s.drained && s.remaining == []
      modifies this
      ensures Valid() && old(history) <= history && s.drained && s.queue == []
      ensures s.accepted == old(s.accepted)
      ensures if old(s.queue) == [] then !err && s.flushes == old(s.flushes)
              else s.flushes == old(s.flushes) + [Flush(old(s.queue), !err, false)]
    {
      while s.queue != []
        invariant Valid() && old(history) <= history && s.loopExited && !s.drained
        invariant s.remaining + s.queue == old(s.queue) && s.flushes == old(s.flushes) && s.accepted == old(s.accepted)
        decreases |s.queue|
      {
        Extends(Drain);
        assert s.remaining + s.queue == s.remaining + [s.queue[0]] + s.queue[1..];
        s := Next(c, s, Drain);
        history := history + [Drain];
      }
      var ok: bool := *;
      assert s.remaining == old(s.queue);
      err := s.remaining != [] && !ok;
      Extends(DrainEnds(ok));
      s := Next(c, s, DrainEnds(ok));
      history := history + [DrainEnds(ok)];
    }

    /** Close with no concurrent Log: the loop stops sooner or later, and every accepted event is flushed once. */
    method Close(rounds: seq<Action>) returns (err: bool)
      requires forall a | a in rounds :: IsRound(a)
      requires Valid() && !s.done && !s.loopExited && !s.drained
      modifies this, buf
      ensures Valid() && old(history) <= history && s.drained && s.accepted == old(s.accepted)
      ensures Flushed(s.flushes) == s.accepted
      ensures err <==> s.flushes != [] && !s.flushes[|s.flushes| - 1].byLoop && !s.flushes[|s.flushes| - 1].ok
      ensures (forall i | 0 <= i < |s.flushes| :: s.flushes[i].ok) ==> Kept(s.flushes, true) == s.accepted
    {
      Extends(CloseDone);
      s := Next(c, s, CloseDone);
      history := history + [CloseDone];
      FlushLoop(rounds, false);
      if !s.loopExited {
        var ok: bool := *;
        FlushCase(LoopStops(ok));
      }
      assert s.remaining == [];
      CloseFlushesLast(c, first, history);
      err := DrainChannel();
      CloseLosesNothing(c, first, history);
    }
  }
}
