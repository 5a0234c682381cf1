/**
  The phase-transition validator: a three-colour depth-first search with early exit, and what a
  configuration it admits guarantees to the services that later walk it.
*/
module PhaseGraph {
  import opened Prelude

  datatype Phase = Phase(id: string, transitions: seq<string>)

  datatype ValidationError =
    | UnknownPhase(phase: string, target: string)
    | NoTerminalState
    | TransitionCycle
    | DuplicateId(id: string)

  /** The adjacency map: its keys are the known IDs; of duplicate IDs the last one counts. */
  type Graph = map<string, seq<string>>

  function AdjacencyOf(phases: seq<Phase>): Graph {
    if phases == [] then map[]
    else var p := phases[|phases| - 1]; AdjacencyOf(phases[..|phases| - 1])[p.id := p.transitions]
  }

  predicate Edge(g: Graph, u: string, v: string) {
    u in g && v in g && v in g[u]
  }

  ghost predicate IsWalk(g: Graph, w: seq<string>) {
    |w| > 0 && w[0] in g && forall i | 0 <= i < |w| - 1 :: Edge(g, w[i], w[i + 1])
  }

  ghost predicate IsCycle(g: Graph, w: seq<string>) {
    IsWalk(g, w) && |w| > 1 && w[0] == w[|w| - 1]
  }

  ghost predicate HasCycle(g: Graph) {
    exists w :: IsCycle(g, w)
  }

  // ----- Finishing order: the certificate that there is no cycle -----

  /** Every edge of a listed node leads to a node listed before it. */
  ghost predicate Closed(g: Graph, order: seq<string>) {
    forall i, v | 0 <= i < |order| && Edge(g, order[i], v) :: v in order[..i]
  }

  function Rank(order: seq<string>, v: string): (r: nat)
    requires v in order
    ensures r < |order| && order[r] == v && v !in order[..r]
  {
    if order[0] == v then 0 else 1 + Rank(order[1..], v)
  }

  lemma {:induction false} WalkDescends(g: Graph, order: seq<string>, w: seq<string>)
    requires Closed(g, order) && IsWalk(g, w) && w[0] in order
    ensures w[|w| - 1] in order && Rank(order, w[|w| - 1]) + |w| - 1 <= Rank(order, w[0])
  {
    if |w| > 1 {
      assert Edge(g, w[0], w[1]);
      var r := Rank(order, w[0]);
      assert w[1] in order[..r];
      var k :| 0 <= k < r && order[k] == w[1];
      assert Rank(order, w[1]) <= k;
      assert forall i | 0 <= i < |w[1..]| - 1 :: Edge(g, w[1..][i], w[1..][i + 1]) by {
        forall i | 0 <= i < |w[1..]| - 1 ensures Edge(g, w[1..][i], w[1..][i + 1]) {
          assert Edge(g, w[i + 1], w[i + 2]);
        }
      }
      WalkDescends(g, order, w[1..]);
    }
  }

  lemma ClosedOrderHasNoCycle(g: Graph, order: seq<string>)
    requires Closed(g, order) && forall v | v in g :: v in order
    ensures !HasCycle(g)
  {
    forall w | IsCycle(g, w) ensures false {
      WalkDescends(g, order, w);
    }
  }

  lemma ClosedAppend(g: Graph, order: seq<string>, u: string)
    requires Closed(g, order) && forall v | Edge(g, u, v) :: v in order
    ensures Closed(g, order + [u])
  {
    forall i, v | 0 <= i < |order + [u]| && Edge(g, (order + [u])[i], v) ensures v in (order + [u])[..i] {
      if i < |order| {
        assert (order + [u])[..i] == order[..i];
      } else {
        assert (order + [u])[..i] == order;
      }
    }
  }

  // ----- The search -----

  datatype Color = White | Gray | Black

  class CycleSearch {
    const adj: Graph
    var color: map<string, Color>
    var hasCycle: bool
    ghost var stack: seq<string>
    ghost var order: seq<string>

    ghost predicate Valid() reads this {
      && color.Keys == adj.Keys
      && (hasCycle ==> HasCycle(adj))
      && (!hasCycle ==>
            && (forall v | v in adj :: color[v] == Gray <==> v in stack)
            && (forall v | v in adj :: color[v] == Black <==> v in order)
            && (forall i | 0 <= i < |stack| - 1 :: Edge(adj, stack[i], stack[i + 1]))
            && (forall v | v in stack :: v in adj)
            && Closed(adj, order))
    }

    ghost function Whites(): set<string> reads this {
      set v | v in color && color[v] == White
    }

    constructor (g: Graph)
      ensures Valid() && adj == g && !hasCycle && stack == [] && order == []
      ensures forall v | v in g :: color[v] == White
    {
      adj := g;
      color := map v | v in g :: White;
      hasCycle := false;
      stack, order := [], [];
    }

    lemma BackEdgeClosesCycle(next: string)
      requires Valid() && !hasCycle && stack != [] && next in stack && Edge(adj, stack[|stack| - 1], next)
      ensures HasCycle(adj)
    {
      var p :| 0 <= p < |stack| && stack[p] == next;
      var w := stack[p..] + [next];
      forall i | 0 <= i < |w| - 1 ensures Edge(adj, w[i], w[i + 1]) {
        if p + i < |stack| - 1 {
          assert Edge(adj, stack[p + i], stack[p + i + 1]);
        }
      }
      assert IsCycle(adj, w);
    }

    /** color[node] = gray */
    method Enter(node: string)
      requires Valid() && node in adj && !hasCycle && color[node] == White
      requires stack != [] ==> Edge(adj, stack[|stack| - 1], node)
      modifies this`color, this`stack
      ensures Valid() && stack == old(stack) + [node] && Whites() == old(Whites()) - {node}
    {
      color := color[node := Gray];
      stack := stack + [node];
    }

    /** color[node] = black */
    method Leave(node: string)
      requires Valid() && node in adj
      requires !hasCycle ==>
                 && stack != [] && stack[|stack| - 1] == node && node !in stack[..|stack| - 1]
                 && forall v | Edge(adj, node, v) :: v in order
      modifies this`color, this`stack, this`order
      ensures Valid() && Whites() <= old(Whites())
      ensures !hasCycle ==>
        color[node] == Black && stack == old(stack)[..|old(stack)| - 1] && order == old(order) + [node]
    {
      color := color[node := Black];
      if !hasCycle {
        ClosedAppend(adj, order, node);
        stack := stack[..|stack| - 1];
        order := order + [node];
      }
    }

    method Dfs(node: string)
      requires Valid() && node in adj
      requires !hasCycle ==> color[node] == White && (stack != [] ==> Edge(adj, stack[|stack| - 1], node))
      modifies this`color, this`hasCycle, this`stack, this`order
      ensures Valid() && Whites() <= old(Whites())
      ensures old(hasCycle) ==> hasCycle
      ensures !hasCycle ==> color[node] == Black && stack == old(stack) && old(order) <= order
      decreases Whites()
    {
      if hasCycle {
        return;
      }
      assert node !in stack;
      Enter(node);
      for k := 0 to |adj[node]|
        invariant Valid() && Whites() <= old(Whites()) - {node}
        invariant !hasCycle ==> stack == old(stack) + [node] && old(order) <= order
        invariant !hasCycle ==> forall m | 0 <= m < k && adj[node][m] in adj :: adj[node][m] in order
      {
        var next := adj[node][k];
        if next !in adj {
          continue;
        }
        match color[next]
        case Gray =>
          if !hasCycle {
            BackEdgeClosesCycle(next);
          }
          hasCycle := true;
          return;
        case White =>
          Dfs(next);
        case Black =>
      }
      Leave(node);
    }
  }

  /** The search over all phases, in list order, as the validator starts it. */
  method DetectCycle(phases: seq<Phase>) returns (found: bool)
    ensures found <==> HasCycle(AdjacencyOf(phases))
  {
    var search := new CycleSearch(AdjacencyOf(phases));
    for i := 0 to |phases|
      invariant search.Valid() && search.adj == AdjacencyOf(phases)
      invariant !search.hasCycle ==> search.stack == []
      invariant !search.hasCycle ==> forall j | 0 <= j < i :: phases[j].id in search.order
    {
      KnownIds(phases, i);
      if search.color[phases[i].id] == White {
        search.Dfs(phases[i].id);
      }
    }
    found := search.hasCycle;
    if !found {
      forall v | v in search.adj ensures v in search.order {
        var j := LastWithId(phases, v);
      }
      ClosedOrderHasNoCycle(search.adj, search.order);
    }
  }

  // ----- The adjacency map against the list -----

  lemma {:induction false} KnownIds(phases: seq<Phase>, i: nat)
    requires i < |phases|
    ensures phases[i].id in AdjacencyOf(phases)
  {
    if i < |phases| - 1 {
      KnownIds(phases[..|phases| - 1], i);
    }
  }

  /** A known ID stands for the last phase that bears it. */
  lemma {:induction false} LastWithId(phases: seq<Phase>, v: string) returns (i: nat)
    requires v in AdjacencyOf(phases)
    ensures i < |phases| && phases[i].id == v && AdjacencyOf(phases)[v] == phases[i].transitions
    ensures forall j | i < j < |phases| :: phases[j].id != v
  {
    var n := |phases| - 1;
    if phases[n].id == v {
      i := n;
    } else {
      i := LastWithId(phases[..n], v);
    }
  }

  lemma {:induction false} AtMostAsManyIds(phases: seq<Phase>)
    ensures |AdjacencyOf(phases)| <= |phases|
  {
    if phases != [] {
      var n := |phases| - 1;
      AtMostAsManyIds(phases[..n]);
      assert AdjacencyOf(phases).Keys == AdjacencyOf(phases[..n]).Keys + {phases[n].id};
    }
  }

  // ----- The validator -----

  function UnknownIn(ids: set<string>, phase: string, targets: seq<string>): seq<ValidationError> {
    if targets == [] then []
    else
      var n := |targets| - 1;
      UnknownIn(ids, phase, targets[..n]) + (if targets[n] in ids then [] else [UnknownPhase(phase, targets[n])])
  }

  function UnknownRefs(ids: set<string>, phases: seq<Phase>): seq<ValidationError> {
    if phases == [] then []
    else
      var n := |phases| - 1;
      UnknownRefs(ids, phases[..n]) + UnknownIn(ids, phases[n].id, phases[n].transitions)
  }

  predicate HasTerminal(phases: seq<Phase>) {
    exists i | 0 <= i < |phases| :: phases[i].transitions == []
  }

  /** What the validator reports, stated without any search. */
  ghost function ErrorsOf(phases: seq<Phase>): seq<ValidationError> {
    UnknownRefs(AdjacencyOf(phases).Keys, phases)
    + (if HasTerminal(phases) then [] else [NoTerminalState])
    + (if HasCycle(AdjacencyOf(phases)) then [TransitionCycle] else [])
  }

  method ValidatePhaseTransitions(phases: seq<Phase>) returns (errs: seq<ValidationError>)
    ensures errs == ErrorsOf(phases)
  {
    errs := [];
    var adj: Graph := map[];
    for i := 0 to |phases|
      invariant adj == AdjacencyOf(phases[..i])
    {
      assert phases[..i + 1][..i] == phases[..i];
      adj := adj[phases[i].id := phases[i].transitions];
    }
    assert phases[..|phases|] == phases;

    for i := 0 to |phases|
      invariant errs == UnknownRefs(adj.Keys, phases[..i])
    {
      var p := phases[i];
      for j := 0 to |p.transitions|
        invariant errs == UnknownRefs(adj.Keys, phases[..i]) + UnknownIn(adj.Keys, p.id, p.transitions[..j])
      {
        assert p.transitions[..j + 1][..j] == p.transitions[..j];
        if p.transitions[j] !in adj {
          errs := errs + [UnknownPhase(p.id, p.transitions[j])];
        }
      }
      assert p.transitions[..|p.transitions|] == p.transitions;
      assert phases[..i + 1][..i] == phases[..i];
    }

    var hasTerminal := false;
    for i := 0 to |phases|
      invariant !hasTerminal ==> forall j | 0 <= j < i :: phases[j].transitions != []
      invariant hasTerminal ==> HasTerminal(phases)
    {
      if phases[i].transitions == [] {
        hasTerminal := true;
        break;
      }
    }
    if !hasTerminal {
      errs := errs + [NoTerminalState];
    }

    var cyclic := DetectCycle(phases);
    if cyclic {
      errs := errs + [TransitionCycle];
    }
  }

  method CheckDuplicateIDs(ids: seq<string>) returns (errs: seq<ValidationError>)
    ensures errs == DuplicatesOf(ids)
  {
    var seen: set<string> := {};
    errs := [];
    for i := 0 to |ids|
      invariant seen == (set x | x in ids[..i])
      invariant errs == DuplicatesOf(ids[..i])
    {
      assert ids[..i + 1][..i] == ids[..i];
      if ids[i] in seen {
        errs := errs + [DuplicateId(ids[i])];
      }
      seen := seen + {ids[i]};
    }
    assert ids[..|ids|] == ids;
  }

  /** One report for every position whose ID occurred before. */
  function DuplicatesOf(ids: seq<string>): seq<ValidationError> {
    if ids == [] then []
    else
      var n := |ids| - 1;
      DuplicatesOf(ids[..n]) + (if ids[n] in ids[..n] then [DuplicateId(ids[n])] else [])
  }

  ghost predicate Distinct(ids: seq<string>) {
    forall i, j | 0 <= i < j < |ids| :: ids[i] != ids[j]
  }

  function IdsOf(phases: seq<Phase>): seq<string> {
    seq(|phases|, i requires 0 <= i < |phases| => phases[i].id)
  }

  lemma DistinctAppend(ids: seq<string>)
    requires ids != []
    ensures var n := |ids| - 1; Distinct(ids) <==> Distinct(ids[..n]) && ids[n] !in ids[..n]
  {
  }

  lemma {:induction false} NoDuplicatesIffDistinct(ids: seq<string>)
    ensures DuplicatesOf(ids) == [] <==> Distinct(ids)
  {
    if ids != [] {
      DistinctAppend(ids);
      NoDuplicatesIffDistinct(ids[..|ids| - 1]);
    }
  }

  function Elements(ids: seq<string>): set<string> { set x | x in ids }

  /** There is one report for every entry beyond the first of its ID. */
  lemma {:induction false} DuplicatesAreCounted(ids: seq<string>)
    ensures |DuplicatesOf(ids)| + |Elements(ids)| == |ids|
  {
    if ids != [] {
      var n := |ids| - 1;
      DuplicatesAreCounted(ids[..n]);
      assert ids == ids[..n] + [ids[n]];
      assert Elements(ids) == Elements(ids[..n]) + {ids[n]};
      if ids[n] in ids[..n] {
        assert Elements(ids) == Elements(ids[..n]);
      } else {
        assert ids[n] !in Elements(ids[..n]);
      }
    }
  }

  // ----- What is reported, and in which order -----

  /** The position of a transition: phase, then target. */
  datatype Ref = Ref(phase: nat, target: nat)

  predicate IsRef(phases: seq<Phase>, x: Ref) {
    x.phase < |phases| && x.target < |phases[x.phase].transitions|
  }

  function TargetOf(phases: seq<Phase>, x: Ref): string
    requires IsRef(phases, x)
  {
    phases[x.phase].transitions[x.target]
  }

  /** No phase bears the ID that the transition names. */
  predicate Dangling(phases: seq<Phase>, x: Ref)
    requires IsRef(phases, x)
  {
    forall p | p in phases :: p.id != TargetOf(phases, x)
  }

  predicate Precedes(x: Ref, y: Ref) { x.phase < y.phase || (x.phase == y.phase && x.target < y.target) }

  lemma KnownIff(phases: seq<Phase>, id: string)
    ensures id in AdjacencyOf(phases) <==> exists p :: p in phases && p.id == id
  {
    if id in AdjacencyOf(phases) {
      var i := LastWithId(phases, id);
      assert phases[i] in phases;
    }
    forall p | p in phases ensures p.id in AdjacencyOf(phases) {
      var i :| 0 <= i < |phases| && phases[i] == p;
      KnownIds(phases, i);
    }
  }

  /** The positions of the targets that are no known ID. */
  function Outside(ids: set<string>, targets: seq<string>): set<nat> {
    set j: nat | j < |targets| && targets[j] !in ids
  }

  lemma {:induction false} TargetsReported(ids: set<string>, phase: string, targets: seq<string>) returns (at: seq<nat>)
    ensures Ascending(at, Outside(ids, targets)) && |at| == |UnknownIn(ids, phase, targets)|
    ensures forall k | 0 <= k < |at| ::
              at[k] < |targets| && UnknownIn(ids, phase, targets)[k] == UnknownPhase(phase, targets[at[k]])
  {
    at := [];
    if targets != [] {
      var n := |targets| - 1;
      at := TargetsReported(ids, phase, targets[..n]);
      assert Outside(ids, targets) == Outside(ids, targets[..n]) + if targets[n] in ids then {} else {n};
      if targets[n] !in ids {
        AscendingAppend(at, Outside(ids, targets[..n]), n);
        at := at + [n];
      }
    }
  }

  /** The reports are those of the listed transitions, each to an unknown ID. */
  ghost predicate Reports(ids: set<string>, phases: seq<Phase>, errs: seq<ValidationError>, at: seq<Ref>) {
    && |errs| == |at|
    && forall k | 0 <= k < |at| :: ReportOf(ids, phases, errs[k], at[k])
  }

  predicate ReportOf(ids: set<string>, phases: seq<Phase>, e: ValidationError, x: Ref) {
    && IsRef(phases, x) && TargetOf(phases, x) !in ids
    && e == UnknownPhase(phases[x.phase].id, TargetOf(phases, x))
  }

  ghost predicate InOrder(at: seq<Ref>) { forall k, l | 0 <= k < l < |at| :: Precedes(at[k], at[l]) }

  ghost predicate AllReported(ids: set<string>, phases: seq<Phase>, at: seq<Ref>) {
    forall x | IsRef(phases, x) && TargetOf(phases, x) !in ids :: x in at
  }

  lemma {:induction false} RefsReported(ids: set<string>, phases: seq<Phase>) returns (at: seq<Ref>)
    ensures Reports(ids, phases, UnknownRefs(ids, phases), at) && InOrder(at) && AllReported(ids, phases, at)
  {
    at := [];
    if phases != [] {
      var n := |phases| - 1;
      var before := RefsReported(ids, phases[..n]);
      var last := TargetsReported(ids, phases[n].id, phases[n].transitions);
      var here := seq(|last|, k requires 0 <= k < |last| => Ref(n, last[k]));
      at := before + here;
      var errs := UnknownIn(ids, phases[n].id, phases[n].transitions);
      HereReported(ids, phases, errs, last, here);
      ReportsKept(ids, phases, UnknownRefs(ids, phases[..n]), before);
      InOrderThen(before, here, n);
    }
  }

  /** The references of the last phase. */
  lemma HereReported(ids: set<string>, phases: seq<Phase>, errs: seq<ValidationError>, last: seq<nat>, here: seq<Ref>)
    requires phases != [] && |last| == |errs| == |here|
    requires var n := |phases| - 1;
             && Ascending(last, Outside(ids, phases[n].transitions))
             && forall k | 0 <= k < |last| ::
                  && last[k] < |phases[n].transitions| && here[k] == Ref(n, last[k])
                  && errs[k] == UnknownPhase(phases[n].id, phases[n].transitions[last[k]])
    ensures Reports(ids, phases, errs, here) && InOrder(here)
    ensures forall x | IsRef(phases, x) && x.phase == |phases| - 1 && TargetOf(phases, x) !in ids :: x in here
    ensures forall x | x in here :: x.phase == |phases| - 1
  {
    var n := |phases| - 1;
    forall k | 0 <= k < |here| ensures ReportOf(ids, phases, errs[k], here[k]) {
      assert last[k] in last;
    }
    forall x | IsRef(phases, x) && x.phase == n && TargetOf(phases, x) !in ids ensures x in here {
      assert x.target in Outside(ids, phases[n].transitions);
      var k :| 0 <= k < |last| && last[k] == x.target;
      assert here[k] == x;
    }
  }

  /** The references of the phases before the last are what they were without it. */
  lemma ReportsKept(ids: set<string>, phases: seq<Phase>, errs: seq<ValidationError>, at: seq<Ref>)
    requires phases != [] && Reports(ids, phases[..|phases| - 1], errs, at)
    requires AllReported(ids, phases[..|phases| - 1], at)
    ensures Reports(ids, phases, errs, at)
    ensures forall x | IsRef(phases, x) && x.phase < |phases| - 1 && TargetOf(phases, x) !in ids :: x in at
    ensures forall x | x in at :: x.phase < |phases| - 1
  {
    var n := |phases| - 1;
    forall k | 0 <= k < |at| ensures ReportOf(ids, phases, errs[k], at[k]) && at[k].phase < n {
      assert ReportOf(ids, phases[..n], errs[k], at[k]);
    }
    forall x | IsRef(phases, x) && x.phase < n && TargetOf(phases, x) !in ids ensures x in at {
      assert IsRef(phases[..n], x) && TargetOf(phases[..n], x) !in ids;
    }
  }

  lemma InOrderThen(before: seq<Ref>, here: seq<Ref>, n: nat)
    requires InOrder(before) && InOrder(here)
    requires (forall x | x in before :: x.phase < n) && forall x | x in here :: x.phase == n
    ensures InOrder(before + here)
  {
    var at := before + here;
    forall k, l | 0 <= k < l < |at| ensures Precedes(at[k], at[l]) {
      assert k < |before| ==> before[k] in before;
      assert l >= |before| ==> here[l - |before|] in here;
    }
  }

  /**
    The errors begin with one report for each transition to an ID that no phase bears, by phase and then
    by target; after these come the missing terminal state and the cycle, if there are such.
  */
  lemma ErrorsInOrder(phases: seq<Phase>) returns (at: seq<Ref>)
    ensures var errs := ErrorsOf(phases);
            && |at| <= |errs|
            && (forall k | 0 <= k < |at| :: IsRef(phases, at[k]) && Dangling(phases, at[k])
                                            && errs[k] == UnknownPhase(phases[at[k].phase].id, TargetOf(phases, at[k])))
            && (forall k, l | 0 <= k < l < |at| :: Precedes(at[k], at[l]))
            && (forall x | IsRef(phases, x) && Dangling(phases, x) :: x in at)
            && (NoTerminalState in errs <==> forall p | p in phases :: p.transitions != [])
            && (TransitionCycle in errs <==> HasCycle(AdjacencyOf(phases)))
            && (forall k | |at| <= k < |errs| :: errs[k] == NoTerminalState || errs[k] == TransitionCycle)
            && |errs| <= |at| + 2
  {
    var ids := AdjacencyOf(phases).Keys;
    at := RefsReported(ids, phases);
    forall x | IsRef(phases, x) ensures Dangling(phases, x) <==> TargetOf(phases, x) !in ids {
      KnownIff(phases, TargetOf(phases, x));
    }
    var refs := UnknownRefs(ids, phases);
    var tail := (if HasTerminal(phases) then [] else [NoTerminalState])
                + (if HasCycle(AdjacencyOf(phases)) then [TransitionCycle] else []);
    assert ErrorsOf(phases) == refs + tail;
    assert forall e | e in refs :: e.UnknownPhase?;
    assert HasTerminal(phases) <==> exists p :: p in phases && p.transitions == [] by {
      if i :| 0 <= i < |phases| && phases[i].transitions == [] { assert phases[i] in phases; }
    }
  }

  /** A reference is reported if and only if some phase of that ID names an ID that no phase bears. */
  lemma UnknownReportedIff(phases: seq<Phase>, phase: string, target: string)
    ensures UnknownPhase(phase, target) in ErrorsOf(phases) <==>
            exists x :: IsRef(phases, x) && phases[x.phase].id == phase && TargetOf(phases, x) == target
                        && Dangling(phases, x)
  {
    var at := ErrorsInOrder(phases);
    var errs := ErrorsOf(phases);
    if UnknownPhase(phase, target) in errs {
      var k :| 0 <= k < |errs| && errs[k] == UnknownPhase(phase, target);
      assert k < |at| && IsRef(phases, at[k]) && Dangling(phases, at[k]);
    }
    forall x | IsRef(phases, x) && phases[x.phase].id == phase && TargetOf(phases, x) == target && Dangling(phases, x)
      ensures UnknownPhase(phase, target) in errs
    {
      var k :| 0 <= k < |at| && at[k] == x;
      assert errs[k] == UnknownPhase(phase, target);
    }
  }

  predicate Repeats(ids: seq<string>, i: nat) { i < |ids| && ids[i] in ids[..i] }

  /** The positions whose ID occurred before. */
  function Repeated(ids: seq<string>): set<nat> { set i: nat | i < |ids| && Repeats(ids, i) }

  lemma RepeatedOneMore(ids: seq<string>)
    requires ids != []
    ensures var n := |ids| - 1; Repeated(ids) == Repeated(ids[..n]) + if ids[n] in ids[..n] then {n} else {}
  {
    var n := |ids| - 1;
    forall i: nat | i < n ensures Repeats(ids[..n], i) == Repeats(ids, i) {
      assert ids[..n][..i] == ids[..i];
    }
  }

  /** Duplicates are reported at exactly the positions whose ID occurred before, in order, with that ID. */
  lemma {:induction false} DuplicatesInOrder(ids: seq<string>) returns (at: seq<nat>)
    ensures Ascending(at, Repeated(ids)) && |at| == |DuplicatesOf(ids)|
    ensures forall k | 0 <= k < |at| :: at[k] < |ids| && DuplicatesOf(ids)[k] == DuplicateId(ids[at[k]])
  {
    at := [];
    if ids != [] {
      var n := |ids| - 1;
      at := DuplicatesInOrder(ids[..n]);
      RepeatedOneMore(ids);
      if ids[n] in ids[..n] {
        AscendingAppend(at, Repeated(ids[..n]), n);
        at := at + [n];
      }
    }
  }

  // ----- What an admitted configuration guarantees -----

  lemma {:induction false} NoUnknownTargets(ids: set<string>, phase: string, targets: seq<string>)
    ensures UnknownIn(ids, phase, targets) == [] <==> forall t | t in targets :: t in ids
  {
    if targets != [] {
      var n := |targets| - 1;
      NoUnknownTargets(ids, phase, targets[..n]);
      assert targets == targets[..n] + [targets[n]];
    }
  }

  lemma {:induction false} NoUnknownRefs(ids: set<string>, phases: seq<Phase>)
    ensures UnknownRefs(ids, phases) == [] <==>
            forall i | 0 <= i < |phases| :: forall t | t in phases[i].transitions :: t in ids
  {
    if phases != [] {
      var n := |phases| - 1;
      NoUnknownRefs(ids, phases[..n]);
      NoUnknownTargets(ids, phases[n].id, phases[n].transitions);
    }
  }

  /** Every target of every known phase is known. */
  ghost predicate Sound(g: Graph) {
    forall u, t | u in g && t in g[u] :: t in g
  }

  lemma AdmittedIsSound(phases: seq<Phase>)
    requires UnknownRefs(AdjacencyOf(phases).Keys, phases) == []
    ensures Sound(AdjacencyOf(phases))
  {
    var g := AdjacencyOf(phases);
    NoUnknownRefs(g.Keys, phases);
    forall u, t | u in g && t in g[u] ensures t in g {
      var i := LastWithId(phases, u);
    }
  }

  lemma SubWalk(g: Graph, w: seq<string>, i: nat, j: nat)
    requires IsWalk(g, w) && i < j < |w|
    ensures IsWalk(g, w[i..j + 1])
  {
    var s := w[i..j + 1];
    forall k | 0 <= k < |s| - 1 ensures Edge(g, s[k], s[k + 1]) {
      assert Edge(g, w[i + k], w[i + k + 1]);
    }
    assert i < |w| - 1;
    assert Edge(g, w[i], w[i + 1]);
  }

  lemma {:induction false} DistinctFits(w: seq<string>, ids: set<string>)
    requires Distinct(w) && forall x | x in w :: x in ids
    ensures |w| <= |ids|
  {
    if w != [] {
      var n := |w| - 1;
      forall x | x in w[..n] ensures x in ids - {w[n]} {
        var i :| 0 <= i < n && w[i] == x;
      }
      DistinctFits(w[..n], ids - {w[n]});
    }
  }

  /** Without a cycle a walk never meets a node twice, so it has fewer steps than there are nodes. */
  lemma AcyclicWalkIsShort(g: Graph, w: seq<string>)
    requires !HasCycle(g) && IsWalk(g, w)
    ensures |w| <= |g|
  {
    forall i, j | 0 <= i < j < |w| ensures w[i] != w[j] {
      SubWalk(g, w, i, j);
      if w[i] == w[j] {
        assert IsCycle(g, w[i..j + 1]);
      }
    }
    forall x | x in w ensures x in g.Keys {
      var i :| 0 <= i < |w| && w[i] == x;
      if i > 0 { assert Edge(g, w[i - 1], w[i - 1 + 1]); }
    }
    DistinctFits(w, g.Keys);
    assert |g.Keys| == |g|;
  }

  /** Walking on from anywhere ends in a phase without transitions. */
  lemma {:induction false} TerminalAhead(g: Graph, w: seq<string>) returns (z: seq<string>)
    requires !HasCycle(g) && Sound(g) && IsWalk(g, w)
    ensures IsWalk(g, z) && w <= z && z[|z| - 1] in g && g[z[|z| - 1]] == []
    decreases |g| - |w|
  {
    AcyclicWalkIsShort(g, w);
    var last := w[|w| - 1];
    assert last in g by {
      if |w| > 1 { assert Edge(g, w[|w| - 2], w[|w| - 2 + 1]); }
    }
    if g[last] == [] {
      z := w;
    } else {
      var longer := w + [g[last][0]];
      forall i | 0 <= i < |longer| - 1 ensures Edge(g, longer[i], longer[i + 1]) {
        if i < |w| - 1 { assert Edge(g, w[i], w[i + 1]); }
      }
      AcyclicWalkIsShort(g, longer);
      z := TerminalAhead(g, longer);
    }
  }

  /** FindPhaseType: the first phase with the ID. */
  function FirstWithId(phases: seq<Phase>, id: string): (r: Option<nat>)
    ensures r.Some? ==> r.value < |phases| && phases[r.value].id == id
    ensures r.Some? ==> forall j | 0 <= j < r.value :: phases[j].id != id
    ensures r.None? ==> forall j | 0 <= j < |phases| :: phases[j].id != id
  {
    if phases == [] then None
    else if phases[0].id == id then Some(0)
    else
      var r := FirstWithId(phases[1..], id);
      if r.None? then None else Some(r.value + 1)
  }

  method FindPhaseType(phases: seq<Phase>, id: string) returns (r: Option<Phase>)
    ensures r == match FirstWithId(phases, id) case None => None case Some(i) => Some(phases[i])
  {
    for i := 0 to |phases|
      invariant forall j | 0 <= j < i :: phases[j].id != id
    {
      if phases[i].id == id {
        return Some(phases[i]);
      }
    }
    return None;
  }

  method CanTransitionTo(p: Phase, target: string) returns (r: bool)
    ensures r <==> target in p.transitions
  {
    for i := 0 to |p.transitions|
      invariant target !in p.transitions[..i]
    {
      if p.transitions[i] == target {
        return true;
      }
    }
    return false;
  }

  /** A walk as services take it: look the phase up by ID, then ask CanTransitionTo. */
  ghost predicate ServiceWalk(phases: seq<Phase>, w: seq<string>) {
    && |w| > 0
    && FirstWithId(phases, w[0]).Some?
    && forall i | 0 <= i < |w| - 1 :: MayStep(phases, w[i], w[i + 1])
  }

  predicate MayStep(phases: seq<Phase>, u: string, v: string) {
    FirstWithId(phases, u).Some? && v in phases[FirstWithId(phases, u).value].transitions
  }

  lemma StepIsEdge(phases: seq<Phase>, u: string, v: string)
    requires Distinct(IdsOf(phases)) && Sound(AdjacencyOf(phases)) && MayStep(phases, u, v)
    ensures Edge(AdjacencyOf(phases), u, v)
  {
    var i := FirstWithId(phases, u).value;
    KnownIds(phases, i);
    var j := LastWithId(phases, u);
    assert IdsOf(phases)[i] == u && IdsOf(phases)[j] == u;
  }

  lemma ServiceWalkIsWalk(phases: seq<Phase>, w: seq<string>)
    requires ErrorsOf(phases) == [] && DuplicatesOf(IdsOf(phases)) == [] && ServiceWalk(phases, w)
    ensures Distinct(IdsOf(phases)) && Sound(AdjacencyOf(phases)) && IsWalk(AdjacencyOf(phases), w)
  {
    AdmittedIsSound(phases);
    NoDuplicatesIffDistinct(IdsOf(phases));
    KnownIds(phases, FirstWithId(phases, w[0]).value);
    forall i | 0 <= i < |w| - 1 ensures Edge(AdjacencyOf(phases), w[i], w[i + 1]) {
      StepIsEdge(phases, w[i], w[i + 1]);
    }
  }

  /**
    If the validator reports nothing and the duplicate check reports nothing, every walk the services
    can take has fewer steps than there are phases.
  */
  lemma AdmittedWalkIsShort(phases: seq<Phase>, w: seq<string>)
    requires ErrorsOf(phases) == [] && DuplicatesOf(IdsOf(phases)) == [] && ServiceWalk(phases, w)
    ensures |w| - 1 < |phases|
  {
    ServiceWalkIsWalk(phases, w);
    AcyclicWalkIsShort(AdjacencyOf(phases), w);
    AtMostAsManyIds(phases);
  }

  predicate IsTerminal(phases: seq<Phase>, u: string) {
    FirstWithId(phases, u).Some? && phases[FirstWithId(phases, u).value].transitions == []
  }

  /** And it can be continued to a terminal phase. */
  lemma AdmittedWalkReachesTerminal(phases: seq<Phase>, w: seq<string>)
    requires ErrorsOf(phases) == [] && DuplicatesOf(IdsOf(phases)) == [] && ServiceWalk(phases, w)
    ensures exists z :: w <= z && ServiceWalk(phases, z) && IsTerminal(phases, z[|z| - 1])
  {
    var g := AdjacencyOf(phases);
    ServiceWalkIsWalk(phases, w);
    var z := TerminalAhead(g, w);
    forall i | 0 <= i < |z| - 1 ensures MayStep(phases, z[i], z[i + 1]) {
      assert Edge(g, z[i], z[i + 1]);
      FirstIsAdjacency(phases, z[i]);
    }
    FirstIsAdjacency(phases, z[|z| - 1]);
    assert ServiceWalk(phases, z);
  }

  lemma FirstIsAdjacency(phases: seq<Phase>, u: string)
    requires Distinct(IdsOf(phases)) && u in AdjacencyOf(phases)
    ensures FirstWithId(phases, u).Some?
    ensures phases[FirstWithId(phases, u).value].transitions == AdjacencyOf(phases)[u]
  {
    var j := LastWithId(phases, u);
    assert IdsOf(phases)[j] == u;
    assert IdsOf(phases)[FirstWithId(phases, u).value] == u;
  }

  /** For a non-empty list the terminal-state check adds nothing to the other two. */
  lemma TerminalCheckIsImplied(phases: seq<Phase>)
    requires phases != [] && UnknownRefs(AdjacencyOf(phases).Keys, phases) == [] && !HasCycle(AdjacencyOf(phases))
    ensures HasTerminal(phases)
  {
    var g := AdjacencyOf(phases);
    AdmittedIsSound(phases);
    KnownIds(phases, 0);
    var z := TerminalAhead(g, [phases[0].id]);
    var i := LastWithId(phases, z[|z| - 1]);
  }
}
