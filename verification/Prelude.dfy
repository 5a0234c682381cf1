/** Types shared by the modules of the model. */
module Prelude {
  datatype Option<+T> = None | Some(value: T) {
    predicate IsFailure() { None? }

    function PropagateFailure<U>(): Option<U>
      requires None?
    {
      None
    }

    function Extract(): T
      requires Some?
    {
      value
    }
  }

  /** A stretch of history: the states passed through and the action between each two of them. */
  datatype Run<S, A> = Run(states: seq<S>, actions: seq<A>)

  ghost predicate PrefixOf<S, A>(r: Run<S, A>, r': Run<S, A>) { r.states <= r'.states && r.actions <= r'.actions }

  /** The chosen positions, in increasing order. */
  ghost predicate Ascending(at: seq<nat>, chosen: set<nat>) {
    && (forall i, j | 0 <= i < j < |at| :: at[i] < at[j])
    && (forall x | x in at :: x in chosen)
    && forall x | x in chosen :: x in at
  }

  lemma AscendingAppend(at: seq<nat>, chosen: set<nat>, n: nat)
    requires Ascending(at, chosen) && forall x | x in chosen :: x < n
    ensures Ascending(at + [n], chosen + {n})
  {
    forall i, j | 0 <= i < j < |at + [n]| ensures (at + [n])[i] < (at + [n])[j] {
      assert at[i] in at;
    }
    assert (at + [n])[|at|] == n;
  }

  lemma {:induction false} SubsetIsSmaller<T>(a: set<T>, b: set<T>)
    requires a <= b
    ensures |a| <= |b|
  {
    if a != {} {
      var x :| x in a;
      SubsetIsSmaller(a - {x}, b - {x});
    }
  }

  lemma {:induction false} BoundExists(used: set<nat>) returns (b: nat)
    ensures forall t | t in used :: t < b
  {
    if used == {} {
      b := 0;
    } else {
      var x :| x in used;
      b := BoundExists(used - {x});
      b := if b <= x then x + 1 else b;
      assert forall t | t in used :: t == x || t in used - {x};
    }
  }

  /** A random identifier: uuid.New and generateToken, taken never to collide. */
  method FreshId(used: set<nat>) returns (id: nat)
    ensures id !in used
  {
    ghost var b := BoundExists(used);
    assert b !in used;
    id :| id !in used;
  }
}
