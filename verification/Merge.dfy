/**
  Config overrides by ID: the remove, override and append operations on one array section, in place
  as the program does them, against a specification that has no loops and no iteration order.

  The five sections (budget, expense and inventory categories, phase types, report definitions) share
  one algorithm; T is their item type. Decoding JSON is left to its users: `patch(raw, item)` is the
  item after unmarshalling `raw` over it, and an appended item that does not decode is None.
*/
module Merge {
  import opened Prelude

  datatype ArrayOverride<T, R> = ArrayOverride(append: seq<Option<T>>, override_: map<string, R>, remove: seq<string>)

  // ----- Removal -----

  function Remaining<T>(base: seq<T>, id: T -> string, remove: set<string>): (r: seq<T>)
    ensures |r| <= |base|
    ensures forall x | x in r :: x in base && id(x) !in remove
  {
    if base == [] then []
    else
      var n := |base| - 1;
      Remaining(base[..n], id, remove) + if id(base[n]) in remove then [] else [base[n]]
  }

  /** toSet */
  method ToSet(ids: seq<string>) returns (s: set<string>)
    ensures s == set x | x in ids
  {
    s := {};
    for i := 0 to |ids|
      invariant s == set x | x in ids[..i]
    {
      s := s + {ids[i]};
    }
    assert ids[..|ids|] == ids;
  }

  /** The `base[:0]` filter: the kept items move to the front of the same array, which is read ahead. */
  method RemoveInPlace<T>(a: array<T>, id: T -> string, remove: seq<string>) returns (n: nat)
    modifies a
    ensures n <= a.Length
    ensures a[..n] == Remaining(old(a[..]), id, set x | x in remove)
  {
    n := a.Length;
    if |remove| > 0 {
      var gone := ToSet(remove);
      n := FilterInPlace(a, id, gone);
    } else {
      KeepAll(a[..], id, set x | x in remove);
      assert a[..n] == a[..];
    }
  }

  method FilterInPlace<T>(a: array<T>, id: T -> string, gone: set<string>) returns (n: nat)
    modifies a
    ensures n <= a.Length
    ensures a[..n] == Remaining(old(a[..]), id, gone)
  {
    ghost var base := a[..];
    n := 0;
    for i := 0 to a.Length
      invariant n <= i
      invariant a[..n] == Remaining(base[..i], id, gone)
      invariant forall j | i <= j < a.Length :: a[j] == base[j]
    {
      assert base[..i + 1][..i] == base[..i];
      if id(a[i]) !in gone {
        a[n] := a[i];
        n := n + 1;
        assert a[..n] == a[..n - 1] + [base[i]];
      }
    }
    assert base[..a.Length] == base;
  }

  /** The positions of the items that stay. */
  function Staying<T>(base: seq<T>, id: T -> string, remove: set<string>): set<nat> {
    set i: nat | i < |base| && id(base[i]) !in remove
  }

  lemma StayingOneMore<T>(base: seq<T>, id: T -> string, remove: set<string>)
    requires base != []
    ensures var n := |base| - 1;
            Staying(base, id, remove) == Staying(base[..n], id, remove) + if id(base[n]) in remove then {} else {n}
  {
  }

  /** What remains are exactly the items whose ID is not removed, each from its own position, in order. */
  lemma {:induction false} RemainingInOrder<T>(base: seq<T>, id: T -> string, remove: set<string>)
    returns (at: seq<nat>)
    ensures Ascending(at, Staying(base, id, remove)) && |at| == |Remaining(base, id, remove)|
    ensures forall k | 0 <= k < |at| :: at[k] < |base| && Remaining(base, id, remove)[k] == base[at[k]]
  {
    at := [];
    if base != [] {
      var n := |base| - 1;
      at := RemainingInOrder(base[..n], id, remove);
      StayingOneMore(base, id, remove);
      assert forall k | 0 <= k < |at| :: Remaining(base[..n], id, remove)[k] == base[at[k]];
      if id(base[n]) !in remove {
        AscendingAppend(at, Staying(base[..n], id, remove), n);
        at := at + [n];
        assert Remaining(base, id, remove) == Remaining(base[..n], id, remove) + [base[n]];
      }
    }
  }

  /** Every item is there as often as before, or not at all if its ID is removed. */
  lemma {:induction false} RemainingCounts<T>(base: seq<T>, id: T -> string, remove: set<string>, x: T)
    ensures multiset(Remaining(base, id, remove))[x] == if id(x) in remove then 0 else multiset(base)[x]
  {
    if base != [] {
      var n := |base| - 1;
      RemainingCounts(base[..n], id, remove, x);
      assert base == base[..n] + [base[n]];
    }
  }

  lemma {:induction false} KeepAll<T>(base: seq<T>, id: T -> string, remove: set<string>)
    requires forall x | x in base :: id(x) !in remove
    ensures Remaining(base, id, remove) == base
  {
    if base != [] {
      var n := |base| - 1;
      KeepAll(base[..n], id, remove);
      assert base == base[..n] + [base[n]];
    }
  }

  // ----- Overriding -----

  /** The position of the first item with the ID, or the length if there is none. */
  function FirstIndex<T>(base: seq<T>, id: T -> string, key: string): (i: nat)
    ensures i <= |base| && forall j | 0 <= j < i :: id(base[j]) != key
    ensures i < |base| ==> id(base[i]) == key
  {
    if base == [] then 0
    else if id(base[0]) == key then 0
    else 1 + FirstIndex(base[1..], id, key)
  }

  function PatchOne<T, R>(base: seq<T>, id: T -> string, patch: (R, T) -> T, key: string, raw: R): (r: seq<T>)
    ensures |r| == |base|
  {
    var i := FirstIndex(base, id, key);
    if i < |base| then base[i := patch(raw, base[i])] else base
  }

  /** The override loop for one order in which the map may be visited. */
  function PatchInOrder<T, R>(base: seq<T>, id: T -> string, patch: (R, T) -> T, over: map<string, R>,
      order: seq<string>): (r: seq<T>)
    requires forall k | k in order :: k in over
    ensures |r| == |base|
  {
    if order == [] then base
    else
      var n := |order| - 1;
      PatchOne(PatchInOrder(base, id, patch, over, order[..n]), id, patch, order[n], over[order[n]])
  }

  /** The items an override reaches: the first of each ID in the map. */
  predicate Hit<T, R>(base: seq<T>, id: T -> string, over: map<string, R>, i: nat) {
    i < |base| && id(base[i]) in over && FirstIndex(base, id, id(base[i])) == i
  }

  /** The ID an item has once its override is applied. */
  function NewId<T, R>(base: seq<T>, id: T -> string, patch: (R, T) -> T, over: map<string, R>, i: nat): string
    requires Hit(base, id, over, i)
  {
    id(patch(over[id(base[i])], base[i]))
  }

  ghost predicate KeepsIds<T, R>(base: seq<T>, id: T -> string, patch: (R, T) -> T, over: map<string, R>) {
    forall i | 0 <= i < |base| && Hit(base, id, over, i) :: NewId(base, id, patch, over, i) == id(base[i])
  }

  /** An override renames its item to the ID of another override and puts it ahead of that one's item. */
  ghost predicate Clashes<T, R>(base: seq<T>, id: T -> string, patch: (R, T) -> T, over: map<string, R>, i: nat)
    requires Hit(base, id, over, i)
  {
    var k := NewId(base, id, patch, over, i);
    k != id(base[i]) && k in over && i < FirstIndex(base, id, k)
  }

  /**
    A clash that shows in some order: the other override changes the renamed item it reaches there, or
    the item it should have reached.
  */
  ghost predicate Harmful<T, R>(base: seq<T>, id: T -> string, patch: (R, T) -> T, over: map<string, R>, i: nat)
    requires Hit(base, id, over, i)
  {
    Clashes(base, id, patch, over, i) &&
    var k := NewId(base, id, patch, over, i);
    var once, f := patch(over[id(base[i])], base[i]), FirstIndex(base, id, k);
    patch(over[k], once) != once || (f < |base| && patch(over[k], base[f]) != base[f])
  }

  ghost predicate NoHarm<T, R>(base: seq<T>, id: T -> string, patch: (R, T) -> T, over: map<string, R>) {
    forall i | 0 <= i < |base| && Hit(base, id, over, i) :: !Harmful(base, id, patch, over, i)
  }

  /** The same without loops or order: the first item of each ID that is to be overridden is patched. */
  function Patched<T, R>(base: seq<T>, id: T -> string, patch: (R, T) -> T, over: map<string, R>,
      keys: set<string>): (r: seq<T>)
    requires keys <= over.Keys
  {
    seq(|base|, i requires 0 <= i < |base| =>
      if id(base[i]) in keys && FirstIndex(base, id, id(base[i])) == i then patch(over[id(base[i])], base[i])
          else base[i])
  }

  ghost predicate Distinct<U>(s: seq<U>) {
    forall i, j | 0 <= i < j < |s| :: s[i] != s[j]
  }

  lemma FirstIs<T>(b: seq<T>, id: T -> string, key: string, f: nat)
    requires f <= |b| && (f < |b| ==> id(b[f]) == key) && forall j | 0 <= j < f :: id(b[j]) != key
    ensures FirstIndex(b, id, key) == f
  {
  }

  /** An override that reaches the item it reaches in the base adds its key to those applied. */
  lemma PatchReached<T, R>(
    base: seq<T>, id: T -> string, patch: (R, T) -> T, over: map<string, R>, keys: set<string>, k: string)
    requires keys <= over.Keys && k in over && k !in keys
    requires FirstIndex(Patched(base, id, patch, over, keys), id, k) == FirstIndex(base, id, k)
    ensures PatchOne(Patched(base, id, patch, over, keys), id, patch, k, over[k])
         == Patched(base, id, patch, over, keys + {k})
  {
    var p, q := Patched(base, id, patch, over, keys), Patched(base, id, patch, over, keys + {k});
    var f := FirstIndex(base, id, k);
    var r := PatchOne(p, id, patch, k, over[k]);
    forall i | 0 <= i < |base| ensures r[i] == q[i] {
      if i == f {
        assert p[i] == base[i];
      } else if id(base[i]) == k {
        assert FirstIndex(base, id, id(base[i])) != i;
      }
    }
  }

  /** Only a clash brings an override to an item ahead of its own. */
  lemma ReachedByClash<T, R>(
    base: seq<T>, id: T -> string, patch: (R, T) -> T, over: map<string, R>, keys: set<string>, k: string)
    requires keys <= over.Keys && k in over && k !in keys
    ensures var p := Patched(base, id, patch, over, keys);
            var f, g := FirstIndex(base, id, k), FirstIndex(p, id, k);
            g <= f && (g < f ==>
              && Hit(base, id, over, g) && Clashes(base, id, patch, over, g) && NewId(base, id, patch, over, g) == k
              && p[g] == patch(over[id(base[g])], base[g]))
  {
    var p, f := Patched(base, id, patch, over, keys), FirstIndex(base, id, k);
    assert f < |base| ==> p[f] == base[f];
  }

  /** One more key: the patched sequence for it, as long as no clash does harm. */
  lemma PatchStep<T, R>(
    base: seq<T>, id: T -> string, patch: (R, T) -> T, over: map<string, R>, keys: set<string>, k: string)
    requires NoHarm(base, id, patch, over) && keys <= over.Keys && k in over && k !in keys
    ensures PatchOne(Patched(base, id, patch, over, keys), id, patch, k, over[k])
         == Patched(base, id, patch, over, keys + {k})
  {
    var p, q := Patched(base, id, patch, over, keys), Patched(base, id, patch, over, keys + {k});
    var f, g := FirstIndex(base, id, k), FirstIndex(p, id, k);
    ReachedByClash(base, id, patch, over, keys, k);
    if g == f {
      PatchReached(base, id, patch, over, keys, k);
    } else {
      assert !Harmful(base, id, patch, over, g);
      assert PatchOne(p, id, patch, k, over[k]) == p;
      forall i | 0 <= i < |base| ensures p[i] == q[i] {
        assert i != f && id(base[i]) == k ==> FirstIndex(base, id, id(base[i])) != i;
      }
    }
  }

  /** If no clash does harm, every order in which the map may be visited gives the order-free result. */
  lemma {:induction false} OrderDoesNotMatter<T, R>(
    base: seq<T>, id: T -> string, patch: (R, T) -> T, over: map<string, R>, order: seq<string>)
    requires NoHarm(base, id, patch, over) && Distinct(order) && forall k | k in order :: k in over
    ensures (set k | k in order) <= over.Keys
    ensures PatchInOrder(base, id, patch, over, order) == Patched(base, id, patch, over, set k | k in order)
  {
    if order == [] {
      assert Patched(base, id, patch, over, {}) == base;
      assert (set k | k in order) == {};
    } else {
      var n := |order| - 1;
      OrderDoesNotMatter(base, id, patch, over, order[..n]);
      var before := set k | k in order[..n];
      assert order[n] !in order[..n];
      PatchStep(base, id, patch, over, before, order[n]);
      assert (set k | k in order) == before + {order[n]};
    }
  }

  /** What a visit of some keys makes of each item: the first of each visited ID is patched once, no other changes. */
  lemma OverriddenAt<T, R>(
    base: seq<T>, id: T -> string, patch: (R, T) -> T, over: map<string, R>, order: seq<string>, i: nat)
    requires NoHarm(base, id, patch, over) && Distinct(order) && (forall k | k in order :: k in over) && i < |base|
    ensures |PatchInOrder(base, id, patch, over, order)| == |base|
    ensures PatchInOrder(base, id, patch, over, order)[i] ==
            if id(base[i]) in order && forall j | 0 <= j < i :: id(base[j]) != id(base[i])
            then patch(over[id(base[i])], base[i]) else base[i]
  {
    OrderDoesNotMatter(base, id, patch, over, order);
    var first := FirstIndex(base, id, id(base[i]));
    assert first < i ==> id(base[first]) == id(base[i]);
  }

  // ----- When the order does not show -----

  /** A possible visit of the whole map. */
  ghost predicate Visits<R>(order: seq<string>, over: map<string, R>) {
    Distinct(order) && (forall k | k in order :: k in over) && forall k | k in over :: k in order
  }

  ghost predicate OrdersAgree<T, R>(base: seq<T>, id: T -> string, patch: (R, T) -> T, over: map<string, R>) {
    forall o, o' | Visits(o, over) && Visits(o', over) ::
      PatchInOrder(base, id, patch, over, o) == PatchInOrder(base, id, patch, over, o')
  }

  lemma {:induction false} SomeOrder(keys: set<string>) returns (order: seq<string>)
    ensures Distinct(order) && forall k :: k in order <==> k in keys
  {
    order := [];
    if keys != {} {
      var k :| k in keys;
      var rest := SomeOrder(keys - {k});
      order := rest + [k];
    }
  }

  /** The overrides of later items first: each then finds the items ahead of its own untouched. */
  lemma {:induction false} BackToFront<T, R>(
    base: seq<T>, id: T -> string, patch: (R, T) -> T, over: map<string, R>, keys: set<string>)
    returns (order: seq<string>)
    requires keys <= over.Keys
    requires forall k, o | k in keys && o in over && o !in keys :: FirstIndex(base, id, o) <= FirstIndex(base, id, k)
    ensures Distinct(order) && forall k :: k in order <==> k in keys
    ensures PatchInOrder(base, id, patch, over, order) == Patched(base, id, patch, over, keys)
  {
    if keys == {} {
      order := [];
      assert Patched(base, id, patch, over, {}) == base;
    } else {
      var k := FrontMost(base, id, keys);
      var rest := BackToFront(base, id, patch, over, keys - {k});
      order := rest + [k];
      assert order[..|rest|] == rest;
      var p, f := Patched(base, id, patch, over, keys - {k}), FirstIndex(base, id, k);
      assert f < |base| ==> p[f] == base[f];
      FirstIs(p, id, k, f);
      PatchReached(base, id, patch, over, keys - {k}, k);
      assert keys - {k} + {k} == keys;
    }
  }

  lemma {:induction false} FrontMost<T>(base: seq<T>, id: T -> string, keys: set<string>) returns (k: string)
    requires keys != {}
    ensures k in keys && forall o | o in keys :: FirstIndex(base, id, k) <= FirstIndex(base, id, o)
  {
    k :| k in keys;
    if keys != {k} {
      var o := FrontMost(base, id, keys - {k});
      assert forall x | x in keys :: x == k || x in keys - {k};
      k := if FirstIndex(base, id, k) <= FirstIndex(base, id, o) then k else o;
    }
  }

  /** An item whose ID is none of the keys still to come stays as it is. */
  lemma {:induction false} ItemStays<T, R>(
    base: seq<T>, id: T -> string, patch: (R, T) -> T, over: map<string, R>, order: seq<string>,
    rest: seq<string>, i: nat)
    requires i < |base| && forall k | k in order + rest :: k in over
    requires id(PatchInOrder(base, id, patch, over, order)[i]) !in rest
    ensures PatchInOrder(base, id, patch, over, order + rest)[i] == PatchInOrder(base, id, patch, over, order)[i]
  {
    if rest == [] {
      assert order + rest == order;
    } else {
      var n := |rest| - 1;
      assert (order + rest)[..|order + rest| - 1] == order + rest[..n];
      ItemStays(base, id, patch, over, order, rest[..n], i);
    }
  }

  /** A beginning of a visit that leaves an item changed for good, and not as it should be. */
  lemma SpoiltBy<T, R>(base: seq<T>, id: T -> string, patch: (R, T) -> T, over: map<string, R>, order: seq<string>,
      i: nat)
    returns (visit: seq<string>)
    requires i < |base| && Distinct(order) && forall k | k in order :: k in over
    requires var x := PatchInOrder(base, id, patch, over, order)[i];
             x != Patched(base, id, patch, over, over.Keys)[i] && (id(x) in over ==> id(x) in order)
    ensures Visits(visit, over)
    ensures PatchInOrder(base, id, patch, over, visit) != Patched(base, id, patch, over, over.Keys)
  {
    var rest := SomeOrder(over.Keys - set k | k in order);
    visit := order + rest;
    assert forall x, y | 0 <= x < |order| && 0 <= y < |rest| :: order[x] in order && rest[y] in rest;
    DistinctConcat(order, rest);
    ItemStays(base, id, patch, over, order, rest, i);
  }

  /** After a clash, the two overrides one after the other both reach the item, if nothing up to it has changed. */
  lemma BothReach<T, R>(base: seq<T>, id: T -> string, patch: (R, T) -> T, over: map<string, R>, i: nat, c: seq<T>)
    requires Hit(base, id, over, i) && Clashes(base, id, patch, over, i)
    requires |c| == |base| && forall j | 0 <= j <= i :: c[j] == base[j]
    ensures var k, k' := id(base[i]), NewId(base, id, patch, over, i);
            var twice := patch(over[k'], patch(over[k], base[i]));
            PatchOne(PatchOne(c, id, patch, k, over[k]), id, patch, k', over[k']) == c[i := twice]
  {
    var k, k' := id(base[i]), NewId(base, id, patch, over, i);
    FirstIs(c, id, k, i);
    FirstIs(PatchOne(c, id, patch, k, over[k]), id, k', i);
  }

  lemma PatchLast<T, R>(base: seq<T>, id: T -> string, patch: (R, T) -> T, over: map<string, R>, order: seq<string>,
      k: string)
    requires k in over && forall o | o in order :: o in over
    ensures PatchInOrder(base, id, patch, over, order + [k])
         == PatchOne(PatchInOrder(base, id, patch, over, order), id, patch, k, over[k])
  {
    assert (order + [k])[..|order|] == order;
  }

  lemma PairInOrder<T, R>(base: seq<T>, id: T -> string, patch: (R, T) -> T, over: map<string, R>, i: nat)
    requires Hit(base, id, over, i) && Clashes(base, id, patch, over, i)
    ensures var k, k' := id(base[i]), NewId(base, id, patch, over, i);
            var twice := patch(over[k'], patch(over[k], base[i]));
            PatchInOrder(base, id, patch, over, [k, k']) == base[i := twice]
  {
    var k, k' := id(base[i]), NewId(base, id, patch, over, i);
    assert [] + [k] == [k] && [k] + [k'] == [k, k'];
    PatchLast(base, id, patch, over, [], k);
    PatchLast(base, id, patch, over, [k], k');
    BothReach(base, id, patch, over, i, base);
  }

  /** A harmful clash spoils some visit of the map. */
  lemma HarmShows<T, R>(base: seq<T>, id: T -> string, patch: (R, T) -> T, over: map<string, R>, i: nat)
      returns (visit: seq<string>)
    requires Hit(base, id, over, i) && Harmful(base, id, patch, over, i)
    ensures Visits(visit, over)
    ensures PatchInOrder(base, id, patch, over, visit) != Patched(base, id, patch, over, over.Keys)
  {
    var k, k' := id(base[i]), NewId(base, id, patch, over, i);
    var once := patch(over[k], base[i]);
    var twice := patch(over[k'], once);
    var b := id(twice);
    if twice == once {
      PairInOrder(base, id, patch, over, i);
      visit := SpoiltBy(base, id, patch, over, [k, k'], FirstIndex(base, id, k'));
    } else if b !in over || b == k || b == k' {
      PairInOrder(base, id, patch, over, i);
      visit := SpoiltBy(base, id, patch, over, [k, k'], i);
    } else if FirstIndex(base, id, b) < i {
      visit := SpoiltAhead(base, id, patch, over, i, b);
    } else {
      visit := SpoiltBehind(base, id, patch, over, i, b);
    }
  }

  /** The case in which a third override, of an item further ahead, could undo the harm: it misses the item. */
  lemma SpoiltAhead<T, R>(base: seq<T>, id: T -> string, patch: (R, T) -> T, over: map<string, R>, i: nat, b: string)
      returns (visit: seq<string>)
    requires Hit(base, id, over, i) && Clashes(base, id, patch, over, i)
    requires b in over && b != id(base[i]) && b != NewId(base, id, patch, over, i) && FirstIndex(base, id, b) < i
    requires var once := patch(over[id(base[i])], base[i]);
             var twice := patch(over[NewId(base, id, patch, over, i)], once);
             twice != once && id(twice) == b
    ensures Visits(visit, over)
    ensures PatchInOrder(base, id, patch, over, visit) != Patched(base, id, patch, over, over.Keys)
  {
    var k, k', f := id(base[i]), NewId(base, id, patch, over, i), FirstIndex(base, id, b);
    PairInOrder(base, id, patch, over, i);
    assert [k, k'] + [b] == [k, k', b];
    PatchLast(base, id, patch, over, [k, k'], b);
    FirstIs(PatchInOrder(base, id, patch, over, [k, k']), id, b, f);
    visit := SpoiltBy(base, id, patch, over, [k, k', b], i);
  }

  /** The case in which a third override, of an item further back, could undo the harm: it comes first. */
  lemma SpoiltBehind<T, R>(base: seq<T>, id: T -> string, patch: (R, T) -> T, over: map<string, R>, i: nat, b: string)
      returns (visit: seq<string>)
    requires Hit(base, id, over, i) && Clashes(base, id, patch, over, i)
    requires b in over && b != id(base[i]) && b != NewId(base, id, patch, over, i) && i < FirstIndex(base, id, b)
    requires var once := patch(over[id(base[i])], base[i]);
             var twice := patch(over[NewId(base, id, patch, over, i)], once);
             twice != once && id(twice) == b
    ensures Visits(visit, over)
    ensures PatchInOrder(base, id, patch, over, visit) != Patched(base, id, patch, over, over.Keys)
  {
    var k, k' := id(base[i]), NewId(base, id, patch, over, i);
    assert [] + [b] == [b] && [b] + [k] == [b, k] && [b, k] + [k'] == [b, k, k'];
    PatchLast(base, id, patch, over, [], b);
    PatchLast(base, id, patch, over, [b], k);
    PatchLast(base, id, patch, over, [b, k], k');
    BothReach(base, id, patch, over, i, PatchOne(base, id, patch, b, over[b]));
    visit := SpoiltBy(base, id, patch, over, [b, k, k'], i);
  }

  /** All visits of the map give one result if and only if no clash does harm; that result is the order-free one. */
  lemma OrdersAgreeIffNoHarm<T, R>(base: seq<T>, id: T -> string, patch: (R, T) -> T, over: map<string, R>)
    ensures OrdersAgree(base, id, patch, over) <==> NoHarm(base, id, patch, over)
    ensures NoHarm(base, id, patch, over) <==>
            forall o | Visits(o, over) ::
              PatchInOrder(base, id, patch, over, o) == Patched(base, id, patch, over, over.Keys)
  {
    if NoHarm(base, id, patch, over) {
      forall o | Visits(o, over)
        ensures PatchInOrder(base, id, patch, over, o) == Patched(base, id, patch, over, over.Keys)
      {
        OrderDoesNotMatter(base, id, patch, over, o);
        assert (set k | k in o) == over.Keys;
      }
    } else {
      var i :| 0 <= i < |base| && Hit(base, id, over, i) && Harmful(base, id, patch, over, i);
      var spoilt := HarmShows(base, id, patch, over, i);
      var right := BackToFront(base, id, patch, over, over.Keys);
      assert Visits(spoilt, over) && Visits(right, over);
    }
  }

  /** The condition is needed: a patch that renames its item makes the result depend on the order. */
  lemma RenamingPatchDependsOnOrder()
    ensures var id, patch := (x: string) => x, (raw: string, x: string) => raw;
            var over := map["a" := "b", "b" := "c"];
            PatchInOrder(["a"], id, patch, over, ["a", "b"]) != PatchInOrder(["a"], id, patch, over, ["b", "a"])
  {
  }

  /** The override loop: the map in whatever order it comes, the array by a search that stops at the first hit. */
  method OverrideInPlace<T, R>(a: array<T>, n: nat, id: T -> string, patch: (R, T) -> T, over: map<string, R>)
    returns (ghost order: seq<string>)
    requires n <= a.Length
    modifies a
    ensures Distinct(order) && (set k | k in order) == over.Keys && forall k | k in order :: k in over
    ensures a[..n] == PatchInOrder(old(a[..n]), id, patch, over, order)
  {
    var left := over.Keys;
    order := [];
    while left != {}
      invariant left <= over.Keys && (set k | k in order) == over.Keys - left
      invariant Distinct(order) && forall k | k in order :: k in over && k !in left
      invariant a[..n] == PatchInOrder(old(a[..n]), id, patch, over, order)
      decreases left
    {
      var k :| k in left;
      OverrideFirst(a, n, id, patch, k, over[k]);
      assert (order + [k])[..|order|] == order;
      assert (set x | x in order + [k]) == (set x | x in order) + {k};
      order := order + [k];
      left := left - {k};
    }
  }

  method OverrideFirst<T, R>(a: array<T>, n: nat, id: T -> string, patch: (R, T) -> T, key: string, raw: R)
    requires n <= a.Length
    modifies a
    ensures a[..n] == PatchOne(old(a[..n]), id, patch, key, raw)
  {
    for i := 0 to n
      invariant a[..n] == old(a[..n])
      invariant forall j | 0 <= j < i :: id(a[j]) != key
    {
      if id(a[i]) == key {
        assert FirstIndex(a[..n], id, key) == i;
        a[i] := patch(raw, a[i]);
        return;
      }
    }
  }

  // ----- Appending, and the whole -----

  function Decoded<T>(append: seq<Option<T>>): seq<T> {
    if append == [] then []
    else
      var n := |append| - 1;
      Decoded(append[..n]) + if append[n].Some? then [append[n].value] else []
  }

  /** The positions of the additions that could be decoded. */
  function Decodable<T>(append: seq<Option<T>>): set<nat> { set i: nat | i < |append| && append[i].Some? }

  /** Appended are exactly the additions that could be decoded, in order. */
  lemma {:induction false} DecodedInOrder<T>(append: seq<Option<T>>) returns (at: seq<nat>)
    ensures Ascending(at, Decodable(append)) && |at| == |Decoded(append)|
    ensures forall k | 0 <= k < |at| :: at[k] < |append| && append[at[k]] == Some(Decoded(append)[k])
  {
    at := [];
    if append != [] {
      var n := |append| - 1;
      at := DecodedInOrder(append[..n]);
      assert Decodable(append) == Decodable(append[..n]) + if append[n].Some? then {n} else {};
      if append[n].Some? {
        AscendingAppend(at, Decodable(append[..n]), n);
        at := at + [n];
      }
    }
  }

  /** The whole override of one section. */
  method ApplyArrayOverride<T, R>(a: array<T>, id: T -> string, patch: (R, T) -> T, op: ArrayOverride<T, R>)
    returns (result: seq<T>, ghost order: seq<string>)
    modifies a
    ensures Distinct(order) && (set k | k in order) == op.override_.Keys && forall k | k in order :: k in op.override_
    ensures var kept := Remaining(old(a[..]), id, set x | x in op.remove);
            && result == PatchInOrder(kept, id, patch, op.override_, order) + Decoded(op.append)
            && (NoHarm(kept, id, patch, op.override_) ==>
                  result == Patched(kept, id, patch, op.override_, op.override_.Keys) + Decoded(op.append))
  {
    var n := RemoveInPlace(a, id, op.remove);
    ghost var kept := a[..n];
    order := OverrideInPlace(a, n, id, patch, op.override_);
    if NoHarm(kept, id, patch, op.override_) {
      OrderDoesNotMatter(kept, id, patch, op.override_, order);
    }
    result := a[..n];
    for i := 0 to |op.append|
      invariant result == a[..n] + Decoded(op.append[..i])
    {
      assert op.append[..i + 1][..i] == op.append[..i];
      if op.append[i].Some? {
        result := result + [op.append[i].value];
      }
    }
    assert op.append[..|op.append|] == op.append;
  }

  // ----- IDs stay unique -----

  function IdsOf<T>(items: seq<T>, id: T -> string): seq<string> {
    seq(|items|, i requires 0 <= i < |items| => id(items[i]))
  }

  lemma {:induction false} RemainingStaysDistinct<T>(base: seq<T>, id: T -> string, remove: set<string>)
    requires Distinct(IdsOf(base, id))
    ensures Distinct(IdsOf(Remaining(base, id, remove), id))
  {
    if base != [] {
      var n := |base| - 1;
      assert IdsOf(base[..n], id) == IdsOf(base, id)[..n];
      RemainingStaysDistinct(base[..n], id, remove);
      var r := Remaining(base[..n], id, remove);
      forall i | 0 <= i < |r| ensures id(r[i]) != id(base[n]) {
        assert r[i] in base[..n];
        var j :| 0 <= j < n && base[j] == r[i];
        assert IdsOf(base, id)[j] != IdsOf(base, id)[n];
      }
      var ids, all := IdsOf(r, id), IdsOf(Remaining(base, id, remove), id);
      assert forall i | 0 <= i < |r| :: all[i] == ids[i];
    }
  }

  lemma PatchedKeepsIds<T, R>(base: seq<T>, id: T -> string, patch: (R, T) -> T, over: map<string, R>)
    requires KeepsIds(base, id, patch, over)
    ensures IdsOf(Patched(base, id, patch, over, over.Keys), id) == IdsOf(base, id)
  {
    var p := Patched(base, id, patch, over, over.Keys);
    forall i | 0 <= i < |base| ensures id(p[i]) == id(base[i]) {
      assert Hit(base, id, over, i) ==> NewId(base, id, patch, over, i) == id(base[i]);
    }
  }

  /** Unique base IDs and fresh, distinct appended ones give a section with unique IDs. */
  lemma OverriddenIdsStayUnique<T, R>(base: seq<T>, id: T -> string, patch: (R, T) -> T, op: ArrayOverride<T, R>)
    requires KeepsIds(Remaining(base, id, set x | x in op.remove), id, patch, op.override_)
    requires Distinct(IdsOf(base, id)) && Distinct(IdsOf(Decoded(op.append), id))
    requires forall x, y | x in base && y in Decoded(op.append) :: id(x) != id(y)
    ensures var kept := Remaining(base, id, set x | x in op.remove);
            Distinct(IdsOf(Patched(kept, id, patch, op.override_, op.override_.Keys) + Decoded(op.append), id))
  {
    var gone := set x | x in op.remove;
    RemainingStaysDistinct(base, id, gone);
    PatchedAndAppended(Remaining(base, id, gone), id, patch, op.override_, Decoded(op.append));
  }

  lemma PatchedAndAppended<T, R>(kept: seq<T>, id: T -> string, patch: (R, T) -> T, over: map<string, R>, d: seq<T>)
    requires KeepsIds(kept, id, patch, over) && Distinct(IdsOf(kept, id)) && Distinct(IdsOf(d, id))
    requires forall x, y | x in kept && y in d :: id(x) != id(y)
    ensures Distinct(IdsOf(Patched(kept, id, patch, over, over.Keys) + d, id))
  {
    var p := Patched(kept, id, patch, over, over.Keys);
    PatchedKeepsIds(kept, id, patch, over);
    assert IdsOf(p + d, id) == IdsOf(kept, id) + IdsOf(d, id) by {
      assert forall i | 0 <= i < |p| :: IdsOf(p, id)[i] == id(p[i]);
    }
    forall i, j | 0 <= i < |kept| && 0 <= j < |d| ensures IdsOf(kept, id)[i] != IdsOf(d, id)[j] {
      assert kept[i] in kept && d[j] in d;
    }
    DistinctConcat(IdsOf(kept, id), IdsOf(d, id));
  }

  lemma DistinctConcat<U>(s: seq<U>, t: seq<U>)
    requires Distinct(s) && Distinct(t) && forall i, j | 0 <= i < |s| && 0 <= j < |t| :: s[i] != t[j]
    ensures Distinct(s + t)
  {
  }
}
