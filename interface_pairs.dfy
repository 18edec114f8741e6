/** What the type/interface pair selection hands to its actions: for each
    selected type, in order, the pair of the type with each of its interfaces
    that an interface filter lets through, in the order `GetInterfaces` lists
    them. */
module InterfacePairs {
  import opened Enumerables
  import opened Reflection

  /** A (type, implemented interface) pair. */
  type Pair = (Type, Type)

  /** The filter of `Do`: the interface's full name does not start with
      "System.", so it rejects exactly what `InSystemNamespace` admits. */
  function OutsideSystemNamespace(rt: Runtime): (r: Type -> bool)
    ensures forall i :: r(i) <==> !InSystemNamespace(rt)(i)
  {
    i => !StartsWith(rt.fullName(i), "System.")
  }

  /** The complement of `OutsideSystemNamespace`. */
  function InSystemNamespace(rt: Runtime): Type -> bool
  {
    i => StartsWith(rt.fullName(i), "System.")
  }

  /** The filter of `DoForAll`: `_ => true`, which admits every interface. */
  function AnyInterface(): (r: Type -> bool)
    ensures forall i :: r(i)
  {
    _ => true
  }

  /** A filter on interfaces read as a filter on pairs. */
  function OnInterface(f: Type -> bool): Pair -> bool
  {
    (p: Pair) => f(p.1)
  }

  /** `t` paired with each of `interfaces`, in order. */
  function PairsWith(t: Type, interfaces: seq<Type>): (r: seq<Pair>)
    ensures |r| == |interfaces|
    ensures forall k :: 0 <= k < |r| ==> r[k] == (t, interfaces[k])
  {
    seq(|interfaces|, k requires 0 <= k < |interfaces| => (t, interfaces[k]))
  }

  /** The pairs of one type: `t.GetInterfaces().Where(f)`, each paired with
      `t`. Every pair is `t` with one of its own interfaces that `f` admits,
      and there are no more pairs than interfaces. */
  function PairsOf(rt: Runtime, f: Type -> bool): (r: Type -> seq<Pair>)
    ensures forall t :: |r(t)| <= |rt.getInterfaces(t)|
    ensures forall t, p :: p in r(t) ==> p.0 == t && p.1 in rt.getInterfaces(t) && f(p.1)
  {
    t => PairsWith(t, Filter(rt.getInterfaces(t), f))
  }

  /** The pairs of a whole type sequence, type after type. Every pair is a
      type of the sequence with one of its own interfaces that `f` admits. */
  function Pairs(rt: Runtime, types: seq<Type>, f: Type -> bool): (r: seq<Pair>)
    ensures forall p :: p in r ==> p.0 in types && p.1 in rt.getInterfaces(p.0) && f(p.1)
  {
    SelectMany(types, PairsOf(rt, f))
  }

  lemma PairsWithSnoc(t: Type, interfaces: seq<Type>, i: Type)
    ensures PairsWith(t, interfaces + [i]) == PairsWith(t, interfaces) + [(t, i)]
  {
  }

  /** One more interface of the current type considered by the nested loop:
      the action runs on the pair exactly when the filter admits the interface. */
  lemma FoldPairsStep<S>(action: (S, Pair) -> S, s0: S, before: seq<Pair>, t: Type, interfaces: seq<Type>, j: nat, f: Type -> bool)
    requires j < |interfaces|
    ensures Fold(action, s0, before + PairsWith(t, Filter(interfaces[..j + 1], f)))
         == if f(interfaces[j]) then action(Fold(action, s0, before + PairsWith(t, Filter(interfaces[..j], f))), (t, interfaces[j]))
            else Fold(action, s0, before + PairsWith(t, Filter(interfaces[..j], f)))
  {
    var kept := Filter(interfaces[..j], f);
    FilterSnoc(interfaces, j, f);
    if f(interfaces[j]) {
      PairsWithSnoc(t, kept, interfaces[j]);
      assert before + PairsWith(t, kept + [interfaces[j]]) == (before + PairsWith(t, kept)) + [(t, interfaces[j])];
      FoldSnoc(action, s0, before + PairsWith(t, kept), (t, interfaces[j]));
    } else {
      assert kept + [] == kept;
    }
  }

  /** One more type considered by the outer loop. */
  lemma PairsSnoc(rt: Runtime, types: seq<Type>, k: nat, f: Type -> bool)
    requires k < |types|
    ensures Pairs(rt, types[..k + 1], f) == Pairs(rt, types[..k], f) + PairsWith(types[k], Filter(rt.getInterfaces(types[k]), f))
  {
    SelectManySnoc(types, k, PairsOf(rt, f));
  }

  lemma PairsWithMembership(t: Type, interfaces: seq<Type>, u: Type, i: Type)
    ensures (u, i) in PairsWith(t, interfaces) <==> u == t && i in interfaces
  {
    if u == t && i in interfaces {
      var k :| 0 <= k < |interfaces| && interfaces[k] == i;
      assert PairsWith(t, interfaces)[k] == (u, i);
    }
  }

  /** Every pair handed to an action is a selected type with one of its own
      interfaces that the filter admits, and every such pair is handed over. */
  lemma PairsMembership(rt: Runtime, types: seq<Type>, f: Type -> bool, t: Type, i: Type)
    ensures (t, i) in Pairs(rt, types, f) <==> t in types && i in rt.getInterfaces(t) && f(i)
  {
    forall u | u in types
      ensures (t, i) in PairsOf(rt, f)(u) <==> u == t && i in Filter(rt.getInterfaces(u), f)
    {
      PairsWithMembership(u, Filter(rt.getInterfaces(u), f), t, i);
    }
  }

  lemma {:induction false} FilterPairsWith(t: Type, interfaces: seq<Type>, f: Type -> bool)
    ensures Filter(PairsWith(t, interfaces), OnInterface(f)) == PairsWith(t, Filter(interfaces, f))
    decreases |interfaces|
  {
    if interfaces != [] {
      var i := interfaces[0];
      var rest := interfaces[1..];
      assert PairsWith(t, interfaces) == [(t, i)] + PairsWith(t, rest);
      FilterCons((t, i), PairsWith(t, rest), OnInterface(f));
      FilterPairsWith(t, rest, f);
      if f(i) {
        assert PairsWith(t, [i] + Filter(rest, f)) == [(t, i)] + PairsWith(t, Filter(rest, f));
      }
    }
  }

  /** The pairs an interface filter admits are the unfiltered pairs with that
      filter applied afterwards: `Do` sees the `DoForAll` trace with the
      rejected pairs taken out, in the same order. */
  lemma {:induction false} FilteredPairsAreFilterOfAll(rt: Runtime, types: seq<Type>, f: Type -> bool)
    ensures Pairs(rt, types, f) == Filter(Pairs(rt, types, AnyInterface()), OnInterface(f))
    decreases |types|
  {
    if types != [] {
      var t := types[0];
      FilteredPairsAreFilterOfAll(rt, types[1..], f);
      FilterAll(rt.getInterfaces(t), AnyInterface());
      FilterPairsWith(t, rt.getInterfaces(t), f);
      FilterAppend(PairsOf(rt, AnyInterface())(t), Pairs(rt, types[1..], AnyInterface()), OnInterface(f));
    }
  }

  /** `Do` hands over exactly the `DoForAll` pairs whose interface lies outside
      the "System." namespace, in the same order, and what it leaves out is
      exactly the pairs whose interface lies inside it. */
  lemma DoDropsExactlySystemInterfaces(rt: Runtime, types: seq<Type>)
    ensures Pairs(rt, types, OutsideSystemNamespace(rt))
         == Filter(Pairs(rt, types, AnyInterface()), OnInterface(OutsideSystemNamespace(rt)))
    ensures IsSubsequence(Pairs(rt, types, OutsideSystemNamespace(rt)), Pairs(rt, types, AnyInterface()))
    ensures multiset(Pairs(rt, types, AnyInterface()))
         == multiset(Pairs(rt, types, OutsideSystemNamespace(rt)))
          + multiset(Filter(Pairs(rt, types, AnyInterface()), OnInterface(InSystemNamespace(rt))))
  {
    var all := Pairs(rt, types, AnyInterface());
    FilteredPairsAreFilterOfAll(rt, types, OutsideSystemNamespace(rt));
    FilterIsSubsequence(all, OnInterface(OutsideSystemNamespace(rt)));
    FilterPartition(all, OnInterface(OutsideSystemNamespace(rt)), OnInterface(InSystemNamespace(rt)));
  }

  lemma {:induction false} TotalLengthOfAllPairs(rt: Runtime, types: seq<Type>)
    ensures TotalLength(types, PairsOf(rt, AnyInterface())) == TotalLength(types, rt.getInterfaces)
    decreases |types|
  {
    if types != [] {
      TotalLengthOfAllPairs(rt, types[1..]);
      FilterAll(rt.getInterfaces(types[0]), AnyInterface());
    }
  }

  /** `DoForAll` calls its action once per implemented interface of each type:
      the sum over the types of the number of their interfaces. */
  lemma AllPairsCount(rt: Runtime, types: seq<Type>)
    ensures |Pairs(rt, types, AnyInterface())| == TotalLength(types, rt.getInterfaces)
  {
    SelectManyLength(types, PairsOf(rt, AnyInterface()));
    TotalLengthOfAllPairs(rt, types);
  }
}
