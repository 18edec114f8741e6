/** What the root scanner's selections contain: the universe of types of its
    assemblies, and the predicates its `ForEach*` operations filter it by. */
module TypeFilters {
  import opened Wrappers
  import opened Enumerables
  import opened Reflection

  /** `AllTypes`: the types of every assembly, assembly after assembly, as
      `SelectMany` concatenates them. Nothing is deduplicated. */
  function Universe(rt: Runtime, assemblies: seq<Assembly>): (r: seq<Type>)
    ensures forall t :: t in r <==> exists a :: a in assemblies && t in rt.getTypes(a)
    ensures |r| == TotalLength(assemblies, rt.getTypes)
  {
    SelectManyLength(assemblies, rt.getTypes);
    SelectMany(assemblies, rt.getTypes)
  }

  /** `types?.Select(t => t.Assembly)`: the declaring assembly of each example
      type, in order and with repetitions; null stays null. */
  function AssembliesOf(rt: Runtime, types: Option<seq<Type>>): (r: Option<seq<Assembly>>)
    ensures r.Some? <==> types.Some?
    ensures r.Some? ==> |r.value| == |types.value|
    ensures r.Some? ==> forall k :: 0 <= k < |types.value| ==> r.value[k] == rt.assemblyOf(types.value[k])
  {
    match types
    case None => None
    case Some(ts) => Some(seq(|ts|, k requires 0 <= k < |ts| => rt.assemblyOf(ts[k])))
  }

  /** `types.Any(T => T.IsAssignableFrom(t))`, scanning the targets left to right. */
  function ImplementsAny(rt: Runtime, targets: seq<Type>, t: Type): (r: bool)
    ensures r <==> exists k :: 0 <= k < |targets| && rt.isAssignableFrom(targets[k], t)
    decreases |targets|
  {
    if targets == [] then false
    else rt.isAssignableFrom(targets[0], t) || ImplementsAny(rt, targets[1..], t)
  }

  /** The filter of `ForEachTypeImplementing(params Type[] types)`: an OR of
      the targets' assignability checks. */
  function Implementing(rt: Runtime, targets: seq<Type>): (r: Type -> bool)
    ensures forall t :: r(t) <==> exists k :: 0 <= k < |targets| && rt.isAssignableFrom(targets[k], t)
  {
    t => ImplementsAny(rt, targets, t)
  }

  /** The filter of `ForEachTypeImplementing<T>()`: the filter of the array
      form given the one target. */
  function AssignableTo(rt: Runtime, target: Type): (r: Type -> bool)
    ensures forall t :: r(t) == Implementing(rt, [target])(t)
  {
    t => rt.isAssignableFrom(target, t)
  }

  /** `t.IsClass && !t.IsAbstract`. */
  function IsConcreteClass(rt: Runtime): Type -> bool
  {
    t => rt.isClass(t) && !rt.isAbstract(t)
  }

  /** The complement of `IsConcreteClass`: interfaces, value types and abstract classes. */
  function IsNotConcreteClass(rt: Runtime): Type -> bool
  {
    t => !rt.isClass(t) || rt.isAbstract(t)
  }

  /** The filter of `ForEachConcreteClassMatching(predicate)`: what `p`
      admits, less interfaces, value types and abstract classes. */
  function ConcreteClass(rt: Runtime, p: Type -> bool): (r: Type -> bool)
    ensures forall t :: r(t) <==> p(t) && !IsNotConcreteClass(rt)(t)
  {
    t => rt.isClass(t) && !rt.isAbstract(t) && p(t)
  }

  /** The declaring assembly's types of an example type. */
  function DeclaringAssemblyTypes(rt: Runtime): Type -> seq<Type>
  {
    t => rt.getTypes(rt.assemblyOf(t))
  }

  // ---------------------------------------------------------------------
  // The universe

  /** Scanning two assembly lists one after the other scans their concatenation. */
  lemma UniverseAppend(rt: Runtime, a: seq<Assembly>, b: seq<Assembly>)
    ensures Universe(rt, a + b) == Universe(rt, a) + Universe(rt, b)
  {
    SelectManyAppend(a, b, rt.getTypes);
  }

  /** Scanning by example types scans each example's declaring assembly, once
      per example. */
  lemma {:induction false} UniverseOfExampleTypes(rt: Runtime, types: seq<Type>)
    ensures Universe(rt, AssembliesOf(rt, Some(types)).value) == SelectMany(types, DeclaringAssemblyTypes(rt))
    decreases |types|
  {
    var asms := AssembliesOf(rt, Some(types)).value;
    if types != [] {
      UniverseOfExampleTypes(rt, types[1..]);
      assert asms[1..] == AssembliesOf(rt, Some(types[1..])).value;
    }
  }

  /** Two example types from the same assembly list that assembly's types
      twice: the universe is a concatenation, not a set union. */
  lemma SameAssemblyTwice(rt: Runtime, t1: Type, t2: Type)
    requires rt.assemblyOf(t1) == rt.assemblyOf(t2)
    ensures Universe(rt, AssembliesOf(rt, Some([t1, t2])).value)
         == rt.getTypes(rt.assemblyOf(t1)) + rt.getTypes(rt.assemblyOf(t1))
  {
    var a := rt.assemblyOf(t1);
    assert AssembliesOf(rt, Some([t1, t2])).value == [a] + [a];
    UniverseAppend(rt, [a], [a]);
    assert [a][..0] == [];
  }

  // ---------------------------------------------------------------------
  // Implementing: an OR across the targets

  /** Implementing any of `a + b` is implementing any of `a` or any of `b`. */
  lemma ImplementingIsDisjunction(rt: Runtime, a: seq<Type>, b: seq<Type>, t: Type)
    ensures ImplementsAny(rt, a + b, t) == (ImplementsAny(rt, a, t) || ImplementsAny(rt, b, t))
  {
    if ImplementsAny(rt, b, t) {
      var k :| 0 <= k < |b| && rt.isAssignableFrom(b[k], t);
      assert (a + b)[|a| + k] == b[k];
    }
    if ImplementsAny(rt, a, t) {
      var k :| 0 <= k < |a| && rt.isAssignableFrom(a[k], t);
      assert (a + b)[k] == a[k];
    }
    if ImplementsAny(rt, a + b, t) {
      var k :| 0 <= k < |a + b| && rt.isAssignableFrom((a + b)[k], t);
      if k < |a| { assert (a + b)[k] == a[k]; } else { assert (a + b)[k] == b[k - |a|]; }
    }
  }

  /** A selection by several targets holds exactly the types that a selection
      by some one of them holds. */
  lemma SelectionByTargetsIsUnion(rt: Runtime, s: seq<Type>, targets: seq<Type>, t: Type)
    ensures t in Filter(s, Implementing(rt, targets))
        <==> exists k :: 0 <= k < |targets| && t in Filter(s, AssignableTo(rt, targets[k]))
  {
  }

  /** An empty target list selects nothing. */
  lemma EmptyTargetsSelectNothing(rt: Runtime, s: seq<Type>)
    ensures Filter(s, Implementing(rt, [])) == []
  {
    FilterNone(s, Implementing(rt, []));
  }

  /** The generic single-target forms select what the array forms select
      with that one target. */
  lemma SingleTargetIsArrayForm(rt: Runtime, s: seq<Type>, target: Type)
    ensures Filter(s, AssignableTo(rt, target)) == Filter(s, Implementing(rt, [target]))
    ensures Filter(s, ConcreteClass(rt, AssignableTo(rt, target)))
         == Filter(s, ConcreteClass(rt, Implementing(rt, [target])))
  {
    FilterExtensional(s, AssignableTo(rt, target), Implementing(rt, [target]));
    FilterExtensional(s, ConcreteClass(rt, AssignableTo(rt, target)), ConcreteClass(rt, Implementing(rt, [target])));
  }

  // ---------------------------------------------------------------------
  // Concrete classes: a narrowing of the plain selection

  /** The concrete-class selection by `p` is the selection by `p` with its
      non-class and abstract members taken out, in the same order: a
      subsequence, and what was taken out is exactly the non-concrete part. */
  lemma ConcreteClassNarrowing(rt: Runtime, s: seq<Type>, p: Type -> bool)
    ensures Filter(s, ConcreteClass(rt, p)) == Filter(Filter(s, p), IsConcreteClass(rt))
    ensures IsSubsequence(Filter(s, ConcreteClass(rt, p)), Filter(s, p))
    ensures multiset(Filter(s, p))
         == multiset(Filter(s, ConcreteClass(rt, p))) + multiset(Filter(Filter(s, p), IsNotConcreteClass(rt)))
  {
    FilterConjunction(s, p, IsConcreteClass(rt), ConcreteClass(rt, p));
    FilterIsSubsequence(Filter(s, p), IsConcreteClass(rt));
    FilterPartition(Filter(s, p), IsConcreteClass(rt), IsNotConcreteClass(rt));
  }

  /** `ForEachConcreteClassImplementing(types)` is `ForEachTypeImplementing(types)`
      with exactly the non-class and abstract members removed. */
  lemma ConcreteImplementingNarrowing(rt: Runtime, s: seq<Type>, targets: seq<Type>)
    ensures Filter(s, ConcreteClass(rt, Implementing(rt, targets)))
         == Filter(Filter(s, Implementing(rt, targets)), IsConcreteClass(rt))
    ensures forall t :: t in Filter(s, Implementing(rt, targets)) && t !in Filter(s, ConcreteClass(rt, Implementing(rt, targets)))
                    ==> !rt.isClass(t) || rt.isAbstract(t)
  {
    ConcreteClassNarrowing(rt, s, Implementing(rt, targets));
  }
}
