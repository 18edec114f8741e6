/** The scanners: the root `AssemblyScanner`, which owns the assemblies and
    the lazily computed universe of their types; the `TypeScanner` type
    selection it hands out; and the `TypeInterfaceScanner` pair selection a
    type selection leads to. Caller actions are state transformers `(S, X) -> S`
    over the caller's own state, and a terminal `Do` runs the caller's action
    over what is selected and returns the root that started the chain. */
module Gas {
  import opened Wrappers
  import opened Enumerables
  import opened Reflection
  import opened TypeFilters
  import opened InterfacePairs

  /** The one exception the scanners raise themselves. */
  datatype Error = ArgumentNull(paramName: string)

  /** `x ?? throw new ArgumentNullException(paramName)`, as every constructor
      guards its arguments. */
  function RequireNotNull<T>(x: Option<T>, paramName: string): (r: Result<T, Error>)
    ensures r.Success? <==> x.Some?
    ensures r.Success? ==> r.value == x.value
    ensures r.Failure? ==> r.error == ArgumentNull(paramName)
  {
    match x
    case Some(v) => Success(v)
    case None => Failure(ArgumentNull(paramName))
  }

  /** The root scanner. `assemblies` is read-only; `allTypes` is the
      `??=`-cache of the universe, filled on first use and never changed. */
  class AssemblyScanner {
    const rt: Runtime
    const assemblies: seq<Assembly>
    var allTypes: Option<seq<Type>>

    /** Whatever is cached is the universe of the assemblies. */
    ghost predicate Valid()
      reads this
    {
      allTypes.Some? ==> allTypes.value == Universe(rt, assemblies)
    }

    /** The cache has been filled. */
    ghost predicate Cached()
      reads this
    {
      allTypes == Some(Universe(rt, assemblies))
    }

    /** The constructor on a non-null assembly array. */
    constructor (rt: Runtime, assemblies: seq<Assembly>)
      ensures Valid()
      ensures this.rt == rt && this.assemblies == assemblies && allTypes == None
    {
      this.rt := rt;
      this.assemblies := assemblies;
      allTypes := None;
    }

    /** `Scan(params Assembly[])` and `Scan(IEnumerable<Assembly>)`: the
        constructor, which rejects a null assembly list. */
    static method Scan(rt: Runtime, assemblies: Option<seq<Assembly>>) returns (r: Result<AssemblyScanner, Error>)
      ensures r.Failure? <==> assemblies.None?
      ensures r.Failure? ==> r.error == ArgumentNull("assemblies")
      ensures r.Success? ==> fresh(r.value) && r.value.Valid()
      ensures r.Success? ==> r.value.rt == rt && r.value.assemblies == assemblies.value && r.value.allTypes == None
    {
      var checked := RequireNotNull(assemblies, "assemblies");
      if checked.Failure? {
        return Failure(checked.error);
      }
      var scanner := new AssemblyScanner(rt, checked.value);
      return Success(scanner);
    }

    /** `Scan(params Type[])` and `Scan(IEnumerable<Type>)`: scan the
        declaring assembly of each example type, in order and with
        repetitions; a null list reaches the constructor as null. */
    static method ScanTypes(rt: Runtime, types: Option<seq<Type>>) returns (r: Result<AssemblyScanner, Error>)
      ensures r.Failure? <==> types.None?
      ensures r.Failure? ==> r.error == ArgumentNull("assemblies")
      ensures r.Success? ==> fresh(r.value) && r.value.Valid()
      ensures r.Success? ==> r.value.rt == rt && r.value.allTypes == None
      ensures r.Success? ==> r.value.assemblies == AssembliesOf(rt, types).value
    {
      r := Scan(rt, AssembliesOf(rt, types));
    }

    /** `AllTypes`: the universe, computed on the first call and cached. */
    method AllTypes() returns (all: seq<Type>)
      requires Valid()
      modifies this`allTypes
      ensures Valid() && Cached()
      ensures all == Universe(rt, assemblies)
      ensures old(allTypes).Some? ==> allTypes == old(allTypes)
    {
      if allTypes.None? {
        allTypes := Some(SelectMany(assemblies, rt.getTypes));
      }
      all := allTypes.value;
    }

    /** `ForEachTypeMatching(predicate)`: the universe's types that satisfy
        `p`, with this scanner as root. */
    method ForEachTypeMatching(p: Type -> bool) returns (selection: TypeScanner)
      requires Valid()
      modifies this`allTypes
      ensures Valid() && Cached()
      ensures fresh(selection) && selection.root == this
      ensures selection.types == Filter(Universe(rt, assemblies), p)
    {
      var all := AllTypes();
      selection := new TypeScanner(Filter(all, p), this);
    }

    /** `ForEachTypeImplementing<T>()`. */
    method ForEachTypeImplementingSingle(target: Type) returns (selection: TypeScanner)
      requires Valid()
      modifies this`allTypes
      ensures Valid() && Cached()
      ensures fresh(selection) && selection.root == this
      ensures selection.types == Filter(Universe(rt, assemblies), AssignableTo(rt, target))
    {
      selection := ForEachTypeMatching(AssignableTo(rt, target));
    }

    /** `ForEachTypeImplementing(params Type[])` and
        `ForEachTypeImplementing(IEnumerable<Type>)`. */
    method ForEachTypeImplementing(targets: seq<Type>) returns (selection: TypeScanner)
      requires Valid()
      modifies this`allTypes
      ensures Valid() && Cached()
      ensures fresh(selection) && selection.root == this
      ensures selection.types == Filter(Universe(rt, assemblies), Implementing(rt, targets))
    {
      selection := ForEachTypeMatching(Implementing(rt, targets));
    }

    /** `ForEachConcreteClassMatching(predicate)`. */
    method ForEachConcreteClassMatching(p: Type -> bool) returns (selection: TypeScanner)
      requires Valid()
      modifies this`allTypes
      ensures Valid() && Cached()
      ensures fresh(selection) && selection.root == this
      ensures selection.types == Filter(Universe(rt, assemblies), ConcreteClass(rt, p))
    {
      selection := ForEachTypeMatching(ConcreteClass(rt, p));
    }

    /** `ForEachConcreteClassImplementing<T>()`. */
    method ForEachConcreteClassImplementingSingle(target: Type) returns (selection: TypeScanner)
      requires Valid()
      modifies this`allTypes
      ensures Valid() && Cached()
      ensures fresh(selection) && selection.root == this
      ensures selection.types == Filter(Universe(rt, assemblies), ConcreteClass(rt, AssignableTo(rt, target)))
    {
      selection := ForEachConcreteClassMatching(AssignableTo(rt, target));
    }

    /** `ForEachConcreteClassImplementing(params Type[])` and
        `ForEachConcreteClassImplementing(IEnumerable<Type>)`. */
    method ForEachConcreteClassImplementing(targets: seq<Type>) returns (selection: TypeScanner)
      requires Valid()
      modifies this`allTypes
      ensures Valid() && Cached()
      ensures fresh(selection) && selection.root == this
      ensures selection.types == Filter(Universe(rt, assemblies), ConcreteClass(rt, Implementing(rt, targets)))
    {
      selection := ForEachConcreteClassMatching(Implementing(rt, targets));
    }
  }

  /** A type selection: a fixed sequence of types and the root that made it. */
  class TypeScanner {
    const types: seq<Type>
    const root: AssemblyScanner

    constructor (types: seq<Type>, root: AssemblyScanner)
      ensures this.types == types && this.root == root
    {
      this.types := types;
      this.root := root;
    }

    /** The constructor with its null checks, `types` first. */
    static method Create(types: Option<seq<Type>>, root: AssemblyScanner?) returns (r: Result<TypeScanner, Error>)
      ensures r.Success? <==> types.Some? && root != null
      ensures types.None? ==> r == Failure(ArgumentNull("types"))
      ensures types.Some? && root == null ==> r == Failure(ArgumentNull("assemblyScanner"))
      ensures r.Success? ==> fresh(r.value) && r.value.types == types.value && r.value.root == root
    {
      var checkedTypes := RequireNotNull(types, "types");
      if checkedTypes.Failure? {
        return Failure(checkedTypes.error);
      }
      var checkedRoot := RequireNotNull(if root == null then None else Some(root), "assemblyScanner");
      if checkedRoot.Failure? {
        return Failure(checkedRoot.error);
      }
      var selection := new TypeScanner(checkedTypes.value, checkedRoot.value);
      return Success(selection);
    }

    /** `Do(action)`: run the action once per selected type, in order, and
        return the root. */
    method Do<S>(action: (S, Type) -> S, s0: S) returns (s: S, back: AssemblyScanner)
      ensures s == Fold(action, s0, types)
      ensures back == root
    {
      s := s0;
      for k := 0 to |types|
        invariant s == Fold(action, s0, types[..k])
      {
        assert types[..k + 1] == types[..k] + [types[k]];
        FoldSnoc(action, s0, types[..k], types[k]);
        s := action(s, types[k]);
      }
      assert types[..|types|] == types;
      back := root;
    }

    /** `ForEachImplementedInterface()`: the same types and the same root,
        unfiltered, as a pair selection. */
    method ForEachImplementedInterface() returns (pairs: TypeInterfaceScanner)
      ensures fresh(pairs) && pairs.types == types && pairs.root == root
    {
      pairs := new TypeInterfaceScanner(types, root);
    }
  }

  /** A type/interface pair selection: a fixed sequence of types and the root
      that made the type selection it came from. Interfaces are asked of the
      root's runtime. */
  class TypeInterfaceScanner {
    const types: seq<Type>
    const root: AssemblyScanner

    constructor (types: seq<Type>, root: AssemblyScanner)
      ensures this.types == types && this.root == root
    {
      this.types := types;
      this.root := root;
    }

    /** The constructor with its null checks, `types` first. */
    static method Create(types: Option<seq<Type>>, root: AssemblyScanner?) returns (r: Result<TypeInterfaceScanner, Error>)
      ensures r.Success? <==> types.Some? && root != null
      ensures types.None? ==> r == Failure(ArgumentNull("types"))
      ensures types.Some? && root == null ==> r == Failure(ArgumentNull("assemblyScanner"))
      ensures r.Success? ==> fresh(r.value) && r.value.types == types.value && r.value.root == root
    {
      var checkedTypes := RequireNotNull(types, "types");
      if checkedTypes.Failure? {
        return Failure(checkedTypes.error);
      }
      var checkedRoot := RequireNotNull(if root == null then None else Some(root), "assemblyScanner");
      if checkedRoot.Failure? {
        return Failure(checkedRoot.error);
      }
      var selection := new TypeInterfaceScanner(checkedTypes.value, checkedRoot.value);
      return Success(selection);
    }

    /** `Do(action)`: every pair whose interface lies outside the "System."
        namespace. */
    method Do<S>(action: (S, Pair) -> S, s0: S) returns (s: S, back: AssemblyScanner)
      ensures s == Fold(action, s0, Pairs(root.rt, types, OutsideSystemNamespace(root.rt)))
      ensures back == root
    {
      s, back := DoFiltered(OutsideSystemNamespace(root.rt), action, s0);
    }

    /** `DoForAll(action)`: every pair. */
    method DoForAll<S>(action: (S, Pair) -> S, s0: S) returns (s: S, back: AssemblyScanner)
      ensures s == Fold(action, s0, Pairs(root.rt, types, AnyInterface()))
      ensures back == root
    {
      s, back := DoFiltered(AnyInterface(), action, s0);
    }

    /** The private `Do(interfaceFilter, action)` both share: for each type
        in order, for each of its interfaces in order that the filter admits,
        run the action on the pair; then return the root. */
    method DoFiltered<S>(interfaceFilter: Type -> bool, action: (S, Pair) -> S, s0: S) returns (s: S, back: AssemblyScanner)
      ensures s == Fold(action, s0, Pairs(root.rt, types, interfaceFilter))
      ensures back == root
    {
      var rt := root.rt;
      s := s0;
      for k := 0 to |types|
        invariant s == Fold(action, s0, Pairs(rt, types[..k], interfaceFilter))
      {
        var t := types[k];
        var interfaces := rt.getInterfaces(t);
        ghost var before := Pairs(rt, types[..k], interfaceFilter);
        assert interfaces[..0] == [];
        assert before + PairsWith(t, []) == before;
        for j := 0 to |interfaces|
          invariant s == Fold(action, s0, before + PairsWith(t, Filter(interfaces[..j], interfaceFilter)))
        {
          FoldPairsStep(action, s0, before, t, interfaces, j, interfaceFilter);
          if interfaceFilter(interfaces[j]) {
            s := action(s, (t, interfaces[j]));
          }
        }
        assert interfaces[..|interfaces|] == interfaces;
        PairsSnoc(rt, types, k, interfaceFilter);
      }
      assert types[..|types|] == types;
      back := root;
    }
  }

  /** A type selection holds a fixed sequence: running `Do` twice with
      recording actions records the selected types twice, and both runs go
      back to the same root. */
  method DoTwice(selection: TypeScanner) returns (first: seq<Type>, second: seq<Type>, back1: AssemblyScanner, back2: AssemblyScanner)
    ensures first == selection.types && second == first
    ensures back1 == selection.root && back2 == selection.root
  {
    first, back1 := selection.Do(Record(), []);
    second, back2 := selection.Do(Record(), []);
    FoldRecord([], selection.types);
  }

  /** The same for a pair selection with `Do` and with `DoForAll`; all four
      runs go back to the same root. */
  method PairsTwice(pairs: TypeInterfaceScanner) returns (first: seq<Pair>, second: seq<Pair>, firstAll: seq<Pair>, secondAll: seq<Pair>, roots: seq<AssemblyScanner>)
    ensures first == second == Pairs(pairs.root.rt, pairs.types, OutsideSystemNamespace(pairs.root.rt))
    ensures firstAll == secondAll == Pairs(pairs.root.rt, pairs.types, AnyInterface())
    ensures roots == [pairs.root, pairs.root, pairs.root, pairs.root]
  {
    var back1, back2, back3, back4;
    first, back1 := pairs.Do(Record(), []);
    second, back2 := pairs.Do(Record(), []);
    firstAll, back3 := pairs.DoForAll(Record(), []);
    secondAll, back4 := pairs.DoForAll(Record(), []);
    roots := [back1, back2, back3, back4];
    FoldRecord([], Pairs(pairs.root.rt, pairs.types, OutsideSystemNamespace(pairs.root.rt)));
    FoldRecord([], Pairs(pairs.root.rt, pairs.types, AnyInterface()));
  }

  /** Reading `AllTypes` twice gives the universe both times; the first read
      fills the cache and the second reads it. */
  method AllTypesTwice(scanner: AssemblyScanner) returns (first: seq<Type>, second: seq<Type>)
    requires scanner.Valid()
    modifies scanner`allTypes
    ensures scanner.Cached()
    ensures first == second == Universe(scanner.rt, scanner.assemblies)
  {
    first := scanner.AllTypes();
    second := scanner.AllTypes();
  }
}
