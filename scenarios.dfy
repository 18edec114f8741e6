/** The repository's test scenarios, replayed against one concrete runtime:
    the service types of the `Gas.Tests.Types` assembly, the `ServiceD` of
    the executing test assembly, and the core library's `IDisposable`.
    The hierarchy below is the one the tests' expectations describe. */
module Scenarios {
  import opened Wrappers
  import opened Enumerables
  import opened Reflection
  import opened TypeFilters
  import opened InterfacePairs
  import opened Gas

  const IService := Type(0)
  const IServiceA := Type(1)            // IServiceA : IService
  const ISpecialServiceA := Type(2)     // interface ISpecialServiceA
  const BaseServiceA := Type(3)         // abstract class BaseServiceA : IServiceA
  const ServiceA := Type(4)             // class ServiceA : BaseServiceA
  const SpecialServiceA := Type(5)      // class SpecialServiceA : BaseServiceA, ISpecialServiceA, IDisposable
  const IServiceB := Type(6)            // IServiceB : IService
  const ServiceB := Type(7)             // class ServiceB : IServiceB
  const BaseServiceC := Type(8)         // abstract class BaseServiceC : IService
  const ServiceC := Type(9)             // class ServiceC : BaseServiceC
  const IDisposable := Type(10)         // System.IDisposable
  const ServiceD := Type(11)            // class ServiceD : IService, in the executing test assembly

  /** The assembly of `typeof(IService)`. */
  const TypesAssembly := Assembly(0)
  /** The assembly of `typeof(IDisposable)`. */
  const CoreLibrary := Assembly(1)
  /** `Assembly.GetExecutingAssembly()` in the tests. */
  const TestsAssembly := Assembly(2)

  /** The types of `TypesAssembly`, in declaration order. */
  const TestTypes: seq<Type> :=
    [IService, IServiceA, ISpecialServiceA, BaseServiceA, ServiceA, SpecialServiceA, IServiceB, ServiceB, BaseServiceC, ServiceC]

  function TypesOf(a: Assembly): seq<Type>
  {
    if a == TypesAssembly then TestTypes
    else if a == CoreLibrary then [IDisposable]
    else if a == TestsAssembly then [ServiceD]
    else []
  }

  function DeclaringAssembly(t: Type): Assembly
  {
    if t == IDisposable then CoreLibrary
    else if t == ServiceD then TestsAssembly
    else TypesAssembly
  }

  function InterfacesOf(t: Type): seq<Type>
  {
    if t == IServiceA || t == IServiceB || t == BaseServiceC || t == ServiceC || t == ServiceD then [IService]
    else if t == BaseServiceA || t == ServiceA then [IServiceA, IService]
    else if t == SpecialServiceA then [ISpecialServiceA, IServiceA, IService, IDisposable]
    else if t == ServiceB then [IServiceB, IService]
    else []
  }

  function BaseClassesOf(t: Type): seq<Type>
  {
    if t == ServiceA || t == SpecialServiceA then [BaseServiceA]
    else if t == ServiceC then [BaseServiceC]
    else []
  }

  predicate Assignable(target: Type, t: Type)
  {
    target == t || target in InterfacesOf(t) || target in BaseClassesOf(t)
  }

  predicate IsClassType(t: Type)
  {
    t == BaseServiceA || t == ServiceA || t == SpecialServiceA || t == ServiceB || t == BaseServiceC || t == ServiceC
    || t == ServiceD
  }

  predicate IsAbstractType(t: Type)
  {
    !IsClassType(t) || t == BaseServiceA || t == BaseServiceC
  }

  function FullNameOf(t: Type): string
  {
    if t == IDisposable then "System.IDisposable" else "Gas.Tests.Types.Service"
  }

  /** `Type.Name`, which only the tests' own predicates read. */
  function NameOf(t: Type): string
  {
    if t == SpecialServiceA then "SpecialServiceA"
    else if t == ISpecialServiceA then "ISpecialServiceA"
    else if t == BaseServiceA || t == BaseServiceC then "BaseService"
    else "Service"
  }

  function TestRuntime(): Runtime
  {
    Runtime(TypesOf, DeclaringAssembly, Assignable, IsClassType, IsAbstractType, InterfacesOf, FullNameOf)
  }

  // ---------------------------------------------------------------------
  // The universe

  /** `Scan(typeof(IService))` scans `TypesAssembly`, and its universe is
      that assembly's types. */
  lemma TestUniverse()
    ensures AssembliesOf(TestRuntime(), Some([IService])).value == [TypesAssembly]
    ensures Universe(TestRuntime(), [TypesAssembly]) == TestTypes
  {
    assert SelectMany([TypesAssembly], TestRuntime().getTypes) == TypesOf(TypesAssembly) + SelectMany([], TestRuntime().getTypes);
  }

  /** Any scan that includes both the executing assembly and the assembly of
      `IService` selects `ServiceA` and `ServiceD` as implementers of `IService`. */
  lemma ImplementersOfIServiceAcrossAssemblies(assemblies: seq<Assembly>)
    requires TestsAssembly in assemblies && TypesAssembly in assemblies
    ensures ServiceA in Filter(Universe(TestRuntime(), assemblies), AssignableTo(TestRuntime(), IService))
    ensures ServiceD in Filter(Universe(TestRuntime(), assemblies), AssignableTo(TestRuntime(), IService))
  {
    var rt := TestRuntime();
    assert TypesAssembly in assemblies && ServiceA in rt.getTypes(TypesAssembly);
    assert TestsAssembly in assemblies && ServiceD in rt.getTypes(TestsAssembly);
    assert Assignable(IService, ServiceA) && Assignable(IService, ServiceD);
  }

  /** `Scan(typeof(IService), typeof(ServiceD))` scans the two assemblies in
      that order. */
  lemma TwoExampleTypes()
    ensures AssembliesOf(TestRuntime(), Some([IService, ServiceD])).value == [TypesAssembly, TestsAssembly]
  {
  }

  /** `Scan(Assembly.GetExecutingAssembly()).ForEachTypeImplementing<IService>()`
      selects `ServiceD`, and nothing else. */
  lemma ImplementersOfIServiceInTestsAssembly()
    ensures Filter(Universe(TestRuntime(), [TestsAssembly]), AssignableTo(TestRuntime(), IService)) == [ServiceD]
  {
    var rt := TestRuntime();
    assert Universe(rt, [TestsAssembly]) == [ServiceD] by {
      assert SelectMany([TestsAssembly], rt.getTypes) == TypesOf(TestsAssembly) + SelectMany([], rt.getTypes);
    }
    TestFilters();
    FilterAll([ServiceD], AssignableTo(rt, IService));
  }

  // ---------------------------------------------------------------------
  // Selections over `TypesAssembly`

  /** The key by which `TestTypes` is listed. */
  function Handle(t: Type): int
  {
    t.handle
  }

  /** A filter that agrees on `TestTypes` with membership in `expected`, a
      selection of them in declaration order, keeps exactly `expected`. */
  lemma SelectingFromTestTypes(p: Type -> bool, expected: seq<Type>)
    requires IncreasingBy(expected, Handle)
    requires forall t :: t in expected ==> t in TestTypes
    requires forall t :: t in TestTypes ==> p(t) == (t in expected)
    ensures Filter(TestTypes, p) == expected
  {
    assert IncreasingBy(TestTypes, Handle) by {
      assert forall k :: 0 <= k < |TestTypes| ==> TestTypes[k].handle == k;
    }
    FilterSelects(TestTypes, p, expected, Handle);
  }

  /** The selection filters of the scanner, read in the test runtime. */
  lemma TestFilters()
    ensures forall target, t :: AssignableTo(TestRuntime(), target)(t) == Assignable(target, t)
    ensures forall a, b, t :: Implementing(TestRuntime(), [a, b])(t) == (Assignable(a, t) || Assignable(b, t))
    ensures forall p, t :: ConcreteClass(TestRuntime(), p)(t) == (IsClassType(t) && !IsAbstractType(t) && p(t))
  {
    forall a, b, t
      ensures Implementing(TestRuntime(), [a, b])(t) == (Assignable(a, t) || Assignable(b, t))
    {
      var rt := TestRuntime();
      assert [a, b][1..] == [b] && [b][1..] == [];
      assert ImplementsAny(rt, [b], t) == rt.isAssignableFrom(b, t);
      assert ImplementsAny(rt, [a, b], t) == (rt.isAssignableFrom(a, t) || ImplementsAny(rt, [b], t));
    }
  }

  /** `ForEachConcreteClassImplementing<IService>()`. */
  lemma ConcreteImplementersOfIService()
    ensures Filter(TestTypes, ConcreteClass(TestRuntime(), AssignableTo(TestRuntime(), IService)))
         == [ServiceA, SpecialServiceA, ServiceB, ServiceC]
  {
    TestFilters();
    SelectingFromTestTypes(ConcreteClass(TestRuntime(), AssignableTo(TestRuntime(), IService)),
      [ServiceA, SpecialServiceA, ServiceB, ServiceC]);
  }

  /** `ForEachConcreteClassImplementing<IServiceA>()`. */
  lemma ConcreteImplementersOfIServiceA()
    ensures Filter(TestTypes, ConcreteClass(TestRuntime(), AssignableTo(TestRuntime(), IServiceA)))
         == [ServiceA, SpecialServiceA]
  {
    TestFilters();
    SelectingFromTestTypes(ConcreteClass(TestRuntime(), AssignableTo(TestRuntime(), IServiceA)),
      [ServiceA, SpecialServiceA]);
  }

  /** `ForEachConcreteClassImplementing<ISpecialServiceA>()`. */
  lemma ConcreteImplementersOfISpecialServiceA()
    ensures Filter(TestTypes, ConcreteClass(TestRuntime(), AssignableTo(TestRuntime(), ISpecialServiceA)))
         == [SpecialServiceA]
  {
    TestFilters();
    SelectingFromTestTypes(ConcreteClass(TestRuntime(), AssignableTo(TestRuntime(), ISpecialServiceA)),
      [SpecialServiceA]);
  }

  /** `ForEachConcreteClassImplementing(typeof(IServiceA), typeof(IServiceB))`. */
  lemma ConcreteImplementersOfIServiceAOrIServiceB()
    ensures Filter(TestTypes, ConcreteClass(TestRuntime(), Implementing(TestRuntime(), [IServiceA, IServiceB])))
         == [ServiceA, SpecialServiceA, ServiceB]
  {
    TestFilters();
    SelectingFromTestTypes(ConcreteClass(TestRuntime(), Implementing(TestRuntime(), [IServiceA, IServiceB])),
      [ServiceA, SpecialServiceA, ServiceB]);
  }

  /** `ForEachConcreteClassImplementing<BaseServiceA>()`. */
  lemma ConcreteImplementersOfBaseServiceA()
    ensures Filter(TestTypes, ConcreteClass(TestRuntime(), AssignableTo(TestRuntime(), BaseServiceA)))
         == [ServiceA, SpecialServiceA]
  {
    TestFilters();
    SelectingFromTestTypes(ConcreteClass(TestRuntime(), AssignableTo(TestRuntime(), BaseServiceA)),
      [ServiceA, SpecialServiceA]);
  }

  /** `ForEachConcreteClassImplementing(typeof(BaseServiceA), typeof(BaseServiceC))`. */
  lemma ConcreteImplementersOfBaseServiceAOrBaseServiceC()
    ensures Filter(TestTypes, ConcreteClass(TestRuntime(), Implementing(TestRuntime(), [BaseServiceA, BaseServiceC])))
         == [ServiceA, SpecialServiceA, ServiceC]
  {
    TestFilters();
    SelectingFromTestTypes(ConcreteClass(TestRuntime(), Implementing(TestRuntime(), [BaseServiceA, BaseServiceC])),
      [ServiceA, SpecialServiceA, ServiceC]);
  }

  /** `ForEachTypeImplementing<IServiceA>()`: the interface itself, the
      abstract base class and the two concrete classes. */
  lemma ImplementersOfIServiceA()
    ensures Filter(TestTypes, AssignableTo(TestRuntime(), IServiceA))
         == [IServiceA, BaseServiceA, ServiceA, SpecialServiceA]
  {
    TestFilters();
    SelectingFromTestTypes(AssignableTo(TestRuntime(), IServiceA),
      [IServiceA, BaseServiceA, ServiceA, SpecialServiceA]);
  }

  /** `ForEachTypeImplementing(typeof(IServiceA), typeof(IServiceB))`. */
  lemma ImplementersOfIServiceAOrIServiceB()
    ensures Filter(TestTypes, Implementing(TestRuntime(), [IServiceA, IServiceB]))
         == [IServiceA, BaseServiceA, ServiceA, SpecialServiceA, IServiceB, ServiceB]
  {
    TestFilters();
    SelectingFromTestTypes(Implementing(TestRuntime(), [IServiceA, IServiceB]),
      [IServiceA, BaseServiceA, ServiceA, SpecialServiceA, IServiceB, ServiceB]);
  }

  /** `ForEachTypeImplementing<BaseServiceA>()`. */
  lemma ImplementersOfBaseServiceA()
    ensures Filter(TestTypes, AssignableTo(TestRuntime(), BaseServiceA))
         == [BaseServiceA, ServiceA, SpecialServiceA]
  {
    TestFilters();
    SelectingFromTestTypes(AssignableTo(TestRuntime(), BaseServiceA),
      [BaseServiceA, ServiceA, SpecialServiceA]);
  }

  /** `ForEachTypeImplementing(typeof(BaseServiceA), typeof(BaseServiceC))`. */
  lemma ImplementersOfBaseServiceAOrBaseServiceC()
    ensures Filter(TestTypes, Implementing(TestRuntime(), [BaseServiceA, BaseServiceC]))
         == [BaseServiceA, ServiceA, SpecialServiceA, BaseServiceC, ServiceC]
  {
    TestFilters();
    SelectingFromTestTypes(Implementing(TestRuntime(), [BaseServiceA, BaseServiceC]),
      [BaseServiceA, ServiceA, SpecialServiceA, BaseServiceC, ServiceC]);
  }

  /** `ForEachTypeMatching(t => t.Name == "SpecialServiceA")`. */
  lemma TypesNamedSpecialServiceA()
    ensures Filter(TestTypes, t => NameOf(t) == "SpecialServiceA") == [SpecialServiceA]
  {
    SelectingFromTestTypes(t => NameOf(t) == "SpecialServiceA", [SpecialServiceA]);
  }

  // ---------------------------------------------------------------------
  // Interface pairs

  /** Only `IDisposable` lives in the `System` namespace. */
  lemma SystemNamespace(t: Type)
    ensures StartsWith(FullNameOf(t), "System.") <==> t == IDisposable
  {
    if t == IDisposable {
      assert "System.IDisposable"[..7] == "System.";
    } else {
      assert "Gas.Tests.Types.Service"[0] != "System."[0];
    }
  }

  /** The pairs of a one-type selection. */
  lemma PairsOfOne(rt: Runtime, x: Type, f: Type -> bool)
    ensures Pairs(rt, [x], f) == PairsWith(x, Filter(rt.getInterfaces(x), f))
  {
    assert SelectMany([x], PairsOf(rt, f)) == PairsOf(rt, f)(x) + SelectMany([], PairsOf(rt, f));
  }

  /** The pairs of a two-type selection are those of the first type, then
      those of the second. */
  lemma PairsOfTwo(rt: Runtime, x: Type, y: Type, f: Type -> bool)
    ensures Pairs(rt, [x, y], f) == PairsOf(rt, f)(x) + PairsOf(rt, f)(y)
  {
    assert [x, y] == [x] + [y];
    SelectManyAppend([x], [y], PairsOf(rt, f));
    PairsOfOne(rt, x, f);
    PairsOfOne(rt, y, f);
  }

  /** What `Do` sees of `SpecialServiceA`'s interfaces. */
  lemma SpecialServiceAInterfaces()
    ensures Filter(InterfacesOf(SpecialServiceA), OutsideSystemNamespace(TestRuntime()))
         == [ISpecialServiceA, IServiceA, IService]
  {
    var f := OutsideSystemNamespace(TestRuntime());
    var kept := [ISpecialServiceA, IServiceA, IService];
    assert InterfacesOf(SpecialServiceA) == kept + [IDisposable];
    SystemNamespace(ISpecialServiceA);
    SystemNamespace(IServiceA);
    SystemNamespace(IService);
    SystemNamespace(IDisposable);
    FilterAppend(kept, [IDisposable], f);
    FilterAll(kept, f);
    FilterNone([IDisposable], f);
  }

  lemma PairsWithTwo(t: Type, a: Type, b: Type)
    ensures PairsWith(t, [a, b]) == [(t, a), (t, b)]
  {
  }

  lemma PairsWithThree(t: Type, a: Type, b: Type, c: Type)
    ensures PairsWith(t, [a, b, c]) == [(t, a), (t, b), (t, c)]
  {
  }

  lemma PairsWithFour(t: Type, a: Type, b: Type, c: Type, d: Type)
    ensures PairsWith(t, [a, b, c, d]) == [(t, a), (t, b), (t, c), (t, d)]
  {
  }

  /** What `Do` hands over for `ServiceA`. */
  lemma ServiceADoPairs()
    ensures PairsOf(TestRuntime(), OutsideSystemNamespace(TestRuntime()))(ServiceA)
         == [(ServiceA, IServiceA), (ServiceA, IService)]
  {
    var f := OutsideSystemNamespace(TestRuntime());
    assert TestRuntime().getInterfaces(ServiceA) == [IServiceA, IService];
    SystemNamespace(IServiceA);
    SystemNamespace(IService);
    FilterAll([IServiceA, IService], f);
    PairsWithTwo(ServiceA, IServiceA, IService);
  }

  /** What `Do` hands over for `SpecialServiceA`. */
  lemma SpecialServiceADoPairs()
    ensures PairsOf(TestRuntime(), OutsideSystemNamespace(TestRuntime()))(SpecialServiceA)
         == [(SpecialServiceA, ISpecialServiceA), (SpecialServiceA, IServiceA), (SpecialServiceA, IService)]
  {
    assert TestRuntime().getInterfaces(SpecialServiceA) == InterfacesOf(SpecialServiceA);
    SpecialServiceAInterfaces();
    PairsWithThree(SpecialServiceA, ISpecialServiceA, IServiceA, IService);
  }

  /** What `DoForAll` hands over for `SpecialServiceA`. */
  lemma SpecialServiceADoForAllPairs()
    ensures PairsOf(TestRuntime(), AnyInterface())(SpecialServiceA)
         == [(SpecialServiceA, ISpecialServiceA), (SpecialServiceA, IServiceA), (SpecialServiceA, IService),
             (SpecialServiceA, IDisposable)]
  {
    var interfaces := TestRuntime().getInterfaces(SpecialServiceA);
    assert interfaces == [ISpecialServiceA, IServiceA, IService, IDisposable];
    FilterAll(interfaces, AnyInterface());
    PairsWithFour(SpecialServiceA, ISpecialServiceA, IServiceA, IService, IDisposable);
  }

  /** `SpecialServiceA` paired with its interfaces: `Do` drops `IDisposable`,
      `DoForAll` keeps it. */
  lemma SpecialServiceAPairs()
    ensures Pairs(TestRuntime(), [SpecialServiceA], OutsideSystemNamespace(TestRuntime()))
         == [(SpecialServiceA, ISpecialServiceA), (SpecialServiceA, IServiceA), (SpecialServiceA, IService)]
    ensures Pairs(TestRuntime(), [SpecialServiceA], AnyInterface())
         == [(SpecialServiceA, ISpecialServiceA), (SpecialServiceA, IServiceA), (SpecialServiceA, IService),
             (SpecialServiceA, IDisposable)]
  {
    var rt := TestRuntime();
    PairsOfOne(rt, SpecialServiceA, OutsideSystemNamespace(rt));
    SpecialServiceADoPairs();
    PairsOfOne(rt, SpecialServiceA, AnyInterface());
    SpecialServiceADoForAllPairs();
  }

  /** The pairs `Do` hands over for the concrete implementers of `IServiceA`. */
  lemma IServiceAImplementerPairs()
    ensures Pairs(TestRuntime(), [ServiceA, SpecialServiceA], OutsideSystemNamespace(TestRuntime()))
         == [(ServiceA, IServiceA), (ServiceA, IService),
             (SpecialServiceA, ISpecialServiceA), (SpecialServiceA, IServiceA), (SpecialServiceA, IService)]
  {
    var rt := TestRuntime();
    PairsOfTwo(rt, ServiceA, SpecialServiceA, OutsideSystemNamespace(rt));
    ServiceADoPairs();
    SpecialServiceADoPairs();
  }

  // ---------------------------------------------------------------------
  // Whole chains, down to the recording action

  /** `Scan(typeof(IService), typeof(ServiceD)).ForEachTypeImplementing<IService>()
      .Do(t => types.Add(t))`: the trace holds `ServiceA` and `ServiceD`. */
  method ScanByTypesIsProcessed() returns (trace: seq<Type>)
    ensures ServiceA in trace && ServiceD in trace
  {
    var rt := TestRuntime();
    var scanned := AssemblyScanner.ScanTypes(rt, Some([IService, ServiceD]));
    var scanner := scanned.value;
    var selection := scanner.ForEachTypeImplementingSingle(IService);
    var back;
    trace, back := selection.Do(Record(), []);
    TwoExampleTypes();
    ImplementersOfIServiceAcrossAssemblies([TypesAssembly, TestsAssembly]);
    FoldRecord([], selection.types);
  }

  /** `Scan(Assembly.GetExecutingAssembly()).ForEachTypeImplementing<IService>()
      .Do(t => types.Add(t))`: the trace is not empty. */
  method ScanSingleAssemblyIsProcessed() returns (trace: seq<Type>)
    ensures |trace| > 0
  {
    var rt := TestRuntime();
    var scanned := AssemblyScanner.Scan(rt, Some([TestsAssembly]));
    var scanner := scanned.value;
    var selection := scanner.ForEachTypeImplementingSingle(IService);
    var back;
    trace, back := selection.Do(Record(), []);
    ImplementersOfIServiceInTestsAssembly();
    FoldRecord([], selection.types);
  }

  /** `Scan(typeof(IService)).ForEachConcreteClassImplementing<IServiceA>().Do(t => types.Add(t))`. */
  method ConcreteImplementersOfIServiceAAreProcessed() returns (trace: seq<Type>)
    ensures trace == [ServiceA, SpecialServiceA]
  {
    var rt := TestRuntime();
    var scanned := AssemblyScanner.ScanTypes(rt, Some([IService]));
    var scanner := scanned.value;
    var selection := scanner.ForEachConcreteClassImplementingSingle(IServiceA);
    var back;
    trace, back := selection.Do(Record(), []);
    TestUniverse();
    ConcreteImplementersOfIServiceA();
    FoldRecord([], selection.types);
  }

  /** The traces that recording actions leave for `SpecialServiceA`'s pairs. */
  lemma SpecialServiceATraces(trace: seq<Pair>, all: seq<Pair>)
    requires trace == Fold(Record(), [], Pairs(TestRuntime(), [SpecialServiceA], OutsideSystemNamespace(TestRuntime())))
    requires all == Fold(Record(), [], Pairs(TestRuntime(), [SpecialServiceA], AnyInterface()))
    ensures trace == [(SpecialServiceA, ISpecialServiceA), (SpecialServiceA, IServiceA), (SpecialServiceA, IService)]
    ensures all == trace + [(SpecialServiceA, IDisposable)]
  {
    var rt := TestRuntime();
    var doPairs := Pairs(rt, [SpecialServiceA], OutsideSystemNamespace(rt));
    var allPairs := Pairs(rt, [SpecialServiceA], AnyInterface());
    SpecialServiceAPairs();
    FoldRecord([], doPairs);
    FoldRecord([], allPairs);
    assert trace == doPairs && all == allPairs;
  }

  /** `Scan(typeof(IService)).ForEachConcreteClassImplementing<ISpecialServiceA>()
      .ForEachImplementedInterface()`, run once with `Do` and once with `DoForAll`. */
  method SpecialServiceAPairsAreProcessed() returns (trace: seq<Pair>, all: seq<Pair>)
    ensures trace == [(SpecialServiceA, ISpecialServiceA), (SpecialServiceA, IServiceA), (SpecialServiceA, IService)]
    ensures all == trace + [(SpecialServiceA, IDisposable)]
  {
    var rt := TestRuntime();
    var scanned := AssemblyScanner.ScanTypes(rt, Some([IService]));
    var scanner := scanned.value;
    var selection := scanner.ForEachConcreteClassImplementingSingle(ISpecialServiceA);
    assert selection.types == [SpecialServiceA] by {
      TestUniverse();
      ConcreteImplementersOfISpecialServiceA();
    }
    var pairs := selection.ForEachImplementedInterface();
    var back;
    trace, back := pairs.Do(Record(), []);
    all, back := pairs.DoForAll(Record(), []);
    SpecialServiceATraces(trace, all);
  }

  /** `Scan(typeof(IService)).ForEachConcreteClassImplementing<IServiceA>()
      .ForEachImplementedInterface().Do(...)`. */
  method IServiceAImplementerPairsAreProcessed() returns (trace: seq<Pair>)
    ensures trace == [(ServiceA, IServiceA), (ServiceA, IService),
                      (SpecialServiceA, ISpecialServiceA), (SpecialServiceA, IServiceA), (SpecialServiceA, IService)]
  {
    var rt := TestRuntime();
    var scanned := AssemblyScanner.ScanTypes(rt, Some([IService]));
    var scanner := scanned.value;
    var selection := scanner.ForEachConcreteClassImplementingSingle(IServiceA);
    var pairs := selection.ForEachImplementedInterface();
    var back;
    trace, back := pairs.Do(Record(), []);
    TestUniverse();
    ConcreteImplementersOfIServiceA();
    IServiceAImplementerPairs();
    FoldRecord([], Pairs(rt, pairs.types, OutsideSystemNamespace(rt)));
  }

  /** A chain that goes back to the root: `Do` returns the scanner itself,
      whose cache the first selection filled, and a second selection issued
      from it leaves that cache as it was. */
  method ChainedSelections() returns (scanner: AssemblyScanner, back: AssemblyScanner, first: seq<Type>, second: seq<Type>)
    ensures back == scanner && scanner.Cached()
    ensures first == [ServiceA, SpecialServiceA]
    ensures second == [ServiceA, SpecialServiceA, ServiceB]
  {
    var rt := TestRuntime();
    var scanned := AssemblyScanner.ScanTypes(rt, Some([IService]));
    scanner := scanned.value;
    var selection := scanner.ForEachConcreteClassImplementingSingle(IServiceA);
    first, back := selection.Do(Record(), []);
    assert back == scanner && back.Cached();
    var next := back.ForEachConcreteClassImplementing([IServiceA, IServiceB]);
    second, back := next.Do(Record(), []);
    TestUniverse();
    ConcreteImplementersOfIServiceA();
    ConcreteImplementersOfIServiceAOrIServiceB();
    FoldRecord([], selection.types);
    FoldRecord([], next.types);
  }
}
