# Gas: a fluent assembly/type scanner, modelled in Dafny

Gas is a small fluent query pipeline over reflected .NET types. The pipeline has three stages:

- **`AssemblyScanner`** is the root. It holds an assembly array. On first use it caches `AllTypes`, the `SelectMany` query over the types those assemblies declare. The model caches the sequence that query yields. It hands out type selections: the types matching a predicate, the types assignable to one or several targets, and the concrete classes among them.
- **`TypeScanner`** is a type selection. Its `Do` runs a caller action on each selected type, in order, and returns the root so that the chain can go on. `ForEachImplementedInterface` turns the selection into a pair selection.
- **`TypeInterfaceScanner`** is a pair selection. It expands each selected type into `(type, interface)` pairs. `Do` skips interfaces whose full name starts with `"System."` and `DoForAll` skips nothing. Both run the caller action per pair and return the root.

The project is laid out as follows:

- `reflection.dfy` (module `Reflection`) holds the .NET reflection calls the scanners make. They are the total functions of a `Runtime` value: `GetTypes`, `Type.Assembly`, `IsAssignableFrom`, `IsClass`, `IsAbstract`, `GetInterfaces` and `FullName`. `Type` and `Assembly` are opaque handles.
- `enumerables.dfy` (module `Enumerables`) holds the LINQ operators the code uses, on finite sequences: `Where` is `Filter`, `SelectMany`, and the in-order `ForEach` is `Fold`. It also holds their algebra.
- `type_filters.dfy` (module `TypeFilters`) holds the universe, the assemblies inferred from example types, and the selection predicates with their composition laws.
- `interface_pairs.dfy` (module `InterfacePairs`) holds the pair sequence a pair selection hands to its action, and its laws.
- `gas.dfy` (module `Gas`) holds the three scanner classes:
  - `AssemblyScanner` keeps its nullable cache `allTypes` as a mutable field, filled by `AllTypes()` on first use.
  - `TypeScanner.Do` and `TypeInterfaceScanner.DoFiltered` are the loops of the source, proved against `Fold` over the specified sequences.
  - A caller action is a state transformer `(S, X) -> S` over the caller's own state. `Record()` is the action that appends to a list, which is what the repository's tests use.
- `scenarios.dfy` (module `Scenarios`) replays the repository's tests on a concrete runtime. Its types are the services of the `Gas.Tests.Types` assembly, `ServiceD` of the executing test assembly, and `IDisposable`. Every test of `AssemblyScannerTests.cs`, `TypeScannerTests.cs` and `TypeInterfaceScannerTests.cs` has a lemma or a method there. An `IEnumerable` overload and its array overload share one lemma, because the model gives both the same list.

Two facts of the code shape the model:

- The universe is a concatenation, not a set. `AllTypes` (src/Gas/AssemblyScanner.cs:55) is `_assemblies.SelectMany(a => a.GetTypes())` with no `Distinct`. An assembly listed twice, for instance one inferred from two example types, contributes its types twice (`TypeFilters.SameAssemblyTwice`).
- The tests (tests/Gas.Tests/AssemblyScannerTests.cs:214-230) leave `ISpecialServiceA` out of the types implementing `IServiceA` or `IServiceB`. So the scenario runtime does not make `ISpecialServiceA` extend `IServiceA`.

## Model

| member | source | states |
|---|---|---|
| Gas.RequireNotNull | src/Gas/AssemblyScanner.cs:19 | `x ?? throw new ArgumentNullException(name)`: succeeds exactly on a non-null argument and yields it; otherwise fails with an argument-null error carrying that parameter name |
| Gas.AssemblyScanner.constructor | src/Gas/AssemblyScanner.cs:17-20 | a scanner over a non-null array stores that array, starts with an empty cache and is valid |
| Gas.AssemblyScanner.Scan | src/Gas/AssemblyScanner.cs:29-37 | fails with ArgumentNull("assemblies") if and only if the assembly list is null; otherwise yields a fresh, valid scanner over exactly that list with an empty cache |
| Gas.AssemblyScanner.ScanTypes | src/Gas/AssemblyScanner.cs:44-51 | fails with ArgumentNull("assemblies") if and only if the example-type list is null, since null is forwarded to the constructor; otherwise the scanner's assemblies are the declaring assemblies of the example types, in order |
| TypeFilters.AssembliesOf | src/Gas/AssemblyScanner.cs:44 | `types?.Select(t => t.Assembly)`: null exactly for null; otherwise the same length, and position k holds the declaring assembly of the k-th type, so duplicates are kept |
| TypeFilters.UniverseOfExampleTypes | src/Gas/AssemblyScanner.cs:44-55 | scanning by example types yields, example after example, the types of each example's declaring assembly |
| TypeFilters.SameAssemblyTwice | src/Gas/AssemblyScanner.cs:51-55 | two example types from one assembly put that assembly's types into the universe twice, with no deduplication |
| TypeFilters.Universe | src/Gas/AssemblyScanner.cs:55 | a type is in the universe if and only if some scanned assembly declares it; its length is the sum of the assemblies' type counts, duplicates included |
| TypeFilters.UniverseAppend | src/Gas/AssemblyScanner.cs:55 | the universe of two concatenated assembly lists is the concatenation of their universes, in order |
| Gas.AssemblyScanner.AllTypes | src/Gas/AssemblyScanner.cs:55 | `_allTypes ??= ...`: returns the universe; afterwards the cache holds it; a cache that was already set is left unchanged |
| Gas.AllTypesTwice | src/Gas/AssemblyScanner.cs:11-55 | two reads of `AllTypes` return the same universe, and the cache ends up filled |
| Gas.AssemblyScanner.ForEachTypeMatching | src/Gas/AssemblyScanner.cs:60-61 | a fresh type selection whose root is this scanner and whose types are the universe's members satisfying the predicate, in universe order; the cache ends up filled and the assemblies are untouched |
| Gas.AssemblyScanner.ForEachTypeImplementingSingle | src/Gas/AssemblyScanner.cs:64-65 | `ForEachTypeImplementing<T>()`: the universe's types to which the target is assignable, with this scanner as root |
| Gas.AssemblyScanner.ForEachTypeImplementing | src/Gas/AssemblyScanner.cs:68-73 | the universe's types to which some target in the list is assignable, with this scanner as root; the `IEnumerable` overload is the same list |
| TypeFilters.AssignableTo | src/Gas/AssemblyScanner.cs:65 | the predicate `typeof(T).IsAssignableFrom(t)` of the generic forms holds of a type exactly when the one-target predicate of the array forms holds |
| TypeFilters.Implementing | src/Gas/AssemblyScanner.cs:69 | the predicate `t => types.Any(T => T.IsAssignableFrom(t))` holds of a type if and only if some position of the target list holds a target assignable from it |
| TypeFilters.ConcreteClass | src/Gas/AssemblyScanner.cs:81 | the predicate `t => t.IsClass && !t.IsAbstract && predicate(t)` holds of a type if and only if the caller's predicate holds and the type is not a non-class or an abstract class |
| TypeFilters.ImplementsAny | src/Gas/AssemblyScanner.cs:69 | `types.Any(T => T.IsAssignableFrom(t))` holds if and only if some target in the list is assignable from `t` |
| TypeFilters.ImplementingIsDisjunction | src/Gas/AssemblyScanner.cs:69 | implementing some target of `a + b` is implementing some target of `a` or some target of `b` |
| TypeFilters.SelectionByTargetsIsUnion | src/Gas/AssemblyScanner.cs:68-69 | a type is selected by a target list if and only if the single-target selection of one of the targets selects it |
| TypeFilters.EmptyTargetsSelectNothing | src/Gas/AssemblyScanner.cs:68-69 | an empty target list selects nothing |
| TypeFilters.SingleTargetIsArrayForm | src/Gas/AssemblyScanner.cs:64-89 | the generic forms select the same sequence as the array forms given the one-element array, both for all types and for concrete classes |
| Gas.AssemblyScanner.ForEachConcreteClassMatching | src/Gas/AssemblyScanner.cs:80-81 | the universe's types that are classes, not abstract, and satisfy the predicate, with this scanner as root |
| Gas.AssemblyScanner.ForEachConcreteClassImplementingSingle | src/Gas/AssemblyScanner.cs:84-85 | the universe's concrete classes to which the target is assignable, with this scanner as root |
| Gas.AssemblyScanner.ForEachConcreteClassImplementing | src/Gas/AssemblyScanner.cs:88-93 | the universe's concrete classes to which some target in the list is assignable, with this scanner as root; the `IEnumerable` overload is the same list |
| TypeFilters.ConcreteClassNarrowing | src/Gas/AssemblyScanner.cs:80-81 | the concrete-class selection by `p` is the `p` selection with its non-classes and abstract classes removed: a subsequence of it, whose multiset together with the removed part is exactly the multiset of the `p` selection |
| TypeFilters.ConcreteImplementingNarrowing | src/Gas/AssemblyScanner.cs:88-89 | the concrete implementers of a target list are the implementers with exactly the non-concrete ones removed, and everything removed is a non-class or abstract |
| Enumerables.Filter | src/Gas/AssemblyScanner.cs:61 | `Where`: no longer than its input; a value is kept if and only if it occurs in the input and satisfies the predicate |
| Enumerables.FilterIsSubsequence | src/Gas/AssemblyScanner.cs:61 | `Where` keeps the relative order of what it keeps |
| Enumerables.FilterCount | src/Gas/AssemblyScanner.cs:61 | `Where` keeps every occurrence of a value that satisfies the predicate and no occurrence of one that does not |
| Enumerables.FilterConjunction | src/Gas/AssemblyScanner.cs:81 | filtering by a conjunction is filtering by one conjunct and then by the other |
| Enumerables.SelectMany | src/Gas/AssemblyScanner.cs:55 | `SelectMany`: a value occurs in the result if and only if it occurs in the image of some input element |
| Enumerables.SelectManyLength | src/Gas/AssemblyScanner.cs:55 | the length of a `SelectMany` is the sum of the lengths of the images |
| Enumerables.FoldAppend | src/Gas/TypeScanner.cs:20 | `ForEach` over a concatenation runs over the first part and then, from the state it left, over the second |
| Enumerables.FoldSnoc | src/Gas/TypeInterfaceScanner.cs:30-33 | `ForEach` over one more element is one more call of the action, on the state the earlier calls left |
| Enumerables.FoldRecord | src/Gas/TypeScanner.cs:20 | an action that appends its argument to a list, run over a sequence, leaves the list extended by exactly that sequence |
| Gas.TypeScanner.constructor | src/Gas/TypeScanner.cs:11-15 | a selection over non-null types and a non-null root stores both |
| Gas.TypeScanner.Create | src/Gas/TypeScanner.cs:11-15 | succeeds if and only if types and root are both non-null; a null type sequence is reported first as ArgumentNull("types"), then a null root as ArgumentNull("assemblyScanner") |
| Gas.TypeScanner.Do | src/Gas/TypeScanner.cs:18-22 | the caller state after the loop is the action folded over the selected types in order, once each; the result is the root |
| Gas.TypeScanner.ForEachImplementedInterface | src/Gas/TypeScanner.cs:25-26 | a fresh pair selection over the identical type sequence and the identical root, unfiltered |
| Gas.DoTwice | src/Gas/TypeScanner.cs:18-22 | running `Do` twice with a recording action records exactly the selected types both times, and both runs return the selection's root |
| Gas.TypeInterfaceScanner.constructor | src/Gas/TypeInterfaceScanner.cs:13-17 | a pair selection over non-null types and a non-null root stores both |
| Gas.TypeInterfaceScanner.Create | src/Gas/TypeInterfaceScanner.cs:13-17 | succeeds if and only if types and root are both non-null; ArgumentNull("types") takes precedence over ArgumentNull("assemblyScanner") |
| Gas.TypeInterfaceScanner.Do | src/Gas/TypeInterfaceScanner.cs:21-22 | the action folded over the pairs whose interface's full name does not start with "System."; the result is the root |
| Gas.TypeInterfaceScanner.DoForAll | src/Gas/TypeInterfaceScanner.cs:25-26 | the action folded over every pair; the result is the root |
| Gas.TypeInterfaceScanner.DoFiltered | src/Gas/TypeInterfaceScanner.cs:28-36 | the nested loop runs over the types in order and, for each, over its interfaces in order; it applies the action to each admitted pair, so the final state is the fold over the filtered pair sequence; the result is the root |
| Gas.PairsTwice | src/Gas/TypeInterfaceScanner.cs:21-36 | two `Do` runs with a recording action record the same filtered pair sequence, two `DoForAll` runs the same unfiltered one, and all four runs return the selection's root |
| Reflection.StartsWith | src/Gas/TypeInterfaceScanner.cs:22 | a name starts with a prefix if and only if it is at least as long and agrees with the prefix position by position; the name is then the prefix followed by its remainder |
| InterfacePairs.OutsideSystemNamespace | src/Gas/TypeInterfaceScanner.cs:22 | the `Do` filter `i => !i.FullName.StartsWith("System.")` admits an interface if and only if its full name does not start with "System." |
| InterfacePairs.AnyInterface | src/Gas/TypeInterfaceScanner.cs:26 | the `DoForAll` filter `i => true` admits every interface |
| InterfacePairs.PairsOf | src/Gas/TypeInterfaceScanner.cs:30-33 | the inner loop: a type yields no more pairs than it has interfaces, and each pair holds that type and one of its interfaces the filter admits |
| InterfacePairs.Pairs | src/Gas/TypeInterfaceScanner.cs:30-33 | the nested loop: every pair it hands over holds a selected type and one of that type's interfaces that the filter admits |
| InterfacePairs.PairsWith | src/Gas/TypeInterfaceScanner.cs:33 | `i => action(t, i)` over a list of interfaces: one pair per interface, position by position |
| InterfacePairs.PairsMembership | src/Gas/TypeInterfaceScanner.cs:30-33 | a pair `(t, i)` is handed over if and only if `t` is a selected type, `i` is one of its interfaces and the filter admits `i` |
| InterfacePairs.FilteredPairsAreFilterOfAll | src/Gas/TypeInterfaceScanner.cs:28-33 | the pairs under any interface filter are the unfiltered pairs filtered by their interface, in order |
| InterfacePairs.DoDropsExactlySystemInterfaces | src/Gas/TypeInterfaceScanner.cs:21-26 | the `Do` pairs are the `DoForAll` pairs without those whose interface's name starts with "System.": a subsequence, and together with those pairs exactly the `DoForAll` multiset |
| InterfacePairs.AllPairsCount | src/Gas/TypeInterfaceScanner.cs:28-33 | `DoForAll` calls its action once per implemented interface of each selected type: the pair count is the sum of the interface counts |
| Scenarios.TestUniverse | tests/Gas.Tests/TypeScannerTests.cs:36 | `Scan(typeof(IService))` scans just the assembly of the test types, and its universe is that assembly's types |
| Scenarios.ScanSingleAssemblyIsProcessed | tests/Gas.Tests/AssemblyScannerTests.cs:15-25 | the chain `Scan(Assembly.GetExecutingAssembly())`, `ForEachTypeImplementing<IService>`, `Do(types.Add)` records at least one type |
| Scenarios.ImplementersOfIServiceInTestsAssembly | tests/Gas.Tests/AssemblyScannerTests.cs:15-25 | in the executing assembly the implementers of `IService` are exactly `ServiceD` |
| Scenarios.ImplementersOfIServiceAcrossAssemblies | tests/Gas.Tests/AssemblyScannerTests.cs:27-91 | any assembly list that holds both the executing assembly and the assembly of the test types selects `ServiceA` and `ServiceD` as implementers of `IService`, whatever else it holds and in whatever order |
| Scenarios.TwoExampleTypes | tests/Gas.Tests/AssemblyScannerTests.cs:60-91 | `Scan(typeof(IService), typeof(ServiceD))` scans the assembly of the test types and then the executing assembly |
| Scenarios.ScanByTypesIsProcessed | tests/Gas.Tests/AssemblyScannerTests.cs:60-73 | the chain `Scan(typeof(IService), typeof(ServiceD))`, `ForEachTypeImplementing<IService>`, `Do(types.Add)` records `ServiceA` and `ServiceD` |
| Scenarios.ConcreteImplementersOfIService | tests/Gas.Tests/AssemblyScannerTests.cs:97-111 | the concrete classes implementing `IService` are exactly `ServiceA`, `SpecialServiceA`, `ServiceB` and `ServiceC` |
| Scenarios.ConcreteImplementersOfIServiceAOrIServiceB | tests/Gas.Tests/AssemblyScannerTests.cs:113-145 | the concrete classes implementing `IServiceA` or `IServiceB` are exactly `ServiceA`, `SpecialServiceA` and `ServiceB` |
| Scenarios.ConcreteImplementersOfBaseServiceA | tests/Gas.Tests/AssemblyScannerTests.cs:146-158 | the concrete classes derived from `BaseServiceA` are exactly `ServiceA` and `SpecialServiceA` |
| Scenarios.ConcreteImplementersOfBaseServiceAOrBaseServiceC | tests/Gas.Tests/AssemblyScannerTests.cs:160-192 | the concrete classes derived from `BaseServiceA` or `BaseServiceC` are exactly `ServiceA`, `SpecialServiceA` and `ServiceC` |
| Scenarios.ImplementersOfIServiceA | tests/Gas.Tests/AssemblyScannerTests.cs:198-212 | the types implementing `IServiceA` are exactly `IServiceA`, `BaseServiceA`, `ServiceA` and `SpecialServiceA` |
| Scenarios.ImplementersOfIServiceAOrIServiceB | tests/Gas.Tests/AssemblyScannerTests.cs:214-252 | the types implementing `IServiceA` or `IServiceB` are exactly the two interfaces, `BaseServiceA`, `ServiceA`, `SpecialServiceA` and `ServiceB` |
| Scenarios.ImplementersOfBaseServiceA | tests/Gas.Tests/AssemblyScannerTests.cs:253-266 | the types assignable to `BaseServiceA` are exactly `BaseServiceA`, `ServiceA` and `SpecialServiceA` |
| Scenarios.ImplementersOfBaseServiceAOrBaseServiceC | tests/Gas.Tests/AssemblyScannerTests.cs:268-304 | the types assignable to `BaseServiceA` or `BaseServiceC` are exactly the two base classes, `ServiceA`, `SpecialServiceA` and `ServiceC` |
| Scenarios.TypesNamedSpecialServiceA | tests/Gas.Tests/AssemblyScannerTests.cs:310-320 | the types whose `Name` is "SpecialServiceA" are exactly `SpecialServiceA` |
| Scenarios.ConcreteImplementersOfIServiceA | tests/Gas.Tests/TypeScannerTests.cs:31-43 | the concrete classes implementing `IServiceA` are exactly `ServiceA` and `SpecialServiceA` |
| Scenarios.ConcreteImplementersOfISpecialServiceA | tests/Gas.Tests/TypeInterfaceScannerTests.cs:16-17 | the concrete classes implementing `ISpecialServiceA` are exactly `SpecialServiceA` |
| Scenarios.ConcreteImplementersOfIServiceAAreProcessed | tests/Gas.Tests/TypeScannerTests.cs:31-43 | the whole chain `Scan`, `ForEachConcreteClassImplementing<IServiceA>`, `Do(types.Add)` records `ServiceA` then `SpecialServiceA` |
| Scenarios.SystemNamespace | src/Gas/TypeInterfaceScanner.cs:22 | in the test runtime, the "System." prefix test holds for `IDisposable` and for no other type |
| Scenarios.SpecialServiceAPairs | tests/Gas.Tests/TypeInterfaceScannerTests.cs:11-46 | `SpecialServiceA` yields three pairs under `Do` and the same three plus `(SpecialServiceA, IDisposable)` under `DoForAll` |
| Scenarios.SpecialServiceAPairsAreProcessed | tests/Gas.Tests/TypeInterfaceScannerTests.cs:11-46 | the whole chain down to `Do` and `DoForAll` records the expected three and four pairs |
| Scenarios.IServiceAImplementerPairs | tests/Gas.Tests/TypeScannerTests.cs:11-29 | the concrete implementers of `IServiceA` yield exactly the five expected pairs under `Do` |
| Scenarios.IServiceAImplementerPairsAreProcessed | tests/Gas.Tests/TypeScannerTests.cs:11-29 | the whole chain down to the pair selection's `Do` records the expected five pairs |
| Scenarios.ChainedSelections | src/Gas/TypeScanner.cs:18-22 | `Do` returns the scanner the chain started from, with its cache filled; a second selection issued from it selects `ServiceA`, `SpecialServiceA` and `ServiceB` over that cached universe |

## Left out

- The .NET reflection calls are parameters of the model, not modelled. They are the fields of a `Runtime` value, so the CLR type hierarchy is not part of this model, and nothing is assumed about assignability (not even reflexivity) except in the scenario runtime.
- `Scenarios`: the test types in `Gas.Tests.Types` and `ServiceD` of the test assembly are not part of this model. The scenario runtime rebuilds them from what the tests expect, with the interfaces listed in a fixed order. The tests compare without regard to order (`BeEquivalentTo`), while `GetInterfaces` promises no order. The executing test assembly is modelled as holding only `ServiceD`, the one type the `Scan` tests need from it. The tests' own classes are left out of it.
- LINQ deferred execution is not modelled. The cache holds the `SelectMany` query object, not its result, so `GetTypes` runs again on every enumeration (src/Gas/AssemblyScanner.cs:55). Every selection is a lazy `Where` whose predicate runs only when `Do` enumerates it (cs:61, 81). The model materialises both as sequences when the selection is made. The reflection functions are fixed values in the model.
- Aliasing of caller-owned data is not modelled. `Scan(params Assembly[])` keeps the caller's array (src/Gas/AssemblyScanner.cs:19, 29-30), and the cached query re-reads it (cs:55). The array forms of `ForEachTypeImplementing` and `ForEachConcreteClassImplementing` capture the caller's target array (cs:69, 89). A caller predicate is read late, on each enumeration (cs:61, 81). The model copies arrays and predicates as values when the call is made, so a later change to them by the caller does not reach it.
- Gas.DoTwice: holds in the model, where a selection is a fixed sequence. In the source, a second run sees any change the caller made in between to the scanned assembly array, the target array or state its predicate reads, and can then record a different sequence.
- Gas.PairsTwice: holds in the model for the same reason as `Gas.DoTwice`. In the source, a second run re-enumerates the selection and re-reads what the caller's arrays and predicates hold at that time.
- `Enumerables.Fold` has no contract of its own, because an `ensures` that mentions `Fold` itself sets off a matching loop. What `ForEach` does is stated by `Enumerables.FoldAppend`, `Enumerables.FoldSnoc` and `Enumerables.FoldRecord`.
- The `ForEach` extension method is not part of this model. It is modelled as in-order iteration over the sequence.
- Null target lists in `ForEachTypeImplementing` and `ForEachConcreteClassImplementing` are not modelled; targets are a `seq`. The `IEnumerable` overloads throw at once on null (`ToArray`). The array overloads throw only when the selection is first enumerated.
- Null inputs inside the chain are not modelled. Assemblies, types, targets and predicates are values that cannot be null, so the following exception paths are not part of this model:
  - `ForEachTypeMatching(null)` throws `ArgumentNullException("predicate")` from `Where` at once, after `AllTypes` has set the cache (src/Gas/AssemblyScanner.cs:61).
  - `ForEachConcreteClassMatching(null)` throws `NullReferenceException` only during enumeration, at the first concrete class (cs:81).
  - A null element in an example-type list makes `Scan` throw while `ToArray` runs the `Select` (cs:37, 44, 51).
  - A null assembly or a null target element throws only during enumeration (cs:55, 69).
- `Gas.TypeScanner.Create` and `Gas.TypeInterfaceScanner.Create` report a null argument as an `ArgumentNull` result rather than an exception, because Dafny constructors cannot fail. The plain constructors take non-null arguments.
- Exceptions thrown by caller actions, and their partial effects, are not modelled. Neither are type-load failures of `GetTypes`.
- `FullName` is a total string function. The null `FullName` of generic parameters is not modelled.
- `StartsWith` is compared ordinally, character by character. The culture-sensitive comparison of .NET's `string.StartsWith(string)` is not modelled.
- Concurrency is not modelled. The code has none, and a concurrent first read of the cache is outside the model.
- `IAssemblyScanner.cs`, `ITypeScanner.cs` and `ITypeInterfaceScanner.cs` hold doc comments only. They are cited above but have no logic of their own.
