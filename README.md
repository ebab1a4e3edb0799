# Qi4j core: module assembly, composite invocation and query renderings

This project models, in Dafny, the core of the Qi4j composite runtime:

- **Module assembly** (`ModuleAssemblyImpl`). A module's declarations are registered by type. Values, transients, entities, objects and imported services go into insertion-ordered maps where each type is registered once. Services go into a list. Declarations can be selected back by specification and visited in a fixed order. `assembleModule` then compiles them into a module model:
  - it rejects a module without a name;
  - it generates the missing service identities (`Name`, `Name_1`, `Name_2`, …);
  - it rejects duplicated identities among services and imported services;
  - it synthesizes a module-visible object model for every service importer not declared as an object.
- **Composite invocation**:
  - `RegularCompositeInvocationHandler` routes a call to the mixin of the method's declaring type, using a per-handler mixin cache that `setMixins` either adopts or copies;
  - `WrappedCompositeInvocationHandler` sends `Object` methods to a wrapped instance.
- **Object builders** (`ModuleObjectBuilderFactory`): a builder for a registered object type, and a named failure for any other type.
- **State change notification** (`StateChangeNotificationConcern`): the committer returned by `apply` notifies every listener, then commits.
- **Query renderings** (`PropertyExpressionImpl`, `IsNotNull`, `PropertyIsNullPredicateImpl`): property expressions, their Method-based construction and validation, and the textual forms of `IS NOT NULL` and `IS NULL`.

## How the model is organised

Each Java class is modelled in the form its code takes:

- `ModuleAssemblyImpl` mutates its tables in place. It is modelled as the class `ModuleAssembly.ModuleAssemblyImpl` with `seq` fields, one per table, and methods whose loops mirror the Java loops. Each method is proved against a specification function:
  - `Register`, `Services` and `Filter` in `Registration`;
  - `GeneratedId` and `AssignIdentities` in `ServiceIdentities`;
  - `Assemble` and `VisitTrace` in `ModuleAssembly`.
- The lemmas then state what the source promises about those functions.
- The mixin cache is a `MixinMap` object, so the aliasing created by `setMixins(m, true)` is real in the model.
- The notification concern records its calls in an `EventLog`, so "notify every listener, then commit" is a statement about the order of events.
- The query classes, the wrapped handler and the builder factory are pure, and are modelled as datatypes and functions.

Java's `null` is `Option.None`. A thrown exception is `Result.Failure`, or an `Outcome` where a call's return matters. Reflection and code that is not part of this model are parameters of the operations:
- `initializeMixin`;
- `next.apply`;
- listener and committer outcomes;
- `AssemblySpecifications.types`;
- the imported-service conversion.

## Behaviour worth knowing

- **Later explicit identities.** `generateId` scans every service declaration, including explicitly identified ones declared later in the list (`runtime/src/main/java/org/qi4j/runtime/bootstrap/ModuleAssemblyImpl.java:458-467`). Two `Foo` services without identity followed by one explicitly identified `Foo` therefore assemble as `Foo_1`, `Foo_2` and `Foo`, with no duplicate-identity error. This is stated in `AssemblyScenarios.ExplicitIdentityDeclaredLater`.
- **Imported services.** `generateId` looks at service declarations only, not at imported services. A generated `Foo` can therefore collide with an imported service identified `Foo`, and assembly then fails with a duplicate-identity error. This is stated in `AssemblyScenarios.GeneratedIdentityCollidesWithImported`.
- **First-come order.** Services declared without identity whose types share a simple name get `Name`, `Name_1`, `Name_2`, … in declaration order, whether they are of one class or of several classes with that simple name (`ServiceIdentities.FirstComeOrder`). `generateId` compares identities, not types, so a `Foo` service, an `org.other.Foo` service and another `Foo` service get `Foo`, `Foo_1` and `Foo_2` (`AssemblyScenarios.SameSimpleNameSharesNumbering`). Any held identity equal to a candidate moves the generated ones to the next free candidates (`ServiceIdentities.FirstFreeIndex`), whatever produced it: an explicit identity, one generated for another class with the same simple name, or one generated for a class whose own simple name is, say, `Foo_1`.

## Model

| member | source | states |
|---|---|---|
| ServiceIdentities.DecimalInjective | runtime/src/main/java/org/qi4j/runtime/bootstrap/ModuleAssemblyImpl.java:463 | different suffix indices render differently |
| ServiceIdentities.CandidateInjective | runtime/src/main/java/org/qi4j/runtime/bootstrap/ModuleAssemblyImpl.java:452-463 | different attempts of generateId try different identities |
| ServiceIdentities.CandidatesFitIn | runtime/src/main/java/org/qi4j/runtime/bootstrap/ModuleAssemblyImpl.java:455-469 | if the first n attempts are all taken, at least n identities are held, so the do-while loop terminates |
| ServiceIdentities.FirstFreeIndex | runtime/src/main/java/org/qi4j/runtime/bootstrap/ModuleAssemblyImpl.java:452-470 | the loop stops at an attempt whose identity is free, and every earlier attempt is held: the smallest free index |
| ServiceIdentities.GeneratedIdIsFree | runtime/src/main/java/org/qi4j/runtime/bootstrap/ModuleAssemblyImpl.java:458-467 | the generated identity equals no non-null identity of any service declaration |
| ServiceIdentities.AssignIdentitiesSpec | runtime/src/main/java/org/qi4j/runtime/bootstrap/ModuleAssemblyImpl.java:379-387 | after the service loop every declaration has an identity, types and explicit identities are unchanged, and each generated identity differs from every other declaration's identity |
| ServiceIdentities.AssignedIdentitiesDistinct | runtime/src/main/java/org/qi4j/runtime/bootstrap/ModuleAssemblyImpl.java:379-387 | if the explicit identities are pairwise different, all identities after the service loop are pairwise different |
| ServiceIdentities.FirstComeOrder | runtime/src/main/java/org/qi4j/runtime/bootstrap/ModuleAssemblyImpl.java:379-387 | services declared without identity whose types all share one simple name, of one class or several, are given `Name`, `Name_1`, `Name_2`, … in declaration order, and keep their types |
| Registration.RegisterSpec | runtime/src/main/java/org/qi4j/runtime/bootstrap/ModuleAssemblyImpl.java:99-116 | registering types keeps the existing entries in place, adds exactly the unregistered types, and keeps the table free of duplicates |
| Registration.RegisterSnoc | runtime/src/main/java/org/qi4j/runtime/bootstrap/ModuleAssemblyImpl.java:99-116 | registering one more type appends it at the end exactly when it is not yet registered, so new entries keep argument order, as LinkedHashMap insertion does |
| Registration.RegisterKnownTypes | runtime/src/main/java/org/qi4j/runtime/bootstrap/ModuleAssemblyImpl.java:105-106 | registering only already-registered types leaves the table unchanged |
| Registration.RegisterNewType | runtime/src/main/java/org/qi4j/runtime/bootstrap/ModuleAssemblyImpl.java:107-112 | registering one unregistered type appends exactly that entry |
| Registration.NewServiceDecls | runtime/src/main/java/org/qi4j/runtime/bootstrap/ModuleAssemblyImpl.java:230-235 | addServices creates one declaration without identity per argument, in argument order |
| Registration.Matching | runtime/src/main/java/org/qi4j/runtime/bootstrap/ModuleAssemblyImpl.java:246-248 | the filtered declarations are exactly the matching ones, in list order |
| Registration.ServicesReuseMatches | runtime/src/main/java/org/qi4j/runtime/bootstrap/ModuleAssemblyImpl.java:240-257 | when every type already matches, services(types) leaves the list unchanged and hands out, after the handles already collected, the matching declarations of each type in turn, in the order of the types |
| Registration.ServicesExistingType | runtime/src/main/java/org/qi4j/runtime/bootstrap/ModuleAssemblyImpl.java:244-248 | for one type that already matches, the list is unchanged and exactly its matching declarations are handed out |
| Registration.ServicesOnlyAppend | runtime/src/main/java/org/qi4j/runtime/bootstrap/ModuleAssemblyImpl.java:240-258 | services(types) keeps the existing list as a prefix and appends only declarations without identity |
| Registration.ServicesNewType | runtime/src/main/java/org/qi4j/runtime/bootstrap/ModuleAssemblyImpl.java:249-254 | a type with no match gets exactly one new declaration, at the end of the list |
| Registration.FilterSpec | runtime/src/main/java/org/qi4j/runtime/bootstrap/ModuleAssemblyImpl.java:119-129 | a selector returns exactly the satisfying entries, never more than the table holds, in registration order |
| Registration.Select | runtime/src/main/java/org/qi4j/runtime/bootstrap/ModuleAssemblyImpl.java:121-128 | the selector loop computes the filtered sequence |
| Registration.RegisterTypes | runtime/src/main/java/org/qi4j/runtime/bootstrap/ModuleAssemblyImpl.java:101-115 | the registration loop yields the registered table, and one declaration per argument, in argument order |
| ModuleAssembly.FirstDuplicateSpec | runtime/src/main/java/org/qi4j/runtime/bootstrap/ModuleAssemblyImpl.java:402-425 | the duplicate check passes exactly when no identity repeats, and a reported identity occurs twice |
| ModuleAssembly.AddImporterObjectsSpec | runtime/src/main/java/org/qi4j/runtime/bootstrap/ModuleAssemblyImpl.java:427-444 | after the importer pass: every importer type has an object model; earlier models are kept; each added model is module-visible, for an importer type that had none, and no two added models share a type |
| ModuleAssembly.AssembleSucceedsIffIdentitiesDistinct | runtime/src/main/java/org/qi4j/runtime/bootstrap/ModuleAssemblyImpl.java:402-425 | a named module assembles exactly when service identities plus imported identities are pairwise different; a failure names the module and an identity that occurs twice |
| ModuleAssembly.AssembledObjectModels | runtime/src/main/java/org/qi4j/runtime/bootstrap/ModuleAssemblyImpl.java:374-377 | a successful assembly keeps the declared object models first, and gives every imported service's importer an object model; each added model is module-visible, belongs to the importer of some imported service, is not a declared object type, and is the only model added for its type |
| ModuleAssembly.VisitTraceSpec | runtime/src/main/java/org/qi4j/runtime/bootstrap/ModuleAssemblyImpl.java:308-342 | visit calls back for the module first, then once per declaration; exactly the registered transients, entities, objects, services, imported services and values are visited |
| ModuleAssembly.VisitTraceOrder | runtime/src/main/java/org/qi4j/runtime/bootstrap/ModuleAssemblyImpl.java:311-341 | the callbacks come in the order module, transients, entities, objects, services, imported services, values, each family in registration order: the k-th declaration of a family is visited at the family's offset plus k |
| ModuleAssembly.CheckDuplicates | runtime/src/main/java/org/qi4j/runtime/bootstrap/ModuleAssemblyImpl.java:402-425 | the set-based loops report the first repeated identity of the specification, or none |
| ModuleAssembly.AddImporterModels | runtime/src/main/java/org/qi4j/runtime/bootstrap/ModuleAssemblyImpl.java:427-444 | the nested search loops compute the importer pass of the specification |
| ModuleAssembly.ModuleAssemblyImpl.constructor | runtime/src/main/java/org/qi4j/runtime/bootstrap/ModuleAssemblyImpl.java:71-75 | a new assembly has the given name and empty tables |
| ModuleAssembly.ModuleAssemblyImpl.SetName | runtime/src/main/java/org/qi4j/runtime/bootstrap/ModuleAssemblyImpl.java:82-86 | only the name changes |
| ModuleAssembly.ModuleAssemblyImpl.Values | runtime/src/main/java/org/qi4j/runtime/bootstrap/ModuleAssemblyImpl.java:99-116 | the value table becomes the registration of the types; nothing else changes; tables stay duplicate-free |
| ModuleAssembly.ModuleAssemblyImpl.Transients | runtime/src/main/java/org/qi4j/runtime/bootstrap/ModuleAssemblyImpl.java:131-149 | the same for the transient table |
| ModuleAssembly.ModuleAssemblyImpl.Entities | runtime/src/main/java/org/qi4j/runtime/bootstrap/ModuleAssemblyImpl.java:163-180 | the same for the entity table |
| ModuleAssembly.ModuleAssemblyImpl.Objects | runtime/src/main/java/org/qi4j/runtime/bootstrap/ModuleAssemblyImpl.java:194-211 | the same for the object table |
| ModuleAssembly.ModuleAssemblyImpl.ImportedServices | runtime/src/main/java/org/qi4j/runtime/bootstrap/ModuleAssemblyImpl.java:272-289 | the same for the imported-service table |
| ModuleAssembly.ModuleAssemblyImpl.AddServices | runtime/src/main/java/org/qi4j/runtime/bootstrap/ModuleAssemblyImpl.java:226-238 | one new declaration per argument is appended, even for types already present; the handles are the new positions |
| ModuleAssembly.ModuleAssemblyImpl.ServicesOf | runtime/src/main/java/org/qi4j/runtime/bootstrap/ModuleAssemblyImpl.java:240-258 | the new list and the handed-out declarations are those of the services(types) specification |
| ModuleAssembly.ModuleAssemblyImpl.ValuesWhere | runtime/src/main/java/org/qi4j/runtime/bootstrap/ModuleAssemblyImpl.java:118-129 | returns the satisfying value declarations in registration order, mutating nothing |
| ModuleAssembly.ModuleAssemblyImpl.TransientsWhere | runtime/src/main/java/org/qi4j/runtime/bootstrap/ModuleAssemblyImpl.java:151-161 | the same for transients |
| ModuleAssembly.ModuleAssemblyImpl.EntitiesWhere | runtime/src/main/java/org/qi4j/runtime/bootstrap/ModuleAssemblyImpl.java:182-192 | the same for entities |
| ModuleAssembly.ModuleAssemblyImpl.ObjectsWhere | runtime/src/main/java/org/qi4j/runtime/bootstrap/ModuleAssemblyImpl.java:213-223 | the same for objects |
| ModuleAssembly.ModuleAssemblyImpl.ServicesWhere | runtime/src/main/java/org/qi4j/runtime/bootstrap/ModuleAssemblyImpl.java:260-270 | the same for services |
| ModuleAssembly.ModuleAssemblyImpl.ImportedServicesWhere | runtime/src/main/java/org/qi4j/runtime/bootstrap/ModuleAssemblyImpl.java:291-301 | the same for imported services |
| ModuleAssembly.ModuleAssemblyImpl.Visit | runtime/src/main/java/org/qi4j/runtime/bootstrap/ModuleAssemblyImpl.java:308-342 | the callbacks made are those of the visit order specification |
| ModuleAssembly.ModuleAssemblyImpl.GenerateId | runtime/src/main/java/org/qi4j/runtime/bootstrap/ModuleAssemblyImpl.java:449-471 | the do-while loop returns the first free candidate, which no service declaration holds |
| ModuleAssembly.ModuleAssemblyImpl.AssignServiceIdentities | runtime/src/main/java/org/qi4j/runtime/bootstrap/ModuleAssemblyImpl.java:379-387 | the in-place service loop leaves the declarations of the specification, all identified, and builds their service models |
| ModuleAssembly.ModuleAssemblyImpl.AssembleModule | runtime/src/main/java/org/qi4j/runtime/bootstrap/ModuleAssemblyImpl.java:344-447 | the outcome is the Assemble specification; identities stay assigned even on a duplicate failure; without a name it fails with nothing changed |
| AssemblyScenarios.ExplicitIdentityDeclaredLater | runtime/src/main/java/org/qi4j/runtime/bootstrap/ModuleAssemblyImpl.java:379-387 | Foo, Foo, explicit Foo get Foo_1, Foo_2, Foo, and the module assembles |
| AssemblyScenarios.GeneratedIdentityCollidesWithImported | runtime/src/main/java/org/qi4j/runtime/bootstrap/ModuleAssemblyImpl.java:404-425 | a generated Foo and an imported Foo make assembly fail with "Foo" in the module's name |
| AssemblyScenarios.SameSimpleNameSharesNumbering | runtime/src/main/java/org/qi4j/runtime/bootstrap/ModuleAssemblyImpl.java:452-469 | services of two different classes with the simple name Foo are numbered together: Foo, Foo_1, Foo_2 |
| CompositeInvocation.RegularCompositeInvocationHandler.constructor | runtime/src/main/java/org/qi4j/runtime/RegularCompositeInvocationHandler.java:32-36 | a new handler has a fresh, empty, concurrent mixin cache |
| CompositeInvocation.CachedMixinIgnoresInitializer | runtime/src/main/java/org/qi4j/runtime/RegularCompositeInvocationHandler.java:60-68 | a cached mixin is returned whatever initializeMixin would do |
| CompositeInvocation.ObjectMixinNeverInitialized | runtime/src/main/java/org/qi4j/runtime/RegularCompositeInvocationHandler.java:62-67 | the Object lookup depends on the cache alone, and without an entry it is null |
| CompositeInvocation.RegularCompositeInvocationHandler.GetMixin | runtime/src/main/java/org/qi4j/runtime/RegularCompositeInvocationHandler.java:60-68 | getMixin; its contract is stated by `CompositeInvocation.CachedMixinIgnoresInitializer`, `CompositeInvocation.ObjectMixinNeverInitialized` and `CompositeInvocation.UncachedMixinInitialized` |
| CompositeInvocation.RegularCompositeInvocationHandler.Invoke | runtime/src/main/java/org/qi4j/runtime/RegularCompositeInvocationHandler.java:39-58 | invoke; its contract is stated by `CompositeInvocation.InvokeRouting` |
| CompositeInvocation.UncachedMixinInitialized | runtime/src/main/java/org/qi4j/runtime/RegularCompositeInvocationHandler.java:60-68 | without a cached entry, any type but Object gets exactly what initializeMixin yields for it and the proxy |
| CompositeInvocation.InvokeRouting | runtime/src/main/java/org/qi4j/runtime/RegularCompositeInvocationHandler.java:39-58 | a found mixin, cached or just initialized, gets the call with the same composite, method, arguments and mixin type; Object methods never fail; the "Implementation missing for X in Y" failure happens exactly when there is no cached or initialized mixin for a non-Object type |
| CompositeInvocation.RegularCompositeInvocationHandler.GetMixins | runtime/src/main/java/org/qi4j/runtime/RegularCompositeInvocationHandler.java:70-73 | returns the cache object itself |
| CompositeInvocation.RegularCompositeInvocationHandler.SetMixins | runtime/src/main/java/org/qi4j/runtime/RegularCompositeInvocationHandler.java:75-86 | with keep and a concurrent map the handler adopts that map; otherwise it installs a fresh concurrent map with exactly its entries |
| CompositeInvocation.RegularCompositeInvocationHandler.PutMixin | runtime/src/main/java/org/qi4j/runtime/RegularCompositeInvocationHandler.java:89-92 | sets the entry for one type and leaves all others unchanged |
| CompositeInvocation.PutThroughAdoptedMap | runtime/src/main/java/org/qi4j/runtime/RegularCompositeInvocationHandler.java:77-80 | after setMixins(m, true), a put through the handler is seen through m |
| CompositeInvocation.PutAfterCopy | runtime/src/main/java/org/qi4j/runtime/RegularCompositeInvocationHandler.java:81-85 | after a copying setMixins, puts on either side are not seen by the other |
| WrappedInvocation.GetWrappedInstance | runtime/src/main/java/org/qi4j/runtime/WrappedCompositeInvocationHandler.java:27-30 | getWrappedInstance; its contract is stated by `WrappedInvocation.InvokeRouting` |
| WrappedInvocation.Invoke | runtime/src/main/java/org/qi4j/runtime/WrappedCompositeInvocationHandler.java:34-42 | invoke; its contract is stated by `WrappedInvocation.InvokeRouting` |
| WrappedInvocation.InvokeRouting | runtime/src/main/java/org/qi4j/runtime/WrappedCompositeInvocationHandler.java:21-42 | a call goes to the wrapped instance exactly when declared by Object, with the original method and args; other calls go to the superclass unchanged; getWrappedInstance returns the constructor argument |
| WrappedInvocation.WrappedInstanceFixed | runtime/src/main/java/org/qi4j/runtime/WrappedCompositeInvocationHandler.java:19-30 | corollary of `WrappedInvocation.InvokeRouting` over a sequence of calls: the handler is a value, so every Object call targets the instance given at construction |
| ObjectBuilders.NewObjectBuilder | runtime/src/main/java/org/qi4j/runtime/ModuleObjectBuilderFactory.java:36-50 | newObjectBuilder; its contract is stated by `ObjectBuilders.NewObjectBuilderSpec` |
| ObjectBuilders.NewObjectBuilderSpec | runtime/src/main/java/org/qi4j/runtime/ModuleObjectBuilderFactory.java:36-50 | a builder is made exactly for a type with an object context, bound to the factory's module context and that object context; otherwise the failure message names the type and then the module |
| ObjectBuilders.BuildersShareModuleContext | runtime/src/main/java/org/qi4j/runtime/ModuleObjectBuilderFactory.java:29-34 | corollary of `ObjectBuilders.NewObjectBuilderSpec` over a sequence of requests: the factory is a value, so every builder is bound to its one module context |
| StateChangeNotification.FirstFailure | spi/src/main/java/org/qi4j/spi/entity/helpers/StateChangeNotificationConcern.java:39-42 | the first throwing listener, all earlier ones quiet; none exactly when every listener is quiet |
| StateChangeNotification.StateChangeNotificationConcern.Apply | spi/src/main/java/org/qi4j/spi/entity/helpers/StateChangeNotificationConcern.java:32-51 | next.apply is called once with the same state and identity, and its committer is wrapped in a new committer for that state |
| StateChangeNotification.NotifyingCommitter.Commit | spi/src/main/java/org/qi4j/spi/entity/helpers/StateChangeNotificationConcern.java:37-44 | the calls made and the outcome are those of the commit specification for the listeners present at commit time |
| StateChangeNotification.NotifyingCommitter.Cancel | spi/src/main/java/org/qi4j/spi/entity/helpers/StateChangeNotificationConcern.java:46-49 | only the underlying cancel is called, with its outcome; no listener is notified |
| StateChangeNotification.QuietListenersThenCommit | spi/src/main/java/org/qi4j/spi/entity/helpers/StateChangeNotificationConcern.java:37-44 | with quiet listeners every listener is notified in order with the applied state, then the underlying commit comes last, and its outcome (failure included) is returned unchanged |
| StateChangeNotification.CommitComesLast | spi/src/main/java/org/qi4j/spi/entity/helpers/StateChangeNotificationConcern.java:39-43 | whenever the underlying commit happens, it is the last call, and every listener was notified quietly before it |
| StateChangeNotification.ListenerFailureStopsCommit | spi/src/main/java/org/qi4j/spi/entity/helpers/StateChangeNotificationConcern.java:39-43 | a throwing listener stops the loop: later listeners are not notified, there is no commit, and its exception propagates |
| StateChangeNotification.ApplyThenCommit | spi/src/main/java/org/qi4j/spi/entity/helpers/StateChangeNotificationConcern.java:32-44 | apply then commit makes exactly: next.apply, each listener's notification, the underlying commit |
| QueryGraph.NewPropertyExpression | api/src/main/java/org/qi4j/query/graph/PropertyExpressionImpl.java:59-83 | the three- and four-argument constructors; the contract is stated by `QueryGraph.ThreeArgumentConstructor` |
| QueryGraph.ThreeArgumentConstructor | api/src/main/java/org/qi4j/query/graph/PropertyExpressionImpl.java:59-83 | the three-argument constructor is the four-argument one with no traversed association; the getters return its arguments and the rendering has no association prefix |
| QueryGraph.FromMethod | api/src/main/java/org/qi4j/query/graph/PropertyExpressionImpl.java:90-119 | the Method constructors; the contract is stated by `QueryGraph.FromMethodSpec` and `QueryGraph.FromMethodAgreesWithParts` |
| QueryGraph.FromMethodSpec | api/src/main/java/org/qi4j/query/graph/PropertyExpressionImpl.java:102-119 | the Method constructor succeeds exactly for a return type parameterized by a class, taking name, declaring type, type and traversal from it; otherwise it fails naming the offending type |
| QueryGraph.FromMethodAgreesWithParts | api/src/main/java/org/qi4j/query/graph/PropertyExpressionImpl.java:90-93 | the one-argument Method constructor agrees with the three-argument constructor on what it reads |
| QueryGraph.ToString | api/src/main/java/org/qi4j/query/graph/PropertyExpressionImpl.java:153-163 | toString; its contract is stated by `QueryGraph.ToStringLayout` and `QueryGraph.ToStringDistinguishesTypes` |
| QueryGraph.ToStringLayout | api/src/main/java/org/qi4j/query/graph/PropertyExpressionImpl.java:153-163 | the rendering is simpleName:name()^^typeName, prefixed by the traversed rendering and a dot when there is one, and ends with "()^^" and the type name |
| QueryGraph.ToStringDistinguishesTypes | api/src/main/java/org/qi4j/query/graph/PropertyExpressionImpl.java:153-163 | expressions that differ only in property type name render differently |
| QueryGraph.NewIsNotNull | api/src/main/java/org/qi4j/query/graph/IsNotNull.java:31-40 | the constructor; its contract is stated by `QueryGraph.IsNotNullSpec` |
| QueryGraph.IsNotNullToString | api/src/main/java/org/qi4j/query/graph/IsNotNull.java:42-49 | toString; its contract is stated by `QueryGraph.IsNotNullSpec`, `QueryGraph.IsNotNullVerbatim` and `QueryGraph.IsNotNullInjective` |
| QueryGraph.IsNotNullSpec | api/src/main/java/org/qi4j/query/graph/IsNotNull.java:34-49 | the constraint is built exactly for a present property, and shows its rendering verbatim between "( " and " IS NOT NULL )" |
| QueryGraph.IsNotNullVerbatim | api/src/main/java/org/qi4j/query/graph/IsNotNull.java:42-49 | the argument appears unmodified between the fixed prefix and suffix |
| QueryGraph.IsNotNullInjective | api/src/main/java/org/qi4j/query/graph/IsNotNull.java:42-49 | different arguments give different texts |
| QueryGrammar.IsNullVerbatim | api/src/main/java/org/qi4j/query/grammar/impl/PropertyIsNullPredicateImpl.java:45-52 | the reference appears unmodified between "( " and " IS NULL )" |
| QueryGrammar.NewPropertyIsNullPredicate | api/src/main/java/org/qi4j/query/grammar/impl/PropertyIsNullPredicateImpl.java:34-43 | the constructor; its contract is stated by `QueryGrammar.IsNullSpec` |
| QueryGrammar.ToString | api/src/main/java/org/qi4j/query/grammar/impl/PropertyIsNullPredicateImpl.java:45-52 | toString; its contract is stated by `QueryGrammar.IsNullSpec`, `QueryGrammar.IsNullVerbatim` and `QueryGrammar.IsNullInjective` |
| QueryGrammar.IsNullSpec | api/src/main/java/org/qi4j/query/grammar/impl/PropertyIsNullPredicateImpl.java:37-52 | the predicate is built exactly for a present reference, and renders it verbatim |
| QueryGrammar.IsNullInjective | api/src/main/java/org/qi4j/query/grammar/impl/PropertyIsNullPredicateImpl.java:45-52 | different references give different texts |
| QueryGrammar.IsNullNeverIsNotNull | api/src/main/java/org/qi4j/query/grammar/impl/PropertyIsNullPredicateImpl.java:45-52 | no IS NULL text equals any IS NOT NULL text, for any two arguments |

## Left out

- Concurrency: the mixin cache is a `ConcurrentHashMap`. It is modelled as a sequential map, because the code relies on no insert-if-absent guarantee.
- Reflection: `method.invoke`, `getDeclaringClass`, generic-type introspection and `Type.toString` are not interpreted. A method is its name and declaring class, and a type carries its own rendering.
- Code that is not part of this model is a parameter or an opaque result:
  - `initializeMixin` (which may also fill the cache; the model does not assume so);
  - `invokeObject`, `context.getInvocationInstance`, `super.invoke`;
  - `next.apply`, the listeners, and the underlying committer.
- The declaration conversions `newTransientModel`, `newValueModel`, `newEntityModel`, `addObjectModel` and `newServiceModel` are not shown. A converted model is represented by its declared type. A service model carries its declaration's identity.
- `addImportedServiceModel` is not shown either. It is the parameter `importedModelOf`.
- `AssemblySpecifications.types` (the matching used by `services(types)`) is the parameter `matches`.
- `MetaInfo`, `setMetaInfo`, `forMixin`, `layer()` and the assembly helper: metadata and its resolution are not modelled.
- `ModuleAssembly.ModuleAssemblyImpl.AssembleModule` returns the synthesized importer object models next to the module model. It does not claim that they reach the already-built `ModuleModel`, because that depends on `ObjectsModel`, which is not part of this model.
- `ModuleAssembly.ModuleAssemblyImpl.IdentifiedBy` stands in for setting a declaration's identity through `ServiceDeclarationImpl`, which is not part of this model.
- Declaration handles: the registration methods return types (for keyed tables) or list positions (for services) instead of declaration objects. Keyed declarations carry nothing but their type here.
- Exceptions thrown by the visitor callbacks, the conversions or `next.apply`.
- Exceptions thrown by `initializeMixin`, by `invokeObject`, by the invocation instance's `invoke`, or by `method.invoke` on the wrapped instance. `invoke` passes them to its caller unchanged (`runtime/src/main/java/org/qi4j/runtime/RegularCompositeInvocationHandler.java:42-57,65`, `runtime/src/main/java/org/qi4j/runtime/WrappedCompositeInvocationHandler.java:38`). The `initialize` parameter of `GetMixin` yields only an `Option`, so the model cannot represent such a failure; the `Invocation` and `WrappedCall` results name the call that would throw.
- The `int` suffix counter of `generateId` cannot overflow before more than 2^31 identities are held. It is modelled as unbounded.
- `QueryGraph.NewIsNotNull` and `QueryGrammar.NewPropertyIsNullPredicate` follow the constructors' documentation: a null argument is rejected with `IllegalArgumentException`. The checking superclasses (`AbstractUnaryOperator`, `PropertyNullPredicateImpl`) are not part of this model, and neither is the exception's message.
- Null strings and null classes handed to `PropertyExpressionImpl`, a `null` passed to `putMixin`, and a `null` map, or a map with null keys or values, passed to `setMixins` (where `ConcurrentHashMap.putAll` throws `NullPointerException`, `runtime/src/main/java/org/qi4j/runtime/RegularCompositeInvocationHandler.java:75-86`) are excluded by the types: `MixinMap` holds a map from classes to object references.
- A Java class is identified here by its name and simple name. Two distinct `Class` objects with the same name, loaded by different class loaders, are one key in the model's tables and mixin cache, where Java keeps them apart.
- A parameterized type without type arguments, which Java does not produce, is excluded by the model of `JavaType`.
