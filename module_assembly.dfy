/**
 * ModuleAssemblyImpl: the builder that accumulates a module's declarations and
 * compiles them into a module model (assembleModule).
 */
module ModuleAssembly {
  import opened Wrappers
  import opened JavaLang
  import opened Collections
  import opened ServiceIdentities
  import opened Registration

  // ----- Models produced by assembleModule

  datatype Visibility = Module | Layer | Application

  /**
   * An object model: one built from an object declaration (by the conversion
   * addObjectModel, which is not part of this model), or one synthesized for a
   * service importer type.
   */
  datatype ObjectModel =
    | DeclaredObject(objectType: ClassName)
    | ImporterObject(objectType: ClassName, visibility: Visibility)

  /** A service model; its identity is its declaration's identity. */
  datatype ServiceModel = ServiceModel(serviceType: ClassName, identity: string)

  /** An imported-service model, as the conversion addImportedServiceModel yields it. */
  datatype ImportedServiceModel = ImportedServiceModel(serviceType: ClassName, identity: string, serviceImporter: ClassName)

  /**
   * A module model. Transient, entity and value models are represented by the
   * declared type they are built from.
   */
  datatype ModuleModel = ModuleModel(
    name: string,
    transients: seq<ClassName>,
    entities: seq<ClassName>,
    objects: seq<ObjectModel>,
    values: seq<ClassName>,
    services: seq<ServiceModel>,
    importedServices: seq<ImportedServiceModel>)

  /**
   * What a successful assembleModule leaves behind: the module model, and the
   * object-model list it was built from as that list stands after the importer pass.
   */
  datatype AssembledModule = AssembledModule(model: ModuleModel, objectModels: seq<ObjectModel>)

  datatype AssemblyError =
    | MissingName                                             // AssemblyException
    | DuplicateServiceIdentity(identity: string, moduleName: string)  // DuplicateServiceIdentityException

  /** The exception message of each assembly error. */
  function Message(e: AssemblyError): (message: string)
  {
    match e
    case MissingName => "Module must have name set"
    case DuplicateServiceIdentity(id, m) => "Duplicated service identity: " + id + " in module " + m
  }

  /** Everything a module assembly holds, as values. */
  datatype AssemblyState = AssemblyState(
    name: Option<string>,
    services: seq<ServiceDecl>,
    importedServices: seq<ClassName>,
    entities: seq<ClassName>,
    values: seq<ClassName>,
    transients: seq<ClassName>,
    objects: seq<ClassName>)

  /** The keyed tables hold each type at most once. */
  ghost predicate ValidState(st: AssemblyState)
  {
    && Distinct(st.importedServices)
    && Distinct(st.entities)
    && Distinct(st.values)
    && Distinct(st.transients)
    && Distinct(st.objects)
  }

  // ----- The specification of assembleModule

  /** The object models built from the object declarations, in registration order. */
  function DeclaredObjects(objects: seq<ClassName>): (ms: seq<ObjectModel>)
    ensures |ms| == |objects|
    ensures forall k :: 0 <= k < |objects| ==> ms[k] == DeclaredObject(objects[k])
  {
    seq(|objects|, k requires 0 <= k < |objects| => DeclaredObject(objects[k]))
  }

  /** The service models of declarations that all have an identity. */
  function ServiceModels(services: seq<ServiceDecl>): (ms: seq<ServiceModel>)
    requires forall k :: 0 <= k < |services| ==> services[k].identity.Some?
    ensures |ms| == |services|
  {
    seq(|services|, k requires 0 <= k < |services| => ServiceModel(services[k].serviceType, services[k].identity.value))
  }

  /** The identities checked for duplicates: service models first, then imported-service models. */
  function CheckedIdentities(services: seq<ServiceModel>, imported: seq<ImportedServiceModel>): (ids: seq<string>)
    ensures |ids| == |services| + |imported|
  {
    seq(|services|, k requires 0 <= k < |services| => services[k].identity)
    + seq(|imported|, k requires 0 <= k < |imported| => imported[k].identity)
  }

  /**
   * The first identity, in scan order, that was already added to the identity
   * set `seen`: the one DuplicateServiceIdentityException reports.
   */
  function FirstDuplicate(ids: seq<string>, seen: set<string>): (dup: Option<string>)
    decreases |ids|
  {
    if ids == [] then None
    else if ids[0] in seen then Some(ids[0])
    else FirstDuplicate(ids[1..], seen + {ids[0]})
  }

  /**
   * The duplicate check passes exactly when no identity repeats; when it fails,
   * the identity it reports occurs twice.
   */
  lemma {:induction false} FirstDuplicateSpec(ids: seq<string>, seen: set<string>)
    ensures FirstDuplicate(ids, seen).None? <==> Distinct(ids) && forall k :: 0 <= k < |ids| ==> ids[k] !in seen
    ensures FirstDuplicate(ids, seen).Some? ==>
              exists k :: 0 <= k < |ids| && ids[k] == FirstDuplicate(ids, seen).value &&
                (ids[k] in seen || exists j :: 0 <= j < k && ids[j] == ids[k])
    decreases |ids|
  {
    if ids != [] && ids[0] !in seen {
      var rest := ids[1..];
      FirstDuplicateSpec(rest, seen + {ids[0]});
      if FirstDuplicate(ids, seen).Some? {
        var k :| 0 <= k < |rest| && rest[k] == FirstDuplicate(rest, seen + {ids[0]}).value &&
                 (rest[k] in seen + {ids[0]} || exists j :: 0 <= j < k && rest[j] == rest[k]);
        if rest[k] in seen {
        } else if rest[k] == ids[0] {
          assert ids[k + 1] == ids[0];
        } else {
          var j :| 0 <= j < k && rest[j] == rest[k];
          assert ids[j + 1] == ids[k + 1];
        }
        assert ids[k + 1] == rest[k];
      }
      if Distinct(ids) {
        assert Distinct(rest) by {
          forall a, b | 0 <= a < b < |rest| ensures rest[a] != rest[b] {
            assert rest[a] == ids[a + 1] && rest[b] == ids[b + 1];
          }
        }
      }
      if FirstDuplicate(rest, seen + {ids[0]}).None? {
        forall a, b | 0 <= a < b < |ids| ensures ids[a] != ids[b] {
          if a > 0 {
            assert ids[a] == rest[a - 1] && ids[b] == rest[b - 1];
          } else {
            assert ids[b] == rest[b - 1];
          }
        }
      }
    }
  }

  /** Whether some model in `objects` has type `t`. */
  predicate HasObjectOfType(objects: seq<ObjectModel>, t: ClassName)
  {
    exists k :: 0 <= k < |objects| && objects[k].objectType == t
  }

  /**
   * The importer pass of assembleModule: for each importer type in turn, a
   * module-visible object model is appended when no object model has that type.
   */
  function AddImporterObjects(objects: seq<ObjectModel>, importers: seq<ClassName>): (r: seq<ObjectModel>)
    decreases |importers|
  {
    if importers == [] then objects
    else
      var next := if HasObjectOfType(objects, importers[0]) then objects
                  else objects + [ImporterObject(importers[0], Module)];
      AddImporterObjects(next, importers[1..])
  }

  /**
   * After the importer pass every importer type has an object model; the models
   * already there are kept; each added model is module-visible, has an importer
   * type that had no object model, and no two added models share a type.
   */
  lemma {:induction false} AddImporterObjectsSpec(objects: seq<ObjectModel>, importers: seq<ClassName>)
    ensures |AddImporterObjects(objects, importers)| >= |objects|
    ensures AddImporterObjects(objects, importers)[..|objects|] == objects
    ensures forall k :: 0 <= k < |importers| ==> HasObjectOfType(AddImporterObjects(objects, importers), importers[k])
    ensures forall k :: |objects| <= k < |AddImporterObjects(objects, importers)| ==>
              && AddImporterObjects(objects, importers)[k].ImporterObject?
              && AddImporterObjects(objects, importers)[k].visibility == Module
              && AddImporterObjects(objects, importers)[k].objectType in importers
              && !HasObjectOfType(objects, AddImporterObjects(objects, importers)[k].objectType)
              && !HasObjectOfType(AddImporterObjects(objects, importers)[..k], AddImporterObjects(objects, importers)[k].objectType)
    decreases |importers|
  {
    if importers != [] {
      var t := importers[0];
      var next := if HasObjectOfType(objects, t) then objects else objects + [ImporterObject(t, Module)];
      AddImporterObjectsSpec(next, importers[1..]);
      var r := AddImporterObjects(next, importers[1..]);
      assert r == AddImporterObjects(objects, importers);
      assert next[..|objects|] == objects;
      assert r[..|objects|] == r[..|next|][..|objects|];
      assert HasObjectOfType(r, t) by {
        if HasObjectOfType(objects, t) {
          var k :| 0 <= k < |objects| && objects[k].objectType == t;
          assert r[k] == objects[k];
        } else {
          assert r[|objects|] == next[|objects|];
        }
      }
      forall k | 0 <= k < |importers|
        ensures HasObjectOfType(r, importers[k])
      {
        if k > 0 {
          assert importers[k] == importers[1..][k - 1];
        }
      }
      forall k | |objects| <= k < |r|
        ensures r[k].ImporterObject? && r[k].visibility == Module && r[k].objectType in importers
        ensures !HasObjectOfType(objects, r[k].objectType)
        ensures !HasObjectOfType(r[..k], r[k].objectType)
      {
        if k < |next| {
          assert r[k] == next[k] == ImporterObject(t, Module);
          assert r[..k] == objects;
        } else {
          assert r[k].objectType in importers[1..];
          forall j | 0 <= j < |objects|
            ensures objects[j].objectType != r[k].objectType
          {
            assert next[j] == objects[j];
          }
        }
      }
    }
  }

  /** The importer types of the imported-service models, in order. */
  function Importers(imported: seq<ImportedServiceModel>): (ts: seq<ClassName>)
    ensures |ts| == |imported|
  {
    seq(|imported|, k requires 0 <= k < |imported| => imported[k].serviceImporter)
  }

  /** The service declarations after assembleModule: identities are assigned unless the name check failed. */
  function ServicesAfterAssembly(st: AssemblyState): (services: seq<ServiceDecl>)
  {
    if st.name.None? then st.services else AssignIdentities(st.services)
  }

  /** The outcome of assembleModule on an assembly in state `st`. */
  function Assemble(st: AssemblyState, importedModelOf: ClassName -> ImportedServiceModel): (r: Result<AssembledModule, AssemblyError>)
  {
    if st.name.None? then Failure(MissingName)
    else
      var services := AssignIdentities(st.services);
      AssignIdentitiesSpec(st.services);
      var serviceModels := ServiceModels(services);
      var importedModels := MapSeq(st.importedServices, importedModelOf);
      var model := ModuleModel(st.name.value, st.transients, st.entities, DeclaredObjects(st.objects),
                                st.values, serviceModels, importedModels);
      match FirstDuplicate(CheckedIdentities(serviceModels, importedModels), {})
      case Some(id) => Failure(DuplicateServiceIdentity(id, st.name.value))
      case None => Success(AssembledModule(model, AddImporterObjects(DeclaredObjects(st.objects), Importers(importedModels))))
  }

  /** All identities a named module's assembly checks: assigned service identities, then imported ones. */
  function AssembledIdentities(st: AssemblyState, importedModelOf: ClassName -> ImportedServiceModel): (ids: seq<string>)
  {
    AssignIdentitiesSpec(st.services);
    CheckedIdentities(ServiceModels(AssignIdentities(st.services)), MapSeq(st.importedServices, importedModelOf))
  }

  /**
   * A named module assembles exactly when the checked identities are pairwise
   * different; a failure reports this module's name and an identity that occurs twice.
   */
  lemma AssembleSucceedsIffIdentitiesDistinct(st: AssemblyState, importedModelOf: ClassName -> ImportedServiceModel)
    requires st.name.Some?
    ensures Assemble(st, importedModelOf).Success? <==> Distinct(AssembledIdentities(st, importedModelOf))
    ensures Assemble(st, importedModelOf).Failure? ==>
              && Assemble(st, importedModelOf).error.DuplicateServiceIdentity?
              && Assemble(st, importedModelOf).error.moduleName == st.name.value
              && exists i, j :: 0 <= i < j < |AssembledIdentities(st, importedModelOf)| &&
                   AssembledIdentities(st, importedModelOf)[i] == AssembledIdentities(st, importedModelOf)[j] ==
                   Assemble(st, importedModelOf).error.identity
  {
    var ids := AssembledIdentities(st, importedModelOf);
    FirstDuplicateSpec(ids, {});
    if FirstDuplicate(ids, {}).Some? {
      var k :| 0 <= k < |ids| && ids[k] == FirstDuplicate(ids, {}).value &&
               (ids[k] in {} || exists j :: 0 <= j < k && ids[j] == ids[k]);
      var j :| 0 <= j < k && ids[j] == ids[k];
    }
  }

  /**
   * A successful assembly keeps the declared object models first and gives every
   * imported service's importer type an object model, adding module-visible
   * models only for importer types without one, one per type.
   */
  lemma AssembledObjectModels(st: AssemblyState, importedModelOf: ClassName -> ImportedServiceModel)
    requires Assemble(st, importedModelOf).Success?
    ensures var objs := Assemble(st, importedModelOf).value.objectModels;
            && |objs| >= |st.objects|
            && objs[..|st.objects|] == DeclaredObjects(st.objects)
            && (forall k :: 0 <= k < |st.importedServices| ==>
                  HasObjectOfType(objs, importedModelOf(st.importedServices[k]).serviceImporter))
            && (forall k :: |st.objects| <= k < |objs| ==>
                  objs[k].ImporterObject? && objs[k].visibility == Module &&
                  (exists i :: 0 <= i < |st.importedServices| &&
                     importedModelOf(st.importedServices[i]).serviceImporter == objs[k].objectType) &&
                  objs[k].objectType !in st.objects && !HasObjectOfType(objs[..k], objs[k].objectType))
  {
    var imported := MapSeq(st.importedServices, importedModelOf);
    var declared := DeclaredObjects(st.objects);
    AddImporterObjectsSpec(declared, Importers(imported));
    var objs := Assemble(st, importedModelOf).value.objectModels;
    assert objs == AddImporterObjects(declared, Importers(imported));
    forall k | 0 <= k < |st.importedServices|
      ensures HasObjectOfType(objs, importedModelOf(st.importedServices[k]).serviceImporter)
    {
      assert Importers(imported)[k] == importedModelOf(st.importedServices[k]).serviceImporter;
    }
    forall k, j | |st.objects| <= k < |objs| && 0 <= j < |st.objects|
      ensures st.objects[j] != objs[k].objectType
    {
      assert declared[j].objectType == st.objects[j];
    }
    forall k | |st.objects| <= k < |objs|
      ensures exists i :: 0 <= i < |st.importedServices| &&
                importedModelOf(st.importedServices[i]).serviceImporter == objs[k].objectType
    {
      var i :| 0 <= i < |Importers(imported)| && Importers(imported)[i] == objs[k].objectType;
      assert imported[i] == importedModelOf(st.importedServices[i]);
    }
  }

  // ----- The builder

  /** A visit callback of AssemblyVisitor, with the declaration it is passed. */
  datatype VisitEvent =
    | VisitModule
    | VisitComposite(compositeType: ClassName)
    | VisitEntity(entityType: ClassName)
    | VisitObject(objectType: ClassName)
    | VisitService(service: ServiceDecl)
    | VisitImportedService(serviceType: ClassName)
    | VisitValue(valueType: ClassName)

  class ModuleAssemblyImpl {
    var name: Option<string>
    var serviceAssemblies: seq<ServiceDecl>
    var importedServiceAssemblies: seq<ClassName>
    var entityAssemblies: seq<ClassName>
    var valueAssemblies: seq<ClassName>
    var transientAssemblies: seq<ClassName>
    var objectAssemblies: seq<ClassName>

    /** The assembly's contents as a value. */
    function State(): (st: AssemblyState)
      reads this
    {
      AssemblyState(name, serviceAssemblies, importedServiceAssemblies, entityAssemblies,
                    valueAssemblies, transientAssemblies, objectAssemblies)
    }

    ghost predicate Valid()
      reads this
    {
      ValidState(State())
    }

    constructor (name: Option<string>)
      ensures Valid()
      ensures State() == AssemblyState(name, [], [], [], [], [], [])
    {
      this.name := name;
      serviceAssemblies, importedServiceAssemblies := [], [];
      entityAssemblies, valueAssemblies, transientAssemblies, objectAssemblies := [], [], [], [];
    }

    method SetName(name: Option<string>)
      modifies this
      ensures State() == old(State()).(name := name)
    {
      this.name := name;
    }

    // ----- Registration by type

    method Values(types: seq<ClassName>) returns (decls: seq<ClassName>)
      requires Valid()
      modifies this
      ensures Valid() && decls == types
      ensures State() == old(State()).(values := Register(old(valueAssemblies), types))
    {
      RegisterSpec(valueAssemblies, types);
      valueAssemblies, decls := RegisterTypes(valueAssemblies, types);
    }

    method Transients(types: seq<ClassName>) returns (decls: seq<ClassName>)
      requires Valid()
      modifies this
      ensures Valid() && decls == types
      ensures State() == old(State()).(transients := Register(old(transientAssemblies), types))
    {
      RegisterSpec(transientAssemblies, types);
      transientAssemblies, decls := RegisterTypes(transientAssemblies, types);
    }

    method Entities(types: seq<ClassName>) returns (decls: seq<ClassName>)
      requires Valid()
      modifies this
      ensures Valid() && decls == types
      ensures State() == old(State()).(entities := Register(old(entityAssemblies), types))
    {
      RegisterSpec(entityAssemblies, types);
      entityAssemblies, decls := RegisterTypes(entityAssemblies, types);
    }

    method Objects(types: seq<ClassName>) returns (decls: seq<ClassName>)
      requires Valid()
      modifies this
      ensures Valid() && decls == types
      ensures State() == old(State()).(objects := Register(old(objectAssemblies), types))
    {
      RegisterSpec(objectAssemblies, types);
      objectAssemblies, decls := RegisterTypes(objectAssemblies, types);
    }

    method ImportedServices(types: seq<ClassName>) returns (decls: seq<ClassName>)
      requires Valid()
      modifies this
      ensures Valid() && decls == types
      ensures State() == old(State()).(importedServices := Register(old(importedServiceAssemblies), types))
    {
      RegisterSpec(importedServiceAssemblies, types);
      importedServiceAssemblies, decls := RegisterTypes(importedServiceAssemblies, types);
    }

    /** addServices: one new declaration per argument; returns their positions in the list. */
    method AddServices(types: seq<ClassName>) returns (handles: seq<nat>)
      requires Valid()
      modifies this
      ensures Valid()
      ensures State() == old(State()).(services := old(serviceAssemblies) + NewServiceDecls(types))
      ensures |handles| == |types|
      ensures forall k :: 0 <= k < |types| ==> handles[k] == |old(serviceAssemblies)| + k
    {
      handles := [];
      var i := 0;
      ghost var start := serviceAssemblies;
      while i < |types|
        invariant 0 <= i <= |types|
        invariant serviceAssemblies == start + NewServiceDecls(types[..i])
        invariant |handles| == i
        invariant forall k :: 0 <= k < i ==> handles[k] == |start| + k
        invariant State() == old(State()).(services := serviceAssemblies)
      {
        assert NewServiceDecls(types[..i + 1]) == NewServiceDecls(types[..i]) + [ServiceDecl(types[i], None)];
        handles := handles + [|serviceAssemblies|];
        serviceAssemblies := serviceAssemblies + [ServiceDecl(types[i], None)];
        i := i + 1;
      }
      assert types[..|types|] == types;
    }

    /**
     * services(Class...): reuses the declarations matching each type
     * (AssemblySpecifications.types, modelled by `matches`), appending one only
     * when none matches.
     */
    method ServicesOf(types: seq<ClassName>, matches: (ClassName, ClassName) -> bool) returns (handles: seq<nat>)
      requires Valid()
      modifies this
      ensures Valid()
      ensures (serviceAssemblies, handles) == Services(old(serviceAssemblies), [], types, matches)
      ensures State() == old(State()).(services := serviceAssemblies)
    {
      handles := [];
      var i := 0;
      while i < |types|
        invariant 0 <= i <= |types|
        invariant Services(serviceAssemblies, handles, types[i..], matches) == Services(old(serviceAssemblies), [], types, matches)
        invariant State() == old(State()).(services := serviceAssemblies)
      {
        assert types[i..][1..] == types[i + 1..];
        var found := Matching(serviceAssemblies, types[i], matches);
        if found != [] {
          handles := handles + found;
        } else {
          handles := handles + [|serviceAssemblies|];
          serviceAssemblies := serviceAssemblies + [ServiceDecl(types[i], None)];
        }
        i := i + 1;
      }
    }

    /** ServiceDeclaration.identifiedBy on the declaration at position `handle`. */
    method IdentifiedBy(handle: nat, identity: Option<string>)
      requires Valid()
      requires handle < |serviceAssemblies|
      modifies this
      ensures Valid()
      ensures State() == old(State()).(services := old(serviceAssemblies)[handle := old(serviceAssemblies)[handle].(identity := identity)])
    {
      serviceAssemblies := serviceAssemblies[handle := serviceAssemblies[handle].(identity := identity)];
    }

    // ----- Selection by specification

    method ValuesWhere(spec: ClassName -> bool) returns (decls: seq<ClassName>)
      ensures decls == Filter(valueAssemblies, spec)
    {
      decls := Select(valueAssemblies, spec);
    }

    method TransientsWhere(spec: ClassName -> bool) returns (decls: seq<ClassName>)
      ensures decls == Filter(transientAssemblies, spec)
    {
      decls := Select(transientAssemblies, spec);
    }

    method EntitiesWhere(spec: ClassName -> bool) returns (decls: seq<ClassName>)
      ensures decls == Filter(entityAssemblies, spec)
    {
      decls := Select(entityAssemblies, spec);
    }

    method ObjectsWhere(spec: ClassName -> bool) returns (decls: seq<ClassName>)
      ensures decls == Filter(objectAssemblies, spec)
    {
      decls := Select(objectAssemblies, spec);
    }

    method ServicesWhere(spec: ServiceDecl -> bool) returns (decls: seq<ServiceDecl>)
      ensures decls == Filter(serviceAssemblies, spec)
    {
      decls := Select(serviceAssemblies, spec);
    }

    method ImportedServicesWhere(spec: ClassName -> bool) returns (decls: seq<ClassName>)
      ensures decls == Filter(importedServiceAssemblies, spec)
    {
      decls := Select(importedServiceAssemblies, spec);
    }

    // ----- visit

    /**
     * The callbacks visit makes, in order: the module, then transients, entities,
     * objects, services, imported services and values, each family in registration order.
     */
    method Visit() returns (trace: seq<VisitEvent>)
      ensures trace == VisitTrace(State())
    {
      trace := [VisitModule];
      trace := VisitEach(trace, transientAssemblies, (t: ClassName) => VisitComposite(t));
      trace := VisitEach(trace, entityAssemblies, (t: ClassName) => VisitEntity(t));
      trace := VisitEach(trace, objectAssemblies, (t: ClassName) => VisitObject(t));
      trace := VisitEach(trace, serviceAssemblies, (d: ServiceDecl) => VisitService(d));
      trace := VisitEach(trace, importedServiceAssemblies, (t: ClassName) => VisitImportedService(t));
      trace := VisitEach(trace, valueAssemblies, (t: ClassName) => VisitValue(t));
    }

    // ----- generateId and assembleModule

    /** generateId: the first of Name, Name_1, Name_2, ... that no service declaration holds. */
    method GenerateId(serviceType: ClassName) returns (id: string)
      ensures id == GeneratedId(serviceType, serviceAssemblies)
      ensures forall i :: 0 <= i < |serviceAssemblies| ==> serviceAssemblies[i].identity != Some(id)
    {
      var simpleName := serviceType.simpleName;
      ghost var held := HeldIdentities(serviceAssemblies);
      ghost var k := FirstFreeIndex(simpleName, held, 0);
      var idx: nat := 0;
      id := simpleName;
      var invalid := true;
      while invalid
        invariant id == Candidate(simpleName, idx)
        invariant idx <= k
        invariant invalid ==> forall j :: 0 <= j < idx ==> Candidate(simpleName, j) in held
        invariant !invalid ==> idx == k
        decreases k - idx, invalid
      {
        invalid := false;
        var i := 0;
        while i < |serviceAssemblies|
          invariant 0 <= i <= |serviceAssemblies|
          invariant !invalid
          invariant forall j :: 0 <= j < i ==> serviceAssemblies[j].identity != Some(id)
        {
          if serviceAssemblies[i].identity.Some? && serviceAssemblies[i].identity.value == id {
            assert id in held;
            idx := idx + 1;
            id := simpleName + "_" + Decimal(idx);
            invalid := true;
            break;
          }
          i := i + 1;
        }
        if !invalid {
          assert id !in held;
        }
      }
      forall i | 0 <= i < |serviceAssemblies|
        ensures serviceAssemblies[i].identity != Some(id)
      {
        GeneratedIdIsFree(serviceType, serviceAssemblies, i);
      }
    }

    /**
     * The service loop of assembleModule: every declaration without identity
     * gets a generated one, in declaration order; returns the service models.
     */
    method AssignServiceIdentities() returns (serviceModels: seq<ServiceModel>)
      requires Valid()
      modifies this
      ensures Valid()
      ensures serviceAssemblies == AssignIdentities(old(serviceAssemblies))
      ensures forall k :: 0 <= k < |serviceAssemblies| ==> serviceAssemblies[k].identity.Some?
      ensures serviceModels == ServiceModels(serviceAssemblies)
      ensures State() == old(State()).(services := serviceAssemblies)
    {
      serviceModels := [];
      var i := 0;
      while i < |serviceAssemblies|
        invariant 0 <= i <= |serviceAssemblies| == |old(serviceAssemblies)|
        invariant AssignFrom(serviceAssemblies, i) == AssignIdentities(old(serviceAssemblies))
        invariant forall j :: 0 <= j < i ==> serviceAssemblies[j].identity.Some?
        invariant serviceModels == ServiceModels(serviceAssemblies[..i])
        invariant State() == old(State()).(services := serviceAssemblies)
      {
        if serviceAssemblies[i].identity.None? {
          var id := GenerateId(serviceAssemblies[i].serviceType);
          serviceAssemblies := serviceAssemblies[i := serviceAssemblies[i].(identity := Some(id))];
        }
        serviceModels := serviceModels + [ServiceModel(serviceAssemblies[i].serviceType, serviceAssemblies[i].identity.value)];
        i := i + 1;
      }
      assert serviceAssemblies[..i] == serviceAssemblies;
    }

    /**
     * assembleModule: reject a module without name; assign generated identities
     * in declaration order; reject duplicate identities among service and
     * imported-service models; synthesize a module-visible object model for
     * every importer type without one. Imported-service models come from
     * `importedModelOf`.
     */
    method AssembleModule(importedModelOf: ClassName -> ImportedServiceModel) returns (r: Result<AssembledModule, AssemblyError>)
      requires Valid()
      modifies this
      ensures Valid()
      ensures r == Assemble(old(State()), importedModelOf)
      ensures State() == old(State()).(services := ServicesAfterAssembly(old(State())))
      ensures old(name).None? ==> r == Failure(MissingName) && State() == old(State())
    {
      if name.None? {
        return Failure(MissingName);
      }
      var moduleName := name.value;
      var objectModels := DeclaredObjects(objectAssemblies);
      var serviceModels := AssignServiceIdentities();
      var importedModels := MapSeq(importedServiceAssemblies, importedModelOf);
      var moduleModel := ModuleModel(moduleName, transientAssemblies, entityAssemblies, objectModels,
                                     valueAssemblies, serviceModels, importedModels);
      var duplicate := CheckDuplicates(serviceModels, importedModels);
      if duplicate.Some? {
        return Failure(DuplicateServiceIdentity(duplicate.value, moduleName));
      }
      objectModels := AddImporterModels(objectModels, importedModels);
      r := Success(AssembledModule(moduleModel, objectModels));
    }
  }

  /**
   * The duplicate check of assembleModule: service identities, then
   * imported-service identities, are added to a set; the first one already in
   * it is reported.
   */
  method CheckDuplicates(serviceModels: seq<ServiceModel>, importedModels: seq<ImportedServiceModel>) returns (duplicate: Option<string>)
    ensures duplicate == FirstDuplicate(CheckedIdentities(serviceModels, importedModels), {})
  {
    ghost var ids := CheckedIdentities(serviceModels, importedModels);
    var identities: set<string> := {};
    var k := 0;
    while k < |serviceModels|
      invariant 0 <= k <= |serviceModels|
      invariant FirstDuplicate(ids[k..], identities) == FirstDuplicate(ids, {})
    {
      assert ids[k] == serviceModels[k].identity;
      assert ids[k..][1..] == ids[k + 1..];
      if serviceModels[k].identity in identities {
        return Some(serviceModels[k].identity);
      }
      identities := identities + {serviceModels[k].identity};
      k := k + 1;
    }
    k := 0;
    while k < |importedModels|
      invariant 0 <= k <= |importedModels|
      invariant FirstDuplicate(ids[|serviceModels| + k..], identities) == FirstDuplicate(ids, {})
    {
      assert ids[|serviceModels| + k] == importedModels[k].identity;
      assert ids[|serviceModels| + k..][1..] == ids[|serviceModels| + k + 1..];
      if importedModels[k].identity in identities {
        return Some(importedModels[k].identity);
      }
      identities := identities + {importedModels[k].identity};
      k := k + 1;
    }
    assert ids[|ids|..] == [];
    duplicate := None;
  }

  /**
   * The importer pass of assembleModule: for each imported-service model in
   * turn, the object models are searched for its importer type and a
   * module-visible model is appended when there is none.
   */
  method AddImporterModels(objectModels: seq<ObjectModel>, importedModels: seq<ImportedServiceModel>) returns (objects: seq<ObjectModel>)
    ensures objects == AddImporterObjects(objectModels, Importers(importedModels))
  {
    ghost var importers := Importers(importedModels);
    objects := objectModels;
    var m := 0;
    while m < |importedModels|
      invariant 0 <= m <= |importedModels|
      invariant AddImporterObjects(objects, importers[m..]) == AddImporterObjects(objectModels, importers)
    {
      assert importers[m..][1..] == importers[m + 1..];
      var importer := importedModels[m].serviceImporter;
      var found := false;
      var j := 0;
      while j < |objects|
        invariant 0 <= j <= |objects|
        invariant !found
        invariant forall q :: 0 <= q < j ==> objects[q].objectType != importer
      {
        if objects[j].objectType == importer {
          found := true;
          break;
        }
        j := j + 1;
      }
      assert found <==> HasObjectOfType(objects, importer);
      if !found {
        objects := objects + [ImporterObject(importer, Module)];
      }
      m := m + 1;
    }
    assert importers[|importers|..] == [];
  }

  /**
   * The callbacks visit makes, in order: the module, then transients, entities,
   * objects, services, imported services and values.
   */
  function VisitTrace(st: AssemblyState): (trace: seq<VisitEvent>)
    ensures |trace| == 1 + |st.transients| + |st.entities| + |st.objects| + |st.services| + |st.importedServices| + |st.values|
  {
    [VisitModule]
    + MapSeq(st.transients, (t: ClassName) => VisitComposite(t))
    + MapSeq(st.entities, (t: ClassName) => VisitEntity(t))
    + MapSeq(st.objects, (t: ClassName) => VisitObject(t))
    + MapSeq(st.services, (d: ServiceDecl) => VisitService(d))
    + MapSeq(st.importedServices, (t: ClassName) => VisitImportedService(t))
    + MapSeq(st.values, (t: ClassName) => VisitValue(t))
  }

  /**
   * visit calls back once per declaration and once for the module: the module
   * first, every registered declaration of every family visited, and nothing else.
   */
  lemma VisitTraceSpec(st: AssemblyState)
    ensures |VisitTrace(st)| == 1 + |st.transients| + |st.entities| + |st.objects| + |st.services| + |st.importedServices| + |st.values|
    ensures VisitTrace(st)[0] == VisitModule
    ensures forall t :: VisitComposite(t) in VisitTrace(st) <==> t in st.transients
    ensures forall t :: VisitEntity(t) in VisitTrace(st) <==> t in st.entities
    ensures forall t :: VisitObject(t) in VisitTrace(st) <==> t in st.objects
    ensures forall d :: VisitService(d) in VisitTrace(st) <==> d in st.services
    ensures forall t :: VisitImportedService(t) in VisitTrace(st) <==> t in st.importedServices
    ensures forall t :: VisitValue(t) in VisitTrace(st) <==> t in st.values
  {
    var cs := MapSeq(st.transients, (t: ClassName) => VisitComposite(t));
    var ns := MapSeq(st.entities, (t: ClassName) => VisitEntity(t));
    var os := MapSeq(st.objects, (t: ClassName) => VisitObject(t));
    var es := MapSeq(st.services, (d: ServiceDecl) => VisitService(d));
    var ims := MapSeq(st.importedServices, (t: ClassName) => VisitImportedService(t));
    var vs := MapSeq(st.values, (t: ClassName) => VisitValue(t));
    assert VisitTrace(st) == [VisitModule] + cs + ns + os + es + ims + vs;
    forall t ensures VisitComposite(t) in cs <==> t in st.transients {
      MapSeqMembers(st.transients, (t: ClassName) => VisitComposite(t), t);
    }
    forall t ensures VisitEntity(t) in ns <==> t in st.entities {
      MapSeqMembers(st.entities, (t: ClassName) => VisitEntity(t), t);
    }
    forall t ensures VisitObject(t) in os <==> t in st.objects {
      MapSeqMembers(st.objects, (t: ClassName) => VisitObject(t), t);
    }
    forall d ensures VisitService(d) in es <==> d in st.services {
      MapSeqMembers(st.services, (d: ServiceDecl) => VisitService(d), d);
    }
    forall t ensures VisitImportedService(t) in ims <==> t in st.importedServices {
      MapSeqMembers(st.importedServices, (t: ClassName) => VisitImportedService(t), t);
    }
    forall t ensures VisitValue(t) in vs <==> t in st.values {
      MapSeqMembers(st.values, (t: ClassName) => VisitValue(t), t);
    }
  }

  /**
   * The order of the callbacks of visit: the module, then the transients,
   * entities, objects, services, imported services and values, each family
   * in registration order.
   */
  lemma VisitTraceOrder(st: AssemblyState)
    ensures var tr := VisitTrace(st);
            var t0 := 1;
            var e0 := t0 + |st.transients|;
            var o0 := e0 + |st.entities|;
            var s0 := o0 + |st.objects|;
            var i0 := s0 + |st.services|;
            var v0 := i0 + |st.importedServices|;
            && |tr| == v0 + |st.values|
            && tr[0] == VisitModule
            && (forall k :: 0 <= k < |st.transients| ==> tr[t0 + k] == VisitComposite(st.transients[k]))
            && (forall k :: 0 <= k < |st.entities| ==> tr[e0 + k] == VisitEntity(st.entities[k]))
            && (forall k :: 0 <= k < |st.objects| ==> tr[o0 + k] == VisitObject(st.objects[k]))
            && (forall k :: 0 <= k < |st.services| ==> tr[s0 + k] == VisitService(st.services[k]))
            && (forall k :: 0 <= k < |st.importedServices| ==> tr[i0 + k] == VisitImportedService(st.importedServices[k]))
            && (forall k :: 0 <= k < |st.values| ==> tr[v0 + k] == VisitValue(st.values[k]))
  {
    VisitedTransientsInOrder(st);
    VisitedEntitiesInOrder(st);
    VisitedObjectsInOrder(st);
    VisitedServicesInOrder(st);
    VisitedImportedServicesInOrder(st);
    VisitedValuesInOrder(st);
  }

  // In the six lemmas below, each step of the assertion chain removes one
  // append from the end of the trace; the solver needs the steps one by one.

  /** The transients are visited in registration order, after the module and the families visited before them. */
  lemma VisitedTransientsInOrder(st: AssemblyState)
    ensures forall k :: 0 <= k < |st.transients| ==> VisitTrace(st)[1 + k] == VisitComposite(st.transients[k])
  {
    var cs := MapSeq(st.transients, (t: ClassName) => VisitComposite(t));
    var ns := MapSeq(st.entities, (t: ClassName) => VisitEntity(t));
    var os := MapSeq(st.objects, (t: ClassName) => VisitObject(t));
    var es := MapSeq(st.services, (d: ServiceDecl) => VisitService(d));
    var ims := MapSeq(st.importedServices, (t: ClassName) => VisitImportedService(t));
    var vs := MapSeq(st.values, (t: ClassName) => VisitValue(t));
    var pre := [VisitModule];
    var upTo := pre + cs;
    assert VisitTrace(st) == upTo + ns + os + es + ims + vs;
    forall k | 0 <= k < |st.transients|
      ensures VisitTrace(st)[|pre| + k] == cs[k]
    {
      assert (upTo + ns + os + es + ims + vs)[|pre| + k] == (upTo + ns + os + es + ims)[|pre| + k] == (upTo + ns + os + es)[|pre| + k] == (upTo + ns + os)[|pre| + k] == (upTo + ns)[|pre| + k] == (upTo)[|pre| + k] == cs[k];
    }
  }

  /** The entities are visited in registration order, after the module and the families visited before them. */
  lemma VisitedEntitiesInOrder(st: AssemblyState)
    ensures forall k :: 0 <= k < |st.entities| ==> VisitTrace(st)[1 + |st.transients| + k] == VisitEntity(st.entities[k])
  {
    var cs := MapSeq(st.transients, (t: ClassName) => VisitComposite(t));
    var ns := MapSeq(st.entities, (t: ClassName) => VisitEntity(t));
    var os := MapSeq(st.objects, (t: ClassName) => VisitObject(t));
    var es := MapSeq(st.services, (d: ServiceDecl) => VisitService(d));
    var ims := MapSeq(st.importedServices, (t: ClassName) => VisitImportedService(t));
    var vs := MapSeq(st.values, (t: ClassName) => VisitValue(t));
    var pre := [VisitModule] + cs;
    var upTo := pre + ns;
    assert VisitTrace(st) == upTo + os + es + ims + vs;
    forall k | 0 <= k < |st.entities|
      ensures VisitTrace(st)[|pre| + k] == ns[k]
    {
      assert (upTo + os + es + ims + vs)[|pre| + k] == (upTo + os + es + ims)[|pre| + k] == (upTo + os + es)[|pre| + k] == (upTo + os)[|pre| + k] == (upTo)[|pre| + k] == ns[k];
    }
  }

  /** The objects are visited in registration order, after the module and the families visited before them. */
  lemma VisitedObjectsInOrder(st: AssemblyState)
    ensures forall k :: 0 <= k < |st.objects| ==> VisitTrace(st)[1 + |st.transients| + |st.entities| + k] == VisitObject(st.objects[k])
  {
    var cs := MapSeq(st.transients, (t: ClassName) => VisitComposite(t));
    var ns := MapSeq(st.entities, (t: ClassName) => VisitEntity(t));
    var os := MapSeq(st.objects, (t: ClassName) => VisitObject(t));
    var es := MapSeq(st.services, (d: ServiceDecl) => VisitService(d));
    var ims := MapSeq(st.importedServices, (t: ClassName) => VisitImportedService(t));
    var vs := MapSeq(st.values, (t: ClassName) => VisitValue(t));
    var pre := [VisitModule] + cs + ns;
    var upTo := pre + os;
    assert VisitTrace(st) == upTo + es + ims + vs;
    forall k | 0 <= k < |st.objects|
      ensures VisitTrace(st)[|pre| + k] == os[k]
    {
      assert (upTo + es + ims + vs)[|pre| + k] == (upTo + es + ims)[|pre| + k] == (upTo + es)[|pre| + k] == (upTo)[|pre| + k] == os[k];
    }
  }

  /** The services are visited in registration order, after the module and the families visited before them. */
  lemma VisitedServicesInOrder(st: AssemblyState)
    ensures forall k :: 0 <= k < |st.services| ==> VisitTrace(st)[1 + |st.transients| + |st.entities| + |st.objects| + k] == VisitService(st.services[k])
  {
    var cs := MapSeq(st.transients, (t: ClassName) => VisitComposite(t));
    var ns := MapSeq(st.entities, (t: ClassName) => VisitEntity(t));
    var os := MapSeq(st.objects, (t: ClassName) => VisitObject(t));
    var es := MapSeq(st.services, (d: ServiceDecl) => VisitService(d));
    var ims := MapSeq(st.importedServices, (t: ClassName) => VisitImportedService(t));
    var vs := MapSeq(st.values, (t: ClassName) => VisitValue(t));
    var pre := [VisitModule] + cs + ns + os;
    var upTo := pre + es;
    assert VisitTrace(st) == upTo + ims + vs;
    forall k | 0 <= k < |st.services|
      ensures VisitTrace(st)[|pre| + k] == es[k]
    {
      assert (upTo + ims + vs)[|pre| + k] == (upTo + ims)[|pre| + k] == (upTo)[|pre| + k] == es[k];
    }
  }

  /** The imported services are visited in registration order, after the module and the families visited before them. */
  lemma VisitedImportedServicesInOrder(st: AssemblyState)
    ensures forall k :: 0 <= k < |st.importedServices| ==> VisitTrace(st)[1 + |st.transients| + |st.entities| + |st.objects| + |st.services| + k] == VisitImportedService(st.importedServices[k])
  {
    var cs := MapSeq(st.transients, (t: ClassName) => VisitComposite(t));
    var ns := MapSeq(st.entities, (t: ClassName) => VisitEntity(t));
    var os := MapSeq(st.objects, (t: ClassName) => VisitObject(t));
    var es := MapSeq(st.services, (d: ServiceDecl) => VisitService(d));
    var ims := MapSeq(st.importedServices, (t: ClassName) => VisitImportedService(t));
    var vs := MapSeq(st.values, (t: ClassName) => VisitValue(t));
    var pre := [VisitModule] + cs + ns + os + es;
    var upTo := pre + ims;
    assert VisitTrace(st) == upTo + vs;
    forall k | 0 <= k < |st.importedServices|
      ensures VisitTrace(st)[|pre| + k] == ims[k]
    {
      assert (upTo + vs)[|pre| + k] == (upTo)[|pre| + k] == ims[k];
    }
  }

  /** The values are visited in registration order, after the module and the families visited before them. */
  lemma VisitedValuesInOrder(st: AssemblyState)
    ensures forall k :: 0 <= k < |st.values| ==> VisitTrace(st)[1 + |st.transients| + |st.entities| + |st.objects| + |st.services| + |st.importedServices| + k] == VisitValue(st.values[k])
  {
    var cs := MapSeq(st.transients, (t: ClassName) => VisitComposite(t));
    var ns := MapSeq(st.entities, (t: ClassName) => VisitEntity(t));
    var os := MapSeq(st.objects, (t: ClassName) => VisitObject(t));
    var es := MapSeq(st.services, (d: ServiceDecl) => VisitService(d));
    var ims := MapSeq(st.importedServices, (t: ClassName) => VisitImportedService(t));
    var vs := MapSeq(st.values, (t: ClassName) => VisitValue(t));
    var pre := [VisitModule] + cs + ns + os + es + ims;
    var upTo := pre + vs;
    assert VisitTrace(st) == upTo;
    forall k | 0 <= k < |st.values|
      ensures VisitTrace(st)[|pre| + k] == vs[k]
    {
      assert (upTo)[|pre| + k] == vs[k];
    }
  }

  /** The loop of visit over one family: one callback per declaration, in order. */
  method VisitEach<T>(trace: seq<VisitEvent>, decls: seq<T>, visit: T -> VisitEvent) returns (trace': seq<VisitEvent>)
    ensures trace' == trace + MapSeq(decls, visit)
  {
    trace' := trace;
    var i := 0;
    while i < |decls|
      invariant 0 <= i <= |decls|
      invariant trace' == trace + seq(i, k requires 0 <= k < i => visit(decls[k]))
    {
      trace' := trace' + [visit(decls[i])];
      i := i + 1;
    }
  }
}

/** Concrete assemblies that show how identity generation and the duplicate check interact. */
module AssemblyScenarios {
  import opened Wrappers
  import opened JavaLang
  import opened Collections
  import opened ServiceIdentities
  import opened ModuleAssembly

  const Foo: ClassName := ClassName("org.example.Foo", "Foo")
  const Importer: ClassName := ClassName("org.example.FooImporter", "FooImporter")

  const OtherFoo: ClassName := ClassName("org.other.Foo", "Foo")

  /**
   * A Foo service, a service of another class also named Foo, and a second Foo
   * service, all without identity: identities are compared and not types, so
   * they are numbered together as Foo, Foo_1 and Foo_2.
   */
  lemma SameSimpleNameSharesNumbering()
    ensures AssignIdentities([ServiceDecl(Foo, None), ServiceDecl(OtherFoo, None), ServiceDecl(Foo, None)])
         == [ServiceDecl(Foo, Some("Foo")), ServiceDecl(OtherFoo, Some("Foo_1")), ServiceDecl(Foo, Some("Foo_2"))]
  {
    var s := [ServiceDecl(Foo, None), ServiceDecl(OtherFoo, None), ServiceDecl(Foo, None)];
    FirstComeOrder("Foo", s);
    assert Decimal(1) == "1" && Decimal(2) == "2";
    assert Candidate("Foo", 0) == "Foo" && Candidate("Foo", 1) == "Foo_1" && Candidate("Foo", 2) == "Foo_2";
  }

  /**
   * Two Foo services without identity and one explicitly identified "Foo": the
   * generated identities skip the explicit one although it is declared later,
   * so the module assembles with Foo_1, Foo_2 and Foo.
   */
  lemma ExplicitIdentityDeclaredLater()
    ensures var st := AssemblyState(Some("m"), [ServiceDecl(Foo, None), ServiceDecl(Foo, None), ServiceDecl(Foo, Some("Foo"))],
                                    [], [], [], [], []);
            && AssignIdentities(st.services) == [ServiceDecl(Foo, Some("Foo_1")), ServiceDecl(Foo, Some("Foo_2")), ServiceDecl(Foo, Some("Foo"))]
            && Assemble(st, (t: ClassName) => ImportedServiceModel(t, t.simpleName, Importer)).Success?
  {
    var s0 := [ServiceDecl(Foo, None), ServiceDecl(Foo, None), ServiceDecl(Foo, Some("Foo"))];
    assert Decimal(1) == "1" && Decimal(2) == "2";
    assert HeldIdentities(s0) == {"Foo"} by {
      assert s0[2].identity.value == "Foo";
    }
    assert Candidate("Foo", 1) == "Foo_1";
    assert FirstFreeIndex("Foo", {"Foo"}, 1) == 1;
    assert FirstFreeIndex("Foo", {"Foo"}, 0) == 1;
    var s1 := AssignAt(s0, 0);
    assert s1 == [ServiceDecl(Foo, Some("Foo_1")), ServiceDecl(Foo, None), ServiceDecl(Foo, Some("Foo"))];
    assert HeldIdentities(s1) == {"Foo_1", "Foo"} by {
      assert s1[0].identity.value == "Foo_1" && s1[2].identity.value == "Foo";
    }
    assert Candidate("Foo", 2) == "Foo_2";
    assert FirstFreeIndex("Foo", {"Foo_1", "Foo"}, 2) == 2;
    assert FirstFreeIndex("Foo", {"Foo_1", "Foo"}, 1) == 2;
    assert FirstFreeIndex("Foo", {"Foo_1", "Foo"}, 0) == 2;
    var s2 := AssignAt(s1, 1);
    assert s2 == [ServiceDecl(Foo, Some("Foo_1")), ServiceDecl(Foo, Some("Foo_2")), ServiceDecl(Foo, Some("Foo"))];
    var st := AssemblyState(Some("m"), s0, [], [], [], [], []);
    var f := (t: ClassName) => ImportedServiceModel(t, t.simpleName, Importer);
    assert AssignFrom(s2, 2) == s2;
    assert AssignIdentities(s0) == AssignFrom(s1, 1) == AssignFrom(s2, 2);
    var ids := AssembledIdentities(st, f);
    assert ids == ["Foo_1", "Foo_2", "Foo"];
    AssembleSucceedsIffIdentitiesDistinct(st, f);
  }

  /**
   * Generated identities do not look at imported services: a Foo service and an
   * imported service identified "Foo" make assembleModule fail.
   */
  lemma GeneratedIdentityCollidesWithImported()
    ensures var st := AssemblyState(Some("m"), [ServiceDecl(Foo, None)], [Importer], [], [], [], []);
            Assemble(st, (t: ClassName) => ImportedServiceModel(Foo, "Foo", t)) == Failure(DuplicateServiceIdentity("Foo", "m"))
  {
    var s0 := [ServiceDecl(Foo, None)];
    assert HeldIdentities(s0) == {};
    assert FirstFreeIndex("Foo", {}, 0) == 0;
    var s1 := AssignAt(s0, 0);
    assert s1 == [ServiceDecl(Foo, Some("Foo"))];
    assert AssignIdentities(s0) == AssignFrom(s1, 1) == s1;
    var st := AssemblyState(Some("m"), s0, [Importer], [], [], [], []);
    var f := (t: ClassName) => ImportedServiceModel(Foo, "Foo", t);
    assert CheckedIdentities(ServiceModels(s1), MapSeq(st.importedServices, f)) == ["Foo", "Foo"];
    assert ["Foo", "Foo"][1..] == ["Foo"];
    assert FirstDuplicate(["Foo", "Foo"], {}) == FirstDuplicate(["Foo"], {"Foo"}) == Some("Foo");
  }
}
