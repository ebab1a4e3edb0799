/** ModuleObjectBuilderFactory: creates object builders for the object types of one module. */
module ObjectBuilders {
  import opened Wrappers
  import opened JavaLang

  /**
   * The parts of a module context the factory reads: the module's name (as its
   * module model reports it) and the object context of each registered object type.
   */
  datatype ModuleContext = ModuleContext(moduleName: string, objectContexts: map<ClassName, ObjectRef>)

  /** The factory; its module context is fixed at construction. */
  datatype ModuleObjectBuilderFactory = ModuleObjectBuilderFactory(moduleContext: ModuleContext)

  /** An ObjectBuilderImpl, bound to a module context and an object context. */
  datatype ObjectBuilder = ObjectBuilderImpl(moduleContext: ModuleContext, objectContext: ObjectRef)

  datatype InvalidApplicationException = InvalidApplicationException(message: string)

  function UnregisteredMessage(objectType: ClassName, moduleName: string): (message: string)
  {
    "Trying to create unregistered object of type " + objectType.name + " in module " + moduleName
  }

  /** newObjectBuilder: a builder for a registered object type, or the failure for an unregistered one. */
  function NewObjectBuilder(factory: ModuleObjectBuilderFactory, objectType: ClassName): (r: Result<ObjectBuilder, InvalidApplicationException>)
  {
    var context := factory.moduleContext;
    if objectType !in context.objectContexts then
      Failure(InvalidApplicationException(UnregisteredMessage(objectType, context.moduleName)))
    else
      Success(ObjectBuilderImpl(context, context.objectContexts[objectType]))
  }

  /**
   * A builder is created exactly for the types with an object context, bound to
   * the factory's own module context and that type's object context; any other
   * type fails with a message naming the type and then the module.
   */
  lemma NewObjectBuilderSpec(factory: ModuleObjectBuilderFactory, objectType: ClassName)
    ensures var r := NewObjectBuilder(factory, objectType);
            var prefix := "Trying to create unregistered object of type ";
            && (r.Success? <==> objectType in factory.moduleContext.objectContexts)
            && (r.Success? ==> r.value.moduleContext == factory.moduleContext &&
                                r.value.objectContext == factory.moduleContext.objectContexts[objectType])
            && (r.Failure? ==>
                  && |r.error.message| == |prefix| + |objectType.name| + |" in module "| + |factory.moduleContext.moduleName|
                  && r.error.message[..|prefix|] == prefix
                  && r.error.message[|prefix|..|prefix| + |objectType.name|] == objectType.name
                  && r.error.message[|r.error.message| - |factory.moduleContext.moduleName|..] == factory.moduleContext.moduleName)
  {
  }

  /**
   * Corollary of NewObjectBuilderSpec over a sequence of requests: the factory
   * never changes, so every request consults the same module context and a
   * type's outcome does not depend on earlier requests.
   */
  lemma BuildersShareModuleContext(factory: ModuleObjectBuilderFactory, types: seq<ClassName>)
    ensures forall k :: 0 <= k < |types| && NewObjectBuilder(factory, types[k]).Success? ==>
              NewObjectBuilder(factory, types[k]).value.moduleContext == factory.moduleContext
  {
  }
}
