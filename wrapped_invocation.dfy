/**
 * WrappedCompositeInvocationHandler: an invocation handler that sends the
 * methods declared by Object to a wrapped instance and every other call to
 * the general composite invocation handler.
 */
module WrappedInvocation {
  import opened JavaLang

  /** The handler; the wrapped instance is set by the constructor and never reassigned. */
  datatype WrappedCompositeInvocationHandler = WrappedCompositeInvocationHandler(wrappedInstance: ObjectRef, context: ObjectRef)

  /** Where invoke sends a call. */
  datatype WrappedCall =
      /** method.invoke(wrappedInstance, args) */
    | InvokedOnWrapped(target: ObjectRef, meth: MethodRef, args: seq<ObjectRef>)
      /** super.invoke(proxy, method, args) */
    | PassedToSuper(proxy: ObjectRef, meth: MethodRef, args: seq<ObjectRef>)

  function GetWrappedInstance(h: WrappedCompositeInvocationHandler): (instance: ObjectRef)
  {
    h.wrappedInstance
  }

  function Invoke(h: WrappedCompositeInvocationHandler, proxy: ObjectRef, meth: MethodRef, args: seq<ObjectRef>): (call: WrappedCall)
  {
    if ObjectClass == meth.declaringClass then InvokedOnWrapped(h.wrappedInstance, meth, args)
    else PassedToSuper(proxy, meth, args)
  }

  /**
   * A call goes to the wrapped instance exactly when its declaring class is
   * Object, with the original method and arguments; any other call reaches the
   * superclass unchanged. getWrappedInstance returns the constructor's argument.
   */
  lemma InvokeRouting(wrapped: ObjectRef, context: ObjectRef, proxy: ObjectRef, meth: MethodRef, args: seq<ObjectRef>)
    ensures var h := WrappedCompositeInvocationHandler(wrapped, context);
            && GetWrappedInstance(h) == wrapped
            && (Invoke(h, proxy, meth, args).InvokedOnWrapped? <==> meth.declaringClass == ObjectClass)
            && (meth.declaringClass == ObjectClass ==> Invoke(h, proxy, meth, args) == InvokedOnWrapped(wrapped, meth, args))
            && (meth.declaringClass != ObjectClass ==> Invoke(h, proxy, meth, args) == PassedToSuper(proxy, meth, args))
  {
  }

  /**
   * Corollary of InvokeRouting over a sequence of calls: calls do not change
   * the handler, so every Object call targets the instance supplied to the
   * constructor.
   */
  lemma WrappedInstanceFixed(h: WrappedCompositeInvocationHandler, calls: seq<(ObjectRef, MethodRef, seq<ObjectRef>)>)
    ensures forall k :: 0 <= k < |calls| && Invoke(h, calls[k].0, calls[k].1, calls[k].2).InvokedOnWrapped? ==>
              Invoke(h, calls[k].0, calls[k].1, calls[k].2).target == GetWrappedInstance(h)
  {
  }
}
