/** Optional values, standing for Java's null, and results that carry either a value or a thrown exception. */
module Wrappers {

  /** A value that may be absent: Java's null reference. */
  datatype Option<+T> = None | Some(value: T)

  /** Either a normal return value or the exception the operation throws. */
  datatype Result<+R, +E> = Success(value: R) | Failure(error: E)
}

/** The part of java.lang the runtime relies on. */
module JavaLang {

  /**
   * A java.lang.Class reference, seen through the two names the runtime reads:
   * getName() (fully qualified) and getSimpleName().
   */
  datatype ClassName = ClassName(name: string, simpleName: string)

  /** java.lang.Object.class: the declaring class of equals, hashCode, toString, ... */
  const ObjectClass: ClassName := ClassName("java.lang.Object", "Object")

  /** An object reference whose behaviour lies outside the model; only its identity matters. */
  datatype ObjectRef = ObjectRef(id: nat)

  /** A java.lang.reflect.Method, seen through its name and getDeclaringClass(). */
  datatype MethodRef = MethodRef(name: string, declaringClass: ClassName)
}

/** Facts about the sequences that stand for Java lists and insertion-ordered maps. */
module Collections {

  /** No two positions of `s` hold the same element. */
  predicate Distinct<T(==)>(s: seq<T>)
  {
    forall i, j :: 0 <= i < j < |s| ==> s[i] != s[j]
  }

  /** `f` applied to each element of `xs`, in order. */
  function MapSeq<A, B>(xs: seq<A>, f: A -> B): (ys: seq<B>)
    ensures |ys| == |xs|
    ensures forall k :: 0 <= k < |xs| ==> ys[k] == f(xs[k])
  {
    seq(|xs|, k requires 0 <= k < |xs| => f(xs[k]))
  }

  /** Under an injective `f`, `f(x)` is among the images exactly when `x` is among the arguments. */
  lemma MapSeqMembers<A, B>(xs: seq<A>, f: A -> B, x: A)
    requires forall a, b :: f(a) == f(b) ==> a == b
    ensures f(x) in MapSeq(xs, f) <==> x in xs
  {
    if x in xs {
      var k :| 0 <= k < |xs| && xs[k] == x;
      assert MapSeq(xs, f)[k] == f(x);
    }
  }

  /** Concatenation is associative. */
  lemma AppendAssoc<T>(a: seq<T>, b: seq<T>, c: seq<T>)
    ensures (a + b) + c == a + (b + c)
  {
  }
}
