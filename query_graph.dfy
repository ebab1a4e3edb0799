/**
 * The query object graph: property expressions (PropertyExpressionImpl) and the
 * IS NOT NULL constraint (IsNotNull), with their textual renderings.
 */
module QueryGraph {
  import opened Wrappers
  import opened JavaLang

  /** A traversed association; its toString is given by its own implementation. */
  datatype AssociationExpression = AssociationExpression(rendering: string)

  /** A PropertyExpressionImpl: all four fields are final; `traversed` may be null. */
  datatype PropertyExpression = PropertyExpression(
    name: string,
    declaringType: ClassName,
    propertyType: ClassName,
    traversed: Option<AssociationExpression>)

  /**
   * A java.lang.reflect.Type as the Method constructor inspects it, with its
   * toString() rendering: a class, a parameterized type (with its first actual
   * type argument), or any other kind of type.
   */
  datatype JavaType =
    | ClassType(cls: ClassName, rendering: string)
    | ParameterizedType(rendering: string, firstArgument: JavaType)
    | OtherType(rendering: string)

  /** A property method: its name, declaring class and generic return type. */
  datatype PropertyMethod = PropertyMethod(name: string, declaringClass: ClassName, genericReturnType: JavaType)

  datatype UnsupportedOperationException = UnsupportedOperationException(message: string)

  /** The three-argument constructor: no traversed association. */
  function NewPropertyExpression(name: string, declaringType: ClassName, propertyType: ClassName): (p: PropertyExpression)
  {
    PropertyExpression(name, declaringType, propertyType, None)
  }

  function UnsupportedType(t: JavaType): (e: UnsupportedOperationException)
  {
    UnsupportedOperationException("Unsupported property type:" + t.rendering)
  }

  /**
   * The Method constructors: the property's type is the first type argument of
   * the method's generic return type, which must be parameterized by a class.
   */
  function FromMethod(m: PropertyMethod, traversed: Option<AssociationExpression>): (r: Result<PropertyExpression, UnsupportedOperationException>)
  {
    var returnType := m.genericReturnType;
    if !returnType.ParameterizedType? then Failure(UnsupportedType(returnType))
    else if !returnType.firstArgument.ClassType? then Failure(UnsupportedType(returnType.firstArgument))
    else Success(PropertyExpression(m.name, m.declaringClass, returnType.firstArgument.cls, traversed))
  }

  /** toString: [traversed "."] simpleName(declaringType) ":" name "()^^" typeName. */
  function ToString(p: PropertyExpression): (text: string)
  {
    (if p.traversed.None? then "" else p.traversed.value.rendering + ".")
    + p.declaringType.simpleName + ":" + p.name + "()^^" + p.propertyType.name
  }

  /**
   * The Method constructor accepts exactly a return type parameterized by a
   * class; the expression then takes its name and declaring type from the
   * method, its type from that class and the given traversed association. It
   * rejects a non-parameterized return type naming that type, and otherwise a
   * non-class first type argument naming that argument.
   */
  lemma FromMethodSpec(m: PropertyMethod, traversed: Option<AssociationExpression>)
    ensures var r := FromMethod(m, traversed);
            && (r.Success? <==> m.genericReturnType.ParameterizedType? && m.genericReturnType.firstArgument.ClassType?)
            && (r.Success? ==>
                  r.value.name == m.name && r.value.declaringType == m.declaringClass &&
                  r.value.propertyType == m.genericReturnType.firstArgument.cls && r.value.traversed == traversed)
            && (!m.genericReturnType.ParameterizedType? ==>
                  r == Failure(UnsupportedOperationException("Unsupported property type:" + m.genericReturnType.rendering)))
            && (m.genericReturnType.ParameterizedType? && !m.genericReturnType.firstArgument.ClassType? ==>
                  r == Failure(UnsupportedOperationException("Unsupported property type:" + m.genericReturnType.firstArgument.rendering)))
  {
  }

  /**
   * The one-argument Method constructor agrees with the three-argument
   * constructor applied to what it reads from the method.
   */
  lemma FromMethodAgreesWithParts(m: PropertyMethod)
    requires m.genericReturnType.ParameterizedType? && m.genericReturnType.firstArgument.ClassType?
    ensures FromMethod(m, None) == Success(NewPropertyExpression(m.name, m.declaringClass, m.genericReturnType.firstArgument.cls))
  {
  }

  /**
   * With no traversed association the rendering starts with the declaring
   * type's simple name; with one, it is the association's rendering and a dot
   * followed by the rendering without it. Either way it ends with "()^^" and
   * the property type's name.
   */
  lemma ToStringLayout(p: PropertyExpression)
    ensures var bare := p.declaringType.simpleName + ":" + p.name + "()^^" + p.propertyType.name;
            && (p.traversed.None? ==> ToString(p) == bare)
            && (p.traversed.Some? ==> ToString(p) == p.traversed.value.rendering + "." + ToString(p.(traversed := None)))
            && |ToString(p)| >= 4 + |p.propertyType.name|
            && ToString(p)[|ToString(p)| - |p.propertyType.name| - 4..] == "()^^" + p.propertyType.name
  {
    var bare := p.declaringType.simpleName + ":" + p.name + "()^^" + p.propertyType.name;
    var tail := "()^^" + p.propertyType.name;
    var front := (if p.traversed.None? then "" else p.traversed.value.rendering + ".") + p.declaringType.simpleName + ":" + p.name;
    assert ToString(p) == front + tail;
  }

  /**
   * The three-argument constructor is the four-argument one without a
   * traversed association: the getters return its arguments, and the rendering
   * has no association prefix.
   */
  lemma ThreeArgumentConstructor(name: string, declaringType: ClassName, propertyType: ClassName)
    ensures var p := NewPropertyExpression(name, declaringType, propertyType);
            && p == PropertyExpression(name, declaringType, propertyType, None)
            && p.name == name && p.declaringType == declaringType && p.propertyType == propertyType && p.traversed.None?
            && ToString(p) == declaringType.simpleName + ":" + name + "()^^" + propertyType.name
  {
  }

  /** Expressions that differ only in their property type render differently. */
  lemma ToStringDistinguishesTypes(p: PropertyExpression, t: ClassName)
    requires t.name != p.propertyType.name
    ensures ToString(p) != ToString(p.(propertyType := t))
  {
    var q := p.(propertyType := t);
    var front := (if p.traversed.None? then "" else p.traversed.value.rendering + ".") + p.declaringType.simpleName + ":" + p.name + "()^^";
    assert ToString(p) == front + p.propertyType.name;
    assert ToString(q) == front + t.name;
    assert ToString(p)[|front|..] == p.propertyType.name;
    assert ToString(q)[|front|..] == t.name;
  }

  // ----- IsNotNull

  /** An IsNotNull constraint over a property expression. */
  datatype IsNotNull = IsNotNull(argument: PropertyExpression)

  /** The exception a constructor throws for a null argument (its message is not part of the model). */
  datatype ConstructionError = IllegalArgumentException

  /** The constructor, which is documented to reject a null property. */
  function NewIsNotNull(property: Option<PropertyExpression>): (r: Result<IsNotNull, ConstructionError>)
  {
    if property.None? then Failure(IllegalArgumentException)
    else Success(IsNotNull(property.value))
  }

  /** The text of an IS NOT NULL constraint around the rendering of its argument. */
  function IsNotNullText(argument: string): (text: string)
  {
    "( " + argument + " IS NOT NULL )"
  }

  function IsNotNullToString(c: IsNotNull): (text: string)
  {
    IsNotNullText(ToString(c.argument))
  }

  /**
   * The constraint is built exactly for a present property, whose rendering it
   * shows verbatim between "( " and " IS NOT NULL )".
   */
  lemma IsNotNullSpec(property: Option<PropertyExpression>)
    ensures NewIsNotNull(property).Success? <==> property.Some?
    ensures property.Some? ==>
              var s := IsNotNullToString(NewIsNotNull(property).value);
              var a := ToString(property.value);
              && |s| == |a| + 16
              && s[..2] == "( "
              && s[2..2 + |a|] == a
              && s[2 + |a|..] == " IS NOT NULL )"
  {
    if property.Some? {
      var a := ToString(property.value);
      IsNotNullVerbatim(a);
    }
  }

  /** The argument appears verbatim between the fixed prefix and suffix. */
  lemma IsNotNullVerbatim(a: string)
    ensures |IsNotNullText(a)| == |a| + 16
    ensures IsNotNullText(a)[..2] == "( "
    ensures IsNotNullText(a)[2..2 + |a|] == a
    ensures IsNotNullText(a)[2 + |a|..] == " IS NOT NULL )"
  {
    var s := IsNotNullText(a);
    assert s == "( " + a + " IS NOT NULL )";
    assert s[2..2 + |a|] == a;
  }

  /** Different argument renderings give different constraint texts. */
  lemma IsNotNullInjective(a: string, b: string)
    requires IsNotNullText(a) == IsNotNullText(b)
    ensures a == b
  {
    IsNotNullVerbatim(a);
    IsNotNullVerbatim(b);
  }
}
