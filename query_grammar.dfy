/** The query grammar's IS NULL predicate (PropertyIsNullPredicateImpl) and its rendering. */
module QueryGrammar {
  import opened Wrappers
  import opened QueryGraph

  /** A property reference; its toString is given by its own implementation. */
  datatype PropertyReference = PropertyReference(rendering: string)

  /** A PropertyIsNullPredicateImpl over a property reference. */
  datatype PropertyIsNullPredicate = PropertyIsNullPredicate(propertyReference: PropertyReference)

  /** The constructor, which is documented to reject a null property reference. */
  function NewPropertyIsNullPredicate(reference: Option<PropertyReference>): (r: Result<PropertyIsNullPredicate, ConstructionError>)
  {
    if reference.None? then Failure(IllegalArgumentException)
    else Success(PropertyIsNullPredicate(reference.value))
  }

  /** The text of an IS NULL predicate around the rendering of its reference. */
  function IsNullText(reference: string): (text: string)
  {
    "( " + reference + " IS NULL )"
  }

  function ToString(p: PropertyIsNullPredicate): (text: string)
  {
    IsNullText(p.propertyReference.rendering)
  }

  /** The reference appears verbatim between the fixed prefix and suffix. */
  lemma IsNullVerbatim(r: string)
    ensures |IsNullText(r)| == |r| + 12
    ensures IsNullText(r)[..2] == "( "
    ensures IsNullText(r)[2..2 + |r|] == r
    ensures IsNullText(r)[2 + |r|..] == " IS NULL )"
  {
    var s := IsNullText(r);
    assert s == "( " + r + " IS NULL )";
    assert s[2..2 + |r|] == r;
  }

  /**
   * The predicate is built exactly for a present reference, whose rendering it
   * shows verbatim between "( " and " IS NULL )".
   */
  lemma IsNullSpec(reference: Option<PropertyReference>)
    ensures NewPropertyIsNullPredicate(reference).Success? <==> reference.Some?
    ensures reference.Some? ==>
              var s := ToString(NewPropertyIsNullPredicate(reference).value);
              var r := reference.value.rendering;
              && |s| == |r| + 12 && s[..2] == "( " && s[2..2 + |r|] == r && s[2 + |r|..] == " IS NULL )"
  {
    if reference.Some? {
      IsNullVerbatim(reference.value.rendering);
    }
  }

  /** Different reference renderings give different predicate texts. */
  lemma IsNullInjective(a: string, b: string)
    requires IsNullText(a) == IsNullText(b)
    ensures a == b
  {
    IsNullVerbatim(a);
    IsNullVerbatim(b);
  }

  /**
   * An IS NULL text is never an IS NOT NULL text, whatever the two arguments:
   * eight characters from the end one has the 'S' of "IS", the other the 'T' of "NOT".
   */
  lemma IsNullNeverIsNotNull(a: string, b: string)
    ensures IsNullText(a) != IsNotNullText(b)
  {
    var s := IsNullText(a);
    var t := IsNotNullText(b);
    IsNullVerbatim(a);
    IsNotNullVerbatim(b);
    if |s| == |t| {
      assert s[|s| - 8] == " IS NULL )"[2] == 'S';
      assert t[|t| - 8] == " IS NOT NULL )"[6] == 'T';
    }
  }
}
