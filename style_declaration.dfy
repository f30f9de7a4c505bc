/**
 * StyleDeclaration: an immutable property/value pair with structural
 * equality and the "Property:Value" rendering.
 */
module Declarations {
  import Text

  const Colon: char := ':'

  /** The constructor stores both components unchanged. */
  datatype StyleDeclaration = StyleDeclaration(property: string, value: string)

  /** A value that object.Equals may be handed: a boxed StyleDeclaration or anything else. */
  datatype Boxed = BoxedDeclaration(declaration: StyleDeclaration) | OtherObject

  /** ToString(): the interpolation "{Property}:{Value}". */
  function ToString(d: StyleDeclaration): (r: string)
    ensures |r| == |d.property| + 1 + |d.value|
    ensures r[..|d.property|] == d.property && r[|d.property|] == Colon && r[|d.property| + 1..] == d.value
  {
    d.property + [Colon] + d.value
  }

  /** Equals(object): the other object is a StyleDeclaration with the same Property and Value. */
  predicate Equals(d: StyleDeclaration, obj: Boxed) {
    obj.BoxedDeclaration? && d.property == obj.declaration.property && d.value == obj.declaration.value
  }

  /** operator ==: left.Equals(right). */
  predicate Equal(left: StyleDeclaration, right: StyleDeclaration) {
    Equals(left, BoxedDeclaration(right))
  }

  /** operator !=: !(left == right). */
  predicate NotEqual(left: StyleDeclaration, right: StyleDeclaration) {
    !Equal(left, right)
  }

  /** Two's-complement 32-bit wrap-around of C#'s unchecked int arithmetic. */
  function Wrap32(x: int): (r: int)
    ensures -0x8000_0000 <= r < 0x8000_0000
    ensures (x - r) % 0x1_0000_0000 == 0
  {
    (x + 0x8000_0000) % 0x1_0000_0000 - 0x8000_0000
  }

  /**
   * GetHashCode(), given the string hash EqualityComparer<string>.Default
   * uses (randomised per process in .NET, so a parameter here).
   */
  function GetHashCode(d: StyleDeclaration, stringHash: string -> int): (r: int)
    ensures -0x8000_0000 <= r < 0x8000_0000
  {
    var h0 := -1027930222;
    var h1 := Wrap32(Wrap32(h0 * -1521134295) + stringHash(d.property));
    Wrap32(Wrap32(h1 * -1521134295) + stringHash(d.value))
  }

  /** Equals is exactly structural equality of the two components. */
  lemma EqualsIffSameComponents(d: StyleDeclaration, obj: Boxed)
    ensures Equals(d, obj) <==> obj == BoxedDeclaration(d)
  {
  }

  /** Equals is reflexive, symmetric and transitive. */
  lemma EqualsIsEquivalence(a: StyleDeclaration, b: StyleDeclaration, c: StyleDeclaration)
    ensures Equals(a, BoxedDeclaration(a))
    ensures Equals(a, BoxedDeclaration(b)) ==> Equals(b, BoxedDeclaration(a))
    ensures Equals(a, BoxedDeclaration(b)) && Equals(b, BoxedDeclaration(c)) ==> Equals(a, BoxedDeclaration(c))
  {
  }

  /** == coincides with Equals, and != is its negation. */
  lemma OperatorsAgreeWithEquals(left: StyleDeclaration, right: StyleDeclaration)
    ensures Equal(left, right) <==> Equals(left, BoxedDeclaration(right))
    ensures NotEqual(left, right) <==> !Equals(left, BoxedDeclaration(right))
    ensures Equal(left, right) <==> left == right
  {
  }

  /** Nothing but a StyleDeclaration equals a StyleDeclaration. */
  lemma NotEqualToOtherObjects(d: StyleDeclaration)
    ensures !Equals(d, OtherObject)
  {
  }

  /** Equal declarations have equal hash codes, whatever the string hash. */
  lemma EqualsImpliesSameHash(a: StyleDeclaration, b: StyleDeclaration, stringHash: string -> int)
    requires Equals(a, BoxedDeclaration(b))
    ensures GetHashCode(a, stringHash) == GetHashCode(b, stringHash)
  {
  }

  /**
   * The rendering can be parsed back: when neither component holds a colon,
   * splitting ToString() on ':' yields exactly the property and the value.
   */
  lemma SplitToString(d: StyleDeclaration)
    requires Colon !in d.property && Colon !in d.value
    ensures Text.Split(ToString(d), Colon) == [d.property, d.value]
  {
    Text.SplitAfterPiece(d.property, Colon, d.value);
    Text.SplitWithoutSeparator(d.value, Colon);
  }
}
