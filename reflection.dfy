/**
 * What the builders learn about a runtime value by reflection: the public
 * instance properties of its type, in declaration order, and their current
 * values; and the identity of an enum member.
 */
module Reflection {

  /** The declared type of a property; only typeof(bool) matters to the core. */
  datatype PropertyType = BooleanType | OtherType(typeName: string)

  /** A PropertyInfo: the property's name and declared type. */
  datatype PropertyInfo = PropertyInfo(name: string, propertyType: PropertyType)

  /** A runtime Type (the cache key): its name and public instance properties in declaration order. */
  datatype Shape = Shape(typeName: string, properties: seq<PropertyInfo>)

  /** The current value of one property, already converted by ToString() when it is not a bool. */
  datatype FieldValue = NullValue | BoolValue(b: bool) | TextValue(text: string)

  /** An instance of a record type (typically an anonymous object) with one value per property. */
  datatype Record = Record(shape: Shape, values: seq<FieldValue>)

  /** The values a runtime object of `shape` can hold: one per property, a bool for every bool property. */
  predicate WellTyped(r: Record) {
    && |r.values| == |r.shape.properties|
    && forall i :: 0 <= i < |r.values| && r.shape.properties[i].propertyType == BooleanType ==> r.values[i].BoolValue?
  }

  /** object.ToString() of a non-null property value; bool renders as "True"/"False". */
  function ToText(v: FieldValue): string
    requires !v.NullValue?
  {
    match v
    case BoolValue(b) => if b then "True" else "False"
    case TextValue(t) => t
  }

  /** An enum member: its enum type, its name (what ToString() returns) and its underlying value. */
  datatype EnumValue = EnumValue(enumType: string, name: string, underlying: int)

  /**
   * The identity EnumEqualityComparer gives enum members. It calls
   * object.Equals on the boxed members, which holds exactly when both the
   * enum type and the underlying value agree. So two keys are equal exactly
   * when the members have the same type and value, and members of different
   * enums with the same underlying value never collide.
   */
  datatype EnumKey = EnumKey(enumType: string, underlying: int)

  function KeyOf(v: EnumValue): EnumKey {
    EnumKey(v.enumType, v.underlying)
  }
}
