/**
 * CssBuilderOptions: the settable configuration of the css builder. It is a
 * reference type, so the builder's registry tells two option objects apart
 * even when their settings agree.
 */
module Options {
  import opened Wrappers
  import opened Reflection
  import Naming

  /** The settings a class list consults while it works; a converter may be set to null. */
  datatype CssSettings = CssSettings(
    propertyToClassNameConverter: Option<PropertyInfo -> string>,
    enumToClassNameConverter: Option<EnumValue -> string>,
    deduplicate: bool)

  class CssBuilderOptions {
    /** PropertyToClassNameConverter { get; set; } */
    var propertyToClassNameConverter: Option<PropertyInfo -> string>
    /** EnumToClassNameConverter { get; set; } */
    var enumToClassNameConverter: Option<EnumValue -> string>
    /** Deduplicate { get; set; }: whether a class name is kept only once in a list. */
    var deduplicate: bool

    /** The defaults: both converters are KebabCaseWithUnderscoreToHyphen, deduplication is off. */
    constructor()
      ensures propertyToClassNameConverter.Some? && enumToClassNameConverter.Some?
      ensures forall p :: propertyToClassNameConverter.value(p) == Naming.KebabCaseWithUnderscoreToHyphen(p)
      ensures forall e :: enumToClassNameConverter.value(e) == Naming.EnumKebabCaseWithUnderscoreToHyphen(e)
      ensures !deduplicate
    {
      propertyToClassNameConverter := Some(Naming.KebabCaseWithUnderscoreToHyphen);
      enumToClassNameConverter := Some(Naming.EnumKebabCaseWithUnderscoreToHyphen);
      deduplicate := false;
    }

    /** The current settings. */
    function Settings(): CssSettings
      reads this
    {
      CssSettings(propertyToClassNameConverter, enumToClassNameConverter, deduplicate)
    }
  }
}
