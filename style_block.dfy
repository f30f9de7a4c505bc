/**
 * StyleDeclarationBlock: an ordered list of style declarations, appended to
 * in place, bound to the cache of the style builder that created it.
 */
module StyleBlocks {
  import opened Wrappers
  import opened Reflection
  import opened Text
  import opened Declarations
  import opened Caching
  import opened StyleBlockSpec
  import Naming

  class StyleDeclarationBlock {
    /** _styles */
    var styles: seq<StyleDeclaration>
    /** _cache */
    const cache: ThreadsafeStyleBuilderCache

    /** The declarations and the extractor map of the shared cache. */
    ghost function State(): StyleState
      reads this, cache
    {
      StyleState(styles, cache.styleExtractors)
    }

    /** Every declaration has a property and a value, and every cached extractor fits its type. */
    ghost predicate Valid()
      reads this, cache
    {
      StateValid(State())
    }

    /** The internal constructor: an empty block on the given cache. */
    constructor(cache: ThreadsafeStyleBuilderCache)
      ensures this.cache == cache && styles == []
    {
      this.cache := cache;
      styles := [];
    }

    /** HasStyle(propertyName): some declaration has that property; never for null. */
    function HasStyle(propertyName: Option<string>): (r: bool)
      reads this
      ensures r <==> propertyName.Some? && exists i :: 0 <= i < |styles| && styles[i].property == propertyName.value
    {
      propertyName.Some? && FirstIndex(styles, propertyName.value) < |styles|
    }

    /** GetPropertyValue(propertyName): the value of the first declaration of the property, or null. */
    function GetPropertyValue(propertyName: Option<string>): (r: Option<string>)
      reads this
      ensures r.Some? <==> HasStyle(propertyName)
      ensures r.Some? ==> exists i :: 0 <= i < |styles| && styles[i].property == propertyName.value && styles[i].value == r.value
                                       && forall j :: 0 <= j < i ==> styles[j].property != propertyName.value
    {
      FindValue(styles, propertyName)
    }

    /**
     * ToString(): the declarations joined by ';'. Handed back as the "style"
     * attribute, it yields the same declarations when their components are
     * trimmed and free of ':' and ';'.
     */
    function ToString(): (r: string)
      reads this
      ensures styles == [] ==> r == ""
      ensures AllParsable(styles) ==> AttributesStep([], Some(map["style" := Some(r)])) == (styles, Pass)
    {
      if AllParsable(styles) then
        ParseBlockText([], styles);
        BlockText(styles)
      else BlockText(styles)
    }

    /** AddInner(property, value, condition): ValidateProperty, then a conditional append. */
    method AddInner(property: Option<string>, value: Option<string>, condition: bool) returns (o: Outcome<Error>)
      modifies this
      ensures (styles, o) == AddStyle(old(styles), property, value, condition)
    {
      if property.None? || property.value == "" {
        return Fail(Argument(PropertyMissing));
      }
      if condition && value.Some? && value.value != "" {
        styles := styles + [StyleDeclaration(property.value, value.value)];
      }
      o := Pass;
    }

    /** Add(string, string, bool). */
    method Add(property: Option<string>, value: Option<string>, condition: bool) returns (o: Outcome<Error>)
      modifies this
      ensures (styles, o) == AddStyle(old(styles), property, value, condition)
    {
      o := AddInner(property, value, condition);
    }

    /** Add(string, Func<string>, bool): a null value delegate throws ArgumentNullException first. */
    method AddProduced(property: Option<string>, value: Callback<Option<string>>, condition: bool) returns (o: Outcome<Error>)
      modifies this
      ensures value.NullCallback? ==> o == Fail(ArgumentNull("value")) && styles == old(styles)
      ensures value.Returns? ==> (styles, o) == AddStyle(old(styles), property, value.result, condition)
    {
      if value.NullCallback? {
        return Fail(ArgumentNull("value"));
      }
      o := AddInner(property, value.result, condition);
    }

    /** Add(string, string, Func<bool>): a null predicate throws ArgumentNullException first. */
    method AddPredicated(property: Option<string>, value: Option<string>, test: Callback<bool>) returns (o: Outcome<Error>)
      modifies this
      ensures test.NullCallback? ==> o == Fail(ArgumentNull("predicate")) && styles == old(styles)
      ensures test.Returns? ==> (styles, o) == AddStyle(old(styles), property, value, test.result)
    {
      if test.NullCallback? {
        return Fail(ArgumentNull("predicate"));
      }
      o := AddInner(property, value, test.result);
    }

    /** Add(string, Func<string>, Func<bool>): the value delegate is checked before the predicate. */
    method AddProducedPredicated(property: Option<string>, value: Callback<Option<string>>, test: Callback<bool>) returns (o: Outcome<Error>)
      modifies this
      ensures value.NullCallback? ==> o == Fail(ArgumentNull("value")) && styles == old(styles)
      ensures value.Returns? && test.NullCallback? ==> o == Fail(ArgumentNull("predicate")) && styles == old(styles)
      ensures value.Returns? && test.Returns? ==> (styles, o) == AddStyle(old(styles), property, value.result, test.result)
    {
      if value.NullCallback? {
        return Fail(ArgumentNull("value"));
      }
      if test.NullCallback? {
        return Fail(ArgumentNull("predicate"));
      }
      o := AddInner(property, value.result, test.result);
    }

    /** The declarations of `entries`, each through AddInner, stopping at an exception. */
    method AddEach(entries: seq<StyleDeclaration>) returns (o: Outcome<Error>)
      modifies this
      ensures (styles, o) == AddEntries(old(styles), entries)
    {
      for i := 0 to |entries|
        invariant AddEntries(styles, entries[i..]) == AddEntries(old(styles), entries)
      {
        assert entries[i..][0] == entries[i] && entries[i..][1..] == entries[i + 1..];
        var step := AddInner(Some(entries[i].property), Some(entries[i].value), true);
        if step.Fail? {
          return step;
        }
      }
      o := Pass;
    }

    /**
     * Add(StyleDeclarationBlock): nothing for null; otherwise AddInner for
     * each of the other block's declarations. Those of a block are always
     * entries, and then they are all appended in order and nothing throws.
     */
    method AddBlock(other: StyleDeclarationBlock?) returns (o: Outcome<Error>)
      requires other != this
      modifies this
      ensures other == null ==> styles == old(styles) && o == Pass
      ensures other != null ==> (styles, o) == AddEntries(old(styles), other.styles)
      ensures other != null && AllEntries(other.styles) ==> styles == old(styles) + other.styles && o == Pass
    {
      if other == null {
        return Pass;
      }
      if AllEntries(other.styles) {
        AddEntriesAppends(styles, other.styles);
      }
      o := AddEach(other.styles);
    }

    /** Add(IReadOnlyDictionary<string, object>): the pairs of the "style" entry, in order. */
    method AddAttributes(attributes: Option<map<string, Option<string>>>) returns (o: Outcome<Error>)
      modifies this
      ensures (styles, o) == AttributesStep(old(styles), attributes)
    {
      if attributes.None? || "style" !in attributes.value || attributes.value["style"].None? {
        return Pass;
      }
      var style := attributes.value["style"].value;
      if |style| == 0 {
        return Pass;
      }
      var segments := SplitNonEmpty(style, Semicolon);
      for i := 0 to |segments|
        invariant AddPairs(styles, segments[i..], style) == AddPairs(old(styles), segments, style)
      {
        assert segments[i..][0] == segments[i] && segments[i..][1..] == segments[i + 1..];
        var pair := Split(segments[i], Colon);
        if |pair| != 2 {
          return Fail(Argument(InvalidStyleMessage(style)));
        }
        var step := AddInner(Some(Trim(pair[0])), Some(Trim(pair[1])), true);
        if step.Fail? {
          return step;
        }
      }
      o := Pass;
    }

    /** CreateExtractor(type): the loop over the type's properties, proved against StyleExtractor. */
    method CreateExtractor(shape: Shape) returns (names: seq<string>)
      ensures names == StyleExtractor(shape)
    {
      var properties := shape.properties;
      names := [];
      for i := 0 to |properties|
        invariant names + StyleNames(properties[i..]) == StyleNames(properties)
      {
        assert properties[i..][0] == properties[i] && properties[i..][1..] == properties[i + 1..];
        names := names + [Naming.KebabCaseWithUnderscoreToHyphen(properties[i])];
      }
      assert properties[|properties|..] == [];
    }

    /** The compiled extractor run on a record's values: each non-null value with its style name. */
    method RunExtractor(names: seq<string>, values: seq<FieldValue>) returns (o: Outcome<Error>)
      requires |names| == |values|
      modifies this
      ensures (styles, o) == AddFields(old(styles), names, values)
    {
      for i := 0 to |names|
        invariant AddFields(styles, names[i..], values[i..]) == AddFields(old(styles), names, values)
      {
        assert names[i..][1..] == names[i + 1..] && values[i..][1..] == values[i + 1..];
        if values[i].NullValue? {
          continue;
        }
        var step := AddInner(Some(names[i]), Some(ToText(values[i])), true);
        if step.Fail? {
          return step;
        }
      }
      o := Pass;
    }

    /** Add(object): nothing for null; otherwise the record's type's extractor from the cache, run on it. */
    method AddObject(values: Option<Record>) returns (o: Outcome<Error>)
      requires Valid() && (values.Some? ==> |values.value.values| == |values.value.shape.properties|)
      modifies this, cache
      ensures Valid()
      ensures (State(), o) == ObjectStep(old(State()), values)
    {
      if values.None? {
        return Pass;
      }
      var record := values.value;
      var created := CreateExtractor(record.shape);
      var names := cache.GetOrAdd(record.shape, created);
      o := RunExtractor(names, record.values);
    }

    /**
     * AddMultiple(params object[]): each argument in order, dispatched by its
     * runtime type; an exception stops the loop, leaving earlier additions.
     */
    method AddMultiple(values: seq<StyleInput>) returns (o: Outcome<Error>)
      requires Valid() && forall i :: 0 <= i < |values| ==> InputOk(values[i])
      modifies this, cache
      ensures Valid()
      ensures (State(), o) == ApplyAll(old(State()), values)
    {
      for i := 0 to |values|
        invariant Valid()
        invariant ApplyAll(State(), values[i..]) == ApplyAll(old(State()), values)
      {
        assert values[i..][0] == values[i] && values[i..][1..] == values[i + 1..];
        ghost var before := State();
        var step: Outcome<Error> := Pass;
        match values[i] {
        case NullItem =>
        case Declaration(property, value, condition) =>
          if value.Produced? && value.producer.NullCallback? {
            step := Fail(NullReference);
          } else if condition.Tested? && condition.test.NullCallback? {
            step := Fail(NullReference);
          } else {
            var text := if value.Literal? then value.text else value.producer.result;
            var flag := match condition
              case Unconditional => true
              case Flag(b) => b
              case Tested(test) => test.result;
            step := AddInner(property, text, flag);
          }
        case Block(entries) => step := AddEach(entries);
        case Attributes(attributes) => step := AddAttributes(Some(attributes));
        case Object(record) => step := AddObject(Some(record));
        }
        assert (State(), step) == Apply(before, values[i]);
        if step.Fail? {
          return step;
        }
      }
      o := Pass;
    }
  }
}
