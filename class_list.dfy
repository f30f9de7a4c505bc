/**
 * CssClassList: an ordered list of css class names, appended to in place,
 * bound to the options and the cache of the builder that created it.
 */
module ClassLists {
  import opened Wrappers
  import opened Reflection
  import opened Text
  import opened Caching
  import opened Options
  import opened ClassListSpec

  const EnumConverterMissing: string := "Options.EnumToClassNameConverter can't be null."
  const PropertyConverterMissing: string := "Options.PropertyToClassNameConverter can't be null."

  /** An extractor result with `names` in front of its names. */
  ghost function Prefixed(names: seq<string>, r: Result<seq<string>, Error>): Result<seq<string>, Error> {
    if r.Success? then Success(names + r.value) else r
  }

  class CssClassList {
    /** _cssClasses */
    var classes: seq<string>
    /** _options */
    const options: CssBuilderOptions
    /** _cache */
    const cache: ThreadsafeCssBuilderCache

    /** The list and the maps of its cache. */
    ghost function State(): CssState
      reads this, cache
    {
      CssState(classes, cache.cssExtractors, cache.enumName)
    }

    /** Every stored class is a token, and the cache holds only extractors that fit their types. */
    ghost predicate Valid()
      reads this, cache
    {
      StateValid(State())
    }

    constructor Init(options: CssBuilderOptions, cache: ThreadsafeCssBuilderCache)
      ensures this.options == options && this.cache == cache && classes == []
    {
      this.options := options;
      this.cache := cache;
      classes := [];
    }

    /**
     * The constructor: null options throw ArgumentNullException, a null
     * converter ArgumentException (the enum converter is checked first).
     */
    static method New(options: CssBuilderOptions?, cache: ThreadsafeCssBuilderCache) returns (r: Result<CssClassList, Error>)
      ensures options == null ==> r == Failure(ArgumentNull("options"))
      ensures options != null && options.enumToClassNameConverter.None? ==> r == Failure(Argument(EnumConverterMissing))
      ensures options != null && options.enumToClassNameConverter.Some? && options.propertyToClassNameConverter.None?
              ==> r == Failure(Argument(PropertyConverterMissing))
      ensures r.Success? <==> options != null && options.enumToClassNameConverter.Some? && options.propertyToClassNameConverter.Some?
      ensures r.Success? ==> fresh(r.value) && r.value.classes == [] && r.value.options == options && r.value.cache == cache
    {
      if options == null {
        return Failure(ArgumentNull("options"));
      }
      if options.enumToClassNameConverter.None? {
        return Failure(Argument(EnumConverterMissing));
      }
      if options.propertyToClassNameConverter.None? {
        return Failure(Argument(PropertyConverterMissing));
      }
      var list := new CssClassList.Init(options, cache);
      r := Success(list);
    }

    /** HasClass(className): the list contains it; never for null. */
    function HasClass(className: Option<string>): (r: bool)
      reads this
      ensures r <==> className.Some? && exists i :: 0 <= i < |classes| && classes[i] == className.value
    {
      className.Some? && className.value in classes
    }

    /** ToString(): the classes joined by single spaces; splitting it again gives the classes back. */
    function ToString(): (r: string)
      reads this
      ensures classes == [] ==> r == ""
      ensures AllTokens(classes) ==> Tokens(r) == classes
    {
      if AllTokens(classes) then
        SplitNonEmptyJoin(classes, Space);
        Join(classes, [Space])
      else Join(classes, [Space])
    }

    /** AddInner(value, condition), proved against AddClasses. */
    method AddInner(value: Option<string>, condition: bool)
      modifies this
      ensures classes == AddClasses(old(classes), value, condition, options.deduplicate)
    {
      if value.None? || value.value == "" || !condition {
        return;
      }
      var tokens := SplitNonEmpty(value.value, Space);
      for i := 0 to |tokens|
        invariant AppendTokens(classes, tokens[i..], options.deduplicate) == AppendTokens(old(classes), tokens, options.deduplicate)
      {
        assert tokens[i..][1..] == tokens[i + 1..];
        if options.deduplicate && HasClass(Some(tokens[i])) {
          continue;
        }
        classes := classes + [tokens[i]];
      }
    }

    /** Add(string, bool). */
    method Add(cssClass: Option<string>, condition: bool)
      modifies this
      ensures classes == AddClasses(old(classes), cssClass, condition, options.deduplicate)
    {
      AddInner(cssClass, condition);
    }

    /** Add(string, Func<bool>): a null predicate throws ArgumentNullException before anything changes. */
    method AddPredicated(cssClass: Option<string>, condition: Callback<bool>) returns (o: Outcome<Error>)
      modifies this
      ensures condition.NullCallback? ==> o == Fail(ArgumentNull("predicate")) && classes == old(classes)
      ensures condition.Returns? ==> o == Pass && classes == AddClasses(old(classes), cssClass, condition.result, options.deduplicate)
    {
      if condition.NullCallback? {
        return Fail(ArgumentNull("predicate"));
      }
      AddInner(cssClass, condition.result);
      o := Pass;
    }

    /** Add(params (string, bool)[]): each tuple in order; a null array is the empty one. */
    method AddTuples(items: seq<(Option<string>, bool)>)
      modifies this
      ensures classes == AddEach(old(classes), items, options.deduplicate)
    {
      for i := 0 to |items|
        invariant AddEach(classes, items[i..], options.deduplicate) == AddEach(old(classes), items, options.deduplicate)
      {
        assert items[i..][1..] == items[i + 1..];
        AddInner(items[i].0, items[i].1);
      }
    }

    /** Add(params (string, Func<bool>)[]): a null predicate throws NullReferenceException when reached. */
    method AddPredicatedTuples(items: seq<(Option<string>, Callback<bool>)>) returns (o: Outcome<Error>)
      modifies this
      ensures (classes, o) == AddEachPredicated(old(classes), items, options.deduplicate)
    {
      for i := 0 to |items|
        invariant AddEachPredicated(classes, items[i..], options.deduplicate) == AddEachPredicated(old(classes), items, options.deduplicate)
      {
        assert items[i..][1..] == items[i + 1..];
        if items[i].1.NullCallback? {
          return Fail(NullReference);
        }
        AddInner(items[i].0, items[i].1.result);
      }
      o := Pass;
    }

    /** Add(IEnumerable<string>): each string in order, none for a null enumeration. */
    method AddTexts(cssList: Option<seq<Option<string>>>)
      modifies this
      ensures cssList.None? ==> classes == old(classes)
      ensures cssList.Some? ==> classes == AddEach(old(classes), Unconditional(cssList.value), options.deduplicate)
    {
      if cssList.None? {
        return;
      }
      var items := cssList.value;
      ghost var requests := Unconditional(items);
      for i := 0 to |items|
        invariant AddEach(classes, requests[i..], options.deduplicate) == AddEach(old(classes), requests, options.deduplicate)
      {
        assert requests[i..][1..] == requests[i + 1..];
        AddInner(items[i], true);
      }
    }

    /** Add(CssClassList): the other list's classes in order, none for null. */
    method AddList(other: CssClassList?)
      requires other != this
      modifies this
      ensures other == null ==> classes == old(classes)
      ensures other != null ==> classes == AddEach(old(classes), FromList(other.classes), options.deduplicate)
    {
      if other == null {
        return;
      }
      ghost var requests := FromList(other.classes);
      for i := 0 to |other.classes|
        invariant AddEach(classes, requests[i..], options.deduplicate) == AddEach(old(classes), requests, options.deduplicate)
      {
        assert requests[i..][1..] == requests[i + 1..];
        AddInner(Some(other.classes[i]), true);
      }
    }

    /**
     * Add(Enum): the member's name from the cache, converted by the enum
     * converter on a miss. The converter is evaluated before the lookup;
     * being pure, that changes nothing observable.
     */
    method AddEnum(value: Option<EnumValue>) returns (o: Outcome<Error>)
      requires Valid()
      modifies this, cache
      ensures Valid()
      ensures (State(), o) == EnumStep(options.Settings(), old(State()), value)
    {
      if value.None? {
        return Pass;
      }
      var created := if options.enumToClassNameConverter.Some?
                     then Success(options.enumToClassNameConverter.value(value.value))
                     else Failure(NullReference);
      var name := cache.GetOrAddEnumName(value.value, created);
      if name.Failure? {
        return Fail(name.error);
      }
      AddInner(Some(name.value), true);
      o := Pass;
    }

    /** CreateExtractor(type): the loop over the type's properties, proved against CssExtractor. */
    method CreateExtractor(shape: Shape) returns (r: Result<seq<string>, Error>)
      ensures r == CssExtractor(shape, options.propertyToClassNameConverter)
    {
      var properties := shape.properties;
      var converter := options.propertyToClassNameConverter;
      var names: seq<string> := [];
      assert properties[0..] == properties;
      assert Prefixed(names, ExtractorNames(shape.typeName, properties, converter)) == ExtractorNames(shape.typeName, properties, converter) by {
        var full := ExtractorNames(shape.typeName, properties, converter);
        if full.Success? {
          assert names + full.value == full.value;
        }
      }
      for i := 0 to |properties|
        invariant Prefixed(names, ExtractorNames(shape.typeName, properties[i..], converter)) == ExtractorNames(shape.typeName, properties, converter)
      {
        assert properties[i..][1..] == properties[i + 1..];
        var property := properties[i];
        if property.propertyType != BooleanType {
          assert ExtractorNames(shape.typeName, properties[i..], converter) == Failure(NonBooleanProperty(shape.typeName, property.name));
          return Failure(NonBooleanProperty(shape.typeName, property.name));
        }
        if converter.None? {
          assert ExtractorNames(shape.typeName, properties[i..], converter) == Failure(NullReference);
          return Failure(NullReference);
        }
        ghost var rest := ExtractorNames(shape.typeName, properties[i + 1..], converter);
        assert rest.Success? ==> names + ([converter.value(property)] + rest.value) == (names + [converter.value(property)]) + rest.value;
        names := names + [converter.value(property)];
      }
      assert properties[|properties|..] == [];
      assert names + [] == names;
      r := Success(names);
    }

    /**
     * Add(object): the extractor for the record's type from the cache, created
     * on a miss, then run on the record: each property's name with its value
     * as the condition.
     */
    method AddObject(values: Option<Record>) returns (o: Outcome<Error>)
      requires Valid() && (values.Some? ==> WellTyped(values.value))
      modifies this, cache
      ensures Valid()
      ensures (State(), o) == ObjectStep(options.Settings(), old(State()), values)
    {
      if values.None? {
        return Pass;
      }
      var record := values.value;
      var created := CreateExtractor(record.shape);
      ExtractorLookupFits(cache.cssExtractors, record.shape, options.propertyToClassNameConverter);
      var names := cache.GetOrAddExtractor(record.shape, created);
      if names.Failure? {
        return Fail(names.error);
      }
      RunExtractor(names.value, record);
      o := Pass;
    }

    /** The compiled extractor run on `record`: AddInner(name, value) for each property in order. */
    method RunExtractor(names: seq<string>, record: Record)
      requires WellTyped(record) && AllBoolean(record.shape.properties) && |names| == |record.values|
      modifies this
      ensures classes == AddEach(old(classes), FlagRequests(names, record), options.deduplicate)
    {
      ghost var requests := FlagRequests(names, record);
      for i := 0 to |names|
        invariant AddEach(classes, requests[i..], options.deduplicate) == AddEach(old(classes), requests, options.deduplicate)
      {
        assert requests[i..][1..] == requests[i + 1..];
        AddInner(Some(names[i]), record.values[i].b);
      }
    }

    /** Add(IReadOnlyDictionary<string, object>): the "class" entry's value, when present and not null. */
    method AddAttributes(attributes: Option<map<string, Option<string>>>)
      modifies this
      ensures classes == AttributesStep(old(classes), attributes, options.deduplicate)
    {
      if attributes.Some? && "class" in attributes.value && attributes.value["class"].Some? {
        AddInner(attributes.value["class"], true);
      }
    }

    /** The body of AddMultiple's loop: one argument, dispatched by its runtime type. */
    method AddOne(value: CssInput) returns (o: Outcome<Error>)
      requires Valid() && InputOk(value)
      modifies this, cache
      ensures Valid()
      ensures (State(), o) == Apply(options.Settings(), old(State()), value)
    {
      o := Pass;
      match value {
      case NullArgument =>
      case Text(text) => AddInner(Some(text), true);
      case EnumMember(member) => o := AddEnum(Some(member));
      case Conditional(cssClass, condition) => AddInner(cssClass, condition);
      case Predicated(cssClass, test) =>
        if test.NullCallback? {
          o := Fail(NullReference);
        } else {
          AddInner(cssClass, test.result);
        }
      case Texts(items) => AddTexts(Some(items));
      case ClassList(other) => AddTuples(FromList(other));
      case Attributes(attributes) => AddAttributes(Some(attributes));
      case Object(record) => o := AddObject(Some(record));
      }
    }

    /**
     * AddMultiple(params object[]): each argument in order, dispatched by its
     * runtime type; an exception stops the loop, leaving earlier additions.
     */
    method AddMultiple(values: seq<CssInput>) returns (o: Outcome<Error>)
      requires Valid() && forall i :: 0 <= i < |values| ==> InputOk(values[i])
      modifies this, cache
      ensures Valid()
      ensures (State(), o) == ApplyAll(options.Settings(), old(State()), values)
    {
      ghost var settings := options.Settings();
      for i := 0 to |values|
        invariant Valid() && options.Settings() == settings
        invariant ApplyAll(settings, State(), values[i..]) == ApplyAll(settings, old(State()), values)
      {
        assert values[i..][0] == values[i] && values[i..][1..] == values[i + 1..];
        var step := AddOne(values[i]);
        if step.Fail? {
          return step;
        }
      }
      o := Pass;
    }

    /**
     * AddInner with the removal rule of the Deduplicate option's
     * documentation and tests: with deduplication on, a false condition
     * removes the value's tokens.
     */
    method AddInnerWithRemoval(value: Option<string>, condition: bool)
      modifies this
      ensures classes == AddOrRemoveClasses(old(classes), value, condition, options.deduplicate)
    {
      if value.None? || value.value == "" {
        return;
      }
      if condition {
        AddInner(value, true);
        return;
      }
      if !options.deduplicate {
        return;
      }
      var tokens := SplitNonEmpty(value.value, Space);
      var kept: seq<string> := [];
      assert classes[0..] == classes;
      for i := 0 to |classes|
        invariant kept + Without(classes[i..], tokens) == Without(old(classes), tokens)
        invariant classes == old(classes)
      {
        assert classes[i..][1..] == classes[i + 1..];
        ghost var rest := Without(classes[i + 1..], tokens);
        assert Without(classes[i..], tokens) == (if classes[i] in tokens then [] else [classes[i]]) + rest;
        if classes[i] !in tokens {
          assert kept + ([classes[i]] + rest) == (kept + [classes[i]]) + rest;
          kept := kept + [classes[i]];
        }
      }
      classes := kept;
    }
  }
}
