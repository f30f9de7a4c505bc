/**
 * What the operations of CssClassList do to the list and to its cache,
 * as functions of the state before the call. The class in ClassLists is
 * proved against these.
 */
module ClassListSpec {
  import opened Wrappers
  import opened Reflection
  import opened Text
  import opened Caching
  import opened Options

  const Space: char := ' '

  /** A stored class name: non-empty and without a space. */
  predicate IsToken(s: string) {
    s != "" && Space !in s
  }

  predicate AllTokens(classes: seq<string>) {
    forall i :: 0 <= i < |classes| ==> IsToken(classes[i])
  }

  predicate Distinct(classes: seq<string>) {
    forall i, j :: 0 <= i < j < |classes| ==> classes[i] != classes[j]
  }

  /** value.Split(' ', RemoveEmptyEntries). */
  function Tokens(value: string): (r: seq<string>)
    ensures AllTokens(r)
  {
    SplitNonEmpty(value, Space)
  }

  /** One pass of AddInner's loop: skip the token when deduplicating and it is present. */
  function AppendToken(classes: seq<string>, token: string, dedup: bool): seq<string> {
    if dedup && token in classes then classes else classes + [token]
  }

  /** AddInner's loop over the tokens, in order. */
  function AppendTokens(classes: seq<string>, tokens: seq<string>, dedup: bool): seq<string>
    decreases |tokens|
  {
    if |tokens| == 0 then classes
    else AppendTokens(AppendToken(classes, tokens[0], dedup), tokens[1..], dedup)
  }

  /** Without deduplication every token is appended. */
  lemma {:induction false} AppendTokensWithoutDedup(classes: seq<string>, tokens: seq<string>)
    ensures AppendTokens(classes, tokens, false) == classes + tokens
    decreases |tokens|
  {
    if |tokens| > 0 {
      AppendTokensWithoutDedup(classes + [tokens[0]], tokens[1..]);
      assert classes + [tokens[0]] + tokens[1..] == classes + tokens;
    }
  }

  /** The list only grows at its end, by tokens of the input. */
  lemma {:induction false} AppendTokensExtends(classes: seq<string>, tokens: seq<string>, dedup: bool)
    ensures var r := AppendTokens(classes, tokens, dedup);
            |classes| <= |r| && r[..|classes|] == classes
            && (forall i :: |classes| <= i < |r| ==> r[i] in tokens)
            && (forall x :: x in r <==> x in classes || x in tokens)
    decreases |tokens|
  {
    if |tokens| > 0 {
      var next := AppendToken(classes, tokens[0], dedup);
      AppendTokensExtends(next, tokens[1..], dedup);
      var r := AppendTokens(classes, tokens, dedup);
      assert r[..|next|] == next;
      assert r[..|classes|] == r[..|next|][..|classes|];
      assert tokens == [tokens[0]] + tokens[1..];
    }
  }

  /** With deduplication a duplicate-free list stays duplicate-free. */
  lemma {:induction false} AppendTokensDistinct(classes: seq<string>, tokens: seq<string>, dedup: bool)
    ensures dedup && Distinct(classes) ==> Distinct(AppendTokens(classes, tokens, dedup))
    decreases |tokens|
  {
    if |tokens| > 0 {
      AppendTokensDistinct(AppendToken(classes, tokens[0], dedup), tokens[1..], dedup);
    }
  }

  /**
   * AddInner(value, condition): nothing for a null or empty value or a false
   * condition; otherwise the tokens of the value are appended in order,
   * those already present skipped when deduplicating.
   */
  function AddClasses(classes: seq<string>, value: Option<string>, condition: bool, dedup: bool): (r: seq<string>)
    ensures |classes| <= |r| && r[..|classes|] == classes
    ensures forall x :: x in r <==> x in classes || x in Contribution(value, condition)
    ensures !dedup ==> r == classes + Contribution(value, condition)
    ensures AllTokens(classes) ==> AllTokens(r)
    ensures dedup && Distinct(classes) ==> Distinct(r)
  {
    if value.None? || value.value == "" || !condition then classes
    else
      var tokens := Tokens(value.value);
      AppendTokensExtends(classes, tokens, dedup);
      AppendTokensWithoutDedup(classes, tokens);
      AppendTokensDistinct(classes, tokens, dedup);
      AppendTokens(classes, tokens, dedup)
  }

  /** The tokens an AddInner(value, condition) call offers to the list. */
  function Contribution(value: Option<string>, condition: bool): (r: seq<string>)
    ensures AllTokens(r)
  {
    if value.Some? && condition then Tokens(value.value) else []
  }

  /** A false condition, a null or an empty value leave the list as it is. */
  lemma AddClassesSkips(classes: seq<string>, value: Option<string>, condition: bool, dedup: bool)
    requires value.None? || value.value == "" || !condition
    ensures AddClasses(classes, value, condition, dedup) == classes
  {
  }

  /** A sequence of AddInner calls, each a (value, condition) request. */
  function AddEach(classes: seq<string>, requests: seq<(Option<string>, bool)>, dedup: bool): (r: seq<string>)
    ensures |classes| <= |r| && r[..|classes|] == classes
    ensures AllTokens(classes) ==> AllTokens(r)
    ensures dedup && Distinct(classes) ==> Distinct(r)
    decreases |requests|
  {
    if |requests| == 0 then classes
    else
      var next := AddClasses(classes, requests[0].0, requests[0].1, dedup);
      var r := AddEach(next, requests[1..], dedup);
      assert r[..|classes|] == r[..|next|][..|classes|];
      r
  }

  /** Every element of an enumeration, added with a true condition. */
  function Unconditional(items: seq<Option<string>>): (r: seq<(Option<string>, bool)>)
    ensures |r| == |items| && forall i :: 0 <= i < |items| ==> r[i] == (items[i], true)
  {
    seq(|items|, i requires 0 <= i < |items| => (items[i], true))
  }

  /** The classes of another list, added one by one. */
  function FromList(classes: seq<string>): (r: seq<(Option<string>, bool)>)
    ensures |r| == |classes| && forall i :: 0 <= i < |classes| ==> r[i] == (Some(classes[i]), true)
  {
    seq(|classes|, i requires 0 <= i < |classes| => (Some(classes[i]), true))
  }

  /** The tokens all of `requests` offer, in order. */
  function Offered(requests: seq<(Option<string>, bool)>): seq<string> {
    if |requests| == 0 then [] else Contribution(requests[0].0, requests[0].1) + Offered(requests[1..])
  }

  /** Without deduplication, AddEach appends exactly the offered tokens. */
  lemma {:induction false} AddEachWithoutDedup(classes: seq<string>, requests: seq<(Option<string>, bool)>)
    ensures AddEach(classes, requests, false) == classes + Offered(requests)
    decreases |requests|
  {
    if |requests| > 0 {
      var c := Contribution(requests[0].0, requests[0].1);
      var rest := Offered(requests[1..]);
      assert AddClasses(classes, requests[0].0, requests[0].1, false) == classes + c;
      assert AddEach(classes, requests, false) == AddEach(classes + c, requests[1..], false);
      AddEachWithoutDedup(classes + c, requests[1..]);
      assert Offered(requests) == c + rest;
      assert classes + c + rest == classes + (c + rest);
    }
  }

  /** Adding the classes of another list without deduplication appends them all, in order. */
  lemma {:induction false} OfferedFromList(classes: seq<string>)
    requires AllTokens(classes)
    ensures Offered(FromList(classes)) == classes
    decreases |classes|
  {
    if |classes| > 0 {
      OfferedFromList(classes[1..]);
      assert FromList(classes)[1..] == FromList(classes[1..]);
      SplitNonEmptyJoin([classes[0]], Space);
      assert Tokens(classes[0]) == [classes[0]];
      assert [classes[0]] + classes[1..] == classes;
    }
  }

  /**
   * Add(params (string, Func<bool>)[]): each predicate is invoked in turn;
   * a null one throws NullReferenceException, and the items before it stay added.
   */
  function AddEachPredicated(classes: seq<string>, items: seq<(Option<string>, Callback<bool>)>, dedup: bool): (r: (seq<string>, Outcome<Error>))
    ensures r.1.Pass? <==> forall i :: 0 <= i < |items| ==> items[i].1.Returns?
    ensures r.1.Fail? ==> r.1.error == NullReference
    ensures AllTokens(classes) ==> AllTokens(r.0)
    ensures dedup && Distinct(classes) ==> Distinct(r.0)
    decreases |items|
  {
    if |items| == 0 then (classes, Pass)
    else if items[0].1.NullCallback? then (classes, Fail(NullReference))
    else
      var r := AddEachPredicated(AddClasses(classes, items[0].0, items[0].1.result, dedup), items[1..], dedup);
      assert forall i :: 1 <= i < |items| ==> items[1..][i - 1] == items[i];
      r
  }

  // Records: CreateExtractor and the compiled extractor.

  predicate AllBoolean(properties: seq<PropertyInfo>) {
    forall i :: 0 <= i < |properties| ==> properties[i].propertyType == BooleanType
  }

  /**
   * CreateExtractor(type) for `properties`: every property must be a bool
   * (checked before its name is converted); the extractor adds the converted
   * name of each property in declaration order. Invoking a null converter throws.
   */
  function ExtractorNames(typeName: string, properties: seq<PropertyInfo>, converter: Option<PropertyInfo -> string>): Result<seq<string>, Error>
    decreases |properties|
  {
    if |properties| == 0 then Success([])
    else if properties[0].propertyType != BooleanType then Failure(NonBooleanProperty(typeName, properties[0].name))
    else if converter.None? then Failure(NullReference)
    else
      var rest := ExtractorNames(typeName, properties[1..], converter);
      if rest.Failure? then rest else Success([converter.value(properties[0])] + rest.value)
  }

  /**
   * The extractor exists exactly when every property is a bool and a
   * converter is set (or there is nothing to convert); it then holds the
   * converted name of each property in order. With a converter set, a
   * failure names a property that is not a bool.
   */
  lemma {:induction false} ExtractorNamesSpec(typeName: string, properties: seq<PropertyInfo>, converter: Option<PropertyInfo -> string>)
    ensures var r := ExtractorNames(typeName, properties, converter);
            && (r.Success? <==> AllBoolean(properties) && (converter.Some? || |properties| == 0))
            && (r.Success? ==> |r.value| == |properties|
                               && forall i :: 0 <= i < |properties| ==> r.value[i] == converter.value(properties[i]))
            && (r.Failure? && converter.Some? ==>
                  exists i :: 0 <= i < |properties| && properties[i].propertyType != BooleanType
                              && r.error == NonBooleanProperty(typeName, properties[i].name))
    decreases |properties|
  {
    if |properties| > 0 {
      ExtractorNamesSpec(typeName, properties[1..], converter);
      assert forall i :: 1 <= i < |properties| ==> properties[1..][i - 1] == properties[i];
    }
  }

  function CssExtractor(shape: Shape, converter: Option<PropertyInfo -> string>): Result<seq<string>, Error> {
    ExtractorNames(shape.typeName, shape.properties, converter)
  }

  /** What the cache may hold: for each type, one name per property, and only bool properties. */
  predicate ExtractorsValid(extractors: map<Shape, seq<string>>) {
    forall shape :: shape in extractors ==> |extractors[shape]| == |shape.properties| && AllBoolean(shape.properties)
  }

  /** The requests the compiled extractor makes for `record`: each name with its property's value. */
  function FlagRequests(names: seq<string>, record: Record): (r: seq<(Option<string>, bool)>)
    requires WellTyped(record) && AllBoolean(record.shape.properties) && |names| == |record.values|
    ensures |r| == |names|
    ensures forall i :: 0 <= i < |names| ==> r[i] == (Some(names[i]), record.values[i].b)
  {
    seq(|names|, i requires 0 <= i < |names| => (Some(names[i]), record.values[i].b))
  }

  // The state a list acts on.

  /** The list's classes and the two maps of its (shared) cache. */
  datatype CssState = CssState(classes: seq<string>, extractors: map<Shape, seq<string>>, enumNames: map<EnumKey, string>)

  predicate StateValid(st: CssState) {
    AllTokens(st.classes) && ExtractorsValid(st.extractors)
  }

  /** Add(Enum): the cached or freshly converted name of the member, added as a class. */
  function EnumStep(s: CssSettings, st: CssState, value: Option<EnumValue>): (r: (CssState, Outcome<Error>))
    requires StateValid(st)
    ensures StateValid(r.0) && r.0.extractors == st.extractors
    ensures s.deduplicate && Distinct(st.classes) ==> Distinct(r.0.classes)
  {
    if value.None? then (st, Pass)
    else
      var created := if s.enumToClassNameConverter.Some? then Success(s.enumToClassNameConverter.value(value.value)) else Failure(NullReference);
      var (names, name) := MapGetOrAdd(st.enumNames, KeyOf(value.value), created);
      if name.Failure? then (st.(enumNames := names), Fail(name.error))
      else (CssState(AddClasses(st.classes, Some(name.value), true, s.deduplicate), st.extractors, names), Pass)
  }

  /**
   * Add(Enum) of a member whose name is not cached yet: the converter's name
   * for it is cached under its key and added as a class; with no converter
   * the call throws NullReferenceException and neither the list nor the
   * cache changes.
   */
  lemma EnumStepMiss(s: CssSettings, st: CssState, v: EnumValue)
    requires StateValid(st) && KeyOf(v) !in st.enumNames
    ensures s.enumToClassNameConverter.Some? ==>
              var name := s.enumToClassNameConverter.value(v);
              EnumStep(s, st, Some(v))
                == (CssState(AddClasses(st.classes, Some(name), true, s.deduplicate), st.extractors, st.enumNames[KeyOf(v) := name]), Pass)
    ensures s.enumToClassNameConverter.None? ==> EnumStep(s, st, Some(v)) == (st, Fail(NullReference))
  {
    var created := if s.enumToClassNameConverter.Some? then Success(s.enumToClassNameConverter.value(v)) else Failure(NullReference);
    GetOrAddMiss(st.enumNames, KeyOf(v), created);
  }

  /** Add(object): the cached or freshly created extractor for the record's type, run on the record. */
  function ObjectStep(s: CssSettings, st: CssState, values: Option<Record>): (r: (CssState, Outcome<Error>))
    requires StateValid(st) && (values.Some? ==> WellTyped(values.value))
    ensures StateValid(r.0) && r.0.enumNames == st.enumNames
    ensures s.deduplicate && Distinct(st.classes) ==> Distinct(r.0.classes)
  {
    if values.None? then (st, Pass)
    else
      var record := values.value;
      ExtractorNamesSpec(record.shape.typeName, record.shape.properties, s.propertyToClassNameConverter);
      var (extractors, names) := MapGetOrAdd(st.extractors, record.shape, CssExtractor(record.shape, s.propertyToClassNameConverter));
      if names.Failure? then (st.(extractors := extractors), Fail(names.error))
      else (CssState(AddEach(st.classes, FlagRequests(names.value, record), s.deduplicate), extractors, st.enumNames), Pass)
  }

  /** Add(IReadOnlyDictionary<string, object>): the value of the "class" key, if present and not null. */
  function AttributesStep(classes: seq<string>, attributes: Option<map<string, Option<string>>>, dedup: bool): (r: seq<string>)
    ensures |classes| <= |r| && r[..|classes|] == classes
    ensures !(attributes.Some? && "class" in attributes.value && attributes.value["class"].Some?) ==> r == classes
    ensures attributes.Some? && "class" in attributes.value && attributes.value["class"].Some? ==>
              (forall x :: x in r <==> x in classes || x in Tokens(attributes.value["class"].value))
              && (!dedup ==> r == classes + Tokens(attributes.value["class"].value))
  {
    if attributes.Some? && "class" in attributes.value && attributes.value["class"].Some?
    then AddClasses(classes, attributes.value["class"], true, dedup)
    else classes
  }

  /** Looking up the extractor of a record type keeps the cache valid and yields an extractor that fits the type. */
  lemma ExtractorLookupFits(extractors: map<Shape, seq<string>>, shape: Shape, converter: Option<PropertyInfo -> string>)
    requires ExtractorsValid(extractors)
    ensures var (m, names) := MapGetOrAdd(extractors, shape, CssExtractor(shape, converter));
            ExtractorsValid(m)
            && (names.Success? ==> |names.value| == |shape.properties| && AllBoolean(shape.properties))
  {
    ExtractorNamesSpec(shape.typeName, shape.properties, converter);
  }

  /** What AddMultiple may be handed, after the runtime type tests. */
  datatype CssInput =
    | NullArgument                                                 // null: reaches Add(object), which ignores it
    | Text(text: string)                                           // string
    | EnumMember(member: EnumValue)                                // Enum
    | Conditional(cssClass: Option<string>, condition: bool)       // (string, bool)
    | Predicated(cssClass: Option<string>, test: Callback<bool>)  // (string, Func<bool>)
    | Texts(items: seq<Option<string>>)                            // IEnumerable<string>
    | ClassList(classes: seq<string>)                              // another CssClassList, by its classes
    | Attributes(attributes: map<string, Option<string>>)          // IReadOnlyDictionary<string, object>
    | Object(record: Record)                                       // any other object

  /** The inputs that exist at run time: a record's values fit its type, a list's classes are tokens. */
  predicate InputOk(input: CssInput) {
    (input.Object? ==> WellTyped(input.record)) && (input.ClassList? ==> AllTokens(input.classes))
  }

  /** One argument of AddMultiple, dispatched in the order string, Enum, (string, bool), (string, Func<bool>), ... */
  function Apply(s: CssSettings, st: CssState, input: CssInput): (r: (CssState, Outcome<Error>))
    requires StateValid(st) && InputOk(input)
    ensures StateValid(r.0)
    ensures s.deduplicate && Distinct(st.classes) ==> Distinct(r.0.classes)
  {
    var dedup := s.deduplicate;
    match input
    case NullArgument => (st, Pass)
    case Text(text) => (st.(classes := AddClasses(st.classes, Some(text), true, dedup)), Pass)
    case EnumMember(member) => EnumStep(s, st, Some(member))
    case Conditional(cssClass, condition) => (st.(classes := AddClasses(st.classes, cssClass, condition, dedup)), Pass)
    case Predicated(cssClass, test) =>
      if test.NullCallback? then (st, Fail(NullReference))
      else (st.(classes := AddClasses(st.classes, cssClass, test.result, dedup)), Pass)
    case Texts(items) => (st.(classes := AddEach(st.classes, Unconditional(items), dedup)), Pass)
    case ClassList(classes) => (st.(classes := AddEach(st.classes, FromList(classes), dedup)), Pass)
    case Attributes(attributes) => (st.(classes := AttributesStep(st.classes, Some(attributes), dedup)), Pass)
    case Object(record) => ObjectStep(s, st, Some(record))
  }

  /** AddMultiple(values): the arguments in order, stopping at the first exception. */
  function ApplyAll(s: CssSettings, st: CssState, inputs: seq<CssInput>): (r: (CssState, Outcome<Error>))
    requires StateValid(st) && forall i :: 0 <= i < |inputs| ==> InputOk(inputs[i])
    ensures StateValid(r.0)
    decreases |inputs|
  {
    if |inputs| == 0 then (st, Pass)
    else
      var (next, outcome) := Apply(s, st, inputs[0]);
      if outcome.Fail? then (next, outcome) else ApplyAll(s, next, inputs[1..])
  }

  /** The classes that are not among `tokens`, in order. */
  function Without(classes: seq<string>, tokens: seq<string>): seq<string>
    decreases |classes|
  {
    if |classes| == 0 then []
    else (if classes[0] in tokens then [] else [classes[0]]) + Without(classes[1..], tokens)
  }

  /** Without keeps exactly the classes outside `tokens`, and keeps a list duplicate-free and made of tokens. */
  lemma {:induction false} WithoutSpec(classes: seq<string>, tokens: seq<string>)
    ensures forall x :: x in Without(classes, tokens) <==> x in classes && x !in tokens
    ensures Distinct(classes) ==> Distinct(Without(classes, tokens))
    ensures AllTokens(classes) ==> AllTokens(Without(classes, tokens))
    decreases |classes|
  {
    if |classes| > 0 {
      WithoutSpec(classes[1..], tokens);
      assert classes == [classes[0]] + classes[1..];
    }
  }

  /**
   * AddInner as the Deduplicate option's documentation and the tests
   * describe it: with deduplication on, a false condition removes the
   * value's tokens from the list instead of doing nothing.
   */
  function AddOrRemoveClasses(classes: seq<string>, value: Option<string>, condition: bool, dedup: bool): (r: seq<string>)
    ensures condition || !dedup ==> r == AddClasses(classes, value, condition, dedup)
    ensures dedup && Distinct(classes) ==> Distinct(r)
    ensures AllTokens(classes) ==> AllTokens(r)
  {
    if value.None? || value.value == "" then classes
    else if condition then AddClasses(classes, value, true, dedup)
    else if dedup then
      WithoutSpec(classes, Tokens(value.value));
      Without(classes, Tokens(value.value))
    else classes
  }

  /** With deduplication on, a false-condition add leaves none of the value's tokens in the list. */
  lemma FalseConditionRemoves(classes: seq<string>, value: string)
    ensures forall x :: x in Tokens(value) ==> x !in AddOrRemoveClasses(classes, Some(value), false, true)
    ensures forall x :: x in classes && x !in Tokens(value) ==> x in AddOrRemoveClasses(classes, Some(value), false, true)
  {
    WithoutSpec(classes, Tokens(value));
  }

  /**
   * The AddInner of CssClassList.cs keeps a present class on a false
   * condition, where the documented rule removes it.
   */
  lemma ShownAddInnerDoesNotRemove(classes: seq<string>, value: string, x: string)
    requires x in classes && x in Tokens(value)
    ensures x in AddClasses(classes, Some(value), false, true)
    ensures x !in AddOrRemoveClasses(classes, Some(value), false, true)
  {
    FalseConditionRemoves(classes, value);
  }

  // Properties of the specification.

  /** With Deduplicate on, a duplicate-free list stays duplicate-free across any AddMultiple. */
  lemma {:induction false} ApplyAllKeepsDistinct(s: CssSettings, st: CssState, inputs: seq<CssInput>)
    requires StateValid(st) && forall i :: 0 <= i < |inputs| ==> InputOk(inputs[i])
    requires s.deduplicate && Distinct(st.classes)
    ensures Distinct(ApplyAll(s, st, inputs).0.classes)
    decreases |inputs|
  {
    if |inputs| > 0 {
      var (next, outcome) := Apply(s, st, inputs[0]);
      if outcome.Pass? {
        ApplyAllKeepsDistinct(s, next, inputs[1..]);
      }
    }
  }

  /** AddMultiple never touches the classes already in the list: they remain its prefix. */
  lemma {:induction false} ApplyAllExtends(s: CssSettings, st: CssState, inputs: seq<CssInput>)
    requires StateValid(st) && forall i :: 0 <= i < |inputs| ==> InputOk(inputs[i])
    ensures var r := ApplyAll(s, st, inputs).0.classes;
            |st.classes| <= |r| && r[..|st.classes|] == st.classes
    decreases |inputs|
  {
    if |inputs| > 0 {
      var (next, outcome) := Apply(s, st, inputs[0]);
      assert |st.classes| <= |next.classes| && next.classes[..|st.classes|] == st.classes by {
        match inputs[0]
        case EnumMember(m) =>
        case Object(record) =>
        case _ =>
      }
      if outcome.Pass? {
        ApplyAllExtends(s, next, inputs[1..]);
        var r := ApplyAll(s, next, inputs[1..]).0.classes;
        assert r[..|st.classes|] == r[..|next.classes|][..|st.classes|];
      }
    }
  }

  /** Null and empty-string arguments are skipped: AddMultiple of only those changes nothing. */
  lemma {:induction false} ApplyAllSkipsNullAndEmpty(s: CssSettings, st: CssState, inputs: seq<CssInput>)
    requires StateValid(st)
    requires forall i :: 0 <= i < |inputs| ==> inputs[i] == NullArgument || inputs[i] == Text("")
    ensures ApplyAll(s, st, inputs) == (st, Pass)
    decreases |inputs|
  {
    if |inputs| > 0 {
      ApplyAllSkipsNullAndEmpty(s, st, inputs[1..]);
    }
  }

  /**
   * Once a member's name is cached, adding it again uses the cached name,
   * whatever the converter is by then (and even if it was set to null).
   */
  lemma EnumNameStable(s: CssSettings, s': CssSettings, st: CssState, v: EnumValue)
    requires StateValid(st)
    requires EnumStep(s, st, Some(v)).1.Pass?
    ensures var st1 := EnumStep(s, st, Some(v)).0;
            var st2 := EnumStep(s', st1, Some(v)).0;
            EnumStep(s', st1, Some(v)).1.Pass?
            && KeyOf(v) in st1.enumNames
            && st2.classes == AddClasses(st1.classes, Some(st1.enumNames[KeyOf(v)]), true, s'.deduplicate)
            && st2.enumNames == st1.enumNames
  {
  }

  /**
   * Members of different enums never share a cache entry, even with the same
   * underlying value: caching one leaves the other uncached.
   */
  lemma EnumsOfDifferentTypesDoNotCollide(s: CssSettings, st: CssState, a: EnumValue, b: EnumValue)
    requires StateValid(st) && a.enumType != b.enumType
    requires KeyOf(b) !in st.enumNames
    ensures KeyOf(b) !in EnumStep(s, st, Some(a)).0.enumNames
  {
  }

  /** A record type with a property that is not a bool is rejected, and nothing is cached for it. */
  lemma ObjectWithNonBooleanPropertyFails(s: CssSettings, st: CssState, record: Record, k: int)
    requires StateValid(st) && WellTyped(record) && record.shape !in st.extractors
    requires 0 <= k < |record.shape.properties| && record.shape.properties[k].propertyType != BooleanType
    ensures ObjectStep(s, st, Some(record)).1.Fail?
    ensures ObjectStep(s, st, Some(record)).0 == st
  {
    ExtractorNamesSpec(record.shape.typeName, record.shape.properties, s.propertyToClassNameConverter);
  }

  /**
   * Without deduplication, an all-bool record adds the converted name of each
   * property whose value is true, in declaration order.
   */
  lemma ObjectAddsTrueProperties(s: CssSettings, st: CssState, record: Record)
    requires StateValid(st) && WellTyped(record) && record.shape !in st.extractors
    requires AllBoolean(record.shape.properties) && s.propertyToClassNameConverter.Some? && !s.deduplicate
    ensures CssExtractor(record.shape, s.propertyToClassNameConverter).Success?
    ensures var names := CssExtractor(record.shape, s.propertyToClassNameConverter).value;
            ObjectStep(s, st, Some(record)).1.Pass?
            && ObjectStep(s, st, Some(record)).0.classes == st.classes + Offered(FlagRequests(names, record))
  {
    ExtractorNamesSpec(record.shape.typeName, record.shape.properties, s.propertyToClassNameConverter);
    var names := CssExtractor(record.shape, s.propertyToClassNameConverter).value;
    AddEachWithoutDedup(st.classes, FlagRequests(names, record));
  }

  // Worked examples of the tests.

  /** A single word is its own one token. */
  lemma TokensOfWord(word: string)
    requires IsToken(word)
    ensures Tokens(word) == [word]
  {
    SplitNonEmptyJoin([word], Space);
  }

  /**
   * "c1" added twice gives "c1 c1" without deduplication and "c1" with it.
   */
  lemma AddTwiceExample(c1: string)
    requires c1 == "c1"
    ensures AddClasses(AddClasses([], Some(c1), true, false), Some(c1), true, false) == [c1, c1]
    ensures Join([c1, c1], [Space]) == "c1 c1"
    ensures AddClasses(AddClasses([], Some(c1), true, true), Some(c1), true, true) == [c1]
  {
    TokensOfWord(c1);
    assert [c1, c1][1..] == [c1];
    assert AppendTokens([c1], [c1], true) == AppendTokens(AppendToken([c1], c1, true), [], true);
  }

  /**
   * The indexer's arguments "c1" and ("c2", true) make the classes c1 and
   * c2; a null argument and an empty string add nothing.
   */
  lemma IndexerExample(s: CssSettings, st: CssState, c1: string, c2: string)
    requires StateValid(st) && st.classes == [] && c1 == "c1" && c2 == "c2"
    ensures ApplyAll(s, st, [Text(c1), Conditional(Some(c2), true)]) == (st.(classes := [c1, c2]), Pass)
    ensures ApplyAll(s, st, [NullArgument]) == (st, Pass)
    ensures ApplyAll(s, st, [Text("")]) == (st, Pass)
  {
    TokensOfWord(c1);
    TokensOfWord(c2);
    ApplyTwoClasses(s, st, c1, c2);
  }

  /** Two distinct single-token arguments, one plain and one with a true flag, make exactly those classes. */
  lemma ApplyTwoClasses(s: CssSettings, st: CssState, c1: string, c2: string)
    requires StateValid(st) && st.classes == []
    requires Tokens(c1) == [c1] && Tokens(c2) == [c2] && c1 != c2
    ensures ApplyAll(s, st, [Text(c1), Conditional(Some(c2), true)]) == (st.(classes := [c1, c2]), Pass)
  {
    var next := st.(classes := [c1]);
    TwoClassesAdded(c1, c2, s.deduplicate);
    ApplyText(s, st, c1, [c1]);
    ApplyConditional(s, next, Some(c2), true, [c1, c2]);
    ApplyAllTwo(s, st, Text(c1), Conditional(Some(c2), true), next, st.(classes := [c1, c2]));
  }

  /** A string argument adds its classes and nothing else. */
  lemma ApplyText(s: CssSettings, st: CssState, text: string, after: seq<string>)
    requires StateValid(st) && AddClasses(st.classes, Some(text), true, s.deduplicate) == after
    ensures Apply(s, st, Text(text)) == (st.(classes := after), Pass)
  {
  }

  /** A (string, bool) argument adds its classes under its flag and nothing else. */
  lemma ApplyConditional(s: CssSettings, st: CssState, cssClass: Option<string>, condition: bool, after: seq<string>)
    requires StateValid(st) && AddClasses(st.classes, cssClass, condition, s.deduplicate) == after
    ensures Apply(s, st, Conditional(cssClass, condition)) == (st.(classes := after), Pass)
  {
  }

  /** Two arguments that both pass: AddMultiple ends in the state after the second. */
  lemma ApplyAllTwo(s: CssSettings, st: CssState, a: CssInput, b: CssInput, mid: CssState, last: CssState)
    requires StateValid(st) && InputOk(a) && InputOk(b)
    requires Apply(s, st, a) == (mid, Pass) && Apply(s, mid, b) == (last, Pass)
    ensures ApplyAll(s, st, [a, b]) == (last, Pass)
  {
    ApplyAllOne(s, mid, b, last);
    assert [a, b][0] == a && [a, b][1..] == [b];
  }

  /** One argument that passes: AddMultiple ends in the state after it. */
  lemma ApplyAllOne(s: CssSettings, st: CssState, a: CssInput, last: CssState)
    requires StateValid(st) && InputOk(a) && Apply(s, st, a) == (last, Pass)
    ensures ApplyAll(s, st, [a]) == (last, Pass)
  {
    assert [a][0] == a && [a][1..] == [];
  }

  /** Adding two distinct single-token values to an empty list lists both, with or without deduplication. */
  lemma TwoClassesAdded(c1: string, c2: string, d: bool)
    requires Tokens(c1) == [c1] && Tokens(c2) == [c2] && c1 != c2
    ensures AddClasses([], Some(c1), true, d) == [c1]
    ensures AddClasses([c1], Some(c2), true, d) == [c1, c2]
  {
    assert AppendTokens([], [c1], d) == AppendTokens(AppendToken([], c1, d), [], d) == [c1];
    assert c2 !in [c1];
    assert AppendTokens([c1], [c2], d) == AppendTokens(AppendToken([c1], c2, d), [], d) == [c1, c2];
  }

  /**
   * A custom property converter is the one applied: with a converter that
   * always answers "ok", the record { something = true } adds the class "ok".
   */
  lemma CustomConverterExample(s: CssSettings, st: CssState, record: Record, ok: string)
    requires StateValid(st) && st.classes == [] && record.shape !in st.extractors && !s.deduplicate
    requires s.propertyToClassNameConverter.Some? && forall p :: s.propertyToClassNameConverter.value(p) == ok
    requires ok == "ok"
    requires record.shape.properties == [PropertyInfo("something", BooleanType)] && record.values == [BoolValue(true)]
    ensures ObjectStep(s, st, Some(record)) == (st.(classes := [ok], extractors := st.extractors[record.shape := [ok]]), Pass)
  {
    ObjectAddsTrueProperties(s, st, record);
    ExtractorNamesSpec(record.shape.typeName, record.shape.properties, s.propertyToClassNameConverter);
    var names := CssExtractor(record.shape, s.propertyToClassNameConverter).value;
    assert names == [ok];
    var requests := FlagRequests(names, record);
    assert requests == [(Some(ok), true)];
    TokensOfWord(ok);
    assert Offered(requests) == Contribution(Some(ok), true) + Offered([]);
  }
}
