# Foxy.Web.Styling in Dafny

A model of the class-list and style-block builders of Foxy.Web.Styling, with proofs.

**The class-list side.**
- `CssBuilder` hands out `CssClassList` objects.
- A class list is an ordered list of class names. Each `Add` overload and `AddMultiple` append to it in place.
- Depending on the input, the list splits a string on spaces, tests a flag or a predicate, or converts an enum member through a per-options cache.
- For an anonymous object, it builds an extractor for the object's type once, keeps it in the cache, and runs it on the object's boolean properties.

**The style side.**
- `StyleBuilder` hands out `StyleDeclarationBlock` objects.
- A block is an ordered list of `property:value` declarations.
- It parses the `style` entry of an attribute dictionary.
- It turns the non-null properties of an object into declarations named in kebab case.
- It renders itself as the declarations joined by `;`.

**The naming conventions.** `CssBuilderNamingConventions` turn a property or enum member name into a class name: unchanged, underscores to hyphens, kebab case, or kebab case with underscores to hyphens.

**Modules.**

| file | module | models |
|---|---|---|
| `wrappers.dfy` | `Wrappers` | `Option`, `Result`, `Outcome` (pass or thrown exception), `Callback` (a delegate that is null or returns a value), and the exceptions the core throws |
| `text.dfy` | `Text` | `string.Split` (with and without `RemoveEmptyEntries`), `string.Join`, `string.Trim` |
| `reflection.dfy` | `Reflection` | properties, runtime types, records (an object as its type and property values), enum members and the enum cache key |
| `naming.dfy` | `Naming` | the four naming conventions and the kebab-case loop |
| `style_declaration.dfy` | `Declarations` | the `StyleDeclaration` struct: `ToString`, equality, hash code |
| `caching.dfy` | `Caching` | `ConcurrentDictionary.GetOrAdd`, and the two cache classes |
| `options.dfy` | `Options` | `CssBuilderOptions` |
| `class_list_spec.dfy` | `ClassListSpec` | the class list's behaviour as functions over its state (classes and cache maps), and the lemmas about it |
| `class_list.dfy` | `ClassLists` | the `CssClassList` class, each method proved against `ClassListSpec` |
| `style_block_spec.dfy` | `StyleBlockSpec` | the style block's behaviour as functions over its state, and the lemmas about it |
| `style_block.dfy` | `StyleBlocks` | the `StyleDeclarationBlock` class, each method proved against `StyleBlockSpec` |
| `css_builder.dfy` | `CssBuilders` | `CssBuilder` and its registry of caches per options object |
| `style_builder.dfy` | `StyleBuilders` | `StyleBuilder` |

**How errors are modelled.**
- A thrown exception is an `Outcome` of `Fail(error)` or a `Result` of `Failure(error)`.
- The additions made before the throw stay in the new state, as in the source, where earlier `Add` calls are not rolled back.
- A `null` argument is `None`, or a `NullCallback` for a delegate.
- Invoking a null delegate is `Fail(NullReference)`.

## Where the sources disagree

- **Deduplication.**
  - The shipped `CssClassList.cs` is an older revision than the rest of the sources. It reads `_options.ExcludeDuplication` and `options.GetCache()`, and its one-argument constructor takes no cache.
  - `CssBuilderOptions.Deduplicate`, its documentation and the deduplication tests describe more. With deduplication on, an add whose condition is false removes that value's classes.
  - The model follows the code as shown:
    - `CssClassList.AddInner` skips on a false condition.
    - It reads the flag as `options.deduplicate`.
    - It takes the options and the cache as two arguments, as `CssBuilder.Create` supplies them.
  - The documented removal rule is modelled separately, as `CssClassList.AddInnerWithRemoval`, and `ClassListSpec.ShownAddInnerDoesNotRemove` states where the two differ.
- **`GetPropertyValue` on a miss.** It returns the `Value` of a default `StyleDeclaration`, which is `null`. The model returns `None`.

## Model

| member | source | states |
|---|---|---|
| Text.Split | Foxy.Web.Styling/StyleDeclarationBlock.cs:189 | `string.Split(':')`: at least one part, and no part holds the separator |
| Text.SplitNonEmpty | Foxy.Web.Styling/StyleDeclarationBlock.cs:186 | `Split` with `RemoveEmptyEntries`: every part is non-empty and free of the separator |
| Text.RemoveEmpty | Foxy.Web.Styling/StyleDeclarationBlock.cs:186 | the `RemoveEmptyEntries` filter: keeps only non-empty parts, each one of the input; `RemoveEmptyOfNonEmpty` shows it drops nothing else |
| Text.Join | Foxy.Web.Styling/StyleDeclarationBlock.cs:316-319 | `string.Join`: `JoinSplit` and `SplitJoin` show it is the inverse of `Split` |
| Text.IsWhiteSpace | Foxy.Web.Styling/StyleDeclarationBlock.cs:195 | `char.IsWhiteSpace` on ASCII, which `Trim` strips; `TrimStart` and `TrimEnd` are characterised by it |
| Text.Trim | Foxy.Web.Styling/StyleDeclarationBlock.cs:195 | `Trim()`: the result neither starts nor ends with white space |
| Text.TrimStart | Foxy.Web.Styling/StyleDeclarationBlock.cs:195 | drops exactly the leading white space: the result is a suffix, and everything removed is white space |
| Text.TrimEnd | Foxy.Web.Styling/StyleDeclarationBlock.cs:195 | drops exactly the trailing white space: the result is a prefix, and everything removed is white space |
| Text.TrimTrimmed | Foxy.Web.Styling/StyleDeclarationBlock.cs:195 | trimming a string without surrounding white space leaves it unchanged |
| Text.JoinSplit | Foxy.Web.Styling/StyleDeclarationBlock.cs:186-189 | joining the parts of a split with the separator gives back the string |
| Text.SplitJoin | Foxy.Web.Styling/StyleDeclarationBlock.cs:186-189 | splitting a join of separator-free parts gives back the parts |
| Text.SplitNonEmptyJoin | Foxy.Web.Styling/StyleDeclarationBlock.cs:186 | splitting with `RemoveEmptyEntries` a join of non-empty separator-free parts gives back the parts |
| Text.SplitAfterPiece | Foxy.Web.Styling/StyleDeclarationBlock.cs:189 | a separator-free piece followed by the separator is the first part of the split |
| Text.SplitWithoutSeparator | Foxy.Web.Styling/StyleDeclarationBlock.cs:189 | a string without the separator splits into itself alone |
| Text.RemoveEmptyOfNonEmpty | CommonLibraries.Core.Web/CssClassList.cs:330 | removing empty entries from non-empty parts changes nothing |
| Naming.ToLower | Foxy.Web.Styling/CssBuilderNamingConventions.cs:129-137 | lower-casing yields no capital, maps A-Z into a-z and leaves every other character alone |
| Naming.IsUpper | Foxy.Web.Styling/CssBuilderNamingConventions.cs:129 | `char.IsUpper` on ASCII; `KebabHasNoUpper` shows kebab case leaves none |
| Naming.Piece | Foxy.Web.Styling/CssBuilderNamingConventions.cs:124-141 | what one pass of the loop appends: a hyphen for a converted underscore, a hyphen (after index 0) and the lower-cased letter for a capital, the character otherwise |
| Naming.KebabFrom | Foxy.Web.Styling/CssBuilderNamingConventions.cs:119-145 | the pieces of the characters in order; `KebabFromAppend`, `KebabFromLength`, `KebabHasNoUpper` and `KebabFixpoint` state its properties |
| Naming.Kebab | Foxy.Web.Styling/CssBuilderNamingConventions.cs:119-145 | the private `KebabCase(name, underscoreToHyphen)`; `KebabCaseLoop` proves the loop builds it, and `KebabIdempotent` that it is idempotent |
| Naming.KebabCaseLoop | Foxy.Web.Styling/CssBuilderNamingConventions.cs:119-145 | the loop over the name builds exactly `Kebab(name, underscoreToHyphen)` |
| Naming.KebabFromAppend | Foxy.Web.Styling/CssBuilderNamingConventions.cs:119-145 | converting a concatenation converts each part; only the first part is at index 0 |
| Naming.ReplaceUnderscores | Foxy.Web.Styling/CssBuilderNamingConventions.cs:41-55 | `Replace('_', '-')`: same length, no underscore left, every other character kept, every underscore now a hyphen |
| Naming.None | Foxy.Web.Styling/CssBuilderNamingConventions.cs:20-23 | the property's name, unchanged |
| Naming.EnumNone | Foxy.Web.Styling/CssBuilderNamingConventions.cs:30-33 | the enum member's name, unchanged |
| Naming.UnderscoreToHyphen | Foxy.Web.Styling/CssBuilderNamingConventions.cs:41-44 | same length as the property name, no underscore, every other character kept |
| Naming.EnumUnderscoreToHyphen | Foxy.Web.Styling/CssBuilderNamingConventions.cs:52-55 | same length as the member name, no underscore, every other character kept |
| Naming.KebabCase | Foxy.Web.Styling/CssBuilderNamingConventions.cs:66-69 | no capital left, and the name grows by one hyphen per capital after index 0 |
| Naming.EnumKebabCase | Foxy.Web.Styling/CssBuilderNamingConventions.cs:80-83 | no capital left, and the name grows by one hyphen per capital after index 0 |
| Naming.KebabCaseWithUnderscoreToHyphen | Foxy.Web.Styling/CssBuilderNamingConventions.cs:97-100 | equal to `KebabCase` followed by replacing underscores; neither capitals nor underscores left |
| Naming.EnumKebabCaseWithUnderscoreToHyphen | Foxy.Web.Styling/CssBuilderNamingConventions.cs:114-117 | equal to `EnumKebabCase` followed by replacing underscores; neither capitals nor underscores left |
| Naming.KebabFromLength | Foxy.Web.Styling/CssBuilderNamingConventions.cs:119-145 | away from index 0, the result is one character longer per capital |
| Naming.KebabLength | Foxy.Web.Styling/CssBuilderNamingConventions.cs:119-145 | kebab case adds one hyphen per capital after index 0 |
| Naming.KebabHasNoUpper | Foxy.Web.Styling/CssBuilderNamingConventions.cs:129-137 | a kebab-case name has no capital |
| Naming.KebabHasNoUnderscore | Foxy.Web.Styling/CssBuilderNamingConventions.cs:125-128 | with underscore-to-hyphen, a kebab-case name has no underscore |
| Naming.ReplaceUnderscoresAppend | Foxy.Web.Styling/CssBuilderNamingConventions.cs:41-55 | replacing underscores distributes over concatenation |
| Naming.KebabUnderscoreToHyphen | Foxy.Web.Styling/CssBuilderNamingConventions.cs:97-117 | kebab case with underscore-to-hyphen is kebab case followed by replacing underscores |
| Naming.KebabFixpoint | Foxy.Web.Styling/CssBuilderNamingConventions.cs:138-141 | a name without capitals, and without underscores when they are converted, is copied unchanged |
| Naming.KebabIdempotent | Foxy.Web.Styling/CssBuilderNamingConventions.cs:119-145 | converting a kebab-case result again changes nothing |
| Naming.CapitalisedWord | Foxy.Web.Styling/CssBuilderNamingConventions.cs:129-141 | a capitalised word becomes its lower-cased capital and the rest of the word, after a hyphen unless it is at index 0 |
| Naming.NoneExample | CommonLibraries.Core.Web.Tests/Styling/DefaultCssBuilderNamingConventionPropertyTests.cs:20-28 | `PascalCase_WithUnderScore` is kept by `None`, for the property and for the enum member |
| Naming.UnderscoreToHyphenExample | CommonLibraries.Core.Web.Tests/Styling/DefaultCssBuilderNamingConventionPropertyTests.cs:30-38 | `PascalCase_WithUnderScore` becomes `PascalCase-WithUnderScore` |
| Naming.KebabCaseExample | CommonLibraries.Core.Web.Tests/Styling/DefaultCssBuilderNamingConventionPropertyTests.cs:40-48 | `PascalCase_WithUnderScore` becomes `pascal-case_-with-under-score` |
| Naming.KebabCaseWithUnderscoreToHyphenExample | Foxy.Web.Styling.Tests/DefaultCssBuilderNamingConventionEnumTests.cs:21-58 | `PascalCase_WithUnderScore` becomes `pascal-case--with-under-score`, for the property and for the enum member |
| Naming.VendorPrefixExample | Foxy.Web.Styling.Tests/Styling/StyleDeclarationBlockTests.cs:119-133 | the property `_webkitTransition` is named `-webkit-transition` |
| Naming.RepeatedNameExample | Foxy.Web.Styling.Tests/CssClassListTests.cs:105-112 | `NameName_name` becomes `name-name-name` |
| Declarations.ToString | CommonLibraries.Core.Web/Styling/StyleDeclaration.cs:74-77 | the property, one `:`, then the value |
| Declarations.Equals | CommonLibraries.Core.Web/Styling/StyleDeclaration.cs:54-59 | `Equals(object)`; `EqualsIffSameComponents`, `EqualsIsEquivalence` and `NotEqualToOtherObjects` state its meaning |
| Declarations.Equal | CommonLibraries.Core.Web/Styling/StyleDeclaration.cs:37-40 | `operator ==`; `OperatorsAgreeWithEquals` shows it is `Equals` |
| Declarations.NotEqual | CommonLibraries.Core.Web/Styling/StyleDeclaration.cs:48-51 | `operator !=`; `OperatorsAgreeWithEquals` shows it is the negation of `==` |
| Declarations.Wrap32 | CommonLibraries.Core.Web/Styling/StyleDeclaration.cs:62-68 | the `int` that unchecked 32-bit arithmetic leaves: in range, and congruent modulo 2^32 |
| Declarations.GetHashCode | CommonLibraries.Core.Web/Styling/StyleDeclaration.cs:62-68 | the hash is a 32-bit `int` |
| Declarations.EqualsIffSameComponents | CommonLibraries.Core.Web/Styling/StyleDeclaration.cs:54-59 | `Equals(obj)` holds exactly for a boxed declaration with the same property and value |
| Declarations.EqualsIsEquivalence | CommonLibraries.Core.Web/Styling/StyleDeclaration.cs:54-59 | `Equals` is reflexive, symmetric and transitive |
| Declarations.OperatorsAgreeWithEquals | CommonLibraries.Core.Web/Styling/StyleDeclaration.cs:37-51 | `==` agrees with `Equals`, and `!=` is its negation |
| Declarations.NotEqualToOtherObjects | CommonLibraries.Core.Web/Styling/StyleDeclaration.cs:54-59 | an object that is not a declaration is never equal |
| Declarations.EqualsImpliesSameHash | CommonLibraries.Core.Web/Styling/StyleDeclaration.cs:54-68 | equal declarations have equal hash codes |
| Declarations.SplitToString | CommonLibraries.Core.Web/Styling/StyleDeclaration.cs:74-77 | splitting the rendering on `:` gives back property and value when neither holds `:` |
| Caching.GetOrAddHit | Foxy.Web.Styling/Internals/ThreadsafeCssBuilderCache.cs:17-20 | a cached key returns its value and leaves the map unchanged |
| Caching.GetOrAddMiss | Foxy.Web.Styling/Internals/ThreadsafeCssBuilderCache.cs:17-20 | a missing key stores and returns what the factory creates; a throwing factory stores nothing |
| Caching.GetOrAddFrame | Foxy.Web.Styling/Internals/ThreadsafeCssBuilderCache.cs:17-25 | only the looked-up key may be added, and no other entry changes |
| Caching.GetOrAddStable | Foxy.Web.Styling/Internals/ThreadsafeCssBuilderCache.cs:10-13 | once a key is cached, a later lookup returns the same value whatever the later factory would create |
| Caching.MapGetOrAdd | Foxy.Web.Styling/Internals/ThreadsafeCssBuilderCache.cs:17-25 | `ConcurrentDictionary.GetOrAdd` on a sequential map; `GetOrAddHit`, `GetOrAddMiss`, `GetOrAddFrame` and `GetOrAddStable` state its behaviour |
| Reflection.KeyOf | Foxy.Web.Styling/Internals/ThreadsafeCssBuilderCache.cs:36-50 | the identity `EnumEqualityComparer` gives a member: its enum type and underlying value; `EnumsOfDifferentTypesDoNotCollide` relies on it |
| Reflection.ToText | Foxy.Web.Styling/StyleDeclarationBlock.cs:346-347 | the `ToString()` of a non-null property value |
| Caching.ThreadsafeCssBuilderCache.constructor | Foxy.Web.Styling/Internals/ThreadsafeCssBuilderCache.cs:14-15 | both maps start empty |
| Caching.ThreadsafeCssBuilderCache.GetOrAddExtractor | Foxy.Web.Styling/Internals/ThreadsafeCssBuilderCache.cs:17-20 | the extractor map follows `GetOrAdd`; the enum map is unchanged |
| Caching.ThreadsafeCssBuilderCache.GetOrAddEnumName | Foxy.Web.Styling/Internals/ThreadsafeCssBuilderCache.cs:22-25 | the enum map, keyed by enum type and value, follows `GetOrAdd`; the extractor map is unchanged |
| Caching.ThreadsafeCssBuilderCache.ClearCache | Foxy.Web.Styling/Internals/ThreadsafeCssBuilderCache.cs:27-31 | both maps are emptied |
| Caching.ThreadsafeStyleBuilderCache.constructor | CommonLibraries.Core.Web/Styling/Internals/ThreadsafeStyleBuilderCache.cs:8 | the extractor map starts empty |
| Caching.ThreadsafeStyleBuilderCache.GetOrAdd | CommonLibraries.Core.Web/Styling/Internals/ThreadsafeStyleBuilderCache.cs:10-13 | the extractor map follows `GetOrAdd` |
| Caching.ThreadsafeStyleBuilderCache.ClearCache | CommonLibraries.Core.Web/Styling/Internals/ThreadsafeStyleBuilderCache.cs:15-18 | the extractor map is emptied |
| Options.CssBuilderOptions.constructor | Foxy.Web.Styling/CssBuilderOptions.cs:19-37 | both converters default to kebab case with underscore-to-hyphen; deduplication is off |
| ClassListSpec.Tokens | CommonLibraries.Core.Web/CssClassList.cs:330 | the space-separated pieces of a value are non-empty and free of spaces |
| ClassListSpec.AppendTokens | CommonLibraries.Core.Web/CssClassList.cs:330-338 | `AddInner`'s loop over the tokens; `AppendTokensWithoutDedup`, `AppendTokensExtends` and `AppendTokensDistinct` state what it does |
| ClassListSpec.AppendTokensWithoutDedup | CommonLibraries.Core.Web/CssClassList.cs:330-338 | without deduplication, every token is appended |
| ClassListSpec.AppendTokensExtends | CommonLibraries.Core.Web/CssClassList.cs:330-338 | the old list is a prefix, only given tokens are appended, and the classes are exactly the old ones plus the tokens |
| ClassListSpec.AppendTokensDistinct | CommonLibraries.Core.Web/CssClassList.cs:332-335 | with deduplication, a list without repeats keeps none |
| ClassListSpec.AddClasses | CommonLibraries.Core.Web/CssClassList.cs:323-339 | `AddInner`: appends only; the classes afterwards are the old ones plus the value's tokens when the condition holds; without deduplication exactly those tokens are appended; with deduplication no repeats appear |
| ClassListSpec.Contribution | CommonLibraries.Core.Web/CssClassList.cs:325-330 | what an add offers are class tokens |
| ClassListSpec.AddClassesSkips | CommonLibraries.Core.Web/CssClassList.cs:325-328 | a null or empty value, or a false condition, changes nothing |
| ClassListSpec.AddEach | CommonLibraries.Core.Web/CssClassList.cs:136-149 | the tuples in order: appends only, keeps the tokens valid and no repeats under deduplication |
| ClassListSpec.AddEachWithoutDedup | CommonLibraries.Core.Web/CssClassList.cs:136-149 | without deduplication, every offered token of every tuple is appended in order |
| ClassListSpec.Unconditional | CommonLibraries.Core.Web/CssClassList.cs:181-194 | each string of the enumerable with the condition true |
| ClassListSpec.FromList | CommonLibraries.Core.Web/CssClassList.cs:201-214 | each class of the other list with the condition true |
| ClassListSpec.OfferedFromList | CommonLibraries.Core.Web/CssClassList.cs:201-214 | adding another list offers exactly its classes |
| ClassListSpec.AddEachPredicated | CommonLibraries.Core.Web/CssClassList.cs:160-173 | passes exactly when no predicate is null; otherwise throws `NullReferenceException`; keeps the tokens valid and no repeats under deduplication |
| ClassListSpec.ExtractorNamesSpec | CommonLibraries.Core.Web/CssClassList.cs:294-321 | the extractor exists exactly when every property is a `bool` and a converter is set; it holds each converted name in order; a failure names a property that is not a `bool` |
| ClassListSpec.FlagRequests | CommonLibraries.Core.Web/CssClassList.cs:311-315 | the extractor's calls: each name with its property's value, in order |
| ClassListSpec.ExtractorNames | CommonLibraries.Core.Web/CssClassList.cs:304-316 | the extractor's loop over the properties; `ExtractorNamesSpec` states its result |
| ClassListSpec.CssExtractor | CommonLibraries.Core.Web/CssClassList.cs:294-321 | `CreateExtractor` for a record type; `ExtractorLookupFits` states what the cache keeps of it |
| ClassListSpec.EnumStep | CommonLibraries.Core.Web/CssClassList.cs:223-233 | `Add(Enum)` keeps the state valid, leaves the extractors alone and adds no repeat under deduplication |
| ClassListSpec.EnumStepMiss | CommonLibraries.Core.Web/CssClassList.cs:223-233 | a member not yet cached: the converter's name is cached under its key and added as a class; with no converter, `NullReferenceException` and nothing changes |
| ClassListSpec.ObjectStep | CommonLibraries.Core.Web/CssClassList.cs:243-255 | `Add(object)` keeps the state valid, leaves the enum names alone and adds no repeat under deduplication |
| ClassListSpec.AttributesStep | CommonLibraries.Core.Web/CssClassList.cs:263-273 | the old classes stay a prefix; a null dictionary, or a missing or null `class` entry, changes nothing; a `class` entry leaves exactly the old classes and its tokens, and appends all of them without deduplication |
| ClassListSpec.ExtractorLookupFits | CommonLibraries.Core.Web/CssClassList.cs:243-255 | the cache lookup keeps every cached extractor fitting its type, and what it returns fits the record's type |
| ClassListSpec.Apply | CommonLibraries.Core.Web/CssClassList.cs:57-90 | each argument keeps the state valid and adds no repeat under deduplication |
| ClassListSpec.ApplyAll | CommonLibraries.Core.Web/CssClassList.cs:50-94 | `AddMultiple` keeps the state valid |
| ClassListSpec.WithoutSpec | Foxy.Web.Styling/CssBuilderOptions.cs:34-36 | removing tokens keeps exactly the classes that are not among them, keeps no repeats, and keeps them class tokens |
| ClassListSpec.Without | Foxy.Web.Styling/CssBuilderOptions.cs:34-36 | removing the tokens of a value from the list; `WithoutSpec` states its result |
| ClassListSpec.AddOrRemoveClasses | Foxy.Web.Styling/CssBuilderOptions.cs:34-37 | the documented rule: equal to `AddInner` unless the condition is false under deduplication; keeps no repeats and valid tokens |
| ClassListSpec.FalseConditionRemoves | Foxy.Web.Styling.Tests/CssClassListExcludeDuplicationTests.cs:157-179 | under the documented rule, a false condition removes the value's tokens and keeps every other class |
| ClassListSpec.ShownAddInnerDoesNotRemove | CommonLibraries.Core.Web/CssClassList.cs:325-328 | a present class that a false add names stays under `AddInner` as shown, but goes under the documented rule |
| ClassListSpec.ApplyAllKeepsDistinct | Foxy.Web.Styling.Tests/CssClassListExcludeDuplicationTests.cs:30-38 | with deduplication, `AddMultiple` never makes a repeat, whichever argument shapes name the class |
| ClassListSpec.ApplyAllExtends | CommonLibraries.Core.Web/CssClassList.cs:50-94 | `AddMultiple` only appends: the old classes are a prefix of the new |
| ClassListSpec.ApplyAllSkipsNullAndEmpty | Foxy.Web.Styling.Tests/CssBuilderTests.cs:51-69 | null and empty-string arguments change nothing and throw nothing |
| ClassListSpec.EnumNameStable | Foxy.Web.Styling/CssBuilderOptions.cs:10-13 | once an enum member's name is cached, adding it again uses the cached name, even under other options |
| ClassListSpec.EnumsOfDifferentTypesDoNotCollide | Foxy.Web.Styling/Internals/ThreadsafeCssBuilderCache.cs:36-50 | adding a member of one enum type never caches a name for another type's member |
| ClassListSpec.ObjectWithNonBooleanPropertyFails | CommonLibraries.Core.Web/CssClassList.cs:306-309 | an object with a non-`bool` property throws and leaves the state unchanged |
| ClassListSpec.ObjectAddsTrueProperties | Foxy.Web.Styling.Tests/CssClassListTests.cs:41-63 | an object of `bool` properties adds the converted names of its true properties, in order |
| ClassListSpec.AddTwiceExample | Foxy.Web.Styling.Tests/CssClassListExcludeDuplicationTests.cs:19-50 | `c1` added twice renders `c1 c1` by default, and is kept once with deduplication |
| ClassListSpec.IndexerExample | Foxy.Web.Styling.Tests/CssBuilderTests.cs:41-69 | the arguments `"c1"` and `("c2", true)` make `c1 c2`; a null argument and an empty string add nothing |
| ClassListSpec.CustomConverterExample | Foxy.Web.Styling.Tests/CssBuilderTests.cs:28-39 | with a converter that always answers `ok`, `{ something = true }` adds the class `ok` and caches its extractor |
| ClassLists.CssClassList.Init | CommonLibraries.Core.Web/CssClassList.cs:21-36 | an empty list bound to its options and cache |
| ClassLists.CssClassList.New | CommonLibraries.Core.Web/CssClassList.cs:21-36 | null options throw `ArgumentNullException`; a null enum converter, then a null property converter, throw `ArgumentException` with the source's messages; otherwise a fresh empty list |
| ClassLists.CssClassList.HasClass | CommonLibraries.Core.Web/CssClassList.cs:280-283 | true exactly when some stored class equals the name; never for null |
| ClassLists.CssClassList.ToString | CommonLibraries.Core.Web/CssClassList.cs:289-292 | empty for an empty list; splitting the rendering on spaces gives back the classes |
| ClassLists.CssClassList.AddInner | CommonLibraries.Core.Web/CssClassList.cs:323-339 | the loop over the tokens makes exactly `AddClasses` |
| ClassLists.CssClassList.Add | CommonLibraries.Core.Web/CssClassList.cs:103-107 | `Add(string, bool)` is `AddClasses` |
| ClassLists.CssClassList.AddPredicated | CommonLibraries.Core.Web/CssClassList.cs:116-125 | a null predicate throws `ArgumentNullException("predicate")` and changes nothing; otherwise its result is the condition |
| ClassLists.CssClassList.AddTuples | CommonLibraries.Core.Web/CssClassList.cs:136-149 | the tuples in order, as `AddEach` |
| ClassLists.CssClassList.AddPredicatedTuples | CommonLibraries.Core.Web/CssClassList.cs:160-173 | the tuples in order, stopping at a null predicate, as `AddEachPredicated` |
| ClassLists.CssClassList.AddTexts | CommonLibraries.Core.Web/CssClassList.cs:181-194 | null changes nothing; otherwise each string, unconditionally |
| ClassLists.CssClassList.AddList | CommonLibraries.Core.Web/CssClassList.cs:201-214 | null changes nothing; otherwise each class of the other list |
| ClassLists.CssClassList.AddEnum | CommonLibraries.Core.Web/CssClassList.cs:223-233 | list and cache follow `EnumStep`, and stay valid; `EnumStepMiss` and `EnumNameStable` state the miss and the hit |
| ClassLists.CssClassList.CreateExtractor | CommonLibraries.Core.Web/CssClassList.cs:294-321 | the loop over the properties builds exactly `CssExtractor` |
| ClassLists.CssClassList.RunExtractor | CommonLibraries.Core.Web/CssClassList.cs:311-315 | the compiled extractor adds each name under its property's value, as `AddEach` of `FlagRequests` |
| ClassLists.CssClassList.AddObject | CommonLibraries.Core.Web/CssClassList.cs:243-255 | list and cache follow `ObjectStep`, and stay valid |
| ClassLists.CssClassList.AddAttributes | CommonLibraries.Core.Web/CssClassList.cs:263-273 | follows `AttributesStep`: a `class` entry leaves exactly the old classes and its tokens, the old ones first |
| ClassLists.CssClassList.AddOne | CommonLibraries.Core.Web/CssClassList.cs:59-90 | one argument, dispatched by its runtime type, as `Apply` |
| ClassLists.CssClassList.AddMultiple | CommonLibraries.Core.Web/CssClassList.cs:50-94 | list and cache follow `ApplyAll`, and stay valid |
| ClassLists.CssClassList.AddInnerWithRemoval | Foxy.Web.Styling/CssBuilderOptions.cs:34-37 | the documented deduplication rule, as `AddOrRemoveClasses` |
| StyleBlockSpec.AddStyle | Foxy.Web.Styling/StyleDeclarationBlock.cs:321-328 | throws `ArgumentException` exactly for a null or empty property; appends exactly one declaration when the condition holds and the value is non-empty; otherwise changes nothing |
| StyleBlockSpec.AddEntries | Foxy.Web.Styling/StyleDeclarationBlock.cs:146-159 | appends only, and only complete declarations |
| StyleBlockSpec.AddEntriesAppends | Foxy.Web.Styling/StyleDeclarationBlock.cs:146-159 | another block's declarations are all appended, in order, and nothing throws |
| StyleBlockSpec.FirstIndex | Foxy.Web.Styling/StyleDeclarationBlock.cs:305-308 | the index of the first declaration of the property, or the length when there is none |
| StyleBlockSpec.FindValue | Foxy.Web.Styling/StyleDeclarationBlock.cs:305-308 | a value exactly when some declaration has the property |
| StyleBlockSpec.FindAfterAppend | Foxy.Web.Styling/StyleDeclarationBlock.cs:305-308 | an appended declaration answers a lookup only when no earlier one does |
| StyleBlockSpec.Rendered | Foxy.Web.Styling/StyleDeclarationBlock.cs:316-319 | one rendering per declaration |
| StyleBlockSpec.RenderedAt | Foxy.Web.Styling/StyleDeclarationBlock.cs:316-319 | the i-th rendering is the i-th declaration's `ToString` |
| StyleBlockSpec.BlockText | Foxy.Web.Styling/StyleDeclarationBlock.cs:316-319 | an empty block renders as the empty string |
| StyleBlockSpec.AddPair | Foxy.Web.Styling/StyleDeclarationBlock.cs:189-195 | one `property:value` segment only appends, and only complete declarations |
| StyleBlockSpec.AddPairs | Foxy.Web.Styling/StyleDeclarationBlock.cs:187-196 | the loop over the `;` segments; `AddPairsExtends`, `AddPairsRenderedPrefix` and `AddPairsStopsAtMalformed` state what it does |
| StyleBlockSpec.AddPairsExtends | Foxy.Web.Styling/StyleDeclarationBlock.cs:187-196 | parsing the segments only appends, and only complete declarations |
| StyleBlockSpec.AttributesStep | Foxy.Web.Styling/StyleDeclarationBlock.cs:170-200 | a null dictionary or a missing or null `style` entry changes nothing; parsing only appends complete declarations |
| StyleBlockSpec.AddPairOfRendered | Foxy.Web.Styling/StyleDeclarationBlock.cs:189-195 | the rendering of one trimmed declaration free of `:` and `;` parses back into it |
| StyleBlockSpec.AddPairsRenderedPrefix | Foxy.Web.Styling/StyleDeclarationBlock.cs:187-196 | rendered declarations in front of further segments are all added before those segments are parsed |
| StyleBlockSpec.ParseBlockText | Foxy.Web.Styling/StyleDeclarationBlock.cs:170-200 | round trip: a block's rendering, handed back as the `style` entry, adds exactly its declarations when each is trimmed and free of `:` and `;` |
| StyleBlockSpec.MalformedFirst | Foxy.Web.Styling/StyleDeclarationBlock.cs:190-193 | a segment that does not split into two parts throws `ArgumentException` with the whole style in the message |
| StyleBlockSpec.AddPairsStopsAtMalformed | Foxy.Web.Styling/StyleDeclarationBlock.cs:186-196 | the pairs before a malformed segment stay added, and nothing after it is |
| StyleBlockSpec.EmptyPropertyThrows | Foxy.Web.Styling/StyleDeclarationBlock.cs:360-366 | a segment `:value` throws the property's `ArgumentException` |
| StyleBlockSpec.StyleNames | Foxy.Web.Styling/StyleDeclarationBlock.cs:343-353 | one style name per property |
| StyleBlockSpec.StyleExtractor | Foxy.Web.Styling/StyleDeclarationBlock.cs:330-358 | one style name per property of the type |
| StyleBlockSpec.StyleNamesSpec | Foxy.Web.Styling/StyleDeclarationBlock.cs:348 | each style name is the kebab-case-with-hyphens name of its property: no capital, no underscore, and empty exactly when the property name is |
| StyleBlockSpec.AddFields | Foxy.Web.Styling/StyleDeclarationBlock.cs:343-353 | the extractor's run only appends, and only complete declarations |
| StyleBlockSpec.FieldDeclarations | Foxy.Web.Styling/StyleDeclarationBlock.cs:343-353 | the declarations of the non-null properties, named and rendered; `AddFieldsAppends` shows the extractor adds exactly these |
| StyleBlockSpec.AddFieldsAppends | Foxy.Web.Styling/StyleDeclarationBlock.cs:343-353 | with non-empty names, each non-null property becomes a declaration, in order, and nothing throws |
| StyleBlockSpec.ObjectStep | Foxy.Web.Styling/StyleDeclarationBlock.cs:215-227 | `Add(object)` keeps the state valid and only appends |
| StyleBlockSpec.ObjectAddsNamedValues | Foxy.Web.Styling.Tests/Styling/StyleDeclarationBlockTests.cs:104-117 | an object whose property names are non-empty adds each non-null property under its style name, and caches its type's extractor |
| StyleBlockSpec.DeclarationStep | Foxy.Web.Styling/StyleDeclarationBlock.cs:249-272 | a null value delegate, then a null predicate, throws `NullReferenceException` with nothing added; otherwise the value and condition give `AddStyle`: a null or empty property throws, a false condition changes nothing, and a true one appends the declaration of a non-empty value |
| StyleBlockSpec.Apply | Foxy.Web.Styling/StyleDeclarationBlock.cs:242-285 | each argument keeps the state valid and only appends |
| StyleBlockSpec.ApplyAll | Foxy.Web.Styling/StyleDeclarationBlock.cs:235-288 | `AddMultiple` keeps the state valid and only appends |
| StyleBlockSpec.ApplyAllSkipsNull | Foxy.Web.Styling/StyleDeclarationBlock.cs:244-247 | a null argument is skipped |
| StyleBlockSpec.BlockArgumentAppends | Foxy.Web.Styling.Tests/Styling/StyleDeclarationBlockTests.cs:76-87 | another block as argument appends all its declarations |
| StyleBlockSpec.ConditionalAddsExample | Foxy.Web.Styling.Tests/Styling/StyleDeclarationBlockTests.cs:24-35 | width, border under false, height render as `width:100px;height:200px` |
| StyleBlockSpec.TrimPadded | Foxy.Web.Styling/StyleDeclarationBlock.cs:195 | a word with one space on either side trims to the word |
| StyleBlockSpec.PaddedPair | Foxy.Web.Styling/StyleDeclarationBlock.cs:189-195 | a segment whose property and value are padded with spaces adds the trimmed pair |
| StyleBlockSpec.TrimmedAttributeExample | Foxy.Web.Styling.Tests/Styling/StyleDeclarationBlockTests.cs:89-102 | the `style` entry ` height : 200px ` adds `height:200px` |
| StyleBlockSpec.NullFieldExample | Foxy.Web.Styling.Tests/Styling/StyleDeclarationBlockTests.cs:135-146 | an object whose only property is null adds nothing and renders empty |
| StyleBlocks.StyleDeclarationBlock.constructor | Foxy.Web.Styling/StyleDeclarationBlock.cs:18-22 | an empty block on the given cache |
| StyleBlocks.StyleDeclarationBlock.HasStyle | Foxy.Web.Styling/StyleDeclarationBlock.cs:295-298 | true exactly when some declaration has the property; never for null |
| StyleBlocks.StyleDeclarationBlock.GetPropertyValue | Foxy.Web.Styling/StyleDeclarationBlock.cs:305-308 | a value exactly when `HasStyle`, and then that of the first declaration of the property |
| StyleBlocks.StyleDeclarationBlock.ToString | Foxy.Web.Styling/StyleDeclarationBlock.cs:316-319 | empty for an empty block; parsed back as a `style` entry, it gives the same declarations when they are trimmed and free of `:` and `;` |
| StyleBlocks.StyleDeclarationBlock.AddInner | Foxy.Web.Styling/StyleDeclarationBlock.cs:321-328 | the block and the outcome follow `AddStyle` |
| StyleBlocks.StyleDeclarationBlock.Add | Foxy.Web.Styling/StyleDeclarationBlock.cs:45-49 | `Add(string, string, bool)` follows `AddStyle` |
| StyleBlocks.StyleDeclarationBlock.AddProduced | Foxy.Web.Styling/StyleDeclarationBlock.cs:68-77 | a null value delegate throws `ArgumentNullException("value")`; otherwise its result is the value |
| StyleBlocks.StyleDeclarationBlock.AddPredicated | Foxy.Web.Styling/StyleDeclarationBlock.cs:96-105 | a null predicate throws `ArgumentNullException("predicate")`; otherwise its result is the condition |
| StyleBlocks.StyleDeclarationBlock.AddProducedPredicated | Foxy.Web.Styling/StyleDeclarationBlock.cs:124-138 | the value delegate is checked before the predicate, then `AddStyle` |
| StyleBlocks.StyleDeclarationBlock.AddEach | Foxy.Web.Styling/StyleDeclarationBlock.cs:153-156 | the loop over the declarations makes exactly `AddEntries` |
| StyleBlocks.StyleDeclarationBlock.AddBlock | Foxy.Web.Styling/StyleDeclarationBlock.cs:146-159 | null changes nothing; otherwise `AddEntries`, which appends all of the other block's declarations |
| StyleBlocks.StyleDeclarationBlock.AddAttributes | Foxy.Web.Styling/StyleDeclarationBlock.cs:170-200 | the loop over the segments makes exactly `AttributesStep` |
| StyleBlocks.StyleDeclarationBlock.CreateExtractor | Foxy.Web.Styling/StyleDeclarationBlock.cs:330-358 | the loop over the properties builds exactly `StyleExtractor` |
| StyleBlocks.StyleDeclarationBlock.RunExtractor | Foxy.Web.Styling/StyleDeclarationBlock.cs:343-353 | the compiled extractor's run makes exactly `AddFields` |
| StyleBlocks.StyleDeclarationBlock.AddObject | Foxy.Web.Styling/StyleDeclarationBlock.cs:215-227 | block and cache follow `ObjectStep`, and stay valid |
| StyleBlocks.StyleDeclarationBlock.AddMultiple | Foxy.Web.Styling/StyleDeclarationBlock.cs:235-288 | block and cache follow `ApplyAll`, and stay valid |
| CssBuilders.CacheRegistry.constructor | Foxy.Web.Styling/CssBuilder.cs:12-13 | the registry starts empty |
| CssBuilders.CacheRegistry.GetOrAdd | Foxy.Web.Styling/CssBuilder.cs:48-51 | a registered options object gets its existing cache; a new one gets a fresh empty cache; no other entry changes |
| CssBuilders.Usable | CommonLibraries.Core.Web/CssClassList.cs:21-36 | options the class-list constructor accepts: both converters set; `CssBuilder.Create` succeeds exactly on these |
| CssBuilders.CssBuilder.Init | Foxy.Web.Styling/CssBuilder.cs:24-28 | the default cache is the registry's cache for the options, created when missing |
| CssBuilders.CssBuilder.New | Foxy.Web.Styling/CssBuilder.cs:24-28 | null options throw `ArgumentNullException("options")` |
| CssBuilders.CssBuilder.Create | Foxy.Web.Styling/CssBuilder.cs:40-46 | null uses the builder's options and cache; other options get their own registered cache; succeeds exactly when both converters are set, with a fresh empty list |
| CssBuilders.CssBuilder.Index | Foxy.Web.Styling/CssBuilder.cs:31-37 | a fresh list on the builder's options and cache, after `AddMultiple` of the arguments |
| StyleBuilders.StyleBuilder.constructor | Foxy.Web.Styling/StyleBuilder.cs:15-18 | a fresh, empty cache |
| StyleBuilders.StyleBuilder.Create | Foxy.Web.Styling/StyleBuilder.cs:30-33 | a fresh, empty block on the shared cache |
| StyleBuilders.StyleBuilder.Index | Foxy.Web.Styling/StyleBuilder.cs:21-27 | a fresh block on the shared cache, after `AddMultiple` of the arguments |
| StyleBuilders.StyleBuilder.ClearCache | Foxy.Web.Styling/StyleBuilder.cs:38-41 | the shared cache is emptied |

## Left out

- Concurrency: `ConcurrentDictionary` is a sequential map. Two threads racing on one key may both run the factory, which the model does not show.
- Reflection and expression trees:
  - An object is a `Record`: its runtime type (`Shape`) and its property values.
  - A compiled extractor is the list of names it was built with.
  - Running it is a loop over the record's values.
- `char.IsUpper`, `char.ToLowerInvariant` and `char.IsWhiteSpace` cover ASCII only. Other letters and white space are not modelled.
- `object.ToString()` of arbitrary values:
  - A record's property values are `bool` or text, already converted.
  - An attribute dictionary's values are the strings their `ToString()` would give, or null.
- A converter that returns null or throws is not modelled: converters are total functions to strings.
- `StyleDeclaration` constructed directly with null components is not modelled. Declarations always hold strings.
- An object that is both an `IEnumerable<string>` and a dictionary, or matches more than one `AddMultiple` test: only the first matching branch is modelled, as an input variant.
- `StyleDeclarationBlock.AddMultiple` with a plain string falls through to `Add(object)` and adds the string's properties. This is not modelled.
- StyleBlocks.StyleDeclarationBlock.AddBlock: a block added to itself is excluded by `other != this`. So is `CssClassList.AddList` of itself. In the source, both would modify the list they are enumerating.
- StyleBlocks.StyleDeclarationBlock.AddMultiple and ClassLists.CssClassList.AddMultiple: the `Block` and `ClassList` argument variants carry a copy of the other object's declarations or classes, not a reference. So the model cannot express passing the object to its own `AddMultiple`.
  - In the source, `block.AddMultiple(block)` reaches the loop at StyleDeclarationBlock.cs:153-156. `list.AddMultiple(list)` reaches the loop at CssClassList.cs:208-211.
  - In both, the first append changes the list being enumerated. When the block is non-empty, or the class list is non-empty with deduplication off, the next step throws `InvalidOperationException` with one extra element left added.
  - The model would append every element again and pass.
- A null `params` array in `AddMultiple` is modelled as an empty one. Both return at once in the source.
- Evaluation order of cache factories:
  - The converter and the extractor factories are evaluated before the cache lookup, and their result is dropped on a hit.
  - They are pure, so the state and the outcome are the same as in the source.
  - The source may also skip a factory that would throw on a hit. The model does the same, since a hit never reads the factory's result.
- Declarations.GetHashCode: `string.GetHashCode` is a parameter. The model fixes no particular hash of strings.
- Dependency injection (`StylingServiceCollectionExtensions`), the `ICssBuilder` and `IStyleBuilder` interfaces and the delegate declarations are not modelled. They only wire the classes above together.
- The static `CssBuilder._caches` is a `CacheRegistry` object handed to each builder. Its keys compare options objects by reference, as the source's dictionary does.
- ClassListSpec.AttributesStep and StyleBlockSpec.AttributesStep take the dictionary's values as already-converted strings. The source's `style as string ?? style.ToString()` is not modelled beyond that.
- The `ArgumentException` thrown for a null or empty style property carries the parameter name `property`. The model keeps only the message: `Error.Argument` has no parameter-name field.
