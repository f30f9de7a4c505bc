/**
 * CssBuilderNamingConventions: the naming policies that turn a property name
 * or an enum member name into a css class (or style property) name.
 */
module Naming {
  import opened Reflection

  const Hyphen: char := '-'
  const Underscore: char := '_'

  /** char.IsUpper, restricted to ASCII letters. */
  predicate IsUpper(c: char) {
    'A' <= c <= 'Z'
  }

  /** char.ToLowerInvariant, restricted to ASCII letters. */
  function ToLower(c: char): (r: char)
    ensures !IsUpper(r)
    ensures IsUpper(c) ==> 'a' <= r <= 'z'
    ensures !IsUpper(c) ==> r == c
  {
    if IsUpper(c) then (c as int + 32) as char else c
  }

  /** The number of uppercase letters in `s`. */
  function UpperCount(s: string): nat {
    if |s| == 0 then 0 else (if IsUpper(s[0]) then 1 else 0) + UpperCount(s[1..])
  }

  /** What the kebab-case loop appends for character `c`; `atStart` says it is at index 0. */
  function Piece(c: char, atStart: bool, underscoreToHyphen: bool): string {
    if underscoreToHyphen && c == Underscore then [Hyphen]
    else if IsUpper(c) then (if atStart then [] else [Hyphen]) + [ToLower(c)]
    else [c]
  }

  /** The pieces of the characters of `s`, the first of them at index 0 when `atStart`. */
  function KebabFrom(s: string, atStart: bool, underscoreToHyphen: bool): string {
    if |s| == 0 then ""
    else Piece(s[0], atStart, underscoreToHyphen) + KebabFrom(s[1..], false, underscoreToHyphen)
  }

  /** What the kebab-case loop builds from `name`. */
  function Kebab(name: string, underscoreToHyphen: bool): string {
    KebabFrom(name, true, underscoreToHyphen)
  }

  lemma {:induction false} KebabFromAppend(a: string, b: string, atStart: bool, underscoreToHyphen: bool)
    ensures KebabFrom(a + b, atStart, underscoreToHyphen)
         == KebabFrom(a, atStart, underscoreToHyphen) + KebabFrom(b, atStart && |a| == 0, underscoreToHyphen)
    decreases |a|
  {
    if |a| == 0 {
      assert a + b == b;
    } else {
      assert (a + b)[1..] == a[1..] + b;
      KebabFromAppend(a[1..], b, false, underscoreToHyphen);
    }
  }

  /** The private KebabCase(string, bool): a StringBuilder filled character by character. */
  method KebabCaseLoop(name: string, underscoreToHyphen: bool) returns (r: string)
    ensures r == Kebab(name, underscoreToHyphen)
  {
    var builder := "";
    for i := 0 to |name|
      invariant builder == Kebab(name[..i], underscoreToHyphen)
    {
      assert name[..i + 1] == name[..i] + [name[i]];
      KebabFromAppend(name[..i], [name[i]], true, underscoreToHyphen);
      var ch := name[i];
      if underscoreToHyphen && ch == Underscore {
        builder := builder + [Hyphen];
      } else if IsUpper(ch) {
        if i > 0 {
          builder := builder + [Hyphen];
        }
        builder := builder + [ToLower(ch)];
      } else {
        builder := builder + [ch];
      }
    }
    assert name[..|name|] == name;
    r := builder;
  }

  /** string.Replace('_', '-'). */
  function ReplaceUnderscores(s: string): (r: string)
    ensures |r| == |s|
    ensures Underscore !in r
    ensures forall i :: 0 <= i < |s| && s[i] != Underscore ==> r[i] == s[i]
    ensures forall i :: 0 <= i < |s| && s[i] == Underscore ==> r[i] == Hyphen
  {
    if |s| == 0 then ""
    else [if s[0] == Underscore then Hyphen else s[0]] + ReplaceUnderscores(s[1..])
  }

  // The public conventions, for a property (PropertyInfo) and for an enum member.

  function None(info: PropertyInfo): (r: string)
    ensures r == info.name
  {
    info.name
  }

  function EnumNone(value: EnumValue): (r: string)
    ensures r == value.name
  {
    value.name
  }

  /** Underscores become hyphens; every other character is kept. */
  function UnderscoreToHyphen(info: PropertyInfo): (r: string)
    ensures |r| == |info.name| && Underscore !in r
    ensures forall i :: 0 <= i < |r| && info.name[i] != Underscore ==> r[i] == info.name[i]
  {
    ReplaceUnderscores(info.name)
  }

  function EnumUnderscoreToHyphen(value: EnumValue): (r: string)
    ensures |r| == |value.name| && Underscore !in r
    ensures forall i :: 0 <= i < |r| && value.name[i] != Underscore ==> r[i] == value.name[i]
  {
    ReplaceUnderscores(value.name)
  }

  /** Kebab case: no capital is left, and each capital after index 0 gains a hyphen. */
  function KebabCase(info: PropertyInfo): (r: string)
    ensures forall i :: 0 <= i < |r| ==> !IsUpper(r[i])
    ensures |r| == |info.name| + (if |info.name| == 0 then 0 else UpperCount(info.name[1..]))
  {
    KebabHasNoUpper(info.name, true, false);
    KebabLength(info.name, false);
    Kebab(info.name, false)
  }

  function EnumKebabCase(value: EnumValue): (r: string)
    ensures forall i :: 0 <= i < |r| ==> !IsUpper(r[i])
    ensures |r| == |value.name| + (if |value.name| == 0 then 0 else UpperCount(value.name[1..]))
  {
    KebabHasNoUpper(value.name, true, false);
    KebabLength(value.name, false);
    Kebab(value.name, false)
  }

  /** Kebab case followed by replacing underscores: neither capitals nor underscores are left. */
  function KebabCaseWithUnderscoreToHyphen(info: PropertyInfo): (r: string)
    ensures r == ReplaceUnderscores(KebabCase(info))
    ensures Underscore !in r && forall i :: 0 <= i < |r| ==> !IsUpper(r[i])
  {
    KebabHasNoUpper(info.name, true, true);
    KebabHasNoUnderscore(info.name, true);
    KebabUnderscoreToHyphen(info.name, true);
    Kebab(info.name, true)
  }

  function EnumKebabCaseWithUnderscoreToHyphen(value: EnumValue): (r: string)
    ensures r == ReplaceUnderscores(EnumKebabCase(value))
    ensures Underscore !in r && forall i :: 0 <= i < |r| ==> !IsUpper(r[i])
  {
    KebabHasNoUpper(value.name, true, true);
    KebabHasNoUnderscore(value.name, true);
    KebabUnderscoreToHyphen(value.name, true);
    Kebab(value.name, true)
  }

  // Properties of the kebab-case transform.

  /** Past index 0, every uppercase letter gains a hyphen; every other character keeps its length. */
  lemma {:induction false} KebabFromLength(s: string, underscoreToHyphen: bool)
    ensures |KebabFrom(s, false, underscoreToHyphen)| == |s| + UpperCount(s)
    decreases |s|
  {
    if |s| > 0 {
      KebabFromLength(s[1..], underscoreToHyphen);
    }
  }

  /** The output is the input plus one hyphen per uppercase letter after index 0. */
  lemma KebabLength(name: string, underscoreToHyphen: bool)
    ensures |Kebab(name, underscoreToHyphen)| == |name| + (if |name| == 0 then 0 else UpperCount(name[1..]))
  {
    if |name| > 0 {
      KebabFromLength(name[1..], underscoreToHyphen);
    }
  }

  /** No uppercase letter survives. */
  lemma {:induction false} KebabHasNoUpper(name: string, atStart: bool, underscoreToHyphen: bool)
    ensures forall i :: 0 <= i < |KebabFrom(name, atStart, underscoreToHyphen)| ==> !IsUpper(KebabFrom(name, atStart, underscoreToHyphen)[i])
    decreases |name|
  {
    if |name| > 0 {
      KebabHasNoUpper(name[1..], false, underscoreToHyphen);
    }
  }

  /** With underscore conversion on, no underscore survives. */
  lemma {:induction false} KebabHasNoUnderscore(name: string, atStart: bool)
    ensures Underscore !in KebabFrom(name, atStart, true)
    decreases |name|
  {
    if |name| > 0 {
      KebabHasNoUnderscore(name[1..], false);
    }
  }

  lemma ReplaceUnderscoresAppend(a: string, b: string)
    ensures ReplaceUnderscores(a + b) == ReplaceUnderscores(a) + ReplaceUnderscores(b)
  {
    var l, r := ReplaceUnderscores(a + b), ReplaceUnderscores(a) + ReplaceUnderscores(b);
    forall i | 0 <= i < |l| ensures l[i] == r[i] {
      if i < |a| {
        assert (a + b)[i] == a[i];
      } else {
        assert (a + b)[i] == b[i - |a|];
      }
    }
  }

  /**
   * The two kebab policies differ only in underscores: kebab case with
   * underscore conversion is kebab case followed by string.Replace('_', '-').
   */
  lemma {:induction false} KebabUnderscoreToHyphen(name: string, atStart: bool)
    ensures KebabFrom(name, atStart, true) == ReplaceUnderscores(KebabFrom(name, atStart, false))
    decreases |name|
  {
    if |name| > 0 {
      KebabUnderscoreToHyphen(name[1..], false);
      ReplaceUnderscoresAppend(Piece(name[0], atStart, false), KebabFrom(name[1..], false, false));
    }
  }

  /** Characters that are neither uppercase nor a converted underscore are copied verbatim. */
  lemma {:induction false} KebabFixpoint(name: string, atStart: bool, underscoreToHyphen: bool)
    requires forall i :: 0 <= i < |name| ==> !IsUpper(name[i])
    requires underscoreToHyphen ==> Underscore !in name
    ensures KebabFrom(name, atStart, underscoreToHyphen) == name
    decreases |name|
  {
    if |name| > 0 {
      KebabFixpoint(name[1..], false, underscoreToHyphen);
      assert [name[0]] + name[1..] == name;
    }
  }

  /** Kebab case is idempotent: converting its own output changes nothing. */
  lemma KebabIdempotent(name: string, underscoreToHyphen: bool)
    ensures Kebab(Kebab(name, underscoreToHyphen), underscoreToHyphen) == Kebab(name, underscoreToHyphen)
  {
    KebabHasNoUpper(name, true, underscoreToHyphen);
    if underscoreToHyphen {
      KebabHasNoUnderscore(name, true);
    }
    KebabFixpoint(Kebab(name, underscoreToHyphen), true, underscoreToHyphen);
  }

  // The worked examples of the tests, derived word by word.

  /** A capitalised word: its capital is lowercased, with a hyphen unless at index 0. */
  lemma CapitalisedWord(w: string, atStart: bool, underscoreToHyphen: bool)
    requires |w| > 0 && IsUpper(w[0])
    requires forall i :: 1 <= i < |w| ==> !IsUpper(w[i]) && w[i] != Underscore
    ensures KebabFrom(w, atStart, underscoreToHyphen) == (if atStart then "" else [Hyphen]) + [ToLower(w[0])] + w[1..]
  {
    KebabFixpoint(w[1..], false, underscoreToHyphen);
  }

  /** The words of a PascalCase name with one underscore, converted one by one. */
  lemma KebabWords(name: string, p: string, c: string, us: string, w: string, un: string, sc: string, underscoreToHyphen: bool)
    requires p == "Pascal" && c == "Case" && us == [Underscore] && w == "With" && un == "Under" && sc == "Score"
    requires name == p + c + us + w + un + sc
    ensures Kebab(name, underscoreToHyphen)
         == KebabFrom(p, true, underscoreToHyphen) + KebabFrom(c, false, underscoreToHyphen)
          + KebabFrom(us, false, underscoreToHyphen) + KebabFrom(w, false, underscoreToHyphen)
          + KebabFrom(un, false, underscoreToHyphen) + KebabFrom(sc, false, underscoreToHyphen)
  {
    var u := underscoreToHyphen;
    KebabFromAppend(p + c + us + w + un, sc, true, u);
    KebabFromAppend(p + c + us + w, un, true, u);
    KebabFromAppend(p + c + us, w, true, u);
    KebabFromAppend(p + c, us, true, u);
    KebabFromAppend(p, c, true, u);
  }

  /** Joins the converted words into the expected literal. */
  lemma JoinWords(a: string, b: string, c: string, d: string, e: string, f: string, underscoreToHyphen: bool)
    requires a == "pascal" && b == "-case" && c == (if underscoreToHyphen then "-" else "_")
    requires d == "-with" && e == "-under" && f == "-score"
    ensures a + b + c + d + e + f == (if underscoreToHyphen then "pascal-case--with-under-score" else "pascal-case_-with-under-score")
  {
  }

  lemma KebabOfSample(name: string, p: string, c: string, us: string, w: string, un: string, sc: string, underscoreToHyphen: bool)
    requires p == "Pascal" && c == "Case" && us == [Underscore] && w == "With" && un == "Under" && sc == "Score"
    requires name == p + c + us + w + un + sc
    ensures Kebab(name, underscoreToHyphen)
         == (if underscoreToHyphen then "pascal-case--with-under-score" else "pascal-case_-with-under-score")
  {
    var u := underscoreToHyphen;
    KebabWords(name, p, c, us, w, un, sc, u);
    PascalWord(p, u);
    CaseWord(c, u);
    assert KebabFrom(us, false, u) == (if u then "-" else "_");
    WithWord(w, u);
    UnderWord(un, u);
    ScoreWord(sc, u);
    JoinWords(KebabFrom(p, true, u), KebabFrom(c, false, u), KebabFrom(us, false, u),
              KebabFrom(w, false, u), KebabFrom(un, false, u), KebabFrom(sc, false, u), u);
  }

  /** A capitalised word given as its capital and the rest converts to the literal `r`. */
  lemma WordExample(w: string, head: char, tail: string, lower: char, atStart: bool, underscoreToHyphen: bool, r: string)
    requires w == [head] + tail && IsUpper(head) && lower == ToLower(head)
    requires forall i :: 0 <= i < |tail| ==> 'a' <= tail[i] <= 'z'
    requires r == (if atStart then "" else [Hyphen]) + [lower] + tail
    ensures KebabFrom(w, atStart, underscoreToHyphen) == r
  {
    CapitalisedWord(w, atStart, underscoreToHyphen);
    assert w[1..] == tail;
  }

  // The capitalised words of the sample names, one literal per lemma.

  lemma PascalWord(w: string, u: bool)
    requires w == "Pascal"
    ensures KebabFrom(w, true, u) == "pascal"
  {
    WordExample(w, 'P', "ascal", 'p', true, u, "pascal");
  }

  lemma CaseWord(w: string, u: bool)
    requires w == "Case"
    ensures KebabFrom(w, false, u) == "-case"
  {
    WordExample(w, 'C', "ase", 'c', false, u, "-case");
  }

  lemma WithWord(w: string, u: bool)
    requires w == "With"
    ensures KebabFrom(w, false, u) == "-with"
  {
    WordExample(w, 'W', "ith", 'w', false, u, "-with");
  }

  lemma UnderWord(w: string, u: bool)
    requires w == "Under"
    ensures KebabFrom(w, false, u) == "-under"
  {
    WordExample(w, 'U', "nder", 'u', false, u, "-under");
  }

  lemma ScoreWord(w: string, u: bool)
    requires w == "Score"
    ensures KebabFrom(w, false, u) == "-score"
  {
    WordExample(w, 'S', "core", 's', false, u, "-score");
  }

  lemma JoinHyphen(a: string, b: string, r: string)
    requires a == "PascalCase" && b == "WithUnderScore" && r == a + [Hyphen] + b
    ensures r == "PascalCase-WithUnderScore"
  {
  }

  lemma ReplaceUnderscoresOfPlain(s: string)
    requires Underscore !in s
    ensures ReplaceUnderscores(s) == s
  {
  }

  // The four conventions on the property and enum member "PascalCase_WithUnderScore".

  lemma NoneExample(info: PropertyInfo, value: EnumValue)
    requires info.name == "PascalCase_WithUnderScore" && value.name == info.name
    ensures None(info) == "PascalCase_WithUnderScore" && EnumNone(value) == "PascalCase_WithUnderScore"
  {
  }

  lemma ReplaceOfSample(name: string, a: string, b: string)
    requires a == "PascalCase" && b == "WithUnderScore" && name == a + [Underscore] + b
    ensures ReplaceUnderscores(name) == "PascalCase-WithUnderScore"
  {
    ReplaceUnderscoresAppend(a + [Underscore], b);
    ReplaceUnderscoresAppend(a, [Underscore]);
    ReplaceUnderscoresOfPlain(a);
    ReplaceUnderscoresOfPlain(b);
    JoinHyphen(a, b, ReplaceUnderscores(name));
  }

  /** The sample name as its two underscore-separated halves. */
  lemma SampleHalves(name: string)
    requires name == "PascalCase_WithUnderScore"
    ensures name == "PascalCase" + [Underscore] + "WithUnderScore"
  {
  }

  /** The sample name as its words and its underscore. */
  lemma SampleWords(name: string)
    requires name == "PascalCase_WithUnderScore"
    ensures name == "Pascal" + "Case" + [Underscore] + "With" + "Under" + "Score"
  {
  }

  lemma UnderscoreToHyphenExample(info: PropertyInfo, value: EnumValue)
    requires info.name == "PascalCase_WithUnderScore" && value.name == info.name
    ensures UnderscoreToHyphen(info) == "PascalCase-WithUnderScore"
    ensures EnumUnderscoreToHyphen(value) == "PascalCase-WithUnderScore"
  {
    SampleHalves(info.name);
    ReplaceOfSample(info.name, "PascalCase", "WithUnderScore");
  }

  lemma KebabCaseExample(info: PropertyInfo, value: EnumValue)
    requires info.name == "PascalCase_WithUnderScore" && value.name == info.name
    ensures KebabCase(info) == "pascal-case_-with-under-score"
    ensures EnumKebabCase(value) == "pascal-case_-with-under-score"
  {
    SampleWords(info.name);
    KebabOfSample(info.name, "Pascal", "Case", [Underscore], "With", "Under", "Score", false);
  }

  lemma KebabCaseWithUnderscoreToHyphenExample(info: PropertyInfo, value: EnumValue)
    requires info.name == "PascalCase_WithUnderScore" && value.name == info.name
    ensures KebabCaseWithUnderscoreToHyphen(info) == "pascal-case--with-under-score"
    ensures EnumKebabCaseWithUnderscoreToHyphen(value) == "pascal-case--with-under-score"
  {
    SampleWords(info.name);
    KebabOfSample(info.name, "Pascal", "Case", [Underscore], "With", "Under", "Score", true);
  }

  // The style property names of the record tests: a vendor prefix and an enum member.

  lemma JoinPrefixed(a: string, b: string, c: string)
    requires a == "-" && b == "webkit" && c == "-transition"
    ensures a + b + c == "-webkit-transition"
  {
  }

  lemma KebabOfPrefixed(name: string, us: string, w: string, t: string)
    requires us == [Underscore] && w == "webkit" && t == "Transition" && name == us + w + t
    ensures Kebab(name, true) == "-webkit-transition"
  {
    KebabFromAppend(us + w, t, true, true);
    KebabFromAppend(us, w, true, true);
    KebabFixpoint(w, false, true);
    assert t == ['T'] + "ransition";
    CapitalisedWord(t, false, true);
    assert KebabFrom(us, true, true) == "-";
    JoinPrefixed(KebabFrom(us, true, true), KebabFrom(w, false, true), KebabFrom(t, false, true));
  }

  /** A leading underscore becomes the hyphen of a vendor prefix: "_webkitTransition" names "-webkit-transition". */
  lemma VendorPrefixExample(info: PropertyInfo)
    requires info.name == "_webkitTransition"
    ensures KebabCaseWithUnderscoreToHyphen(info) == "-webkit-transition"
  {
    assert info.name == [Underscore] + "webkit" + "Transition";
    KebabOfPrefixed(info.name, [Underscore], "webkit", "Transition");
  }

  lemma JoinRepeated(a: string, b: string, c: string, d: string)
    requires a == "name" && b == "-name" && c == "-" && d == "name"
    ensures a + b + c + d == "name-name-name"
  {
  }

  lemma KebabOfRepeated(name: string, n1: string, n2: string, us: string, n3: string)
    requires n1 == "Name" && n2 == "Name" && us == [Underscore] && n3 == "name" && name == n1 + n2 + us + n3
    ensures Kebab(name, true) == "name-name-name"
  {
    KebabFromAppend(n1 + n2 + us, n3, true, true);
    KebabFromAppend(n1 + n2, us, true, true);
    KebabFromAppend(n1, n2, true, true);
    assert n1 == ['N'] + "ame";
    CapitalisedWord(n1, true, true);
    CapitalisedWord(n2, false, true);
    assert KebabFrom(us, false, true) == "-";
    KebabFixpoint(n3, false, true);
    JoinRepeated(KebabFrom(n1, true, true), KebabFrom(n2, false, true), KebabFrom(us, false, true), KebabFrom(n3, false, true));
  }

  /** The enum member (and property) "NameName_name" names "name-name-name". */
  lemma RepeatedNameExample(info: PropertyInfo, value: EnumValue)
    requires info.name == "NameName_name" && value.name == info.name
    ensures KebabCaseWithUnderscoreToHyphen(info) == "name-name-name"
    ensures EnumKebabCaseWithUnderscoreToHyphen(value) == "name-name-name"
  {
    assert info.name == "Name" + "Name" + [Underscore] + "name";
    KebabOfRepeated(info.name, "Name", "Name", [Underscore], "name");
  }
}
