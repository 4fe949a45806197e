/**
 * The attributes appended to a method declaration and the pragmas that
 * silence deprecation warnings around generated code.
 */
module Attributes {
  import opened Text
  import opened Ast

  // ---------------------------------------------------------------------
  // OBJC_METHOD_FAMILY_NONE (needsObjcMethodFamilyNoneAttribute)

  /**
   * A selector that starts with `new`, `copy`, `alloc`, `init` or
   * `mutableCopy` gets the attribute, so that clang does not infer a
   * method family from its name.
   */
  predicate NeedsObjcMethodFamilyNoneAttribute(name: string) {
    StartsWith(name, "new") || StartsWith(name, "copy") || StartsWith(name, "alloc")
    || StartsWith(name, "init") || StartsWith(name, "mutableCopy")
  }

  /** The selector without its leading underscores. */
  function DropUnderscores(s: string): (r: string)
    ensures |r| <= |s|
  {
    if s != [] && s[0] == '_' then DropUnderscores(s[1..]) else s
  }

  /**
   * `DropUnderscores` keeps a suffix of the selector that does not start
   * with `_`, and everything it cuts off the front is `_`.
   */
  lemma {:induction false} DropUnderscoresSuffix(s: string)
    ensures DropUnderscores(s) == s[|s| - |DropUnderscores(s)|..]
    ensures DropUnderscores(s) == [] || DropUnderscores(s)[0] != '_'
    ensures forall k :: 0 <= k < |s| - |DropUnderscores(s)| ==> s[k] == '_'
  {
    if s != [] && s[0] == '_' {
      DropUnderscoresSuffix(s[1..]);
      assert s[1..][|s| - 1 - |DropUnderscores(s)|..] == s[|s| - |DropUnderscores(s)|..];
      assert forall k :: 1 <= k < |s| - |DropUnderscores(s)| ==> s[k] == s[1..][k - 1];
    }
  }

  /** The first component of a selector: everything before its first colon. */
  function FirstComponent(selector: string): string {
    selector[..IndexOf(selector, ':')]
  }

  /**
   * The rule of section 5 of clang's Automatic Reference Counting
   * document: a selector is in a family when, ignoring leading underscores,
   * its first component is the family name or the family name followed by
   * a char that is not a lower-case letter.
   */
  predicate InFamily(selector: string, family: string) {
    var c := FirstComponent(DropUnderscores(selector));
    StartsWith(c, family) && (|c| == |family| || !('a' <= c[|family|] <= 'z'))
  }

  /** The five method families clang infers from a selector. */
  predicate InSomeMethodFamily(selector: string) {
    InFamily(selector, "alloc") || InFamily(selector, "copy") || InFamily(selector, "init")
    || InFamily(selector, "mutableCopy") || InFamily(selector, "new")
  }

  lemma FirstComponentIsPrefix(selector: string, family: string)
    requires StartsWith(FirstComponent(selector), family)
    ensures StartsWith(selector, family)
  {
    var c := FirstComponent(selector);
    assert selector[..|family|] == c[..|family|];
  }

  /**
   * Every selector that does not start with an underscore and that clang
   * would place in a method family gets the attribute.
   */
  lemma FamilyNoneCoversFamilies(selector: string)
    requires selector == [] || selector[0] != '_'
    requires InSomeMethodFamily(selector)
    ensures NeedsObjcMethodFamilyNoneAttribute(selector)
  {
    assert DropUnderscores(selector) == selector;
    if InFamily(selector, "alloc") {
      FirstComponentIsPrefix(selector, "alloc");
    } else if InFamily(selector, "copy") {
      FirstComponentIsPrefix(selector, "copy");
    } else if InFamily(selector, "init") {
      FirstComponentIsPrefix(selector, "init");
    } else if InFamily(selector, "mutableCopy") {
      FirstComponentIsPrefix(selector, "mutableCopy");
    } else {
      FirstComponentIsPrefix(selector, "new");
    }
  }

  /**
   * The prefix test is wider than clang's rule: `initialize` gets the
   * attribute although clang puts it in no family.
   */
  lemma FamilyNoneIsWider()
    ensures NeedsObjcMethodFamilyNoneAttribute("initialize")
    ensures !InSomeMethodFamily("initialize")
  {
    var s := "initialize";
    assert s[..4] == "init";
    assert s[0] == 'i' && ':' !in s;
    OwnFamily(s, "init");
    assert s[4] == 'i';
    OwnFamily(s, "alloc");
    FirstCharDiffers(s, "alloc");
    OwnFamily(s, "copy");
    FirstCharDiffers(s, "copy");
    OwnFamily(s, "mutableCopy");
    FirstCharDiffers(s, "mutableCopy");
    OwnFamily(s, "new");
    FirstCharDiffers(s, "new");
  }

  /** For a selector without underscores in front and without colons, the family rule is a prefix test. */
  lemma OwnFamily(s: string, family: string)
    requires s != [] && s[0] != '_' && ':' !in s
    ensures InFamily(s, family)
        <==> StartsWith(s, family) && (|s| == |family| || !('a' <= s[|family|] <= 'z'))
  {
    OwnFirstComponent(s);
  }

  /** A selector without underscores in front and without colons is its own first component. */
  lemma OwnFirstComponent(s: string)
    requires s != [] && s[0] != '_' && ':' !in s
    ensures FirstComponent(DropUnderscores(s)) == s
  {
    IndexOfAbsent(s, ':');
  }

  lemma FirstCharDiffers(s: string, prefix: string)
    requires s != [] && prefix != [] && s[0] != prefix[0]
    ensures !StartsWith(s, prefix)
  {
    if |prefix| <= |s| {
      assert s[..|prefix|][0] != prefix[0];
    }
  }

  /**
   * The prefix test does not skip leading underscores: clang puts
   * `_newObject` in the `new` family, and it gets no attribute.
   */
  lemma FamilyNoneMissesUnderscores()
    ensures InFamily("_newObject", "new")
    ensures !NeedsObjcMethodFamilyNoneAttribute("_newObject")
  {
    NewObjectInNewFamily();
    NewObjectUnprefixed();
  }

  /** With its leading underscore dropped, `_newObject` belongs to the `new` family. */
  lemma NewObjectInNewFamily()
    ensures InFamily("_newObject", "new")
  {
    var s := "_newObject";
    assert s[1..4] == "new";
    assert s[4] == 'O' && ':' !in s;
    UnderscoredFamily(s, "new");
  }

  /**
   * A selector with one underscore in front, no colon and the family name
   * next, followed by a char that is not a lower-case letter, is in the family.
   */
  lemma UnderscoredFamily(s: string, family: string)
    requires |s| > |family| + 1 && s[0] == '_' && family != [] && family[0] != '_'
    requires s[1..|family| + 1] == family && !('a' <= s[|family| + 1] <= 'z') && ':' !in s
    ensures InFamily(s, family)
  {
    var t := s[1..];
    assert t[0] == family[0];
    assert DropUnderscores(s) == t;
    assert ':' !in t by {
      forall k | 0 <= k < |t| ensures t[k] != ':' {
        assert t[k] == s[k + 1];
      }
    }
    IndexOfAbsent(t, ':');
    assert t[..|family|] == family;
  }

  /** `_newObject` starts with none of the family prefixes, so no attribute is asked for. */
  lemma NewObjectUnprefixed()
    ensures !NeedsObjcMethodFamilyNoneAttribute("_newObject")
  {
    var s := "_newObject";
    assert !StartsWith(s, "new") && !StartsWith(s, "copy") && !StartsWith(s, "alloc") by {
      FirstCharDiffers(s, "new");
      FirstCharDiffers(s, "copy");
      FirstCharDiffers(s, "alloc");
    }
    assert !StartsWith(s, "init") && !StartsWith(s, "mutableCopy") by {
      FirstCharDiffers(s, "init");
      FirstCharDiffers(s, "mutableCopy");
    }
  }

  lemma {:induction false} IndexOfAbsent(s: string, c: char)
    requires c !in s
    ensures IndexOf(s, c) == |s|
  {
    if s != [] {
      IndexOfAbsent(s[1..], c);
    }
  }

  // ---------------------------------------------------------------------
  // Deprecation (hasDeprecated, needsDeprecatedAttribute)

  const DeprecatedAttribute := "__attribute__((deprecated))"

  /**
   * An annotation names `Deprecated`: as `java.lang.Deprecated` when written
   * qualified, as `Deprecated` otherwise.
   */
  predicate IsDeprecatedAnnotation(a: Annotation) {
    a.fullyQualifiedName == (if a.isQualifiedName then "java.lang.Deprecated" else "Deprecated")
  }

  predicate AnnotatedDeprecated(annotations: seq<Annotation>) {
    exists i :: 0 <= i < |annotations| && IsDeprecatedAnnotation(annotations[i])
  }

  method HasDeprecated(annotations: seq<Annotation>) returns (b: bool)
    ensures b <==> AnnotatedDeprecated(annotations)
  {
    for i := 0 to |annotations|
      invariant forall j :: 0 <= j < i ==> !IsDeprecatedAnnotation(annotations[j])
    {
      var annotation := annotations[i];
      var expectedTypeName := if annotation.isQualifiedName then "java.lang.Deprecated" else "Deprecated";
      if expectedTypeName == annotation.fullyQualifiedName {
        return true;
      }
    }
    return false;
  }

  /** The attribute is generated only when deprecated declarations are generated at all. */
  predicate DeprecatedAttributeApplies(annotations: seq<Annotation>, generateDeprecated: bool) {
    generateDeprecated && AnnotatedDeprecated(annotations)
  }

  method NeedsDeprecatedAttribute(annotations: seq<Annotation>, generateDeprecated: bool) returns (b: bool)
    ensures b <==> generateDeprecated && exists i :: 0 <= i < |annotations| && IsDeprecatedAnnotation(annotations[i])
  {
    b := false;
    if generateDeprecated {
      b := HasDeprecated(annotations);
    }
  }

  /** Deprecation is found in a list exactly when it is found in one of its parts. */
  lemma AnnotatedDeprecatedAppend(a: seq<Annotation>, b: seq<Annotation>)
    ensures AnnotatedDeprecated(a + b) <==> AnnotatedDeprecated(a) || AnnotatedDeprecated(b)
  {
    if AnnotatedDeprecated(a + b) {
      var i :| 0 <= i < |a + b| && IsDeprecatedAnnotation((a + b)[i]);
      if i >= |a| {
        assert b[i - |a|] == (a + b)[i];
      }
    }
    if AnnotatedDeprecated(b) {
      var i :| 0 <= i < |b| && IsDeprecatedAnnotation(b[i]);
      assert (a + b)[|a| + i] == b[i];
    }
    if AnnotatedDeprecated(a) {
      var i :| 0 <= i < |a| && IsDeprecatedAnnotation(a[i]);
      assert (a + b)[i] == a[i];
    }
  }

  /**
   * Only the spelled name counts: a simple name `java.lang.Deprecated`
   * cannot occur, and a qualified `Deprecated` from another package is not
   * recognised.
   */
  lemma DeprecatedNameDependsOnQualification()
    ensures !IsDeprecatedAnnotation(Annotation(true, "Deprecated"))
    ensures IsDeprecatedAnnotation(Annotation(true, "java.lang.Deprecated"))
    ensures !IsDeprecatedAnnotation(Annotation(false, "java.lang.Deprecated"))
    ensures IsDeprecatedAnnotation(Annotation(false, "Deprecated"))
  {
    assert |"Deprecated"| != |"java.lang.Deprecated"|;
  }

  // ---------------------------------------------------------------------
  // The attribute suffix of a method declaration (printNormalMethodDeclaration)

  /**
   * ` OBJC_METHOD_FAMILY_NONE` for a non-synthetic method whose selector
   * needs it, then ` __attribute__((deprecated))` when the method is
   * deprecated and deprecation is generated.
   */
  function MethodAttributes(m: MethodDecl, selector: string, generateDeprecated: bool): string {
    (if !m.modifiers.isSynthetic && NeedsObjcMethodFamilyNoneAttribute(selector)
     then " OBJC_METHOD_FAMILY_NONE" else "")
    + (if DeprecatedAttributeApplies(m.annotations, generateDeprecated) then " " + DeprecatedAttribute else "")
  }

  /**
   * The suffix is empty exactly when neither attribute applies; it starts
   * with the family attribute exactly when that applies, and ends with the
   * deprecation attribute exactly when that applies.
   */
  lemma MethodAttributesShape(m: MethodDecl, selector: string, generateDeprecated: bool)
    ensures var r := MethodAttributes(m, selector, generateDeprecated);
      var family := !m.modifiers.isSynthetic && NeedsObjcMethodFamilyNoneAttribute(selector);
      var deprecated := DeprecatedAttributeApplies(m.annotations, generateDeprecated);
      && (r == "" <==> !family && !deprecated)
      && (StartsWith(r, " OBJC_METHOD_FAMILY_NONE") <==> family)
      && (EndsWith(r, " " + DeprecatedAttribute) <==> deprecated)
  {
    var family := !m.modifiers.isSynthetic && NeedsObjcMethodFamilyNoneAttribute(selector);
    var deprecated := DeprecatedAttributeApplies(m.annotations, generateDeprecated);
    var f := " OBJC_METHOD_FAMILY_NONE";
    var d := " " + DeprecatedAttribute;
    var r := MethodAttributes(m, selector, generateDeprecated);
    assert d == " __attribute__((deprecated))";
    if family && deprecated {
      assert r == f + d;
      assert r[..|f|] == f;
      assert r[|r| - |d|..] == d;
    } else if family {
      assert r == f;
      assert |r| < |d|;
    } else if deprecated {
      assert r == d;
      assert r[..|f|] != f by {
        assert r[1] == '_' && f[1] == 'O';
      }
    }
  }

  // ---------------------------------------------------------------------
  // Pragmas (push/popIgnoreDeprecatedDeclarationsPragma)

  const PushLine := "#pragma clang diagnostic push\n"
  const IgnoreDeprecatedLine := "#pragma GCC diagnostic ignored \"-Wdeprecated-declarations\"\n"
  const PushPragma := PushLine + IgnoreDeprecatedLine
  const PopPragma := "#pragma clang diagnostic pop\n"

  function PushIgnoreDeprecatedText(generateDeprecated: bool): string {
    if generateDeprecated then PushPragma else ""
  }

  function PopIgnoreDeprecatedText(generateDeprecated: bool): string {
    if generateDeprecated then PopPragma else ""
  }

  /**
   * The push and the pop come as a pair: both print when deprecated
   * declarations are generated, neither does otherwise; each ends with a
   * line break, so whatever follows starts on its own line.
   */
  lemma PragmasArePaired(generateDeprecated: bool)
    ensures PushIgnoreDeprecatedText(generateDeprecated) == "" <==> PopIgnoreDeprecatedText(generateDeprecated) == ""
    ensures PushIgnoreDeprecatedText(generateDeprecated) == "" <==> !generateDeprecated
    ensures generateDeprecated ==>
      && EndsWith(PushIgnoreDeprecatedText(generateDeprecated), "\n")
      && EndsWith(PopIgnoreDeprecatedText(generateDeprecated), "\n")
  {
    assert PushPragma[|PushPragma| - 1] == '\n';
    assert PopPragma[|PopPragma| - 1] == '\n';
  }
}
