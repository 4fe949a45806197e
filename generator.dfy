/**
 * The generator itself: an output sink that the print methods append to,
 * and the dispatch to the hooks a concrete header or source generator
 * implements.
 */
module Generator {
  import opened Text
  import opened Ast
  import opened Declarations
  import opened DocComments
  import opened Attributes
  import opened Fields

  /**
   * A call into one of the hooks that concrete generators implement; the
   * model records each call in order instead of running it.
   */
  datatype HookCall =
    | GenerateType(kind: TypeDeclKind)
    | PrintConstructor(ctor: MethodDecl)
    | PrintNormalMethod(normal: MethodDecl)
    | PrintNativeDeclaration(native: NativeDecl)
    | PrintFunction(func: FunctionDecl)

  /** `printMethod`: constructors and other methods go to different hooks. */
  function MethodHook(m: MethodDecl): HookCall {
    if m.isConstructor then PrintConstructor(m) else PrintNormalMethod(m)
  }

  /** `printDeclaration`: the hook a body declaration is handed to, if any. */
  function DeclarationHook(d: BodyDecl): seq<HookCall> {
    match d
    case MethodDeclaration(m) => [MethodHook(m)]
    case NativeDeclaration(n) => [PrintNativeDeclaration(n)]
    case _ => []
  }

  /** The hook calls `printDeclarations` makes, in order. */
  function DeclarationHooks(ds: seq<BodyDecl>): seq<HookCall> {
    if ds == [] then [] else DeclarationHooks(ds[..|ds| - 1]) + DeclarationHook(ds[|ds| - 1])
  }

  /** The hook calls `printFunctions` makes, in order. */
  function FunctionHooks(ds: seq<BodyDecl>): seq<HookCall> {
    if ds == [] then []
    else
      var d := ds[|ds| - 1];
      FunctionHooks(ds[..|ds| - 1]) + (if d.FunctionDeclaration? then [PrintFunction(d.functionDecl)] else [])
  }

  class ObjectiveCSourceFileGenerator {
    /** Everything printed so far. */
    var output: string
    /** The hook calls made so far. */
    var hooks: seq<HookCall>

    /** The `-hide-private-members` option. */
    const hidePrivateMembers: bool
    /** The option that asks for deprecation attributes and pragmas. */
    const generateDeprecatedDeclarations: bool
    /** The sentence-boundary service used for `@brief`. */
    const sentenceEnd: string -> Option<nat>

    ghost predicate Valid() {
      ValidSentenceBreaker(sentenceEnd)
    }

    constructor(hidePrivateMembers: bool, generateDeprecatedDeclarations: bool, sentenceEnd: string -> Option<nat>)
      requires ValidSentenceBreaker(sentenceEnd)
      ensures Valid()
      ensures output == "" && hooks == []
      ensures this.hidePrivateMembers == hidePrivateMembers
      ensures this.generateDeprecatedDeclarations == generateDeprecatedDeclarations
      ensures this.sentenceEnd == sentenceEnd
    {
      this.hidePrivateMembers := hidePrivateMembers;
      this.generateDeprecatedDeclarations := generateDeprecatedDeclarations;
      this.sentenceEnd := sentenceEnd;
      output := "";
      hooks := [];
    }

    // -------------------------------------------------------------------
    // The output sink

    method Print(s: string)
      modifies this`output
      ensures output == old(output) + s
    {
      output := output + s;
    }

    method Println(s: string)
      modifies this`output
      ensures output == old(output) + s + "\n"
    {
      output := output + s + "\n";
    }

    method Newline()
      modifies this`output
      ensures output == old(output) + "\n"
    {
      output := output + "\n";
    }

    // -------------------------------------------------------------------
    // Dispatch

    /** `generate`: one hook call for the kind of the type declaration. */
    method Generate(kind: TypeDeclKind)
      modifies this`hooks
      ensures hooks == old(hooks) + [GenerateType(kind)]
    {
      match kind
      case ClassDeclaration => hooks := hooks + [GenerateType(ClassDeclaration)];
      case EnumDeclaration => hooks := hooks + [GenerateType(EnumDeclaration)];
      case AnnotationTypeDeclaration => hooks := hooks + [GenerateType(AnnotationTypeDeclaration)];
    }

    method PrintMethod(m: MethodDecl)
      modifies this`hooks
      ensures hooks == old(hooks) + [MethodHook(m)]
      ensures hooks[|hooks| - 1].PrintConstructor? <==> m.isConstructor
    {
      if m.isConstructor {
        hooks := hooks + [PrintConstructor(m)];
      } else {
        hooks := hooks + [PrintNormalMethod(m)];
      }
    }

    method PrintDeclaration(d: BodyDecl)
      modifies this`hooks
      ensures hooks == old(hooks) + DeclarationHook(d)
    {
      match d
      case MethodDeclaration(m) =>
        PrintMethod(m);
      case NativeDeclaration(n) =>
        hooks := hooks + [PrintNativeDeclaration(n)];
      case _ =>
    }

    method PrintDeclarations(ds: seq<BodyDecl>)
      modifies this`hooks
      ensures hooks == old(hooks) + DeclarationHooks(ds)
    {
      for i := 0 to |ds|
        invariant hooks == old(hooks) + DeclarationHooks(ds[..i])
      {
        PrintDeclaration(ds[i]);
        assert ds[..i + 1][..i] == ds[..i];
      }
      assert ds[..|ds|] == ds;
    }

    method PrintFunctions(ds: seq<BodyDecl>)
      modifies this`hooks
      ensures hooks == old(hooks) + FunctionHooks(ds)
    {
      for i := 0 to |ds|
        invariant hooks == old(hooks) + FunctionHooks(ds[..i])
      {
        if ds[i].FunctionDeclaration? {
          hooks := hooks + [PrintFunction(ds[i].functionDecl)];
        }
        assert ds[..i + 1][..i] == ds[..i];
      }
      assert ds[..|ds|] == ds;
    }

    // -------------------------------------------------------------------
    // Doc comments

    method PrintDocLine(line: string)
      modifies this`output
      ensures output == old(output) + DocLine(line)
    {
      Print(" ");
      Println(line);
    }

    method PrintDocComment(javadoc: Option<Javadoc>)
      requires Valid()
      modifies this`output
      ensures output == old(output) + DocCommentText(javadoc, sentenceEnd)
    {
      if javadoc.Some? {
        var tags := javadoc.value.tags;
        ghost var start := output;
        Println("/**");
        ghost var head := output;
        for i := 0 to |tags|
          invariant output == head + DocBody(DocLines(tags[..i], sentenceEnd))
        {
          ghost var lines := DocLines(tags[..i], sentenceEnd);
          var tag := tags[i];
          PrintTag(tag);
          assert output == head + DocBody(lines) + DocBody(TagLines(tag, sentenceEnd));
          assert DocLines(tags[..i + 1], sentenceEnd) == lines + TagLines(tag, sentenceEnd) by {
            assert tags[..i + 1][..i] == tags[..i] && tags[..i + 1][i] == tag;
          }
          DocBodyAppend(lines, TagLines(tag, sentenceEnd));
          ConcatAssoc(head, DocBody(lines), DocBody(TagLines(tag, sentenceEnd)));
        }
        assert tags[..|tags|] == tags;
        ghost var body := DocBody(DocLines(tags, sentenceEnd));
        Println(" */");
        CommentFrame(start, body);
      } else {
        ConcatEmpty(output);
      }
    }

    /** The lines of one tag, the body of the loop in `printDocComment`. */
    method PrintTag(tag: Tag)
      requires Valid()
      modifies this`output
      ensures output == old(output) + DocBody(TagLines(tag, sentenceEnd))
    {
      if tag.tagName.None? {
        var description := PrintTagFragments(tag.fragments);
        PrintDescription(description);
      } else {
        var doc := PrintJavadocTag(tag.tagName.value, tag.fragments);
        if doc != "" {
          PrintDocLine(doc);
          DocBodySingle(doc);
        }
      }
    }

    /** The description section: a `@brief` line and the rest, or the whole text. */
    method PrintDescription(description: string)
      requires Valid()
      modifies this`output
      ensures output == old(output) + DocBody(DescriptionLines(description, sentenceEnd))
    {
      var end := sentenceEnd(description);
      if end.Some? {
        var brief := "@brief " + Trim(description[..end.value]);
        PrintDocLine(brief);
        var remainder := Trim(description[end.value..]);
        if remainder != "" {
          PrintDocLine(remainder);
          DocBodyPair(brief, remainder);
        } else {
          DocBodySingle(brief);
        }
      } else {
        PrintDocLine(Trim(description));
        DocBodySingle(Trim(description));
      }
    }

    // -------------------------------------------------------------------
    // Method declarations

    method PrintNormalMethodDeclaration(m: MethodDecl)
      requires Valid()
      requires !m.isConstructor
      requires SelectorFitsParams(m.params, m.selector)
      modifies this`output
      ensures output == old(output) + "\n" + DocCommentText(m.javadoc, sentenceEnd)
                        + DeclarationText(m, m.selector) + MethodAttributes(m, m.selector, generateDeprecatedDeclarations) + ";\n"
    {
      Newline();
      PrintDocComment(m.javadoc);
      var declaration := ConstructMethodDeclaration(m, m.selector);
      Print(declaration);
      PrintMethodAttributes(m);
      ghost var beforeSemicolon := output;
      Println(";");
      Terminated(beforeSemicolon);
    }

    /** The attribute part of `printNormalMethodDeclaration`. */
    method PrintMethodAttributes(m: MethodDecl)
      modifies this`output
      ensures output == old(output) + MethodAttributes(m, m.selector, generateDeprecatedDeclarations)
    {
      ghost var head := output;
      var methodName := m.selector;
      ghost var family := "";
      if !m.modifiers.isSynthetic && NeedsObjcMethodFamilyNoneAttribute(methodName) {
        Print(" OBJC_METHOD_FAMILY_NONE");
        family := " OBJC_METHOD_FAMILY_NONE";
      } else {
        ConcatEmpty(output);
      }
      ghost var deprecatedSuffix := "";
      var deprecated := NeedsDeprecatedAttribute(m.annotations, generateDeprecatedDeclarations);
      if deprecated {
        Print(" " + DeprecatedAttribute);
        deprecatedSuffix := " " + DeprecatedAttribute;
      } else {
        ConcatEmpty(output);
      }
      ConcatAssoc(head, family, deprecatedSuffix);
    }

    method PushIgnoreDeprecatedDeclarationsPragma()
      modifies this`output
      ensures output == old(output) + PushIgnoreDeprecatedText(generateDeprecatedDeclarations)
    {
      if generateDeprecatedDeclarations {
        Print(PushLine);
        Print(IgnoreDeprecatedLine);
      }
    }

    method PopIgnoreDeprecatedDeclarationsPragma()
      modifies this`output
      ensures output == old(output) + PopIgnoreDeprecatedText(generateDeprecatedDeclarations)
    {
      if generateDeprecatedDeclarations {
        Print("#pragma clang diagnostic pop\n");
      }
    }

    // -------------------------------------------------------------------
    // Instance variables and setters

    method PrintInstanceVariables(fields: seq<FieldDecl>, privateVars: bool)
      requires Valid()
      requires ShownHaveFragments(fields, hidePrivateMembers, privateVars)
      modifies this`output
      ensures output == old(output) + InstanceVariablesText(fields, hidePrivateMembers, privateVars, sentenceEnd)
    {
      ghost var start := output;
      ghost var shown: seq<FieldDecl> := [];
      ConcatEmpty(start);
      var first := true;
      for i := 0 to |fields|
        invariant shown == ShownFields(fields[..i], hidePrivateMembers, privateVars)
        invariant first <==> shown == []
        invariant output == start + PublicBlock(shown, sentenceEnd)
      {
        first, shown := PrintInstanceVariableIfShown(fields, i, privateVars, start, shown, first);
      }
      assert fields[..|fields|] == fields;
    }

    /** The body of the loop in `printInstanceVariables`: the field statement `fields[i]` when the view shows it. */
    method PrintInstanceVariableIfShown(fields: seq<FieldDecl>, i: nat, privateVars: bool, ghost start: string,
                                        ghost shown: seq<FieldDecl>, first: bool)
      returns (nowFirst: bool, ghost nowShown: seq<FieldDecl>)
      requires Valid()
      requires ShownHaveFragments(fields, hidePrivateMembers, privateVars)
      requires i < |fields|
      requires shown == ShownFields(fields[..i], hidePrivateMembers, privateVars)
      requires first <==> shown == []
      requires output == start + PublicBlock(shown, sentenceEnd)
      modifies this`output
      ensures nowShown == ShownFields(fields[..i + 1], hidePrivateMembers, privateVars)
      ensures nowFirst <==> nowShown == []
      ensures output == start + PublicBlock(nowShown, sentenceEnd)
    {
      var field := fields[i];
      ShownStep(fields, i, hidePrivateMembers, privateVars, shown);
      // not static, and either every variable is printed or the privacy matches the view
      if ShowsInstanceVariable(field, hidePrivateMembers, privateVars) {
        assert field in fields;
        nowFirst := PrintShownInstanceVariable(field, start, shown, first);
        nowShown := shown + [field];
      } else {
        nowFirst, nowShown := first, shown;
      }
    }

    /**
     * A shown field statement: ` @public` before the first one, then its
     * declaration.
     */
    method PrintShownInstanceVariable(field: FieldDecl, ghost start: string, ghost shown: seq<FieldDecl>, first: bool)
      returns (nowFirst: bool)
      requires Valid()
      requires field.fragments != []
      requires first <==> shown == []
      requires output == start + PublicBlock(shown, sentenceEnd)
      modifies this`output
      ensures !nowFirst
      ensures output == start + PublicBlock(shown + [field], sentenceEnd)
    {
      ghost var marker := "";
      if first {
        ghost var before := output;
        Println(" @public");
        PublicLine(before);
        marker := " @public\n";
      } else {
        ConcatEmpty(output);
      }
      nowFirst := false;
      PrintInstanceVariable(field);
      PublicBlockStep(start, shown, marker, field, sentenceEnd);
    }

    /** One shown field statement, the body of the loop in `printInstanceVariables`. */
    method PrintInstanceVariable(field: FieldDecl)
      requires Valid()
      requires field.fragments != []
      modifies this`output
      ensures output == old(output) + InstanceVariableText(field, sentenceEnd)
    {
      ghost var start := output;
      PrintDocComment(field.javadoc);
      PrintVariableDeclaration(field);
      ConcatAssoc(start, DocCommentText(field.javadoc, sentenceEnd), VariableDeclarationText(field));
    }

    /** The statement after the doc comment: `__weak` when the first variable is weak, the type, the declarators and `;`. */
    method PrintVariableDeclaration(field: FieldDecl)
      requires field.fragments != []
      modifies this`output
      ensures output == old(output) + VariableDeclarationText(field)
    {
      ghost var start := output;
      var vars := field.fragments;
      ghost var weak := "";
      if vars[0].isWeak {
        Print("__weak ");
        weak := "__weak ";
      } else {
        ConcatEmpty(output);
      }
      var objcType := field.specificObjCType;
      var needsAsterisk := !field.varTypeIsPrimitive && !IsIdType(objcType);
      if needsAsterisk && EndsWith(objcType, " *") {
        objcType := objcType[..|objcType| - 2];
      }
      Print(objcType);
      Print(" ");
      PrintDeclarators(field, needsAsterisk);
      ghost var beforeSemicolon := output;
      Println(";");
      Terminated(beforeSemicolon);
      Regroup(start, weak, objcType, " ", Join(Declarators(field, vars), ", "), ";\n");
    }

    /** The variables of a field statement, separated by `, `: the inner loop of `printInstanceVariables`. */
    method PrintDeclarators(field: FieldDecl, needsAsterisk: bool)
      requires needsAsterisk == NeedsAsterisk(field)
      modifies this`output
      ensures output == old(output) + Join(Declarators(field, field.fragments), ", ")
    {
      ghost var start := output;
      ghost var printed := "";
      ConcatEmpty(start);
      var vars := field.fragments;
      for j := 0 to |vars|
        invariant output == start + printed
        invariant printed == Join(Declarators(field, vars[..j]), ", ") + (if 0 < j < |vars| then ", " else "")
      {
        ghost var done := Declarators(field, vars[..j]);
        ghost var star := if needsAsterisk then "*" else "";
        if needsAsterisk {
          Print("*");
        } else {
          ConcatEmpty(output);
        }
        assert output == start + (printed + star) by {
          ConcatAssoc(start, printed, star);
        }
        printed := printed + star;
        Print(vars[j].objcName);
        assert output == start + (printed + vars[j].objcName) by {
          ConcatAssoc(start, printed, vars[j].objcName);
        }
        printed := printed + vars[j].objcName;
        ghost var sep := if j + 1 < |vars| then ", " else "";
        if j + 1 < |vars| {
          Print(", ");
        } else {
          ConcatEmpty(output);
        }
        assert output == start + (printed + sep) by {
          ConcatAssoc(start, printed, sep);
        }
        printed := printed + sep;
        DeclaratorsStep(field, vars, j, done, star, sep);
      }
      assert vars[..|vars|] == vars;
    }

    method PrintFieldSetters(className: string, fields: seq<FieldDecl>, privateVars: bool)
      modifies this`output
      ensures output == old(output) + FieldSettersText(className, fields, hidePrivateMembers, privateVars)
    {
      ghost var start := output;
      ConcatEmpty(start);
      var newlinePrinted := false;
      var printAllVars := !hidePrivateMembers && !privateVars;
      for i := 0 to |fields|
        invariant newlinePrinted <==> SetterLines(className, fields[..i], hidePrivateMembers, privateVars) != []
        invariant output == start + SetterBlock(SetterLines(className, fields[..i], hidePrivateMembers, privateVars))
      {
        var field := fields[i];
        SetterLinesSnoc(className, fields, i, hidePrivateMembers, privateVars);
        var modifiers := field.modifiers;
        if modifiers.isStatic || field.declaredTypeIsPrimitive
          || (!printAllVars && (modifiers.isPrivate || modifiers.isSynthetic) != privateVars)
        {
          assert !NeedsFieldSetters(field, hidePrivateMembers, privateVars);
          assert SetterLines(className, fields[..i], hidePrivateMembers, privateVars) + []
              == SetterLines(className, fields[..i], hidePrivateMembers, privateVars);
          continue;
        }
        assert NeedsFieldSetters(field, hidePrivateMembers, privateVars);
        newlinePrinted := PrintVarSetters(className, field, start,
                                          SetterLines(className, fields[..i], hidePrivateMembers, privateVars),
                                          newlinePrinted);
      }
      assert fields[..|fields|] == fields;
    }

    /**
     * The setters of one field statement, the inner loop of
     * `printFieldSetters`: one line per variable that is not weak, the
     * first line of the whole view preceded by an empty line.
     */
    method PrintVarSetters(className: string, field: FieldDecl, ghost start: string,
                           ghost linesBefore: seq<string>, newlinePrinted: bool)
      returns (nowPrinted: bool)
      requires newlinePrinted <==> linesBefore != []
      requires output == start + SetterBlock(linesBefore)
      modifies this`output
      ensures nowPrinted <==> linesBefore + VarSetterLines(className, field, field.fragments) != []
      ensures output == start + SetterBlock(linesBefore + VarSetterLines(className, field, field.fragments))
    {
      nowPrinted := newlinePrinted;
      var vars := field.fragments;
      ghost var lines := linesBefore;
      assert linesBefore + [] == linesBefore;
      for j := 0 to |vars|
        invariant lines == linesBefore + VarSetterLines(className, field, vars[..j])
        invariant nowPrinted <==> lines != []
        invariant output == start + SetterBlock(lines)
      {
        if !vars[j].isWeak {
          ghost var line := SetterLine(className, field, vars[j]);
          nowPrinted := PrintSetter(className, field, vars[j], start, lines, nowPrinted);
          VarSetterStep(className, field, vars, j, linesBefore, lines);
          lines := lines + [line];
        } else {
          VarSetterStep(className, field, vars, j, linesBefore, lines);
        }
      }
      assert vars[..|vars|] == vars;
    }

    /** One setter line, preceded by an empty line when it is the first of the view. */
    method PrintSetter(className: string, field: FieldDecl, v: VarFragment, ghost start: string,
                       ghost done: seq<string>, newlinePrinted: bool)
      returns (nowPrinted: bool)
      requires newlinePrinted <==> done != []
      requires output == start + SetterBlock(done)
      modifies this`output
      ensures nowPrinted
      ensures output == start + SetterBlock(done + [SetterLine(className, field, v)])
    {
      ghost var lead := "";
      if !newlinePrinted {
        Newline();
        lead := "\n";
      } else {
        ConcatEmpty(output);
      }
      nowPrinted := true;
      var line := "J2OBJC_FIELD_SETTER(" + className + ", " + v.objcName + ", " + field.objcType + ")";
      Println(line);
      SetterBlockStep(start, done, lead, line);
    }
  }

  /** A variable adds its setter line to the lines so far, unless it is weak. */
  lemma VarSetterStep(className: string, field: FieldDecl, vars: seq<VarFragment>, j: nat,
                      linesBefore: seq<string>, lines: seq<string>)
    requires j < |vars|
    requires lines == linesBefore + VarSetterLines(className, field, vars[..j])
    ensures vars[j].isWeak ==> lines == linesBefore + VarSetterLines(className, field, vars[..j + 1])
    ensures !vars[j].isWeak ==>
      lines + [SetterLine(className, field, vars[j])] == linesBefore + VarSetterLines(className, field, vars[..j + 1])
  {
    var done := VarSetterLines(className, field, vars[..j]);
    VarSetterLinesSnoc(className, field, vars, j);
    if vars[j].isWeak {
      assert done + [] == done;
    } else {
      ConcatAssoc(linesBefore, done, [SetterLine(className, field, vars[j])]);
    }
  }

  /** `println(";")` ends a declaration. */
  lemma Terminated(a: string)
    ensures a + ";" + "\n" == a + ";\n"
  {
  }

  lemma PublicLine(a: string)
    ensures a + " @public" + "\n" == a + " @public\n"
  {
  }

  lemma Regroup(o: string, a: string, b: string, c: string, d: string, e: string)
    ensures o + a + b + c + d + e == o + (a + b + c + d + e)
  {
    ConcatAssoc(o, a + b + c + d, e);
    ConcatAssoc(o, a + b + c, d);
    ConcatAssoc(o, a + b, c);
    ConcatAssoc(o, a, b);
  }

  /** The declarator of variable `j` and its separator extend the printed declarators by one. */
  lemma DeclaratorsStep(field: FieldDecl, vars: seq<VarFragment>, j: nat, done: seq<string>, star: string, sep: string)
    requires j < |vars|
    requires done == Declarators(field, vars[..j])
    requires star == if NeedsAsterisk(field) then "*" else ""
    requires sep == if j + 1 < |vars| then ", " else ""
    ensures Join(done, ", ") + (if 0 < j < |vars| then ", " else "") + star + vars[j].objcName + sep
         == Join(Declarators(field, vars[..j + 1]), ", ") + (if 0 < j + 1 < |vars| then ", " else "")
  {
    assert Declarators(field, vars[..j + 1]) == done + [star + vars[j].objcName] by {
      assert vars[..j + 1][..j] == vars[..j];
    }
    DeclaratorStep(done, j, |vars|, star, vars[j].objcName, sep);
  }

  /** One more declarator, with the separator that precedes the next one. */
  lemma DeclaratorStep(done: seq<string>, j: nat, n: nat, star: string, name: string, sep: string)
    requires |done| == j < n
    requires sep == if j + 1 < n then ", " else ""
    ensures Join(done, ", ") + (if 0 < j < n then ", " else "") + star + name + sep
         == Join(done + [star + name], ", ") + (if 0 < j + 1 < n then ", " else "")
  {
    JoinSnoc(done, ", ", star + name);
    if j == 0 {
      assert Join(done, ", ") + "" + star + name == star + name;
    } else {
      ConcatAssoc(Join(done, ", ") + ", ", star, name);
    }
  }

  /** A field statement is added to the shown ones exactly when the view shows it. */
  lemma ShownStep(fields: seq<FieldDecl>, i: nat, hidePrivateMembers: bool, privateVars: bool, shown: seq<FieldDecl>)
    requires i < |fields|
    requires shown == ShownFields(fields[..i], hidePrivateMembers, privateVars)
    ensures ShowsInstanceVariable(fields[i], hidePrivateMembers, privateVars) ==>
      shown + [fields[i]] == ShownFields(fields[..i + 1], hidePrivateMembers, privateVars)
    ensures !ShowsInstanceVariable(fields[i], hidePrivateMembers, privateVars) ==>
      shown == ShownFields(fields[..i + 1], hidePrivateMembers, privateVars)
  {
    ShownFieldsSnoc(fields, i, hidePrivateMembers, privateVars);
    assert shown + [] == shown;
  }

  /**
   * Printing the marker (` @public` before the first shown field only) and
   * then a declaration extends the block by that field statement.
   */
  lemma PublicBlockStep(start: string, shown: seq<FieldDecl>, marker: string, field: FieldDecl,
                        sentenceEnd: string -> Option<nat>)
    requires ValidSentenceBreaker(sentenceEnd)
    requires marker == if shown == [] then " @public\n" else ""
    ensures start + PublicBlock(shown, sentenceEnd) + marker + InstanceVariableText(field, sentenceEnd)
         == start + PublicBlock(shown + [field], sentenceEnd)
  {
    var block := PublicBlock(shown, sentenceEnd);
    var text := InstanceVariableText(field, sentenceEnd);
    calc {
      start + block + marker + text;
      { ConcatAssoc(start + block, marker, text); ConcatAssoc(start, block, marker + text); }
      start + (block + (marker + text));
      { PublicBlockSnoc(shown, field, sentenceEnd); }
      start + PublicBlock(shown + [field], sentenceEnd);
    }
  }

  /** The block grows by the marker and the new declaration. */
  lemma PublicBlockSnoc(shown: seq<FieldDecl>, field: FieldDecl, sentenceEnd: string -> Option<nat>)
    requires ValidSentenceBreaker(sentenceEnd)
    ensures PublicBlock(shown + [field], sentenceEnd)
         == PublicBlock(shown, sentenceEnd)
            + ((if shown == [] then " @public\n" else "") + InstanceVariableText(field, sentenceEnd))
  {
    var text := InstanceVariableText(field, sentenceEnd);
    var texts := InstanceVariableTexts(shown, sentenceEnd);
    assert (shown + [field])[..|shown|] == shown;
    assert InstanceVariableTexts(shown + [field], sentenceEnd) == texts + text;
    assert PublicBlock(shown + [field], sentenceEnd) == " @public\n" + (texts + text);
    if shown == [] {
      assert texts == "";
      ConcatEmpty(text);
      ConcatEmpty(" @public\n" + text);
    } else {
      ConcatAssoc(" @public\n", texts, text);
      ConcatEmpty(text);
    }
  }

  /**
   * Printing the lead (an empty line before the first setter only) and
   * then a setter line extends the setter block by that line.
   */
  lemma SetterBlockStep(start: string, done: seq<string>, lead: string, line: string)
    requires lead == if done == [] then "\n" else ""
    ensures start + SetterBlock(done) + lead + line + "\n" == start + SetterBlock(done + [line])
  {
    var block := SetterBlock(done);
    var tail := line + "\n";
    calc {
      start + block + lead + line + "\n";
      { ConcatAssoc(start + block + lead, line, "\n"); }
      start + block + lead + tail;
      { ConcatAssoc(start + block, lead, tail); ConcatAssoc(start, block, lead + tail); }
      start + (block + (lead + tail));
      { SetterBlockSnoc(done, line); }
      start + SetterBlock(done + [line]);
    }
  }

  /** The block grows by the lead and the new line. */
  lemma SetterBlockSnoc(done: seq<string>, line: string)
    ensures SetterBlock(done + [line])
        == SetterBlock(done) + ((if done == [] then "\n" else "") + (line + "\n"))
  {
    var tail := line + "\n";
    LinesTextSnoc(done, line);
    if done == [] {
      assert LinesText(done) == "";
      assert LinesText(done + [line]) == tail;
    } else {
      ConcatAssoc("\n", LinesText(done), tail);
      ConcatEmpty(tail);
    }
  }

  lemma LinesTextSnoc(lines: seq<string>, line: string)
    ensures LinesText(lines + [line]) == LinesText(lines) + (line + "\n")
  {
    assert (lines + [line])[..|lines|] == lines;
    ConcatAssoc(LinesText(lines), line, "\n");
  }

  // ---------------------------------------------------------------------
  // Properties of the dispatch

  /**
   * `printDeclarations` hands each method and each native declaration to
   * its hook, and nothing else: no function reaches a hook there.
   */
  lemma {:induction false} DeclarationHooksMembership(ds: seq<BodyDecl>, h: HookCall)
    ensures h in DeclarationHooks(ds) <==>
      || (exists m :: MethodDeclaration(m) in ds && h == MethodHook(m))
      || (exists n :: NativeDeclaration(n) in ds && h == PrintNativeDeclaration(n))
    ensures h in DeclarationHooks(ds) ==> !h.PrintFunction? && !h.GenerateType?
  {
    if ds != [] {
      var init := ds[..|ds| - 1];
      var d := ds[|ds| - 1];
      DeclarationHooksMembership(init, h);
      assert ds == init + [d];
      if h in DeclarationHooks(init) {
        if exists m :: MethodDeclaration(m) in init && h == MethodHook(m) {
          var m :| MethodDeclaration(m) in init && h == MethodHook(m);
          assert MethodDeclaration(m) in ds;
        } else {
          var n :| NativeDeclaration(n) in init && h == PrintNativeDeclaration(n);
          assert NativeDeclaration(n) in ds;
        }
      }
      if exists m :: MethodDeclaration(m) in ds && h == MethodHook(m) {
        var m :| MethodDeclaration(m) in ds && h == MethodHook(m);
        if MethodDeclaration(m) !in init {
          assert d == MethodDeclaration(m);
        }
      }
      if exists n :: NativeDeclaration(n) in ds && h == PrintNativeDeclaration(n) {
        var n :| NativeDeclaration(n) in ds && h == PrintNativeDeclaration(n);
        if NativeDeclaration(n) !in init {
          assert d == NativeDeclaration(n);
        }
      }
    }
  }

  /** `printFunctions` calls the function hook once per function declaration and for nothing else. */
  lemma {:induction false} FunctionHooksMembership(ds: seq<BodyDecl>, h: HookCall)
    ensures h in FunctionHooks(ds) <==> h.PrintFunction? && FunctionDeclaration(h.func) in ds
  {
    if ds != [] {
      var init := ds[..|ds| - 1];
      FunctionHooksMembership(init, h);
      assert ds == init + [ds[|ds| - 1]];
    }
  }

  /** `printDeclarations` keeps the input order: it distributes over concatenation. */
  lemma {:induction false} DeclarationHooksAppend(a: seq<BodyDecl>, b: seq<BodyDecl>)
    ensures DeclarationHooks(a + b) == DeclarationHooks(a) + DeclarationHooks(b)
    decreases |b|
  {
    if b == [] {
      assert a + b == a;
    } else {
      var init := b[..|b| - 1];
      assert (a + b)[..|a + b| - 1] == a + init && (a + b)[|a + b| - 1] == b[|b| - 1];
      DeclarationHooksAppend(a, init);
    }
  }

  /** `printFunctions` keeps the input order: it distributes over concatenation. */
  lemma {:induction false} FunctionHooksAppend(a: seq<BodyDecl>, b: seq<BodyDecl>)
    ensures FunctionHooks(a + b) == FunctionHooks(a) + FunctionHooks(b)
    decreases |b|
  {
    if b == [] {
      assert a + b == a;
    } else {
      var init := b[..|b| - 1];
      assert (a + b)[..|a + b| - 1] == a + init && (a + b)[|a + b| - 1] == b[|b| - 1];
      FunctionHooksAppend(a, init);
    }
  }

  /** One hook call per function declaration. */
  lemma {:induction false} FunctionHooksCount(ds: seq<BodyDecl>)
    ensures |FunctionHooks(ds)| == |set i | 0 <= i < |ds| && ds[i].FunctionDeclaration?|
  {
    if ds != [] {
      var init := ds[..|ds| - 1];
      var n := |ds| - 1;
      FunctionHooksCount(init);
      var s := set i | 0 <= i < n && init[i].FunctionDeclaration?;
      var t := set i | 0 <= i < |ds| && ds[i].FunctionDeclaration?;
      if ds[n].FunctionDeclaration? {
        assert t == s + {n};
      } else {
        assert t == s;
      }
    }
  }

  lemma DocBodySingle(line: string)
    ensures DocBody([line]) == DocLine(line)
  {
    assert [line][..0] == [];
  }

  lemma DocBodyPair(first: string, second: string)
    ensures DocBody([first] + [second]) == DocLine(first) + DocLine(second)
  {
    assert ([first] + [second])[..1] == [first];
    DocBodySingle(first);
  }



  /** The comment delimiters printed by `println` around a body. */
  lemma CommentFrame(start: string, body: string)
    ensures start + "/**" + "\n" + body + " */" + "\n" == start + ("/**\n" + body + " */\n")
  {
    assert "/**" + "\n" == "/**\n";
    assert " */" + "\n" == " */\n";
  }

}
