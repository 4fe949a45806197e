/**
 * Instance variables and their setter macros: which fields a header shows,
 * how one field statement is declared, and which fields get a
 * `J2OBJC_FIELD_SETTER` line.
 */
module Fields {
  import opened Text
  import opened Ast
  import opened DocComments

  // ---------------------------------------------------------------------
  // Which fields are shown (printInstanceVariables, isPrivateOrSynthetic)

  predicate IsPrivateOrSynthetic(m: Modifiers) {
    m.isPrivate || m.isSynthetic
  }

  /**
   * The public view prints every instance variable unless private members
   * are hidden; the private view is always filtered.
   */
  predicate PrintAllVars(hidePrivateMembers: bool, privateVars: bool) {
    !hidePrivateMembers && !privateVars
  }

  /**
   * A field statement is printed by the view `privateVars` when it is not
   * static and either the view prints everything or the field's privacy
   * matches the view.
   */
  predicate ShowsInstanceVariable(f: FieldDecl, hidePrivateMembers: bool, privateVars: bool) {
    !f.modifiers.isStatic
    && (PrintAllVars(hidePrivateMembers, privateVars) || privateVars == IsPrivateOrSynthetic(f.modifiers))
  }

  /** The shown field statements, in declaration order. */
  function ShownFields(fields: seq<FieldDecl>, hidePrivateMembers: bool, privateVars: bool): (r: seq<FieldDecl>)
    ensures |r| <= |fields|
  {
    if fields == [] then []
    else
      var last := fields[|fields| - 1];
      ShownFields(fields[..|fields| - 1], hidePrivateMembers, privateVars)
      + (if ShowsInstanceVariable(last, hidePrivateMembers, privateVars) then [last] else [])
  }

  /** Selecting one more field statement of a prefix. */
  lemma ShownFieldsSnoc(fields: seq<FieldDecl>, i: nat, hidePrivateMembers: bool, privateVars: bool)
    requires i < |fields|
    ensures ShownFields(fields[..i + 1], hidePrivateMembers, privateVars)
         == ShownFields(fields[..i], hidePrivateMembers, privateVars)
            + (if ShowsInstanceVariable(fields[i], hidePrivateMembers, privateVars) then [fields[i]] else [])
  {
    assert fields[..i + 1][..i] == fields[..i];
  }

  /** A field statement is selected exactly when it is declared and shown. */
  lemma {:induction false} ShownFieldsMembership(fields: seq<FieldDecl>, hidePrivateMembers: bool, privateVars: bool, f: FieldDecl)
    ensures f in ShownFields(fields, hidePrivateMembers, privateVars)
        <==> f in fields && ShowsInstanceVariable(f, hidePrivateMembers, privateVars)
  {
    if fields != [] {
      var init := fields[..|fields| - 1];
      ShownFieldsMembership(init, hidePrivateMembers, privateVars, f);
      assert fields == init + [fields[|fields| - 1]];
    }
  }

  /** Selection keeps declaration order: it distributes over concatenation. */
  lemma {:induction false} ShownFieldsAppend(a: seq<FieldDecl>, b: seq<FieldDecl>, hidePrivateMembers: bool, privateVars: bool)
    ensures ShownFields(a + b, hidePrivateMembers, privateVars)
         == ShownFields(a, hidePrivateMembers, privateVars) + ShownFields(b, hidePrivateMembers, privateVars)
    decreases |b|
  {
    if b == [] {
      assert a + b == a;
    } else {
      var init := b[..|b| - 1];
      assert (a + b)[..|a + b| - 1] == a + init;
      ShownFieldsAppend(a, init, hidePrivateMembers, privateVars);
    }
  }

  /** The private view shows exactly the private or synthetic instance variables, hidden or not. */
  lemma PrivateViewShowsPrivate(f: FieldDecl, hidePrivateMembers: bool)
    ensures ShowsInstanceVariable(f, hidePrivateMembers, true)
        <==> !f.modifiers.isStatic && IsPrivateOrSynthetic(f.modifiers)
  {
  }

  /** When private members are hidden, every instance variable is in exactly one of the two views. */
  lemma HiddenViewsPartition(f: FieldDecl)
    requires !f.modifiers.isStatic
    ensures ShowsInstanceVariable(f, true, true) != ShowsInstanceVariable(f, true, false)
  {
  }

  /**
   * When private members are not hidden, the public view shows every
   * instance variable, so a private one is shown by both views.
   */
  lemma UnhiddenPublicViewShowsAll(f: FieldDecl)
    ensures ShowsInstanceVariable(f, false, false) <==> !f.modifiers.isStatic
  {
  }

  // ---------------------------------------------------------------------
  // One field statement

  predicate IsLineTerminator(c: char) {
    c == '\n' || c == '\r' || c == '\U{0085}' || c == '\U{2028}' || c == '\U{2029}'
  }

  /**
   * `id`, `Class`, or `id<` ... `>` with no line terminator in between: the
   * regular expression `id|id<.*>|Class` matched against the whole type.
   */
  predicate IsIdType(t: string) {
    || t == "id"
    || t == "Class"
    || (&& |t| >= 4 && t[..3] == "id<" && t[|t| - 1] == '>'
        && forall k :: 3 <= k < |t| - 1 ==> !IsLineTerminator(t[k]))
  }

  /** An object type other than `id`/`Class` is a pointer: each variable gets its own `*`. */
  predicate NeedsAsterisk(f: FieldDecl) {
    !f.varTypeIsPrimitive && !IsIdType(f.specificObjCType)
  }

  /** The type printed once before the variables: a trailing ` *` is stripped, since each variable carries it. */
  function DeclaredType(f: FieldDecl): string {
    var t := f.specificObjCType;
    if NeedsAsterisk(f) && EndsWith(t, " *") then t[..|t| - 2] else t
  }

  function Declarator(f: FieldDecl, v: VarFragment): string {
    (if NeedsAsterisk(f) then "*" else "") + v.objcName
  }

  /** One declarator per variable, in order. */
  function Declarators(f: FieldDecl, vs: seq<VarFragment>): (r: seq<string>)
    ensures |r| == |vs|
  {
    if vs == [] then [] else Declarators(f, vs[..|vs| - 1]) + [Declarator(f, vs[|vs| - 1])]
  }

  /** The declarator of each variable is at its variable's position. */
  lemma {:induction false} DeclaratorsAt(f: FieldDecl, vs: seq<VarFragment>, k: nat)
    requires k < |vs|
    ensures Declarators(f, vs)[k] == Declarator(f, vs[k])
  {
    if k < |vs| - 1 {
      DeclaratorsAt(f, vs[..|vs| - 1], k);
    }
  }

  /**
   * The declaration of a field statement: its doc comment, `__weak ` when
   * its first variable is a weak reference, the type, a space, the
   * declarators separated by `, `, and `;`.
   */
  function InstanceVariableText(f: FieldDecl, sentenceEnd: string -> Option<nat>): string
    requires ValidSentenceBreaker(sentenceEnd)
  {
    DocCommentText(f.javadoc, sentenceEnd) + VariableDeclarationText(f)
  }

  /** The statement itself, after the doc comment. */
  function VariableDeclarationText(f: FieldDecl): string {
    (if f.fragments != [] && f.fragments[0].isWeak then "__weak " else "")
    + DeclaredType(f) + " " + Join(Declarators(f, f.fragments), ", ") + ";\n"
  }

  function InstanceVariableTexts(fields: seq<FieldDecl>, sentenceEnd: string -> Option<nat>): string
    requires ValidSentenceBreaker(sentenceEnd)
  {
    if fields == [] then ""
    else InstanceVariableTexts(fields[..|fields| - 1], sentenceEnd) + InstanceVariableText(fields[|fields| - 1], sentenceEnd)
  }

  /** A shown field statement declares at least one variable. */
  predicate ShownHaveFragments(fields: seq<FieldDecl>, hidePrivateMembers: bool, privateVars: bool) {
    forall g :: g in fields && ShowsInstanceVariable(g, hidePrivateMembers, privateVars) ==> g.fragments != []
  }

  /** All the view prints: ` @public` before the first shown field, then each declaration. */
  function InstanceVariablesText(fields: seq<FieldDecl>, hidePrivateMembers: bool, privateVars: bool,
                                 sentenceEnd: string -> Option<nat>): string
    requires ValidSentenceBreaker(sentenceEnd)
  {
    PublicBlock(ShownFields(fields, hidePrivateMembers, privateVars), sentenceEnd)
  }

  /** Nothing for no field statements, or ` @public` and then their declarations. */
  function PublicBlock(shown: seq<FieldDecl>, sentenceEnd: string -> Option<nat>): string
    requires ValidSentenceBreaker(sentenceEnd)
  {
    if shown == [] then "" else " @public\n" + InstanceVariableTexts(shown, sentenceEnd)
  }

  /**
   * The view prints something exactly when it shows some field, and then it
   * opens with ` @public`.
   */
  lemma PublicMarkerIffShown(fields: seq<FieldDecl>, hidePrivateMembers: bool, privateVars: bool,
                             sentenceEnd: string -> Option<nat>)
    requires ValidSentenceBreaker(sentenceEnd)
    ensures var text := InstanceVariablesText(fields, hidePrivateMembers, privateVars, sentenceEnd);
      && (text != "" <==> exists i :: 0 <= i < |fields| && ShowsInstanceVariable(fields[i], hidePrivateMembers, privateVars))
      && (text != "" ==> StartsWith(text, " @public\n"))
  {
    var shown := ShownFields(fields, hidePrivateMembers, privateVars);
    if shown != [] {
      assert shown[0] in shown;
      ShownFieldsMembership(fields, hidePrivateMembers, privateVars, shown[0]);
      var i :| 0 <= i < |fields| && fields[i] == shown[0];
      assert ShowsInstanceVariable(fields[i], hidePrivateMembers, privateVars);
    } else {
      forall i | 0 <= i < |fields|
        ensures !ShowsInstanceVariable(fields[i], hidePrivateMembers, privateVars)
      {
        ShownFieldsMembership(fields, hidePrivateMembers, privateVars, fields[i]);
      }
    }
  }

  /**
   * A lone variable is declared with its full type: a pointer type keeps
   * (or gains) its ` *` right before the name, `id`, `Class` and primitive
   * types are followed by a space.
   */
  lemma LoneVariableDeclaration(f: FieldDecl, v: VarFragment)
    ensures var t := f.specificObjCType;
      DeclaredType(f) + " " + Join(Declarators(f, [v]), ", ")
      == (if !NeedsAsterisk(f) then t + " " else if EndsWith(t, " *") then t else t + " *") + v.objcName
  {
    var t := f.specificObjCType;
    assert Join(Declarators(f, [v]), ", ") == Declarator(f, v);
    if NeedsAsterisk(f) && EndsWith(t, " *") {
      assert t == t[..|t| - 2] + " *";
    }
  }

  /** Declarators whose names have no comma are separated by exactly one comma each. */
  lemma DeclaratorCommas(f: FieldDecl, vs: seq<VarFragment>)
    requires vs != []
    requires forall k :: 0 <= k < |vs| ==> ',' !in vs[k].objcName
    ensures Count(Join(Declarators(f, vs), ", "), ',') == |vs| - 1
  {
    var ds := Declarators(f, vs);
    forall k | 0 <= k < |ds|
      ensures ',' !in ds[k]
    {
      DeclaratorsAt(f, vs, k);
      assert ds[k] == (if NeedsAsterisk(f) then "*" else "") + vs[k].objcName;
    }
    JoinCount(ds, ", ", ',');
    assert Count(", ", ',') == 1 by {
      assert (", ")[1..] == " ";
      assert Count(" ", ',') == 0 by {
        assert (" ")[1..] == "";
      }
    }
  }

  // ---------------------------------------------------------------------
  // Setter macros (printFieldSetters)

  /**
   * The field statements whose variables get setters: the test skips
   * static and primitive fields and, in a filtered view, fields of the
   * other privacy.
   */
  predicate NeedsFieldSetters(f: FieldDecl, hidePrivateMembers: bool, privateVars: bool) {
    !(f.modifiers.isStatic || f.declaredTypeIsPrimitive
      || (!PrintAllVars(hidePrivateMembers, privateVars) && IsPrivateOrSynthetic(f.modifiers) != privateVars))
  }

  /** Setters are printed for exactly the shown fields of object type. */
  lemma SettersForShownObjectFields(f: FieldDecl, hidePrivateMembers: bool, privateVars: bool)
    ensures NeedsFieldSetters(f, hidePrivateMembers, privateVars)
        <==> ShowsInstanceVariable(f, hidePrivateMembers, privateVars) && !f.declaredTypeIsPrimitive
  {
  }

  function SetterLine(className: string, f: FieldDecl, v: VarFragment): string {
    "J2OBJC_FIELD_SETTER(" + className + ", " + v.objcName + ", " + f.objcType + ")"
  }

  /** The setter lines of one field statement: one per variable that is not a weak reference. */
  function VarSetterLines(className: string, f: FieldDecl, vs: seq<VarFragment>): (r: seq<string>)
    ensures |r| <= |vs|
  {
    if vs == [] then []
    else
      var v := vs[|vs| - 1];
      VarSetterLines(className, f, vs[..|vs| - 1]) + (if v.isWeak then [] else [SetterLine(className, f, v)])
  }

  function SetterLines(className: string, fields: seq<FieldDecl>, hidePrivateMembers: bool, privateVars: bool): seq<string> {
    if fields == [] then []
    else
      var f := fields[|fields| - 1];
      SetterLines(className, fields[..|fields| - 1], hidePrivateMembers, privateVars)
      + (if NeedsFieldSetters(f, hidePrivateMembers, privateVars) then VarSetterLines(className, f, f.fragments) else [])
  }

  /** Each line followed by a line break. */
  function LinesText(lines: seq<string>): string {
    if lines == [] then "" else LinesText(lines[..|lines| - 1]) + lines[|lines| - 1] + "\n"
  }

  /** Nothing for no lines, or an empty line and then the lines. */
  function SetterBlock(lines: seq<string>): string {
    if lines == [] then "" else "\n" + LinesText(lines)
  }

  /** All the setters of a view. */
  function FieldSettersText(className: string, fields: seq<FieldDecl>, hidePrivateMembers: bool, privateVars: bool): string {
    SetterBlock(SetterLines(className, fields, hidePrivateMembers, privateVars))
  }

  lemma VarSetterLinesSnoc(className: string, f: FieldDecl, vs: seq<VarFragment>, j: nat)
    requires j < |vs|
    ensures VarSetterLines(className, f, vs[..j + 1])
        == VarSetterLines(className, f, vs[..j]) + (if vs[j].isWeak then [] else [SetterLine(className, f, vs[j])])
  {
    assert vs[..j + 1][..j] == vs[..j];
  }

  lemma SetterLinesSnoc(className: string, fields: seq<FieldDecl>, i: nat, hidePrivateMembers: bool, privateVars: bool)
    requires i < |fields|
    ensures SetterLines(className, fields[..i + 1], hidePrivateMembers, privateVars)
        == SetterLines(className, fields[..i], hidePrivateMembers, privateVars)
           + (if NeedsFieldSetters(fields[i], hidePrivateMembers, privateVars)
              then VarSetterLines(className, fields[i], fields[i].fragments) else [])
  {
    assert fields[..i + 1][..i] == fields[..i];
  }

  /** A variable of a field statement gets a setter line exactly when it is not weak. */
  lemma {:induction false} VarSetterLinesMembership(className: string, f: FieldDecl, vs: seq<VarFragment>, line: string)
    ensures line in VarSetterLines(className, f, vs)
        <==> exists j :: 0 <= j < |vs| && !vs[j].isWeak && line == SetterLine(className, f, vs[j])
  {
    if vs != [] {
      var init := vs[..|vs| - 1];
      var v := vs[|vs| - 1];
      VarSetterLinesMembership(className, f, init, line);
      if line in VarSetterLines(className, f, init) {
        var j :| 0 <= j < |init| && !init[j].isWeak && line == SetterLine(className, f, init[j]);
        assert vs[j] == init[j];
      }
      if exists j :: 0 <= j < |vs| && !vs[j].isWeak && line == SetterLine(className, f, vs[j]) {
        var j :| 0 <= j < |vs| && !vs[j].isWeak && line == SetterLine(className, f, vs[j]);
        if j < |init| {
          assert init[j] == vs[j];
        }
      }
    }
  }

  /** Field statement `f` needs setters and one of its variables produces `line`. */
  predicate ProducesSetter(className: string, f: FieldDecl, hidePrivateMembers: bool, privateVars: bool, line: string) {
    NeedsFieldSetters(f, hidePrivateMembers, privateVars) && line in VarSetterLines(className, f, f.fragments)
  }

  /**
   * A setter line is printed exactly when some field statement that needs
   * setters produces it.
   */
  lemma {:induction false} SetterLinesMembership(className: string, fields: seq<FieldDecl>,
                                                 hidePrivateMembers: bool, privateVars: bool, line: string)
    ensures line in SetterLines(className, fields, hidePrivateMembers, privateVars)
        <==> exists i :: 0 <= i < |fields| && ProducesSetter(className, fields[i], hidePrivateMembers, privateVars, line)
  {
    if fields != [] {
      var n := |fields| - 1;
      var init := fields[..n];
      var f := fields[n];
      SetterLinesMembership(className, init, hidePrivateMembers, privateVars, line);
      var extra := if NeedsFieldSetters(f, hidePrivateMembers, privateVars) then VarSetterLines(className, f, f.fragments) else [];
      assert SetterLines(className, fields, hidePrivateMembers, privateVars)
          == SetterLines(className, init, hidePrivateMembers, privateVars) + extra;
      assert line in extra <==> ProducesSetter(className, f, hidePrivateMembers, privateVars, line);
      if exists i :: 0 <= i < |init| && ProducesSetter(className, init[i], hidePrivateMembers, privateVars, line) {
        var i :| 0 <= i < |init| && ProducesSetter(className, init[i], hidePrivateMembers, privateVars, line);
        assert fields[i] == init[i];
      }
      if exists i :: 0 <= i < |fields| && ProducesSetter(className, fields[i], hidePrivateMembers, privateVars, line) {
        var i :| 0 <= i < |fields| && ProducesSetter(className, fields[i], hidePrivateMembers, privateVars, line);
        if i < n {
          assert init[i] == fields[i];
        }
      }
    }
  }

  /** A field statement all of whose variables are weak contributes no setter line. */
  lemma WeakFieldsGetNoSetter(className: string, f: FieldDecl)
    requires forall j :: 0 <= j < |f.fragments| ==> f.fragments[j].isWeak
    ensures VarSetterLines(className, f, f.fragments) == []
  {
    if VarSetterLines(className, f, f.fragments) != [] {
      var line := VarSetterLines(className, f, f.fragments)[0];
      VarSetterLinesMembership(className, f, f.fragments, line);
    }
  }

  /** The text holds one line break per setter, plus the leading empty line when there is any. */
  lemma {:induction false} LinesTextCount(lines: seq<string>)
    requires forall k :: 0 <= k < |lines| ==> '\n' !in lines[k]
    ensures Count(LinesText(lines), '\n') == |lines|
  {
    if lines != [] {
      var init := lines[..|lines| - 1];
      var last := lines[|lines| - 1];
      LinesTextCount(init);
      CountAppend(LinesText(init), last, '\n');
      CountAppend(LinesText(init) + last, "\n", '\n');
      CountAbsent(last, '\n');
      assert Count("\n", '\n') == 1 by {
        assert ("\n")[1..] == "";
      }
    }
  }

  // ---------------------------------------------------------------------
  // Static fields (getStaticFieldsNeedingAccessors, getStaticFieldsNeedingInitialization)

  /** The static variables, in declaration order. */
  function StaticFieldsNeedingAccessors(vars: seq<FieldVariable>): (r: seq<FieldVariable>)
    ensures |r| <= |vars|
  {
    if vars == [] then []
    else
      var v := vars[|vars| - 1];
      StaticFieldsNeedingAccessors(vars[..|vars| - 1]) + (if v.isStatic then [v] else [])
  }

  /** The static variables that are not primitive constants, which get no variable at all. */
  function StaticFieldsNeedingInitialization(vars: seq<FieldVariable>): (r: seq<FieldVariable>)
    ensures |r| <= |vars|
  {
    if vars == [] then []
    else
      var v := vars[|vars| - 1];
      StaticFieldsNeedingInitialization(vars[..|vars| - 1])
      + (if v.isStatic && !v.isPrimitiveConstant then [v] else [])
  }

  /** Each filter selects exactly the variables its predicate accepts. */
  lemma {:induction false} StaticFieldsMembership(vars: seq<FieldVariable>, v: FieldVariable)
    ensures v in StaticFieldsNeedingAccessors(vars) <==> v in vars && v.isStatic
    ensures v in StaticFieldsNeedingInitialization(vars) <==> v in vars && v.isStatic && !v.isPrimitiveConstant
  {
    if vars != [] {
      var init := vars[..|vars| - 1];
      StaticFieldsMembership(init, v);
      assert vars == init + [vars[|vars| - 1]];
    }
  }

  /**
   * The variables needing initialization are those needing accessors with
   * the primitive constants taken out, in the same order.
   */
  lemma {:induction false} InitializationRefinesAccessors(vars: seq<FieldVariable>)
    ensures StaticFieldsNeedingInitialization(StaticFieldsNeedingAccessors(vars))
         == StaticFieldsNeedingInitialization(vars)
  {
    if vars != [] {
      var init := vars[..|vars| - 1];
      var v := vars[|vars| - 1];
      InitializationRefinesAccessors(init);
      var acc := StaticFieldsNeedingAccessors(init);
      var tail := if v.isStatic && !v.isPrimitiveConstant then [v] else [];
      assert StaticFieldsNeedingInitialization(vars) == StaticFieldsNeedingInitialization(init) + tail;
      if v.isStatic {
        assert StaticFieldsNeedingAccessors(vars) == acc + [v];
        assert (acc + [v])[..|acc + [v]| - 1] == acc && (acc + [v])[|acc|] == v;
        assert StaticFieldsNeedingInitialization(acc + [v]) == StaticFieldsNeedingInitialization(acc) + tail;
      } else {
        assert StaticFieldsNeedingAccessors(vars) == acc + [];
        assert acc + [] == acc;
      }
    }
  }
}
