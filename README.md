# ObjectiveCSourceFileGenerator, modelled in Dafny

This project models the shared text-writing layer of the j2objc translator:
the abstract class `ObjectiveCSourceFileGenerator`. The header and source
generators inherit from it. It turns Java declarations, already resolved to
Objective-C names and types, into Objective-C text:

- method, constructor and annotation-constructor declarations, with the
  selector split at its colons and the parameter lines padded so the
  colons line up;
- C function signatures;
- doc comments translated from Javadoc (`@` doubled, `/*` defused, tags
  rewritten by kind, a `@brief` first sentence);
- the instance-variable block (` @public`, `__weak`, `*` per variable) and
  the `J2OBJC_FIELD_SETTER` lines of a view;
- the method attributes (`OBJC_METHOD_FAMILY_NONE`,
  `__attribute__((deprecated))`) and the push/pop deprecation pragmas;
- the dispatch of body declarations to the hooks that subclasses
  implement.

The generator is a class, `Generator.ObjectiveCSourceFileGenerator`. Its
`output` field is the text sink and its `hooks` field records every call
into an abstract hook. Each printing method is proved to append exactly
the text of a specification function (`ensures output == old(output) +
…Text(…)`). The string builders that return a value are methods with loops
proved equal to a function:

- `ConstructMethodDeclaration`;
- `AnnotationConstructorDeclaration`;
- `GetFunctionSignature`;
- `PrintTagFragments`;
- `HasDeprecated`.

Lemmas then prove what the text means, for all inputs.

Modules:

- `Ast`: the resolved inputs. Method and field declarations, Javadoc trees
  and annotations come as records whose names, types and flags have
  already been looked up.
- `Text`: the Java `String` behaviour the generator relies on:
  - `trim`, which removes chars at or below the space;
  - `replace` of a literal;
  - `split(":")`, which drops trailing empty strings;
  - `startsWith`/`endsWith` and `pad`.
- `Declarations`: `constructMethodDeclaration`, `constructorDeclaration`,
  `annotationConstructorDeclaration` and `getFunctionSignature`.
- `DocComments`: `escapeDocText`, `printTagFragments`, `printJavadocTag`,
  and the lines `printDocComment` prints.
- `Attributes`: `needsObjcMethodFamilyNoneAttribute`, `hasDeprecated`,
  `needsDeprecatedAttribute` and the pragma texts.
- `Fields`: the view predicate (`isPrivateOrSynthetic`, `printAllVars`), the
  instance-variable text, the setter lines, and the static-field filters.
- `Generator`: the class, with the printing methods and the hook dispatch.

Three properties come from the method-family rule, which follows sections
5.1 and 5.2.2 of Clang's Automatic Reference Counting document:

- For selectors that do not start with `_`, the prefix test covers all five
  method families (`FamilyNoneCoversFamilies`).
- The test is wider than the families: `initialize` is flagged but belongs
  to no family (`FamilyNoneIsWider`).
- The test does not skip leading underscores the way Clang does:
  `_newObject` is in the `new` family but gets no attribute
  (`FamilyNoneMissesUnderscores`).

## Model

Source paths are relative to the repository root.

| member | source | states |
|---|---|---|
| Generator.ObjectiveCSourceFileGenerator.constructor | translator/src/main/java/com/google/devtools/j2objc/gen/ObjectiveCSourceFileGenerator.java:70-72 | A new generator has printed nothing, called no hook, and keeps the two options and the sentence breaker it was given |
| Generator.ObjectiveCSourceFileGenerator.Generate | translator/src/main/java/com/google/devtools/j2objc/gen/ObjectiveCSourceFileGenerator.java:77-85 | Exactly one hook call is added: the `generate` overload for the declaration's kind |
| Generator.ObjectiveCSourceFileGenerator.PrintMethod | translator/src/main/java/com/google/devtools/j2objc/gen/ObjectiveCSourceFileGenerator.java:136-142 | Exactly one hook call is added, and it goes to `printConstructor` exactly when the method is a constructor, otherwise to `printNormalMethod` |
| Generator.ObjectiveCSourceFileGenerator.PrintDeclaration | translator/src/main/java/com/google/devtools/j2objc/gen/ObjectiveCSourceFileGenerator.java:148-159 | A method goes to the method dispatch, a native declaration to `printNativeDeclaration`, and any other kind adds no hook call |
| Generator.ObjectiveCSourceFileGenerator.PrintDeclarations | translator/src/main/java/com/google/devtools/j2objc/gen/ObjectiveCSourceFileGenerator.java:161-165 | The hook calls added are those of each declaration in turn, in input order |
| Generator.DeclarationHooksMembership | translator/src/main/java/com/google/devtools/j2objc/gen/ObjectiveCSourceFileGenerator.java:148-165 | A hook call is made exactly when a method or native declaration in the list asks for it; `printFunction` and `generate` are never called |
| Generator.DeclarationHooksAppend | translator/src/main/java/com/google/devtools/j2objc/gen/ObjectiveCSourceFileGenerator.java:161-165 | Dispatching two lists one after the other is the same as dispatching their concatenation: order is kept |
| Generator.ObjectiveCSourceFileGenerator.PrintFunctions | translator/src/main/java/com/google/devtools/j2objc/gen/ObjectiveCSourceFileGenerator.java:167-173 | The hook calls added are `printFunction` of each function declaration, in input order |
| Generator.FunctionHooksMembership | translator/src/main/java/com/google/devtools/j2objc/gen/ObjectiveCSourceFileGenerator.java:167-173 | A hook call is made exactly when it is `printFunction` of a function declaration in the list |
| Generator.FunctionHooksAppend | translator/src/main/java/com/google/devtools/j2objc/gen/ObjectiveCSourceFileGenerator.java:167-173 | Function dispatch over a concatenation is the dispatch over each part, in order |
| Generator.FunctionHooksCount | translator/src/main/java/com/google/devtools/j2objc/gen/ObjectiveCSourceFileGenerator.java:167-173 | There are exactly as many `printFunction` calls as function declarations in the list |
| Fields.StaticFieldsMembership | translator/src/main/java/com/google/devtools/j2objc/gen/ObjectiveCSourceFileGenerator.java:100-130 | A variable needs an accessor exactly when it is static, and needs initialization exactly when it is static and not a primitive constant |
| Fields.InitializationRefinesAccessors | translator/src/main/java/com/google/devtools/j2objc/gen/ObjectiveCSourceFileGenerator.java:107-130 | The variables needing initialization are the variables needing accessors with the primitive constants removed, in the same order |
| Declarations.ConstructMethodDeclaration | translator/src/main/java/com/google/devtools/j2objc/gen/ObjectiveCSourceFileGenerator.java:187-221 | The loop builds exactly the declaration's lines joined by line breaks: the header and the selector alone for no parameters, otherwise one line per parameter |
| Declarations.DeclarationHeader | translator/src/main/java/com/google/devtools/j2objc/gen/ObjectiveCSourceFileGenerator.java:190-198 | The declaration starts with `+` exactly for static methods and `-` otherwise. Then comes ` (` and the return type and `)`: `instancetype` for constructors, `NSUInteger` for the `hash` selector, and the declared type otherwise |
| Declarations.ZeroParamDeclaration | translator/src/main/java/com/google/devtools/j2objc/gen/ObjectiveCSourceFileGenerator.java:203-205 | Without parameters, the selector the arity check admits has no colon. The text is the header followed by the whole selector, and it has no line break when neither part has one |
| Declarations.RunExample | translator/src/main/java/com/google/devtools/j2objc/gen/ObjectiveCSourceFileGenerator.java:187-205 | An instance method `void run()` is declared as exactly `- (void)run` |
| Declarations.DeclarationLayout | translator/src/main/java/com/google/devtools/j2objc/gen/ObjectiveCSourceFileGenerator.java:207-217 | When the rendered return type holds no colon: with N ≥ 1 parameters there are exactly N lines. On line i: the first colon is at the shared column (header plus first segment, or the segment's length when that is longer); segment i ends right before it; `(type)name` of parameter i follows it |
| Declarations.LineLayout | translator/src/main/java/com/google/devtools/j2objc/gen/ObjectiveCSourceFileGenerator.java:208-216 | When the rendered return type holds no colon: on one parameter line the first colon is at the shared column, the selector segment ends there, and the parameter's `(type)name` fills the rest |
| Declarations.LinePadding | translator/src/main/java/com/google/devtools/j2objc/gen/ObjectiveCSourceFileGenerator.java:208-213 | When the rendered return type holds no colon: on one parameter line, everything before the segment is that line's lead: the header on the first line, `pad(baseLength - segment length)` on the others |
| Declarations.LineLeadShape | translator/src/main/java/com/google/devtools/j2objc/gen/ObjectiveCSourceFileGenerator.java:210-213 | The first line leads with the header; every later line leads with spaces only |
| Declarations.DeclarationLineCount | translator/src/main/java/com/google/devtools/j2objc/gen/ObjectiveCSourceFileGenerator.java:209-217 | When no name or type holds a line break, splitting the text at line breaks gives back exactly the declaration's lines, so it has N - 1 line breaks (none without parameters) |
| Declarations.ConstructorDeclaration | translator/src/main/java/com/google/devtools/j2objc/gen/ObjectiveCSourceFileGenerator.java:226-238 | A constructor is declared with its own selector, or for an inner class with the inner selector, through the method-declaration builder |
| Declarations.InnerSelectorSplit | translator/src/main/java/com/google/devtools/j2objc/gen/ObjectiveCSourceFileGenerator.java:233-237 | The inner selector splits into the same segments as the original, except that the first becomes `init` + class name + the rest of the original first segment; it fits the parameters whenever the original does |
| Declarations.AnnotationConstructorDeclaration | translator/src/main/java/com/google/devtools/j2objc/gen/ObjectiveCSourceFileGenerator.java:244-263 | The loop builds `- (instancetype)init` followed by one `With`/` with` + capitalized name + `:(type)name__` per member, in member order |
| Declarations.AnnotationConstructorPrefix | translator/src/main/java/com/google/devtools/j2objc/gen/ObjectiveCSourceFileGenerator.java:246-262 | The text always starts with `- (instancetype)init` and is exactly that when there are no members |
| Declarations.AnnotationConstructorColons | translator/src/main/java/com/google/devtools/j2objc/gen/ObjectiveCSourceFileGenerator.java:248-262 | Without colons in names and types, the text has exactly one colon per member |
| Declarations.GetFunctionSignature | translator/src/main/java/com/google/devtools/j2objc/gen/ObjectiveCSourceFileGenerator.java:515-532 | The loop builds the return type, the name, and `(`. Then come the parameter declarations separated by `", "`, then `)` |
| Declarations.SpacedTypeShape | translator/src/main/java/com/google/devtools/j2objc/gen/ObjectiveCSourceFileGenerator.java:517-518 | A spaced type starts with the type and ends in `*` or a space, so a following name never runs into it. A space is added exactly when the type does not end in `*` |
| Declarations.FunctionSignatureCommas | translator/src/main/java/com/google/devtools/j2objc/gen/ObjectiveCSourceFileGenerator.java:520-529 | Without commas in types and names, the parameter list has one comma fewer than there are parameters, and none for zero or one parameter |
| Generator.ObjectiveCSourceFileGenerator.PushIgnoreDeprecatedDeclarationsPragma | translator/src/main/java/com/google/devtools/j2objc/gen/ObjectiveCSourceFileGenerator.java:269-274 | Appends the push and ignore pragma lines when deprecated declarations are generated, nothing otherwise |
| Generator.ObjectiveCSourceFileGenerator.PopIgnoreDeprecatedDeclarationsPragma | translator/src/main/java/com/google/devtools/j2objc/gen/ObjectiveCSourceFileGenerator.java:277-281 | Appends the pop pragma line when deprecated declarations are generated, nothing otherwise |
| Attributes.PragmasArePaired | translator/src/main/java/com/google/devtools/j2objc/gen/ObjectiveCSourceFileGenerator.java:269-281 | Push prints exactly when pop prints, both exactly when the option is on, and each ends with a line break |
| Generator.ObjectiveCSourceFileGenerator.PrintDocComment | translator/src/main/java/com/google/devtools/j2objc/gen/ObjectiveCSourceFileGenerator.java:283-320 | Prints nothing without a Javadoc. Otherwise it prints `/**`, one ` line` per rendered line of each tag in order, and ` */` |
| Generator.ObjectiveCSourceFileGenerator.PrintTag | translator/src/main/java/com/google/devtools/j2objc/gen/ObjectiveCSourceFileGenerator.java:290-315 | One tag prints exactly its lines: the description's lines, or a named tag's rendering when that is not empty |
| Generator.ObjectiveCSourceFileGenerator.PrintDescription | translator/src/main/java/com/google/devtools/j2objc/gen/ObjectiveCSourceFileGenerator.java:294-309 | The description prints exactly its lines as doc lines |
| Generator.ObjectiveCSourceFileGenerator.PrintDocLine | translator/src/main/java/com/google/devtools/j2objc/gen/ObjectiveCSourceFileGenerator.java:322-326 | Appends a space, the line and a line break |
| DocComments.DescriptionLayout | translator/src/main/java/com/google/devtools/j2objc/gen/ObjectiveCSourceFileGenerator.java:294-309 | A trimmed description, which the rendered fragment text always is, gives one or two lines. Without a sentence end it is the description itself. With one, the first line is `@brief ` + the trimmed first sentence, and a second line (trimmed) comes exactly when the trimmed remainder is not empty. An empty description gives one empty line |
| DocComments.DescriptionTagLines | translator/src/main/java/com/google/devtools/j2objc/gen/ObjectiveCSourceFileGenerator.java:290-292 | An unnamed tag is rendered as a description of its fragments' text, and that text is already trimmed |
| DocComments.NamedTagLines | translator/src/main/java/com/google/devtools/j2objc/gen/ObjectiveCSourceFileGenerator.java:310-357 | A named tag gives at most one line: none for `@deprecated` and `@see`, and exactly one starting `tag ` for the seven Xcode tags |
| DocComments.DocLinesAppend | translator/src/main/java/com/google/devtools/j2objc/gen/ObjectiveCSourceFileGenerator.java:287-316 | The lines of a tag list are the lines of its parts in order: tags render independently |
| DocComments.DocCommentSealed | translator/src/main/java/com/google/devtools/j2objc/gen/ObjectiveCSourceFileGenerator.java:283-320 | No Javadoc gives no text. Otherwise the comment opens with `/**` and a line break and closes with ` */` and a line break; when the Javadoc texts hold no `*/`, nothing in between opens or closes a C comment |
| DocComments.DocLinesSafe | translator/src/main/java/com/google/devtools/j2objc/gen/ObjectiveCSourceFileGenerator.java:287-316 | Every printed doc line is free of `/*` and `*/` when the Javadoc texts hold no `*/` |
| DocComments.TagTextSafe | translator/src/main/java/com/google/devtools/j2objc/gen/ObjectiveCSourceFileGenerator.java:328-357 | A tag's rendering holds neither `/*` nor `*/`, when no fragment text, inline tags' texts included, holds `*/` |
| DocComments.FragmentsTextSafe | translator/src/main/java/com/google/devtools/j2objc/gen/ObjectiveCSourceFileGenerator.java:359-373 | The joined fragments hold neither `/*` nor `*/`, even where two fragments meet, when no fragment text, inline tags' texts included, holds `*/` |
| DocComments.PrintJavadocTag | translator/src/main/java/com/google/devtools/j2objc/gen/ObjectiveCSourceFileGenerator.java:328-357 | The tag rendering, by kind: `name fragments` for the Xcode tags, empty for `@deprecated`/`@see`, `<code>fragments</code>` for `@code`, and the fragments alone otherwise |
| DocComments.PrintTagFragments | translator/src/main/java/com/google/devtools/j2objc/gen/ObjectiveCSourceFileGenerator.java:359-373 | The loop builds each fragment after a space (text escaped and trimmed, inline tags rendered), and the whole is trimmed |
| DocComments.FragmentsTextIsTrimmed | translator/src/main/java/com/google/devtools/j2objc/gen/ObjectiveCSourceFileGenerator.java:372 | The joined fragments are empty or start and end with a char above the space |
| DocComments.TextFragmentAts | translator/src/main/java/com/google/devtools/j2objc/gen/ObjectiveCSourceFileGenerator.java:363-365 | A text fragment keeps every `@` of the original, doubled: trimming removes none |
| DocComments.EscapeDocText | translator/src/main/java/com/google/devtools/j2objc/gen/ObjectiveCSourceFileGenerator.java:375-377 | Escaped text never holds `/*`, holds `*/` only if the original did, and has exactly twice as many `@` |
| DocComments.EscapedAtsRoundTrip | translator/src/main/java/com/google/devtools/j2objc/gen/ObjectiveCSourceFileGenerator.java:376 | Doubling `@` loses nothing: undoubling gives back the original |
| Text.EscapeCommentOpenFacts | translator/src/main/java/com/google/devtools/j2objc/gen/ObjectiveCSourceFileGenerator.java:376 | After `/*` is replaced by `/\*`, no `/*` remains; no `*/` appears that was not there, and no `@` is added or lost |
| Text.DoubleAtFacts | translator/src/main/java/com/google/devtools/j2objc/gen/ObjectiveCSourceFileGenerator.java:376 | Doubling `@` doubles the count of `@`, creates no new pair of other chars, and keeps the first char and emptiness |
| Text.TrimIdempotent | translator/src/main/java/com/google/devtools/j2objc/gen/ObjectiveCSourceFileGenerator.java:372 | Trimming a trimmed string changes nothing |
| Text.TrimKeepsVisible | translator/src/main/java/com/google/devtools/j2objc/gen/ObjectiveCSourceFileGenerator.java:365 | Trimming keeps every char above the space |
| Text.JavaSplitSelector | translator/src/main/java/com/google/devtools/j2objc/gen/ObjectiveCSourceFileGenerator.java:201 | `split(":")` of a selector written as colon-terminated segments gives back exactly those segments: the trailing empty string is dropped |
| Text.SplitAllJoinWith | translator/src/main/java/com/google/devtools/j2objc/gen/ObjectiveCSourceFileGenerator.java:201 | Splitting pieces joined by a separator they do not contain gives back the pieces |
| Attributes.NeedsObjcMethodFamilyNoneAttribute | translator/src/main/java/com/google/devtools/j2objc/gen/ObjectiveCSourceFileGenerator.java:465-468 | The prefix test on `new`, `copy`, `alloc`, `init` and `mutableCopy`; the three lemmas below compare it with clang's method-family rule |
| Attributes.FamilyNoneCoversFamilies | translator/src/main/java/com/google/devtools/j2objc/gen/ObjectiveCSourceFileGenerator.java:465-468 | Every selector, not starting with `_`, that Clang puts in the alloc, copy, init, mutableCopy or new family gets the attribute |
| Attributes.FamilyNoneIsWider | translator/src/main/java/com/google/devtools/j2objc/gen/ObjectiveCSourceFileGenerator.java:465-468 | `initialize` gets the attribute though it is in no family |
| Attributes.FamilyNoneMissesUnderscores | translator/src/main/java/com/google/devtools/j2objc/gen/ObjectiveCSourceFileGenerator.java:465-468 | `_newObject` is in the `new` family, yet gets no attribute |
| Attributes.HasDeprecated | translator/src/main/java/com/google/devtools/j2objc/gen/ObjectiveCSourceFileGenerator.java:474-485 | The search answers true exactly when some annotation is `Deprecated`: written `java.lang.Deprecated` when qualified, `Deprecated` when simple |
| Attributes.NeedsDeprecatedAttribute | translator/src/main/java/com/google/devtools/j2objc/gen/ObjectiveCSourceFileGenerator.java:470-472 | True exactly when the option is on and some annotation is `Deprecated` |
| Attributes.AnnotatedDeprecatedAppend | translator/src/main/java/com/google/devtools/j2objc/gen/ObjectiveCSourceFileGenerator.java:474-485 | A concatenated annotation list is deprecated exactly when either part is: the search is order-independent |
| Attributes.DeprecatedNameDependsOnQualification | translator/src/main/java/com/google/devtools/j2objc/gen/ObjectiveCSourceFileGenerator.java:476-479 | A qualified `Deprecated` and a simple `java.lang.Deprecated` do not count; a qualified `java.lang.Deprecated` and a simple `Deprecated` do |
| Attributes.MethodAttributesShape | translator/src/main/java/com/google/devtools/j2objc/gen/ObjectiveCSourceFileGenerator.java:446-461 | The suffix is empty exactly when neither attribute applies. It starts with ` OBJC_METHOD_FAMILY_NONE` exactly when the method is not synthetic and its selector needs it. It ends with the deprecated attribute exactly when that applies |
| Generator.ObjectiveCSourceFileGenerator.PrintMethodAttributes | translator/src/main/java/com/google/devtools/j2objc/gen/ObjectiveCSourceFileGenerator.java:446-461 | Appends the attribute suffix of the method |
| Generator.ObjectiveCSourceFileGenerator.PrintNormalMethodDeclaration | translator/src/main/java/com/google/devtools/j2objc/gen/ObjectiveCSourceFileGenerator.java:441-463 | Appends a line break, the doc comment, the declaration, the attributes and `;` with a line break |
| Fields.IsPrivateOrSynthetic | translator/src/main/java/com/google/devtools/j2objc/gen/ObjectiveCSourceFileGenerator.java:437-439 | A field is private when it is declared private or is synthetic; the two view lemmas below state which fields each view shows by it |
| Fields.PrivateViewShowsPrivate | translator/src/main/java/com/google/devtools/j2objc/gen/ObjectiveCSourceFileGenerator.java:388-392 | The private view shows exactly the non-static fields that are private or synthetic, whatever the hiding option |
| Fields.HiddenViewsPartition | translator/src/main/java/com/google/devtools/j2objc/gen/ObjectiveCSourceFileGenerator.java:388-392 | With private members hidden, every non-static field is shown by exactly one of the two views |
| Fields.UnhiddenPublicViewShowsAll | translator/src/main/java/com/google/devtools/j2objc/gen/ObjectiveCSourceFileGenerator.java:388-392 | With private members not hidden, the public view shows exactly the non-static fields |
| Fields.ShownFieldsMembership | translator/src/main/java/com/google/devtools/j2objc/gen/ObjectiveCSourceFileGenerator.java:389-392 | A field statement is printed exactly when it is in the list and the view shows it |
| Fields.ShownFieldsAppend | translator/src/main/java/com/google/devtools/j2objc/gen/ObjectiveCSourceFileGenerator.java:389-392 | The shown fields of a concatenation are the shown fields of each part, in order |
| Fields.PublicMarkerIffShown | translator/src/main/java/com/google/devtools/j2objc/gen/ObjectiveCSourceFileGenerator.java:399-402 | The view prints something exactly when it shows some field, and then it starts with the single ` @public` line |
| Fields.LoneVariableDeclaration | translator/src/main/java/com/google/devtools/j2objc/gen/ObjectiveCSourceFileGenerator.java:410-430 | For one variable, stripping ` *` and adding `*` per variable gives back a pointer type: `T *name` for pointers, `T name` otherwise |
| Fields.DeclaratorCommas | translator/src/main/java/com/google/devtools/j2objc/gen/ObjectiveCSourceFileGenerator.java:419-430 | The variables are separated by exactly one `", "` each: one comma fewer than variables |
| Generator.ObjectiveCSourceFileGenerator.PrintInstanceVariables | translator/src/main/java/com/google/devtools/j2objc/gen/ObjectiveCSourceFileGenerator.java:385-435 | Appends ` @public` once and then each shown field statement's doc comment and declaration, in order, or nothing when the view shows no field |
| Generator.ObjectiveCSourceFileGenerator.PrintInstanceVariableIfShown | translator/src/main/java/com/google/devtools/j2objc/gen/ObjectiveCSourceFileGenerator.java:389-432 | One loop step: the shown fields so far grow by this field exactly when the view shows it, and the `first` flag stays true exactly while none was shown |
| Generator.ObjectiveCSourceFileGenerator.PrintShownInstanceVariable | translator/src/main/java/com/google/devtools/j2objc/gen/ObjectiveCSourceFileGenerator.java:399-431 | A shown field adds ` @public` only when it is the first, then its text, and clears the `first` flag |
| Generator.ObjectiveCSourceFileGenerator.PrintInstanceVariable | translator/src/main/java/com/google/devtools/j2objc/gen/ObjectiveCSourceFileGenerator.java:403-431 | Appends the field's doc comment and then its declaration |
| Generator.ObjectiveCSourceFileGenerator.PrintVariableDeclaration | translator/src/main/java/com/google/devtools/j2objc/gen/ObjectiveCSourceFileGenerator.java:404-431 | Appends `__weak ` for a weak first variable, the declared type, a space, the declarators and `;` with a line break |
| Generator.ObjectiveCSourceFileGenerator.PrintDeclarators | translator/src/main/java/com/google/devtools/j2objc/gen/ObjectiveCSourceFileGenerator.java:419-430 | Appends each variable's name, after `*` when the type needs it, separated by `", "` |
| Fields.SettersForShownObjectFields | translator/src/main/java/com/google/devtools/j2objc/gen/ObjectiveCSourceFileGenerator.java:490-497 | A field statement gets setters exactly when the view shows it and its declared type is not primitive |
| Fields.VarSetterLinesMembership | translator/src/main/java/com/google/devtools/j2objc/gen/ObjectiveCSourceFileGenerator.java:500-511 | A setter line is printed for a field statement exactly when one of its variables that is not weak produces it |
| Fields.SetterLinesMembership | translator/src/main/java/com/google/devtools/j2objc/gen/ObjectiveCSourceFileGenerator.java:491-511 | A setter line is printed exactly when some field statement needing setters produces it |
| Fields.WeakFieldsGetNoSetter | translator/src/main/java/com/google/devtools/j2objc/gen/ObjectiveCSourceFileGenerator.java:500-503 | A field statement whose variables are all weak adds no setter line |
| Fields.LinesTextCount | translator/src/main/java/com/google/devtools/j2objc/gen/ObjectiveCSourceFileGenerator.java:509-510 | Lines without line breaks are printed with exactly one line break each |
| Generator.ObjectiveCSourceFileGenerator.PrintFieldSetters | translator/src/main/java/com/google/devtools/j2objc/gen/ObjectiveCSourceFileGenerator.java:487-513 | Appends nothing when no setter is due. Otherwise it appends one empty line, then every setter line in field order, each on its own line |
| Generator.ObjectiveCSourceFileGenerator.PrintVarSetters | translator/src/main/java/com/google/devtools/j2objc/gen/ObjectiveCSourceFileGenerator.java:500-511 | One field statement's inner loop extends the setter block by its variables' lines. The flag holds exactly when some line has been printed |
| Generator.ObjectiveCSourceFileGenerator.PrintSetter | translator/src/main/java/com/google/devtools/j2objc/gen/ObjectiveCSourceFileGenerator.java:505-510 | A setter line is preceded by an empty line only when it is the first of the view, and sets the flag |

## Left out

- Sentence splitting. `BreakIterator.getSentenceInstance(Locale.US)` is a
  JDK library routine. The generator instead receives a function giving
  the end of a description's first sentence, if there is one. The only
  assumptions made about it are that the end lies within the description
  and that the empty description has no sentence (`next()` returns
  `DONE`), so an empty description gives one empty doc line.
- Name and type lookup. The results of `NameTable`, `BindingUtil`,
  `TreeUtil` and the JDT bindings are fields of the input records:
  - selectors;
  - Objective-C type names and field names;
  - the capitalized property name (passed as a function);
  - sorted annotation members;
  - static, private, synthetic, weak and primitive-constant flags;
  - two primitive flags per field statement: one for the first variable's
    binding type (line 411, which decides the `*` per variable) and one for
    the declared type (line 494, which decides the setters). They differ
    for a C-style array declarator such as `int a[];`.
- Options. `Options.hidePrivateMembers()` and
  `Options.generateDeprecatedDeclarations()` are constructor parameters of
  the generator.
- The output sink. `print`, `println`, `printf` and `newline` append to the
  `output` string. Indentation (`printIndent`, `indent`, `unindent`) is not
  modelled: an indent prints nothing here.
- Line directives. The `emitLineDirectives` constructor argument belongs
  to the superclass and is not modelled.
- Abstract hooks. The subclass hooks are recorded as calls, in order, and
  not run: the three `generate` overloads, `printNormalMethod`,
  `printConstructor`, `printFunction` and `printNativeDeclaration`.
- `hasInitializeMethod` (lines 132-134) only asks the tree whether it has
  class-initialization statements, so the model has nothing to say about
  it.
- `methodDeclaration` (lines 182-185) is not a separate member.
  `PrintNormalMethodDeclaration` uses the method's resolved selector
  directly.
- `pad(n)` belongs to the superclass. It is modelled as `n` spaces, and as
  nothing for negative `n`.
- Java `assert` statements become preconditions:
  - the selector fits the parameter count;
  - a shown field statement has at least one variable;
  - `constructorDeclaration` is only given constructors;
  - `methodDeclaration` is never given one.
- Generator.ObjectiveCSourceFileGenerator.PrintInstanceVariables: requires
  every shown field statement to have a variable, which is the assertion at
  line 394. The specification text of a field statement without variables
  is still defined, so the model never relies on it.
- Loop bodies split into helpers. The bodies of the `printInstanceVariables`
  and `printFieldSetters` loops are separate methods that take the text
  printed so far as ghost parameters:
  - `PrintInstanceVariableIfShown`;
  - `PrintShownInstanceVariable`;
  - `PrintVarSetters`;
  - `PrintSetter`.

  The output they produce is the one the inline loops produce.
- Declarations.ConstructMethodDeclaration, Declarations.LineLead,
  Declarations.ColonColumn: lengths are counted in chars of the model's
  strings, which are Unicode scalar values. `sb.length()` and
  `selParts[i].length()` (lines 208-212) count UTF-16 code units. For
  each character outside the Basic Multilingual Plane, the model pads a
  later line one space less than the generator when the character is in
  the header or the first selector segment, since the generator's base
  length counts it twice. When the character is in that line's own
  segment, the model pads one space more, since the generator subtracts
  two for it.
- Declarations.ConstructorDeclaration: requires a selector of at least four
  chars for an inner class's constructor. On a shorter one,
  `selector.substring(4)` (line 235) throws
  `StringIndexOutOfBoundsException`; the exception is not modelled.
  Constructor selectors start with `init`, so the generator never reaches
  it.
- Fragment kinds. A fragment is either text or an inline tag. The third
  kind at line 369 (any other node, escaped through `toString()`) is
  represented by its text, since both paths escape and trim.
