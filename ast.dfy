/**
 * The resolved syntax tree the generator reads. Everything the naming
 * service (`NameTable`) and the binding helpers (`BindingUtil`) would look
 * up is already resolved here into plain strings and flags, so the
 * generator's own rules are the only logic left in the model.
 */
module Ast {

  datatype Option<+T> = None | Some(value: T)

  /** The Java modifiers the generator tests. */
  datatype Modifiers = Modifiers(isStatic: bool, isPrivate: bool, isSynthetic: bool)

  /** A parameter: its specific Objective-C type and its Objective-C name. */
  datatype Param = Param(objcType: string, name: string)

  /**
   * An annotation's type name: whether it was written qualified, and the
   * fully qualified name `Name.getFullyQualifiedName()` reports.
   */
  datatype Annotation = Annotation(isQualifiedName: bool, fullyQualifiedName: string)

  /**
   * A fragment inside a doc-comment tag: text (any non-tag node is given by
   * its text) or an inline tag such as `{@code x}`, which always has a name.
   */
  datatype DocFragment =
    | TextFragment(text: string)
    | InlineTag(tagName: string, fragments: seq<DocFragment>)

  /** A block tag; `tagName == None` is the untagged description section. */
  datatype Tag = Tag(tagName: Option<string>, fragments: seq<DocFragment>)

  datatype Javadoc = Javadoc(tags: seq<Tag>)

  /**
   * A method or constructor declaration. `selector` is the selector the
   * naming service gives its binding, `returnType` the Objective-C type of
   * its declared return type, `declaringClassFullName` the full name of the
   * class that declares it.
   */
  datatype MethodDecl = MethodDecl(
    modifiers: Modifiers,
    isConstructor: bool,
    selector: string,
    returnType: string,
    params: seq<Param>,
    annotations: seq<Annotation>,
    javadoc: Option<Javadoc>,
    declaringClassFullName: string)

  /** One variable of a field statement: its Objective-C field name and whether it is weak. */
  datatype VarFragment = VarFragment(objcName: string, isWeak: bool)

  /**
   * A field statement. `varTypeIsPrimitive` and `specificObjCType` describe
   * the type of the first variable's binding (used in instance-variable
   * declarations); `declaredTypeIsPrimitive` and `objcType` describe the
   * statement's declared type (used by setters). The two differ for a
   * C-style array declarator such as `int a[];`.
   */
  datatype FieldDecl = FieldDecl(
    modifiers: Modifiers,
    varTypeIsPrimitive: bool,
    declaredTypeIsPrimitive: bool,
    specificObjCType: string,
    objcType: string,
    fragments: seq<VarFragment>,
    javadoc: Option<Javadoc>)

  /**
   * A variable of one of a type's fields, as the tree's list of all fields
   * gives it: its binding's name, whether it is static, and whether it is
   * a primitive constant (a compile-time constant of primitive type).
   */
  datatype FieldVariable = FieldVariable(name: string, isStatic: bool, isPrimitiveConstant: bool)

  /** A free C function: Objective-C return type, name and parameters. */
  datatype FunctionDecl = FunctionDecl(returnType: string, name: string, params: seq<Param>)

  /** A block of native code; its text is passed through untouched. */
  datatype NativeDecl = NativeDecl(code: string)

  /** The members of a type body, by kind. */
  datatype BodyDecl =
    | MethodDeclaration(methodDecl: MethodDecl)
    | FieldDeclaration(fieldDecl: FieldDecl)
    | FunctionDeclaration(functionDecl: FunctionDecl)
    | NativeDeclaration(nativeDecl: NativeDecl)
    | OtherDeclaration(kind: string)

  /** The three kinds of type declaration. */
  datatype TypeDeclKind = ClassDeclaration | EnumDeclaration | AnnotationTypeDeclaration

  /** An annotation member as the annotation constructor sees it: property name and specific type. */
  datatype AnnotationMember = AnnotationMember(propertyName: string, objcType: string)
}
