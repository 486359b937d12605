/**
 * What the recipes call in the OpenRewrite library, kept opaque: the method matcher,
 * the assignability test and template application are fields of a `Library` value
 * that every recipe takes as a parameter.
 */
module OpenRewrite {
  import opened Wrappers
  import opened Lst

  /** The parameter part of a method pattern: `(..)` or an explicit list of types. */
  datatype ParameterPattern = AnyParameters | Parameters(types: seq<string>)

  /** A method pattern such as `com.boo.MyClass myMethod(..)`, already parsed. */
  datatype SignaturePattern = SignaturePattern(ownerType: string, methodName: string, parameters: ParameterPattern)

  /**
   * `new MethodMatcher(pattern, matchOverrides)`. The override flag is the boxed Boolean
   * the recipe passes; None is a null Boolean.
   */
  datatype MethodMatcher = MethodMatcher(pattern: SignaturePattern, matchOverrides: Option<bool>)

  /** Template application failed (JavaTemplate.apply threw). */
  datatype Exception = TemplateApplicationFailed(template: string)

  /**
   * The library as the recipes see it.
   * - matchesType: MethodMatcher.matches on a method type, or on a call through its method type;
   * - matchesDeclaration: MethodMatcher.matches(method declaration, enclosing class), which reads
   *   the enclosing class only through its type;
   * - isAssignableTo: TypeUtils.isAssignableTo(fully qualified name, class type);
   * - applyTemplate: JavaTemplate.apply(code, parameters) at the last-statement coordinate of a
   *   class body, giving the member to append, or None when it throws.
   */
  datatype Library = Library(
    matchesType: (MethodMatcher, Option<MethodType>) -> bool,
    matchesDeclaration: (MethodMatcher, MethodDeclaration, Option<ClassType>) -> bool,
    isAssignableTo: (string, Option<ClassType>) -> bool,
    applyTemplate: (string, seq<string>, ClassDeclaration) -> Option<Member>)
}
