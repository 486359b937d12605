/**
 * The AddMissingMethod and AddMissingInterfaceMethod recipes. Both declare the same options,
 * the same precondition and the same visitor logic: skip files that do not use the type;
 * in a concrete class assignable to the type that does not yet declare a matching method,
 * append the method template. A template that throws is not caught.
 */
module AddMissing {
  import opened Wrappers
  import opened Lst
  import opened OpenRewrite
  import Traversal
  import Guards

  datatype Recipe = Recipe(fullyQualifiedClassName: string, methodPattern: SignaturePattern, methodTemplateString: string)

  /** The visitor's matcher, built with override matching on. */
  function Matcher(r: Recipe): (m: MethodMatcher)
    ensures m.pattern == r.methodPattern && m.matchOverrides == Some(true)
  {
    MethodMatcher(r.methodPattern, Some(true))
  }

  /** The template applied in the class's body, with no parameters. */
  function Template(lib: Library, r: Recipe, cd: ClassDeclaration): Option<Member> {
    lib.applyTemplate(r.methodTemplateString, [], cd)
  }

  /** Every guard passes: concrete, assignable to the type, no matching method yet. */
  predicate Eligible(lib: Library, r: Recipe, cd: ClassDeclaration) {
    && Guards.IsConcrete(cd)
    && lib.isAssignableTo(r.fullyQualifiedClassName, cd.classType)
    && !Guards.HasMatchingMethod(lib, Matcher(r), cd)
  }

  /** visitClassDeclaration, after the nested classes have been visited. */
  function EditClass(lib: Library, r: Recipe, cd: ClassDeclaration): (res: Result<ClassDeclaration, Exception>)
    ensures cd.isAbstract || cd.kind == Interface ==> res == Ok(cd)
    ensures !lib.isAssignableTo(r.fullyQualifiedClassName, cd.classType) ==> res == Ok(cd)
    ensures Guards.HasMatchingMethod(lib, MethodMatcher(r.methodPattern, Some(true)), cd) ==> res == Ok(cd)
    ensures Eligible(lib, r, cd) && Template(lib, r, cd).None? ==>
      res == Err(TemplateApplicationFailed(r.methodTemplateString))
    ensures Eligible(lib, r, cd) && Template(lib, r, cd).Some? ==>
      res.Ok? && res.value.(members := cd.members) == cd &&
      res.value.members == cd.members + [Template(lib, r, cd).value]
  {
    if cd.isAbstract || cd.kind == Interface then Ok(cd)
    else if !lib.isAssignableTo(r.fullyQualifiedClassName, cd.classType) then Ok(cd)
    else if Guards.HasMatchingMethod(lib, Matcher(r), cd) then Ok(cd)
    else
      match Template(lib, r, cd)
      case None => Err(TemplateApplicationFailed(r.methodTemplateString))
      case Some(m) => Ok(Guards.AppendLast(cd, m))
  }

  function Editor(lib: Library, r: Recipe): ClassDeclaration -> Result<ClassDeclaration, Exception> {
    cd => EditClass(lib, r, cd)
  }

  /**
   * getVisitor: `Preconditions.check(new UsesType(fullyQualifiedClassName), visitor)`.
   * `usesType` is the outcome of the UsesType search on this file.
   */
  function Run(lib: Library, r: Recipe, usesType: bool, cu: CompilationUnit): (res: Result<CompilationUnit, Exception>)
    ensures !usesType ==> res == Ok(cu)
  {
    if !usesType then Ok(cu) else Traversal.VisitUnitOrFail(cu, Editor(lib, r))
  }

  /**
   * In every eligible class, whatever the template appends is a method declaration the
   * recipe's own pattern matches there. Classes the recipe never edits are not constrained.
   */
  ghost predicate AppendedMethodMatches(lib: Library, r: Recipe) {
    forall cd :: Eligible(lib, r, cd) && Template(lib, r, cd).Some? ==>
      Template(lib, r, cd).value.Method? &&
      lib.matchesDeclaration(Matcher(r), Template(lib, r, cd).value.decl, cd.classType)
  }

  lemma EditTwice(lib: Library, r: Recipe, cd: ClassDeclaration)
    requires AppendedMethodMatches(lib, r)
    requires EditClass(lib, r, cd).Ok?
    ensures EditClass(lib, r, EditClass(lib, r, cd).value) == EditClass(lib, r, cd)
  {
    var e := EditClass(lib, r, cd).value;
    if e != cd {
      var m := Template(lib, r, cd).value;
      assert e == Guards.AppendLast(cd, m);
      Guards.AppendedMatchIsFound(lib, Matcher(r), cd, m);
    }
  }

  /** A run that succeeded, repeated on its own output, succeeds and adds nothing. */
  lemma Idempotent(lib: Library, r: Recipe, usesType: bool, cu: CompilationUnit)
    requires AppendedMethodMatches(lib, r)
    requires Run(lib, r, usesType, cu).Ok?
    ensures Run(lib, r, usesType, Run(lib, r, usesType, cu).value) == Run(lib, r, usesType, cu)
  {
    if usesType {
      var edit := Editor(lib, r);
      forall d | edit(d).Ok? ensures edit(edit(d).value) == edit(d) {
        EditTwice(lib, r, d);
      }
      forall d, m | edit(d).Ok? && m in edit(d).value.members && m.Nested? ensures m in d.members {
        if edit(d) != Ok(d) {
          assert edit(d).value.members == d.members + [Template(lib, r, d).value];
        }
      }
      Traversal.UnitIdempotentOrFail(cu.classes, edit);
    }
  }

  /**
   * The precondition only saves work: on a file in which no class (at any depth) is assignable
   * to the type, the visitor would change nothing either.
   */
  lemma PreconditionOnlySkips(lib: Library, r: Recipe, cu: CompilationUnit)
    requires forall d :: d in Traversal.UnitClasses(cu.classes) ==> !lib.isAssignableTo(r.fullyQualifiedClassName, d.classType)
    ensures Run(lib, r, true, cu) == Run(lib, r, false, cu) == Ok(cu)
  {
    Traversal.UnitFixedPointOrFail(cu.classes, Editor(lib, r));
  }

  /** A template that throws in an eligible class makes the whole run fail. */
  lemma TemplateFailureIsNotCaught(lib: Library, r: Recipe, c: ClassDeclaration)
    requires forall i :: 0 <= i < |c.members| ==> !c.members[i].Nested?
    requires Eligible(lib, r, c) && Template(lib, r, c).None?
    ensures Run(lib, r, true, CompilationUnit([c])) == Err(TemplateApplicationFailed(r.methodTemplateString))
  {
    Traversal.FlatClassOrFail(c, Editor(lib, r));
  }
}
