/**
 * The AddMethodDeclaration recipe: append the method template to the class whose fully
 * qualified name is exactly `fullyQualifiedClassName`, unless a matching method is already
 * declared there; a template that throws leaves the class as it was.
 */
module AddMethodDeclaration {
  import opened Wrappers
  import opened Lst
  import opened OpenRewrite
  import Traversal
  import Guards

  datatype Recipe = Recipe(fullyQualifiedClassName: string, methodTemplate: string, methodPattern: SignaturePattern)

  /** `new MethodMatcher(methodPattern)`: the one-argument constructor, override matching off. */
  function Matcher(r: Recipe): (m: MethodMatcher)
    ensures m.pattern == r.methodPattern && m.matchOverrides == Some(false)
  {
    MethodMatcher(r.methodPattern, Some(false))
  }

  /** The template applied in the class's body, with the class name as its one parameter. */
  function Template(lib: Library, r: Recipe, cd: ClassDeclaration): Option<Member> {
    lib.applyTemplate(r.methodTemplate, [r.fullyQualifiedClassName], cd)
  }

  /** The class's type is resolved and its name is exactly the target name. */
  predicate IsTarget(r: Recipe, cd: ClassDeclaration) {
    cd.classType.Some? && cd.classType.value.fullyQualifiedName == r.fullyQualifiedClassName
  }

  /** visitClassDeclaration, after the nested classes have been visited. */
  function EditClass(lib: Library, r: Recipe, cd: ClassDeclaration): (res: ClassDeclaration)
    ensures res.(members := cd.members) == cd
    ensures cd.classType.None? ==> res == cd
    ensures !IsTarget(r, cd) ==> res == cd
    ensures Guards.HasMatchingMethod(lib, MethodMatcher(r.methodPattern, Some(false)), cd) ==> res == cd
    ensures Template(lib, r, cd).None? ==> res == cd
    ensures IsTarget(r, cd) && !Guards.HasMatchingMethod(lib, Matcher(r), cd) && Template(lib, r, cd).Some? ==>
      res.members == cd.members + [Template(lib, r, cd).value]
  {
    if cd.classType.None? then cd
    else if cd.classType.value.fullyQualifiedName == r.fullyQualifiedClassName then
      if Guards.HasMatchingMethod(lib, Matcher(r), cd) then cd
      else
        match Template(lib, r, cd)
        case None => cd
        case Some(m) => Guards.AppendLast(cd, m)
    else cd
  }

  function Editor(lib: Library, r: Recipe): ClassDeclaration -> ClassDeclaration {
    cd => EditClass(lib, r, cd)
  }

  function Visit(lib: Library, r: Recipe, c: ClassDeclaration): ClassDeclaration {
    Traversal.VisitClass(c, Editor(lib, r))
  }

  function Run(lib: Library, r: Recipe, cu: CompilationUnit): CompilationUnit {
    Traversal.VisitUnit(cu, Editor(lib, r))
  }

  /**
   * In every target class, whatever the template appends is a method declaration the
   * recipe's own pattern matches there. Classes the recipe never edits are not constrained.
   */
  ghost predicate AppendedMethodMatches(lib: Library, r: Recipe) {
    forall cd :: IsTarget(r, cd) && Template(lib, r, cd).Some? ==>
      Template(lib, r, cd).value.Method? &&
      lib.matchesDeclaration(Matcher(r), Template(lib, r, cd).value.decl, cd.classType)
  }

  /** Editing a class the recipe has already edited changes nothing. */
  lemma EditTwice(lib: Library, r: Recipe, cd: ClassDeclaration)
    requires AppendedMethodMatches(lib, r)
    ensures EditClass(lib, r, EditClass(lib, r, cd)) == EditClass(lib, r, cd)
  {
    var e := EditClass(lib, r, cd);
    if e != cd {
      var m := Template(lib, r, cd).value;
      assert e == Guards.AppendLast(cd, m);
      Guards.AppendedMatchIsFound(lib, Matcher(r), cd, m);
    }
  }

  /** A second run adds nothing, provided the appended method satisfies the pattern. */
  lemma Idempotent(lib: Library, r: Recipe, cu: CompilationUnit)
    requires AppendedMethodMatches(lib, r)
    ensures Run(lib, r, Run(lib, r, cu)) == Run(lib, r, cu)
  {
    var edit := Editor(lib, r);
    forall d ensures edit(edit(d)) == edit(d) {
      EditTwice(lib, r, d);
    }
    forall d, m | m in edit(d).members && m.Nested? ensures m in d.members {
      if edit(d) != d {
        assert edit(d).members == d.members + [Template(lib, r, d).value];
      }
    }
    Traversal.UnitIdempotent(cu.classes, edit);
  }

  /** A file in which no class (at any depth) is the target class comes back unchanged. */
  lemma NoOpOnAbsentOwner(lib: Library, r: Recipe, cu: CompilationUnit)
    requires forall d :: d in Traversal.UnitClasses(cu.classes) ==> !IsTarget(r, d)
    ensures Run(lib, r, cu) == cu
  {
    Traversal.UnitFixedPoint(cu.classes, Editor(lib, r));
  }
}
