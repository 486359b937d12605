/** The checks the add-member recipes make on a class before they edit it. */
module Guards {
  import opened Wrappers
  import opened Lst
  import opened OpenRewrite

  /**
   * The concreteness check of the AddMissing recipes: no Abstract modifier and not of kind
   * Interface. Enum, Annotation, Record and Value declarations pass.
   */
  predicate IsConcrete(c: ClassDeclaration) {
    !c.isAbstract && c.kind != Interface
  }

  /**
   * `statements.stream().filter(MethodDeclaration).anyMatch(matcher.matches(decl, enclosing))`:
   * some method declaration among `ms` is accepted by the matcher.
   */
  function AnyMethodMatches(lib: Library, mm: MethodMatcher, ms: seq<Member>, enclosing: Option<ClassType>): (b: bool)
    ensures b <==> exists i :: 0 <= i < |ms| && ms[i].Method? && lib.matchesDeclaration(mm, ms[i].decl, enclosing)
  {
    if ms == [] then false
    else if ms[0].Method? && lib.matchesDeclaration(mm, ms[0].decl, enclosing) then true
    else
      var b := AnyMethodMatches(lib, mm, ms[1..], enclosing);
      assert b ==> exists i :: 1 <= i < |ms| && ms[i].Method? && lib.matchesDeclaration(mm, ms[i].decl, enclosing) by {
        if b {
          var j :| 0 <= j < |ms[1..]| && ms[1..][j].Method? && lib.matchesDeclaration(mm, ms[1..][j].decl, enclosing);
          assert ms[j + 1] == ms[1..][j];
        }
      }
      b
  }

  /** The class already declares a method the matcher accepts. */
  predicate HasMatchingMethod(lib: Library, mm: MethodMatcher, c: ClassDeclaration) {
    AnyMethodMatches(lib, mm, c.members, c.classType)
  }

  /** `cd.withBody(...)` with the new member at the last-statement coordinate. */
  function AppendLast(c: ClassDeclaration, m: Member): ClassDeclaration {
    c.(members := c.members + [m])
  }

  /** Once a matching method is appended, the existence check finds it. */
  lemma AppendedMatchIsFound(lib: Library, mm: MethodMatcher, c: ClassDeclaration, m: Member)
    requires m.Method? && lib.matchesDeclaration(mm, m.decl, c.classType)
    ensures HasMatchingMethod(lib, mm, AppendLast(c, m))
  {
    var e := AppendLast(c, m);
    assert e.members[|c.members|] == m;
  }
}
