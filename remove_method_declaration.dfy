/**
 * The RemoveMethodDeclaration recipe: delete every method declaration whose method type
 * the pattern matches; the `matchOverrides` option goes to the matcher as given.
 */
module RemoveMethodDeclaration {
  import opened Wrappers
  import opened Lst
  import opened OpenRewrite
  import Traversal
  import MemberFilter

  /** The recipe's options; `matchOverrides` may be null and no default is applied. */
  datatype Recipe = Recipe(methodPattern: SignaturePattern, matchOverrides: Option<bool>)

  function Matcher(r: Recipe): (m: MethodMatcher)
    ensures m.pattern == r.methodPattern && m.matchOverrides == r.matchOverrides
  {
    MethodMatcher(r.methodPattern, r.matchOverrides)
  }

  /** The lambda's test: a method declaration whose method type the matcher accepts. */
  function Drops(lib: Library, mm: MethodMatcher): MemberFilter.DropTest {
    (enclosing: Option<ClassType>, m: Member) => m.Method? && lib.matchesType(mm, m.decl.methodType)
  }

  function Visit(lib: Library, r: Recipe, c: ClassDeclaration): ClassDeclaration {
    Traversal.VisitClass(c, MemberFilter.Filter(Drops(lib, Matcher(r))))
  }

  function Run(lib: Library, r: Recipe, cu: CompilationUnit): CompilationUnit {
    Traversal.VisitUnit(cu, MemberFilter.Filter(Drops(lib, Matcher(r))))
  }

  /**
   * One class's edit: a member survives exactly when it is not a method declaration whose
   * type the matcher (built from the recipe's own override option) accepts, and survivors
   * keep their relative order.
   */
  lemma EditOneClass(lib: Library, r: Recipe, cd: ClassDeclaration, before: seq<Member>, x: Member, after: seq<Member>)
    requires cd.members == before + [x] + after
    ensures var res := MemberFilter.FilterClass(Drops(lib, Matcher(r)), cd);
      && res.(members := cd.members) == cd
      && (x in res.members <==>
            !(x.Method? && lib.matchesType(MethodMatcher(r.methodPattern, r.matchOverrides), x.decl.methodType)))
      && (!(x.Method? && lib.matchesType(MethodMatcher(r.methodPattern, r.matchOverrides), x.decl.methodType)) ==>
            res.members == MemberFilter.FilterClass(Drops(lib, Matcher(r)), cd.(members := before)).members
                           + [x]
                           + MemberFilter.FilterClass(Drops(lib, Matcher(r)), cd.(members := after)).members)
  {
    var drop := Drops(lib, Matcher(r));
    assert x == cd.members[|before|];
    if !drop(cd.classType, x) {
      MemberFilter.FilterKeepsOrder(drop, cd, before, x, after);
    }
  }

  /**
   * Nested classes are edited too: after the visit no matching method declaration is left,
   * in the class or in any class nested in it.
   */
  lemma RemovesEveryMatch(lib: Library, r: Recipe, c: ClassDeclaration)
    ensures MemberFilter.Clean(Drops(lib, Matcher(r)), Visit(lib, r, c))
  {
    MemberFilter.FilterRemovesEveryMatch(Drops(lib, Matcher(r)), c);
  }

  lemma NoMatchNoChange(lib: Library, r: Recipe, c: ClassDeclaration)
    requires MemberFilter.Clean(Drops(lib, Matcher(r)), c)
    ensures Visit(lib, r, c) == c
  {
    MemberFilter.CleanIsUnchanged(Drops(lib, Matcher(r)), c);
  }

  lemma Idempotent(lib: Library, r: Recipe, cu: CompilationUnit)
    ensures Run(lib, r, Run(lib, r, cu)) == Run(lib, r, cu)
  {
    MemberFilter.UnitFilterIdempotent(Drops(lib, Matcher(r)), cu.classes);
  }
}
