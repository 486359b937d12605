/**
 * The DeleteMethod recipe: delete every method declaration the method pattern matches,
 * with override matching always on.
 */
module DeleteMethod {
  import opened Wrappers
  import opened Lst
  import opened OpenRewrite
  import Traversal
  import MemberFilter

  /** The recipe's options after construction; `matchOverrides` is never null. */
  datatype Recipe = Recipe(methodPattern: SignaturePattern, matchOverrides: bool)

  /** The JSON constructor: a null `matchOverrides` becomes TRUE, any other value is kept. */
  function Create(methodPattern: SignaturePattern, matchOverrides: Option<bool>): (r: Recipe)
    ensures r.methodPattern == methodPattern
    ensures r.matchOverrides <==> matchOverrides != Some(false)
  {
    Recipe(methodPattern, if matchOverrides.Some? then matchOverrides.value else true)
  }

  /** getVisitor builds its matcher with `true`, not with the recipe's option. */
  function Matcher(r: Recipe): (m: MethodMatcher)
    ensures m.pattern == r.methodPattern && m.matchOverrides == Some(true)
  {
    MethodMatcher(r.methodPattern, Some(true))
  }

  /** The lambda's test: a method declaration the matcher accepts in this enclosing class. */
  function Drops(lib: Library, mm: MethodMatcher): MemberFilter.DropTest {
    (enclosing: Option<ClassType>, m: Member) => m.Method? && lib.matchesDeclaration(mm, m.decl, enclosing)
  }

  /** The visitor applied to one class declaration and everything nested in it. */
  function Visit(lib: Library, r: Recipe, c: ClassDeclaration): ClassDeclaration {
    Traversal.VisitClass(c, MemberFilter.Filter(Drops(lib, Matcher(r))))
  }

  /** The recipe run over a file. */
  function Run(lib: Library, r: Recipe, cu: CompilationUnit): CompilationUnit {
    Traversal.VisitUnit(cu, MemberFilter.Filter(Drops(lib, Matcher(r))))
  }

  /**
   * One class's edit: the members kept are exactly the fields, nested classes and
   * methods the matcher rejects, in their original order; nothing else changes.
   */
  lemma EditOneClass(lib: Library, r: Recipe, cd: ClassDeclaration, before: seq<Member>, x: Member, after: seq<Member>)
    requires cd.members == before + [x] + after
    ensures var res := MemberFilter.FilterClass(Drops(lib, Matcher(r)), cd);
      && res.(members := cd.members) == cd
      && (x in res.members <==> !(x.Method? && lib.matchesDeclaration(Matcher(r), x.decl, cd.classType)))
      && (!(x.Method? && lib.matchesDeclaration(Matcher(r), x.decl, cd.classType)) ==>
            res.members == MemberFilter.FilterClass(Drops(lib, Matcher(r)), cd.(members := before)).members
                           + [x]
                           + MemberFilter.FilterClass(Drops(lib, Matcher(r)), cd.(members := after)).members)
  {
    var drop := Drops(lib, Matcher(r));
    assert x == cd.members[|before|];
    if !drop(cd.classType, x) {
      MemberFilter.FilterKeepsOrder(drop, cd, before, x, after);
    }
  }

  /** After the visit no method the matcher accepts is left, in this class or any nested one. */
  lemma RemovesEveryMatch(lib: Library, r: Recipe, c: ClassDeclaration)
    ensures MemberFilter.Clean(Drops(lib, Matcher(r)), Visit(lib, r, c))
  {
    MemberFilter.FilterRemovesEveryMatch(Drops(lib, Matcher(r)), c);
  }

  /** A class in which the matcher accepts nothing, at any depth, is returned unchanged. */
  lemma NoMatchNoChange(lib: Library, r: Recipe, c: ClassDeclaration)
    requires MemberFilter.Clean(Drops(lib, Matcher(r)), c)
    ensures Visit(lib, r, c) == c
  {
    MemberFilter.CleanIsUnchanged(Drops(lib, Matcher(r)), c);
  }

  /** Running the recipe on its own output changes nothing. */
  lemma Idempotent(lib: Library, r: Recipe, cu: CompilationUnit)
    ensures Run(lib, r, Run(lib, r, cu)) == Run(lib, r, cu)
  {
    MemberFilter.UnitFilterIdempotent(Drops(lib, Matcher(r)), cu.classes);
  }

  /** The `matchOverrides` option has no effect on what is deleted. */
  lemma IgnoresMatchOverrides(lib: Library, p: SignaturePattern, a: Option<bool>, b: Option<bool>, cu: CompilationUnit)
    ensures Run(lib, Create(p, a), cu) == Run(lib, Create(p, b), cu)
  {
  }
}
