/**
 * The TestInsertMethod recipe: append a fixed method template to every class whose type
 * is resolved, with no owner check and no existence check.
 */
module TestInsertMethod {
  import opened Wrappers
  import opened Lst
  import opened OpenRewrite
  import Traversal
  import Guards

  /** The fixed template source, the same string for every class the visitor meets. */
  const Code: string := "public String hello() { return \\\\\\\"Hello from #{}!\\\\\\\"; }"

  function Template(lib: Library, cd: ClassDeclaration): Option<Member> {
    lib.applyTemplate(Code, [], cd)
  }

  /** visitClassDeclaration, after the nested classes have been visited. */
  function EditClass(lib: Library, cd: ClassDeclaration): (res: ClassDeclaration)
    ensures res.(members := cd.members) == cd
    ensures cd.classType.None? ==> res == cd
    ensures Template(lib, cd).None? ==> res == cd
    ensures cd.classType.Some? && Template(lib, cd).Some? ==>
      res.members == cd.members + [lib.applyTemplate(Code, [], cd).value]
  {
    if cd.classType.None? then cd
    else
      match Template(lib, cd)
      case None => cd
      case Some(m) => Guards.AppendLast(cd, m)
  }

  function Editor(lib: Library): ClassDeclaration -> ClassDeclaration {
    cd => EditClass(lib, cd)
  }

  function Visit(lib: Library, c: ClassDeclaration): ClassDeclaration {
    Traversal.VisitClass(c, Editor(lib))
  }

  function Run(lib: Library, cu: CompilationUnit): CompilationUnit {
    Traversal.VisitUnit(cu, Editor(lib))
  }

  /**
   * Not idempotent: a file holding one resolved class with no nested classes gets one more
   * method on every run, as long as the template applies.
   */
  lemma NotIdempotent(lib: Library, c: ClassDeclaration)
    requires c.classType.Some?
    requires forall i :: 0 <= i < |c.members| ==> !c.members[i].Nested?
    requires Template(lib, c).Some? && Template(lib, c).value.Method?
    requires Template(lib, EditClass(lib, c)).Some? && Template(lib, EditClass(lib, c)).value.Method?
    ensures var once := Run(lib, CompilationUnit([c]));
      |once.classes| == 1 && |once.classes[0].members| == |c.members| + 1 &&
      |Run(lib, once).classes[0].members| == |c.members| + 2
  {
    Traversal.FlatClass(c, Editor(lib));
    var e := EditClass(lib, c);
    assert forall i :: 0 <= i < |e.members| ==> !e.members[i].Nested? by {
      forall i | 0 <= i < |e.members| ensures !e.members[i].Nested? {
        if i < |c.members| { assert e.members[i] == c.members[i]; }
      }
    }
    Traversal.FlatClass(e, Editor(lib));
  }
}
