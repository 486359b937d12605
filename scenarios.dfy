/**
 * The recipes' test cases, replayed against a small concrete library: a matcher that
 * compares the method name, the parameter list (`(..)` accepts any) and the owner type
 * (with override matching on, a type the method overrides, or a supertype of the enclosing
 * class, also counts); a template applier that knows one well-formed template.
 */
module Scenarios {
  import opened Wrappers
  import opened Lst
  import opened OpenRewrite
  import DeleteMethod
  import MemberFilter
  import Traversal
  import RemoveMethodDeclaration
  import AddMethodDeclaration
  import AddMissing
  import Guards
  import RemoveMethodCall

  predicate ParametersMatch(p: ParameterPattern, types: seq<string>) {
    p.AnyParameters? || p.types == types
  }

  predicate ToyMatchesType(mm: MethodMatcher, t: Option<MethodType>) {
    && t.Some?
    && t.value.name == mm.pattern.methodName
    && ParametersMatch(mm.pattern.parameters, t.value.parameterTypes)
    && (t.value.declaringType == mm.pattern.ownerType
        || (mm.matchOverrides == Some(true) && mm.pattern.ownerType in t.value.overrides))
  }

  predicate ToyMatchesDeclaration(mm: MethodMatcher, d: MethodDeclaration, enclosing: Option<ClassType>) {
    && enclosing.Some?
    && d.methodType.Some?
    && d.name == mm.pattern.methodName
    && ParametersMatch(mm.pattern.parameters, d.methodType.value.parameterTypes)
    && (enclosing.value.fullyQualifiedName == mm.pattern.ownerType
        || (mm.matchOverrides == Some(true) && mm.pattern.ownerType in enclosing.value.supertypes))
  }

  predicate ToyAssignable(fqn: string, t: Option<ClassType>) {
    t.Some? && (t.value.fullyQualifiedName == fqn || fqn in t.value.supertypes)
  }

  const ValidTemplate: string := "void myMethod() {}"
  const InvalidTemplate: string := "void myMethod() { boo }"

  /** `void myMethod() {}` declared in the class it is applied in; any other text fails to parse. */
  function ToyTemplate(code: string, args: seq<string>, cd: ClassDeclaration): Option<Member> {
    if code == ValidTemplate && cd.classType.Some? then
      Some(Method(MethodDeclaration("myMethod", Some(MethodType(cd.classType.value.fullyQualifiedName, "myMethod", [], [])), [])))
    else None
  }

  function Toy(): Library {
    Library(
      (mm: MethodMatcher, t: Option<MethodType>) => ToyMatchesType(mm, t),
      (mm: MethodMatcher, d: MethodDeclaration, e: Option<ClassType>) => ToyMatchesDeclaration(mm, d, e),
      (fqn: string, t: Option<ClassType>) => ToyAssignable(fqn, t),
      (code: string, args: seq<string>, cd: ClassDeclaration) => ToyTemplate(code, args, cd))
  }

  function Decl(owner: string, name: string, params: seq<string>, overrides: seq<string>): Member {
    Method(MethodDeclaration(name, Some(MethodType(owner, name, params, overrides)), []))
  }

  function Type(fqn: string, supertypes: seq<string>): Option<ClassType> {
    Some(ClassType(fqn, supertypes))
  }

  function Class(t: Option<ClassType>, members: seq<Member>): ClassDeclaration {
    ClassDeclaration(t, false, Kind.Class, members)
  }

  const MyMethodAnyArgs := SignaturePattern("com.boo.MyClass", "myMethod", AnyParameters)

  // DeleteMethod

  /** `myMethod(..)` deletes all four overloads. */
  lemma DeleteMethodAllOverloads()
    ensures
      var t := Type("com.boo.MyClass", []);
      var c := Class(t, [
        Decl("com.boo.MyClass", "myMethod", [], []),
        Decl("com.boo.MyClass", "myMethod", ["java.lang.String"], []),
        Decl("com.boo.MyClass", "myMethod", ["java.lang.Integer"], []),
        Decl("com.boo.MyClass", "myMethod", ["java.lang.Double"], [])]);
      DeleteMethod.Run(Toy(), DeleteMethod.Create(MyMethodAnyArgs, Some(true)), CompilationUnit([c]))
        == CompilationUnit([Class(t, [])])
  {
    var t := Type("com.boo.MyClass", []);
    var c := Class(t, [
      Decl("com.boo.MyClass", "myMethod", [], []),
      Decl("com.boo.MyClass", "myMethod", ["java.lang.String"], []),
      Decl("com.boo.MyClass", "myMethod", ["java.lang.Integer"], []),
      Decl("com.boo.MyClass", "myMethod", ["java.lang.Double"], [])]);
    var drop := DeleteMethod.Drops(Toy(), DeleteMethod.Matcher(DeleteMethod.Create(MyMethodAnyArgs, Some(true))));
    forall i | 0 <= i < |c.members| ensures MemberFilter.DropIn(drop, t)(c.members[i]) {
    }
    Traversal.FlatUnit([c], MemberFilter.Filter(drop));
  }

  const HttpTraitClientOptions := SignaturePattern("com.azure.core.client.traits.HttpTrait", "clientOptions", AnyParameters)

  /** The implementation of the HttpTrait method goes; the field of the same name stays. */
  lemma DeleteMethodKeepsField()
    ensures
      var t := Type("BlankHttpTrait", ["com.azure.core.client.traits.HttpTrait"]);
      var field := Field("com.azure.core.util.ClientOptions", "clientOptions");
      var c := Class(t, [
        field,
        Decl("BlankHttpTrait", "clientOptions", ["com.azure.core.util.ClientOptions"],
          ["com.azure.core.client.traits.HttpTrait"])]);
      DeleteMethod.Run(Toy(), DeleteMethod.Create(HttpTraitClientOptions, None), CompilationUnit([c]))
        == CompilationUnit([Class(t, [field])])
  {
    var t := Type("BlankHttpTrait", ["com.azure.core.client.traits.HttpTrait"]);
    var field := Field("com.azure.core.util.ClientOptions", "clientOptions");
    var impl := Decl("BlankHttpTrait", "clientOptions", ["com.azure.core.util.ClientOptions"],
      ["com.azure.core.client.traits.HttpTrait"]);
    var c := Class(t, [field, impl]);
    var drop := DeleteMethod.Drops(Toy(), DeleteMethod.Matcher(DeleteMethod.Create(HttpTraitClientOptions, None)));
    var keep := MemberFilter.DropIn(drop, t);
    assert keep(impl);
    assert RemoveWhere([impl], keep) == [];
    RemoveWhereCons(field, [impl], keep);
    assert [field, impl] == [field] + [impl];
    assert MemberFilter.FilterClass(drop, c) == Class(t, [field]);
    Traversal.FlatUnit([c], MemberFilter.Filter(drop));
  }

  /** A same-named method in a class unrelated to HttpTrait is not deleted. */
  lemma DeleteMethodUnrelatedClass()
    ensures
      var c := Class(Type("TestClass", []), [Decl("TestClass", "clientOptions", [], [])]);
      DeleteMethod.Run(Toy(), DeleteMethod.Create(HttpTraitClientOptions, None), CompilationUnit([c]))
        == CompilationUnit([c])
  {
    var c := Class(Type("TestClass", []), [Decl("TestClass", "clientOptions", [], [])]);
    var drop := DeleteMethod.Drops(Toy(), DeleteMethod.Matcher(DeleteMethod.Create(HttpTraitClientOptions, None)));
    assert !MemberFilter.DropIn(drop, c.classType)(c.members[0]);
    Traversal.FlatUnit([c], MemberFilter.Filter(drop));
  }

  // RemoveMethodDeclaration

  /** The test class's two recipes: `com.boo.MyClass myMethod(..)`, then the inner class's pattern. */
  const MyClassRemoval := RemoveMethodDeclaration.Recipe(MyMethodAnyArgs, Some(true))
  const InnerClassRemoval := RemoveMethodDeclaration.Recipe(
    SignaturePattern("com.boo.MyOuterClass.MyInnerClass", "myMethod", AnyParameters), Some(true))

  /** Both recipes, run one after the other as the test's defaults list them. */
  function RemoveDeclarations(cu: CompilationUnit): CompilationUnit {
    RemoveMethodDeclaration.Run(Toy(), InnerClassRemoval, RemoveMethodDeclaration.Run(Toy(), MyClassRemoval, cu))
  }

  function MyClassDrop(): MemberFilter.DropTest {
    RemoveMethodDeclaration.Drops(Toy(), RemoveMethodDeclaration.Matcher(MyClassRemoval))
  }

  function InnerClassDrop(): MemberFilter.DropTest {
    RemoveMethodDeclaration.Drops(Toy(), RemoveMethodDeclaration.Matcher(InnerClassRemoval))
  }

  /** A simple method declaration of `com.boo.MyClass` is removed. */
  lemma RemoveDeclarationSimple()
    ensures
      var t := Type("com.boo.MyClass", []);
      RemoveDeclarations(CompilationUnit([Class(t, [Decl("com.boo.MyClass", "myMethod", [], [])])]))
        == CompilationUnit([Class(t, [])])
  {
    var t := Type("com.boo.MyClass", []);
    var c := Class(t, [Decl("com.boo.MyClass", "myMethod", [], [])]);
    assert MemberFilter.DropIn(MyClassDrop(), t)(c.members[0]);
    Traversal.FlatUnit([c], MemberFilter.Filter(MyClassDrop()));
    Traversal.FlatUnit([Class(t, [])], MemberFilter.Filter(InnerClassDrop()));
  }

  /** The method of an inner class is removed; the inner class itself stays. */
  lemma RemoveDeclarationInnerClass()
    ensures
      var innerType := Type("com.boo.MyOuterClass.MyInnerClass", []);
      var outerType := Type("com.boo.MyOuterClass", []);
      var inner := Class(innerType, [Decl("com.boo.MyOuterClass.MyInnerClass", "myMethod", [], [])]);
      RemoveDeclarations(CompilationUnit([Class(outerType, [Nested(inner)])]))
        == CompilationUnit([Class(outerType, [Nested(Class(innerType, []))])])
  {
    var innerType := Type("com.boo.MyOuterClass.MyInnerClass", []);
    var outerType := Type("com.boo.MyOuterClass", []);
    var inner := Class(innerType, [Decl("com.boo.MyOuterClass.MyInnerClass", "myMethod", [], [])]);
    var outer := Class(outerType, [Nested(inner)]);
    // The first recipe accepts nothing here.
    var keep := MemberFilter.Filter(MyClassDrop());
    assert !MemberFilter.DropIn(MyClassDrop(), innerType)(inner.members[0]);
    Traversal.FlatClass(inner, keep);
    assert keep(inner) == inner;
    assert Traversal.VisitMembers(outer.members, keep) == [Nested(inner)];
    assert !MemberFilter.DropIn(MyClassDrop(), outerType)(outer.members[0]);
    assert outer.(members := [Nested(inner)]) == outer;
    assert Traversal.VisitClass(outer, keep) == outer;
    assert Traversal.VisitClasses([outer], keep) == [outer];
    // The second removes the inner class's method.
    var edit := MemberFilter.Filter(InnerClassDrop());
    assert MemberFilter.DropIn(InnerClassDrop(), innerType)(inner.members[0]);
    Traversal.FlatClass(inner, edit);
    var inner' := Class(innerType, []);
    assert Traversal.VisitMembers(outer.members, edit) == [Nested(inner')];
    var outer' := Class(outerType, [Nested(inner')]);
    assert !MemberFilter.DropIn(InnerClassDrop(), outerType)(outer'.members[0]);
    assert Traversal.VisitClass(outer, edit) == outer';
    assert Traversal.VisitClasses([outer], edit) == [outer'];
  }

  /** A file of flat classes in which the test drops nothing is left as it is. */
  lemma KeepsFlatFile(drop: MemberFilter.DropTest, cs: seq<ClassDeclaration>)
    requires forall i, j :: 0 <= i < |cs| && 0 <= j < |cs[i].members| ==> !cs[i].members[j].Nested?
    requires forall i, j :: 0 <= i < |cs| && 0 <= j < |cs[i].members| ==> !drop(cs[i].classType, cs[i].members[j])
    ensures Traversal.VisitUnit(CompilationUnit(cs), MemberFilter.Filter(drop)) == CompilationUnit(cs)
  {
    Traversal.FlatUnit(cs, MemberFilter.Filter(drop));
    forall i | 0 <= i < |cs| ensures MemberFilter.FilterClass(drop, cs[i]) == cs[i] {
      assert forall j :: 0 <= j < |cs[i].members| ==> !MemberFilter.DropIn(drop, cs[i].classType)(cs[i].members[j]);
      assert cs[i].(members := cs[i].members) == cs[i];
    }
  }

  /** A file of flat classes in which the test drops every member is emptied class by class. */
  lemma EmptiesFlatFile(drop: MemberFilter.DropTest, cs: seq<ClassDeclaration>)
    requires forall i, j :: 0 <= i < |cs| && 0 <= j < |cs[i].members| ==> !cs[i].members[j].Nested?
    requires forall i, j :: 0 <= i < |cs| && 0 <= j < |cs[i].members| ==> drop(cs[i].classType, cs[i].members[j])
    ensures Traversal.VisitUnit(CompilationUnit(cs), MemberFilter.Filter(drop))
         == CompilationUnit(seq(|cs|, i requires 0 <= i < |cs| => cs[i].(members := [])))
  {
    Traversal.FlatUnit(cs, MemberFilter.Filter(drop));
    forall i | 0 <= i < |cs| ensures MemberFilter.FilterClass(drop, cs[i]) == cs[i].(members := []) {
      assert forall j :: 0 <= j < |cs[i].members| ==> MemberFilter.DropIn(drop, cs[i].classType)(cs[i].members[j]);
    }
  }

  function ParentClass(): ClassDeclaration {
    Class(Type("com.boo.MyParentClass", []), [Decl("com.boo.MyParentClass", "myMethod", [], [])])
  }

  function OverridingChild(): ClassDeclaration {
    Class(Type("com.boo.MyClass", ["com.boo.MyParentClass"]), [Decl("com.boo.MyClass", "myMethod", [], ["com.boo.MyParentClass"])])
  }

  lemma OverridingFirstRecipe()
    ensures RemoveMethodDeclaration.Run(Toy(), MyClassRemoval, CompilationUnit([ParentClass(), OverridingChild()]))
         == CompilationUnit([ParentClass(), OverridingChild().(members := [])])
  {
    var drop := MyClassDrop();
    var parent := ParentClass();
    var child := OverridingChild();
    assert !MemberFilter.DropIn(drop, parent.classType)(parent.members[0]);
    assert MemberFilter.DropIn(drop, child.classType)(child.members[0]);
    Traversal.FlatUnit([parent, child], MemberFilter.Filter(drop));
  }

  /** A pattern naming the subclass removes its override and keeps the parent's method. */
  lemma RemoveDeclarationOverriding()
    ensures
      var parentType := Type("com.boo.MyParentClass", []);
      var childType := Type("com.boo.MyClass", ["com.boo.MyParentClass"]);
      var parent := Class(parentType, [Decl("com.boo.MyParentClass", "myMethod", [], [])]);
      var child := Class(childType, [Decl("com.boo.MyClass", "myMethod", [], ["com.boo.MyParentClass"])]);
      RemoveDeclarations(CompilationUnit([parent, child])) == CompilationUnit([parent, Class(childType, [])])
  {
    OverridingFirstRecipe();
    var mid := [ParentClass(), OverridingChild().(members := [])];
    assert !InnerClassDrop()(mid[0].classType, mid[0].members[0]);
    KeepsFlatFile(InnerClassDrop(), mid);
  }

  function BaseClass(): ClassDeclaration {
    Class(Type("com.boo.MyClass", []), [Decl("com.boo.MyClass", "myMethod", [], [])])
  }

  function OverriddenChild(): ClassDeclaration {
    Class(Type("com.boo.MyChildClass", ["com.boo.MyClass"]), [Decl("com.boo.MyChildClass", "myMethod", [], ["com.boo.MyClass"])])
  }

  /** A pattern naming the base class, with overrides on, removes the base method and the override. */
  lemma RemoveDeclarationOverridden()
    ensures
      var baseType := Type("com.boo.MyClass", []);
      var childType := Type("com.boo.MyChildClass", ["com.boo.MyClass"]);
      var base := Class(baseType, [Decl("com.boo.MyClass", "myMethod", [], [])]);
      var child := Class(childType, [Decl("com.boo.MyChildClass", "myMethod", [], ["com.boo.MyClass"])]);
      RemoveDeclarations(CompilationUnit([base, child]))
        == CompilationUnit([Class(baseType, []), Class(childType, [])])
  {
    var cs := [BaseClass(), OverriddenChild()];
    assert MyClassDrop()(cs[0].classType, cs[0].members[0]);
    assert MyClassDrop()(cs[1].classType, cs[1].members[0]);
    EmptiesFlatFile(MyClassDrop(), cs);
    var mid := [BaseClass().(members := []), OverriddenChild().(members := [])];
    assert seq(|cs|, i requires 0 <= i < |cs| => cs[i].(members := [])) == mid;
    KeepsFlatFile(InnerClassDrop(), mid);
  }

  // AddMethodDeclaration

  const MyClassDefault := Type("TestDefault.MyClass", [])

  /** The template is appended to the named class, and a second run adds nothing. */
  lemma AddDeclarationDefault()
    ensures
      var r := AddMethodDeclaration.Recipe("TestDefault.MyClass", ValidTemplate,
        SignaturePattern("TestDefault.MyClass", "myMethod", Parameters([])));
      var once := AddMethodDeclaration.Run(Toy(), r, CompilationUnit([Class(MyClassDefault, [])]));
      && once == CompilationUnit([Class(MyClassDefault, [Decl("TestDefault.MyClass", "myMethod", [], [])])])
      && AddMethodDeclaration.Run(Toy(), r, once) == once
  {
    var r := AddMethodDeclaration.Recipe("TestDefault.MyClass", ValidTemplate,
      SignaturePattern("TestDefault.MyClass", "myMethod", Parameters([])));
    var edit := AddMethodDeclaration.Editor(Toy(), r);
    var c := Class(MyClassDefault, []);
    var m := Decl("TestDefault.MyClass", "myMethod", [], []);
    var c' := Class(MyClassDefault, [m]);
    assert AddMethodDeclaration.Template(Toy(), r, c) == Some(m);
    assert !Guards.HasMatchingMethod(Toy(), AddMethodDeclaration.Matcher(r), c);
    Traversal.FlatUnit([c], edit);
    assert edit(c) == c';
    Guards.AppendedMatchIsFound(Toy(), AddMethodDeclaration.Matcher(r), c, m);
    Traversal.FlatUnit([c'], edit);
  }

  /** The test's recipe meets the premise of the idempotence lemma: a second run adds nothing to any file. */
  lemma AddDeclarationDefaultIdempotent(cu: CompilationUnit)
    ensures
      var r := AddMethodDeclaration.Recipe("TestDefault.MyClass", ValidTemplate,
        SignaturePattern("TestDefault.MyClass", "myMethod", Parameters([])));
      && AddMethodDeclaration.AppendedMethodMatches(Toy(), r)
      && AddMethodDeclaration.Run(Toy(), r, AddMethodDeclaration.Run(Toy(), r, cu)) == AddMethodDeclaration.Run(Toy(), r, cu)
  {
    var r := AddMethodDeclaration.Recipe("TestDefault.MyClass", ValidTemplate,
      SignaturePattern("TestDefault.MyClass", "myMethod", Parameters([])));
    AddMethodDeclaration.Idempotent(Toy(), r, cu);
  }

  /** A template that does not parse leaves the class as it was. */
  lemma AddDeclarationInvalidTemplate()
    ensures
      var c := Class(Type("NotValid.MyClass", []), []);
      var r := AddMethodDeclaration.Recipe("NotValid.MyClass", InvalidTemplate,
        SignaturePattern("NotValid.MyClass", "myMethod", Parameters([])));
      AddMethodDeclaration.Run(Toy(), r, CompilationUnit([c])) == CompilationUnit([c])
  {
    var c := Class(Type("NotValid.MyClass", []), []);
    var r := AddMethodDeclaration.Recipe("NotValid.MyClass", InvalidTemplate,
      SignaturePattern("NotValid.MyClass", "myMethod", Parameters([])));
    assert AddMethodDeclaration.Template(Toy(), r, c).None?;
    Traversal.FlatUnit([c], AddMethodDeclaration.Editor(Toy(), r));
  }

  // RemoveMethodCall

  function CallRule(): RemoveMethodCall.Rule {
    RemoveMethodCall.Rule(Toy(), RemoveMethodCall.Matcher(RemoveMethodCall.Recipe(MyMethodAnyArgs)), RemoveMethodCall.AcceptAll())
  }

  function MyMethodCall(declaring: string, overrides: seq<string>): Call {
    Call(Invocation, "myMethod", Some(MethodType(declaring, "myMethod", [], overrides)), [Empty])
  }

  function Body(owner: Option<ClassType>, body: seq<Statement>): ClassDeclaration {
    Class(owner, [Method(MethodDeclaration("myMethodOutside", None, body))])
  }

  /** The file made of one class whose one method has body `body` gets that method's body edited. */
  lemma OneBody(owner: Option<ClassType>, body: seq<Statement>, body': seq<Statement>)
    requires RemoveMethodCall.EditStatements(CallRule(), body) == body'
    ensures RemoveMethodCall.VisitUnit(CallRule(), CompilationUnit([Body(owner, body)])) == CompilationUnit([Body(owner, body')])
  {
    var c := Body(owner, body);
    var edit := RemoveMethodCall.Editor(CallRule());
    Traversal.FlatUnit([c], edit);
    var e := RemoveMethodCall.EditClass(CallRule(), c);
    assert e.members[0] == RemoveMethodCall.EditMember(CallRule(), c.members[0]);
    assert e == Body(owner, body');
  }

  /** The hints of that file are the hints of the method's body. */
  lemma OneBodyHints(owner: Option<ClassType>, body: seq<Statement>)
    ensures RemoveMethodCall.UnitHints(CallRule(), [Body(owner, body)]) == RemoveMethodCall.StatementsHints(CallRule(), body)
  {
    var c := Body(owner, body);
    var rl := CallRule();
    assert [c][..0] == [];
    assert RemoveMethodCall.UnitHints(rl, [c]) == RemoveMethodCall.ClassHints(rl, c);
    assert c.members[..0] == [];
    assert RemoveMethodCall.MembersHints(rl, c.members) == RemoveMethodCall.MemberHints(rl, c.members[0]);
  }

  /** Same name, but the owner is not the pattern's: the file is unchanged and no hint is recorded. */
  lemma CallOtherOwnerKept()
    ensures
      var c := Body(Type("MyClass", []), [ExpressionStatement(MyMethodCall("MyClass", []))]);
      && RemoveMethodCall.VisitUnit(CallRule(), CompilationUnit([c])) == CompilationUnit([c])
      && RemoveMethodCall.UnitHints(CallRule(), [c]) == {}
  {
    var s := ExpressionStatement(MyMethodCall("MyClass", []));
    assert !RemoveMethodCall.Removable(CallRule(), s.call);
    RemoveMethodCall.EditSingleStatement(CallRule(), s);
    OneBody(Type("MyClass", []), [s], [s]);
    OneBodyHints(Type("MyClass", []), [s]);
  }

  /** `myMethod();` disappears, and the declaring type is passed to maybeRemoveImport. */
  lemma CallStatementRemoved()
    ensures
      var t := Type("com.boo.MyClass", []);
      var c := Body(t, [ExpressionStatement(MyMethodCall("com.boo.MyClass", []))]);
      && RemoveMethodCall.VisitUnit(CallRule(), CompilationUnit([c])) == CompilationUnit([Body(t, [])])
      && RemoveMethodCall.UnitHints(CallRule(), [c]) == {"com.boo.MyClass"}
  {
    var s := ExpressionStatement(MyMethodCall("com.boo.MyClass", []));
    assert RemoveMethodCall.Removable(CallRule(), s.call);
    RemoveMethodCall.EditSingleStatement(CallRule(), s);
    OneBody(Type("com.boo.MyClass", []), [s], []);
    OneBodyHints(Type("com.boo.MyClass", []), [s]);
  }

  /** `new MyClass()`: no arguments, so its argument list is the one J.Empty. */
  function NewMyClass(): Call {
    Call(NewClass, "<constructor>", Some(MethodType("com.boo.MyClass", "<constructor>", [], [])), [Empty])
  }

  /** `MyClass t = new MyClass(); int a = t.myMethod();` becomes `MyClass t = new MyClass(); int a;`. */
  lemma CallInitializerDropped()
    ensures
      var t := Type("com.boo.MyClass2", []);
      var construct := LocalVariable("com.boo.MyClass", "t",
        Some(CallExpr(NewMyClass())));
      var c := Body(t, [construct, LocalVariable("int", "a", Some(CallExpr(MyMethodCall("com.boo.MyClass", []))))]);
      RemoveMethodCall.VisitUnit(CallRule(), CompilationUnit([c]))
        == CompilationUnit([Body(t, [construct, LocalVariable("int", "a", None)])])
  {
    var construct := LocalVariable("com.boo.MyClass", "t",
      Some(CallExpr(NewMyClass())));
    var s := LocalVariable("int", "a", Some(CallExpr(MyMethodCall("com.boo.MyClass", []))));
    assert !RemoveMethodCall.Removable(CallRule(), construct.initializer.value.call);
    assert RemoveMethodCall.Removable(CallRule(), s.initializer.value.call);
    RemoveMethodCall.EditSingleStatement(CallRule(), construct);
    RemoveMethodCall.EditSingleStatement(CallRule(), s);
    RemoveMethodCall.EditStatementsConcat(CallRule(), [construct], [s]);
    assert [construct] + [s] == [construct, s];
    OneBody(Type("com.boo.MyClass2", []), [construct, s], [construct, LocalVariable("int", "a", None)]);
  }

  /** `MyClass t = new MyClass(); int a; a = t.myMethod();` becomes `MyClass t = new MyClass(); int a; a;`. */
  lemma CallAssignmentBecomesReference()
    ensures
      var t := Type("com.boo.MyClass2", []);
      var construct := LocalVariable("com.boo.MyClass", "t", Some(CallExpr(NewMyClass())));
      var declare := LocalVariable("int", "a", None);
      var c := Body(t, [construct, declare, Assignment("a", CallExpr(MyMethodCall("com.boo.MyClass", [])))]);
      RemoveMethodCall.VisitUnit(CallRule(), CompilationUnit([c]))
        == CompilationUnit([Body(t, [construct, declare, Reference("a")])])
  {
    var rl := CallRule();
    var construct := LocalVariable("com.boo.MyClass", "t", Some(CallExpr(NewMyClass())));
    var declare := LocalVariable("int", "a", None);
    var s := Assignment("a", CallExpr(MyMethodCall("com.boo.MyClass", [])));
    var tail := [declare, s];
    var tail' := [declare, Reference("a")];
    assert RemoveMethodCall.EditStatements(rl, tail) == tail' by {
      assert RemoveMethodCall.Removable(rl, s.value.call);
      RemoveMethodCall.EditSingleStatement(rl, declare);
      RemoveMethodCall.EditSingleStatement(rl, s);
      RemoveMethodCall.EditStatementsConcat(rl, [declare], [s]);
      assert [declare] + [s] == tail;
    }
    assert RemoveMethodCall.EditStatements(rl, [construct] + tail) == [construct] + tail' by {
      assert !RemoveMethodCall.Removable(rl, construct.initializer.value.call);
      RemoveMethodCall.EditSingleStatement(rl, construct);
      RemoveMethodCall.EditStatementsConcat(rl, [construct], tail);
    }
    assert [construct] + tail == [construct, declare, s];
    assert [construct] + tail' == [construct, declare, Reference("a")];
    OneBody(Type("com.boo.MyClass2", []), [construct, declare, s], [construct, declare, Reference("a")]);
  }

  /** `int a = super.myMethod();` in a subclass: the call resolves to the parent's method and goes. */
  lemma CallThroughSuperRemoved()
    ensures
      var t := Type("com.boo.MyClass2", ["com.boo.MyClass"]);
      var c := Body(t, [LocalVariable("int", "a", Some(CallExpr(MyMethodCall("com.boo.MyClass", []))))]);
      RemoveMethodCall.VisitUnit(CallRule(), CompilationUnit([c]))
        == CompilationUnit([Body(t, [LocalVariable("int", "a", None)])])
  {
    var s := LocalVariable("int", "a", Some(CallExpr(MyMethodCall("com.boo.MyClass", []))));
    assert RemoveMethodCall.Removable(CallRule(), s.initializer.value.call);
    RemoveMethodCall.EditSingleStatement(CallRule(), s);
    OneBody(Type("com.boo.MyClass2", ["com.boo.MyClass"]), [s], [LocalVariable("int", "a", None)]);
  }

  /** A call to an implementation of the interface method goes too, since override matching is on. */
  lemma CallToImplementationRemoved()
    ensures
      var t := Type("com.boo.MyClass2", ["com.boo.MyClass"]);
      var c := Body(t, [LocalVariable("int", "a", Some(CallExpr(MyMethodCall("com.boo.MyClass2", ["com.boo.MyClass"]))))]);
      && RemoveMethodCall.VisitUnit(CallRule(), CompilationUnit([c]))
        == CompilationUnit([Body(t, [LocalVariable("int", "a", None)])])
      && RemoveMethodCall.UnitHints(CallRule(), [c]) == {"com.boo.MyClass2"}
  {
    var s := LocalVariable("int", "a", Some(CallExpr(MyMethodCall("com.boo.MyClass2", ["com.boo.MyClass"]))));
    assert RemoveMethodCall.Removable(CallRule(), s.initializer.value.call);
    RemoveMethodCall.EditSingleStatement(CallRule(), s);
    OneBody(Type("com.boo.MyClass2", ["com.boo.MyClass"]), [s], [LocalVariable("int", "a", None)]);
    OneBodyHints(Type("com.boo.MyClass2", ["com.boo.MyClass"]), [s]);
  }

  // AddMissingMethod / AddMissingInterfaceMethod

  /**
   * A recipe whose pattern names the interface itself meets the premise of the idempotence
   * lemma: a run that succeeded, repeated, succeeds and adds nothing.
   */
  lemma AddMissingIdempotentForInterfacePattern(usesType: bool, cu: CompilationUnit)
    requires AddMissing.Run(Toy(), AddMissing.Recipe("com.boo.MyInterface",
      SignaturePattern("com.boo.MyInterface", "myMethod", Parameters([])), ValidTemplate), usesType, cu).Ok?
    ensures
      var r := AddMissing.Recipe("com.boo.MyInterface",
        SignaturePattern("com.boo.MyInterface", "myMethod", Parameters([])), ValidTemplate);
      && AddMissing.AppendedMethodMatches(Toy(), r)
      && AddMissing.Run(Toy(), r, usesType, AddMissing.Run(Toy(), r, usesType, cu).value) == AddMissing.Run(Toy(), r, usesType, cu)
  {
    var r := AddMissing.Recipe("com.boo.MyInterface",
      SignaturePattern("com.boo.MyInterface", "myMethod", Parameters([])), ValidTemplate);
    AddMissing.Idempotent(Toy(), r, usesType, cu);
  }
}
