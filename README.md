# Editing rules of the Azure SDK migration recipes

This project models the OpenRewrite recipes in `com.azure.recipes.v2recipes` that edit Java
source trees while migrating code to the new Azure SDK. It models the rules the recipes
themselves implement:

- **Declaration removal** (`DeleteMethod`, `RemoveMethodDeclaration`): each class body is
  rebuilt without the method declarations the method matcher accepts. Nested classes are
  edited first.
- **Add-if-absent** (`AddMethodDeclaration`, `AddMissingMethod`, `AddMissingInterfaceMethod`,
  `TestInsertMethod`): a chain of guards decides whether a class gets a method template
  appended as its last member. The guards are an unresolved type, the class name or
  assignability, concreteness, and an existing matching method.
- **Call removal** (`RemoveMethodCall`): a visitor decides, per method invocation or
  constructor call, whether to delete it, and records an import-removal hint. The enclosing
  statement is then rewritten.

The OpenRewrite library these rules call is not part of this model. It enters as a `Library`
value of opaque functions (`openrewrite.dfy`), which every recipe takes as a parameter:

- `MethodMatcher.matches` on a method type or a call;
- `MethodMatcher.matches` on a method declaration in the class that encloses it;
- `TypeUtils.isAssignableTo`;
- `JavaTemplate.apply`, whose `None` result stands for a thrown exception.

The outcome of the `UsesType` precondition is a boolean input.

Layout:

- `lst.dfy`: the Java tree the recipes read and rebuild, plus the order-preserving filter
  behind `ListUtils.map` with a null-returning lambda.
- `traversal.dfy`: `super.visitClassDeclaration`, a bottom-up traversal parameterised by the
  edit applied to each class. It comes in two versions: one for edits that always succeed,
  and one for edits that may throw. It also holds the results shared by all recipes:
  - an edit that changes nothing leaves the tree unchanged;
  - a traversal whose edit settles after one application, and which adds no nested classes,
    is idempotent.
- `member_filter.dfy`: the member-list filter common to the two removal recipes.
- `guards.dfy`: the concreteness test, the existence check (`anyMatch`), and append-as-last.
- One file per recipe. `add_missing.dfy` models both `AddMissingMethod` and
  `AddMissingInterfaceMethod`, whose options, precondition and visitor are the same.
- `remove_method_call.dfy`: the call-removal rules as functions, together with
  `RemoveMethodCallVisitor`. That class has the argument loop and accumulates the import hints
  in a field. Each of its methods is proved equal to the rule functions.
- `scenarios.dfy`: the repository's test cases, checked against a small concrete library.
  The library compares method name, parameter list (`(..)` accepts any) and owner type. With
  override matching on, a type the method overrides, or a supertype of the enclosing class,
  also counts as the owner.

Three behaviours of the code are easy to miss:

- **Concreteness guard of the AddMissing recipes.** The guard rejects only the Abstract
  modifier and the Interface kind (`AddMissingMethod.java` line 79, `AddMissingInterfaceMethod.java`
  line 86). Enum, annotation, record and value declarations pass.
- **Override matching.** Only `DeleteMethod` forces override matching (`DeleteMethod.java`
  line 69). `RemoveMethodDeclaration` passes its option to the matcher unchanged, null included
  (`RemoveMethodDeclaration.java` line 66).
- **`DeleteMethod` ignores its stored option.** The constructor turns a null option into true
  and keeps any other value (`DeleteMethod.java` lines 47-48). The visitor never reads the result.

## Model

| member | source | states |
|---|---|---|
| Lst.RemoveWhere | rewrite-java-core/src/main/java/com/azure/recipes/v2recipes/DeleteMethod.java:87-96 | the filtered list holds only elements of the input for which the lambda does not return null, and keeps every such element; a list where nothing is dropped is unchanged; a list where everything is dropped becomes empty |
| Lst.RemoveWhereConcat | rewrite-java-core/src/main/java/com/azure/recipes/v2recipes/DeleteMethod.java:87-96 | filtering a concatenation is the concatenation of the filtered parts, so kept statements keep their relative order |
| Lst.KeptElementStaysInPlace | rewrite-java-core/src/main/java/com/azure/recipes/v2recipes/DeleteMethod.java:87-96 | a kept statement stays between the kept statements before it and those after it |
| Lst.RemoveWhereIdempotent | rewrite-java-core/src/main/java/com/azure/recipes/v2recipes/DeleteMethod.java:87-96 | filtering a second time with the same lambda changes nothing |
| Traversal.VisitClass | rewrite-java-core/src/main/java/com/azure/recipes/v2recipes/DeleteMethod.java:85-97 | `super.visitClassDeclaration` followed by the recipe's edit: nested classes are visited first, and the edit then runs on the class holding the visited members (likewise AddMethodDeclaration.java lines 95-96, RemoveMethodDeclaration.java lines 71-72, TestInsertMethod.java lines 39-40). No contract of its own: its behaviour is stated by Traversal.VisitMembers, Traversal.FixedPoint, Traversal.FlatClass and Traversal.VisitIdempotent |
| Traversal.VisitMembers | rewrite-java-core/src/main/java/com/azure/recipes/v2recipes/DeleteMethod.java:86 | super.visitClassDeclaration keeps every member in its place and visits each nested class |
| Traversal.VisitClasses | rewrite-java-core/src/main/java/com/azure/recipes/v2recipes/DeleteMethod.java:86 | every top-level class of a file is visited, in place |
| Traversal.FixedPoint | rewrite-java-core/src/main/java/com/azure/recipes/v2recipes/DeleteMethod.java:86-97 | if the edit returns every class reachable from a class unchanged, the visit returns the class unchanged |
| Traversal.UnitFixedPoint | rewrite-java-core/src/main/java/com/azure/recipes/v2recipes/DeleteMethod.java:86-97 | the same for a whole file |
| Traversal.FlatClass | rewrite-java-core/src/main/java/com/azure/recipes/v2recipes/DeleteMethod.java:86-97 | a class with no nested classes is edited exactly once |
| Traversal.FlatUnit | rewrite-java-core/src/main/java/com/azure/recipes/v2recipes/DeleteMethod.java:86-97 | a file of such classes has each class edited once, in place |
| Traversal.VisitIdempotent | rewrite-java-core/src/main/java/com/azure/recipes/v2recipes/DeleteMethod.java:86-97 | visiting a visited class again changes nothing, when the edit settles after one application and adds no nested class |
| Traversal.UnitIdempotent | rewrite-java-core/src/main/java/com/azure/recipes/v2recipes/DeleteMethod.java:86-97 | the same for a whole file |
| Traversal.VisitClassOrFail | rewrite-java-core/src/main/java/com/azure/recipes/v2recipes/AddMissingMethod.java:75-76 | the same traversal for an edit that may throw; the first exception ends the visit (likewise AddMissingInterfaceMethod.java lines 71-72). No contract of its own: its behaviour is stated by Traversal.VisitMembersOrFail, Traversal.FixedPointOrFail, Traversal.FlatClassOrFail and Traversal.VisitIdempotentOrFail |
| Traversal.VisitMembersOrFail | rewrite-java-core/src/main/java/com/azure/recipes/v2recipes/AddMissingMethod.java:76 | with an edit that may throw, a member list is visited without an exception exactly when every member is; the result then has the same length, and each position holds the successful visit of the member there |
| Traversal.VisitClassesOrFail | rewrite-java-core/src/main/java/com/azure/recipes/v2recipes/AddMissingMethod.java:66-76 | the same for the top-level classes of a file: no exception exactly when no class's visit throws, and then each class is replaced by its visit, in place |
| Traversal.FixedPointOrFail | rewrite-java-core/src/main/java/com/azure/recipes/v2recipes/AddMissingMethod.java:76-111 | an edit that returns every reachable class unchanged leaves the class unchanged and throws nothing |
| Traversal.UnitFixedPointOrFail | rewrite-java-core/src/main/java/com/azure/recipes/v2recipes/AddMissingMethod.java:76-111 | the same for a whole file |
| Traversal.FlatClassOrFail | rewrite-java-core/src/main/java/com/azure/recipes/v2recipes/AddMissingMethod.java:76-111 | a class with no nested classes is edited once, and its outcome, exception included, is the edit's |
| Traversal.VisitIdempotentOrFail | rewrite-java-core/src/main/java/com/azure/recipes/v2recipes/AddMissingMethod.java:76-111 | a visit that succeeded, repeated on its output, succeeds with the same class |
| Traversal.UnitIdempotentOrFail | rewrite-java-core/src/main/java/com/azure/recipes/v2recipes/AddMissingMethod.java:76-111 | the same for a whole file |
| MemberFilter.FilterClass | rewrite-java-core/src/main/java/com/azure/recipes/v2recipes/DeleteMethod.java:87-96 | only the member list changes; every kept member is one the test does not drop, and every member the test does not drop is kept |
| MemberFilter.FilterKeepsOrder | rewrite-java-core/src/main/java/com/azure/recipes/v2recipes/DeleteMethod.java:87-96 | a kept member stays between the kept members before and after it |
| MemberFilter.FilterRemovesEveryMatch | rewrite-java-core/src/main/java/com/azure/recipes/v2recipes/DeleteMethod.java:86-96 | after the visit no dropped member is left, in the class or in any nested class |
| MemberFilter.CleanIsUnchanged | rewrite-java-core/src/main/java/com/azure/recipes/v2recipes/DeleteMethod.java:86-97 | a class with nothing to drop, at any depth, is returned unchanged |
| MemberFilter.FilterIdempotent | rewrite-java-core/src/main/java/com/azure/recipes/v2recipes/RemoveMethodDeclaration.java:72-83 | visiting a class twice with the filter is visiting it once |
| MemberFilter.UnitFilterIdempotent | rewrite-java-core/src/main/java/com/azure/recipes/v2recipes/RemoveMethodDeclaration.java:72-83 | the same for a whole file |
| DeleteMethod.Create | rewrite-java-core/src/main/java/com/azure/recipes/v2recipes/DeleteMethod.java:44-49 | the pattern is kept; a null `matchOverrides` becomes TRUE and any other value is kept |
| DeleteMethod.Visit | rewrite-java-core/src/main/java/com/azure/recipes/v2recipes/DeleteMethod.java:71-99 | the visitor on one class and everything nested in it. No contract of its own: DeleteMethod.EditOneClass, DeleteMethod.RemovesEveryMatch and DeleteMethod.NoMatchNoChange state what it does |
| DeleteMethod.Run | rewrite-java-core/src/main/java/com/azure/recipes/v2recipes/DeleteMethod.java:66-100 | the recipe over a file. No contract of its own: DeleteMethod.Idempotent and DeleteMethod.IgnoresMatchOverrides state what it does |
| DeleteMethod.Matcher | rewrite-java-core/src/main/java/com/azure/recipes/v2recipes/DeleteMethod.java:69 | the visitor's matcher has override matching on, whatever the option |
| DeleteMethod.IgnoresMatchOverrides | rewrite-java-core/src/main/java/com/azure/recipes/v2recipes/DeleteMethod.java:69 | two recipes that differ only in `matchOverrides` rewrite every file identically |
| DeleteMethod.EditOneClass | rewrite-java-core/src/main/java/com/azure/recipes/v2recipes/DeleteMethod.java:87-96 | a member survives exactly when it is not a method declaration the matcher accepts in the class; every surviving member stays between the members kept before and after it; nothing but the member list changes |
| DeleteMethod.RemovesEveryMatch | rewrite-java-core/src/main/java/com/azure/recipes/v2recipes/DeleteMethod.java:86-96 | no accepted method declaration is left, at any depth |
| DeleteMethod.NoMatchNoChange | rewrite-java-core/src/main/java/com/azure/recipes/v2recipes/DeleteMethod.java:86-97 | a class in which the matcher accepts nothing is left unchanged |
| DeleteMethod.Idempotent | rewrite-java-core/src/main/java/com/azure/recipes/v2recipes/DeleteMethod.java:86-97 | a second run changes nothing |
| RemoveMethodDeclaration.Visit | rewrite-java-core/src/main/java/com/azure/recipes/v2recipes/RemoveMethodDeclaration.java:68-84 | the visitor on one class and everything nested in it. No contract of its own: RemoveMethodDeclaration.EditOneClass, RemoveMethodDeclaration.RemovesEveryMatch and RemoveMethodDeclaration.NoMatchNoChange state what it does |
| RemoveMethodDeclaration.Run | rewrite-java-core/src/main/java/com/azure/recipes/v2recipes/RemoveMethodDeclaration.java:65-85 | the recipe over a file. No contract of its own: RemoveMethodDeclaration.Idempotent states what it does |
| RemoveMethodDeclaration.Matcher | rewrite-java-core/src/main/java/com/azure/recipes/v2recipes/RemoveMethodDeclaration.java:66 | the option goes to the matcher as given, null included |
| RemoveMethodDeclaration.EditOneClass | rewrite-java-core/src/main/java/com/azure/recipes/v2recipes/RemoveMethodDeclaration.java:73-82 | a member survives exactly when it is not a method declaration whose method type the matcher accepts; survivors keep their order; nothing else changes |
| RemoveMethodDeclaration.RemovesEveryMatch | rewrite-java-core/src/main/java/com/azure/recipes/v2recipes/RemoveMethodDeclaration.java:72-82 | no accepted method declaration is left, nested classes included |
| RemoveMethodDeclaration.NoMatchNoChange | rewrite-java-core/src/main/java/com/azure/recipes/v2recipes/RemoveMethodDeclaration.java:72-83 | a class with no accepted method, at any depth, is unchanged |
| RemoveMethodDeclaration.Idempotent | rewrite-java-core/src/main/java/com/azure/recipes/v2recipes/RemoveMethodDeclaration.java:72-83 | a second run changes nothing |
| Guards.IsConcrete | rewrite-java-core/src/main/java/com/azure/recipes/v2recipes/AddMissingMethod.java:79-81 | not abstract and not an interface (likewise AddMissingInterfaceMethod.java lines 86-88). No contract of its own: AddMissing.EditClass states that a class failing it is returned unchanged |
| Guards.HasMatchingMethod | rewrite-java-core/src/main/java/com/azure/recipes/v2recipes/AddMissingMethod.java:94-99 | the existence check on the class's own members, with the class as the enclosing one. No contract of its own: Guards.AnyMethodMatches states it, and Guards.AppendedMatchIsFound states that an appended match is found |
| Guards.AnyMethodMatches | rewrite-java-core/src/main/java/com/azure/recipes/v2recipes/AddMethodDeclaration.java:103-106 | true exactly when some method declaration among the members is accepted by the matcher in the class |
| Guards.AppendedMatchIsFound | rewrite-java-core/src/main/java/com/azure/recipes/v2recipes/AddMethodDeclaration.java:103-113 | once a method the matcher accepts has been appended, the existence check finds it |
| AddMethodDeclaration.Matcher | rewrite-java-core/src/main/java/com/azure/recipes/v2recipes/AddMethodDeclaration.java:83 | the one-argument matcher: override matching off |
| AddMethodDeclaration.Visit | rewrite-java-core/src/main/java/com/azure/recipes/v2recipes/AddMethodDeclaration.java:94-122 | the visitor on one class and everything nested in it. No contract of its own: AddMethodDeclaration.EditClass states the edit of each class |
| AddMethodDeclaration.Run | rewrite-java-core/src/main/java/com/azure/recipes/v2recipes/AddMethodDeclaration.java:80-85 | the recipe over a file. No contract of its own: AddMethodDeclaration.Idempotent and AddMethodDeclaration.NoOpOnAbsentOwner state what it does |
| AddMethodDeclaration.EditClass | rewrite-java-core/src/main/java/com/azure/recipes/v2recipes/AddMethodDeclaration.java:96-120 | unchanged for an unresolved type, for any other class name, when a matching method exists, and when the template throws; otherwise exactly the template's member is appended after the unchanged members |
| AddMethodDeclaration.EditTwice | rewrite-java-core/src/main/java/com/azure/recipes/v2recipes/AddMethodDeclaration.java:103-113 | if, in every target class, the template yields a method the pattern matches there, a class edited once is not edited again |
| AddMethodDeclaration.Idempotent | rewrite-java-core/src/main/java/com/azure/recipes/v2recipes/AddMethodDeclaration.java:103-113 | under the same premise, a second run adds nothing |
| AddMethodDeclaration.NoOpOnAbsentOwner | rewrite-java-core/src/main/java/com/azure/recipes/v2recipes/AddMethodDeclaration.java:100-120 | a file in which no class, at any depth, has the target name is left unchanged |
| TestInsertMethod.Visit | rewrite-java-core/src/main/java/com/azure/recipes/v2recipes/TestInsertMethod.java:38-55 | the visitor on one class and everything nested in it. No contract of its own: TestInsertMethod.EditClass states the edit of each class |
| TestInsertMethod.Run | rewrite-java-core/src/main/java/com/azure/recipes/v2recipes/TestInsertMethod.java:26-30 | the recipe over a file. No contract of its own: TestInsertMethod.NotIdempotent states what two runs do |
| TestInsertMethod.EditClass | rewrite-java-core/src/main/java/com/azure/recipes/v2recipes/TestInsertMethod.java:40-52 | unchanged for an unresolved type or when the template throws; otherwise the fixed template's member is appended, with no owner or existence check |
| TestInsertMethod.NotIdempotent | rewrite-java-core/src/main/java/com/azure/recipes/v2recipes/TestInsertMethod.java:42-49 | a resolved class gets one more member on each run while the template applies |
| AddMissing.Matcher | rewrite-java-core/src/main/java/com/azure/recipes/v2recipes/AddMissingMethod.java:72 | the matcher has override matching on (likewise at AddMissingInterfaceMethod.java line 68) |
| AddMissing.EditClass | rewrite-java-core/src/main/java/com/azure/recipes/v2recipes/AddMissingMethod.java:75-111 | an abstract class or an interface, a class not assignable to the type, or one that already declares a matching method is returned unchanged; otherwise the template's member is appended after the unchanged members, or the edit fails with the template's exception (AddMissingInterfaceMethod.java lines 71-128 have the same chain) |
| AddMissing.Run | rewrite-java-core/src/main/java/com/azure/recipes/v2recipes/AddMissingMethod.java:66 | a file that does not use the type is returned untouched (likewise at AddMissingInterfaceMethod.java lines 62-63) |
| AddMissing.EditTwice | rewrite-java-core/src/main/java/com/azure/recipes/v2recipes/AddMissingMethod.java:94-105 | if, in every eligible class, the template yields a method the pattern matches there, a successfully edited class is not edited again |
| AddMissing.Idempotent | rewrite-java-core/src/main/java/com/azure/recipes/v2recipes/AddMissingInterfaceMethod.java:107-123 | under the same premise, a successful run repeated on its own output succeeds and adds nothing |
| AddMissing.PreconditionOnlySkips | rewrite-java-core/src/main/java/com/azure/recipes/v2recipes/AddMissingMethod.java:66-87 | when no class of the file is assignable to the type, running the visitor and skipping the file give the same unchanged file |
| AddMissing.TemplateFailureIsNotCaught | rewrite-java-core/src/main/java/com/azure/recipes/v2recipes/AddMissingMethod.java:103-105 | a template that throws in an eligible class makes the run fail with that exception, instead of leaving the class unchanged |
| RemoveMethodCall.Removable | rewrite-java-core/src/main/java/com/azure/recipes/v2recipes/RemoveMethodCall.java:97-107 | the matcher accepts the call and no argument is rejected. No contract of its own: RemoveMethodCall.RemoveMethodCallVisitor.VisitMethodCall is proved to delete exactly such calls, and RemoveMethodCall.DefaultRemovesEveryMatch reduces it to the matcher for the recipe's predicate |
| RemoveMethodCall.CallHint | rewrite-java-core/src/main/java/com/azure/recipes/v2recipes/RemoveMethodCall.java:109-111 | the declaring type of a removable call with a resolved type. No contract of its own: RemoveMethodCall.RemoveMethodCallVisitor.VisitMethodCall is proved to record exactly this hint |
| RemoveMethodCall.EditStatement | rewrite-java-core/src/main/java/com/azure/recipes/v2recipes/RemoveMethodCall.java:96-113 | a statement is changed exactly when the call in it is deletable. `call;` is deleted, `T v = call;` becomes `T v;`, and `v = call;` becomes `v;`. A rewritten statement holds no call |
| RemoveMethodCall.EditStatements | rewrite-java-core/src/main/java/com/azure/recipes/v2recipes/RemoveMethodCall.java:96-113 | no statement of the edited block holds a deletable call; the block does not grow; a block without deletable calls is unchanged |
| RemoveMethodCall.EditStatementsConcat | rewrite-java-core/src/main/java/com/azure/recipes/v2recipes/RemoveMethodCall.java:96-113 | the edit of a block, and its hints, are those of its parts taken in order |
| RemoveMethodCall.EditSingleStatement | rewrite-java-core/src/main/java/com/azure/recipes/v2recipes/RemoveMethodCall.java:96-113 | a one-statement block is rewritten by the statement's own edit and gives that statement's hints |
| RemoveMethodCall.EditStatementsIdempotent | rewrite-java-core/src/main/java/com/azure/recipes/v2recipes/RemoveMethodCall.java:96-113 | a visited block is not changed by a second visit |
| RemoveMethodCall.Visit | rewrite-java-core/src/main/java/com/azure/recipes/v2recipes/RemoveMethodCall.java:67-90 | the visitor on one class and everything nested in it. No contract of its own: RemoveMethodCall.RemoveMethodCallVisitor.VisitClassDeclaration is proved equal to it, and RemoveMethodCall.VisitedClassHintsNothing states what a second visit records |
| RemoveMethodCall.EditClass | rewrite-java-core/src/main/java/com/azure/recipes/v2recipes/RemoveMethodCall.java:67 | each method body of the class is visited in place; fields and nested classes are left to the traversal |
| RemoveMethodCall.Idempotent | rewrite-java-core/src/main/java/com/azure/recipes/v2recipes/RemoveMethodCall.java:96-113 | a second visit of a visited file changes nothing |
| RemoveMethodCall.SettledStatementsHintNothing | rewrite-java-core/src/main/java/com/azure/recipes/v2recipes/RemoveMethodCall.java:109-111 | a block with no deletable call records no import hint |
| RemoveMethodCall.VisitedClassHintsNothing | rewrite-java-core/src/main/java/com/azure/recipes/v2recipes/RemoveMethodCall.java:109-111 | visiting an already visited class records no import hint |
| RemoveMethodCall.DefaultRemovesEveryMatch | rewrite-java-core/src/main/java/com/azure/recipes/v2recipes/RemoveMethodCall.java:63 | with the recipe's own predicate a call is deletable exactly when the matcher accepts it, and no accepted call is left in a visited block |
| RemoveMethodCall.SameRuleForConstructors | rewrite-java-core/src/main/java/com/azure/recipes/v2recipes/RemoveMethodCall.java:82-90 | a `new` expression and a method invocation with the same method type and arguments get the same decision and the same hint |
| RemoveMethodCall.Matcher | rewrite-java-core/src/main/java/com/azure/recipes/v2recipes/RemoveMethodCall.java:63 | the recipe's visitor matches with override matching on |
| RemoveMethodCall.RemoveMethodCallVisitor.constructor | rewrite-java-core/src/main/java/com/azure/recipes/v2recipes/RemoveMethodCall.java:66-75 | the visitor holds the given matcher and predicate and has recorded no hint |
| RemoveMethodCall.RemoveMethodCallVisitor.MaybeRemoveImport | rewrite-java-core/src/main/java/com/azure/recipes/v2recipes/RemoveMethodCall.java:110 | the type is added to the recorded hints |
| RemoveMethodCall.RemoveMethodCallVisitor.VisitMethodCall | rewrite-java-core/src/main/java/com/azure/recipes/v2recipes/RemoveMethodCall.java:96-114 | the call is deleted exactly when the matcher accepts it and every argument, with its index, satisfies the predicate. A deleted call with a resolved type adds its declaring type to the hints; otherwise the hints are unchanged |
| RemoveMethodCall.RemoveMethodCallVisitor.VisitStatement | rewrite-java-core/src/main/java/com/azure/recipes/v2recipes/RemoveMethodCall.java:82-90 | the statement's rewrite is `EditStatement`, and its call's hint is recorded |
| RemoveMethodCall.RemoveMethodCallVisitor.VisitStatements | rewrite-java-core/src/main/java/com/azure/recipes/v2recipes/RemoveMethodCall.java:82-90 | the block's rewrite is `EditStatements`, and the hints of all its calls are recorded |
| RemoveMethodCall.RemoveMethodCallVisitor.VisitMember | rewrite-java-core/src/main/java/com/azure/recipes/v2recipes/RemoveMethodCall.java:67 | a member is visited as the traversal prescribes, and its hints are recorded |
| RemoveMethodCall.RemoveMethodCallVisitor.VisitMembers | rewrite-java-core/src/main/java/com/azure/recipes/v2recipes/RemoveMethodCall.java:67 | each member is visited in place, and their hints are recorded |
| RemoveMethodCall.RemoveMethodCallVisitor.VisitClassDeclaration | rewrite-java-core/src/main/java/com/azure/recipes/v2recipes/RemoveMethodCall.java:67 | the class becomes `Visit` of it, and every hint from its calls at any depth is recorded |
| RemoveMethodCall.RemoveMethodCallVisitor.VisitCompilationUnit | rewrite-java-core/src/main/java/com/azure/recipes/v2recipes/RemoveMethodCall.java:67 | the file becomes `VisitUnit` of it, with all its hints recorded |
| RemoveMethodCall.Run | rewrite-java-core/src/main/java/com/azure/recipes/v2recipes/RemoveMethodCall.java:62-64 | the recipe's visitor, with override matching on and the accept-all predicate, yields the rewritten file and exactly the hints of the calls it deleted |
| Scenarios.DeleteMethodAllOverloads | rewrite-java-core/src/test/java/DeleteMethodTest.java:30-44 | `myMethod(..)` deletes all four overloads |
| Scenarios.DeleteMethodKeepsField | rewrite-java-core/src/test/java/HttpTraitDeleteMethodTest.java:53-75 | the implementation of `HttpTrait.clientOptions` is deleted and the field `clientOptions` stays |
| Scenarios.DeleteMethodUnrelatedClass | rewrite-java-core/src/test/java/HttpTraitDeleteMethodTest.java:40-46 | a same-named method in an unrelated class stays |
| Scenarios.RemoveDeclarationSimple | rewrite-java-core/src/test/java/RemoveMethodDeclarationTest.java:33-44 | with both recipes of the test run in order, the method of `com.boo.MyClass` is removed (method bodies are left empty: the recipe never reads them) |
| Scenarios.RemoveDeclarationInnerClass | rewrite-java-core/src/test/java/RemoveMethodDeclarationTest.java:50-64 | with both recipes of the test run in order, the inner class's method is removed and the inner class stays; the first recipe changes nothing |
| Scenarios.RemoveDeclarationOverriding | rewrite-java-core/src/test/java/RemoveMethodDeclarationTest.java:71-88 | with both recipes of the test run in order, the pattern on `com.boo.MyClass` removes its override and keeps the parent's method; the second recipe changes nothing (method bodies are left empty: the recipe never reads them) |
| Scenarios.RemoveDeclarationOverridden | rewrite-java-core/src/test/java/RemoveMethodDeclarationTest.java:95-111 | with both recipes of the test run in order, the pattern on the base class, with overrides on, removes both methods (method bodies are left empty) |
| Scenarios.AddDeclarationDefault | rewrite-java-core/src/test/java/AddMethodDeclarationTest.java:43-53 | the method is appended to the named class, and a second run adds nothing |
| Scenarios.AddDeclarationDefaultIdempotent | rewrite-java-core/src/test/java/AddMethodDeclarationTest.java:43-53 | the test's recipe meets the premise of `AddMethodDeclaration.Idempotent`, so a second run adds nothing to any file |
| Scenarios.AddDeclarationInvalidTemplate | rewrite-java-core/src/test/java/AddMethodDeclarationTest.java:59-64 | a template that does not parse leaves the class unchanged |
| Scenarios.CallOtherOwnerKept | rewrite-java-core/src/test/java/RemoveMethodCallTest.java:33-41 | a same-named call on another owner is kept and records no hint |
| Scenarios.CallStatementRemoved | rewrite-java-core/src/test/java/RemoveMethodCallTest.java:47-61 | `myMethod();` disappears and its declaring type is recorded |
| Scenarios.CallInitializerDropped | rewrite-java-core/src/test/java/RemoveMethodCallTest.java:87-109 | `int a = t.myMethod();` becomes `int a;` and the constructor call before it stays |
| Scenarios.CallAssignmentBecomesReference | rewrite-java-core/src/test/java/RemoveMethodCallTest.java:116-140 | `MyClass t = new MyClass(); int a; a = t.myMethod();` becomes `MyClass t = new MyClass(); int a; a;` |
| Scenarios.CallThroughSuperRemoved | rewrite-java-core/src/test/java/RemoveMethodCallTest.java:171-191 | `int a = super.myMethod();` becomes `int a;` |
| Scenarios.CallToImplementationRemoved | rewrite-java-core/src/test/java/RemoveMethodCallTest.java:198-220 | a call to the implementation of an interface method is removed, since override matching is on |
| Scenarios.AddMissingIdempotentForInterfacePattern | rewrite-java-core/src/main/java/com/azure/recipes/v2recipes/AddMissingMethod.java:94-105 | a recipe whose pattern names the interface itself meets the premise of `AddMissing.Idempotent`, so a successful run repeated succeeds and adds nothing |

## Left out

- The method pattern language (`*`, `..`, type names) and MethodMatcher's override closure. These are OpenRewrite code. The matcher is an opaque function of a parsed `SignaturePattern` and the override flag. `scenarios.dfy` gives one small concrete instance.
- JavaTemplate parsing, type attribution and `#{}` substitution. Template application is an opaque function from the template text, its parameters and the class to the member it appends, or to `None` when it throws.
- `TypeUtils.isAssignableTo` is an opaque relation. The `UsesType` search is a boolean input of `AddMissing.Run`.
- The matcher on a method declaration reads the enclosing class only through its type. `DeleteMethod` passes the class as it was before its nested classes were visited, which has the same type as the visited one.
- The framework's general repair of a tree after a visitor returns null for a call. Only the three statement shapes of the tests are modelled.
- Calls nested inside arguments, receivers or other expressions. Because they are not represented, the visit of a rejected call's children is not modelled either.
- Calls inside compound statements and outside method bodies. The bodies of `if`, `for`, `while` and `try`, nested blocks and lambdas are opaque `OtherStatement`s. Field initializers and initializer blocks are not represented: a `Field` holds only a type and a name. The source's `visitMethodInvocation` reaches every call in the tree and would delete such a call; the model never visits it.
- Local and anonymous classes inside method bodies. The traversal covers member classes, at any depth.
- RemoveMethodCall.RemoveMethodCallVisitor.VisitMethodCall: the method tests the predicate at each index in order and stops at the first rejection. A call written with no arguments carries the one `Empty` argument, as OpenRewrite's argument list does, so the predicate is tested once with index 0. The contract states only the decision: the predicate is a pure function, so the order of its calls is not observable.
- The import edit that `maybeRemoveImport` schedules. Only the hint is recorded.
- The `System.out.println` of `AddMethodDeclaration`, which is output only.
- Jackson and Lombok annotations, display names and descriptions.
- The no-argument `DeleteMethod()` and the two-argument `AddMethodDeclaration` used by some tests. Neither exists in the recipe classes. The scenarios use the recipes' real constructors.
- The tests that exercise only library recipes or the recipe list file.
- Whitespace and formatting of the output.
- `TestInsertMethod.Code` holds the same characters as the Java string literal. Whether JavaTemplate accepts that text is left to the opaque template function.
