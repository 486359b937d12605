/**
 * The RemoveMethodCall recipe: delete every method invocation or constructor call that the
 * matcher accepts and whose arguments all satisfy the argument predicate, and record an
 * import-removal hint for the declaring type of each deleted call.
 *
 * The framework's handling of a deleted call (the visitor returns null) is modelled for the
 * three statement shapes a call can sit in directly: `call;` disappears, `T v = call;`
 * becomes `T v;`, and `v = call;` becomes `v;`.
 */
module RemoveMethodCall {
  import opened Wrappers
  import opened Lst
  import opened OpenRewrite
  import Traversal

  /** BiPredicate<Integer, Expression>: an argument's index and the argument. */
  type ArgumentPredicate = (int, Expression) -> bool

  /** What a visitor is built from: the library, its matcher and its argument predicate. */
  datatype Rule = Rule(lib: Library, methodMatcher: MethodMatcher, argumentPredicate: ArgumentPredicate)

  /** Every argument, with its index, satisfies the predicate. */
  predicate AllArgumentsAccepted(pred: ArgumentPredicate, args: seq<Expression>) {
    forall i :: 0 <= i < |args| ==> pred(i, args[i])
  }

  /** The visitor returns null for this call: the matcher accepts it and no argument is rejected. */
  predicate Removable(rl: Rule, c: Call) {
    rl.lib.matchesType(rl.methodMatcher, c.methodType) && AllArgumentsAccepted(rl.argumentPredicate, c.arguments)
  }

  /** maybeRemoveImport is called with the declaring type of a removed call whose type is resolved. */
  function CallHint(rl: Rule, c: Call): set<string> {
    if Removable(rl, c) && c.methodType.Some? then {c.methodType.value.declaringType} else {}
  }

  /** How the enclosing statement is rewritten. */
  datatype EditResult<T> = Unchanged | Replaced(replacement: T) | Deleted

  /** The call that sits directly in a statement, if the statement has one of the three shapes. */
  function DirectCall(s: Statement): Option<Call> {
    match s
    case ExpressionStatement(c) => Some(c)
    case LocalVariable(_, _, Some(CallExpr(c))) => Some(c)
    case Assignment(_, CallExpr(c)) => Some(c)
    case _ => None
  }

  /** The statement holds no call the visitor would delete. */
  predicate Settled(rl: Rule, s: Statement) {
    DirectCall(s).None? || !Removable(rl, DirectCall(s).value)
  }

  /** The rewrite of one statement after its call has been visited. */
  function EditStatement(rl: Rule, s: Statement): (r: EditResult<Statement>)
    ensures r.Unchanged? <==> Settled(rl, s)
    ensures r.Deleted? <==> s.ExpressionStatement? && Removable(rl, s.call)
    ensures r.Replaced? ==> Settled(rl, r.replacement) && DirectCall(r.replacement).None?
    ensures r.Replaced? && s.LocalVariable? ==> r.replacement == s.(initializer := None)
    ensures r.Replaced? && s.Assignment? ==> r.replacement == Reference(s.variable)
    ensures r.Replaced? ==> s.LocalVariable? || s.Assignment?
  {
    match s
    case ExpressionStatement(c) => if Removable(rl, c) then Deleted else Unchanged
    case LocalVariable(t, v, Some(CallExpr(c))) =>
      if Removable(rl, c) then Replaced(LocalVariable(t, v, None)) else Unchanged
    case Assignment(v, CallExpr(c)) => if Removable(rl, c) then Replaced(Reference(v)) else Unchanged
    case _ => Unchanged
  }

  /** The statements that take the place of `s` in its block. */
  function Apply(s: Statement, r: EditResult<Statement>): seq<Statement> {
    match r
    case Unchanged => [s]
    case Replaced(t) => [t]
    case Deleted => []
  }

  /** A block after the visit: each statement rewritten in place, deleted ones left out. */
  function EditStatements(rl: Rule, ss: seq<Statement>): (r: seq<Statement>)
    ensures forall i :: 0 <= i < |r| ==> Settled(rl, r[i])
    ensures |r| <= |ss|
    ensures (forall i :: 0 <= i < |ss| ==> Settled(rl, ss[i])) ==> r == ss
  {
    if ss == [] then []
    else
      var s := ss[|ss| - 1];
      var prefix := ss[..|ss| - 1];
      assert forall i :: 0 <= i < |prefix| ==> prefix[i] == ss[i];
      EditStatements(rl, prefix) + Apply(s, EditStatement(rl, s))
  }

  /** The edit of a block is the edit of its parts, one after the other. */
  lemma {:induction false} EditStatementsConcat(rl: Rule, a: seq<Statement>, b: seq<Statement>)
    ensures EditStatements(rl, a + b) == EditStatements(rl, a) + EditStatements(rl, b)
    ensures StatementsHints(rl, a + b) == StatementsHints(rl, a) + StatementsHints(rl, b)
    decreases |b|
  {
    if b == [] {
      assert a + b == a;
    } else {
      var b' := b[..|b| - 1];
      assert (a + b)[..|a + b| - 1] == a + b';
      assert (a + b)[|a + b| - 1] == b[|b| - 1];
      EditStatementsConcat(rl, a, b');
    }
  }

  /** A one-statement block is rewritten by the statement's own edit. */
  lemma EditSingleStatement(rl: Rule, s: Statement)
    ensures EditStatements(rl, [s]) == Apply(s, EditStatement(rl, s))
    ensures StatementsHints(rl, [s]) == StatementHints(rl, s)
  {
    assert [s][..0] == [];
  }

  /** A block that has been visited holds no call left to delete, so a second visit keeps it. */
  lemma EditStatementsIdempotent(rl: Rule, ss: seq<Statement>)
    ensures EditStatements(rl, EditStatements(rl, ss)) == EditStatements(rl, ss)
  {
  }

  /** The hints a statement's call gives. */
  function StatementHints(rl: Rule, s: Statement): set<string> {
    match DirectCall(s)
    case None => {}
    case Some(c) => CallHint(rl, c)
  }

  function StatementsHints(rl: Rule, ss: seq<Statement>): set<string> {
    if ss == [] then {} else StatementsHints(rl, ss[..|ss| - 1]) + StatementHints(rl, ss[|ss| - 1])
  }

  /** A method declaration's body after the visit; fields and nested classes are left to the traversal. */
  function EditMember(rl: Rule, m: Member): Member {
    match m
    case Method(d) => Method(d.(body := EditStatements(rl, d.body)))
    case _ => m
  }

  /** The edit the traversal applies to each class: every method body of the class is visited. */
  function EditClass(rl: Rule, cd: ClassDeclaration): (res: ClassDeclaration)
    ensures res.(members := cd.members) == cd
    ensures |res.members| == |cd.members|
    ensures forall i :: 0 <= i < |cd.members| ==> res.members[i] == EditMember(rl, cd.members[i])
  {
    cd.(members := seq(|cd.members|, i requires 0 <= i < |cd.members| => EditMember(rl, cd.members[i])))
  }

  function Editor(rl: Rule): ClassDeclaration -> ClassDeclaration {
    cd => EditClass(rl, cd)
  }

  /** The edited class, nested classes included. */
  function Visit(rl: Rule, c: ClassDeclaration): ClassDeclaration {
    Traversal.VisitClass(c, Editor(rl))
  }

  /** The edited file. */
  function VisitUnit(rl: Rule, cu: CompilationUnit): CompilationUnit {
    Traversal.VisitUnit(cu, Editor(rl))
  }

  function MemberHints(rl: Rule, m: Member): set<string>
    decreases m, 1
  {
    match m
    case Method(d) => StatementsHints(rl, d.body)
    case Field(_, _) => {}
    case Nested(n) => ClassHints(rl, n)
  }

  function MembersHints(rl: Rule, ms: seq<Member>): set<string>
    decreases ms
  {
    if ms == [] then {} else MembersHints(rl, ms[..|ms| - 1]) + MemberHints(rl, ms[|ms| - 1])
  }

  /** Every hint the visit of a class records, nested classes included. */
  function ClassHints(rl: Rule, c: ClassDeclaration): set<string>
    decreases c
  {
    MembersHints(rl, c.members)
  }

  function UnitHints(rl: Rule, cs: seq<ClassDeclaration>): set<string> {
    if cs == [] then {} else UnitHints(rl, cs[..|cs| - 1]) + ClassHints(rl, cs[|cs| - 1])
  }

  /** Visiting a class twice is visiting it once: no call is left for the second visit to delete. */
  lemma Idempotent(rl: Rule, cu: CompilationUnit)
    ensures VisitUnit(rl, VisitUnit(rl, cu)) == VisitUnit(rl, cu)
  {
    var edit := Editor(rl);
    forall d ensures edit(edit(d)) == edit(d) {
      var e := edit(d);
      forall i | 0 <= i < |d.members| ensures edit(e).members[i] == e.members[i] {
        if d.members[i].Method? {
          EditStatementsIdempotent(rl, d.members[i].decl.body);
        }
      }
    }
    forall d, m | m in edit(d).members && m.Nested? ensures m in d.members {
      var i :| 0 <= i < |edit(d).members| && edit(d).members[i] == m;
      assert d.members[i] == m;
    }
    Traversal.UnitIdempotent(cu.classes, edit);
  }

  /** A block in which no statement holds a call to delete records no hint. */
  lemma {:induction false} SettledStatementsHintNothing(rl: Rule, ss: seq<Statement>)
    requires forall i :: 0 <= i < |ss| ==> Settled(rl, ss[i])
    ensures StatementsHints(rl, ss) == {}
  {
    if ss != [] {
      var prefix := ss[..|ss| - 1];
      assert forall i :: 0 <= i < |prefix| ==> prefix[i] == ss[i];
      SettledStatementsHintNothing(rl, prefix);
    }
  }

  /** Members none of which records a hint together record none. */
  lemma {:induction false} MembersHintNothing(rl: Rule, ms: seq<Member>)
    requires forall i :: 0 <= i < |ms| ==> MemberHints(rl, ms[i]) == {}
    ensures MembersHints(rl, ms) == {}
  {
    if ms != [] {
      var prefix := ms[..|ms| - 1];
      assert forall i :: 0 <= i < |prefix| ==> prefix[i] == ms[i];
      MembersHintNothing(rl, prefix);
    }
  }

  /** Visiting an already visited class records no import hint. */
  lemma {:induction false} VisitedClassHintsNothing(rl: Rule, c: ClassDeclaration)
    ensures ClassHints(rl, Visit(rl, c)) == {}
    decreases c
  {
    var v := Visit(rl, c);
    var inner := Traversal.VisitMembers(c.members, Editor(rl));
    forall i | 0 <= i < |v.members| ensures MemberHints(rl, v.members[i]) == {} {
      VisitedMemberHintsNothing(rl, c.members[i]);
      assert v.members[i] == EditMember(rl, inner[i]);
    }
    MembersHintNothing(rl, v.members);
  }

  lemma {:induction false} VisitedMemberHintsNothing(rl: Rule, m: Member)
    ensures MemberHints(rl, EditMember(rl, Traversal.VisitMember(m, Editor(rl)))) == {}
    decreases m
  {
    match m {
      case Method(d) =>
        SettledStatementsHintNothing(rl, EditStatements(rl, d.body));
      case Field(_, _) =>
      case Nested(n) =>
        VisitedClassHintsNothing(rl, n);
    }
  }

  /** The accepting predicate the recipe builds its visitor with: `(n, it) -> true`. */
  function AcceptAll(): ArgumentPredicate {
    (n: int, it: Expression) => true
  }

  /** With the recipe's own predicate, a call is deleted exactly when the matcher accepts it. */
  lemma {:induction false} DefaultRemovesEveryMatch(lib: Library, mm: MethodMatcher, ss: seq<Statement>)
    ensures forall c :: Removable(Rule(lib, mm, AcceptAll()), c) <==> lib.matchesType(mm, c.methodType)
    ensures forall i :: 0 <= i < |EditStatements(Rule(lib, mm, AcceptAll()), ss)| ==>
      var s := EditStatements(Rule(lib, mm, AcceptAll()), ss)[i];
      DirectCall(s).None? || !lib.matchesType(mm, DirectCall(s).value.methodType)
  {
    var rl := Rule(lib, mm, AcceptAll());
    forall c: Call ensures AllArgumentsAccepted(rl.argumentPredicate, c.arguments) {
    }
  }

  /** Invocations and constructor calls are judged by the same rule. */
  lemma SameRuleForConstructors(rl: Rule, c: Call)
    ensures Removable(rl, c.(kind := NewClass)) == Removable(rl, c.(kind := Invocation))
    ensures CallHint(rl, c.(kind := NewClass)) == CallHint(rl, c.(kind := Invocation))
    ensures EditStatement(rl, ExpressionStatement(c.(kind := NewClass))).Deleted?
        == EditStatement(rl, ExpressionStatement(c.(kind := Invocation))).Deleted?
  {
  }

  /** The recipe's option: the method pattern. */
  datatype Recipe = Recipe(methodPattern: SignaturePattern)

  /** `new MethodMatcher(methodPattern, true)`: override matching on. */
  function Matcher(r: Recipe): (m: MethodMatcher)
    ensures m.pattern == r.methodPattern && m.matchOverrides == Some(true)
  {
    MethodMatcher(r.methodPattern, Some(true))
  }

  /** RemoveMethodCallVisitor: the matcher, the argument predicate and the import hints it records. */
  class RemoveMethodCallVisitor {
    const lib: Library
    const methodMatcher: MethodMatcher
    const argumentPredicate: ArgumentPredicate
    /** The types passed to maybeRemoveImport so far. */
    var importHints: set<string>

    function CurrentRule(): Rule {
      Rule(lib, methodMatcher, argumentPredicate)
    }

    constructor (lib: Library, methodMatcher: MethodMatcher, argumentPredicate: ArgumentPredicate)
      ensures this.lib == lib && this.methodMatcher == methodMatcher && this.argumentPredicate == argumentPredicate
      ensures importHints == {}
    {
      this.lib := lib;
      this.methodMatcher := methodMatcher;
      this.argumentPredicate := argumentPredicate;
      importHints := {};
    }

    method MaybeRemoveImport(typeName: string)
      modifies this
      ensures importHints == old(importHints) + {typeName}
    {
      importHints := importHints + {typeName};
    }

    /**
     * visitMethodCall: true when the call is to be deleted (the Java method returns null).
     * The arguments are tested in index order and the first rejected one ends the test.
     */
    method VisitMethodCall(call: Call) returns (delete: bool)
      modifies this
      ensures delete <==> lib.matchesType(methodMatcher, call.methodType)
                          && forall i :: 0 <= i < |call.arguments| ==> argumentPredicate(i, call.arguments[i])
      ensures delete && call.methodType.Some? ==> importHints == old(importHints) + {call.methodType.value.declaringType}
      ensures !(delete && call.methodType.Some?) ==> importHints == old(importHints)
    {
      if !lib.matchesType(methodMatcher, call.methodType) {
        return false;
      }
      var i := 0;
      while i < |call.arguments|
        invariant 0 <= i <= |call.arguments|
        invariant forall j :: 0 <= j < i ==> argumentPredicate(j, call.arguments[j])
        invariant importHints == old(importHints)
      {
        if !argumentPredicate(i, call.arguments[i]) {
          return false;
        }
        i := i + 1;
      }
      if call.methodType.Some? {
        MaybeRemoveImport(call.methodType.value.declaringType);
      }
      return true;
    }

    /** visitMethodInvocation and visitNewClass, seen from the statement that holds the call. */
    method VisitStatement(s: Statement) returns (r: EditResult<Statement>)
      modifies this
      ensures r == EditStatement(CurrentRule(), s)
      ensures importHints == old(importHints) + StatementHints(CurrentRule(), s)
    {
      match s {
        case ExpressionStatement(c) =>
          var delete := VisitMethodCall(c);
          r := if delete then Deleted else Unchanged;
        case LocalVariable(t, v, Some(CallExpr(c))) =>
          var delete := VisitMethodCall(c);
          r := if delete then Replaced(LocalVariable(t, v, None)) else Unchanged;
        case Assignment(v, CallExpr(c)) =>
          var delete := VisitMethodCall(c);
          r := if delete then Replaced(Reference(v)) else Unchanged;
        case _ =>
          r := Unchanged;
      }
    }

    method VisitStatements(ss: seq<Statement>) returns (r: seq<Statement>)
      modifies this
      ensures r == EditStatements(CurrentRule(), ss)
      ensures importHints == old(importHints) + StatementsHints(CurrentRule(), ss)
    {
      r := [];
      var i := 0;
      while i < |ss|
        invariant 0 <= i <= |ss|
        invariant r == EditStatements(CurrentRule(), ss[..i])
        invariant importHints == old(importHints) + StatementsHints(CurrentRule(), ss[..i])
      {
        var e := VisitStatement(ss[i]);
        r := r + Apply(ss[i], e);
        assert ss[..i + 1][..i] == ss[..i];
        i := i + 1;
      }
      assert ss[..i] == ss;
    }

    method VisitMember(m: Member) returns (r: Member)
      modifies this
      ensures r == EditMember(CurrentRule(), Traversal.VisitMember(m, Editor(CurrentRule())))
      ensures importHints == old(importHints) + MemberHints(CurrentRule(), m)
      decreases m
    {
      match m {
        case Method(d) =>
          var body := VisitStatements(d.body);
          r := Method(d.(body := body));
        case Field(_, _) =>
          r := m;
        case Nested(n) =>
          var c := VisitClassDeclaration(n);
          r := Nested(c);
      }
    }

    method VisitMembers(ms: seq<Member>) returns (r: seq<Member>)
      modifies this
      ensures |r| == |ms|
      ensures forall i :: 0 <= i < |ms| ==> r[i] == EditMember(CurrentRule(), Traversal.VisitMember(ms[i], Editor(CurrentRule())))
      ensures importHints == old(importHints) + MembersHints(CurrentRule(), ms)
      decreases ms
    {
      r := [];
      var i := 0;
      while i < |ms|
        invariant 0 <= i <= |ms|
        invariant |r| == i
        invariant forall j :: 0 <= j < i ==> r[j] == EditMember(CurrentRule(), Traversal.VisitMember(ms[j], Editor(CurrentRule())))
        invariant importHints == old(importHints) + MembersHints(CurrentRule(), ms[..i])
      {
        var m := VisitMember(ms[i]);
        r := r + [m];
        assert ms[..i + 1][..i] == ms[..i];
        i := i + 1;
      }
      assert ms[..i] == ms;
    }

    /** super.visitClassDeclaration: every method body, at every depth, is visited. */
    method VisitClassDeclaration(c: ClassDeclaration) returns (r: ClassDeclaration)
      modifies this
      ensures r == Visit(CurrentRule(), c)
      ensures importHints == old(importHints) + ClassHints(CurrentRule(), c)
      decreases c
    {
      var ms := VisitMembers(c.members);
      r := c.(members := ms);
    }

    method VisitCompilationUnit(cu: CompilationUnit) returns (r: CompilationUnit)
      modifies this
      ensures r == VisitUnit(CurrentRule(), cu)
      ensures importHints == old(importHints) + UnitHints(CurrentRule(), cu.classes)
    {
      var cs := [];
      var i := 0;
      while i < |cu.classes|
        invariant 0 <= i <= |cu.classes|
        invariant |cs| == i
        invariant forall j :: 0 <= j < i ==> cs[j] == Visit(CurrentRule(), cu.classes[j])
        invariant importHints == old(importHints) + UnitHints(CurrentRule(), cu.classes[..i])
      {
        var c := VisitClassDeclaration(cu.classes[i]);
        cs := cs + [c];
        assert cu.classes[..i + 1][..i] == cu.classes[..i];
        i := i + 1;
      }
      assert cu.classes[..i] == cu.classes;
      r := CompilationUnit(cs);
    }
  }

  /** getVisitor applied to one file: the edited file and the import hints recorded. */
  method Run(lib: Library, r: Recipe, cu: CompilationUnit) returns (res: CompilationUnit, hints: set<string>)
    ensures res == VisitUnit(Rule(lib, Matcher(r), AcceptAll()), cu)
    ensures hints == UnitHints(Rule(lib, Matcher(r), AcceptAll()), cu.classes)
  {
    var v := new RemoveMethodCallVisitor(lib, Matcher(r), AcceptAll());
    res := v.VisitCompilationUnit(cu);
    hints := v.importHints;
  }
}
